/** The instance registry (`GestorInstancies`): a singleton context manager
    that creates named context-manager objects, enters them, keeps them in
    insertion order and exits them in reverse order. Constructors, `__enter__`
    and the extra-step hooks are calls into code outside the model: whether
    each succeeds is an input. Which objects were entered and exited is
    recorded in a log. */
module InstanceRegistry {
  import opened PyOps

  /** Entering or exiting a managed object's context. */
  datatype Esdeveniment = Entrat(nom: string) | Sortit(nom: string)

  /** A registered object: its name, the value its `__enter__` returned, and
      whether it is a database connection (the only kind with extra steps). */
  datatype Entrada<R> = Entrada(nom: string, recurs: R, esBD: bool)

  datatype ModeGpio = Bcm | Board

  /** The registry's state. `registre` is the dictionary in insertion order. */
  datatype Gestor<R> = Gestor(registre: seq<Entrada<R>>, gpioConfigurat: bool, modeGpio: Option<ModeGpio>, log: seq<Esdeveniment>)
  {
    /** A dictionary has each name once. */
    predicate Valid()
    {
      forall i, j :: 0 <= i < j < |registre| ==> registre[i].nom != registre[j].nom
    }
  }

  /** The registry's names, in insertion order. */
  function Noms<R>(reg: seq<Entrada<R>>): (r: seq<string>)
    ensures |r| == |reg| && forall i :: 0 <= i < |reg| ==> r[i] == reg[i].nom
  {
    seq(|reg|, i requires 0 <= i < |reg| => reg[i].nom)
  }

  /** The entry registered under a name. */
  function Cerca<R>(reg: seq<Entrada<R>>, nom: string): (r: Option<Entrada<R>>)
    ensures r.Some? <==> nom in Noms(reg)
    ensures r.Some? ==> r.value in reg && r.value.nom == nom
  {
    if |reg| == 0 then None
    else if reg[0].nom == nom then Some(reg[0])
    else
      assert nom in Noms(reg) <==> nom in Noms(reg[1..]) by {
        if nom in Noms(reg) {
          var k :| 0 <= k < |reg| && Noms(reg)[k] == nom;
          assert Noms(reg[1..])[k - 1] == nom;
        }
        if nom in Noms(reg[1..]) {
          var k :| 0 <= k < |reg| - 1 && Noms(reg[1..])[k] == nom;
          assert Noms(reg)[k + 1] == nom;
        }
      }
      Cerca(reg[1..], nom)
  }

  /** `__new__`: the class holds at most one instance; asking for one returns
      the stored instance, creating it (as `nou`) only the first time. The
      result is the instance returned and the class's stored instance. */
  function Singleton<I>(guardada: Option<I>, nou: I): (r: (I, Option<I>))
    ensures r.1 == Some(r.0)
    ensures guardada.Some? ==> r.0 == guardada.value
  {
    match guardada
    case Some(i) => (i, guardada)
    case None => (nou, Some(nou))
  }

  /** Any number of later requests return the first instance. */
  lemma SingletonIsUnique<I>(nou1: I, nou2: I)
    ensures var (a, g) := Singleton(None, nou1);
      Singleton(g, nou2).0 == a && Singleton(g, nou2).1 == g
  {
  }

  /** `crear_i_entrar_instancia`, with the hook's outcome as an input: a name
      already registered returns its stored resource and nothing is
      constructed; `objecte` is the value `__enter__` returned, or None when
      the constructor or `__enter__` raised; a failing hook loses the
      (already entered) object and returns None. Only a full success adds the
      entry, at the end. */
  function CrearAmbPassos<R>(g: Gestor<R>, nom: string, objecte: Option<R>, esBD: bool, passosOk: bool): (r: (Gestor<R>, Option<R>))
    requires g.Valid()
    ensures r.0.Valid() && r.0.gpioConfigurat == g.gpioConfigurat && r.0.modeGpio == g.modeGpio
    ensures nom in Noms(g.registre) ==> r == (g, Some(Cerca(g.registre, nom).value.recurs))
    ensures nom !in Noms(g.registre) && objecte.None? ==> r == (g, None)
    ensures nom !in Noms(g.registre) && objecte.Some? ==>
      && r.0.log == g.log + [Entrat(nom)]
      && (r.1.Some? <==> passosOk)
      && r.0.registre == (if passosOk then g.registre + [Entrada(nom, objecte.value, esBD)] else g.registre)
      && (passosOk ==> r.1 == objecte)
  {
    match Cerca(g.registre, nom)
    case Some(e) => (g, Some(e.recurs))
    case None =>
      match objecte
      case None => (g, None)
      case Some(recurs) =>
        var entrat := g.(log := g.log + [Entrat(nom)]);
        if !passosOk then (entrat, None)
        else
          var reg := g.registre + [Entrada(nom, recurs, esBD)];
          assert Noms(reg) == Noms(g.registre) + [nom];
          (entrat.(registre := reg), Some(recurs))
  }

  /** `crear_i_entrar_instancia` as written: the hook's type test names a class
      that only exists inside a string literal, so it raises NameError for
      every object. */
  function CrearTalComEsEscrit<R>(g: Gestor<R>, nom: string, objecte: Option<R>, esBD: bool): (r: (Gestor<R>, Option<R>))
    requires g.Valid()
    ensures r.0.registre == g.registre
  {
    CrearAmbPassos(g, nom, objecte, esBD, false)
  }

  /** As written, no creation of a new name ever succeeds; an object that was
      constructed and entered is dropped without being registered, so it is
      never exited either. */
  lemma EveryCreationFailsAsWritten<R>(g: Gestor<R>, nom: string, recurs: R, esBD: bool)
    requires g.Valid() && nom !in Noms(g.registre)
    ensures CrearTalComEsEscrit(g, nom, Some(recurs), esBD).1 == None
    ensures CrearTalComEsEscrit(g, nom, Some(recurs), esBD).0.registre == g.registre
    ensures CrearTalComEsEscrit(g, nom, Some(recurs), esBD).0.log == g.log + [Entrat(nom)]
  {
  }

  /** `crear_i_entrar_instancia` with the hook as intended: only a database
      connection runs extra steps, and only their failure aborts. */
  function CrearIEntrar<R>(g: Gestor<R>, nom: string, objecte: Option<R>, esBD: bool, passosOk: bool): (r: (Gestor<R>, Option<R>))
    requires g.Valid()
    ensures r.0.Valid()
    ensures nom !in Noms(g.registre) && objecte.Some? && !esBD ==>
      r.1 == objecte && r.0.registre == g.registre + [Entrada(nom, objecte.value, esBD)]
  {
    CrearAmbPassos(g, nom, objecte, esBD, !esBD || passosOk)
  }

  /** With each name stored once, the search finds the one entry of that name. */
  lemma CercaFindsTheOnly<R>(reg: seq<Entrada<R>>, nom: string)
    requires forall i, j :: 0 <= i < j < |reg| ==> reg[i].nom != reg[j].nom
    ensures forall k :: 0 <= k < |reg| && reg[k].nom == nom ==> Cerca(reg, nom) == Some(reg[k])
  {
    forall k | 0 <= k < |reg| && reg[k].nom == nom
      ensures Cerca(reg, nom) == Some(reg[k])
    {
      assert Noms(reg)[k] == nom;
      var c := Cerca(reg, nom).value;
      var j :| 0 <= j < |reg| && reg[j] == c;
      assert reg[j].nom == reg[k].nom;
    }
  }

  /** `obtenir_recurs`: the stored resource, or None for an unknown name. */
  function ObtenirRecurs<R>(g: Gestor<R>, nom: string): (r: Option<R>)
    ensures r.Some? <==> nom in Noms(g.registre)
    ensures r.Some? ==> exists e :: e in g.registre && e.nom == nom && r.value == e.recurs
    ensures g.Valid() ==> forall k :: 0 <= k < |g.registre| && g.registre[k].nom == nom ==> r == Some(g.registre[k].recurs)
  {
    var c := Cerca(g.registre, nom);
    assert g.Valid() ==> forall k :: 0 <= k < |g.registre| && g.registre[k].nom == nom ==> c == Some(g.registre[k]) by {
      if g.Valid() {
        CercaFindsTheOnly(g.registre, nom);
      }
    }
    match c
    case Some(e) => Some(e.recurs)
    case None => None
  }

  /** The registry finds what it stores by name. */
  lemma {:induction false} CerquesLastAdded<R>(reg: seq<Entrada<R>>, e: Entrada<R>)
    requires e.nom !in Noms(reg)
    ensures Cerca(reg + [e], e.nom) == Some(e)
  {
    if |reg| > 0 {
      assert (reg + [e])[1..] == reg[1..] + [e];
      assert Noms(reg) == [reg[0].nom] + Noms(reg[1..]);
      CerquesLastAdded(reg[1..], e);
    }
  }

  /** A successful creation makes its resource retrievable, and a repeated
      creation under the same name returns that same resource unchanged. */
  lemma {:induction false} CreatedResourceIsRetrievable<R>(g: Gestor<R>, nom: string, recurs: R, altre: Option<R>, esBD: bool, ok: bool)
    requires g.Valid() && nom !in Noms(g.registre) && !esBD
    ensures var g1 := CrearIEntrar(g, nom, Some(recurs), esBD, ok).0;
      && ObtenirRecurs(g1, nom) == Some(recurs)
      && CrearIEntrar(g1, nom, altre, esBD, ok) == (g1, Some(recurs))
  {
    CerquesLastAdded(g.registre, Entrada(nom, recurs, esBD));
  }

  /** The registry with one name removed, keeping the others' order (see
      `TreureTalla` and `TreureAbsent`). */
  function Treure<R>(reg: seq<Entrada<R>>, nom: string): (r: seq<Entrada<R>>)
    ensures |r| <= |reg|
    ensures forall i :: 0 <= i < |r| ==> r[i] in reg && r[i].nom != nom
    ensures forall i :: 0 <= i < |reg| && reg[i].nom != nom ==> reg[i] in r
  {
    if |reg| == 0 then []
    else if reg[0].nom == nom then Treure(reg[1..], nom)
    else [reg[0]] + Treure(reg[1..], nom)
  }

  /** The hook on leaving: only a database connection runs extra steps, and
      their failure skips the object's own `__exit__`. */
  predicate SortidaCridada<R>(e: Entrada<R>, passosFinalsOk: string -> bool)
  {
    !e.esBD || passosFinalsOk(e.nom)
  }

  /** `sortir_i_destruir_instancia`: for a registered name, run the exit steps
      and `__exit__` (errors there are reported, not raised), drop the entry
      and return True; for an unknown name return False and change nothing. */
  function SortirIDestruir<R>(g: Gestor<R>, nom: string, passosFinalsOk: string -> bool): (r: (Gestor<R>, bool))
    requires g.Valid()
    ensures r.0.Valid()
    ensures r.1 <==> nom in Noms(g.registre)
    ensures !r.1 ==> r.0 == g
    ensures r.1 ==> nom !in Noms(r.0.registre) && |r.0.registre| == |g.registre| - 1
    ensures forall i :: 0 <= i < |r.0.registre| ==> r.0.registre[i] in g.registre && r.0.registre[i].nom != nom
    ensures forall i :: 0 <= i < |g.registre| && g.registre[i].nom != nom ==> g.registre[i] in r.0.registre
    ensures r.1 ==> exists k :: 0 <= k < |g.registre| && g.registre[k].nom == nom
                                && r.0.registre == g.registre[..k] + g.registre[k + 1..]
    ensures r.1 ==> r.0.gpioConfigurat == g.gpioConfigurat && r.0.modeGpio == g.modeGpio
    ensures r.1 ==> r.0.log == g.log || r.0.log == g.log + [Sortit(nom)]
  {
    match Cerca(g.registre, nom)
    case None => (g, false)
    case Some(e) =>
      var sortida := if SortidaCridada(e, passosFinalsOk) then [Sortit(nom)] else [];
      var reg := Treure(g.registre, nom);
      TreureValid(g.registre, nom);
      assert exists k :: 0 <= k < |g.registre| && g.registre[k].nom == nom
                         && reg == g.registre[..k] + g.registre[k + 1..] by {
        ConteIffNoms(g.registre, nom);
        var k := TreureTalla(g.registre, nom);
      }
      (g.(registre := reg, log := g.log + sortida), true)
  }

  /** Removing a name from a dictionary removes exactly one entry. */
  lemma {:induction false} TreureValid<R>(reg: seq<Entrada<R>>, nom: string)
    requires NomsUnics(reg)
    ensures var r := Treure(reg, nom);
      && (forall i, j :: 0 <= i < j < |r| ==> r[i].nom != r[j].nom)
      && nom !in Noms(r)
      && |r| == (if nom in Noms(reg) then |reg| - 1 else |reg|)
  {
    TreureNomsUnics(reg, nom);
    TreureLongitud(reg, nom);
    var r := Treure(reg, nom);
    assert nom !in Noms(r) by {
      forall i | 0 <= i < |r| ensures Noms(r)[i] != nom {
        assert r[i].nom != nom;
      }
    }
    assert nom in Noms(reg) <==> Conte(reg, nom) by {
      if nom in Noms(reg) {
        var i :| 0 <= i < |reg| && Noms(reg)[i] == nom;
        assert reg[i].nom == nom;
      }
      if Conte(reg, nom) {
        var i :| 0 <= i < |reg| && reg[i].nom == nom;
        assert Noms(reg)[i] == nom;
      }
    }
  }

  /** Removing a name that is not stored changes nothing. */
  lemma {:induction false} TreureAbsent<R>(reg: seq<Entrada<R>>, nom: string)
    requires !Conte(reg, nom)
    ensures Treure(reg, nom) == reg
  {
    if |reg| > 0 {
      var rest := reg[1..];
      assert !Conte(rest, nom) by {
        forall j | 0 <= j < |rest| ensures rest[j].nom != nom {
          assert rest[j] == reg[j + 1];
        }
      }
      TreureAbsent(rest, nom);
      assert reg == [reg[0]] + rest;
    }
  }

  /** Removing a stored name cuts out exactly its slot and keeps every other
      entry in order; `k` is the slot. */
  lemma {:induction false} TreureTalla<R>(reg: seq<Entrada<R>>, nom: string) returns (k: nat)
    requires NomsUnics(reg) && Conte(reg, nom)
    ensures k < |reg| && reg[k].nom == nom && Treure(reg, nom) == reg[..k] + reg[k + 1..]
  {
    if reg[0].nom == nom {
      TreureCap(reg, nom);
      k := 0;
    } else {
      var rest := reg[1..];
      NomsUnicsTail(reg);
      assert Conte(rest, nom) by {
        var i :| 0 <= i < |reg| && reg[i].nom == nom;
        assert rest[i - 1] == reg[i];
      }
      var k1 := TreureTalla(rest, nom);
      assert Treure(reg, nom) == [reg[0]] + Treure(rest, nom);
      TallaCons(reg, k1);
      k := k1 + 1;
    }
  }

  /** The head entry carries the name: removal drops exactly the head. */
  lemma TreureCap<R>(reg: seq<Entrada<R>>, nom: string)
    requires NomsUnics(reg) && |reg| > 0 && reg[0].nom == nom
    ensures Treure(reg, nom) == reg[1..]
  {
    var rest := reg[1..];
    assert !Conte(rest, nom) by {
      forall j | 0 <= j < |rest| ensures rest[j].nom != nom {
        assert rest[j] == reg[j + 1];
      }
    }
    TreureAbsent(rest, nom);
  }

  /** Cutting slot `k` out of the tail and putting the head back cuts slot
      `k + 1` out of the whole. */
  lemma TallaCons<T>(s: seq<T>, k: nat)
    requires k + 1 < |s|
    ensures [s[0]] + (s[1..][..k] + s[1..][k + 1..]) == s[..k + 1] + s[k + 2..]
  {
    assert s[..k + 1] == [s[0]] + s[1..][..k];
    assert s[k + 2..] == s[1..][k + 1..];
  }

  lemma NomsUnicsTail<R>(reg: seq<Entrada<R>>)
    requires |reg| > 0 && NomsUnics(reg)
    ensures NomsUnics(reg[1..])
  {
    var rest := reg[1..];
    forall i, j | 0 <= i < j < |rest| ensures rest[i].nom != rest[j].nom {
      assert rest[i] == reg[i + 1] && rest[j] == reg[j + 1];
    }
  }

  lemma ConteIffNoms<R>(reg: seq<Entrada<R>>, nom: string)
    ensures Conte(reg, nom) <==> nom in Noms(reg)
  {
    if nom in Noms(reg) {
      var i :| 0 <= i < |reg| && Noms(reg)[i] == nom;
      assert reg[i].nom == nom;
    }
    if Conte(reg, nom) {
      var i :| 0 <= i < |reg| && reg[i].nom == nom;
      assert Noms(reg)[i] == nom;
    }
  }

  /** Each name occurs once. */
  predicate NomsUnics<R>(reg: seq<Entrada<R>>)
  {
    forall i, j :: 0 <= i < j < |reg| ==> reg[i].nom != reg[j].nom
  }

  /** Some entry has the name. */
  predicate Conte<R>(reg: seq<Entrada<R>>, nom: string)
  {
    exists i :: 0 <= i < |reg| && reg[i].nom == nom
  }

  lemma {:induction false} TreureNomsUnics<R>(reg: seq<Entrada<R>>, nom: string)
    requires NomsUnics(reg)
    ensures NomsUnics(Treure(reg, nom))
  {
    if |reg| > 0 {
      var rest := reg[1..];
      NomsUnicsTail(reg);
      TreureNomsUnics(rest, nom);
      if reg[0].nom != nom {
        var t := Treure(rest, nom);
        forall i | 0 <= i < |t| ensures t[i].nom != reg[0].nom {
          var j :| 0 <= j < |rest| && rest[j] == t[i];
          assert rest[j] == reg[j + 1];
        }
        NomsUnicsCons(reg[0], t);
      }
    }
  }

  /** A new name in front of a dictionary keeps its names unique. */
  lemma NomsUnicsCons<R>(e: Entrada<R>, t: seq<Entrada<R>>)
    requires NomsUnics(t)
    requires forall i :: 0 <= i < |t| ==> t[i].nom != e.nom
    ensures NomsUnics([e] + t)
  {
    var r := [e] + t;
    forall i, j | 0 <= i < j < |r| ensures r[i].nom != r[j].nom {
      assert r[j] == t[j - 1];
      if i > 0 {
        assert r[i] == t[i - 1];
      }
    }
  }

  lemma {:induction false} TreureLongitud<R>(reg: seq<Entrada<R>>, nom: string)
    requires NomsUnics(reg)
    ensures |Treure(reg, nom)| == (if Conte(reg, nom) then |reg| - 1 else |reg|)
  {
    if |reg| > 0 {
      var rest := reg[1..];
      NomsUnicsTail(reg);
      TreureLongitud(rest, nom);
      if reg[0].nom == nom {
        assert Conte(reg, nom);
        assert !Conte(rest, nom) by {
          forall j | 0 <= j < |rest| ensures rest[j].nom != nom {
            assert rest[j] == reg[j + 1];
          }
        }
      } else {
        assert Conte(reg, nom) <==> Conte(rest, nom) by {
          if Conte(reg, nom) {
            var i :| 0 <= i < |reg| && reg[i].nom == nom;
            assert rest[i - 1] == reg[i];
          }
          if Conte(rest, nom) {
            var i :| 0 <= i < |rest| && rest[i].nom == nom;
            assert reg[i + 1] == rest[i];
          }
        }
      }
    }
  }

  /** The exit events of `__exit__` for a registry: the entries are visited
      from the last registered to the first. */
  function SortidesInverses<R>(reg: seq<Entrada<R>>, passosFinalsOk: string -> bool): (r: seq<Esdeveniment>)
    ensures |r| <= |reg|
    ensures forall k :: 0 <= k < |r| ==> r[k].Sortit? && r[k].nom in Noms(reg)
  {
    if |reg| == 0 then []
    else
      var darrer := reg[|reg| - 1];
      var resta := SortidesInverses(reg[..|reg| - 1], passosFinalsOk);
      assert forall k :: 0 <= k < |resta| ==> resta[k].nom in Noms(reg) by {
        assert Noms(reg) == Noms(reg[..|reg| - 1]) + [darrer.nom];
      }
      (if SortidaCridada(darrer, passosFinalsOk) then [Sortit(darrer.nom)] else []) + resta
  }

  /** `__exit__`: every registered object is exited, newest first; the
      registry ends empty; a configured GPIO mode is cleaned up and forgotten. */
  function Sortir<R>(g: Gestor<R>, passosFinalsOk: string -> bool): (r: Gestor<R>)
    ensures r.Valid() && r.registre == []
    ensures !r.gpioConfigurat
    ensures g.log <= r.log && |r.log| <= |g.log| + |g.registre|
  {
    var sortides := SortidesInverses(g.registre, passosFinalsOk);
    g.(registre := [], gpioConfigurat := false, log := g.log + sortides)
  }

  /** The names in reverse. */
  function Invers(s: seq<string>): (r: seq<string>)
    ensures |r| == |s| && forall i :: 0 <= i < |s| ==> r[i] == s[|s| - 1 - i]
  {
    if |s| == 0 then [] else [s[|s| - 1]] + Invers(s[..|s| - 1])
  }

  /** When no exit step fails, `__exit__` exits exactly the registered
      objects, in the reverse of their registration order. */
  lemma {:induction false} ExitReversesRegistration<R>(reg: seq<Entrada<R>>, passosFinalsOk: string -> bool)
    requires forall e :: e in reg ==> SortidaCridada(e, passosFinalsOk)
    ensures var s := SortidesInverses(reg, passosFinalsOk);
      |s| == |reg| && forall k :: 0 <= k < |s| ==> s[k] == Sortit(Invers(Noms(reg))[k])
  {
    if |reg| > 0 {
      var ini := reg[..|reg| - 1];
      var darrer := reg[|reg| - 1];
      assert forall e :: e in ini ==> e in reg;
      ExitReversesRegistration(ini, passosFinalsOk);
      var s, si := SortidesInverses(reg, passosFinalsOk), SortidesInverses(ini, passosFinalsOk);
      assert darrer in reg;
      assert s == [Sortit(darrer.nom)] + si;
      assert Noms(reg)[..|reg| - 1] == Noms(ini);
      var inv := Invers(Noms(reg));
      assert inv == [darrer.nom] + Invers(Noms(ini));
      forall k | 0 <= k < |s| ensures s[k] == Sortit(inv[k]) {
        if k > 0 {
          assert s[k] == si[k - 1] && inv[k] == Invers(Noms(ini))[k - 1];
        }
      }
    }
  }

  /** `configurar_gpio_mode`: ignored without a GPIO library or once a mode
      is set; "BCM" and "BOARD" select their mode and anything else falls
      back to BCM; a failing `setmode` leaves the mode unconfigured. */
  function ConfigurarGpioMode<R>(g: Gestor<R>, gpioDisponible: bool, modeStr: string, setmodeOk: bool): (r: Gestor<R>)
    ensures r.registre == g.registre && r.log == g.log
    ensures !gpioDisponible || g.gpioConfigurat || !setmodeOk ==> r == g
    ensures gpioDisponible && !g.gpioConfigurat && setmodeOk ==>
      r.gpioConfigurat && r.modeGpio == Some(if modeStr == "BOARD" then Board else Bcm)
  {
    if !gpioDisponible || g.gpioConfigurat then g
    else
      var mode := if modeStr == "BCM" then Bcm else if modeStr == "BOARD" then Board else Bcm;
      if !setmodeOk then g
      else g.(gpioConfigurat := true, modeGpio := Some(mode))
  }

  /** The mode is set at most once: a second call changes nothing, whatever
      mode it asks for. */
  lemma GpioModeSetOnce<R>(g: Gestor<R>, a: string, b: string, ok1: bool, ok2: bool)
    requires ok1
    ensures ConfigurarGpioMode(ConfigurarGpioMode(g, true, a, ok1), true, b, ok2) == ConfigurarGpioMode(g, true, a, ok1)
  {
  }
}
