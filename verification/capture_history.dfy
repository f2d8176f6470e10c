/** The in-memory capture history of the file manager (`FileManager`): the
    cleaned default prefix, the generated capture and history file names, the
    list of history entries and the operations that read and change it. The
    disk is abstract: what a load returned, whether a file exists and whether
    removing it succeeded are inputs. */
module CaptureHistory {
  import opened PyOps

  /** Characters Python's `str.isspace` accepts, which `strip()` removes. */
  predicate EsEspai(c: char)
  {
    var n := c as int;
    || n == 32 || 9 <= n <= 13 || 28 <= n <= 31 || n == 0x85 || n == 0xA0 || n == 0x1680
    || 0x2000 <= n <= 0x200A || n == 0x2028 || n == 0x2029 || n == 0x202F || n == 0x205F || n == 0x3000
  }

  /** `strip()` on the left. */
  function TreureEspaisInici(s: string): (r: string)
    ensures |r| <= |s| && r == s[|s| - |r|..]
    ensures forall k :: 0 <= k < |s| - |r| ==> EsEspai(s[k])
    ensures |r| > 0 ==> !EsEspai(r[0])
  {
    if |s| > 0 && EsEspai(s[0]) then TreureEspaisInici(s[1..]) else s
  }

  /** `strip()` on the right. */
  function TreureEspaisFinal(s: string): (r: string)
    ensures |r| <= |s| && r == s[..|r|]
    ensures forall k :: |r| <= k < |s| ==> EsEspai(s[k])
    ensures |r| > 0 ==> !EsEspai(r[|r| - 1])
  {
    if |s| > 0 && EsEspai(s[|s| - 1]) then TreureEspaisFinal(s[..|s| - 1]) else s
  }

  /** Where `strip()` starts cutting: the number of leading whitespace characters. */
  function IniciStrip(s: string): (i: nat)
    ensures i <= |s|
  {
    |s| - |TreureEspaisInici(s)|
  }

  /** `str.strip()`: the slice from the first to the last non-whitespace
      character, everything cut off on either side being whitespace. */
  function Strip(s: string): (r: string)
    ensures IniciStrip(s) + |r| <= |s| && r == s[IniciStrip(s)..IniciStrip(s) + |r|]
    ensures forall k :: 0 <= k < IniciStrip(s) ==> EsEspai(s[k])
    ensures forall k :: IniciStrip(s) + |r| <= k < |s| ==> EsEspai(s[k])
    ensures |r| > 0 ==> !EsEspai(r[0]) && !EsEspai(r[|r| - 1])
  {
    TreureEspaisFinal(TreureEspaisInici(s))
  }

  /** A string made only of whitespace strips to the empty string. */
  lemma StripAllSpaces(s: string)
    requires forall k :: 0 <= k < |s| ==> EsEspai(s[k])
    ensures Strip(s) == ""
  {
  }

  /** A string with no whitespace at either end is its own strip. */
  lemma {:induction false} StripKeepsTrimmed(s: string)
    requires |s| > 0 ==> !EsEspai(s[0]) && !EsEspai(s[|s| - 1])
    ensures Strip(s) == s
  {
  }

  /** `replace(" ", "_")`. */
  function EspaisASubratllats(s: string): (r: string)
    ensures |r| == |s|
    ensures forall k :: 0 <= k < |s| ==> r[k] == (if s[k] == ' ' then '_' else s[k])
  {
    seq(|s|, k requires 0 <= k < |s| => if s[k] == ' ' then '_' else s[k])
  }

  /** The constructor's prefix: stripped, then inner spaces to underscores. */
  function NetejarPrefix(p: string): (r: string)
    ensures ' ' !in r
    ensures |r| <= |p|
    ensures |r| > 0 ==> !EsEspai(r[0]) && !EsEspai(r[|r| - 1])
    ensures |r| == |Strip(p)|
    ensures forall k :: 0 <= k < |r| ==> r[k] == (if Strip(p)[k] == ' ' then '_' else Strip(p)[k])
  {
    var t := Strip(p);
    var r := EspaisASubratllats(t);
    assert forall k :: 0 <= k < |r| ==> r[k] != ' ';
    r
  }

  /** A string with no spaces has none to replace. */
  lemma SubratllatsFixes(q: string)
    requires ' ' !in q
    ensures EspaisASubratllats(q) == q
  {
    var e := EspaisASubratllats(q);
    forall k | 0 <= k < |q| ensures e[k] == q[k] {
      assert q[k] != ' ';
    }
  }

  /** Cleaning is idempotent, and a prefix made only of whitespace cleans to
      the empty prefix. */
  lemma NetejarPrefixIdempotent(p: string)
    ensures NetejarPrefix(NetejarPrefix(p)) == NetejarPrefix(p)
    ensures (forall k :: 0 <= k < |p| ==> EsEspai(p[k])) ==> NetejarPrefix(p) == ""
  {
    var q := NetejarPrefix(p);
    StripKeepsTrimmed(q);
    SubratllatsFixes(q);
    if forall k :: 0 <= k < |p| ==> EsEspai(p[k]) {
      StripAllSpaces(p);
    }
  }

  /** `_generate_history_filename` (the file name; the directory is left out). */
  function NomHistorial(prefix: string): (r: string)
    ensures |r| >= |"historial.json"|
    ensures r[..9] == "historial" && r[|r| - 5..] == ".json"
    ensures prefix == "" ==> r == "historial.json"
    ensures prefix != "" ==> r[9] == '_' && r[10..|r| - 5] == prefix
  {
    if prefix != "" then "historial_" + prefix + ".json" else "historial.json"
  }

  /** Different prefixes never share a history file. */
  lemma NomHistorialInjective(a: string, b: string)
    requires a != b
    ensures NomHistorial(a) != NomHistorial(b)
  {
    if a != "" && b != "" {
      var na := NomHistorial(a);
      var nb := NomHistorial(b);
      assert na[10..|na| - 5] == a;
      assert nb[10..|nb| - 5] == b;
    } else if a == "" {
      assert NomHistorial(b)[9] == '_';
    } else {
      assert NomHistorial(a)[9] == '_';
    }
  }

  /** `_generate_filename`: `<prefix>_<type>_<timestamp>.<ext>`, the prefix
      part omitted when the prefix is empty. The timestamp is an input. */
  function GenerarNom(prefix: string, tipus: string, timestamp: string, ext: string): (r: string)
    ensures |r| >= |tipus| + |ext| + 2 && (prefix != "" ==> |r| >= |prefix| + |tipus| + |ext| + 3)
    ensures prefix != "" ==> r[..|prefix| + 1] == prefix + "_"
    ensures prefix == "" ==> r[..|tipus| + 1] == tipus + "_"
    ensures r[|r| - |ext| - 1..] == "." + ext
    ensures var n := if prefix != "" then |prefix| + 1 else 0;
      && |r| == n + |tipus| + |timestamp| + |ext| + 2
      && r[n..n + |tipus| + 1] == tipus + "_"
      && r[n + |tipus| + 1..|r| - |ext| - 1] == timestamp
  {
    var part := if prefix != "" then prefix + "_" else "";
    part + tipus + "_" + timestamp + "." + ext
  }

  /** The part after the prefix is the same whatever the prefix: the prefix
      only adds its own text and one underscore in front. */
  lemma GenerarNomSplits(prefix: string, tipus: string, timestamp: string, ext: string)
    requires prefix != ""
    ensures GenerarNom(prefix, tipus, timestamp, ext)[|prefix| + 1..] == GenerarNom("", tipus, timestamp, ext)
  {
  }

  /** A history entry. An entry read from disk need only have `filepath` and
      `content_type`; the others may be missing. */
  datatype Entrada = Entrada(filepath: Option<string>, filename: Option<string>, timestamp: Option<string>, contentType: Option<string>, metadata: map<string, string>)

  /** `_add_to_history`: one new entry at the end; the absolute path and the
      time stamp are inputs. */
  function AfegirAHistorial(h: seq<Entrada>, filepathAbs: string, filename: string, timestamp: string, tipus: string, metadata: map<string, string>): (r: seq<Entrada>)
    ensures |r| == |h| + 1 && r[..|h|] == h
    ensures r[|h|].filepath == Some(filepathAbs) && r[|h|].filename == Some(filename) && r[|h|].contentType == Some(tipus)
  {
    h + [Entrada(Some(filepathAbs), Some(filename), Some(timestamp), Some(tipus), metadata)]
  }

  /** `clear_history`: afterwards no identifier and no filter finds an entry. */
  function NetejarHistorial(h: seq<Entrada>): (r: seq<Entrada>)
    ensures forall f :: ObtenirHistorial(r, f) == []
    ensures forall id, f :: ObtenirEntrada(r, id, f).None?
  {
    []
  }

  /** The content-type test of `get_capture_history`'s filter. */
  function DelTipus(tipus: string): Entrada -> bool
  {
    (e: Entrada) => e.contentType == Some(tipus)
  }

  /** `get_capture_history`: a copy of the history, or of the entries of one
      content type; an empty filter string filters nothing. */
  function ObtenirHistorial(h: seq<Entrada>, filtre: Option<string>): (r: seq<Entrada>)
    ensures filtre.None? || filtre == Some("") ==> r == h
    ensures filtre.Some? && filtre.value != "" ==> r == Filter(h, DelTipus(filtre.value))
    ensures forall k :: 0 <= k < |r| ==> r[k] in h
  {
    if filtre.Some? && filtre.value != "" then Filter(h, DelTipus(filtre.value))
    else h
  }

  /** A filtered history keeps exactly the entries of that type, and adding
      an entry extends the filtered view by that entry iff it has the type. */
  lemma {:induction false} FilteredHistoryAfterAdd(h: seq<Entrada>, tipus: string, p: string, n: string, t: string, ct: string, m: map<string, string>)
    requires tipus != ""
    ensures ObtenirHistorial(AfegirAHistorial(h, p, n, t, ct, m), Some(tipus))
      == ObtenirHistorial(h, Some(tipus)) + (if ct == tipus then [AfegirAHistorial(h, p, n, t, ct, m)[|h|]] else [])
  {
    var e := AfegirAHistorial(h, p, n, t, ct, m)[|h|];
    FilterAppend(h, [e], DelTipus(tipus));
    assert Filter([e], DelTipus(tipus)) == (if ct == tipus then [e] else []) by {
      assert [e][1..] == [];
    }
  }

  /** The identifier of `get_capture_entry_by_identifier`: a file name, an
      index (a bool counts as 0 or 1, as in Python) or anything else. */
  datatype Identificador = PerNom(nom: string) | PerIndex(index: int) | AltreTipus

  /** The index of the last entry with the given file name, searching from
      the most recent. */
  function DarrerAmbNom(h: seq<Entrada>, nom: string): (r: Option<nat>)
    ensures r.Some? ==> r.value < |h| && h[r.value].filename == Some(nom)
    ensures r.Some? ==> forall k :: r.value < k < |h| ==> h[k].filename != Some(nom)
    ensures r.None? ==> forall k :: 0 <= k < |h| ==> h[k].filename != Some(nom)
  {
    if |h| == 0 then None
    else if h[|h| - 1].filename == Some(nom) then Some(|h| - 1)
    else DarrerAmbNom(h[..|h| - 1], nom)
  }

  /** `get_capture_entry_by_identifier`: within the (possibly filtered)
      history, a name finds its most recent entry, an index follows Python
      indexing, and an empty view or another identifier finds nothing. */
  function ObtenirEntrada(h: seq<Entrada>, id: Identificador, filtre: Option<string>): (r: Option<Entrada>)
    ensures var v := ObtenirHistorial(h, filtre);
      && (v == [] || id.AltreTipus? ==> r.None?)
      && (id.PerIndex? ==> r == PyIndex(v, id.index))
      && (id.PerNom? ==> (r.Some? <==> exists k :: 0 <= k < |v| && v[k].filename == Some(id.nom)))
      && (id.PerNom? && r.Some? ==>
            exists k :: (0 <= k < |v| && v[k] == r.value && v[k].filename == Some(id.nom)
              && forall j :: k < j < |v| ==> v[j].filename != Some(id.nom)))
  {
    var v := ObtenirHistorial(h, filtre);
    if v == [] then None
    else match id
      case PerNom(nom) =>
        (match DarrerAmbNom(v, nom)
         case Some(k) => Some(v[k])
         case None => None)
      case PerIndex(i) => PyIndex(v, i)
      case AltreTipus => None
  }

  /** An entry just added is what its name finds, and what index -1 finds. */
  lemma AddedEntryIsFound(h: seq<Entrada>, p: string, n: string, t: string, ct: string, m: map<string, string>)
    ensures var h1 := AfegirAHistorial(h, p, n, t, ct, m);
      && ObtenirEntrada(h1, PerNom(n), None) == Some(h1[|h|])
      && ObtenirEntrada(h1, PerIndex(-1), None) == Some(h1[|h|])
  {
    var h1 := AfegirAHistorial(h, p, n, t, ct, m);
    assert DarrerAmbNom(h1, n) == Some(|h|);
  }

  /** One item of a loaded history file: a JSON object, or any other value. */
  datatype Element = Dict(entrada: Entrada) | NoDict

  /** What `json.load` returned: a list, another JSON value, or nothing (no
      file, unreadable or invalid JSON). */
  datatype Carregat = Llista(items: seq<Element>) | AltreValor | Res

  /** The format check of `_load_history_from_disk`. */
  predicate ElementValid(x: Element)
  {
    x.Dict? && x.entrada.filepath.Some? && x.entrada.contentType.Some?
  }

  /** `_load_history_from_disk`: a list of objects that all have `filepath`
      and `content_type` becomes the history; anything else an empty one. */
  function CarregarHistorial(c: Carregat): (r: seq<Entrada>)
    ensures c.Llista? && (forall k :: 0 <= k < |c.items| ==> ElementValid(c.items[k])) ==>
      |r| == |c.items| && forall k :: 0 <= k < |r| ==> c.items[k] == Dict(r[k])
    ensures !(c.Llista? && forall k :: 0 <= k < |c.items| ==> ElementValid(c.items[k])) ==> r == []
    ensures forall k :: 0 <= k < |r| ==> r[k].filepath.Some? && r[k].contentType.Some?
  {
    if c.Llista? && forall k :: 0 <= k < |c.items| ==> ElementValid(c.items[k]) then
      seq(|c.items|, k requires 0 <= k < |c.items| && c.items[k].Dict? => c.items[k].entrada)
    else []
  }

  /** Every entry added in a session passes the load check, so a history
      written to disk and read back is the same history. */
  lemma SavedHistoryReloads(h: seq<Entrada>)
    requires forall k :: 0 <= k < |h| ==> h[k].filepath.Some? && h[k].contentType.Some?
    ensures CarregarHistorial(Llista(seq(|h|, k requires 0 <= k < |h| => Dict(h[k])))) == h
  {
  }

  /** The file manager's history state. */
  datatype Gestor = Gestor(prefix: string, historial: seq<Entrada>)

  /** The constructor's history part: the cleaned prefix, and what the history
      file of that prefix held. */
  function CrearGestor(defaultPrefix: string, carregat: Carregat): (r: Gestor)
    ensures r.prefix == NetejarPrefix(defaultPrefix)
    ensures r.historial == CarregarHistorial(carregat)
  {
    Gestor(NetejarPrefix(defaultPrefix), CarregarHistorial(carregat))
  }

  /** The argument of `set_base_directory`: a string or another value. */
  datatype Valor = Text(s: string) | NoText

  /** `set_base_directory`: a non-string or blank name raises ValueError and
      nothing changes; otherwise the history is replaced by the new
      location's. */
  function CanviarDirectori(g: Gestor, nom: Valor, carregat: Carregat): (r: Result<Gestor, string>)
    ensures r.Err? <==> nom.NoText? || Strip(nom.s) == ""
    ensures r.Ok? ==> r.value.prefix == g.prefix && r.value.historial == CarregarHistorial(carregat)
  {
    if nom.NoText? || Strip(nom.s) == "" then Err("ValueError")
    else Ok(g.(historial := CarregarHistorial(carregat)))
  }

  /** Any name made only of whitespace is rejected; a name with no
      whitespace at either end is accepted. */
  lemma BlankDirectoryRejected(g: Gestor, nom: string, c: Carregat)
    ensures (forall k :: 0 <= k < |nom| ==> EsEspai(nom[k])) ==> CanviarDirectori(g, Text(nom), c).Err?
    ensures |nom| > 0 && !EsEspai(nom[0]) && !EsEspai(nom[|nom| - 1]) ==> CanviarDirectori(g, Text(nom), c).Ok?
  {
    if forall k :: 0 <= k < |nom| ==> EsEspai(nom[k]) {
      StripAllSpaces(nom);
    }
    if |nom| > 0 && !EsEspai(nom[0]) && !EsEspai(nom[|nom| - 1]) {
      StripKeepsTrimmed(nom);
    }
  }

  /** `os.path.isabs` on POSIX. */
  predicate EsAbsoluta(s: string)
  {
    |s| > 0 && s[0] == '/'
  }

  /** The first entry with the given path. */
  function PrimeraAmbRuta(h: seq<Entrada>, ruta: string): (r: Option<nat>)
    ensures r.Some? ==> r.value < |h| && h[r.value].filepath == Some(ruta)
    ensures r.Some? ==> forall k :: 0 <= k < r.value ==> h[k].filepath != Some(ruta)
    ensures r.None? ==> forall k :: 0 <= k < |h| ==> h[k].filepath != Some(ruta)
  {
    if |h| == 0 then None
    else if h[0].filepath == Some(ruta) then Some(0)
    else match PrimeraAmbRuta(h[1..], ruta)
      case Some(k) => Some(k + 1)
      case None => None
  }

  /** The position of the first entry equal to `e`. */
  function PosicioPrimera(h: seq<Entrada>, e: Entrada): (k: nat)
    requires e in h
    ensures k < |h| && h[k] == e && e !in h[..k]
  {
    if h[0] == e then 0
    else
      var k := PosicioPrimera(h[1..], e);
      assert h[..k + 1] == [h[0]] + h[1..][..k];
      k + 1
  }

  /** `list.remove`: drops the first entry equal to `e`, and only that one. */
  function TreurePrimera(h: seq<Entrada>, e: Entrada): (r: seq<Entrada>)
    requires e in h
    ensures |r| == |h| - 1
    ensures multiset(r) == multiset(h) - multiset{e}
    ensures exists k :: 0 <= k < |h| && h[k] == e && e !in h[..k] && r == h[..k] + h[k + 1..]
  {
    var k := PosicioPrimera(h, e);
    assert h == h[..k] + [e] + h[k + 1..];
    var r := h[..k] + h[k + 1..];
    assert 0 <= k < |h| && h[k] == e && e !in h[..k] && r == h[..k] + h[k + 1..];
    r
  }

  /** The entry and the path `delete_capture_file` settles on: an absolute
      path is used as given, with its first history entry if any; anything
      else is looked up as in `get_capture_entry_by_identifier`. */
  function Objectiu(h: seq<Entrada>, id: Identificador, filtre: Option<string>): (r: (Option<Entrada>, Option<string>))
    ensures r.0.Some? ==> r.0.value in h
    ensures r.0.Some? && !(id.PerNom? && EsAbsoluta(id.nom)) ==> r.1 == r.0.value.filepath
  {
    if id.PerNom? && EsAbsoluta(id.nom) then
      match PrimeraAmbRuta(h, id.nom)
      case Some(k) => (Some(h[k]), Some(id.nom))
      case None => (None, Some(id.nom))
    else
      var e := ObtenirEntrada(h, id, filtre);
      if e.Some? then (e, e.value.filepath)
      else (None, None)
  }

  /** `delete_capture_file`, history side: no path (or an empty one) returns
      False; a file that exists but cannot be removed returns False; a file
      removed or already absent returns True and its history entry, if found,
      is dropped. */
  function EliminarCaptura(h: seq<Entrada>, id: Identificador, filtre: Option<string>, existeix: bool, eliminatOk: bool): (r: (seq<Entrada>, bool))
    ensures !r.1 ==> r.0 == h
    ensures r.1 <==> Objectiu(h, id, filtre).1.Some? && Objectiu(h, id, filtre).1.value != "" && (!existeix || eliminatOk)
    ensures r.1 && Objectiu(h, id, filtre).0.Some? ==>
      && r.0 == TreurePrimera(h, Objectiu(h, id, filtre).0.value)
      && |r.0| == |h| - 1
      && multiset(r.0) == multiset(h) - multiset{Objectiu(h, id, filtre).0.value}
    ensures Objectiu(h, id, filtre).0.None? ==> r.0 == h
  {
    var o := Objectiu(h, id, filtre);
    if o.1.None? || o.1.value == "" then (h, false)
    else if existeix && !eliminatOk then (h, false)
    else if o.0.Some? then (TreurePrimera(h, o.0.value), true)
    else (h, true)
  }

  /** A name that is not in the history deletes nothing and reports False. */
  lemma DeleteExamples(h: seq<Entrada>, nom: string, existeix: bool, ok: bool)
    requires !EsAbsoluta(nom)
    requires forall k :: 0 <= k < |h| ==> h[k].filename != Some(nom)
    ensures EliminarCaptura(h, PerNom(nom), None, existeix, ok) == (h, false)
  {
    assert ObtenirHistorial(h, None) == h;
    assert ObtenirEntrada(h, PerNom(nom), None).None?;
    assert Objectiu(h, PerNom(nom), None) == (None, None);
  }

  /** Deleting the entry just added, by its name, when the file is already
      gone from disk, gives back the history as it was before the add. */
  lemma DeleteUndoesAdd(h: seq<Entrada>, p: string, n: string, t: string, ct: string, m: map<string, string>)
    requires p != "" && !EsAbsoluta(n)
    requires forall k :: 0 <= k < |h| ==> h[k] != AfegirAHistorial(h, p, n, t, ct, m)[|h|]
    ensures EliminarCaptura(AfegirAHistorial(h, p, n, t, ct, m), PerNom(n), None, false, false) == (h, true)
  {
    var h1 := AfegirAHistorial(h, p, n, t, ct, m);
    var e := h1[|h|];
    AddedEntryIsFound(h, p, n, t, ct, m);
    assert Objectiu(h1, PerNom(n), None) == (Some(e), Some(p));
    var k := PosicioPrimera(h1, e);
    assert k == |h|;
    assert h1[k + 1..] == [];
    assert TreurePrimera(h1, e) == h;
    var r := EliminarCaptura(h1, PerNom(n), None, false, false);
    assert r.1;
    assert r.0 == TreurePrimera(h1, e);
  }
}
