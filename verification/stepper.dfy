/** The stepper-motor driver (`MotorPasAPas`, a 28BYJ-48 behind a ULN2003):
    constructor validation, the coil pattern for each step, the speed-to-delay
    conversion, and the absolute step counter that moves update. GPIO writes
    are the coil patterns the driver emits; pin set-up and clean-up succeed or
    fail as an input says; sleeping is left out. */
module Stepper {
  import opened PyOps

  /** `'full'` or `'half'` stepping. */
  datatype Mode = Full | Half

  /** An element of `pins_in`: an int, or anything else. */
  datatype Pin = PinEnter(n: int) | PinAltre

  /** Why a call raised: the constructor's three ValueErrors, the division by
      zero a vanishing step count causes, and the moves' ValueErrors. */
  datatype ErrorMotor =
    | PinsInvalids
    | ModeInvalid
    | ValorsNoPositius
    | DivisioPerZero
    | PassosPerVoltaNul
    | PassosNegatius
    | GrausNegatius
    | VelocitatNoPositiva

  /** The driver's state: stepping mode, output steps per revolution, the
      absolute position in steps, and whether the pins are set up. */
  datatype Motor = Motor(nom: string, pins: seq<int>, modo: Mode, passosPerVolta: int, posicio: int, configurat: bool)

  function ParseMode(s: string): (r: Option<Mode>)
    ensures r == Some(Full) <==> s == "full"
    ensures r == Some(Half) <==> s == "half"
  {
    if s == "full" then Some(Full) else if s == "half" then Some(Half) else None
  }

  /** Patterns in one cycle: one per coil in full mode, twice that in half mode. */
  function NumPasosSeq(modo: Mode): nat
  {
    if modo == Full then 4 else 8
  }

  /** `pins_in` is a list of exactly four ints. */
  predicate PinsValids(pins: seq<Pin>)
  {
    |pins| == 4 && forall k :: 0 <= k < |pins| ==> pins[k].PinEnter?
  }

  function PinNumeros(pins: seq<Pin>): (ns: seq<int>)
    requires PinsValids(pins)
    ensures |ns| == 4 && forall k :: 0 <= k < 4 ==> PinEnter(ns[k]) == pins[k]
  {
    seq(4, k requires 0 <= k < 4 => pins[k].n)
  }

  /** Output steps per revolution: the motor's steps times the gear reduction,
      doubled in half mode, rounded as Python rounds. */
  function PassosPerVoltaDe(modo: Mode, ppm: int, reduccio: real): int
  {
    RoundHalfEven(ppm as real * reduccio * (if modo == Half then 2.0 else 1.0))
  }

  /** The constructor's checks, in the order the source makes them. */
  function Validar(pins: seq<Pin>, modoNom: string, ppm: int, reduccio: real): (r: Result<Mode, ErrorMotor>)
    ensures r.Ok? <==> PinsValids(pins) && ParseMode(modoNom).Some? && ppm > 0 && reduccio > 0.0
    ensures r.Ok? ==> r.value == ParseMode(modoNom).value
    ensures !PinsValids(pins) ==> r == Err(PinsInvalids)
    ensures PinsValids(pins) && ParseMode(modoNom).None? ==> r == Err(ModeInvalid)
  {
    if !PinsValids(pins) then Err(PinsInvalids)
    else if ParseMode(modoNom).None? then Err(ModeInvalid)
    else if ppm <= 0 || reduccio <= 0.0 then Err(ValorsNoPositius)
    else Ok(ParseMode(modoNom).value)
  }

  /** The constructor as written: after validation it divides 360 by the
      rounded step count, which raises when that count rounds to zero. */
  function CrearMotorTalCom(nom: string, pins: seq<Pin>, modoNom: string, ppm: int, reduccio: real): (r: Result<Motor, ErrorMotor>)
    ensures r.Err? && r.error == DivisioPerZero <==>
      Validar(pins, modoNom, ppm, reduccio).Ok? && PassosPerVoltaDe(Validar(pins, modoNom, ppm, reduccio).value, ppm, reduccio) == 0
  {
    match Validar(pins, modoNom, ppm, reduccio)
    case Err(e) => Err(e)
    case Ok(modo) =>
      var ppv := PassosPerVoltaDe(modo, ppm, reduccio);
      if ppv == 0 then Err(DivisioPerZero)
      else Ok(Motor(nom, PinNumeros(pins), modo, ppv, 0, false))
  }

  /** One motor step per revolution times a quarter reduction in half mode is
      exactly 0.5 steps, which Python rounds to the even 0: the constructor
      accepts both values as positive and then divides by zero. */
  lemma TinyReductionDividesByZero()
    ensures CrearMotorTalCom("m", [PinEnter(23), PinEnter(24), PinEnter(25), PinEnter(8)], "half", 1, 0.25)
         == Err(DivisioPerZero)
  {
    assert PinsValids([PinEnter(23), PinEnter(24), PinEnter(25), PinEnter(8)]);
    assert PassosPerVoltaDe(Half, 1, 0.25) == 0;
  }

  /** The constructor with the step count checked: a count that rounds to zero
      is one more invalid value. Every motor it builds has a whole positive
      number of steps per revolution, starts at step 0 and is not set up. */
  function CrearMotor(nom: string, pins: seq<Pin>, modoNom: string, ppm: int, reduccio: real): (r: Result<Motor, ErrorMotor>)
    ensures r.Ok? <==>
      Validar(pins, modoNom, ppm, reduccio).Ok? && PassosPerVoltaDe(Validar(pins, modoNom, ppm, reduccio).value, ppm, reduccio) >= 1
    ensures r.Ok? ==>
      && r.value.passosPerVolta >= 1 && r.value.posicio == 0 && !r.value.configurat
      && r.value.modo == ParseMode(modoNom).value && r.value.nom == nom
      && |r.value.pins| == 4
    ensures r.Err? ==> r.error != DivisioPerZero
  {
    match Validar(pins, modoNom, ppm, reduccio)
    case Err(e) => Err(e)
    case Ok(modo) =>
      var ppv := PassosPerVoltaDe(modo, ppm, reduccio);
      if ppv < 1 then Err(PassosPerVoltaNul)
      else Ok(Motor(nom, PinNumeros(pins), modo, ppv, 0, false))
  }

  /** The correction changes only the one case that used to divide by zero. */
  lemma {:induction false} CrearMotorRefinesAsWritten(nom: string, pins: seq<Pin>, modoNom: string, ppm: int, reduccio: real)
    ensures CrearMotorTalCom(nom, pins, modoNom, ppm, reduccio).Err? && CrearMotorTalCom(nom, pins, modoNom, ppm, reduccio).error == DivisioPerZero
         ==> CrearMotor(nom, pins, modoNom, ppm, reduccio) == Err(PassosPerVoltaNul)
    ensures !(CrearMotorTalCom(nom, pins, modoNom, ppm, reduccio).Err? && CrearMotorTalCom(nom, pins, modoNom, ppm, reduccio).error == DivisioPerZero)
         ==> CrearMotor(nom, pins, modoNom, ppm, reduccio) == CrearMotorTalCom(nom, pins, modoNom, ppm, reduccio)
  {
    var v := Validar(pins, modoNom, ppm, reduccio);
    if v.Ok? {
      var x := ppm as real * reduccio * (if v.value == Half then 2.0 else 1.0);
      assert x > 0.0 by {
        assert ppm as real > 0.0 && reduccio > 0.0;
      }
      RoundHalfEvenMonotone(0.0, x);
      RoundHalfEvenOfInt(0);
    }
  }

  /** `min_angle_per_step`: the degrees one step turns the output shaft. */
  function AngleMinim(m: Motor): (a: real)
    requires m.passosPerVolta >= 1
    ensures a > 0.0 && a * m.passosPerVolta as real == 360.0
  {
    360.0 / m.passosPerVolta as real
  }

  /** The pattern energising coils `a` and `b` (one coil when they coincide). */
  function Bobines(a: int, b: int): seq<int>
  {
    [if a == 0 || b == 0 then 1 else 0, if a == 1 || b == 1 then 1 else 0,
     if a == 2 || b == 2 then 1 else 0, if a == 3 || b == 3 then 1 else 0]
  }

  /** `_get_step_pattern`: the coil levels for an absolute step index. Full
      mode energises coil `i mod 4`; half mode alternates one coil (even
      positions in the cycle) with two neighbouring coils (odd positions),
      wrapping from the last coil to the first. */
  function Patro(modo: Mode, index: int): (p: seq<int>)
    ensures |p| == 4 && forall k :: 0 <= k < 4 ==> p[k] == 0 || p[k] == 1
  {
    var n := index % NumPasosSeq(modo);
    match modo
    case Full => Bobines(n, n)
    case Half =>
      if n % 2 == 0 then Bobines(n / 2, n / 2)
      else Bobines(n / 2, (n / 2 + 1) % 4)
  }

  /** The coils a pattern energises. */
  function Actives(p: seq<int>): set<int>
  {
    set k | 0 <= k < |p| && p[k] == 1
  }

  /** Full mode energises exactly one coil; half mode one coil at even
      positions of the cycle and two cyclically adjacent coils at odd ones. */
  lemma PatroCoils(modo: Mode, index: int)
    ensures modo == Full ==> Actives(Patro(modo, index)) == {index % 4}
    ensures modo == Half && index % 8 % 2 == 0 ==> Actives(Patro(modo, index)) == {index % 8 / 2}
    ensures modo == Half && index % 8 % 2 == 1 ==>
      var c := index % 8 / 2;
      Actives(Patro(modo, index)) == {c, (c + 1) % 4} && c != (c + 1) % 4
    ensures |Actives(Patro(modo, index))| == (if modo == Half && index % 8 % 2 == 1 then 2 else 1)
  {
    var p := Patro(modo, index);
    if modo == Full || index % 8 % 2 == 0 {
      var c := if modo == Full then index % 4 else index % 8 / 2;
      assert Actives(p) == {c} by {
        assert forall k :: k in Actives(p) <==> k == c;
      }
    } else {
      var c := index % 8 / 2;
      assert Actives(p) == {c, (c + 1) % 4} by {
        assert forall k :: k in Actives(p) <==> k == c || k == (c + 1) % 4;
      }
    }
  }

  /** The half-step table of the coil test script. */
  const TaulaMigPas: seq<seq<int>> := [
    [1, 0, 0, 0], [1, 1, 0, 0], [0, 1, 0, 0], [0, 1, 1, 0],
    [0, 0, 1, 0], [0, 0, 1, 1], [0, 0, 0, 1], [1, 0, 0, 1]]

  /** The full-step table of the four-step test script. */
  const TaulaPasComplet: seq<seq<int>> := [
    [1, 0, 0, 0], [0, 1, 0, 0], [0, 0, 1, 0], [0, 0, 0, 1]]

  /** The generated pattern at any absolute step index, forward or backward of
      zero, is the table's row for that index modulo the table's length. */
  lemma PatroMatchesTables(index: int)
    ensures Patro(Half, index) == TaulaMigPas[index % 8]
    ensures Patro(Full, index) == TaulaPasComplet[index % 4]
  {
    var n := index % 8;
    var f := index % 4;
    assert Patro(Half, index) == Patro(Half, n);
    assert Patro(Full, index) == Patro(Full, f);
    assert n == 0 || n == 1 || n == 2 || n == 3 || n == 4 || n == 5 || n == 6 || n == 7;
    assert f == 0 || f == 1 || f == 2 || f == 3;
  }

  /** The lowest step rate the driver accepts, in steps per second. */
  const VelocitatMinimaPassos: real := 0.1

  /** `_calculate_delay_from_speed`: seconds per step for a speed in degrees
      per second, the rate floored at 0.1 steps per second. */
  function Retard(m: Motor, velocitat: real): (r: Result<real, ErrorMotor>)
    requires m.passosPerVolta >= 1
    ensures r.Err? <==> velocitat <= 0.0
    ensures r.Err? ==> r.error == VelocitatNoPositiva
    ensures r.Ok? ==> 0.0 < r.value <= 1.0 / VelocitatMinimaPassos
    ensures r.Ok? && velocitat * (m.passosPerVolta as real / 360.0) >= VelocitatMinimaPassos ==>
      r.value * velocitat == AngleMinim(m)
  {
    if velocitat <= 0.0 then Err(VelocitatNoPositiva)
    else
      var passosPerGrau := m.passosPerVolta as real / 360.0;
      var vps := velocitat * passosPerGrau;
      var vps' := if vps < VelocitatMinimaPassos then VelocitatMinimaPassos else vps;
      assert 1.0 / vps' <= 1.0 / VelocitatMinimaPassos by {
        assert vps' >= VelocitatMinimaPassos;
      }
      Ok(1.0 / vps')
  }

  /** A faster speed never waits longer between steps. */
  lemma RetardMonotone(m: Motor, v: real, w: real)
    requires m.passosPerVolta >= 1 && 0.0 < v <= w
    ensures Retard(m, w).value <= Retard(m, v).value
  {
    var g := m.passosPerVolta as real / 360.0;
    MulMonotone(v, w, g);
    var a := if v * g < VelocitatMinimaPassos then VelocitatMinimaPassos else v * g;
    var b := if w * g < VelocitatMinimaPassos then VelocitatMinimaPassos else w * g;
    InverseAntitone(a, b);
  }

  lemma InverseAntitone(a: real, b: real)
    requires 0.0 < a <= b
    ensures 1.0 / b <= 1.0 / a
  {
    assert 1.0 / a - 1.0 / b == (b - a) / (a * b);
    assert a * b > 0.0 by {
      MulStrictlyMonotone(0.0, a, b);
    }
  }

  /** The position `n` steps from `p` in a direction (`True` is forward). */
  function Despres(p: int, direccio: bool, n: int): int
  {
    if direccio then p + n else p - n
  }

  /** `moure_n_passos`: nothing happens before set-up; a negative count or a
      non-positive speed raises before any step; otherwise the counter moves by
      exactly `passos` in the direction given and nothing else changes. */
  function MoureNPassos(m: Motor, passos: int, direccio: bool, velocitat: real): (r: Result<Motor, ErrorMotor>)
    ensures !m.configurat ==> r == Ok(m)
    ensures m.configurat && passos < 0 ==> r == Err(PassosNegatius)
    ensures m.configurat && passos >= 0 && velocitat <= 0.0 ==> r == Err(VelocitatNoPositiva)
    ensures r.Ok? ==> r.value.(posicio := m.posicio) == m
    ensures r.Ok? && m.configurat ==> r.value.posicio - m.posicio == (if direccio then passos else -passos)
  {
    if !m.configurat then Ok(m)
    else if passos < 0 then Err(PassosNegatius)
    else if velocitat <= 0.0 then Err(VelocitatNoPositiva)
    else Ok(m.(posicio := Despres(m.posicio, direccio, passos)))
  }

  /** Stepping back the same count undoes a move. */
  lemma MoureNPassosInverse(m: Motor, passos: int, direccio: bool, velocitat: real)
    requires MoureNPassos(m, passos, direccio, velocitat).Ok?
    ensures MoureNPassos(MoureNPassos(m, passos, direccio, velocitat).value, passos, !direccio, velocitat) == Ok(m)
  {
  }

  /** The coil patterns `moure_n_passos` writes while stepping from `posicio`:
      after each step the pattern of the new position, and all coils released
      at the end. */
  method SequenciaBobines(modo: Mode, posicio: int, passos: nat, direccio: bool) returns (traca: seq<seq<int>>)
    ensures |traca| == passos + 1
    ensures forall k :: 0 <= k < passos ==> traca[k] == Patro(modo, Despres(posicio, direccio, k + 1))
    ensures traca[passos] == [0, 0, 0, 0]
  {
    var pos := posicio;
    traca := [];
    var i := 0;
    while i < passos
      invariant 0 <= i <= passos
      invariant pos == Despres(posicio, direccio, i)
      invariant |traca| == i
      invariant forall k :: 0 <= k < i ==> traca[k] == Patro(modo, Despres(posicio, direccio, k + 1))
    {
      if direccio {
        pos := pos + 1;
      } else {
        pos := pos - 1;
      }
      traca := traca + [Patro(modo, pos)];
      i := i + 1;
    }
    traca := traca + [[0, 0, 0, 0]];
  }

  /** Consecutive half steps walk the coil table one row at a time, forward or
      backward, wrapping around. */
  lemma NextStepIsNextRow(posicio: int, direccio: bool)
    ensures Patro(Half, Despres(posicio, direccio, 1)) == TaulaMigPas[(posicio + (if direccio then 1 else 7)) % 8]
  {
    PatroMatchesTables(Despres(posicio, direccio, 1));
    assert Despres(posicio, direccio, 1) % 8 == (posicio + (if direccio then 1 else 7)) % 8;
  }

  /** The steps `moure_n_graus` takes for a non-negative angle: the nearest
      whole number of steps, but at least one for any positive angle. */
  function PassosPerGraus(graus: real, passosPerVolta: int): (n: int)
    requires graus >= 0.0 && passosPerVolta >= 1
    ensures n >= 0
    ensures graus == 0.0 <==> n == 0
    ensures IsRoundHalfEven(graus / 360.0 * passosPerVolta as real, n)
         || (0.0 < graus / 360.0 * passosPerVolta as real <= 0.5 && n == 1)
  {
    var x := graus / 360.0 * passosPerVolta as real;
    RoundHalfEvenMeetsSpec(x);
    var n := RoundHalfEven(x);
    if n == 0 && graus > 0.0 then 1 else n
  }

  /** `moure_n_graus`: a negative angle raises; otherwise the angle becomes a
      step count and the motor steps that many. */
  function MoureNGraus(m: Motor, graus: real, direccio: bool, velocitat: real): (r: Result<Motor, ErrorMotor>)
    requires m.passosPerVolta >= 1
    ensures !m.configurat ==> r == Ok(m)
    ensures m.configurat && graus < 0.0 ==> r == Err(GrausNegatius)
    ensures m.configurat && graus >= 0.0 ==>
      r == MoureNPassos(m, PassosPerGraus(graus, m.passosPerVolta), direccio, velocitat)
    ensures r.Err? <==> m.configurat && (graus < 0.0 || velocitat <= 0.0)
  {
    if !m.configurat then Ok(m)
    else if graus < 0.0 then Err(GrausNegatius)
    else MoureNPassos(m, PassosPerGraus(graus, m.passosPerVolta), direccio, velocitat)
  }

  /** `obtenir_posicio_graus`: the absolute position in degrees, not reduced
      to one turn. */
  function PosicioGraus(m: Motor): (g: real)
    requires m.passosPerVolta >= 1
    ensures g == m.posicio as real * AngleMinim(m)
  {
    m.posicio as real * (360.0 / m.passosPerVolta as real)
  }

  /** `moure_a_graus`: turn to an absolute angle. Less than half a step away is
      already there; otherwise the motor moves forward when the target is larger
      and backward when it is smaller, by the rounded difference, with no
      reduction of either angle to one turn. */
  function MoureAGraus(m: Motor, objectiu: real, velocitat: real): (r: Result<Motor, ErrorMotor>)
    requires m.passosPerVolta >= 1
    ensures !m.configurat ==> r == Ok(m)
    ensures m.configurat && AbsReal(objectiu - PosicioGraus(m)) < AngleMinim(m) / 2.0 ==> r == Ok(m)
    ensures m.configurat && AbsReal(objectiu - PosicioGraus(m)) >= AngleMinim(m) / 2.0 ==>
      && (r.Err? <==> velocitat <= 0.0)
      && (r.Ok? ==> r.value.posicio == Despres(m.posicio, objectiu > PosicioGraus(m),
                                               PassosPerGraus(AbsReal(objectiu - PosicioGraus(m)), m.passosPerVolta)))
  {
    if !m.configurat then Ok(m)
    else
      var graus := objectiu - PosicioGraus(m);
      if AbsReal(graus) < AngleMinim(m) / 2.0 then Ok(m)
      else
        var direccio := !(graus < 0.0);
        MoureNGraus(m, AbsReal(graus), direccio, velocitat)
  }

  /** Asking for 360 degrees at step 0 makes a whole forward turn, although
      both angles name the same shaft position. */
  lemma MoureAGrausDoesNotNormalise(m: Motor, velocitat: real)
    requires m.passosPerVolta >= 1 && m.configurat && m.posicio == 0 && velocitat > 0.0
    ensures MoureAGraus(m, 360.0, velocitat) == Ok(m.(posicio := m.passosPerVolta))
  {
    assert PosicioGraus(m) == 0.0;
    assert AngleMinim(m) / 2.0 < 360.0 by {
      assert AngleMinim(m) <= 360.0 by {
        MulMonotone(1.0, m.passosPerVolta as real, AngleMinim(m));
      }
    }
    assert 360.0 / 360.0 * m.passosPerVolta as real == m.passosPerVolta as real;
    RoundHalfEvenOfInt(m.passosPerVolta);
  }

  /** `calibrar`: after set-up, move the given angle (raising as
      `moure_n_graus` raises) and then call the reached position step 0. */
  function Calibrar(m: Motor, graus: real, direccio: bool, velocitat: real): (r: Result<Motor, ErrorMotor>)
    requires m.passosPerVolta >= 1
    ensures !m.configurat ==> r == Ok(m)
    ensures r.Err? <==> m.configurat && (graus < 0.0 || velocitat <= 0.0)
    ensures r.Ok? && m.configurat ==> r.value == m.(posicio := 0)
  {
    if !m.configurat then Ok(m)
    else
      match MoureNGraus(m, graus, direccio, velocitat)
      case Err(e) => Err(e)
      case Ok(m2) => Ok(m2.(posicio := 0))
  }

  /** `obtenir_posicio_graus_normalitzada`: the position in degrees reduced by
      Python's float `%`, whose result already has the divisor's sign; the
      source's extra correction for a negative remainder never applies. */
  function PosicioNormalitzada(m: Motor): (g: real)
    requires m.passosPerVolta >= 1
    ensures 0.0 <= g < 360.0
    ensures exists k: int :: Times(k, 360.0) == PosicioGraus(m) - g
  {
    var n := FloatMod(PosicioGraus(m), 360.0);
    if n < 0.0 then n + 360.0 else n
  }

  /** A whole turn in either direction leaves the normalised position where it was. */
  lemma FullTurnKeepsNormalisedPosition(m: Motor, direccio: bool, velocitat: real)
    requires m.passosPerVolta >= 1 && m.configurat && velocitat > 0.0
    ensures PosicioNormalitzada(MoureNPassos(m, m.passosPerVolta, direccio, velocitat).value) == PosicioNormalitzada(m)
  {
    var m2 := MoureNPassos(m, m.passosPerVolta, direccio, velocitat).value;
    var a := AngleMinim(m);
    var g := PosicioNormalitzada(m);
    var k: int :| Times(k, 360.0) == PosicioGraus(m) - g;
    var k2 := if direccio then k + 1 else k - 1;
    assert PosicioGraus(m2) == PosicioGraus(m) + (if direccio then 360.0 else -360.0) by {
      assert m2.posicio == Despres(m.posicio, direccio, m.passosPerVolta);
      assert m.passosPerVolta as real * a == 360.0;
    }
    assert Times(k2, 360.0) == PosicioGraus(m2) - g;
    FloatModUnique(PosicioGraus(m2), 360.0, g, k2);
  }

  /** `setup_gpio`: configures the pins once; a failure leaves the motor unconfigured. */
  function ConfigurarGpio(m: Motor, exit: bool): (r: Motor)
    ensures r.(configurat := m.configurat) == m
    ensures r.configurat <==> m.configurat || exit
  {
    if m.configurat then m else m.(configurat := exit)
  }

  /** `cleanup_gpio`: releases configured pins; if releasing raises, the motor
      stays configured. The coils are driven low first. */
  function NetejarGpio(m: Motor, exit: bool): (r: (Motor, seq<seq<int>>))
    ensures r.0.(configurat := m.configurat) == m
    ensures r.0.configurat <==> m.configurat && !exit
    ensures r.1 == (if m.configurat then [[0, 0, 0, 0]] else [])
  {
    if m.configurat then (m.(configurat := !exit), [[0, 0, 0, 0]]) else (m, [])
  }

  /** Setting up twice is setting up once, and a clean release undoes a set-up. */
  lemma GpioLifecycle(m: Motor, a: bool, b: bool)
    requires !m.configurat
    ensures a ==> ConfigurarGpio(ConfigurarGpio(m, a), b) == ConfigurarGpio(m, a)
    ensures NetejarGpio(ConfigurarGpio(m, a), true).0 == m
  {
  }
}
