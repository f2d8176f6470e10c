/** The SCARA arm controller (`ScaraController`): per-axis configuration read
    from a dictionary, limit and speed-index checks, the stored joint angles,
    and the order of motor and magnet commands in the composite operations.
    The motors themselves are not called: every command the controller sends
    is appended to a log. */
module Scara {
  import opened PyOps

  /** Axis identifiers. */
  const EixBase: int := 0
  const EixArticulacio: int := 1
  const EixZ: int := 2
  const EixCanell: int := 3

  /** The configuration keys of the four axes, in axis order. */
  const NomsEixos: seq<string> := ["base", "articulacio_secundaria", "eix_z", "canell"]

  /** The `speeds` entry of an axis: a list, or some other value. */
  datatype Speeds = Llista(vs: seq<real>) | NoLlista

  /** An axis's configuration dictionary as given; a None field is a missing key. */
  datatype EixCru = EixCru(limits: Option<(real, real)>, speeds: Option<Speeds>, offset: Option<real>, reduccio: Option<real>)

  /** An axis's configuration once validated. */
  datatype Eix = Eix(limMin: real, limMax: real, speeds: seq<real>, offset: real, reduccio: real)

  /** The object passed for each axis motor. */
  datatype TipusMotor = PasAPas | ServoMotor | Altre

  /** A command the controller sends: move an axis motor to an angle at a
      speed (or with a delay, for the servo), calibrate a stepper, or switch
      the magnet. */
  datatype Ordre = Moure(eix: int, angleMotor: real, velocitat: real) | Calibratge(eix: int) | Pinca(activar: bool)

  /** KeyError on a missing dictionary entry, ValueError from validation or
      from an unknown axis id. */
  datatype ErrorScara = ClauAbsent(eix: string, clau: string) | ConfigInvalida(eix: string) | EixDesconegut(id: int)

  datatype Scara = Scara(eixos: seq<Eix>, motors: seq<TipusMotor>, angles: seq<real>, ordres: seq<Ordre>)
  {
    /** Four validated axes, four motors, four stored angles. */
    predicate Valid()
    {
      && |eixos| == 4 && |motors| == 4 && |angles| == 4
      && forall i :: 0 <= i < 4 ==> |eixos[i].speeds| > 0 && eixos[i].reduccio > 0.0
    }
  }

  /** The constructor first reads every axis's `offset` (line by line, so a
      missing axis or offset raises KeyError before any validation). */
  function LlegirOffsets(config: map<string, EixCru>, noms: seq<string>): (r: Result<seq<real>, ErrorScara>)
    ensures r.Ok? <==> forall k :: 0 <= k < |noms| ==> noms[k] in config && config[noms[k]].offset.Some?
    ensures r.Ok? ==> |r.value| == |noms| && forall k :: 0 <= k < |noms| ==> r.value[k] == config[noms[k]].offset.value
    ensures r.Err? ==> r.error.ClauAbsent?
  {
    if |noms| == 0 then Ok([])
    else if noms[0] !in config then Err(ClauAbsent(noms[0], ""))
    else if config[noms[0]].offset.None? then Err(ClauAbsent(noms[0], "offset"))
    else match LlegirOffsets(config, noms[1..])
      case Err(e) => Err(e)
      case Ok(rest) => Ok([config[noms[0]].offset.value] + rest)
  }

  /** An axis's dictionary passes `_validate_initial_config`. */
  predicate EixValid(e: EixCru)
  {
    && e.limits.Some? && e.speeds.Some? && e.offset.Some? && e.reduccio.Some?
    && e.speeds.value.Llista? && |e.speeds.value.vs| > 0
    && e.reduccio.value > 0.0
  }

  function Validat(e: EixCru): Eix
    requires EixValid(e)
  {
    Eix(e.limits.value.0, e.limits.value.1, e.speeds.value.vs, e.offset.value, e.reduccio.value)
  }

  /** `_validate_initial_config`: each axis in turn must be present, have the
      four keys, a non-empty speed list and a positive reduction ratio. */
  function ValidarEixos(config: map<string, EixCru>, noms: seq<string>): (r: Result<seq<Eix>, ErrorScara>)
    ensures r.Ok? <==> forall k :: 0 <= k < |noms| ==> noms[k] in config && EixValid(config[noms[k]])
    ensures r.Ok? ==> |r.value| == |noms| && forall k :: 0 <= k < |noms| ==> r.value[k] == Validat(config[noms[k]])
    ensures r.Err? ==> r.error.ConfigInvalida?
  {
    if |noms| == 0 then Ok([])
    else if noms[0] !in config || !EixValid(config[noms[0]]) then Err(ConfigInvalida(if |noms| > 0 then noms[0] else ""))
    else match ValidarEixos(config, noms[1..])
      case Err(e) => Err(e)
      case Ok(rest) => Ok([Validat(config[noms[0]])] + rest)
  }

  /** The constructor: offsets read, then validation. A controller starts with
      every axis at its offset and has sent nothing. */
  function CrearScara(motors: seq<TipusMotor>, config: map<string, EixCru>): (r: Result<Scara, ErrorScara>)
    requires |motors| == 4
    ensures r.Ok? <==> forall k :: 0 <= k < 4 ==> NomsEixos[k] in config && EixValid(config[NomsEixos[k]])
    ensures r.Ok? ==> r.value.Valid() && r.value.motors == motors && r.value.ordres == []
    ensures r.Ok? ==> forall i :: 0 <= i < 4 ==> r.value.angles[i] == r.value.eixos[i].offset
  {
    match LlegirOffsets(config, NomsEixos)
    case Err(e) => Err(e)
    case Ok(offsets) =>
      match ValidarEixos(config, NomsEixos)
      case Err(e) => Err(e)
      case Ok(eixos) => Ok(Scara(eixos, motors, offsets, []))
  }

  /** A missing axis or a missing offset raises KeyError from the offset read,
      so validation's own message for a missing axis is never reached. */
  lemma MissingAxisIsKeyError(motors: seq<TipusMotor>, config: map<string, EixCru>, k: int)
    requires |motors| == 4 && 0 <= k < 4 && NomsEixos[k] !in config
    ensures CrearScara(motors, config).Err? && CrearScara(motors, config).error.ClauAbsent?
  {
  }

  /** `_get_axis_name`. */
  function NomEix(id: int): (r: Result<string, ErrorScara>)
    ensures r.Ok? <==> 0 <= id < 4
    ensures r.Ok? ==> r.value == NomsEixos[id]
    ensures r.Err? ==> r.error == EixDesconegut(id)
  {
    if id == EixBase then Ok("base")
    else if id == EixArticulacio then Ok("articulacio_secundaria")
    else if id == EixZ then Ok("eix_z")
    else if id == EixCanell then Ok("canell")
    else Err(EixDesconegut(id))
  }

  /** `_validate_angle`: inclusive limits. */
  predicate DinsLimits(e: Eix, angle: real)
  {
    e.limMin <= angle <= e.limMax
  }

  /** `_validate_angle` with the axis id: ValueError for an unknown axis. */
  function ValidarAngle(s: Scara, id: int, angle: real): (r: Result<bool, ErrorScara>)
    requires s.Valid()
    ensures r.Ok? <==> 0 <= id < 4
    ensures r.Ok? ==> (r.value <==> s.eixos[id].limMin <= angle <= s.eixos[id].limMax)
  {
    match NomEix(id)
    case Err(e) => Err(e)
    case Ok(_) => Ok(DinsLimits(s.eixos[id], angle))
  }

  /** `_get_speed_value`: Python indexing into the axis's speed list. */
  function Velocitat(e: Eix, index: int): (r: Option<real>)
    ensures r.Some? <==> -|e.speeds| <= index < |e.speeds|
    ensures 0 <= index < |e.speeds| ==> r == Some(e.speeds[index])
    ensures index == -1 && |e.speeds| > 0 ==> r == Some(e.speeds[|e.speeds| - 1])
  {
    PyIndex(e.speeds, index)
  }

  /** The command `moure_sol_eix` sends: the target angle times the axis's
      reduction ratio, at the indexed speed. */
  function OrdreMoure(e: Eix, id: int, objectiu: real, index: int): Ordre
    requires Velocitat(e, index).Some?
  {
    Moure(id, objectiu * e.reduccio, Velocitat(e, index).value)
  }

  /** Whether `moure_sol_eix` would succeed for a valid axis. */
  predicate PotMoure(s: Scara, id: int, objectiu: real, index: int)
    requires s.Valid() && 0 <= id < 4
  {
    DinsLimits(s.eixos[id], objectiu) && Velocitat(s.eixos[id], index).Some? && s.motors[id] != Altre
  }

  /** `t`'s log extends `s`'s with motor moves only. */
  predicate NomesMoviments(s: Scara, t: Scara)
  {
    && s.ordres <= t.ordres
    && forall k :: |s.ordres| <= k < |t.ordres| ==> t.ordres[k].Moure?
  }

  /** `moure_sol_eix`: an unknown axis raises; an angle outside the limits, a
      speed index outside the list or an unknown motor kind returns False and
      changes nothing; otherwise the motor is sent the angle times the
      reduction ratio, the stored joint angle becomes the target, and no other
      axis changes. */
  function MoureSolEix(s: Scara, id: int, objectiu: real, index: int): (r: Result<(Scara, bool), ErrorScara>)
    requires s.Valid()
    ensures r.Err? <==> !(0 <= id < 4)
    ensures r.Ok? ==> r.value.0.Valid() && r.value.0.eixos == s.eixos && r.value.0.motors == s.motors
    ensures r.Ok? ==> NomesMoviments(s, r.value.0)
    ensures r.Ok? ==> (r.value.1 <==> PotMoure(s, id, objectiu, index))
    ensures r.Ok? && !r.value.1 ==> r.value.0 == s
    ensures r.Ok? && r.value.1 ==>
      && r.value.0.angles == s.angles[id := objectiu]
      && r.value.0.ordres == s.ordres + [OrdreMoure(s.eixos[id], id, objectiu, index)]
  {
    match ValidarAngle(s, id, objectiu)
    case Err(e) => Err(e)
    case Ok(valid) =>
      if !valid then Ok((s, false))
      else if Velocitat(s.eixos[id], index).None? then Ok((s, false))
      else if s.motors[id] == Altre then Ok((s, false))
      else
        var ordre := OrdreMoure(s.eixos[id], id, objectiu, index);
        Ok((s.(angles := s.angles[id := objectiu], ordres := s.ordres + [ordre]), true))
  }

  /** With the default speed index -2, an axis with a single speed never moves. */
  lemma DefaultIndexNeedsTwoSpeeds(s: Scara, id: int, objectiu: real)
    requires s.Valid() && 0 <= id < 4 && |s.eixos[id].speeds| == 1
    ensures MoureSolEix(s, id, objectiu, -2) == Ok((s, false))
  {
  }

  /** Moves of two different axes leave the same stored angles, and send the
      same commands, in either order; which is why running them on separate
      threads does not change the outcome. */
  lemma MoureSolEixCommutes(s: Scara, i: int, j: int, a: real, b: real, index: int)
    requires s.Valid() && 0 <= i < 4 && 0 <= j < 4 && i != j
    ensures var si := MoureSolEix(s, i, a, index).value;
            var sj := MoureSolEix(s, j, b, index).value;
            var ij := MoureSolEix(si.0, j, b, index).value;
            var ji := MoureSolEix(sj.0, i, a, index).value;
            && ij.0.angles == ji.0.angles
            && multiset(ij.0.ordres) == multiset(ji.0.ordres)
            && (si.1 && ij.1 <==> sj.1 && ji.1)
  {
    var si := MoureSolEix(s, i, a, index).value;
    var sj := MoureSolEix(s, j, b, index).value;
    assert PotMoure(si.0, j, b, index) == PotMoure(s, j, b, index);
    assert PotMoure(sj.0, i, a, index) == PotMoure(s, i, a, index);
    var ij := MoureSolEix(si.0, j, b, index).value;
    var ji := MoureSolEix(sj.0, i, a, index).value;
    if si.1 && sj.1 {
      var mi := OrdreMoure(s.eixos[i], i, a, index);
      var mj := OrdreMoure(s.eixos[j], j, b, index);
      assert ij.0.angles == s.angles[i := a][j := b];
      assert ji.0.angles == s.angles[j := b][i := a];
      assert s.angles[i := a][j := b] == s.angles[j := b][i := a];
      assert ij.0.ordres == s.ordres + [mi] + [mj];
      assert ji.0.ordres == s.ordres + [mj] + [mi];
      assert multiset(s.ordres + [mi] + [mj]) == multiset(s.ordres + [mj] + [mi]);
    } else if si.1 {
      assert ij.0 == si.0 && ji.0 == si.0;
    } else if sj.1 {
      assert ij.0 == sj.0 && ji.0 == sj.0;
    } else {
      assert ij.0 == s && ji.0 == s;
    }
  }

  /** Every target of `mou_a_posicio_eixos` lies within its axis's limits. */
  predicate TotsDinsLimits(s: Scara, objectius: seq<real>)
    requires s.Valid() && |objectius| == 4
  {
    forall i :: 0 <= i < 4 ==> DinsLimits(s.eixos[i], objectius[i])
  }

  /** `mou_a_posicio_eixos`: when any target is outside its limits nothing
      moves and the result is False; otherwise each axis is moved as
      `moure_sol_eix` moves it (the four threads touch different axes), and
      the result is True iff every axis moved. */
  function MouAPosicioEixos(s: Scara, objectius: seq<real>, index: int): (r: (Scara, bool))
    requires s.Valid() && |objectius| == 4
    ensures r.0.Valid() && r.0.eixos == s.eixos && r.0.motors == s.motors
    ensures NomesMoviments(s, r.0)
    ensures !TotsDinsLimits(s, objectius) ==> r == (s, false)
    ensures r.1 <==> TotsDinsLimits(s, objectius) && forall i :: 0 <= i < 4 ==> PotMoure(s, i, objectius[i], index)
    ensures TotsDinsLimits(s, objectius) ==>
      forall i :: 0 <= i < 4 ==> r.0.angles[i] == (if PotMoure(s, i, objectius[i], index) then objectius[i] else s.angles[i])
  {
    if !TotsDinsLimits(s, objectius) then (s, false)
    else
      var r0 := MoureSolEix(s, 0, objectius[0], index).value;
      var r1 := MoureSolEix(r0.0, 1, objectius[1], index).value;
      var r2 := MoureSolEix(r1.0, 2, objectius[2], index).value;
      var r3 := MoureSolEix(r2.0, 3, objectius[3], index).value;
      assert PotMoure(r0.0, 1, objectius[1], index) == PotMoure(s, 1, objectius[1], index);
      assert PotMoure(r1.0, 2, objectius[2], index) == PotMoure(s, 2, objectius[2], index);
      assert PotMoure(r2.0, 3, objectius[3], index) == PotMoure(s, 3, objectius[3], index);
      (r3.0, r0.1 && r1.1 && r2.1 && r3.1)
  }

  /** `calibrar_robot`, for one of the three stepper axes: a stepper is
      calibrated and the stored angle reset to the axis offset; any other
      motor is skipped. */
  function CalibrarEix(s: Scara, id: int): (r: Scara)
    requires s.Valid() && 0 <= id < 3
    ensures r.Valid() && r.eixos == s.eixos && r.motors == s.motors
    ensures r.angles[id] == (if s.motors[id] == PasAPas then s.eixos[id].offset else s.angles[id])
    ensures forall j :: 0 <= j < 4 && j != id ==> r.angles[j] == s.angles[j]
  {
    if s.motors[id] == PasAPas then
      s.(angles := s.angles[id := s.eixos[id].offset], ordres := s.ordres + [Calibratge(id)])
    else s
  }

  /** `calibrar_robot`: the three stepper axes in order, then the wrist servo,
      which is sent its offset (without the reduction ratio) with the slowest
      delay. Every axis whose motor has the expected kind ends at its offset. */
  function CalibrarRobot(s: Scara): (r: Scara)
    requires s.Valid()
    ensures r.Valid() && r.eixos == s.eixos && r.motors == s.motors
    ensures forall i :: 0 <= i < 3 ==>
      r.angles[i] == (if s.motors[i] == PasAPas then s.eixos[i].offset else s.angles[i])
    ensures r.angles[3] == (if s.motors[3] == ServoMotor then s.eixos[3].offset else s.angles[3])
  {
    var s0 := CalibrarEix(s, 0);
    var s1 := CalibrarEix(s0, 1);
    var s2 := CalibrarEix(s1, 2);
    if s2.motors[3] == ServoMotor then
      var retard := s2.eixos[3].speeds[|s2.eixos[3].speeds| - 1];
      s2.(angles := s2.angles[3 := s2.eixos[3].offset], ordres := s2.ordres + [Moure(3, s2.eixos[3].offset, retard)])
    else s2
  }

  /** On the intended hardware (three steppers and a servo), calibration puts
      the stored angles back where the constructor started them, however the
      arm has moved since. */
  lemma CalibrarRestoresInitialAngles(s: Scara, c: Scara)
    requires s.Valid() && c.Valid() && c.eixos == s.eixos
    requires s.motors == [PasAPas, PasAPas, PasAPas, ServoMotor]
    requires forall i :: 0 <= i < 4 ==> c.angles[i] == c.eixos[i].offset
    ensures CalibrarRobot(s).angles == c.angles
  {
  }

  /** The two moves of the Z axis in `gestionar_objecte`, both at the slowest
      speed: down to the object and back up to the safety height. */
  function Baixar(s: Scara, posicio: seq<real>): Ordre
    requires s.Valid() && |posicio| == 4
  {
    OrdreMoure(s.eixos[EixZ], EixZ, posicio[EixZ], -1)
  }

  function Pujar(s: Scara, alturaSeguretat: real): Ordre
    requires s.Valid()
  {
    OrdreMoure(s.eixos[EixZ], EixZ, alturaSeguretat, -1)
  }

  /** `gestionar_objecte`: check the safety height on the Z axis; go to the
      object's base, arm and wrist angles at the safety height; lower Z to the
      object at the slowest speed; switch the magnet; raise Z back at the
      slowest speed. Any failed step stops the sequence with False. */
  function GestionarObjecte(s: Scara, posicio: seq<real>, alturaSeguretat: real, agafar: bool, index: int): (r: (Scara, bool))
    requires s.Valid() && |posicio| == 4
    ensures r.0.Valid() && r.0.eixos == s.eixos && r.0.motors == s.motors
    ensures !DinsLimits(s.eixos[EixZ], alturaSeguretat) ==> r == (s, false)
    ensures r.1 ==>
      && r.0.ordres == MouAPosicioEixos(s, [posicio[0], posicio[1], alturaSeguretat, posicio[3]], index).0.ordres
                       + [Baixar(s, posicio), Pinca(agafar), Pujar(s, alturaSeguretat)]
      && r.0.angles == [posicio[0], posicio[1], alturaSeguretat, posicio[3]]
    ensures (!r.1 && NomesMoviments(s, r.0))
      || r.0.ordres == MouAPosicioEixos(s, [posicio[0], posicio[1], alturaSeguretat, posicio[3]], index).0.ordres
                       + [Baixar(s, posicio), Pinca(agafar)] + (if r.1 then [Pujar(s, alturaSeguretat)] else [])
  {
    if !DinsLimits(s.eixos[EixZ], alturaSeguretat) then (s, false)
    else
      var objectius := [posicio[0], posicio[1], alturaSeguretat, posicio[3]];
      var (s1, ok1) := MouAPosicioEixos(s, objectius, index);
      if !ok1 then (s1, false)
      else
        assert s1.angles == objectius;
        var (s2, ok2) := MoureSolEix(s1, EixZ, posicio[EixZ], -1).value;
        if !ok2 then (s2, false)
        else
          var s3 := s2.(ordres := s2.ordres + [Pinca(agafar)]);
          var (s4, ok4) := MoureSolEix(s3, EixZ, alturaSeguretat, -1).value;
          assert s4.ordres == s1.ordres + [Baixar(s, posicio), Pinca(agafar)] + (if ok4 then [Pujar(s, alturaSeguretat)] else []);
          (s4, ok4)
  }

  /** Whatever the outcome, `gestionar_objecte` switches the magnet only
      right after lowering the Z axis onto the object. */
  lemma {:induction false} MagnetOnlyAfterLowering(s: Scara, posicio: seq<real>, alturaSeguretat: real, agafar: bool, index: int)
    requires s.Valid() && |posicio| == 4
    ensures var r := GestionarObjecte(s, posicio, alturaSeguretat, agafar, index).0;
      forall k :: |s.ordres| <= k < |r.ordres| && r.ordres[k].Pinca? ==> k > 0 && r.ordres[k - 1] == Baixar(s, posicio)
  {
    var r := GestionarObjecte(s, posicio, alturaSeguretat, agafar, index);
    if !(!r.1 && NomesMoviments(s, r.0)) {
      var pre := MouAPosicioEixos(s, [posicio[0], posicio[1], alturaSeguretat, posicio[3]], index).0;
      assert NomesMoviments(s, pre);
      forall k | |s.ordres| <= k < |r.0.ordres| && r.0.ordres[k].Pinca?
        ensures k > 0 && r.0.ordres[k - 1] == Baixar(s, posicio)
      {
        if k >= |pre.ordres| {
          assert k == |pre.ordres| + 1;
        }
      }
    }
  }
}
