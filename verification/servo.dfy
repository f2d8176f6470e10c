/** The hobby-servo driver (`Servomotor`): parameter validation at
    construction, the clamped linear map from an angle to a PWM duty cycle,
    and the initialisation guard on moves. GPIO and PWM calls succeed or fail
    as inputs say; the duty cycle written is the observable result. */
module Servo {
  import opened PyOps

  /** Every calibration and validation parameter the constructor takes. */
  datatype Config = Config(
    pwmFrequency: real,
    dcMin: real, dcMax: real,
    angleMinOp: real, angleMaxOp: real,
    angleValMin: real, angleValMax: real,
    dcValMin: real, dcValMax: real)

  /** The defaults: 50 Hz, 2.5 % to 12.5 %, the full 0..180 degree range,
      duty cycles 0..100 %. */
  const PerDefecte: Config := Config(50.0, 2.5, 12.5, 0.0, 180.0, 0.0, 180.0, 0.0, 100.0)

  /** Which check of `_validate_all_parameters` raised ValueError. */
  datatype ErrorServo =
    | FrequenciaNoPositiva
    | LimitsAngleInvalids
    | LimitsDutyInvalids
    | RangAngleInvalid
    | RangDutyInvalid

  /** The five checks hold: a positive frequency, ordered validation limits,
      and strictly ordered operational ranges inside them. */
  predicate Valida(c: Config)
  {
    && c.pwmFrequency > 0.0
    && c.angleValMin <= c.angleValMax
    && c.dcValMin <= c.dcValMax
    && c.angleValMin <= c.angleMinOp < c.angleMaxOp <= c.angleValMax
    && c.dcValMin <= c.dcMin < c.dcMax <= c.dcValMax
  }

  /** `_validate_all_parameters`: the first failing check, in source order. */
  function Validar(c: Config): (r: Result<Config, ErrorServo>)
    ensures r.Ok? <==> Valida(c)
    ensures r.Ok? ==> r.value == c
    ensures c.pwmFrequency <= 0.0 ==> r == Err(FrequenciaNoPositiva)
    ensures c.pwmFrequency > 0.0 && c.angleValMin > c.angleValMax ==> r == Err(LimitsAngleInvalids)
  {
    if !(c.pwmFrequency > 0.0) then Err(FrequenciaNoPositiva)
    else if !(c.angleValMin <= c.angleValMax) then Err(LimitsAngleInvalids)
    else if !(c.dcValMin <= c.dcValMax) then Err(LimitsDutyInvalids)
    else if !(c.angleValMin <= c.angleMinOp < c.angleMaxOp <= c.angleValMax) then Err(RangAngleInvalid)
    else if !(c.dcValMin <= c.dcMin < c.dcMax <= c.dcValMax) then Err(RangDutyInvalid)
    else Ok(c)
  }

  /** The defaults pass validation, and a degenerate or reversed operational
      range (equal ends, or min above max) does not. */
  lemma ValidarExamples(c: Config)
    ensures Validar(PerDefecte).Ok?
    ensures Valida(c) ==> c.angleMaxOp - c.angleMinOp > 0.0
    ensures c.pwmFrequency == 0.0 ==> Validar(c) == Err(FrequenciaNoPositiva)
  {
  }

  /** Degrees of the servo's full travel that `duty_cycle_min` and
      `duty_cycle_max` are calibrated against. */
  const AngleAbsolutMin: real := 0.0
  const AngleAbsolutMax: real := 180.0

  /** The duty cycle the calibration assigns to an absolute angle. */
  function DutyCalibrat(c: Config, angle: real): real
  {
    c.dcMin + (angle - AngleAbsolutMin) * (c.dcMax - c.dcMin) / (AngleAbsolutMax - AngleAbsolutMin)
  }

  /** `_map_angle_to_duty_cycle`: clamp the angle to the operational range,
      interpolate between the calibrated duty cycles of the range's ends, and
      clamp the result to the validation limits of the duty cycle. With a
      non-empty range the two-stage interpolation is the calibration line
      itself, read at the clamped angle. */
  function DutyPerAngle(c: Config, angle: real): (d: real)
    ensures c.dcValMin <= c.dcValMax ==> c.dcValMin <= d <= c.dcValMax
    ensures c.angleMinOp < c.angleMaxOp ==>
      d == Clamp(c.dcValMin, c.dcValMax, DutyCalibrat(c, Clamp(c.angleMinOp, c.angleMaxOp, angle)))
  {
    var clamped := Clamp(c.angleMinOp, c.angleMaxOp, angle);
    var dcAtMin := DutyCalibrat(c, c.angleMinOp);
    var dcAtMax := DutyCalibrat(c, c.angleMaxOp);
    var span := c.angleMaxOp - c.angleMinOp;
    var duty :=
      if span == 0.0 then dcAtMin
      else dcAtMin + (clamped - c.angleMinOp) / span * (dcAtMax - dcAtMin);
    InterpolationIsCalibration(c, clamped);
    Clamp(c.dcValMin, c.dcValMax, duty)
  }

  /** Interpolating between the calibrated ends of a range lands on the
      calibration line. */
  lemma InterpolationIsCalibration(c: Config, x: real)
    ensures c.angleMaxOp - c.angleMinOp != 0.0 ==>
      DutyCalibrat(c, c.angleMinOp)
        + (x - c.angleMinOp) / (c.angleMaxOp - c.angleMinOp) * (DutyCalibrat(c, c.angleMaxOp) - DutyCalibrat(c, c.angleMinOp))
      == DutyCalibrat(c, x)
  {
    var span := c.angleMaxOp - c.angleMinOp;
    if span != 0.0 {
      var k := (c.dcMax - c.dcMin) / 180.0;
      assert DutyCalibrat(c, x) == c.dcMin + x * k;
      assert DutyCalibrat(c, c.angleMaxOp) - DutyCalibrat(c, c.angleMinOp) == span * k;
      assert (x - c.angleMinOp) / span * (span * k) == (x - c.angleMinOp) * k;
    }
  }

  /** Angles outside the operational range act like its nearest end. */
  lemma ClampedAnglesMapLikeEnds(c: Config, angle: real)
    requires Valida(c)
    ensures angle <= c.angleMinOp ==> DutyPerAngle(c, angle) == DutyPerAngle(c, c.angleMinOp)
    ensures angle >= c.angleMaxOp ==> DutyPerAngle(c, angle) == DutyPerAngle(c, c.angleMaxOp)
  {
  }

  /** A larger angle never gets a smaller duty cycle. */
  lemma DutyPerAngleMonotone(c: Config, a: real, b: real)
    requires Valida(c) && a <= b
    ensures DutyPerAngle(c, a) <= DutyPerAngle(c, b)
  {
    var ca := Clamp(c.angleMinOp, c.angleMaxOp, a);
    var cb := Clamp(c.angleMinOp, c.angleMaxOp, b);
    ClampMonotone(c.angleMinOp, c.angleMaxOp, a, b);
    DutyCalibratMonotone(c, ca, cb);
    ClampMonotone(c.dcValMin, c.dcValMax, DutyCalibrat(c, ca), DutyCalibrat(c, cb));
  }

  lemma DutyCalibratMonotone(c: Config, x: real, y: real)
    requires c.dcMin < c.dcMax && x <= y
    ensures DutyCalibrat(c, x) <= DutyCalibrat(c, y)
  {
    var k := (c.dcMax - c.dcMin) / 180.0;
    assert DutyCalibrat(c, x) == c.dcMin + x * k;
    assert DutyCalibrat(c, y) == c.dcMin + y * k;
    MulMonotone(x, y, k);
  }

  /** With the defaults, 0 degrees is 2.5 %, 90 degrees 7.5 % and 180 degrees 12.5 %. */
  lemma DefaultCalibrationPoints()
    ensures DutyPerAngle(PerDefecte, 0.0) == 2.5
    ensures DutyPerAngle(PerDefecte, 90.0) == 7.5
    ensures DutyPerAngle(PerDefecte, 180.0) == 12.5
    ensures DutyPerAngle(PerDefecte, -30.0) == 2.5
  {
  }

  /** The driver's state after construction: whether a PWM object exists and
      whether the context entered cleanly. */
  datatype Servomotor = Servomotor(config: Config, pwm: bool, inicialitzat: bool)

  /** The constructor: validation first; a fresh servo has no PWM yet. */
  function CrearServo(c: Config): (r: Result<Servomotor, ErrorServo>)
    ensures r.Ok? <==> Valida(c)
    ensures r.Ok? ==> r.value.config == c && !r.value.pwm && !r.value.inicialitzat
  {
    match Validar(c)
    case Err(e) => Err(e)
    case Ok(c2) => Ok(Servomotor(c2, false, false))
  }

  /** `__enter__`: creating the PWM object and starting it may each raise
      RuntimeError, which leaves the servo uninitialised. */
  function Entrar(s: Servomotor, pwmCreat: bool, pwmArrencat: bool): (r: Servomotor)
    ensures r.config == s.config
    ensures r.inicialitzat <==> pwmCreat && pwmArrencat
    ensures r.inicialitzat ==> r.pwm
  {
    if !pwmCreat then s.(inicialitzat := false)
    else if !pwmArrencat then s.(pwm := true, inicialitzat := false)
    else s.(pwm := true, inicialitzat := true)
  }

  /** `__exit__`: whatever happened, the servo is no longer initialised. */
  function Sortir(s: Servomotor): (r: Servomotor)
    ensures r.config == s.config && r.pwm == s.pwm && !r.inicialitzat
  {
    s.(inicialitzat := false)
  }

  /** `move_to_angle`: the duty cycle written to the PWM, or None when the
      servo was never initialised (no PWM change at all). */
  function MoureAAngle(s: Servomotor, angle: real): (r: Option<real>)
    ensures r.None? <==> !s.inicialitzat || !s.pwm
    ensures r.Some? ==> r.value == DutyPerAngle(s.config, angle)
    ensures r.Some? && s.config.dcValMin <= s.config.dcValMax ==> s.config.dcValMin <= r.value <= s.config.dcValMax
  {
    if !s.inicialitzat || !s.pwm then None
    else Some(DutyPerAngle(s.config, angle))
  }

  /** Only a servo inside a cleanly entered context moves; leaving the context
      stops every later move. */
  lemma MovesOnlyInsideContext(c: Config, angle: real, creat: bool, arrencat: bool)
    requires Valida(c)
    ensures MoureAAngle(CrearServo(c).value, angle).None?
    ensures MoureAAngle(Entrar(CrearServo(c).value, creat, arrencat), angle).Some? <==> creat && arrencat
    ensures MoureAAngle(Sortir(Entrar(CrearServo(c).value, creat, arrencat)), angle).None?
  {
  }
}
