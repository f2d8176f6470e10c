/** Joint bookkeeping of the simulated SCARA arm (`DominoRobotController` in the
    two `Domibot.py` files). The controller keeps its own record of joint angles
    in radians; the simulator bridge, the symbolic forward kinematics and the
    numeric solver are inputs. The simulator copy applies solved angles as
    increments through `move_joint_by_delta`; the older copy at the repository
    root assigns them. */
module Kinematics {
  import opened PyOps

  const Joint1: string := "joint1"
  const Joint2: string := "joint2"
  const Joint3: string := "joint3"
  const Joint4: string := "joint4"

  /** Upper arm and forearm lengths in metres, and the suction-cup offset. */
  const La: real := 0.26
  const Lb: real := 0.1425
  const Dventosa: real := 0.011

  /** The controller's state: whether the simulator answered, the attribute
      names `getattr(self, name, None)` finds (the joint handles once
      connected), and the recorded joint angles in radians. */
  datatype Brazo = Brazo(conectado: bool, atributos: set<string>, angulos: map<string, real>)
  {
    /** Every joint is recorded, and a connected controller holds a handle for each. */
    ghost predicate Valido()
    {
      && {Joint1, Joint2, Joint3, Joint4} <= angulos.Keys
      && (conectado ==> {Joint1, Joint2, Joint3, Joint4} <= atributos)
    }
  }

  /** Degrees to radians and back, as the source writes them. */
  function Rad(grados: real): real { grados * Pi / 180.0 }
  function Deg(rad: real): real { rad * 180.0 / Pi }

  lemma DegRadInverse(x: real)
    ensures Rad(Deg(x)) == x && Deg(Rad(x)) == x
  {
  }

  /** `joint_angles.get(name, 0)`. */
  function Angulo(b: Brazo, nombre: string): real
  {
    if nombre in b.angulos then b.angulos[nombre] else 0.0
  }

  /** `move_joint_by_delta`: the named joint turns by `deltaGrados` degrees. */
  function MoverArticulacion(b: Brazo, nombre: string, deltaGrados: real): (r: Brazo)
    ensures r.conectado == b.conectado && r.atributos == b.atributos
    ensures !b.conectado || nombre !in b.atributos ==> r == b
    ensures b.conectado && nombre in b.atributos ==>
      && r.angulos.Keys == b.angulos.Keys + {nombre}
      && Deg(r.angulos[nombre] - Angulo(b, nombre)) == deltaGrados
      && (forall k :: k in b.angulos && k != nombre ==> r.angulos[k] == b.angulos[k])
    ensures b.Valido() ==> r.Valido()
  {
    if !b.conectado || nombre !in b.atributos then b
    else b.(angulos := b.angulos[nombre := Angulo(b, nombre) + Rad(deltaGrados)])
  }

  /** Turning a joint back by the same amount restores the recorded angles. */
  lemma MoverArticulacionInverse(b: Brazo, nombre: string, deltaGrados: real)
    requires nombre in b.angulos
    ensures MoverArticulacion(MoverArticulacion(b, nombre, deltaGrados), nombre, -deltaGrados) == b
  {
    var r := MoverArticulacion(MoverArticulacion(b, nombre, deltaGrados), nombre, -deltaGrados);
    if b.conectado && nombre in b.atributos {
      assert r.angulos == b.angulos;
    }
  }

  /** The heading of the end effector: shoulder, elbow and wrist together. */
  function Rumbo(b: Brazo): real
    requires b.Valido()
  {
    b.angulos[Joint1] + b.angulos[Joint2] + b.angulos[Joint4]
  }

  /** The target corrected for the suction cup, which hangs `Dventosa` below the
      wrist: `Rz(yaw)·Rx(roll)·(0, 0, -d)` projected on the plane, with the
      sines and cosines of the angles in radians as inputs. */
  function Corregido(px: real, py: real, senYaw: real, cosYaw: real, senRoll: real): (real, real)
  {
    (px - Dventosa * senYaw * senRoll, py + Dventosa * cosYaw * senRoll)
  }

  /** `r > la + lb` on the radius `hypot(px, py)`, written on its square. */
  predicate FueraDeAlcance(px: real, py: real)
  {
    px * px + py * py > (La + Lb) * (La + Lb)
  }

  /** The law-of-cosines estimate of the elbow angle. */
  function CosTheta2(px: real, py: real): real
  {
    (px * px + py * py - La * La - Lb * Lb) / (2.0 * La * Lb)
  }

  /** Whether `move_domino` gets past both guards. */
  predicate Alcanzable(px: real, py: real)
  {
    !FueraDeAlcance(px, py) && AbsReal(CosTheta2(px, py)) <= 1.0
  }

  /** The guards accept exactly the closed annulus between `la - lb` and
      `la + lb` around the base; the cosine can only exceed 1 where the reach
      guard already refused, so its upper half is never what rejects a target. */
  lemma AlcanzableIsAnnulus(px: real, py: real)
    ensures Alcanzable(px, py) <==>
      (La - Lb) * (La - Lb) <= px * px + py * py <= (La + Lb) * (La + Lb)
    ensures !FueraDeAlcance(px, py) ==> CosTheta2(px, py) <= 1.0
  {
  }

  /** The sines and cosines `move_domino` takes of `deg2rad(roll)` and `deg2rad(yaw)`. */
  datatype Trig = Trig(senYaw: real, cosYaw: real, senRoll: real)

  /** `nsolve` on the planar forward kinematics with the prismatic joint held at
      `d3`: the solved (θ1, θ2) in radians, or None when it raises. */
  type Solver = (real, real, real) -> Option<(real, real)>

  /** The solved angles `move_domino` would use, or None when a guard returns
      early or the solver raises. */
  function Solucion(b: Brazo, px: real, py: real, t: Trig, nsolve: Solver): (s: Option<(real, real)>)
    requires b.Valido()
    ensures s.Some? ==> b.conectado
    ensures s.Some? ==> Alcanzable(Corregido(px, py, t.senYaw, t.cosYaw, t.senRoll).0,
                                   Corregido(px, py, t.senYaw, t.cosYaw, t.senRoll).1)
  {
    var (x, y) := Corregido(px, py, t.senYaw, t.cosYaw, t.senRoll);
    if !b.conectado || FueraDeAlcance(x, y) || AbsReal(CosTheta2(x, y)) > 1.0 then None
    else nsolve(x, y, b.angulos[Joint3])
  }

  /** `move_domino` of the simulator copy: shoulder and elbow turn by the solved
      angles and the wrist by `rotacion` minus both, all through
      `move_joint_by_delta`; joint 3 is only read. */
  function MoverDomino(b: Brazo, px: real, py: real, t: Trig, rotacion: real, nsolve: Solver): (r: Brazo)
    requires b.Valido()
    ensures r.Valido() && r.conectado == b.conectado
    ensures r.angulos[Joint3] == b.angulos[Joint3]
    ensures Solucion(b, px, py, t, nsolve).None? ==> r == b
    ensures Solucion(b, px, py, t, nsolve).Some? ==>
      var (t1, t2) := Solucion(b, px, py, t, nsolve).value;
      && r.angulos[Joint1] == b.angulos[Joint1] + t1
      && r.angulos[Joint2] == b.angulos[Joint2] + t2
  {
    match Solucion(b, px, py, t, nsolve)
    case None => b
    case Some((t1, t2)) =>
      var a1 := Deg(t1);
      var a2 := Deg(t2);
      DegRadInverse(t1);
      DegRadInverse(t2);
      var b1 := MoverArticulacion(b, Joint1, a1);
      var b2 := MoverArticulacion(b1, Joint2, a2);
      MoverArticulacion(b2, Joint4, -(a1 + a2) + rotacion)
  }

  /** The wrist cancels shoulder plus elbow: a successful move turns the end
      effector by exactly `rotacion` degrees, a refused one not at all. */
  lemma {:induction false} MoverDominoTurnsByRotacion(b: Brazo, px: real, py: real, t: Trig,
                                                      rotacion: real, nsolve: Solver)
    requires b.Valido()
    ensures var r := MoverDomino(b, px, py, t, rotacion, nsolve);
      Rumbo(r) == Rumbo(b) + (if Solucion(b, px, py, t, nsolve).Some? then Rad(rotacion) else 0.0)
  {
    var s := Solucion(b, px, py, t, nsolve);
    if s.Some? {
      var (t1, t2) := s.value;
      DegRadInverse(t1);
      DegRadInverse(t2);
      var a1 := Deg(t1);
      var a2 := Deg(t2);
      var b1 := MoverArticulacion(b, Joint1, a1);
      var b2 := MoverArticulacion(b1, Joint2, a2);
      var r := MoverArticulacion(b2, Joint4, -(a1 + a2) + rotacion);
      assert r.angulos[Joint4] == b.angulos[Joint4] + Rad(-(a1 + a2) + rotacion);
      assert Rad(-(a1 + a2) + rotacion) == -(t1 + t2) + Rad(rotacion);
    }
  }

  /** `move_domino` of the root copy: shoulder and elbow are set to the solved
      angles and the wrist to the yaw in radians; joint 3 is only read. */
  function MoverDominoRaiz(b: Brazo, px: real, py: real, yaw: real, t: Trig, nsolve: Solver): (r: Brazo)
    requires b.Valido()
    ensures r.Valido() && r.conectado == b.conectado && r.atributos == b.atributos
    ensures r.angulos.Keys == b.angulos.Keys
    ensures r.angulos[Joint3] == b.angulos[Joint3]
    ensures Solucion(b, px, py, t, nsolve).None? ==> r == b
    ensures Solucion(b, px, py, t, nsolve).Some? ==>
      && (r.angulos[Joint1], r.angulos[Joint2]) == Solucion(b, px, py, t, nsolve).value
      && r.angulos[Joint4] == Rad(yaw)
  {
    match Solucion(b, px, py, t, nsolve)
    case None => b
    case Some((t1, t2)) =>
      b.(angulos := b.angulos[Joint1 := t1][Joint2 := t2][Joint4 := Rad(yaw)])
  }

  /** The root copy's result does not depend on where the arm was: two
      controllers whose only difference is their shoulder, elbow and wrist
      angles end in the same pose. */
  lemma MoverDominoRaizForgetsPose(b: Brazo, c: Brazo, px: real, py: real, yaw: real, t: Trig, nsolve: Solver)
    requires b.Valido() && c.Valido()
    requires c.conectado == b.conectado && c.atributos == b.atributos
    requires c.angulos == b.angulos[Joint1 := c.angulos[Joint1]][Joint2 := c.angulos[Joint2]][Joint4 := c.angulos[Joint4]]
    requires Solucion(b, px, py, t, nsolve).Some?
    ensures MoverDominoRaiz(b, px, py, yaw, t, nsolve) == MoverDominoRaiz(c, px, py, yaw, t, nsolve)
  {
    assert c.angulos[Joint3] == b.angulos[Joint3];
  }

  /** `move_posicion_inicial`: turn the shoulder to 90° and the elbow to 0°,
      counter-turning the wrist. */
  function MoverPosicionInicial(b: Brazo): (r: Brazo)
    requires b.Valido()
    ensures r.Valido()
    ensures !b.conectado ==> r == b
    ensures b.conectado ==> r.angulos[Joint1] == Pi / 2.0 && r.angulos[Joint2] == 0.0
    ensures r.angulos[Joint3] == b.angulos[Joint3]
  {
    var a1 := 90.0 - Deg(b.angulos[Joint1]);
    var a2 := -Deg(b.angulos[Joint2]);
    var b1 := MoverArticulacion(b, Joint1, a1);
    var b2 := MoverArticulacion(b1, Joint2, a2);
    MoverArticulacion(b2, Joint4, -(a1 + a2))
  }

  /** `move_posicion_recta`: shoulder and elbow back to 0°, counter-turning the wrist. */
  function MoverPosicionRecta(b: Brazo): (r: Brazo)
    requires b.Valido()
    ensures r.Valido()
    ensures !b.conectado ==> r == b
    ensures b.conectado ==> r.angulos[Joint1] == 0.0 && r.angulos[Joint2] == 0.0
    ensures r.angulos[Joint3] == b.angulos[Joint3]
  {
    var a1 := -Deg(b.angulos[Joint1]);
    var a2 := -Deg(b.angulos[Joint2]);
    var b1 := MoverArticulacion(b, Joint1, a1);
    var b2 := MoverArticulacion(b1, Joint2, a2);
    MoverArticulacion(b2, Joint4, -(a1 + a2))
  }

  /** Both parking moves keep the end effector's heading. */
  lemma {:induction false} ParkingKeepsHeading(b: Brazo)
    requires b.Valido()
    ensures Rumbo(MoverPosicionInicial(b)) == Rumbo(b)
    ensures Rumbo(MoverPosicionRecta(b)) == Rumbo(b)
  {
    if b.conectado {
      var a1 := 90.0 - Deg(b.angulos[Joint1]);
      var a2 := -Deg(b.angulos[Joint2]);
      assert Rad(-(a1 + a2)) == -(Rad(a1) + Rad(a2));
      var c1 := -Deg(b.angulos[Joint1]);
      assert Rad(-(c1 + a2)) == -(Rad(c1) + Rad(a2));
    }
  }

  /** A camera resolution and the world interval each image axis spans. */
  datatype Calibracion = Calibracion(ancho: real, alto: real, xDesde: real, xHasta: real, yDesde: real, yHasta: real)

  /** The defaults of the simulator copy: the image's top edge is the far side. */
  const CalibracionVirtual: Calibracion := Calibracion(640.0, 480.0, 0.475, 0.025, 0.30, -0.30)
  /** The defaults of the root copy: the image's top edge is the near side. */
  const CalibracionRaiz: Calibracion := Calibracion(640.0, 480.0, 0.025, 0.475, 0.30, -0.30)

  /** `pixel_to_world_linear`: the row `v` drives world x and the column `u`
      drives world y, each by linear interpolation. A zero resolution raises. */
  function PixelAMundo(u: real, v: real, c: Calibracion): (p: (real, real))
    requires c.ancho != 0.0 && c.alto != 0.0
    ensures u == 0.0 ==> p.1 == c.yDesde
    ensures u == c.ancho ==> p.1 == c.yHasta
    ensures v == 0.0 ==> p.0 == c.xDesde
    ensures v == c.alto ==> p.0 == c.xHasta
  {
    (c.xDesde + v / c.alto * (c.xHasta - c.xDesde), c.yDesde + u / c.ancho * (c.yHasta - c.yDesde))
  }

  /** World x depends only on the row, world y only on the column, and the map
      takes midpoints to midpoints. */
  lemma PixelAMundoAffine(u: real, v: real, u2: real, v2: real, c: Calibracion)
    requires c.ancho != 0.0 && c.alto != 0.0
    ensures PixelAMundo(u, v, c).0 == PixelAMundo(u2, v, c).0
    ensures PixelAMundo(u, v, c).1 == PixelAMundo(u, v2, c).1
    ensures PixelAMundo((u + u2) / 2.0, (v + v2) / 2.0, c).0
         == (PixelAMundo(u, v, c).0 + PixelAMundo(u2, v2, c).0) / 2.0
    ensures PixelAMundo((u + u2) / 2.0, (v + v2) / 2.0, c).1
         == (PixelAMundo(u, v, c).1 + PixelAMundo(u2, v2, c).1) / 2.0
  {
    LerpMidpoint(c.xDesde, c.alto, c.xHasta - c.xDesde, v, v2);
    LerpMidpoint(c.yDesde, c.ancho, c.yHasta - c.yDesde, u, u2);
  }

  /** Linear interpolation takes the midpoint of two inputs to the midpoint of their images. */
  lemma LerpMidpoint(a: real, s: real, d: real, w1: real, w2: real)
    requires s != 0.0
    ensures a + (w1 + w2) / 2.0 / s * d == ((a + w1 / s * d) + (a + w2 / s * d)) / 2.0
  {
    var q1, q2 := w1 / s, w2 / s;
    assert (w1 + w2) / 2.0 / s == (q1 + q2) / 2.0;
    assert (q1 + q2) / 2.0 * d == (q1 * d + q2 * d) / 2.0;
  }

  /** The image corners land on the corners of the working area. */
  lemma CalibracionesCorners()
    ensures PixelAMundo(0.0, 0.0, CalibracionVirtual) == (0.475, 0.30)
    ensures PixelAMundo(640.0, 480.0, CalibracionVirtual) == (0.025, -0.30)
    ensures PixelAMundo(0.0, 0.0, CalibracionRaiz) == (0.025, 0.30)
    ensures PixelAMundo(640.0, 480.0, CalibracionRaiz) == (0.475, -0.30)
  {
    assert 480.0 / 480.0 == 1.0 && 640.0 / 640.0 == 1.0;
  }

  /** The two copies mirror each other in x about 0.25 m and agree in y. */
  lemma CalibracionesMirror(u: real, v: real)
    ensures PixelAMundo(u, v, CalibracionVirtual).0 + PixelAMundo(u, v, CalibracionRaiz).0 == 0.5
    ensures PixelAMundo(u, v, CalibracionVirtual).1 == PixelAMundo(u, v, CalibracionRaiz).1
  {
    var q := v / 480.0;
    assert PixelAMundo(u, v, CalibracionVirtual).0 == 0.475 + q * (0.025 - 0.475);
    assert PixelAMundo(u, v, CalibracionRaiz).0 == 0.025 + q * (0.475 - 0.025);
  }
}
