/** Placement planning (`Controlador_coordenadas.py`): from the board's open-end
    tiles and a hand tile's values, which ends match, in which directions a new
    tile may go, how it is oriented, where its centre lands and how far the
    gripper turns it. Pure functions over boxes, sides and scores. */
module Placement {
  import opened PyOps
  import opened Geometry
  import TileDetector
  import Scoring

  /** Tile size in pixels the planner assumes: `ANCHURA_FICHA` and `LONGITUD_FICHA`. */
  const AnchuraFicha: int := 40
  const LongitudFicha: int := 80

  datatype Punto = Punto(x: real, y: real)

  /** A border row as the planner reads it: box, neighbour side, neighbour count
      and score (`ficha_data[0]`, `[1]`, `[2]`, `[3]`). Board rows always carry a
      side name, so the side is a `Side` here. */
  datatype FichaBorde = FichaBorde(bbox: Box, vecino: Side, numVecinos: nat, puntuacion: Score)

  /** Reads a scored border row of `obtener_estado_completo` as the planner
      indexes it; a row whose side string is not a side name has no reading. */
  function FichaDeFila(p: Scoring.Puntuada): (r: Option<FichaBorde>)
    ensures r.Some? <==> ParseSide(p.datos.vecino).Some?
    ensures r.Some? ==>
      && r.value.bbox == p.datos.coordenadas && r.value.puntuacion == p.puntuacion
      && SideName(r.value.vecino) == p.datos.vecino
  {
    match ParseSide(p.datos.vecino)
    case Some(s) => Some(FichaBorde(p.datos.coordenadas, s, p.datos.numVecinos, p.puntuacion))
    case None => None
  }

  /** `bbox_center`: the centre with real division. */
  function BboxCenter(b: Box): (c: Punto)
    ensures 2.0 * c.x == (b.x1 + b.x2) as real && 2.0 * c.y == (b.y1 + b.y2) as real
  {
    Punto((b.x1 + b.x2) as real / 2.0, (b.y1 + b.y2) as real / 2.0)
  }

  /** The centre lies inside a well-formed box. */
  lemma BboxCenterInside(b: Box)
    requires b.WellFormed()
    ensures var c := BboxCenter(b);
      b.x1 as real <= c.x <= b.x2 as real && b.y1 as real <= c.y <= b.y2 as real
  {
  }

  // ---------------------------------------------------------------------------
  // Sorting the hand left to right

  ghost predicate SortedBy<T>(s: seq<T>, key: T -> real)
  {
    forall i, j :: 0 <= i < j < |s| ==> key(s[i]) <= key(s[j])
  }

  /** Insert `x` before the first element whose key is not smaller, so that it
      stays ahead of elements with an equal key that came after it. */
  function InsertByKey<T>(x: T, t: seq<T>, key: T -> real): (r: seq<T>)
    ensures |r| == |t| + 1
    ensures multiset(r) == multiset([x] + t)
  {
    if |t| == 0 || key(x) <= key(t[0]) then [x] + t
    else
      assert t == [t[0]] + t[1..];
      [t[0]] + InsertByKey(x, t[1..], key)
  }

  /** Stable sort by a real key: Python's `sorted(..., key=...)`. */
  function SortByKey<T>(s: seq<T>, key: T -> real): (r: seq<T>)
    ensures |r| == |s|
    ensures multiset(r) == multiset(s)
  {
    if |s| == 0 then [] else
      var rest := SortByKey(s[1..], key);
      assert s == [s[0]] + s[1..];
      InsertByKey(s[0], rest, key)
  }

  lemma {:induction false} InsertByKeySorted<T>(x: T, t: seq<T>, key: T -> real)
    requires SortedBy(t, key)
    ensures SortedBy(InsertByKey(x, t, key), key)
  {
    if |t| > 0 && key(x) > key(t[0]) {
      InsertByKeySorted(x, t[1..], key);
      var r := InsertByKey(x, t, key);
      var tail := InsertByKey(x, t[1..], key);
      assert r == [t[0]] + tail;
      forall k | 0 <= k < |tail|
        ensures key(t[0]) <= key(tail[k])
      {
        assert tail[k] in multiset(tail);
        assert tail[k] in multiset([x] + t[1..]);
        if tail[k] != x {
          assert tail[k] in t[1..];
        }
      }
    }
  }

  lemma {:induction false} SortByKeySorted<T>(s: seq<T>, key: T -> real)
    ensures SortedBy(SortByKey(s, key), key)
  {
    if |s| > 0 {
      SortByKeySorted(s[1..], key);
      InsertByKeySorted(s[0], SortByKey(s[1..], key), key);
    }
  }

  /** Inserting keeps the order among the elements of any one key. */
  lemma {:induction false} InsertByKeyStable<T>(x: T, t: seq<T>, key: T -> real, k: real)
    ensures Filter(InsertByKey(x, t, key), y => key(y) == k) == Filter([x] + t, y => key(y) == k)
  {
    var p := y => key(y) == k;
    if |t| > 0 && key(x) > key(t[0]) {
      var t0, rest := t[0], t[1..];
      var tail := InsertByKey(x, rest, key);
      InsertByKeyStable(x, rest, key, k);
      assert InsertByKey(x, t, key) == [t0] + tail;
      assert t == [t0] + rest;
      FilterCons(t0, tail, p);
      FilterCons(t0, [x] + rest, p);
      // x and t[0] have different keys, so at most one of them is kept
      FilterSwapFront(t0, x, rest, p);
    }
  }

  /** Filtering a list with a head: the head if kept, then the filtered rest. */
  lemma FilterCons<T>(x: T, xs: seq<T>, p: T -> bool)
    ensures Filter([x] + xs, p) == (if p(x) then [x] else []) + Filter(xs, p)
  {
    assert ([x] + xs)[1..] == xs;
  }

  /** Two front elements that are not both kept can trade places unnoticed. */
  lemma FilterSwapFront<T>(a: T, b: T, rest: seq<T>, p: T -> bool)
    requires !(p(a) && p(b))
    ensures Filter([a] + ([b] + rest), p) == Filter([b] + ([a] + rest), p)
  {
    FilterCons(a, [b] + rest, p);
    FilterCons(b, rest, p);
    FilterCons(b, [a] + rest, p);
    FilterCons(a, rest, p);
  }

  /** Elements with equal keys leave the sort in the order they came in. */
  lemma {:induction false} SortByKeyStable<T>(s: seq<T>, key: T -> real, k: real)
    ensures Filter(SortByKey(s, key), y => key(y) == k) == Filter(s, y => key(y) == k)
  {
    if |s| > 0 {
      var p := y => key(y) == k;
      var sorted := SortByKey(s[1..], key);
      SortByKeyStable(s[1..], key, k);
      InsertByKeyStable(s[0], sorted, key, k);
      assert SortByKey(s, key) == InsertByKey(s[0], sorted, key);
      FilterCons(s[0], sorted, p);
      FilterCons(s[0], s[1..], p);
      assert s == [s[0]] + s[1..];
    }
  }

  /** `ordenar_fichas_jugador_por_coordenadas`: hand rows left to right by the
      centre x of their boxes, keeping the input order on ties. */
  function OrdenarPorCoordenadas<T>(fichas: seq<T>, bbox: T -> Box): (r: seq<T>)
    ensures multiset(r) == multiset(fichas)
  {
    SortByKey(fichas, f => BboxCenter(bbox(f)).x)
  }

  /** The hand comes out as a permutation ordered by centre x, and rows whose
      centres share an x keep their relative order. */
  lemma OrdenarPorCoordenadasSpec<T>(fichas: seq<T>, bbox: T -> Box, cx: real)
    ensures var r := OrdenarPorCoordenadas(fichas, bbox);
      && multiset(r) == multiset(fichas)
      && (forall i, j :: 0 <= i < j < |r| ==> BboxCenter(bbox(r[i])).x <= BboxCenter(bbox(r[j])).x)
      && Filter(r, f => BboxCenter(bbox(f)).x == cx) == Filter(fichas, f => BboxCenter(bbox(f)).x == cx)
  {
    var key := f => BboxCenter(bbox(f)).x;
    SortByKeySorted(fichas, key);
    SortByKeyStable(fichas, key, cx);
    var r := SortByKey(fichas, key);
    FilterCongruent(r, y => key(y) == cx, f => BboxCenter(bbox(f)).x == cx);
    FilterCongruent(fichas, y => key(y) == cx, f => BboxCenter(bbox(f)).x == cx);
  }

  // ---------------------------------------------------------------------------
  // Matching a hand tile to the board

  /** `obtener_valores_comunes_y_coincidencia`: the hand tile's values that occur
      among the board's open values, in the tile's order with repeats kept, and
      whether there is any. */
  function ValoresComunes(valoresJugador: seq<int>, posibles: seq<int>): (r: (bool, seq<int>))
    ensures r.0 <==> |r.1| > 0
    ensures forall k :: 0 <= k < |r.1| ==> r.1[k] in valoresJugador && r.1[k] in posibles
    ensures forall k :: 0 <= k < |valoresJugador| && valoresJugador[k] in posibles ==> valoresJugador[k] in r.1
    ensures IsSubsequence(r.1, valoresJugador)
    ensures forall v :: multiset(r.1)[v] == (if v in posibles then multiset(valoresJugador)[v] else 0)
  {
    var comunes := Filter(valoresJugador, v => v in posibles);
    FilterIsSubsequence(valoresJugador, v => v in posibles);
    FilterMultiset(valoresJugador, v => v in posibles);
    (|comunes| > 0, comunes)
  }

  /** There is a match exactly when some value of the tile is open on the board. */
  lemma CoincidenciaIffShared(valoresJugador: seq<int>, posibles: seq<int>)
    ensures ValoresComunes(valoresJugador, posibles).0 <==> exists v :: v in valoresJugador && v in posibles
  {
    if exists v :: v in valoresJugador && v in posibles {
      var v :| v in valoresJugador && v in posibles;
      var k :| 0 <= k < |valoresJugador| && valoresJugador[k] == v;
    }
  }

  /** `obtener_fichas_posibles_donde_jugar`: the border rows whose facing value
      (the single value, or the first of a pair) equals the chosen value. */
  function FichasPosibles(borde: seq<FichaBorde>, valor: int): (r: seq<FichaBorde>)
    ensures forall k :: 0 <= k < |r| ==> r[k] in borde && r[k].puntuacion.Primero() == valor
    ensures forall k :: 0 <= k < |borde| && borde[k].puntuacion.Primero() == valor ==> borde[k] in r
    ensures IsSubsequence(r, borde)
  {
    FilterIsSubsequence(borde, (f: FichaBorde) => f.puntuacion.Primero() == valor);
    Filter(borde, (f: FichaBorde) => f.puntuacion.Primero() == valor)
  }

  /** No open end matches exactly when the result is empty. */
  lemma FichasPosiblesEmptyIff(borde: seq<FichaBorde>, valor: int)
    ensures |FichasPosibles(borde, valor)| == 0 <==>
      forall k :: 0 <= k < |borde| ==> borde[k].puntuacion.Primero() != valor
  {
    if |FichasPosibles(borde, valor)| > 0 {
      assert FichasPosibles(borde, valor)[0] in borde;
    }
  }

  // ---------------------------------------------------------------------------
  // Directions, orientation, offsets

  const TodasLasDirecciones: seq<Side> := [Izquierda, Derecha, Arriba, Abajo]

  /** Python `list.remove(x)`: drops the first occurrence. */
  function RemoveFirst(xs: seq<Side>, x: Side): (r: seq<Side>)
    ensures x in xs ==> |r| == |xs| - 1
    ensures x !in xs ==> r == xs
    ensures forall y :: y != x ==> (y in r <==> y in xs)
    ensures (forall i, j :: 0 <= i < j < |xs| ==> xs[i] != xs[j]) ==>
      x !in r && forall i, j :: 0 <= i < j < |r| ==> r[i] != r[j]
  {
    if |xs| == 0 then []
    else if xs[0] == x then xs[1..]
    else
      var rest := RemoveFirst(xs[1..], x);
      assert xs[0] in rest ==> xs[0] in xs[1..];
      assert forall i :: 0 <= i < |rest| ==> rest[i] in rest;
      [xs[0]] + rest
  }

  /** The directions `calcular_coordenada_juego` tries: all four but the
      neighbour's for a crosswise tile (a pair score), else only the opposite of
      the neighbour. */
  function Direcciones(f: FichaBorde): (ds: seq<Side>)
    ensures f.puntuacion.Pair? ==> |ds| == 3
    ensures f.puntuacion.Single? ==> ds == [Opposite(f.vecino)]
    ensures f.vecino !in ds
    ensures forall d :: d != f.vecino ==> (d in ds <==> f.puntuacion.Pair? || d == Opposite(f.vecino))
  {
    if f.puntuacion.Pair? then RemoveFirst(TodasLasDirecciones, f.vecino)
    else [Opposite(f.vecino)]
  }

  /** The directions offered are distinct. */
  lemma DireccionesDistinct(f: FichaBorde)
    ensures var ds := Direcciones(f);
      forall i, j :: 0 <= i < j < |ds| ==> ds[i] != ds[j]
  {
  }

  function Flip(o: Orientation): Orientation
  {
    if o == Horizontal then Vertical else Horizontal
  }

  /** `calcular_nueva_orientacion`: a tile laid against a crosswise tile turns
      when it goes left or right and keeps the orientation up or down; against
      any other tile it keeps the origin's orientation. */
  function NuevaOrientacion(f: FichaBorde, d: Side): (o: Orientation)
    ensures f.puntuacion.Single? ==> o == EsHorizontalOVertical(f.bbox)
    ensures f.puntuacion.Pair? && AxisOf(d) == Vertical ==> o == EsHorizontalOVertical(f.bbox)
    ensures f.puntuacion.Pair? && AxisOf(d) == Horizontal ==> o != EsHorizontalOVertical(f.bbox)
  {
    var orientacion := EsHorizontalOVertical(f.bbox);
    if f.puntuacion.Pair? && (d == Izquierda || d == Derecha) then Flip(orientacion)
    else orientacion
  }

  /** The tile's size along an axis: its length along its own orientation, its
      width across it. */
  function Extent(o: Orientation, axis: Orientation, longitud: int, anchura: int): int
  {
    if o == axis then longitud else anchura
  }

  /** Unit step of a direction in image coordinates (y grows downward). */
  function Unit(d: Side): (int, int)
  {
    match d
    case Izquierda => (-1, 0)
    case Derecha => (1, 0)
    case Arriba => (0, -1)
    case Abajo => (0, 1)
  }

  /** `calcular_offset`: half the tile's extent along the direction's axis, with
      the direction's sign, and nothing across it. */
  function CalcularOffset(o: Orientation, d: Side, longitud: int, anchura: int): (off: Punto)
    ensures var e := Extent(o, AxisOf(d), longitud, anchura) as real / 2.0;
      off == Punto(Unit(d).0 as real * e, Unit(d).1 as real * e)
  {
    match (o, d)
    case (Horizontal, Izquierda) => Punto(-(longitud as real) / 2.0, 0.0)
    case (Horizontal, Derecha) => Punto(longitud as real / 2.0, 0.0)
    case (Horizontal, Arriba) => Punto(0.0, -(anchura as real) / 2.0)
    case (Horizontal, Abajo) => Punto(0.0, anchura as real / 2.0)
    case (Vertical, Izquierda) => Punto(-(anchura as real) / 2.0, 0.0)
    case (Vertical, Derecha) => Punto(anchura as real / 2.0, 0.0)
    case (Vertical, Arriba) => Punto(0.0, -(longitud as real) / 2.0)
    case (Vertical, Abajo) => Punto(0.0, longitud as real / 2.0)
  }

  /** `calcular_coordenada_relativa`: the new tile's centre. */
  function CoordenadaRelativa(d: Side, orientacion: Orientation, f: FichaBorde,
                              anchura: int, longitud: int): (p: Punto)
  {
    var c := BboxCenter(f.bbox);
    var oo := CalcularOffset(EsHorizontalOVertical(f.bbox), d, longitud, anchura);
    var on := CalcularOffset(orientacion, d, longitud, anchura);
    Punto(c.x + oo.x + on.x, c.y + oo.y + on.y)
  }

  /** The new centre moves only along the direction's axis, with its sign, by the
      origin's half-extent plus the new tile's half-extent: the two tiles meet
      edge to edge. */
  lemma {:induction false} CoordenadaRelativaEdgeToEdge(d: Side, orientacion: Orientation, f: FichaBorde,
                                                         anchura: int, longitud: int)
    ensures var c, p := BboxCenter(f.bbox), CoordenadaRelativa(d, orientacion, f, anchura, longitud);
      var gap := (Extent(EsHorizontalOVertical(f.bbox), AxisOf(d), longitud, anchura)
                  + Extent(orientacion, AxisOf(d), longitud, anchura)) as real / 2.0;
      p.x - c.x == Unit(d).0 as real * gap && p.y - c.y == Unit(d).1 as real * gap
  {
    var eo := Extent(EsHorizontalOVertical(f.bbox), AxisOf(d), longitud, anchura) as real / 2.0;
    var en := Extent(orientacion, AxisOf(d), longitud, anchura) as real / 2.0;
    var gap := (Extent(EsHorizontalOVertical(f.bbox), AxisOf(d), longitud, anchura)
                + Extent(orientacion, AxisOf(d), longitud, anchura)) as real / 2.0;
    assert gap == eo + en;
    var ux := Unit(d).0 as real;
    var uy := Unit(d).1 as real;
    assert ux * eo + ux * en == ux * gap;
    assert uy * eo + uy * en == uy * gap;
  }

  /** `calcular_coordenada_juego`: for each direction tried, in order, the new
      tile's centre (a dict keyed by direction). */
  function CalcularCoordenadaJuego(f: FichaBorde, anchura: int, longitud: int): (r: seq<(Side, Punto)>)
    ensures |r| == |Direcciones(f)|
    ensures forall k :: 0 <= k < |r| ==>
      && r[k].0 == Direcciones(f)[k]
      && r[k].0 != f.vecino
      && r[k].1 == CoordenadaRelativa(r[k].0, NuevaOrientacion(f, r[k].0), f, anchura, longitud)
  {
    var ds := Direcciones(f);
    seq(|ds|, k requires 0 <= k < |ds| =>
      (ds[k], CoordenadaRelativa(ds[k], NuevaOrientacion(f, ds[k]), f, anchura, longitud)))
  }

  // ---------------------------------------------------------------------------
  // Rotation

  /** The base turn per direction: izquierda -90, derecha 90, arriba 180, abajo 0. */
  function RotacionBase(d: Side): (r: int)
    ensures r % 90 == 0 && -90 <= r <= 180
  {
    match d
    case Izquierda => -90
    case Derecha => 90
    case Arriba => 180
    case Abajo => 0
  }

  /** `calcular_rotacion`: the base turn when the chosen value is the hand tile's
      first value, else the base turned half round, modulo 360; None unless the
      hand score is a pair. */
  function CalcularRotacion(puntuacionJugador: Score, d: Side, elegida: int): (r: Option<int>)
    ensures puntuacionJugador.Single? <==> r.None?
    ensures r.Some? ==> r.value % 90 == 0 && -90 <= r.value < 360
    ensures r.Some? && elegida != puntuacionJugador.top ==> r.value in {0, 90, 180, 270}
    ensures puntuacionJugador.Pair? && elegida == puntuacionJugador.top ==> r == Some(RotacionBase(d))
    ensures puntuacionJugador.Pair? && elegida == puntuacionJugador.top ==>
      r.value == (match d case Izquierda => -90 case Derecha => 90 case Arriba => 180 case Abajo => 0)
    ensures puntuacionJugador.Pair? && elegida != puntuacionJugador.top ==>
      r.value == (match d case Izquierda => 90 case Derecha => 270 case Arriba => 0 case Abajo => 180)
  {
    if puntuacionJugador.Single? then None
    else if elegida == puntuacionJugador.top then Some(RotacionBase(d))
    else Some((RotacionBase(d) + 180) % 360)
  }

  /** Choosing the second value turns the tile exactly half round from choosing
      the first. */
  lemma RotacionHalfTurn(top: int, bottom: int, d: Side)
    requires top != bottom
    ensures var first, second := CalcularRotacion(Pair(top, bottom), d, top), CalcularRotacion(Pair(top, bottom), d, bottom);
      first.Some? && second.Some? && second.value == (first.value + 180) % 360
      && (first.value - second.value) % 180 == 0 && first.value != second.value
  {
  }

  /** The rotation table in full: the base turns for the first value, and the
      half-turned ones for the second. */
  lemma RotacionTable(top: int, bottom: int)
    requires top != bottom
    ensures CalcularRotacion(Pair(top, bottom), Izquierda, top) == Some(-90)
    ensures CalcularRotacion(Pair(top, bottom), Derecha, top) == Some(90)
    ensures CalcularRotacion(Pair(top, bottom), Arriba, top) == Some(180)
    ensures CalcularRotacion(Pair(top, bottom), Abajo, top) == Some(0)
    ensures CalcularRotacion(Pair(top, bottom), Izquierda, bottom) == Some(90)
    ensures CalcularRotacion(Pair(top, bottom), Derecha, bottom) == Some(270)
    ensures CalcularRotacion(Pair(top, bottom), Arriba, bottom) == Some(0)
    ensures CalcularRotacion(Pair(top, bottom), Abajo, bottom) == Some(180)
  {
  }
}
