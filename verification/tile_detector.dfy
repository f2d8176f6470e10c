/** Tile detection on the board mask (`DetectorDominoes` and `FichaDomino`):
    contours of roughly one tile's area become tiles numbered in scan order, and
    each tile learns how many other tiles touch it and, when exactly one does,
    on which side that neighbour lies. Contour extraction itself is an input. */
module TileDetector {
  import opened PyOps
  import opened Geometry

  /** `cv2.boundingRect` of a contour: top-left corner, width and height. */
  datatype Rect = Rect(x: int, y: int, w: int, h: int)

  /** An external contour of the mask: its area and its bounding rectangle. */
  datatype Contour = Contour(area: real, rect: Rect)

  /** The two answers `_son_adyacentes` can give besides None. */
  datatype Adjacency = HorizontalAdj | VerticalAdj

  /** A detected tile. `posicionVecino` and `vecinoIdx` stay None unless the tile
      has exactly one neighbour. */
  datatype Ficha = Ficha(indice: nat, rect: Rect, numVecinos: nat,
                         posicionVecino: Option<Side>, vecinoIdx: Option<nat>)

  /** The thresholds the program uses: `obtener_estado` and `obtener_fichas_jugador`
      build the detector with slack 35 and expect tiles of area 2900 by default. */
  const UmbralEstado: int := 35
  const TamanoFichaPorDefecto: real := 2900.0

  /** `FichaDomino.coordenadas`: corners from origin and size. */
  function Coordenadas(f: Ficha): (b: Box)
    ensures b.x2 - b.x1 == f.rect.w && b.y2 - b.y1 == f.rect.h
    ensures f.rect.w >= 0 && f.rect.h >= 0 ==> b.WellFormed()
  {
    Box(f.rect.x, f.rect.y, f.rect.x + f.rect.w, f.rect.y + f.rect.h)
  }

  /** The rectangle a box describes: the inverse of `Coordenadas`. */
  function RectOf(b: Box): Rect
  {
    Rect(b.x1, b.y1, b.x2 - b.x1, b.y2 - b.y1)
  }

  lemma CoordenadasRoundTrip(f: Ficha)
    ensures RectOf(Coordenadas(f)) == f.rect
  {
  }

  /** `FichaDomino.datos`: corners, neighbour side name or "ninguno", neighbour count. */
  datatype Datos = Datos(coordenadas: Box, vecino: string, numVecinos: nat)

  function DatosDe(f: Ficha): (d: Datos)
    ensures d.coordenadas == Coordenadas(f) && d.numVecinos == f.numVecinos
    ensures d.vecino == "ninguno" <==> f.posicionVecino.None?
    ensures ParseSide(d.vecino) == f.posicionVecino
  {
    var name := if f.posicionVecino.Some? then SideName(f.posicionVecino.value) else "ninguno";
    Datos(Coordenadas(f), name, f.numVecinos)
  }

  /** The size filter of `detectar_fichas`; both bounds are strict. */
  predicate TamanoAceptado(c: Contour, tamanoAprox: real)
  {
    tamanoAprox * 0.5 < c.area < tamanoAprox * 1.5
  }

  function FiltrarContornos(cs: seq<Contour>, tamanoAprox: real): (r: seq<Contour>)
    ensures forall i :: 0 <= i < |r| ==> TamanoAceptado(r[i], tamanoAprox)
    ensures IsSubsequence(r, cs)
  {
    FilterIsSubsequence(cs, c => TamanoAceptado(c, tamanoAprox));
    Filter(cs, c => TamanoAceptado(c, tamanoAprox))
  }

  /** A contour survives the size filter exactly when its area lies strictly
      between half and one and a half times the expected tile area. */
  lemma FiltrarContornosKeepsExactly(cs: seq<Contour>, tamanoAprox: real, c: Contour)
    requires c in cs
    ensures c in FiltrarContornos(cs, tamanoAprox) <==> tamanoAprox * 0.5 < c.area < tamanoAprox * 1.5
  {
    var i :| 0 <= i < |cs| && cs[i] == c;
  }

  /** Each surviving contour becomes a tile numbered by its place among the survivors. */
  function CrearFichas(cs: seq<Contour>): (fs: seq<Ficha>)
    ensures |fs| == |cs|
    ensures forall i :: 0 <= i < |fs| ==>
      fs[i] == Ficha(i, cs[i].rect, 0, None, None)
  {
    seq(|cs|, i requires 0 <= i < |cs| => Ficha(i, cs[i].rect, 0, None, None))
  }

  /** `_son_adyacentes` with slack `u`. Horizontal is tested first, so at most one
      answer comes back. */
  function SonAdyacentes(r1: Rect, r2: Rect, u: int): (d: Option<Adjacency>)
  {
    var left1, right1, top1, bottom1 := r1.x, r1.x + r1.w, r1.y, r1.y + r1.h;
    var left2, right2, top2, bottom2 := r2.x, r2.x + r2.w, r2.y, r2.y + r2.h;
    var superposicionX := left1 <= right2 + u && right1 >= left2 - u;
    var superposicionY := top1 <= bottom2 + u && bottom1 >= top2 - u;
    if superposicionY && (Abs(left1 - right2) <= u || Abs(left2 - right1) <= u) then Some(HorizontalAdj)
    else if superposicionX && (Abs(top1 - bottom2) <= u || Abs(top2 - bottom1) <= u) then Some(VerticalAdj)
    else None
  }

  /** Adjacency does not depend on which tile is asked about first. */
  lemma SonAdyacentesSymmetric(r1: Rect, r2: Rect, u: int)
    ensures SonAdyacentes(r1, r2, u) == SonAdyacentes(r2, r1, u)
  {
  }

  /** `_determinar_posicion_relativa`: where `r2` lies seen from `r1`. */
  function PosicionRelativa(r1: Rect, r2: Rect, d: Adjacency): (s: Side)
    ensures d == HorizontalAdj ==> AxisOf(s) == Horizontal && (s == Izquierda <==> r2.x < r1.x)
    ensures d == VerticalAdj ==> AxisOf(s) == Vertical && (s == Arriba <==> r2.y < r1.y)
  {
    match d
    case HorizontalAdj => if r2.x < r1.x then Izquierda else Derecha
    case VerticalAdj => if r2.y < r1.y then Arriba else Abajo
  }

  /** Two tiles at different places along the adjacency axis see each other on
      opposite sides. */
  lemma PosicionRelativaOpposite(r1: Rect, r2: Rect, d: Adjacency)
    requires d == HorizontalAdj ==> r1.x != r2.x
    requires d == VerticalAdj ==> r1.y != r2.y
    ensures PosicionRelativa(r2, r1, d) == Opposite(PosicionRelativa(r1, r2, d))
  {
  }

  /** The `vecinos` list the inner loop of `_determinar_vecinos` has built for tile
      `i` after looking at the first `n` tiles. */
  function VecinosHasta(rs: seq<Rect>, i: nat, u: int, n: nat): (vs: seq<(nat, Adjacency)>)
    requires i < |rs| && n <= |rs|
    ensures forall k :: 0 <= k < |vs| ==>
      vs[k].0 < n && vs[k].0 != i && SonAdyacentes(rs[i], rs[vs[k].0], u) == Some(vs[k].1)
    ensures forall k, l :: 0 <= k < l < |vs| ==> vs[k].0 < vs[l].0
  {
    if n == 0 then []
    else
      var j := n - 1;
      var d := SonAdyacentes(rs[i], rs[j], u);
      VecinosHasta(rs, i, u, j) + (if j != i && d.Some? then [(j, d.value)] else [])
  }

  /** The other tiles among the first `n` that touch tile `i`, as a set. */
  ghost function AdyacentesA(rs: seq<Rect>, i: nat, u: int, n: nat): set<nat>
    requires i < |rs| && n <= |rs|
  {
    set j: nat | j < n && j != i && SonAdyacentes(rs[i], rs[j], u).Some?
  }

  /** The neighbour list holds one entry per other adjacent tile. */
  lemma {:induction false} VecinosCountsAdjacentTiles(rs: seq<Rect>, i: nat, u: int, n: nat)
    requires i < |rs| && n <= |rs|
    ensures |VecinosHasta(rs, i, u, n)| == |AdyacentesA(rs, i, u, n)|
  {
    if n == 0 {
      assert AdyacentesA(rs, i, u, n) == {};
    } else {
      var j := n - 1;
      VecinosCountsAdjacentTiles(rs, i, u, j);
      var prev := AdyacentesA(rs, i, u, j);
      assert j !in prev;
      if j != i && SonAdyacentes(rs[i], rs[j], u).Some? {
        assert AdyacentesA(rs, i, u, n) == prev + {j};
      } else {
        assert AdyacentesA(rs, i, u, n) == prev;
      }
    }
  }

  /** Every other adjacent tile among the first `n` appears in the list. */
  lemma {:induction false} VecinosComplete(rs: seq<Rect>, i: nat, u: int, n: nat, j: nat)
    requires i < |rs| && n <= |rs|
    requires j < n && j != i && SonAdyacentes(rs[i], rs[j], u).Some?
    ensures exists k :: 0 <= k < |VecinosHasta(rs, i, u, n)| && VecinosHasta(rs, i, u, n)[k].0 == j
  {
    var prev := VecinosHasta(rs, i, u, n - 1);
    var d := SonAdyacentes(rs[i], rs[n - 1], u);
    var tail: seq<(nat, Adjacency)> := if n - 1 != i && d.Some? then [(n - 1, d.value)] else [];
    assert VecinosHasta(rs, i, u, n) == prev + tail;
    if j == n - 1 {
      assert tail == [(j, d.value)];
      assert (prev + tail)[|prev|].0 == j;
    } else {
      VecinosComplete(rs, i, u, n - 1, j);
      var k :| 0 <= k < |prev| && prev[k].0 == j;
      assert (prev + tail)[k] == prev[k];
    }
  }

  function Rects(fs: seq<Ficha>): (rs: seq<Rect>)
    ensures |rs| == |fs| && forall i :: 0 <= i < |fs| ==> rs[i] == fs[i].rect
  {
    seq(|fs|, i requires 0 <= i < |fs| => fs[i].rect)
  }

  /** Tile `i` after `_determinar_vecinos` has updated it. */
  function ConVecinos(fs: seq<Ficha>, i: nat, u: int): Ficha
    requires i < |fs|
  {
    var rs := Rects(fs);
    var vs := VecinosHasta(rs, i, u, |rs|);
    if |vs| == 1 then
      fs[i].(numVecinos := 1,
             posicionVecino := Some(PosicionRelativa(rs[i], rs[vs[0].0], vs[0].1)),
             vecinoIdx := Some(vs[0].0))
    else fs[i].(numVecinos := |vs|)
  }

  /** The neighbour fields a tile ends up with: the count is the number of other
      tiles adjacent to it, the side and index are set exactly when that count is
      one, and then they name an adjacent tile other than the tile itself. */
  lemma {:induction false} ConVecinosFields(fs: seq<Ficha>, i: nat, u: int)
    requires i < |fs|
    requires fs[i].posicionVecino.None? && fs[i].vecinoIdx.None?
    ensures var f := ConVecinos(fs, i, u);
      && f.indice == fs[i].indice && f.rect == fs[i].rect
      && f.numVecinos == |AdyacentesA(Rects(fs), i, u, |fs|)|
      && (f.posicionVecino.Some? <==> f.numVecinos == 1)
      && (f.vecinoIdx.Some? <==> f.numVecinos == 1)
      && (f.vecinoIdx.Some? ==>
            && f.vecinoIdx.value < |fs| && f.vecinoIdx.value != i
            && var d := SonAdyacentes(fs[i].rect, fs[f.vecinoIdx.value].rect, u);
               d.Some? && f.posicionVecino == Some(PosicionRelativa(fs[i].rect, fs[f.vecinoIdx.value].rect, d.value)))
  {
    VecinosCountsAdjacentTiles(Rects(fs), i, u, |fs|);
  }

  /** `_determinar_vecinos`: for each tile, scan all other tiles and record the
      adjacent ones; a tile with a single neighbour learns its side and index. */
  method DeterminarVecinos(fs: seq<Ficha>, u: int) returns (out: seq<Ficha>)
    ensures |out| == |fs|
    ensures forall i :: 0 <= i < |fs| ==> out[i] == ConVecinos(fs, i, u)
  {
    var rs := Rects(fs);
    out := [];
    var i := 0;
    while i < |fs|
      invariant 0 <= i <= |fs|
      invariant |out| == i
      invariant forall k :: 0 <= k < i ==> out[k] == ConVecinos(fs, k, u)
    {
      var vecinos := RecorrerVecinos(rs, i, u);
      var ficha := fs[i].(numVecinos := |vecinos|);
      if |vecinos| == 1 {
        var (idx, d) := vecinos[0];
        ficha := ficha.(posicionVecino := Some(PosicionRelativa(rs[i], rs[idx], d)), vecinoIdx := Some(idx));
      }
      assert ficha == ConVecinos(fs, i, u);
      out := out + [ficha];
      i := i + 1;
    }
  }

  /** The inner loop of `_determinar_vecinos`: every other tile that touches
      tile `i`, in scan order. */
  method RecorrerVecinos(rs: seq<Rect>, i: nat, u: int) returns (vecinos: seq<(nat, Adjacency)>)
    requires i < |rs|
    ensures vecinos == VecinosHasta(rs, i, u, |rs|)
  {
    vecinos := [];
    var j := 0;
    while j < |rs|
      invariant 0 <= j <= |rs|
      invariant vecinos == VecinosHasta(rs, i, u, j)
    {
      if i != j {
        var d := SonAdyacentes(rs[i], rs[j], u);
        if d.Some? {
          vecinos := vecinos + [(j, d.value)];
        }
      }
      j := j + 1;
    }
  }

  /** The tiles `detectar_fichas` returns: the size filter, numbering in scan
      order, then the neighbour pass. */
  function FichasDetectadas(contornos: seq<Contour>, tamanoAprox: real, u: int): (fs: seq<Ficha>)
    ensures |fs| == |FiltrarContornos(contornos, tamanoAprox)|
  {
    var creadas := CrearFichas(FiltrarContornos(contornos, tamanoAprox));
    seq(|creadas|, i requires 0 <= i < |creadas| => ConVecinos(creadas, i, u))
  }

  /** `detectar_fichas` without the image I/O. */
  method DetectarFichas(contornos: seq<Contour>, tamanoAprox: real, u: int) returns (fichas: seq<Ficha>)
    ensures fichas == FichasDetectadas(contornos, tamanoAprox, u)
    ensures var kept := FiltrarContornos(contornos, tamanoAprox);
      && |fichas| == |kept|
      && forall i :: 0 <= i < |fichas| ==>
           && fichas[i].indice == i
           && fichas[i].rect == kept[i].rect
           && fichas[i].numVecinos == |AdyacentesA(Rects(fichas), i, u, |fichas|)|
           && (fichas[i].posicionVecino.Some? <==> fichas[i].numVecinos == 1)
  {
    var kept := FiltrarContornos(contornos, tamanoAprox);
    var creadas := CrearFichas(kept);
    fichas := DeterminarVecinos(creadas, u);
    assert Rects(fichas) == Rects(creadas);
    forall i | 0 <= i < |fichas|
      ensures fichas[i].numVecinos == |AdyacentesA(Rects(fichas), i, u, |fichas|)|
      ensures fichas[i].posicionVecino.Some? <==> fichas[i].numVecinos == 1
    {
      ConVecinosFields(creadas, i, u);
    }
  }

  /** The data row of every tile that has a neighbour side, in tile order: what
      `obtener_estado` returns for the board. */
  function DatosBorde(fichas: seq<Ficha>): (ds: seq<Datos>)
    ensures |ds| <= |fichas|
    ensures forall k :: 0 <= k < |ds| ==> ParseSide(ds[k].vecino).Some? && ds[k].vecino != "ninguno"
  {
    if |fichas| == 0 then []
    else
      (if fichas[0].posicionVecino.Some? then [DatosDe(fichas[0])] else []) + DatosBorde(fichas[1..])
  }

  /** The data row of every tile: what `obtener_fichas_jugador` returns. */
  function DatosTodas(fichas: seq<Ficha>): (ds: seq<Datos>)
    ensures |ds| == |fichas|
    ensures forall k :: 0 <= k < |ds| ==> ds[k] == DatosDe(fichas[k])
  {
    seq(|fichas|, k requires 0 <= k < |fichas| => DatosDe(fichas[k]))
  }

  /** `obtener_estado`: the board's border tiles, detected with slack 35. */
  method ObtenerEstado(contornos: seq<Contour>, tamanoFicha: real) returns (ds: seq<Datos>)
    ensures ds == DatosBorde(FichasDetectadas(contornos, tamanoFicha, UmbralEstado))
    ensures forall k :: 0 <= k < |ds| ==> ds[k].numVecinos == 1 && ds[k].vecino != "ninguno"
  {
    var fichas := DetectarFichas(contornos, tamanoFicha, UmbralEstado);
    ds := DatosBorde(fichas);
    DatosBordeHaveOneNeighbour(fichas);
  }

  /** Rows kept for the border are those of tiles with exactly one neighbour, when
      the tiles' fields are consistent as the neighbour pass leaves them. */
  lemma {:induction false} DatosBordeHaveOneNeighbour(fichas: seq<Ficha>)
    requires forall i :: 0 <= i < |fichas| ==> (fichas[i].posicionVecino.Some? <==> fichas[i].numVecinos == 1)
    ensures forall k :: 0 <= k < |DatosBorde(fichas)| ==> DatosBorde(fichas)[k].numVecinos == 1
  {
    if |fichas| > 0 {
      DatosBordeHaveOneNeighbour(fichas[1..]);
    }
  }
}
