/** Scoring the tiles of a board photo and of the player's hand
    (`obtener_puntuacion_ficha` and `obtener_estado_completo`). A board tile at an
    open end is read on the half away from its neighbour; a tile read crosswise
    or without a known side yields both halves, top then bottom. */
module Scoring {
  import opened PyOps
  import opened Geometry
  import opened TileDetector
  import opened PipScorer

  /** The half `obtener_puntuacion_ficha` first decides to read, before the
      orientation check: the side opposite the neighbour when `valorContrario`
      (empty when the neighbour string is not a side), else the string itself. */
  function LadoInicial(posicionVecino: string, valorContrario: bool): (t: string)
    ensures valorContrario && ParseSide(posicionVecino).None? ==> t == ""
    ensures valorContrario && ParseSide(posicionVecino).Some? ==>
      ParseSide(t) == Some(Opposite(ParseSide(posicionVecino).value))
    ensures !valorContrario ==> t == posicionVecino
  {
    if valorContrario then
      match ParseSide(posicionVecino)
      case Some(s) => SideName(Opposite(s))
      case None => ""
    else posicionVecino
  }

  /** The half actually read: a neighbour across the tile's long axis (left or
      right of a vertical tile, above or below a horizontal one) clears it. */
  function LadoALeer(b: Box, posicionVecino: string, valorContrario: bool): string
  {
    match ParseSide(posicionVecino)
    case Some(s) =>
      if AxisOf(s) != EsHorizontalOVertical(b) then "" else LadoInicial(posicionVecino, valorContrario)
    case None => LadoInicial(posicionVecino, valorContrario)
  }

  /** Both halves of a tile, top then bottom. */
  function AmbasMitades(b: Box, imagen: Imagen, w: AreaWindow): (s: Score)
    ensures s.Pair? && -1 <= s.top <= 6 && -1 <= s.bottom <= 6
  {
    Pair(ValorFicha(imagen(ObtenerMitad(b, "arriba")), w), ValorFicha(imagen(ObtenerMitad(b, "abajo")), w))
  }

  /** `obtener_puntuacion_ficha` with the image as an input. */
  function ObtenerPuntuacionFicha(b: Box, posicionVecino: string, imagen: Imagen,
                                  valorContrario: bool, simulacion: bool): (s: Score)
    ensures s.Pair? <==>
      || (ParseSide(posicionVecino).None? && (valorContrario || posicionVecino == ""))
      || (ParseSide(posicionVecino).Some? && AxisOf(ParseSide(posicionVecino).value) != EsHorizontalOVertical(b))
    ensures s.Pair? ==> s == AmbasMitades(b, imagen, Ventana(simulacion))
    ensures s.Single? && valorContrario ==>
      s.v == ValorFicha(imagen(ObtenerMitad(b, SideName(Opposite(ParseSide(posicionVecino).value)))), Ventana(simulacion))
    ensures s.Single? && !valorContrario ==>
      s.v == ValorFicha(imagen(ObtenerMitad(b, posicionVecino)), Ventana(simulacion))
  {
    var lado := LadoALeer(b, posicionVecino, valorContrario);
    if lado == "" then AmbasMitades(b, imagen, Ventana(simulacion))
    else Single(ValorFicha(imagen(ObtenerMitad(b, lado)), Ventana(simulacion)))
  }

  /** At an open end along the tile's axis, the half read lies wholly on the far
      side of the midline from the neighbour. */
  lemma ReadsHalfAwayFromNeighbour(b: Box, s: Side)
    requires AxisOf(s) == EsHorizontalOVertical(b)
    ensures var half := ObtenerMitad(b, SideName(Opposite(s)));
      match s
      case Izquierda => half.x1 == Midpoint(b.x1, b.x2) && half.x2 == b.x2
      case Derecha => half.x1 == b.x1 && half.x2 == Midpoint(b.x1, b.x2)
      case Arriba => half.y1 == Midpoint(b.y1, b.y2) && half.y2 == b.y2
      case Abajo => half.y1 == b.y1 && half.y2 == Midpoint(b.y1, b.y2)
  {
  }

  /** `posibles_fichas`: one value per scored border tile, the first element for pairs. */
  function PosiblesFichas(scores: seq<Score>): (r: seq<int>)
    ensures |r| == |scores|
    ensures forall k :: 0 <= k < |r| ==> r[k] == scores[k].Primero()
  {
    if |scores| == 0 then [] else [scores[0].Primero()] + PosiblesFichas(scores[1..])
  }

  /** Scoring a board in parts gives the parts' values in order. */
  lemma {:induction false} PosiblesFichasAppend(a: seq<Score>, b: seq<Score>)
    ensures PosiblesFichas(a + b) == PosiblesFichas(a) + PosiblesFichas(b)
  {
    if |a| > 0 {
      assert (a + b)[1..] == a[1..] + b;
      PosiblesFichasAppend(a[1..], b);
    }
  }

  /** A data row with its score appended. */
  datatype Puntuada = Puntuada(datos: Datos, puntuacion: Score)

  /** A row scored with `valor_contrario` set, as both loops of
      `obtener_estado_completo` score it. */
  function PuntuarFila(d: Datos, imagen: Imagen, simulacion: bool): (p: Puntuada)
    ensures p.datos == d
  {
    Puntuada(d, ObtenerPuntuacionFicha(d.coordenadas, d.vecino, imagen, true, simulacion))
  }

  function PuntuarTodas(ds: seq<Datos>, imagen: Imagen, simulacion: bool): (ps: seq<Puntuada>)
    ensures |ps| == |ds|
    ensures forall k :: 0 <= k < |ps| ==> ps[k] == PuntuarFila(ds[k], imagen, simulacion)
  {
    seq(|ds|, k requires 0 <= k < |ds| => PuntuarFila(ds[k], imagen, simulacion))
  }

  function Puntuaciones(ps: seq<Puntuada>): (ss: seq<Score>)
    ensures |ss| == |ps| && forall k :: 0 <= k < |ps| ==> ss[k] == ps[k].puntuacion
  {
    seq(|ps|, k requires 0 <= k < |ps| => ps[k].puntuacion)
  }

  /** What `obtener_estado_completo` returns: scored border rows, scored hand rows
      and the values open on the board. */
  datatype EstadoCompleto = EstadoCompleto(borde: seq<Puntuada>, jugador: seq<Puntuada>, posibles: seq<int>)

  /** No row scored a single value. */
  predicate TodasPares(ps: seq<Puntuada>)
  {
    forall k :: 0 <= k < |ps| ==> ps[k].puntuacion.Pair?
  }

  /** The scored hand rows of `obtener_estado_completo`. */
  function ManoPuntuada(mano: seq<Contour>, imagenJugador: Imagen, tamanoFicha: real, simulacion: bool): seq<Puntuada>
  {
    PuntuarTodas(DatosTodas(FichasDetectadas(mano, tamanoFicha, UmbralEstado)), imagenJugador, simulacion)
  }

  /** `obtener_estado_completo`. The hand loop prints `puntuacion[0]` and
      `puntuacion[1]`, which raises TypeError when a hand tile scores a single
      value (a hand tile with one neighbour along its axis); that run gives None. */
  method ObtenerEstadoCompleto(tablero: seq<Contour>, imagenTablero: Imagen,
                               mano: seq<Contour>, imagenJugador: Imagen,
                               tamanoFicha: real, simulacion: bool)
    returns (r: Option<EstadoCompleto>)
    ensures r.None? <==> !TodasPares(ManoPuntuada(mano, imagenJugador, tamanoFicha, simulacion))
    ensures r.Some? ==> r.value.jugador == ManoPuntuada(mano, imagenJugador, tamanoFicha, simulacion)
    ensures r.Some? ==>
      && |r.value.borde| == |DatosBorde(FichasDetectadas(tablero, tamanoFicha, UmbralEstado))|
      && (forall k :: 0 <= k < |r.value.borde| ==>
            && r.value.borde[k].datos == DatosBorde(FichasDetectadas(tablero, tamanoFicha, UmbralEstado))[k]
            && r.value.borde[k].puntuacion ==
                 ObtenerPuntuacionFicha(r.value.borde[k].datos.coordenadas, r.value.borde[k].datos.vecino,
                                        imagenTablero, true, simulacion))
    ensures r.Some? ==>
      && |r.value.posibles| == |r.value.borde|
      && (forall k :: 0 <= k < |r.value.borde| ==>
            && r.value.borde[k].datos.numVecinos == 1
            && ParseSide(r.value.borde[k].datos.vecino).Some?
            && r.value.posibles[k] == r.value.borde[k].puntuacion.Primero())
  {
    var borde := ObtenerEstado(tablero, tamanoFicha);
    var puntuadas := PuntuarTodas(borde, imagenTablero, simulacion);
    assert forall k :: 0 <= k < |puntuadas| ==> puntuadas[k].datos == borde[k];
    var posibles := PosiblesFichas(Puntuaciones(puntuadas));
    var jugador := ManoPuntuada(mano, imagenJugador, tamanoFicha, simulacion);
    var legibles := RecorrerMano(jugador);
    if legibles {
      r := Some(EstadoCompleto(puntuadas, jugador, posibles));
    } else {
      r := None;
    }
  }

  /** The hand loop of `obtener_estado_completo`: it gets through every row only
      when each hand score is a pair. */
  method RecorrerMano(jugador: seq<Puntuada>) returns (completo: bool)
    ensures completo <==> TodasPares(jugador)
  {
    var k := 0;
    while k < |jugador|
      invariant 0 <= k <= |jugador|
      invariant forall l :: 0 <= l < k ==> jugador[l].puntuacion.Pair?
    {
      if jugador[k].puntuacion.Single? {
        return false;
      }
      k := k + 1;
    }
    return true;
  }
}
