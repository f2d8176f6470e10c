/** The older detector at the repository root. Its tile class, size filter,
    adjacency test, neighbour pass and half-box helper are the same code as the
    simulator's detector and reuse `TileDetector` and `Geometry`. What differs:
    pip contours use one area window, scoring has no orientation check, and the
    two entry points fix their own thresholds. */
module LegacyDetector {
  import opened PyOps
  import opened Geometry
  import opened TileDetector
  import opened PipScorer
  import Scoring

  /** `obtener_fichas_jugador` here detects hand tiles with slack 15 and area 3900;
      `obtener_estado` uses slack 35 and area 2900. */
  const UmbralJugador: int := 15
  const TamanoJugador: real := 3900.0

  /** The pip test of this version: positive perimeter, circularity in (0.5, 1.0],
      area strictly between 5 and 120. */
  predicate PuntoValidoAntiguo(c: PipContour)
  {
    c.perimetro > 0.0 && 0.5 < Circularidad(c) <= 1.0 && 5.0 < c.area < 120.0
  }

  /** `obtener_valor_ficha` of this version. */
  function ValorFichaAntiguo(img: Option<seq<PipContour>>): (v: int)
    ensures -1 <= v <= 6
  {
    if img.None? then -1 else ValorDeCuenta(|Filter(img.value, PuntoValidoAntiguo)|)
  }

  /** The old pip rule is the simulator profile of the newer one. */
  lemma PipRuleIsSimulationProfile(img: Option<seq<PipContour>>)
    ensures ValorFichaAntiguo(img) == ValorFicha(img, Ventana(true))
  {
    if img.Some? {
      FilterCongruent(img.value, PuntoValidoAntiguo, c => PuntoValido(c, VentanaSimulacion));
    }
  }

  /** `obtener_puntuacion_ficha` of this version: both halves only when the
      opposite side is asked for and the neighbour string is not a side (or the
      empty string is asked for directly); otherwise one half, whatever the
      tile's orientation. */
  function ObtenerPuntuacionFichaAntigua(b: Box, posicionVecino: string, imagen: Imagen,
                                        valorContrario: bool): (s: Score)
    ensures s.Pair? <==>
      (valorContrario && ParseSide(posicionVecino).None?) || (!valorContrario && posicionVecino == "")
    ensures s.Single? && valorContrario ==>
      s.v == ValorFichaAntiguo(imagen(ObtenerMitad(b, SideName(Opposite(ParseSide(posicionVecino).value)))))
    ensures s.Single? && !valorContrario ==> s.v == ValorFichaAntiguo(imagen(ObtenerMitad(b, posicionVecino)))
  {
    var lado :=
      if valorContrario then
        match ParseSide(posicionVecino)
        case Some(sd) => SideName(Opposite(sd))
        case None => ""
      else posicionVecino;
    if lado == "" then
      Pair(ValorFichaAntiguo(imagen(ObtenerMitad(b, "arriba"))), ValorFichaAntiguo(imagen(ObtenerMitad(b, "abajo"))))
    else Single(ValorFichaAntiguo(imagen(ObtenerMitad(b, lado))))
  }

  /** In simulation both versions agree whenever the neighbour lies along the
      tile's long axis or is not a side; they differ only for a neighbour across
      the axis, which the newer version reads as both halves. */
  lemma {:induction false} ScoringAgreesAlongAxis(b: Box, posicionVecino: string, imagen: Imagen)
    requires ParseSide(posicionVecino).Some? ==> AxisOf(ParseSide(posicionVecino).value) == EsHorizontalOVertical(b)
    ensures ObtenerPuntuacionFichaAntigua(b, posicionVecino, imagen, true)
         == Scoring.ObtenerPuntuacionFicha(b, posicionVecino, imagen, true, true)
  {
    PipRuleIsSimulationProfile(imagen(ObtenerMitad(b, "arriba")));
    PipRuleIsSimulationProfile(imagen(ObtenerMitad(b, "abajo")));
    if ParseSide(posicionVecino).Some? {
      PipRuleIsSimulationProfile(imagen(ObtenerMitad(b, SideName(Opposite(ParseSide(posicionVecino).value)))));
    }
  }

  /** `obtener_estado` of this version: border rows of the board, slack 35, area 2900. */
  method ObtenerEstadoAntiguo(contornos: seq<Contour>) returns (ds: seq<Datos>)
    ensures ds == DatosBorde(FichasDetectadas(contornos, TamanoFichaPorDefecto, UmbralEstado))
    ensures forall k :: 0 <= k < |ds| ==> ds[k].numVecinos == 1 && ds[k].vecino != "ninguno"
  {
    ds := ObtenerEstado(contornos, TamanoFichaPorDefecto);
  }

  /** `obtener_fichas_jugador` of this version: a row for every hand tile. */
  method ObtenerFichasJugadorAntiguo(contornos: seq<Contour>) returns (ds: seq<Datos>)
    ensures ds == DatosTodas(FichasDetectadas(contornos, TamanoJugador, UmbralJugador))
    ensures |ds| == |FiltrarContornos(contornos, TamanoJugador)|
    ensures forall k :: 0 <= k < |ds| ==>
      (ds[k].vecino == "ninguno" <==> ds[k].numVecinos != 1)
  {
    var fichas := DetectarFichas(contornos, TamanoJugador, UmbralJugador);
    ds := DatosTodas(fichas);
  }
}
