/** Reading one half of a tile (`obtener_valor_ficha`): the pip contours found in
    the crop are kept when they are round enough and of pip size, and the count
    is the half's value when it is a possible domino value. Cropping, blurring,
    thresholding and contour measurement are an input: the crop's contours,
    or None when the image cannot be read. */
module PipScorer {
  import opened PyOps
  import opened Geometry

  /** A contour in the thresholded crop, by area and closed perimeter. */
  datatype PipContour = PipContour(area: real, perimetro: real)

  /** The contours `cv2.findContours` finds in the crop of a box, or None when
      reading or cropping the image fails (every such failure yields -1). */
  type Imagen = Box -> Option<seq<PipContour>>

  /** Strict bounds on a pip contour's area. */
  datatype AreaWindow = AreaWindow(lo: real, hi: real)

  const VentanaSimulacion: AreaWindow := AreaWindow(5.0, 120.0)
  const VentanaReal: AreaWindow := AreaWindow(200.0, 650.0)

  /** The area window of the simulator's renders or of camera photos. */
  function Ventana(simulacion: bool): (w: AreaWindow)
    ensures w.lo < w.hi
  {
    if simulacion then VentanaSimulacion else VentanaReal
  }

  /** `4πA/P²`, defined for a positive perimeter. */
  function Circularidad(c: PipContour): real
    requires c.perimetro > 0.0
  {
    PositiveSquare(c.perimetro);
    4.0 * Pi * c.area / (c.perimetro * c.perimetro)
  }

  lemma PositiveSquare(p: real)
    requires p > 0.0
    ensures p * p > 0.0
  {
  }

  /** A contour counts as a pip when its perimeter is positive, its circularity
      lies in (0.5, 1.0] and its area lies strictly inside the window. */
  predicate PuntoValido(c: PipContour, w: AreaWindow)
  {
    c.perimetro > 0.0 && 0.5 < Circularidad(c) <= 1.0 && w.lo < c.area < w.hi
  }

  /** The pip contours among `cs`, in order. */
  function PuntosValidos(cs: seq<PipContour>, w: AreaWindow): (ps: seq<PipContour>)
    ensures |ps| <= |cs|
    ensures forall k :: 0 <= k < |ps| ==> PuntoValido(ps[k], w)
  {
    Filter(cs, c => PuntoValido(c, w))
  }

  /** A count is reported when it is a domino value 0..6; anything else is -1. */
  function ValorDeCuenta(n: nat): (v: int)
    ensures -1 <= v <= 6
    ensures v == -1 <==> n > 6
    ensures v != -1 ==> v == n
  {
    if 0 <= n <= 6 then n else -1
  }

  /** The value `obtener_valor_ficha` returns for one crop. */
  function ValorFicha(img: Option<seq<PipContour>>, w: AreaWindow): (v: int)
    ensures -1 <= v <= 6
    ensures img.None? ==> v == -1
    ensures img.Some? && |PuntosValidos(img.value, w)| <= 6 ==> v == |PuntosValidos(img.value, w)|
    ensures img.Some? && |PuntosValidos(img.value, w)| > 6 ==> v == -1
  {
    if img.None? then -1 else ValorDeCuenta(|PuntosValidos(img.value, w)|)
  }

  /** A contour that is not a pip never changes the value read. */
  lemma {:induction false} RejectedContourIgnored(cs: seq<PipContour>, c: PipContour, w: AreaWindow)
    requires !PuntoValido(c, w)
    ensures ValorFicha(Some(cs + [c]), w) == ValorFicha(Some(cs), w)
  {
    FilterAppend(cs, [c], x => PuntoValido(x, w));
    assert Filter([c], x => PuntoValido(x, w)) == [];
  }

  /** One more pip raises the value by one, until a seventh pip makes the crop unreadable. */
  lemma {:induction false} AcceptedContourCounts(cs: seq<PipContour>, c: PipContour, w: AreaWindow)
    requires PuntoValido(c, w)
    ensures var before, after := ValorFicha(Some(cs), w), ValorFicha(Some(cs + [c]), w);
      (0 <= before < 6 ==> after == before + 1) && (before == 6 || before == -1 ==> after == -1)
  {
    FilterAppend(cs, [c], x => PuntoValido(x, w));
    assert Filter([c], x => PuntoValido(x, w)) == [c];
  }

  /** The loop of `obtener_valor_ficha`: count the pip contours, then report
      the count if it is a domino value. */
  method ObtenerValorFicha(img: Option<seq<PipContour>>, simulacion: bool) returns (v: int)
    ensures -1 <= v <= 6
    ensures v == ValorFicha(img, Ventana(simulacion))
  {
    if img.None? {
      return -1;
    }
    var cs := img.value;
    var w := Ventana(simulacion);
    var puntos := 0;
    var k := 0;
    while k < |cs|
      invariant 0 <= k <= |cs|
      invariant puntos == |PuntosValidos(cs[..k], w)|
    {
      FilterAppend(cs[..k], [cs[k]], c => PuntoValido(c, w));
      assert cs[..k + 1] == cs[..k] + [cs[k]];
      if cs[k].perimetro > 0.0 {
        var circularidad := Circularidad(cs[k]);
        if 0.5 < circularidad <= 1.0 && w.lo < cs[k].area < w.hi {
          puntos := puntos + 1;
        }
      }
      k := k + 1;
    }
    assert cs[..k] == cs;
    if 0 <= puntos <= 6 {
      v := puntos;
    } else {
      v := -1;
    }
  }
}
