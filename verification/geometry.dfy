/** Shared vocabulary of the board-perception and placement code: the corner box a
    tile occupies in the image, the four neighbour sides (spelled as the program
    spells them), a tile's orientation and the score read from a tile. */
module Geometry {
  import opened PyOps

  /** A box by its corners, as `FichaDomino.coordenadas` returns it:
      `x1`/`y1` top-left, `x2`/`y2` bottom-right, image pixels. */
  datatype Box = Box(x1: int, y1: int, x2: int, y2: int)
  {
    predicate WellFormed() { x1 <= x2 && y1 <= y2 }

    /** `inner` lies inside this box (edges may touch). */
    predicate Contains(inner: Box)
    {
      x1 <= inner.x1 && inner.x2 <= x2 && y1 <= inner.y1 && inner.y2 <= y2
    }
  }

  /** The four neighbour positions. */
  datatype Side = Izquierda | Derecha | Arriba | Abajo

  datatype Orientation = Horizontal | Vertical

  /** What scoring a tile yields: one half's value, or both halves (top, bottom)
      when the code reads a tile crosswise. A value of -1 means unreadable. */
  datatype Score = Single(v: int) | Pair(top: int, bottom: int)
  {
    /** The value a score offers to play against: the single value, or the
        first element of a pair. */
    function Primero(): int
    {
      if Single? then v else top
    }
  }

  /** The string the program uses for a side. */
  function SideName(s: Side): (name: string)
  {
    match s
    case Izquierda => "izquierda"
    case Derecha => "derecha"
    case Arriba => "arriba"
    case Abajo => "abajo"
  }

  /** The side a string names, if it is one of the four names. */
  function ParseSide(name: string): (r: Option<Side>)
    ensures r.Some? ==> SideName(r.value) == name
  {
    if name == "izquierda" then Some(Izquierda)
    else if name == "derecha" then Some(Derecha)
    else if name == "arriba" then Some(Arriba)
    else if name == "abajo" then Some(Abajo)
    else None
  }

  /** Parsing undoes naming, so a side survives a trip through its string. */
  lemma ParseSideName(s: Side)
    ensures ParseSide(SideName(s)) == Some(s)
  {
  }

  /** "ninguno" (the placeholder for a tile without a neighbour) and the empty
      string are not side names. */
  lemma PlaceholdersAreNotSides()
    ensures ParseSide("ninguno").None? && ParseSide("").None?
  {
  }

  function Opposite(s: Side): (o: Side)
    ensures o != s
  {
    match s
    case Izquierda => Derecha
    case Derecha => Izquierda
    case Arriba => Abajo
    case Abajo => Arriba
  }

  lemma OppositeInvolutive(s: Side)
    ensures Opposite(Opposite(s)) == s
  {
  }

  /** The axis a side lies on: left/right are horizontal, up/down vertical. */
  function AxisOf(s: Side): Orientation
  {
    if s == Izquierda || s == Derecha then Horizontal else Vertical
  }

  /** Python `(a + b) // 2`; Dafny's `/` by a positive divisor also rounds down. */
  function Midpoint(a: int, b: int): (m: int)
    ensures a <= b ==> a <= m <= b
    ensures 2 * m <= a + b < 2 * m + 2
  {
    (a + b) / 2
  }

  /** `obtener_mitad`: the half of `b` toward `lado`, split at the floor midpoint;
      any other string leaves the box as it is. */
  function ObtenerMitad(b: Box, lado: string): (r: Box)
    ensures ParseSide(lado).None? ==> r == b
    ensures ParseSide(lado).Some? ==>
      if AxisOf(ParseSide(lado).value) == Horizontal
      then r.y1 == b.y1 && r.y2 == b.y2
      else r.x1 == b.x1 && r.x2 == b.x2
    ensures b.WellFormed() ==> r.WellFormed() && b.Contains(r)
  {
    if lado == "izquierda" then b.(x2 := Midpoint(b.x1, b.x2))
    else if lado == "derecha" then b.(x1 := Midpoint(b.x1, b.x2))
    else if lado == "arriba" then b.(y2 := Midpoint(b.y1, b.y2))
    else if lado == "abajo" then b.(y1 := Midpoint(b.y1, b.y2))
    else b
  }

  /** Opposite halves meet on the midline and together span the whole box. */
  lemma HalvesShareMidlineAndCover(b: Box)
    ensures var l, r := ObtenerMitad(b, "izquierda"), ObtenerMitad(b, "derecha");
            l.x1 == b.x1 && l.x2 == r.x1 && r.x2 == b.x2
    ensures var t, d := ObtenerMitad(b, "arriba"), ObtenerMitad(b, "abajo");
            t.y1 == b.y1 && t.y2 == d.y1 && d.y2 == b.y2
    ensures ObtenerMitad(b, "izquierda").x2 - b.x1 <= b.x2 - ObtenerMitad(b, "derecha").x1
  {
  }

  /** `es_horizontal_o_vertical`: horizontal exactly when the box is strictly wider
      than tall; a square box counts as vertical. */
  function EsHorizontalOVertical(b: Box): (o: Orientation)
  {
    if Abs(b.x2 - b.x1) > Abs(b.y2 - b.y1) then Horizontal else Vertical
  }

  /** The box mirrored across the diagonal. */
  function Transpose(b: Box): Box
  {
    Box(b.y1, b.x1, b.y2, b.x2)
  }

  /** Turning a box a quarter turn makes a horizontal tile vertical; the converse
      fails only for square boxes, which are vertical both ways. */
  lemma OrientationUnderTranspose(b: Box)
    ensures EsHorizontalOVertical(b) == Horizontal ==> EsHorizontalOVertical(Transpose(b)) == Vertical
    ensures EsHorizontalOVertical(b) == Vertical && EsHorizontalOVertical(Transpose(b)) == Vertical ==>
      b.x2 - b.x1 == b.y2 - b.y1 || b.x2 - b.x1 == b.y1 - b.y2
  {
  }
}
