/** Value types shared by the AmbiPi grid, its wire encoder and the peripheral. */
module GridTypes {

  /** An unsigned 8-bit value (the source's BYTE). */
  type byte = b: int | 0 <= b < 256

  /** One LED colour, three bytes. */
  datatype RGB = RGB(r: byte, g: byte, b: byte)

  /** One pixel of a captured frame, stored as b, g, r, a. */
  datatype BGRA = BGRA(b: byte, g: byte, r: byte, a: byte)

  /** A pixel rectangle of the captured frame. The source stores it as floats
      that only ever hold integer values; here it is integers, which can be
      negative after the border growth. */
  datatype Rect = Rect(x1: int, y1: int, x2: int, y2: int)

  /** A grid position (column, row), zero-based. */
  datatype Coord = Coord(x: nat, y: nat)

  /** One LED: its grid position, the frame rectangle it samples and its colour. */
  datatype Tile = Tile(x: nat, y: nat, sampleRect: Rect, rgb: RGB)

  const EmptyRect := Rect(0, 0, 0, 0)
  const Black := RGB(0, 0, 0)

  /** A tile as left by zeroing freshly allocated memory. */
  const ZeroTile := Tile(0, 0, EmptyRect, Black)

  function CoordOf(t: Tile): Coord {
    Coord(t.x, t.y)
  }

  /** Neither side of the rectangle is inverted. */
  predicate Upright(r: Rect) {
    r.x1 <= r.x2 && r.y1 <= r.y2
  }
}
