/** Sample rectangles (which part of the captured frame each LED looks at)
    and the integer geometry of the colour averaging (which pixels are read,
    and the sample count the average is scaled by). */
module Sampling {
  import opened GridTypes

  /** Edge tiles grow inwards by this many sample units. */
  const GrowMultiplier := 2

  /** Horizontal stride of the averaging loop, in pixels. */
  const Step := 2

  function Min(a: int, b: int): int {
    if a <= b then a else b
  }

  /** The tile's own cell of the frame, clipped at the right and bottom edges. */
  function BaseRect(x: nat, y: nat, imageWidth: nat, imageHeight: nat,
                    sampleWidth: nat, sampleHeight: nat): Rect
  {
    Rect(x * sampleWidth, y * sampleHeight,
         Min(imageWidth, x * sampleWidth + sampleWidth),
         Min(imageHeight, y * sampleHeight + sampleHeight))
  }

  /** Border growth: a top-row tile extends its bottom, a bottom-row tile its
      top, a left-column tile its right side and a right-column tile its left
      side, each by two sample units. */
  function Grow(r: Rect, x: nat, y: nat, width: nat, height: nat,
                sampleWidth: nat, sampleHeight: nat): Rect
  {
    var vertical :=
      if y == 0 then r.(y2 := r.y2 + sampleHeight * GrowMultiplier)
      else if y == height - 1 then r.(y1 := r.y1 - sampleHeight * GrowMultiplier)
      else r;
    if x == 0 then vertical.(x2 := vertical.x2 + sampleWidth * GrowMultiplier)
    else if x == width - 1 then vertical.(x1 := vertical.x1 - sampleWidth * GrowMultiplier)
    else vertical
  }

  /** The sample rectangle of the tile at (x, y) for a frame of the given size. */
  function SampleRect(width: nat, height: nat, imageWidth: nat, imageHeight: nat,
                      x: nat, y: nat): Rect
    requires width >= 2 && height >= 2
  {
    var sampleWidth := imageWidth / width;
    var sampleHeight := imageHeight / height;
    Grow(BaseRect(x, y, imageWidth, imageHeight, sampleWidth, sampleHeight),
         x, y, width, height, sampleWidth, sampleHeight)
  }

  /** Every tile with its rectangle rebuilt for the frame size; nothing else changes. */
  function WithSampleRects(tiles: seq<Tile>, width: nat, height: nat,
                           imageWidth: nat, imageHeight: nat): (r: seq<Tile>)
    requires width >= 2 && height >= 2
    ensures |r| == |tiles|
  {
    seq(|tiles|, i requires 0 <= i < |tiles| =>
      tiles[i].(sampleRect := SampleRect(width, height, imageWidth, imageHeight, tiles[i].x, tiles[i].y)))
  }

  /** (x+1) cells of size imageSize/size fit in the image when x < size. */
  lemma CellFits(x: nat, size: nat, imageSize: nat)
    requires x < size
    ensures x * (imageSize / size) + imageSize / size <= imageSize
  {
    var s := imageSize / size;
    assert size * s <= imageSize;
    MulGrows(x + 1, size, s);
  }

  /** a * c <= b * c for a <= b and non-negative c. */
  lemma MulGrows(a: nat, b: nat, c: nat)
    requires a <= b
    ensures a * c <= b * c
  {
  }

  /** Exact shape of a tile's rectangle: it covers the tile's own cell, and
      is one sample unit wide, or three for an edge column (likewise in height). */
  lemma SampleRectShape(width: nat, height: nat, imageWidth: nat, imageHeight: nat, x: nat, y: nat)
    requires width >= 2 && height >= 2
    requires x < width && y < height
    ensures var r := SampleRect(width, height, imageWidth, imageHeight, x, y);
      var sw := imageWidth / width;
      var sh := imageHeight / height;
      && r.x1 <= x * sw && x * sw + sw <= r.x2
      && r.y1 <= y * sh && y * sh + sh <= r.y2
      && r.x2 - r.x1 == (if x == 0 || x == width - 1 then 3 * sw else sw)
      && r.y2 - r.y1 == (if y == 0 || y == height - 1 then 3 * sh else sh)
      && Upright(r)
  {
    CellFits(x, width, imageWidth);
    CellFits(y, height, imageHeight);
  }

  /** Along one axis of a grid with at least three cells: the cell at pos
      fits in the image, a first cell grown by two units still fits, and a
      last cell grown back by two units does not pass zero. */
  lemma AxisFits(pos: nat, size: nat, imageSize: nat)
    requires size >= 3 && pos < size
    ensures var s := imageSize / size;
      && 0 <= pos * s
      && Min(imageSize, pos * s + s) == pos * s + s
      && (pos == 0 ==> s + s * GrowMultiplier <= imageSize)
      && (pos == size - 1 ==> pos * s - s * GrowMultiplier >= 0)
  {
    var s := imageSize / size;
    CellFits(pos, size, imageSize);
    CellFits(2, size, imageSize);
    if pos == size - 1 {
      MulGrows(2, pos, s);
    }
  }

  /** With at least three rows and columns, every grown rectangle stays inside the frame. */
  lemma SampleRectInsideFrame(width: nat, height: nat, imageWidth: nat, imageHeight: nat, x: nat, y: nat)
    requires width >= 3 && height >= 3
    requires x < width && y < height
    ensures var r := SampleRect(width, height, imageWidth, imageHeight, x, y);
      0 <= r.x1 && r.x2 <= imageWidth && 0 <= r.y1 && r.y2 <= imageHeight
  {
    AxisFits(x, width, imageWidth);
    AxisFits(y, height, imageHeight);
  }

  /** With only two rows, the bottom row's rectangle reaches above the frame:
      its top is minus one sample height. */
  lemma TwoRowGridBottomEscapes(width: nat, imageWidth: nat, imageHeight: nat, x: nat)
    requires width >= 2 && x < width
    ensures SampleRect(width, 2, imageWidth, imageHeight, x, 1).y1 == -(imageHeight / 2)
    ensures imageHeight >= 2 ==> SampleRect(width, 2, imageWidth, imageHeight, x, 1).y1 < 0
  {
  }

  /** Rebuilding the rectangles twice for one frame size is the same as once. */
  lemma WithSampleRectsIdempotent(tiles: seq<Tile>, width: nat, height: nat,
                                  imageWidth: nat, imageHeight: nat)
    requires width >= 2 && height >= 2
    ensures var once := WithSampleRects(tiles, width, height, imageWidth, imageHeight);
      WithSampleRects(once, width, height, imageWidth, imageHeight) == once
  {
  }

  // Integer geometry of the colour averaging.

  /** The rectangle's area, as the averaging computes it: never negative
      for an upright rectangle, and zero when it has no width or no height. */
  function PixelsInTile(r: Rect): (n: int)
    ensures Upright(r) ==> n >= 0
    ensures r.x1 == r.x2 || r.y1 == r.y2 ==> n == 0
  {
    (r.y2 - r.y1) * (r.x2 - r.x1)
  }

  /** The sample count every visited pixel's channel is divided by. */
  function SamplesToTake(r: Rect): int {
    PixelsInTile(r) / Step
  }

  /** Number of columns visited in each row: x1, x1+2, ... below x2. */
  function Columns(r: Rect): nat {
    if r.x1 < r.x2 then (r.x2 - r.x1 + 1) / Step else 0
  }

  /** Number of rows visited: y1 .. y2-1. */
  function Rows(r: Rect): nat {
    if r.y1 < r.y2 then r.y2 - r.y1 else 0
  }

  /** Buffer offsets read in row y. */
  function RowOffsets(r: Rect, surfaceWidth: nat, y: int): seq<int> {
    seq(Columns(r), j => y * surfaceWidth + r.x1 + Step * j)
  }

  /** Buffer offsets read in rows y1 .. yEnd-1, in visiting order. */
  function VisitedRows(r: Rect, surfaceWidth: nat, yEnd: int): seq<int>
    decreases yEnd - r.y1
  {
    if yEnd <= r.y1 then []
    else VisitedRows(r, surfaceWidth, yEnd - 1) + RowOffsets(r, surfaceWidth, yEnd - 1)
  }

  /** Buffer offsets read when averaging over the rectangle, in visiting order. */
  function Visited(r: Rect, surfaceWidth: nat): seq<int> {
    VisitedRows(r, surfaceWidth, r.y2)
  }

  /** The averaging loops: every row of the rectangle, every second column,
      each pixel read at offset y * surfaceWidth + x of the frame buffer.
      The offsets are returned in the order they are read. */
  method VisitPixels(r: Rect, surfaceWidth: nat) returns (offsets: seq<int>)
    ensures offsets == Visited(r, surfaceWidth)
  {
    offsets := [];
    var y := r.y1;
    while y < r.y2
      invariant y == r.y1 || r.y1 < y <= r.y2
      invariant offsets == VisitedRows(r, surfaceWidth, y)
      decreases r.y2 - y
    {
      var x := r.x1;
      ghost var j := 0;
      while x < r.x2
        invariant x == r.x1 + Step * j
        invariant 0 <= j <= Columns(r)
        invariant offsets == VisitedRows(r, surfaceWidth, y) + RowOffsets(r, surfaceWidth, y)[..j]
        decreases r.x2 - x
      {
        offsets := offsets + [y * surfaceWidth + x];
        x := x + Step;
        j := j + 1;
      }
      assert j == Columns(r);
      assert RowOffsets(r, surfaceWidth, y)[..j] == RowOffsets(r, surfaceWidth, y);
      y := y + 1;
    }
  }

  lemma {:induction false} VisitedRowsCount(r: Rect, surfaceWidth: nat, yEnd: int)
    ensures |VisitedRows(r, surfaceWidth, yEnd)| == (if r.y1 < yEnd then yEnd - r.y1 else 0) * Columns(r)
    decreases yEnd - r.y1
  {
    if yEnd > r.y1 {
      VisitedRowsCount(r, surfaceWidth, yEnd - 1);
    }
  }

  /** One pixel per visited row and column. */
  lemma VisitedCount(r: Rect, surfaceWidth: nat)
    ensures |Visited(r, surfaceWidth)| == Rows(r) * Columns(r)
  {
    VisitedRowsCount(r, surfaceWidth, r.y2);
  }

  /** The sample count never exceeds the number of pixels read; they agree
      when the rectangle's width is even, and with an odd width and at least
      one row more pixels are read than the count the average is scaled by. */
  lemma SamplesAgainstVisits(r: Rect, surfaceWidth: nat)
    requires Upright(r)
    ensures 0 <= SamplesToTake(r) <= |Visited(r, surfaceWidth)|
    ensures (r.x2 - r.x1) % 2 == 0 ==> SamplesToTake(r) == |Visited(r, surfaceWidth)|
    ensures (r.x2 - r.x1) % 2 == 1 && r.y1 < r.y2 ==> SamplesToTake(r) < |Visited(r, surfaceWidth)|
  {
    VisitedCount(r, surfaceWidth);
    var rows := r.y2 - r.y1;
    var dx := r.x2 - r.x1;
    var cols := Columns(r);
    assert rows == Rows(r);
    assert 2 * cols == dx + dx % 2;
    assert 2 * (rows * cols) == rows * dx + rows * (dx % 2) by {
      assert 2 * (rows * cols) == rows * (2 * cols);
    }
    assert 0 <= rows * dx;
  }

  lemma {:induction false} VisitedRowsInFrame(r: Rect, surfaceWidth: nat, surfaceHeight: nat, yEnd: int)
    requires 0 <= r.x1 && r.x2 <= surfaceWidth && 0 <= r.y1 && yEnd <= surfaceHeight
    ensures forall o :: o in VisitedRows(r, surfaceWidth, yEnd) ==> 0 <= o < surfaceWidth * surfaceHeight
    decreases yEnd - r.y1
  {
    if yEnd > r.y1 {
      VisitedRowsInFrame(r, surfaceWidth, surfaceHeight, yEnd - 1);
      var y := yEnd - 1;
      forall o | o in RowOffsets(r, surfaceWidth, y)
        ensures 0 <= o < surfaceWidth * surfaceHeight
      {
        var j :| 0 <= j < Columns(r) && o == y * surfaceWidth + r.x1 + Step * j;
        assert 0 <= r.x1 + Step * j < surfaceWidth;
        assert (y + 1) * surfaceWidth <= surfaceHeight * surfaceWidth by {
          assert surfaceHeight * surfaceWidth - (y + 1) * surfaceWidth == (surfaceHeight - y - 1) * surfaceWidth;
        }
        assert 0 <= y * surfaceWidth;
      }
    }
  }

  /** A rectangle inside a surfaceWidth x surfaceHeight frame reads only
      offsets inside the frame buffer. */
  lemma VisitedInFrame(r: Rect, surfaceWidth: nat, surfaceHeight: nat)
    requires 0 <= r.x1 && r.x2 <= surfaceWidth && 0 <= r.y1 && r.y2 <= surfaceHeight
    ensures forall o :: o in Visited(r, surfaceWidth) ==> 0 <= o < surfaceWidth * surfaceHeight
  {
    VisitedRowsInFrame(r, surfaceWidth, surfaceHeight, r.y2);
  }

  /** With at least three rows and columns, averaging any tile of the grid
      reads only pixels of the frame the rectangles were built for. */
  lemma TilePixelsInFrame(width: nat, height: nat, imageWidth: nat, imageHeight: nat, x: nat, y: nat)
    requires width >= 3 && height >= 3
    requires x < width && y < height
    ensures forall o :: o in Visited(SampleRect(width, height, imageWidth, imageHeight, x, y), imageWidth) ==>
      0 <= o < imageWidth * imageHeight
  {
    SampleRectInsideFrame(width, height, imageWidth, imageHeight, x, y);
    VisitedInFrame(SampleRect(width, height, imageWidth, imageHeight, x, y), imageWidth, imageHeight);
  }

  /** The colour averaging over a captured frame: given the buffer offsets
      read and the sample count, the floating-point average it produces. */
  type Averager = (seq<int>, int) -> RGB

  /** Every tile with its colour recomputed from its own rectangle. */
  function WithColours(tiles: seq<Tile>, surfaceWidth: nat, average: Averager): (r: seq<Tile>)
    ensures |r| == |tiles|
  {
    seq(|tiles|, i requires 0 <= i < |tiles| =>
      tiles[i].(rgb := average(Visited(tiles[i].sampleRect, surfaceWidth), SamplesToTake(tiles[i].sampleRect))))
  }
}
