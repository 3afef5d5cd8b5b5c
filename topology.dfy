/** The perimeter walk: the order in which the LEDs are wired around the
    border of a width x height grid. */
module Topology {
  import opened GridTypes

  /** Number of LEDs on the border of the grid. */
  function NumTiles(width: nat, height: nat): nat
    requires height >= 2
  {
    2 * width + 2 * (height - 2)
  }

  /** The cell lies inside the grid and on its border. */
  predicate OnBorder(width: nat, height: nat, c: Coord) {
    c.x < width && c.y < height &&
    (c.x == 0 || c.x == width - 1 || c.y == 0 || c.y == height - 1)
  }

  // Wire positions at which the five runs of the walk begin.

  function LeftEdgeStart(width: nat): nat {
    width / 2
  }

  function BottomEdgeStart(width: nat, height: nat): nat
    requires height >= 2
  {
    LeftEdgeStart(width) + (height - 2)
  }

  function RightEdgeStart(width: nat, height: nat): nat
    requires width >= 1 && height >= 2
  {
    BottomEdgeStart(width, height) + (width - 1)
  }

  function TopRightStart(width: nat, height: nat): nat
    requires width >= 1 && height >= 2
  {
    RightEdgeStart(width, height) + (height - 1)
  }

  /** The cell wired at position k of the walk. */
  function WalkAt(width: nat, height: nat, k: nat): Coord
    requires width >= 2 && height >= 2
    requires k < NumTiles(width, height)
  {
    var center := width / 2;
    if k < LeftEdgeStart(width) then Coord(center - 1 - k, 0)
    else if k < BottomEdgeStart(width, height) then Coord(0, k - LeftEdgeStart(width) + 1)
    else if k < RightEdgeStart(width, height) then Coord(k - BottomEdgeStart(width, height), height - 1)
    else if k < TopRightStart(width, height) then Coord(width - 1, height - 1 - (k - RightEdgeStart(width, height)))
    else Coord(width - 1 - (k - TopRightStart(width, height)), 0)
  }

  /** The whole walk, one cell per LED. */
  function Walk(width: nat, height: nat): (w: seq<Coord>)
    requires width >= 2 && height >= 2
    ensures |w| == NumTiles(width, height)
  {
    seq(NumTiles(width, height), k requires 0 <= k < NumTiles(width, height) => WalkAt(width, height, k))
  }

  /** The wire position of a border cell: the inverse of the walk. */
  function WalkIndex(width: nat, height: nat, c: Coord): (k: nat)
    requires width >= 2 && height >= 2
    requires OnBorder(width, height, c)
    ensures k < NumTiles(width, height)
    ensures WalkAt(width, height, k) == c
  {
    var center := width / 2;
    if c.y == 0 && c.x < center then center - 1 - c.x
    else if c.y == 0 then TopRightStart(width, height) + (width - 1 - c.x)
    else if c.x == 0 && c.y < height - 1 then LeftEdgeStart(width) + c.y - 1
    else if c.y == height - 1 && c.x < width - 1 then BottomEdgeStart(width, height) + c.x
    else RightEdgeStart(width, height) + (height - 1 - c.y)
  }

  // The five runs of the walk, as the wiring describes them.

  /** Top row, from just left of the centre to the left edge. */
  function TopCenterToLeft(width: nat): seq<Coord> {
    seq(width / 2, i requires 0 <= i < width / 2 => Coord(width / 2 - 1 - i, 0))
  }

  /** Left column, top to bottom, without the top and bottom rows. */
  function LeftEdgeDown(height: nat): seq<Coord>
    requires height >= 2
  {
    seq(height - 2, i requires 0 <= i < height - 2 => Coord(0, i + 1))
  }

  /** Bottom row, left to right, without the bottom-right corner. */
  function BottomLeftToRight(width: nat, height: nat): seq<Coord>
    requires width >= 1 && height >= 1
  {
    seq(width - 1, i requires 0 <= i < width - 1 => Coord(i, height - 1))
  }

  /** Right column, bottom to top, without the top row. */
  function RightEdgeUp(width: nat, height: nat): seq<Coord>
    requires width >= 1 && height >= 1
  {
    seq(height - 1, i requires 0 <= i < height - 1 => Coord(width - 1, height - 1 - i))
  }

  /** Top row, from the right edge back to the centre. */
  function TopRightToCenter(width: nat): seq<Coord> {
    seq(width - width / 2, i requires 0 <= i < width - width / 2 => Coord(width - 1 - i, 0))
  }

  /** The walk is the five runs one after another. */
  lemma WalkIsFiveRuns(width: nat, height: nat)
    requires width >= 2 && height >= 2
    ensures Walk(width, height) ==
      TopCenterToLeft(width) + LeftEdgeDown(height) + BottomLeftToRight(width, height)
      + RightEdgeUp(width, height) + TopRightToCenter(width)
  {
    var runs := TopCenterToLeft(width) + LeftEdgeDown(height) + BottomLeftToRight(width, height)
      + RightEdgeUp(width, height) + TopRightToCenter(width);
    var w := Walk(width, height);
    assert |runs| == |w|;
    forall k | 0 <= k < |w| ensures w[k] == runs[k] {
      if k < LeftEdgeStart(width) {
      } else if k < BottomEdgeStart(width, height) {
      } else if k < RightEdgeStart(width, height) {
      } else if k < TopRightStart(width, height) {
      } else {
      }
    }
  }

  /** Every cell of the walk lies on the border. */
  lemma WalkOnBorder(width: nat, height: nat, k: nat)
    requires width >= 2 && height >= 2
    requires k < NumTiles(width, height)
    ensures OnBorder(width, height, WalkAt(width, height, k))
  {
  }

  /** Looking up the wire position of the k-th cell gives back k. */
  lemma WalkIndexOfWalkAt(width: nat, height: nat, k: nat)
    requires width >= 2 && height >= 2
    requires k < NumTiles(width, height)
    ensures OnBorder(width, height, WalkAt(width, height, k))
    ensures WalkIndex(width, height, WalkAt(width, height, k)) == k
  {
    WalkOnBorder(width, height, k);
  }

  /** No cell is wired twice. */
  lemma WalkDistinct(width: nat, height: nat)
    requires width >= 2 && height >= 2
    ensures forall i, j :: 0 <= i < j < NumTiles(width, height) ==>
      Walk(width, height)[i] != Walk(width, height)[j]
  {
    forall i, j | 0 <= i < j < NumTiles(width, height)
      ensures Walk(width, height)[i] != Walk(width, height)[j]
    {
      WalkIndexOfWalkAt(width, height, i);
      WalkIndexOfWalkAt(width, height, j);
    }
  }

  /** The walk visits exactly the border cells. */
  lemma WalkCoversBorder(width: nat, height: nat, c: Coord)
    requires width >= 2 && height >= 2
    ensures c in Walk(width, height) <==> OnBorder(width, height, c)
  {
    var w := Walk(width, height);
    if OnBorder(width, height, c) {
      var k := WalkIndex(width, height, c);
      assert w[k] == c;
    }
    if c in w {
      var k :| 0 <= k < |w| && w[k] == c;
      WalkOnBorder(width, height, k);
    }
  }

  /** The walk of a 4 x 3 grid. */
  lemma Walk4x3()
    ensures Walk(4, 3) == [Coord(1, 0), Coord(0, 0), Coord(0, 1), Coord(0, 2), Coord(1, 2),
                           Coord(2, 2), Coord(3, 2), Coord(3, 1), Coord(3, 0), Coord(2, 0)]
  {
  }
}
