/** The LED grid: a fixed array of border tiles, filled in wiring order,
    given sample rectangles and colours, and encoded into a reused frame
    buffer. */
module AmbiPiGrid {
  import opened GridTypes
  import opened Topology
  import opened Sampling
  import opened Wire

  /** Rebuilding the rectangles of walk-numbered tiles keeps the numbering
      and gives no inverted rectangle. */
  lemma RebuiltRectsKeepWalk(tiles: seq<Tile>, width: nat, height: nat, imageWidth: nat, imageHeight: nat)
    requires 2 <= width && 2 <= height && |tiles| == NumTiles(width, height)
    requires forall i :: 0 <= i < |tiles| ==> CoordOf(tiles[i]) == WalkAt(width, height, i)
    ensures var r := WithSampleRects(tiles, width, height, imageWidth, imageHeight);
      forall i :: 0 <= i < |r| ==> CoordOf(r[i]) == WalkAt(width, height, i) && Upright(r[i].sampleRect)
  {
    var r := WithSampleRects(tiles, width, height, imageWidth, imageHeight);
    forall i | 0 <= i < |r|
      ensures CoordOf(r[i]) == WalkAt(width, height, i) && Upright(r[i].sampleRect)
    {
      WalkOnBorder(width, height, i);
      SampleRectShape(width, height, imageWidth, imageHeight, tiles[i].x, tiles[i].y);
    }
  }

  class Grid {
    const width: nat
    const height: nat
    const numTiles: nat
    const tiles: array<Tile>
    const streamLength: nat
    const stream: array<byte>

    /** The tiles hold the walk's coordinates in wiring order, the frame
        buffer has room for exactly one frame, and no rectangle is inverted. */
    ghost predicate Valid()
      reads this, tiles
    {
      && 2 <= width && 2 <= height
      && numTiles == NumTiles(width, height)
      && tiles.Length == numTiles
      && streamLength == StreamLength(numTiles)
      && stream.Length == streamLength
      && (forall i :: 0 <= i < numTiles ==> CoordOf(tiles[i]) == WalkAt(width, height, i))
      && (forall i :: 0 <= i < numTiles ==> Upright(tiles[i].sampleRect))
    }

    /** Allocates zeroed tiles and the frame buffer, then numbers the tiles
        along the perimeter walk. */
    constructor (width: nat, height: nat)
      requires 2 <= width && 2 <= height
      ensures Valid() && fresh(tiles) && fresh(stream)
      ensures this.width == width && this.height == height
      ensures forall i :: 0 <= i < numTiles ==> tiles[i].sampleRect == EmptyRect && tiles[i].rgb == Black
    {
      this.width := width;
      this.height := height;
      numTiles := NumTiles(width, height);
      tiles := new Tile[NumTiles(width, height)](_ => ZeroTile);
      streamLength := StreamLength(NumTiles(width, height));
      stream := new byte[StreamLength(NumTiles(width, height))];
      new;
      UpdateTileCoordinates(width, height);
    }

    /** Slots 0 .. n-1 hold the first n cells of the walk. */
    ghost predicate NumberedUpTo(n: nat, width: nat, height: nat)
      reads this, tiles
    {
      && 2 <= width && 2 <= height
      && tiles.Length == NumTiles(width, height)
      && n <= tiles.Length
      && (forall i :: 0 <= i < n ==> CoordOf(tiles[i]) == WalkAt(width, height, i))
    }

    /** Every tile keeps the rectangle and colour it had in before. */
    ghost predicate KeepsPayload(before: seq<Tile>)
      reads this, tiles
    {
      && |before| == tiles.Length
      && (forall i :: 0 <= i < tiles.Length ==>
            tiles[i].sampleRect == before[i].sampleRect && tiles[i].rgb == before[i].rgb)
    }

    /** Writes the coordinates of one tile; the index is always in bounds. */
    method UpdateSingleTileCoordinates(tileIndex: nat, x: nat, y: nat)
      requires tileIndex < tiles.Length
      modifies tiles
      ensures tiles[tileIndex] == old(tiles[tileIndex]).(x := x, y := y)
      ensures forall i :: 0 <= i < tiles.Length && i != tileIndex ==> tiles[i] == old(tiles[i])
    {
      tiles[tileIndex] := tiles[tileIndex].(x := x, y := y);
    }

    /** Top edge, from just left of the centre to the left edge. */
    method ProcessTopEdgeFromCenterToLeft(width: nat, height: nat, startPositionX: nat, tileIndex: nat)
      returns (next: nat)
      requires NumberedUpTo(tileIndex, width, height)
      requires startPositionX == width / 2 && tileIndex == 0
      modifies tiles
      ensures next == LeftEdgeStart(width) && NumberedUpTo(next, width, height)
      ensures KeepsPayload(old(tiles[..]))
      ensures forall i :: next <= i < tiles.Length ==> tiles[i] == old(tiles[i])
    {
      ghost var before := tiles[..];
      var zeroBasedY := 0;
      next := tileIndex;
      var x := startPositionX;
      while x > 0
        invariant 0 <= x <= startPositionX
        invariant next == startPositionX - x
        invariant NumberedUpTo(next, width, height) && KeepsPayload(before)
        invariant forall i :: next <= i < tiles.Length ==> tiles[i] == before[i]
      {
        var zeroBasedX := x - 1;
        assert WalkAt(width, height, next) == Coord(zeroBasedX, zeroBasedY);
        UpdateSingleTileCoordinates(next, zeroBasedX, zeroBasedY);
        next := next + 1;
        x := x - 1;
      }
    }

    /** Bottom edge, left to right, without the last column. */
    method ProcessBottomEdge(width: nat, height: nat, zeroBasedY: nat, tileIndex: nat)
      returns (next: nat)
      requires NumberedUpTo(tileIndex, width, height)
      requires zeroBasedY == height - 1 && tileIndex == BottomEdgeStart(width, height)
      modifies tiles
      ensures next == RightEdgeStart(width, height) && NumberedUpTo(next, width, height)
      ensures KeepsPayload(old(tiles[..]))
      ensures forall i :: next <= i < tiles.Length ==> tiles[i] == old(tiles[i])
    {
      ghost var before := tiles[..];
      next := tileIndex;
      var x := 1;
      while x < width
        invariant 1 <= x <= width
        invariant next == BottomEdgeStart(width, height) + x - 1
        invariant NumberedUpTo(next, width, height) && KeepsPayload(before)
        invariant forall i :: next <= i < tiles.Length ==> tiles[i] == before[i]
      {
        var zeroBasedX := x - 1;
        assert WalkAt(width, height, next) == Coord(zeroBasedX, zeroBasedY);
        UpdateSingleTileCoordinates(next, zeroBasedX, zeroBasedY);
        next := next + 1;
        x := x + 1;
      }
    }

    /** Top edge, from the right edge back to the centre. */
    method ProcessTopEdgeFromRightToCenter(width: nat, height: nat, startPositionX: nat, tileIndex: nat)
      returns (next: nat)
      requires NumberedUpTo(tileIndex, width, height)
      requires startPositionX == width / 2 && tileIndex == TopRightStart(width, height)
      modifies tiles
      ensures next == NumTiles(width, height) && NumberedUpTo(next, width, height)
      ensures KeepsPayload(old(tiles[..]))
    {
      ghost var before := tiles[..];
      var zeroBasedY := 0;
      next := tileIndex;
      var x := width;
      while x > startPositionX
        invariant startPositionX <= x <= width
        invariant next == TopRightStart(width, height) + (width - x)
        invariant NumberedUpTo(next, width, height) && KeepsPayload(before)
      {
        var zeroBasedX := x - 1;
        assert WalkAt(width, height, next) == Coord(zeroBasedX, zeroBasedY);
        UpdateSingleTileCoordinates(next, zeroBasedX, zeroBasedY);
        next := next + 1;
        x := x - 1;
      }
    }

    /** The perimeter walk: top row from the centre leftwards, the left
        column downwards, the bottom row rightwards, the right column upwards
        and the top row from the right back to the centre. Exactly numTiles
        slots are written, each with the walk's cell. */
    method UpdateTileCoordinates(width: nat, height: nat)
      requires 2 <= width && 2 <= height && tiles.Length == NumTiles(width, height)
      modifies tiles
      ensures forall i :: 0 <= i < tiles.Length ==> CoordOf(tiles[i]) == WalkAt(width, height, i)
      ensures forall i :: 0 <= i < tiles.Length ==>
        tiles[i].sampleRect == old(tiles[i].sampleRect) && tiles[i].rgb == old(tiles[i].rgb)
    {
      ghost var before := tiles[..];
      var startPositionX := width / 2;
      var tileIndex := 0;
      var y := 1;
      while y <= height
        invariant 1 <= y <= height + 1
        invariant tileIndex == if y == 1 then 0
                               else if y <= height then LeftEdgeStart(width) + y - 2
                               else RightEdgeStart(width, height)
        invariant NumberedUpTo(tileIndex, width, height) && KeepsPayload(before)
      {
        var zeroBasedY := y - 1;
        if y == 1 {
          tileIndex := ProcessTopEdgeFromCenterToLeft(width, height, startPositionX, tileIndex);
        } else if y == height {
          tileIndex := ProcessBottomEdge(width, height, zeroBasedY, tileIndex);
        } else {
          // left edge only
          var zeroBasedX := 0;
          assert WalkAt(width, height, tileIndex) == Coord(zeroBasedX, zeroBasedY);
          UpdateSingleTileCoordinates(tileIndex, zeroBasedX, zeroBasedY);
          tileIndex := tileIndex + 1;
        }
        y := y + 1;
      }

      y := height;
      while y >= 1
        invariant 0 <= y <= height
        invariant tileIndex == if y >= 1 then RightEdgeStart(width, height) + (height - y)
                               else NumTiles(width, height)
        invariant NumberedUpTo(tileIndex, width, height) && KeepsPayload(before)
      {
        var zeroBasedY := y - 1;
        if y == 1 {
          tileIndex := ProcessTopEdgeFromRightToCenter(width, height, startPositionX, tileIndex);
        } else {
          // right edge only
          var zeroBasedX := width - 1;
          assert WalkAt(width, height, tileIndex) == Coord(zeroBasedX, zeroBasedY);
          UpdateSingleTileCoordinates(tileIndex, zeroBasedX, zeroBasedY);
          tileIndex := tileIndex + 1;
        }
        y := y - 1;
      }
    }

    /** The tile's own cell of the frame, clipped to the frame. */
    method DetermineSampleRectangle(tileIndex: nat, imageWidth: nat, imageHeight: nat,
                                    sampleWidth: nat, sampleHeight: nat)
      requires tileIndex < tiles.Length
      modifies tiles
      ensures tiles[tileIndex] == old(tiles[tileIndex]).(sampleRect :=
        BaseRect(old(tiles[tileIndex]).x, old(tiles[tileIndex]).y, imageWidth, imageHeight, sampleWidth, sampleHeight))
      ensures forall i :: 0 <= i < tiles.Length && i != tileIndex ==> tiles[i] == old(tiles[i])
    {
      var tile := tiles[tileIndex];
      tiles[tileIndex] := tile.(sampleRect := Rect(
        tile.x * sampleWidth,
        tile.y * sampleHeight,
        Min(imageWidth, tile.x * sampleWidth + sampleWidth),
        Min(imageHeight, tile.y * sampleHeight + sampleHeight)));
    }

    /** Edge tiles reach two sample units further into the frame. */
    method GrowSampleRectangleInwards(tileIndex: nat, sampleWidth: nat, sampleHeight: nat)
      requires tileIndex < tiles.Length
      modifies tiles
      ensures tiles[tileIndex] == old(tiles[tileIndex]).(sampleRect :=
        Grow(old(tiles[tileIndex]).sampleRect, old(tiles[tileIndex]).x, old(tiles[tileIndex]).y,
             width, height, sampleWidth, sampleHeight))
      ensures forall i :: 0 <= i < tiles.Length && i != tileIndex ==> tiles[i] == old(tiles[i])
    {
      var multiplier := GrowMultiplier;
      var tile := tiles[tileIndex];
      var rect := tile.sampleRect;
      if tile.y == 0 {
        rect := rect.(y2 := rect.y2 + sampleHeight * multiplier);
      } else if tile.y == height - 1 {
        rect := rect.(y1 := rect.y1 - sampleHeight * multiplier);
      }
      if tile.x == 0 {
        rect := rect.(x2 := rect.x2 + sampleWidth * multiplier);
      } else if tile.x == width - 1 {
        rect := rect.(x1 := rect.x1 - sampleWidth * multiplier);
      }
      tiles[tileIndex] := tile.(sampleRect := rect);
    }

    /** Rebuilds every tile's rectangle for a frame of the given size from the
        tile's position alone; positions and colours are untouched. */
    method UpdateSampleRectangles(imageWidth: nat, imageHeight: nat)
      requires Valid()
      modifies tiles
      ensures Valid()
      ensures tiles[..] == WithSampleRects(old(tiles[..]), width, height, imageWidth, imageHeight)
    {
      var tileIndex := 0;
      var sampleWidth := imageWidth / width;
      var sampleHeight := imageHeight / height;
      while tileIndex < numTiles
        invariant 0 <= tileIndex <= numTiles
        invariant forall i :: 0 <= i < tileIndex ==>
          tiles[i] == old(tiles[i]).(sampleRect := SampleRect(width, height, imageWidth, imageHeight, old(tiles[i]).x, old(tiles[i]).y))
        invariant forall i :: tileIndex <= i < numTiles ==> tiles[i] == old(tiles[i])
      {
        DetermineSampleRectangle(tileIndex, imageWidth, imageHeight, sampleWidth, sampleHeight);
        GrowSampleRectangleInwards(tileIndex, sampleWidth, sampleHeight);
        tileIndex := tileIndex + 1;
      }
      assert tiles[..] == WithSampleRects(old(tiles[..]), width, height, imageWidth, imageHeight);
      RebuiltRectsKeepWalk(old(tiles[..]), width, height, imageWidth, imageHeight);
    }

    /** The colour of one tile, from the pixels its rectangle covers. */
    method CalculateAverageColorForTile(tileIndex: nat, surfaceWidth: nat, average: Averager)
      requires tileIndex < tiles.Length
      modifies tiles
      ensures tiles[tileIndex] == old(tiles[tileIndex]).(rgb :=
        average(Visited(old(tiles[tileIndex]).sampleRect, surfaceWidth), SamplesToTake(old(tiles[tileIndex]).sampleRect)))
      ensures forall i :: 0 <= i < tiles.Length && i != tileIndex ==> tiles[i] == old(tiles[i])
    {
      var tile := tiles[tileIndex];
      var samplesToTake := PixelsInTile(tile.sampleRect) / Step;
      var offsets := VisitPixels(tile.sampleRect, surfaceWidth);
      tiles[tileIndex] := tile.(rgb := average(offsets, samplesToTake));
    }

    /** Recomputes every tile's colour from the captured frame. */
    method UpdateTilesFromImage(surfaceWidth: nat, average: Averager)
      requires Valid()
      modifies tiles
      ensures Valid()
      ensures tiles[..] == WithColours(old(tiles[..]), surfaceWidth, average)
    {
      var tileIndex := 0;
      while tileIndex < numTiles
        invariant 0 <= tileIndex <= numTiles
        invariant forall i :: 0 <= i < tileIndex ==>
          tiles[i] == old(tiles[i]).(rgb := average(Visited(old(tiles[i]).sampleRect, surfaceWidth), SamplesToTake(old(tiles[i]).sampleRect)))
        invariant forall i :: tileIndex <= i < numTiles ==> tiles[i] == old(tiles[i])
      {
        CalculateAverageColorForTile(tileIndex, surfaceWidth, average);
        tileIndex := tileIndex + 1;
      }
    }

    /** Two sequences that agree up to pos and on the next n elements agree
        up to pos + n. */
    lemma PrefixGrows(a: seq<byte>, b: seq<byte>, pos: nat, n: nat)
      requires pos + n <= |a| && pos + n <= |b|
      requires a[..pos] == b[..pos] && a[pos..pos + n] == b[pos..pos + n]
      ensures a[..pos + n] == b[..pos + n]
    {
    }

    /** Writes one tile's five bytes at pos. */
    method PutTile(pos: nat, tile: Tile)
      requires pos + BytesPerTile <= stream.Length
      modifies stream
      ensures stream[..pos] == old(stream[..pos])
      ensures stream[pos..pos + BytesPerTile] == TileBytes(tile)
      ensures stream[pos + BytesPerTile..] == old(stream[pos + BytesPerTile..])
    {
      stream[pos] := tile.x % 0x100;
      stream[pos + 1] := tile.y % 0x100;
      stream[pos + 2] := tile.rgb.r;
      stream[pos + 3] := tile.rgb.g;
      stream[pos + 4] := tile.rgb.b;
    }

    /** Writes the tiles after the header, from the last tile to the first. */
    method PutTilesFromLast()
      requires stream.Length == StreamLength(tiles.Length)
      requires stream[..HeaderSize] == Frame(tiles[..])[..HeaderSize]
      modifies stream
      ensures stream[..] == Frame(tiles[..])
    {
      ghost var frame := Frame(tiles[..]);
      var tileIndex: int := tiles.Length - 1;
      var pos := HeaderSize;
      while tileIndex >= 0
        invariant -1 <= tileIndex < tiles.Length
        invariant pos == HeaderSize + BytesPerTile * (tiles.Length - 1 - tileIndex)
        invariant stream[..pos] == frame[..pos]
      {
        FrameSlot(tiles[..], tiles.Length - 1 - tileIndex);
        PutTile(pos, tiles[tileIndex]);
        PrefixGrows(stream[..], frame, pos, BytesPerTile);
        pos := pos + BytesPerTile;
        tileIndex := tileIndex - 1;
      }
      assert stream[..] == stream[..pos];
      assert frame == frame[..pos];
    }

    /** Encodes the tiles into the frame buffer: zeroes it, writes the
        big-endian length, then the tiles from last to first. The buffer
        afterwards holds exactly the frame of the current tiles. */
    method GetTileData()
      requires Valid()
      modifies stream
      ensures stream[..] == Frame(tiles[..])
    {
      forall i | 0 <= i < stream.Length {
        stream[i] := 0;
      }
      stream[0] := streamLength / 0x100_0000 % 0x100;
      stream[1] := streamLength / 0x1_0000 % 0x100;
      stream[2] := streamLength / 0x100 % 0x100;
      stream[3] := streamLength % 0x100;
      assert stream[..HeaderSize] == BigEndian32(streamLength) == Frame(tiles[..])[..HeaderSize];
      PutTilesFromLast();
    }
  }
}
