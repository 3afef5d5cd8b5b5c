/** The device frame: a 4-byte big-endian total length, then five bytes
    (x, y, r, g, b) per tile, last tile first. */
module Wire {
  import opened GridTypes

  datatype Option<T> = None | Some(value: T)

  /** One tile as the device receives it. */
  datatype WireTile = WireTile(x: byte, y: byte, rgb: RGB)

  /** A decoded frame: its announced length and its tiles in wire order. */
  datatype DecodedFrame = DecodedFrame(length: nat, tiles: seq<WireTile>)

  const HeaderSize := 4
  const BytesPerTile := 5

  /** Bytes in the frame of numTiles tiles, the length field included. */
  function StreamLength(numTiles: nat): nat {
    HeaderSize + BytesPerTile * numTiles
  }

  /** The low 32 bits of n, most significant byte first. */
  function BigEndian32(n: nat): seq<byte> {
    [n / 0x100_0000 % 0x100, n / 0x1_0000 % 0x100, n / 0x100 % 0x100, n % 0x100]
  }

  function ReadBigEndian32(b: seq<byte>): nat
    requires |b| == 4
  {
    ((b[0] as int * 0x100 + b[1]) * 0x100 + b[2]) * 0x100 + b[3]
  }

  /** A tile's five bytes; the coordinates are truncated to 8 bits. */
  function TileBytes(t: Tile): seq<byte> {
    [t.x % 0x100, t.y % 0x100, t.rgb.r, t.rgb.g, t.rgb.b]
  }

  /** What the device learns about a tile. */
  function ToWire(t: Tile): WireTile {
    WireTile(t.x % 0x100, t.y % 0x100, t.rgb)
  }

  /** The tiles' bytes, last tile first. */
  function Body(tiles: seq<Tile>): (b: seq<byte>)
    ensures |b| == BytesPerTile * |tiles|
  {
    if tiles == [] then []
    else TileBytes(tiles[|tiles| - 1]) + Body(tiles[..|tiles| - 1])
  }

  /** The whole frame for the tiles. */
  function Frame(tiles: seq<Tile>): (f: seq<byte>)
    ensures |f| == StreamLength(|tiles|)
  {
    BigEndian32(StreamLength(|tiles|)) + Body(tiles)
  }

  /** The tiles as the device sees them, in wire order (reversed). */
  function WireOrder(tiles: seq<Tile>): (w: seq<WireTile>)
    ensures |w| == |tiles|
  {
    if tiles == [] then []
    else [ToWire(tiles[|tiles| - 1])] + WireOrder(tiles[..|tiles| - 1])
  }

  function DecodeBody(b: seq<byte>): seq<WireTile> {
    if |b| < BytesPerTile then []
    else [WireTile(b[0], b[1], RGB(b[2], b[3], b[4]))] + DecodeBody(b[BytesPerTile..])
  }

  /** A device-side reader: checks that the announced length is the number
      of bytes received and that it leaves whole tiles, then reads the tiles. */
  function Decode(b: seq<byte>): Option<DecodedFrame> {
    if |b| < HeaderSize then None
    else
      var length := ReadBigEndian32(b[..HeaderSize]);
      if length != |b| || (|b| - HeaderSize) % BytesPerTile != 0 then None
      else Some(DecodedFrame(length, DecodeBody(b[HeaderSize..])))
  }

  lemma {:induction false} DecodeBodyLength(b: seq<byte>)
    ensures |DecodeBody(b)| == |b| / BytesPerTile
    decreases |b|
  {
    if |b| >= BytesPerTile {
      DecodeBodyLength(b[BytesPerTile..]);
    }
  }

  /** WireOrder is the reversal: position k holds tile |tiles|-1-k. */
  lemma {:induction false} WireOrderAt(tiles: seq<Tile>, k: nat)
    requires k < |tiles|
    ensures WireOrder(tiles)[k] == ToWire(tiles[|tiles| - 1 - k])
    decreases |tiles|
  {
    if k > 0 {
      var init := tiles[..|tiles| - 1];
      WireOrderAt(init, k - 1);
      assert init[|init| - 1 - (k - 1)] == tiles[|tiles| - 1 - k];
    }
  }

  /** The five bytes at slot k of the body belong to tile |tiles|-1-k. */
  lemma {:induction false} BodyAt(tiles: seq<Tile>, k: nat)
    requires k < |tiles|
    ensures var t := tiles[|tiles| - 1 - k];
      && Body(tiles)[BytesPerTile * k] == t.x % 0x100
      && Body(tiles)[BytesPerTile * k + 1] == t.y % 0x100
      && Body(tiles)[BytesPerTile * k + 2] == t.rgb.r
      && Body(tiles)[BytesPerTile * k + 3] == t.rgb.g
      && Body(tiles)[BytesPerTile * k + 4] == t.rgb.b
    decreases |tiles|
  {
    if k > 0 {
      var init := tiles[..|tiles| - 1];
      BodyAt(init, k - 1);
      assert init[|init| - 1 - (k - 1)] == tiles[|tiles| - 1 - k];
    }
  }

  /** Exact byte layout of a frame: the length header, then tile |tiles|-1-k
      at bytes 4+5k .. 4+5k+4. */
  lemma FrameLayout(tiles: seq<Tile>, k: nat)
    requires k < |tiles|
    ensures Frame(tiles)[..HeaderSize] == BigEndian32(StreamLength(|tiles|))
    ensures var t := tiles[|tiles| - 1 - k];
      var at := HeaderSize + BytesPerTile * k;
      && Frame(tiles)[at] == t.x % 0x100
      && Frame(tiles)[at + 1] == t.y % 0x100
      && Frame(tiles)[at + 2] == t.rgb.r
      && Frame(tiles)[at + 3] == t.rgb.g
      && Frame(tiles)[at + 4] == t.rgb.b
  {
    BodyAt(tiles, k);
  }

  /** The k-th slot of the frame body holds tile |tiles|-1-k's five bytes. */
  lemma FrameSlot(tiles: seq<Tile>, k: nat)
    requires k < |tiles|
    ensures var at := HeaderSize + BytesPerTile * k;
      Frame(tiles)[at..at + BytesPerTile] == TileBytes(tiles[|tiles| - 1 - k])
  {
    FrameLayout(tiles, k);
  }

  /** The length header reads back as the length, below 2^32. */
  lemma HeaderRoundTrip(n: nat)
    requires n < 0x1_0000_0000
    ensures ReadBigEndian32(BigEndian32(n)) == n
  {
    var q1 := n / 0x100;
    var q2 := q1 / 0x100;
    var q3 := q2 / 0x100;
    assert n / 0x1_0000 == q2;
    assert n / 0x100_0000 == q3;
    assert q3 < 0x100;
  }

  lemma {:induction false} DecodeBodyRoundTrip(tiles: seq<Tile>)
    ensures DecodeBody(Body(tiles)) == WireOrder(tiles)
    decreases |tiles|
  {
    if tiles != [] {
      var init := tiles[..|tiles| - 1];
      DecodeBodyRoundTrip(init);
      var b := Body(tiles);
      assert b[BytesPerTile..] == Body(init);
    }
  }

  /** The length field of a frame announces the frame's own size. */
  lemma FrameHeader(tiles: seq<Tile>)
    requires StreamLength(|tiles|) < 0x1_0000_0000
    ensures ReadBigEndian32(Frame(tiles)[..HeaderSize]) == |Frame(tiles)|
  {
    var n := StreamLength(|tiles|);
    HeaderRoundTrip(n);
    assert Frame(tiles)[..HeaderSize] == BigEndian32(n);
  }

  lemma WholeTiles(numTiles: nat)
    ensures (StreamLength(numTiles) - HeaderSize) % BytesPerTile == 0
  {
    assert StreamLength(numTiles) - HeaderSize == BytesPerTile * numTiles;
  }

  /** A frame decodes back to its length and to the tiles in reverse order. */
  lemma FrameRoundTrip(tiles: seq<Tile>)
    requires StreamLength(|tiles|) < 0x1_0000_0000
    ensures Decode(Frame(tiles)) == Some(DecodedFrame(StreamLength(|tiles|), WireOrder(tiles)))
  {
    var f := Frame(tiles);
    FrameHeader(tiles);
    WholeTiles(|tiles|);
    assert f[HeaderSize..] == Body(tiles);
    DecodeBodyRoundTrip(tiles);
  }
}
