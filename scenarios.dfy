/** Sequences of calls on the peripheral: initialisation followed by rendered frames. */
module Scenarios {
  import opened GridTypes
  import opened Topology
  import opened Sampling
  import opened Wire
  import opened PortSetting
  import opened AmbiPiGrid
  import opened PeripheralAmbiPi

  const Red := RGB(255, 0, 0)

  /** The fixed grid has 50 LEDs and 254-byte frames. */
  lemma FixedGridSizes()
    ensures NumTiles(GridWidth, GridHeight) == 50
    ensures StreamLength(NumTiles(GridWidth, GridHeight)) == 254
    ensures BigEndian32(254) == [0, 0, 0, 254]
  {
  }

  /** Enabling the peripheral with a valid port and capturing one frame
      whose averages are all red: the device is connected to that port and
      receives one 254-byte frame announcing its length, and every LED is
      red. */
  method FirstFrame(address: string, portSetting: string, requestedPort: nat,
                    imageWidth: nat, imageHeight: nat, uninitialised: int)
    returns (p: Peripheral, frame: seq<byte>)
    requires InPortRange(requestedPort) && portSetting == DecimalString(requestedPort)
    requires imageWidth > 0 && imageHeight > 0
    ensures p.Valid() && p.grid != null && p.connected
    ensures p.calls == [Disconnect, Connect(address, requestedPort), CaptureFrame, Send(frame)]
    ensures |frame| == 254 && frame[..HeaderSize] == [0, 0, 0, 254]
    ensures forall i :: 0 <= i < p.grid.tiles.Length ==> p.grid.tiles[i].rgb == Red
    ensures p.previousImageWidth == imageWidth && p.previousImageHeight == imageHeight
  {
    p := new Peripheral();
    PortRoundTrip(requestedPort, [], [], uninitialised);
    assert [] + DecimalString(requestedPort) + [] == portSetting;
    p.InitialiseFeature(AmbiPiFeature, Settings(true, portSetting, address), uninitialised, true);
    p.ProcessImage(Captured(imageWidth, imageHeight, (offsets, samples) => Red));
    frame := p.grid.stream[..];
    FixedGridSizes();
    assert frame[..HeaderSize] == BigEndian32(254);
  }

  /** The resolution cache survives a grid rebuild: after a setting change,
      frames of the size already seen leave the new grid's rectangles at
      zero, so every LED samples an empty rectangle. */
  method ReinitialisationKeepsZeroRects(address: string, portSetting: string,
                                        imageWidth: nat, imageHeight: nat,
                                        uninitialised: int, average: Averager)
    returns (p: Peripheral)
    requires imageWidth > 0 && imageHeight > 0
    ensures p.Valid() && p.grid != null && p.connected
    ensures p.grid.tiles.Length == 50
    ensures forall i :: 0 <= i < p.grid.tiles.Length ==> p.grid.tiles[i].sampleRect == EmptyRect
    ensures p.previousImageWidth == imageWidth && p.previousImageHeight == imageHeight
  {
    var settings := Settings(true, portSetting, address);
    p := new Peripheral();
    p.InitialiseFeature(AmbiPiFeature, settings, uninitialised, true);
    p.ProcessImage(Captured(imageWidth, imageHeight, average));
    p.OnSettingChanged(settings, uninitialised, true);
    ghost var zeroed := p.grid.tiles[..];
    p.ProcessImage(Captured(imageWidth, imageHeight, average));
    FixedGridSizes();
    forall i | 0 <= i < p.grid.tiles.Length
      ensures p.grid.tiles[i].sampleRect == EmptyRect
    {
      assert p.grid.tiles[i].sampleRect == zeroed[i].sampleRect;
    }
  }

  /** Rectangles kept by the cache are read at the new frame's width: the
      bottom-right tile's rectangle built for a 160 x 110 frame, averaged over
      an 80 x 110 frame, reads offset 109*80 + 158, past the 8800 pixels of
      that frame. */
  lemma StaleRectangleReadsPastFrame()
    ensures var r := SampleRect(GridWidth, GridHeight, 160, 110, GridWidth - 1, GridHeight - 1);
      && r == Rect(130, 80, 160, 110)
      && 109 * 80 + 158 in Visited(r, 80)
      && 109 * 80 + 158 >= 80 * 110
  {
    var r := SampleRect(GridWidth, GridHeight, 160, 110, GridWidth - 1, GridHeight - 1);
    assert r == Rect(130, 80, 160, 110);
    assert Columns(r) == 15;
    var last := RowOffsets(r, 80, 109);
    assert last[14] == 109 * 80 + 158;
    assert Visited(r, 80) == VisitedRows(r, 80, 109) + last;
  }

  /** A change of width alone is not noticed: the rectangles stay those of
      the first resolution. */
  method WidthChangeIgnored(address: string, portSetting: string,
                            imageWidth: nat, imageHeight: nat, newWidth: nat,
                            uninitialised: int, average: Averager)
    returns (p: Peripheral)
    requires imageWidth > 0 && imageHeight > 0 && newWidth != imageWidth
    ensures p.Valid() && p.grid != null && p.connected
    ensures forall i :: 0 <= i < p.grid.tiles.Length ==>
      var t := p.grid.tiles[i];
      t.sampleRect == SampleRect(GridWidth, GridHeight, imageWidth, imageHeight, t.x, t.y)
    ensures p.previousImageWidth == imageWidth && p.previousImageHeight == imageHeight
  {
    p := new Peripheral();
    p.InitialiseFeature(AmbiPiFeature, Settings(true, portSetting, address), uninitialised, true);
    p.ProcessImage(Captured(imageWidth, imageHeight, average));
    ghost var first := p.grid.tiles[..];
    p.ProcessImage(Captured(newWidth, imageHeight, average));
    forall i | 0 <= i < p.grid.tiles.Length
      ensures p.grid.tiles[i].sampleRect == first[i].sampleRect
      ensures CoordOf(p.grid.tiles[i]) == CoordOf(first[i])
    {
    }
  }
}
