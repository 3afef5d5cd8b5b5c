/** The AmbiPi peripheral: reads its settings, owns a 16 x 11 grid, and on
    every rendered frame captures the screen, recolours the grid and sends
    one frame to the device. The network connection and the screen capture
    are outside the model: what the peripheral asks of them is recorded in
    calls, and their outcomes are parameters. */
module PeripheralAmbiPi {
  import opened GridTypes
  import opened Topology
  import opened Sampling
  import opened Wire
  import opened PortSetting
  import opened AmbiPiGrid

  /** One request to the connection or to the screen capture. */
  datatype Call = Disconnect | Connect(address: string, port: int) | CaptureFrame | Send(frame: seq<byte>)

  datatype Feature = AmbiPiFeature | OtherFeature

  /** The peripheral's settings: "enabled", "port" and "address". */
  datatype Settings = Settings(enabled: bool, port: string, address: string)

  /** The screenshot surface: nothing captured, or a width x height frame
      whose pixels the averager reads by buffer offset. */
  datatype Surface = NoFrame | Captured(width: nat, height: nat, average: Averager)

  const GridWidth := 16
  const GridHeight := 11

  class Peripheral {
    var port: int
    var address: string
    var grid: Grid?
    var previousImageWidth: nat
    var previousImageHeight: nat
    var surface: Surface
    var connected: bool
    var calls: seq<Call>
    ghost var Repr: set<object>

    /** A grid, once built, is a valid 16 x 11 grid owned by the peripheral,
        and the connection is only ever opened once a grid exists. */
    ghost predicate Valid()
      reads this, Repr
    {
      && this in Repr
      && (grid != null ==>
            && grid in Repr && grid.tiles in Repr && grid.stream in Repr
            && grid.Valid()
            && grid.width == GridWidth && grid.height == GridHeight)
      && (connected ==> grid != null)
    }

    /** No grid and an empty resolution cache; the port is left unassigned. */
    constructor ()
      ensures Valid() && fresh(Repr)
      ensures grid == null && address == []
      ensures previousImageWidth == 0 && previousImageHeight == 0
      ensures surface == NoFrame && !connected && calls == []
    {
      address := [];
      grid := null;
      previousImageWidth := 0;
      previousImageHeight := 0;
      surface := NoFrame;
      connected := false;
      calls := [];
      Repr := {this};
    }

    /** Reads the port (falling back to the default) and the address. The
        value the port local holds when the conversion hits the end of the
        input is given as uninitialised. */
    method LoadAddressFromConfiguration(settings: Settings, uninitialised: int)
      modifies this
      ensures port == PortFromSetting(settings.port, uninitialised) && InPortRange(port)
      ensures address == settings.address
      ensures grid == old(grid) && connected == old(connected) && calls == old(calls)
      ensures previousImageWidth == old(previousImageWidth)
      ensures previousImageHeight == old(previousImageHeight)
      ensures surface == old(surface) && Repr == old(Repr)
    {
      port := PortFromSetting(settings.port, uninitialised);
      address := settings.address;
    }

    /** Replaces the grid by a fresh 16 x 11 one. The resolution cache is
        left as it was. */
    method UpdateGridFromConfiguration()
      requires Valid()
      modifies this
      ensures Valid() && fresh(grid) && fresh(grid.tiles) && fresh(grid.stream)
      ensures Repr == {this, grid, grid.tiles, grid.stream}
      ensures grid.numTiles == NumTiles(GridWidth, GridHeight)
      ensures forall i :: 0 <= i < grid.numTiles ==>
        grid.tiles[i].sampleRect == EmptyRect && grid.tiles[i].rgb == Black
      ensures port == old(port) && address == old(address)
      ensures connected == old(connected) && calls == old(calls)
      ensures previousImageWidth == old(previousImageWidth)
      ensures previousImageHeight == old(previousImageHeight)
      ensures surface == old(surface)
    {
      var width := GridWidth;
      var height := GridHeight;
      grid := new Grid(width, height);
      Repr := {this, grid, grid.tiles, grid.stream};
    }

    /** Drops any open connection, then connects to the configured address
        and port; whether the connection comes up is given as succeeds. */
    method ConnectToDevice(succeeds: bool)
      requires Valid() && grid != null
      modifies this
      ensures Valid()
      ensures calls == old(calls) + [Disconnect, Connect(address, port)]
      ensures connected == succeeds
      ensures port == old(port) && address == old(address) && grid == old(grid)
      ensures previousImageWidth == old(previousImageWidth)
      ensures previousImageHeight == old(previousImageHeight)
      ensures surface == old(surface) && Repr == old(Repr)
    {
      calls := calls + [Disconnect];
      calls := calls + [Connect(address, port)];
      connected := succeeds;
    }

    method DisconnectFromDevice()
      requires Valid()
      modifies this
      ensures Valid()
      ensures calls == old(calls) + [Disconnect] && !connected
      ensures port == old(port) && address == old(address) && grid == old(grid)
      ensures previousImageWidth == old(previousImageWidth)
      ensures previousImageHeight == old(previousImageHeight)
      ensures surface == old(surface) && Repr == old(Repr)
    {
      calls := calls + [Disconnect];
      connected := false;
    }

    /** For the AmbiPi feature with "enabled" set: load the address, rebuild
        the grid and reconnect, in that order. Any other request leaves the
        peripheral as it was. */
    method InitialiseFeature(feature: Feature, settings: Settings, uninitialised: int, connectSucceeds: bool)
      requires Valid()
      modifies this
      ensures Valid() && fresh(Repr - old(Repr))
      ensures feature != AmbiPiFeature || !settings.enabled ==> unchanged(this)
      ensures feature == AmbiPiFeature && settings.enabled ==>
        && port == PortFromSetting(settings.port, uninitialised)
        && address == settings.address
        && fresh(grid) && grid.numTiles == NumTiles(GridWidth, GridHeight)
        && (forall i :: 0 <= i < grid.numTiles ==>
              grid.tiles[i].sampleRect == EmptyRect && grid.tiles[i].rgb == Black)
        && calls == old(calls) + [Disconnect, Connect(settings.address, port)]
        && connected == connectSucceeds
        && previousImageWidth == old(previousImageWidth)
        && previousImageHeight == old(previousImageHeight)
        && surface == old(surface)
    {
      if feature != AmbiPiFeature || !settings.enabled {
        return;
      }
      LoadAddressFromConfiguration(settings, uninitialised);
      UpdateGridFromConfiguration();
      ConnectToDevice(connectSucceeds);
    }

    /** Any setting change disconnects and then initialises again. */
    method OnSettingChanged(settings: Settings, uninitialised: int, connectSucceeds: bool)
      requires Valid()
      modifies this
      ensures Valid() && fresh(Repr - old(Repr))
      ensures !settings.enabled ==>
        && calls == old(calls) + [Disconnect] && !connected
        && port == old(port) && address == old(address) && grid == old(grid)
      ensures settings.enabled ==>
        && port == PortFromSetting(settings.port, uninitialised)
        && address == settings.address
        && fresh(grid) && grid.numTiles == NumTiles(GridWidth, GridHeight)
        && (forall i :: 0 <= i < grid.numTiles ==>
              grid.tiles[i].sampleRect == EmptyRect && grid.tiles[i].rgb == Black)
        && calls == old(calls) + [Disconnect, Disconnect, Connect(settings.address, port)]
        && connected == connectSucceeds
      ensures previousImageWidth == old(previousImageWidth)
      ensures previousImageHeight == old(previousImageHeight)
      ensures surface == old(surface)
    {
      DisconnectFromDevice();
      InitialiseFeature(AmbiPiFeature, settings, uninitialised, connectSucceeds);
    }

    /** Rebuilds the grid's rectangles only when both the width and the
        height differ from the cached resolution; if either matches, neither
        the cache nor any rectangle changes. */
    method UpdateSampleRectangles(imageWidth: nat, imageHeight: nat)
      requires Valid() && grid != null
      modifies this, grid.tiles
      ensures Valid() && grid == old(grid) && Repr == old(Repr)
      ensures imageWidth != old(previousImageWidth) && imageHeight != old(previousImageHeight) ==>
        && previousImageWidth == imageWidth && previousImageHeight == imageHeight
        && grid.tiles[..] == WithSampleRects(old(grid.tiles[..]), GridWidth, GridHeight, imageWidth, imageHeight)
      ensures imageWidth == old(previousImageWidth) || imageHeight == old(previousImageHeight) ==>
        && previousImageWidth == old(previousImageWidth)
        && previousImageHeight == old(previousImageHeight)
        && grid.tiles[..] == old(grid.tiles[..])
      ensures port == old(port) && address == old(address) && connected == old(connected)
      ensures calls == old(calls) && surface == old(surface)
    {
      if imageWidth == previousImageWidth || imageHeight == previousImageHeight {
        return;
      }
      previousImageWidth := imageWidth;
      previousImageHeight := imageHeight;
      grid.UpdateSampleRectangles(imageWidth, imageHeight);
    }

    /** Asks for a new screen capture; the result is the capture's outcome. */
    method UpdateImage(capture: Surface) returns (captured: bool)
      requires Valid()
      modifies this
      ensures Valid()
      ensures captured == capture.Captured? && surface == capture
      ensures calls == old(calls) + [CaptureFrame]
      ensures port == old(port) && address == old(address) && grid == old(grid)
      ensures connected == old(connected) && Repr == old(Repr)
      ensures previousImageWidth == old(previousImageWidth)
      ensures previousImageHeight == old(previousImageHeight)
    {
      calls := calls + [CaptureFrame];
      surface := capture;
      captured := surface.Captured?;
    }

    /** Rectangles for the captured resolution (subject to the cache), then
        every tile's colour from the captured pixels. */
    method GenerateDataStreamFromImage()
      requires Valid() && grid != null && surface.Captured?
      modifies this, grid.tiles
      ensures Valid() && grid == old(grid) && Repr == old(Repr)
      ensures calls == old(calls) && surface == old(surface)
      ensures var w := surface.width;
        var h := surface.height;
        var rects := if w != old(previousImageWidth) && h != old(previousImageHeight)
          then WithSampleRects(old(grid.tiles[..]), GridWidth, GridHeight, w, h)
          else old(grid.tiles[..]);
        && grid.tiles[..] == WithColours(rects, w, surface.average)
        && (w != old(previousImageWidth) && h != old(previousImageHeight) ==>
              previousImageWidth == w && previousImageHeight == h)
        && (w == old(previousImageWidth) || h == old(previousImageHeight) ==>
              previousImageWidth == old(previousImageWidth) && previousImageHeight == old(previousImageHeight))
      ensures port == old(port) && address == old(address) && connected == old(connected)
    {
      UpdateSampleRectangles(surface.width, surface.height);
      grid.UpdateTilesFromImage(surface.width, surface.average);
    }

    /** Encodes the grid and sends the frame once. A failed send is caught
        and ignored, so its outcome changes nothing here. */
    method SendData()
      requires Valid() && grid != null
      modifies grid.stream, this
      ensures Valid() && grid == old(grid) && Repr == old(Repr)
      ensures grid.stream[..] == Frame(grid.tiles[..])
      ensures calls == old(calls) + [Send(Frame(grid.tiles[..]))]
      ensures port == old(port) && address == old(address) && connected == old(connected)
      ensures previousImageWidth == old(previousImageWidth)
      ensures previousImageHeight == old(previousImageHeight)
      ensures surface == old(surface)
    {
      grid.GetTileData();
      calls := calls + [Send(grid.stream[..])];
    }

    /** The render-complete handler: nothing happens while disconnected;
        when the capture fails only the capture was attempted; otherwise the
        rectangles (subject to the cache) and colours are updated and exactly
        one frame of the new tiles is sent. */
    method ProcessImage(capture: Surface)
      requires Valid()
      modifies Repr
      ensures Valid() && Repr == old(Repr) && grid == old(grid)
      ensures port == old(port) && address == old(address) && connected == old(connected)
      ensures !old(connected) ==> unchanged(Repr)
      ensures old(connected) && capture.NoFrame? ==>
        && calls == old(calls) + [CaptureFrame] && surface == capture
        && unchanged(grid.tiles) && unchanged(grid.stream)
        && previousImageWidth == old(previousImageWidth)
        && previousImageHeight == old(previousImageHeight)
      ensures old(connected) && capture.Captured? ==>
        var w := capture.width;
        var h := capture.height;
        var recompute := w != old(previousImageWidth) && h != old(previousImageHeight);
        var rects := if recompute
          then WithSampleRects(old(grid.tiles[..]), GridWidth, GridHeight, w, h)
          else old(grid.tiles[..]);
        && grid.tiles[..] == WithColours(rects, w, capture.average)
        && grid.stream[..] == Frame(grid.tiles[..])
        && calls == old(calls) + [CaptureFrame, Send(Frame(grid.tiles[..]))]
        && surface == capture
        && (recompute ==> previousImageWidth == w && previousImageHeight == h)
        && (!recompute ==> previousImageWidth == old(previousImageWidth)
                           && previousImageHeight == old(previousImageHeight))
    {
      if !connected {
        return;
      }
      var captured := UpdateImage(capture);
      if !captured {
        return;
      }
      GenerateDataStreamFromImage();
      SendData();
    }
  }
}
