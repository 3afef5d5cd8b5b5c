# AmbiPi grid and peripheral, modelled in Dafny

AmbiPi is an ambient-light add-on for XBMC. After each rendered frame the
peripheral captures the screen and computes one colour per LED. The LEDs sit
on the border of a 16 x 11 grid. It then sends the colours to a Raspberry Pi
over TCP in a small length-prefixed binary frame.

This project models two classes of that driver:

- `CAmbiPiGrid` (`ambipi_grid.dfy`, class `AmbiPiGrid.Grid`) does three things:
  - it numbers the border cells along the LED wiring (the perimeter walk);
  - it gives each LED a sample rectangle of the captured frame, and walks the
    pixels of that rectangle when averaging;
  - it encodes the LEDs into a reused frame buffer.

  Each method mirrors the C++ loops over a fixed `array<Tile>` and an
  `array<byte>`. It is proved against specification functions, which are
  defined in:
  - `topology.dfy`: the walk, its inverse and its five runs;
  - `sampling.dfy`: the rectangles and the visited pixel offsets;
  - `wire.dfy`: the frame bytes and a device-side decoder.
- `CPeripheralAmbiPi` (`peripheral.dfy`, class `PeripheralAmbiPi.Peripheral`)
  holds the control logic:
  - reading the port setting (`port_setting.dfy` models the `%d` conversion);
  - rebuilding the grid on (re)initialisation;
  - the resolution cache for the rectangles;
  - the gate in the render-complete handler: skip while disconnected, skip
    when the capture fails, otherwise recolour and send one frame.

  The network connection and the screen capture are foreign code. The
  peripheral records what it asks of them in a `calls` log, and their
  outcomes (connect succeeded, the captured frame) are method parameters.
- `scenarios.dfy` proves sequences of calls on the peripheral:
  - the first frame after enabling;
  - a frame after re-initialisation;
  - a frame whose width alone changed.

Behaviour is kept as written, including two quirks:

- The cache recomputes the rectangles only when both the width and the height
  differ from the cached ones, because of the `||` in the early return.
- The cache is not reset when the grid is rebuilt, so a new grid keeps zero
  rectangles while the resolution stays the same.

Both are proved as scenarios.

The 16 x 11 grid has 2*16 + 2*9 = 50 LEDs, so its frames are 4 + 5*50 = 254
bytes (`Scenarios.FixedGridSizes`).

Sources are cited relative to the repository root.

## Model

| member | source | states |
|---|---|---|
| Topology.Walk | xbmc/peripherals/devices/ambipi/AmbiPiGrid.cpp:39 | the walk lists, for each wire position k below 2*width + 2*(height-2), the cell WalkAt(k); its order and coverage are stated by WalkIsFiveRuns, WalkDistinct and WalkCoversBorder |
| Topology.WalkIndex | xbmc/peripherals/devices/ambipi/AmbiPiGrid.cpp:96-143 | every border cell has a wire position below numTiles, and the walk puts that cell at that position |
| Topology.WalkIsFiveRuns | xbmc/peripherals/devices/ambipi/AmbiPiGrid.cpp:96-143 | the walk is: the top row from width/2-1 down to 0, the left column downwards, the bottom row left to right, the right column upwards, then the top row from width-1 back to width/2 |
| Topology.WalkOnBorder | xbmc/peripherals/devices/ambipi/AmbiPiGrid.cpp:96-143 | every cell of the walk is inside the grid and on its border |
| Topology.WalkIndexOfWalkAt | xbmc/peripherals/devices/ambipi/AmbiPiGrid.cpp:96-143 | the wire position of the k-th cell is k, so the walk is injective |
| Topology.WalkDistinct | xbmc/peripherals/devices/ambipi/AmbiPiGrid.cpp:96-143 | no cell is wired twice |
| Topology.WalkCoversBorder | xbmc/peripherals/devices/ambipi/AmbiPiGrid.cpp:96-143 | a cell is in the walk if and only if it is a border cell |
| Topology.Walk4x3 | xbmc/peripherals/devices/ambipi/AmbiPiGrid.cpp:96-143 | the 4 x 3 walk is (1,0),(0,0),(0,1),(0,2),(1,2),(2,2),(3,2),(3,1),(3,0),(2,0) |
| AmbiPiGrid.Grid.constructor | xbmc/peripherals/devices/ambipi/AmbiPiGrid.cpp:34-50 | allocates numTiles zeroed tiles and a 4 + 5*numTiles byte buffer, then numbers the tiles along the walk |
| AmbiPiGrid.Grid.UpdateSingleTileCoordinates | xbmc/peripherals/devices/ambipi/AmbiPiGrid.cpp:148-153 | sets one tile's x and y; every other tile and field is unchanged |
| AmbiPiGrid.Grid.ProcessTopEdgeFromCenterToLeft | xbmc/peripherals/devices/ambipi/AmbiPiGrid.cpp:99-107 | writes walk positions 0 .. width/2-1 and stops at the start of the left column; slots from there on, and every rectangle and colour, are unchanged |
| AmbiPiGrid.Grid.ProcessBottomEdge | xbmc/peripherals/devices/ambipi/AmbiPiGrid.cpp:108-116 | writes the bottom-row positions of the walk and stops at the start of the right column; slots from there on, and every rectangle and colour, are unchanged |
| AmbiPiGrid.Grid.ProcessTopEdgeFromRightToCenter | xbmc/peripherals/devices/ambipi/AmbiPiGrid.cpp:128-136 | writes the last run of the walk and ends with the running index equal to numTiles |
| AmbiPiGrid.Grid.UpdateTileCoordinates | xbmc/peripherals/devices/ambipi/AmbiPiGrid.cpp:84-146 | every slot holds the walk's cell for its index, every write is in bounds, and rectangles and colours are untouched |
| AmbiPiGrid.Grid.DetermineSampleRectangle | xbmc/peripherals/devices/ambipi/AmbiPiGrid.cpp:200-208 | the tile's rectangle becomes its own cell (x*sw, y*sh) to (min(iw, x*sw+sw), min(ih, y*sh+sh)); nothing else changes |
| AmbiPiGrid.Grid.GrowSampleRectangleInwards | xbmc/peripherals/devices/ambipi/AmbiPiGrid.cpp:210-225 | grows a top-row tile's bottom, otherwise a bottom-row tile's top, by 2*sh, and likewise left and right columns by 2*sw |
| AmbiPiGrid.Grid.UpdateSampleRectangles | xbmc/peripherals/devices/ambipi/AmbiPiGrid.cpp:169-198 | every rectangle is rebuilt from the tile's position and the frame size alone; positions and colours are unchanged; the grid stays valid |
| AmbiPiGrid.Grid.CalculateAverageColorForTile | xbmc/peripherals/devices/ambipi/AmbiPiGrid.cpp:246-278 | the tile's colour is the average over exactly the visited pixel offsets, scaled by area/2 |
| AmbiPiGrid.Grid.UpdateTilesFromImage | xbmc/peripherals/devices/ambipi/AmbiPiGrid.cpp:231-242 | every tile is recoloured from its own rectangle; positions and rectangles are unchanged |
| AmbiPiGrid.Grid.PutTile | xbmc/peripherals/devices/ambipi/AmbiPiGrid.cpp:69-74 | writes x mod 256, y mod 256, r, g, b at the position and keeps every byte before and after those five |
| AmbiPiGrid.Grid.PutTilesFromLast | xbmc/peripherals/devices/ambipi/AmbiPiGrid.cpp:66-77 | after the header, the tiles are written from last to first and fill the buffer exactly |
| AmbiPiGrid.Grid.GetTileData | xbmc/peripherals/devices/ambipi/AmbiPiGrid.cpp:52-82 | the buffer holds exactly the frame of the current tiles; only the buffer changes |
| Sampling.WithSampleRects | xbmc/peripherals/devices/ambipi/AmbiPiGrid.cpp:179-197 | tile i gets SampleRect of its own position for the frame size, with position and colour kept; one tile per input tile; its shape is stated by SampleRectShape |
| Sampling.SampleRectShape | xbmc/peripherals/devices/ambipi/AmbiPiGrid.cpp:200-225 | a rectangle covers its tile's cell and is sw wide, or 3*sw on an edge column (likewise in height); it is never inverted |
| Sampling.SampleRectInsideFrame | xbmc/peripherals/devices/ambipi/AmbiPiGrid.cpp:200-225 | with at least three rows and columns, every grown rectangle stays inside [0, iw] x [0, ih] |
| Sampling.TwoRowGridBottomEscapes | xbmc/peripherals/devices/ambipi/AmbiPiGrid.cpp:216-217 | with two rows, the bottom row's top is -(ih/2), above the frame |
| Sampling.WithSampleRectsIdempotent | xbmc/peripherals/devices/ambipi/AmbiPiGrid.cpp:169-198 | rebuilding the rectangles twice for one frame size equals doing it once |
| Sampling.PixelsInTile | xbmc/peripherals/devices/ambipi/AmbiPiGrid.cpp:280-283 | the area the sample count is taken from is never negative for an upright rectangle and is zero for a rectangle without width or height |
| Sampling.VisitPixels | xbmc/peripherals/devices/ambipi/AmbiPiGrid.cpp:252-256 | the averaging loops read rows y1..y2-1 at columns x1, x1+2, ... below x2, at offset y*surfaceWidth + x, in that order |
| Sampling.VisitedCount | xbmc/peripherals/devices/ambipi/AmbiPiGrid.cpp:252-254 | the number of pixels read is rows times visited columns |
| Sampling.SamplesAgainstVisits | xbmc/peripherals/devices/ambipi/AmbiPiGrid.cpp:250 | the sample count area/2 is at most the number of pixels read, equal for even widths and smaller for odd widths |
| Sampling.VisitedInFrame | xbmc/peripherals/devices/ambipi/AmbiPiGrid.cpp:256 | a rectangle inside the frame reads only offsets inside the frame buffer |
| Sampling.TilePixelsInFrame | xbmc/peripherals/devices/ambipi/AmbiPiGrid.cpp:256 | with at least three rows and columns, averaging any tile over the frame its rectangles were built for reads only pixels of that frame |
| Sampling.WithColours | xbmc/peripherals/devices/ambipi/AmbiPiGrid.cpp:236-241 | tile i gets the average over the offsets its own rectangle visits, with position and rectangle kept; one tile per input tile |
| Wire.Body | xbmc/peripherals/devices/ambipi/AmbiPiGrid.cpp:66-77 | the body is five bytes per tile |
| Wire.Frame | xbmc/peripherals/devices/ambipi/AmbiPiGrid.cpp:45 | a frame is 4 + 5*numTiles bytes long |
| Wire.WireOrder | xbmc/peripherals/devices/ambipi/AmbiPiGrid.cpp:58 | the device sees as many tiles as the grid has |
| Wire.WireOrderAt | xbmc/peripherals/devices/ambipi/AmbiPiGrid.cpp:58-76 | position k of the wire order is tile numTiles-1-k |
| Wire.BodyAt | xbmc/peripherals/devices/ambipi/AmbiPiGrid.cpp:66-77 | body bytes 5k .. 5k+4 are x mod 256, y mod 256, r, g, b of tile numTiles-1-k |
| Wire.FrameLayout | xbmc/peripherals/devices/ambipi/AmbiPiGrid.cpp:61-77 | bytes 0..3 are the big-endian length; bytes 4+5k .. 4+5k+4 are tile numTiles-1-k |
| Wire.FrameSlot | xbmc/peripherals/devices/ambipi/AmbiPiGrid.cpp:66-77 | slot k of the frame is the five bytes of tile numTiles-1-k |
| Wire.HeaderRoundTrip | xbmc/peripherals/devices/ambipi/AmbiPiGrid.cpp:61-64 | the four length bytes read back as the length, for any length below 2^32 |
| Wire.DecodeBodyLength | xbmc/peripherals/devices/ambipi/AmbiPiGrid.cpp:66-77 | the device reads one tile per whole five bytes |
| Wire.DecodeBodyRoundTrip | xbmc/peripherals/devices/ambipi/AmbiPiGrid.cpp:66-77 | the body decodes to the tiles in reverse order |
| Wire.FrameHeader | xbmc/peripherals/devices/ambipi/AmbiPiGrid.cpp:61-64 | the length field announces the frame's own size |
| Wire.WholeTiles | xbmc/peripherals/devices/ambipi/AmbiPiGrid.cpp:45 | after the header, a frame holds whole five-byte tiles |
| Wire.FrameRoundTrip | xbmc/peripherals/devices/ambipi/AmbiPiGrid.cpp:52-82 | a frame decodes to its own length and to the tiles in reverse order |
| PortSetting.ScanInt | xbmc/peripherals/devices/PeripheralAmbiPi.cpp:77 | the conversion reports the end of input exactly when the text is blank, and reads a number only when the first non-blank character is a digit or a sign |
| PortSetting.LeadingDigits | xbmc/peripherals/devices/PeripheralAmbiPi.cpp:77 | the digit run the conversion takes never reaches beyond the text |
| PortSetting.PortFromSetting | xbmc/peripherals/devices/PeripheralAmbiPi.cpp:73-82 | the chosen port is always within 0..65535 |
| PortSetting.UnsignedRun | xbmc/peripherals/devices/PeripheralAmbiPi.cpp:77 | digits followed by a non-digit are read as their decimal value |
| PortSetting.SignedRun | xbmc/peripherals/devices/PeripheralAmbiPi.cpp:77 | a minus sign and digits are read as the negated value |
| PortSetting.ScanNumber | xbmc/peripherals/devices/PeripheralAmbiPi.cpp:77 | leading white space is skipped and trailing text after the number is ignored |
| PortSetting.ScanNegativeNumber | xbmc/peripherals/devices/PeripheralAmbiPi.cpp:77 | the same for a negative number |
| PortSetting.PortRoundTrip | xbmc/peripherals/devices/PeripheralAmbiPi.cpp:77-80 | every port 0..65535 written in decimal, with any leading blanks and trailing non-digits, is kept |
| PortSetting.TooLargeGivesDefault | xbmc/peripherals/devices/PeripheralAmbiPi.cpp:77-82 | a number above 65535 gives the default port 20434 |
| PortSetting.NegativeGivesDefault | xbmc/peripherals/devices/PeripheralAmbiPi.cpp:77-82 | a negative number gives the default port |
| PortSetting.NonNumericGivesDefault | xbmc/peripherals/devices/PeripheralAmbiPi.cpp:77-82 | text that starts no number gives the default port |
| PortSetting.LoneSignGivesDefault | xbmc/peripherals/devices/PeripheralAmbiPi.cpp:77-82 | a sign with no digits matches no number and gives the default port |
| PortSetting.BlankKeepsUninitialised | xbmc/peripherals/devices/PeripheralAmbiPi.cpp:75-80 | an empty or blank setting reaches the end of input, which passes the test, so the port is the never-assigned local's value when that is in range |
| PeripheralAmbiPi.Peripheral.constructor | xbmc/peripherals/devices/PeripheralAmbiPi.cpp:35-43 | no grid, a (0, 0) resolution cache, not connected, nothing requested |
| PeripheralAmbiPi.Peripheral.LoadAddressFromConfiguration | xbmc/peripherals/devices/PeripheralAmbiPi.cpp:71-85 | the port is the parsed setting or the default, the address is the setting, nothing else changes |
| PeripheralAmbiPi.Peripheral.UpdateGridFromConfiguration | xbmc/peripherals/devices/PeripheralAmbiPi.cpp:87-97 | the grid is replaced by a fresh 16 x 11 grid with zero rectangles and colours; the cache is not reset |
| PeripheralAmbiPi.Peripheral.ConnectToDevice | xbmc/peripherals/devices/PeripheralAmbiPi.cpp:171-177 | requests a disconnect, then a connect to the current address and port |
| PeripheralAmbiPi.Peripheral.DisconnectFromDevice | xbmc/peripherals/devices/PeripheralAmbiPi.cpp:187-192 | requests a disconnect and leaves the peripheral disconnected |
| PeripheralAmbiPi.Peripheral.InitialiseFeature | xbmc/peripherals/devices/PeripheralAmbiPi.cpp:55-69 | another feature, or "enabled" off, changes nothing; otherwise: load the settings, rebuild the grid, disconnect and connect, in that order |
| PeripheralAmbiPi.Peripheral.OnSettingChanged | xbmc/peripherals/devices/PeripheralAmbiPi.cpp:179-185 | disconnects, then initialises again |
| PeripheralAmbiPi.Peripheral.UpdateSampleRectangles | xbmc/peripherals/devices/PeripheralAmbiPi.cpp:150-159 | rebuilds the rectangles and stores the new size only when both width and height differ from the cache; otherwise neither changes |
| PeripheralAmbiPi.Peripheral.UpdateImage | xbmc/peripherals/devices/PeripheralAmbiPi.cpp:136-141 | requests one capture and reports whether it produced a frame |
| PeripheralAmbiPi.Peripheral.GenerateDataStreamFromImage | xbmc/peripherals/devices/PeripheralAmbiPi.cpp:143-148 | rectangles, subject to the cache, then colours from the captured frame |
| PeripheralAmbiPi.Peripheral.SendData | xbmc/peripherals/devices/PeripheralAmbiPi.cpp:161-169 | encodes the grid and sends exactly that frame once; a failed send changes nothing |
| PeripheralAmbiPi.Peripheral.ProcessImage | xbmc/peripherals/devices/PeripheralAmbiPi.cpp:110-124 | while disconnected nothing changes; a failed capture changes nothing else; otherwise rectangles, colours, then exactly one send of the new tiles' frame |
| Scenarios.FixedGridSizes | xbmc/peripherals/devices/PeripheralAmbiPi.cpp:89-95 | the 16 x 11 grid has 50 LEDs and 254-byte frames whose header is 0, 0, 0, 254 |
| Scenarios.FirstFrame | xbmc/peripherals/devices/PeripheralAmbiPi.cpp:110-124 | enable, connect and capture a frame with an averager that yields red for every tile: the device gets a connect to the set port and one 254-byte frame, and every LED is red |
| Scenarios.ReinitialisationKeepsZeroRects | xbmc/peripherals/devices/PeripheralAmbiPi.cpp:150-156 | after a setting change at an unchanged resolution, the new grid's rectangles stay at zero |
| Scenarios.StaleRectangleReadsPastFrame | xbmc/peripherals/devices/PeripheralAmbiPi.cpp:152-158 | rectangles kept by the cache are read at the new width: the 16 x 11 grid's bottom-right rectangle built for 160 x 110, read over an 80 x 110 frame, reaches offset 8878, past the frame's 8800 pixels |
| Scenarios.WidthChangeIgnored | xbmc/peripherals/devices/PeripheralAmbiPi.cpp:152-153 | a change of width alone leaves the rectangles of the first resolution |

## Left out

- Sampling.WithColours: the floating-point colour accumulation and the float-to-byte truncation (AmbiPiGrid.cpp:285-297) are an uninterpreted `Averager` applied to the visited offsets and the sample count. No bound on the average is claimed.
- AmbiPiGrid.Grid.CalculateAverageColorForTile: the pixel reads through the frame buffer are inside the `Averager`. Reads outside the buffer are undefined in C++ and are not modelled. `Sampling.TilePixelsInFrame` shows that they do not happen on a grid of at least 3 x 3 when the rectangles were built for the frame being read. Rectangles the resolution cache keeps from an earlier frame can read past the buffer (`Scenarios.StaleRectangleReadsPastFrame`).
- Sampling.PixelsInTile: the area is an unbounded integer; the C++ cast of a negative product to `unsigned long` is not modelled, since grid rectangles are never inverted.
- Rectangles are integers rather than the floats of `CRect`. They only ever hold integer values and may be negative.
- AmbiPiGrid.Grid.constructor: requires a width and height of at least 2. With a height below 2 the unsigned product `(height - 2) * 2` wraps (AmbiPiGrid.cpp:39), but adding `width * 2` wraps the count back to 2*width - 2 for height 1 and 2*width - 4 for height 0. The walk then goes wrong: with height 1 both loops take only their top-row branch (AmbiPiGrid.cpp:99-107 and 128-136), so only the width top-row cells are written into 2*width - 2 slots and the zeroed rest all read (0,0); with height 0 neither loop runs and no slot is written. A width of 1 gives the right count but wires cells twice (the 1 x 3 walk visits (0,1) twice). A width of 0 wraps `width - 1` (AmbiPiGrid.cpp:140), and the 0 x 3 walk writes 3 tiles into 2 slots. None of this is modelled. Tile counts, stream lengths and products such as x*sampleWidth are unbounded integers, with no 32-bit wrap-around.
- PortSetting.ScanInt: a number beyond the C `int` range is kept exact, so it falls back to the default port. In C such input is undefined behaviour.
- PortSetting.ScanInt: a Dafny string may contain a NUL character, where the C string handed to the conversion ends. Setting text holds no NUL, so the conversion is modelled on the whole text.
- PortSetting.PortFromSetting: the never-assigned local read on end of input is the `uninitialised` parameter.
- PeripheralAmbiPi.Peripheral.ConnectToDevice: requires a grid. C++ has no such check, but its only caller rebuilds the grid first. Whether the connection comes up is a parameter.
- PeripheralAmbiPi.Peripheral.DisconnectFromDevice: assumes that the connection reports itself closed after a disconnect. The connection class is not part of this model.
- PeripheralAmbiPi.Peripheral.SendData: the send's outcome is not a parameter. The exception is caught and ignored, so both outcomes lead to the same state.
- PeripheralAmbiPi.Peripheral.ProcessImage: the modelled connection never drops on its own. `connected` changes only in `ConnectToDevice` and `DisconnectFromDevice`, while the C++ asks the connection's `IsConnected()` on every frame (PeripheralAmbiPi.cpp:112). What a peer that closes or a `Send` that throws does to that answer depends on the connection class, which is not part of this model. So `connected == old(connected)` in `SendData` and `ProcessImage`, and a connection still open after frames in the scenarios, hold for the modelled connection only.
- PeripheralAmbiPi.Peripheral.InitialiseFeature: the base-class `CPeripheral::InitialiseFeature` it always ends with, and that method's result, are not part of this model.
- The settings store (`GetSettingString`, `GetSettingBool`) is replaced by a `Settings` value given to the methods that read it.
- Registering the render-complete callback (PeripheralAmbiPi.cpp:99-108) is left out. The callback only calls `ProcessImage`, which is modelled.
- Logging and `DumpCoordinates` are diagnostics only.
- Memory management is left out: `malloc`, `free`, `ZeroMemory` at allocation, the destructors and `ReleaseImage`. Dafny arrays and allocation replace it.
- The critical section, `m_lastFrameTime` and `ShouldProcessImage` are declared but never used, and nothing concurrent is modelled.
