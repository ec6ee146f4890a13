# midi-status-display, modelled in Dafny

midi-status-display shows the state of home services on the pad grid of a MIDI
controller. A profile lists tracker registrations (Ping, Jellyfin, TrueNAS; Regex is
declared but not implemented). Each registration has an update interval and profile
items that say what to draw where. The controller picks a MIDI input by name or index,
starts the device, creates one static tracker object per tracker type the profile uses,
and initialises every registration with its type's object. It then loops:
each due tracker updates (an HTTP query) and draws bars or pads, the device is flushed,
and the loop sleeps until the next deadline.

The model covers:

- **Profiles** (`profile.dfy`): the profile, registration, profile item and application
  settings records, with their defaults, and `UsingTracker`.
- **Frames** (`frames.dfy`): the Novation Launchpad Pro messages. These are the SysEx
  frames for pads, RGB pads, rows and columns, the note-on draw message and the
  row/column argument checks. The builders are imperative array code proved against the
  message functions.
- **Devices** (`devices.dfy`): the `Device` class. It holds the asynchronous input/output
  handshake as a state machine, the dialect chosen by name and the `Send` overloads.
  The Launchpad Pro driver keeps its 100-cell mirror buffer, its pending-column mask,
  bar drawing, and `Update` flushing pending columns. The generic device's draws do
  nothing. Sent messages are recorded in `sent`.
- **DriverProperties** (`driver_properties.dfy`): lemmas about bars, the mask and the
  flush.
- **DeviceSelection** (`selection.dfy`): `int.TryParse`, selection by index or
  case-insensitive name prefix, and the constructor's guard.
- **PingTrackers**, **JellyfinTrackers**, **TrueNasTrackers** (`ping.dfy`,
  `jellyfin.dfy`, `truenas.dfy`): each tracker's Init, Update and Display.
  - HTTP replies are given as datatypes: a timeout, a failure or a parsed body.
  - A tracker's drawing is a `Rendering`: the draw calls it makes and the exception it
    ends with, if any.
  - TrueNAS keeps its graph dictionary as a `map` field of its class.
- **Controllers** (`controller.dfy`): the `Controller` class.
  - Its constructor: guard, device search, tracker initialisation and timers.
  - `Start`'s beginning, one pass of its loop (`Tick`), the final disposal, `Stop` and
    `Dispose`.
  - The scheduling of a pass is the function `Schedule`.
- **CommandLine** (`commandline.dfy`): the argument loop of the command-line program.

Primitives (`primitives.dfy`) gives the byte, int and long truncations that the C# casts
perform.

The main model follows the code as written. This includes four behaviours that look
unintended:

- the timer shared per tracker type;
- `Update` never clearing the pending mask;
- the constructor guard;
- the `--profile` error message.

The corrected behaviour is modelled beside each, with its intended property proved (see
"## Findings").

## Model

| member | source | states |
|---|---|---|
| Primitives.ToByte | midi-status-display-core/Devices/NovationLaunchpadPro.cs:65 | the value kept modulo 256: equal to the input modulo 256, unchanged when it already fits a byte (the `(byte)` casts of the driver and trackers) |
| Primitives.ToInt32 | midi-status-display-core/Controller.cs:193 | the 32-bit value of an integer: within int range, congruent modulo 2^32, unchanged when in range (the `(int)` cast of the sleep time) |
| Primitives.ToInt64 | midi-status-display-core/Controller.cs:193 | the 64-bit value of an integer: within long range, congruent modulo 2^64, unchanged when in range (the `long` difference in the sleep time) |
| Profiles.UsingTracker | midi-status-display-core/Configuration/Profile.cs:10-13 | a profile uses a tracker type exactly when one of its registrations has that type |
| Profiles.AnyOfKind | midi-status-display-core/Configuration/Profile.cs:12 | the `Any` scan finds a registration of the type if and only if one exists |
| Profiles.DefaultProfileUsesNothing | midi-status-display-core/Configuration/Profile.cs:7-13 | a profile with its default (empty) item list uses no tracker type |
| Profiles.UsingTrackerAppend | midi-status-display-core/Configuration/Profile.cs:10-13 | appending a registration makes a type used exactly when it was used before or the new registration has it |
| Frames.SysEx | midi-status-display-core/Devices/NovationLaunchpadPro.cs:43-50 | a SysEx message is the six-byte Novation Launchpad Pro header, the command byte, the payload and 0xF7, in that order |
| Frames.ParseSysExInvertsSysEx | midi-status-display-core/Devices/NovationLaunchpadPro.cs:43-50 | reading a SysEx message back yields the command and payload it was built from |
| Frames.SysExInvertsParseSysEx | midi-status-display-core/Devices/NovationLaunchpadPro.cs:43-50 | every byte string that reads as a SysEx message is exactly the message rebuilt from what was read |
| Frames.CellIndex | midi-status-display-core/Devices/NovationLaunchpadPro.cs:65 | for x and y in 0..9 the pad index is x + 10·y and lies in the 100-cell buffer |
| Frames.NoteOn | midi-status-display-core/Devices/NovationLaunchpadPro.cs:62-68 | the draw message is three bytes: note-on status 144, the pad index, the colour |
| Frames.ColumnFrame | midi-status-display-core/Devices/NovationLaunchpadPro.cs:166-181 | the column message has the header, command 0x0C, the column, the colours in order and 0xF7, with length colours + 9 |
| Frames.ColumnFrameFromCells | midi-status-display-core/Devices/NovationLaunchpadPro.cs:185-194 | the fixed 19-byte column buffer, once its column and ten cells are written, is the column message of those cells |
| Frames.RowFrame | midi-status-display-core/Devices/NovationLaunchpadPro.cs:217-230 | the row message has the header, command 0x0D, the row, the colours in order, then as many zero bytes as colours, and 0xF7 (the buffer is sized twice the colours) |
| Frames.LineCheck | midi-status-display-core/Devices/NovationLaunchpadPro.cs:162-164 | a row or column call is accepted exactly when the line is at most 9 and 1..10 colours are given; a line above 9 is ArgumentOutOfRange, a bad count ArgumentException |
| Frames.PadPayloadAt | midi-status-display-core/Devices/NovationLaunchpadPro.cs:87-104 | entry i of the pads payload occupies bytes 2i and 2i+1 |
| Frames.PadFrameLayout | midi-status-display-core/Devices/NovationLaunchpadPro.cs:75-107 | the pads message has length 2·entries + 8 and command 0x0A; two-byte entries are copied, three-byte entries become (x + 10·y, colour) |
| Frames.PadFrameFromEntries | midi-status-display-core/Devices/NovationLaunchpadPro.cs:75-107 | a framed buffer holding every entry's pair at its place is the pads message |
| Frames.NewFrame | midi-status-display-core/Devices/NovationLaunchpadPro.cs:77-85 | a fresh buffer of the requested length carrying the header, the command and 0xF7 |
| Frames.PutPair | midi-status-display-core/Devices/NovationLaunchpadPro.cs:92-93 | writing one entry changes exactly its two bytes |
| Frames.BuildPadFrame | midi-status-display-core/Devices/NovationLaunchpadPro.cs:75-107 | the imperative Send(byte[][]) yields the pads message exactly when every entry is long enough for the first entry's layout, and IndexOutOfRange otherwise (also for no entries) |
| Frames.RgbPayloadAt | midi-status-display-core/Devices/NovationLaunchpadPro.cs:126-147 | entry i of the RGB payload occupies bytes 4i..4i+3 |
| Frames.RgbFrameLayout | midi-status-display-core/Devices/NovationLaunchpadPro.cs:114-150 | the RGB message has length 4·entries + 8 and command 0x0B; four-byte entries are copied, five-byte entries become (x + 10·y, r, g, b) |
| Frames.RgbFrameFromEntries | midi-status-display-core/Devices/NovationLaunchpadPro.cs:114-150 | a framed buffer holding every entry's quadruple at its place is the RGB message |
| Frames.PutRgbEntry | midi-status-display-core/Devices/NovationLaunchpadPro.cs:131-145 | writing one RGB entry changes exactly its four bytes |
| Frames.BuildRgbFrame | midi-status-display-core/Devices/NovationLaunchpadPro.cs:114-150 | the imperative SendRgb yields the RGB message exactly when every entry fits the first entry's layout, and IndexOutOfRange otherwise |
| Devices.DialectFor | midi-status-display-core/Device.cs:81-90 | the Launchpad Pro driver is chosen exactly for the name "Launchpad Pro", the generic device for every other name |
| Devices.FirstNamed | midi-status-display-core/Device.cs:37 | the output looked up is the first one bearing the input's name; none exists exactly when no output has that name |
| Devices.FirstBadRow | midi-status-display-core/Devices/NovationLaunchpadPro.cs:237-240 | the first bar row whose wrapped byte index falls outside the 100-cell buffer; every row before it fits |
| Devices.ColumnCells | midi-status-display-core/Devices/NovationLaunchpadPro.cs:190-193 | the ten cells of a column are buffer[col + 10·k] from bottom to top |
| Devices.Replay | midi-status-display-core/Controller.cs:183 | replaying draw calls on the mirrored device completes exactly when every call fits the buffer, and otherwise stops with IndexOutOfRange |
| Devices.Device.constructor | midi-status-display-core/Device.cs:22-26 | a new device starts opening its input, unconnected, with nothing sent, no pending column and a blank buffer |
| Devices.Device.Start | midi-status-display-core/Device.cs:81-90 | the device returned is fresh, opening its input, and is the Launchpad Pro driver exactly when the port is named "Launchpad Pro" |
| Devices.Device.InputOpened | midi-status-display-core/Device.cs:30-37 | the input continuation assigns Input, installs the handler, runs the input hook, then goes on to open the output of the same name or stalls when there is none |
| Devices.Device.OnDeviceInputConnected | midi-status-display-core/Devices/NovationLaunchpadPro.cs:36-39 | the driver's input hook changes nothing but recording that it ran |
| Devices.Device.OpenFailed | midi-status-display-core/Device.cs:30-41 | a faulted open leaves the handshake stalled and unconnected, with nothing sent |
| Devices.Device.OutputOpened | midi-status-display-core/Device.cs:39-45 | the output continuation assigns Output, runs the output hook and only then sets Connected; the driver has sent Ableton mode, session layout and clear, and blanked its buffer |
| Devices.Device.OnDeviceOutputConnected | midi-status-display-core/Devices/NovationLaunchpadPro.cs:41-53 | the driver's output hook sends the mode, layout and clear messages and blanks its buffer; the generic hook sends nothing |
| Devices.Device.Send | midi-status-display-core/Device.cs:59-62 | the whole message is written to the output |
| Devices.Device.SendPrefix | midi-status-display-core/Device.cs:64-65 | exactly the first `length` bytes of the message are written to the output |
| Devices.Device.Dispose | midi-status-display-core/Devices/NovationLaunchpadPro.cs:313-321 | disposing clears the pads only for a driver with an open output, zeroing all 100 mirror cells, and otherwise leaves the mirror as it was; then closes and disposes the output and input that exist; phase and mask unchanged |
| Devices.Device.Clear | midi-status-display-core/Devices/NovationLaunchpadPro.cs:55-59 | clear sends the clear message and blanks the whole buffer |
| Devices.Device.Draw | midi-status-display-core/Devices/NovationLaunchpadPro.cs:63-69 | the driver's draw sets exactly one buffer cell and sends its note-on, or fails when the wrapped index is outside the buffer; the generic draw does nothing (DEV:94) |
| Devices.Device.SendPads | midi-status-display-core/Devices/NovationLaunchpadPro.cs:75-107 | sends the pads message exactly when the entries fit, else IndexOutOfRange and nothing sent |
| Devices.Device.SendPadsRgb | midi-status-display-core/Devices/NovationLaunchpadPro.cs:114-150 | sends the RGB message exactly when the entries fit, else IndexOutOfRange and nothing sent |
| Devices.Device.SendColumn | midi-status-display-core/Devices/NovationLaunchpadPro.cs:160-182 | an accepted column call sends the column message; a rejected one throws the check's exception and sends nothing |
| Devices.Device.SendRow | midi-status-display-core/Devices/NovationLaunchpadPro.cs:211-231 | an accepted row call sends the row message; a rejected one throws the check's exception and sends nothing |
| Devices.Device.SendColumnFixed | midi-status-display-core/Devices/NovationLaunchpadPro.cs:187-195 | for columns 0..9 sends the column message of that column's buffer cells; a larger column reads past the buffer |
| Devices.Device.SendBufferRow | midi-status-display-core/Devices/NovationLaunchpadPro.cs:197-201 | as written: the row is multiplied by 10 (wrapping) before the range check, so only a scaled row of at most 9 is sent |
| Devices.Device.SendBufferRowChecked | midi-status-display-core/Devices/NovationLaunchpadPro.cs:197-201 | corrected: rows 0..9 send the row message of buffer row `row`; larger rows are ArgumentOutOfRange |
| Devices.Device.PaintBarX | midi-status-display-core/Devices/NovationLaunchpadPro.cs:233-254 | the buffer becomes the painted bar and the column is marked pending exactly when the bar fits |
| Devices.Device.PaintRows | midi-status-display-core/Devices/NovationLaunchpadPro.cs:235-250 | the two loops leave the buffer as the painted bar, failing exactly when a touched row lies outside the buffer |
| Devices.Device.MarkPending | midi-status-display-core/Devices/NovationLaunchpadPro.cs:252 | the column's bit is OR-ed into the pending mask |
| Devices.Device.DrawBarX | midi-status-display-core/Devices/NovationLaunchpadPro.cs:233-254 | the driver paints a solid bar (clearing or layering) and marks its column; the generic device does nothing (DEV:92) |
| Devices.Device.DrawRampBarX | midi-status-display-core/Devices/NovationLaunchpadPro.cs:281-302 | the driver paints the colour-ramp bar and marks its column; the generic device does nothing (DEV:93) |
| Devices.Device.Update | midi-status-display-core/Devices/NovationLaunchpadPro.cs:304-311 | as written: sends one column message per pending column 0..9, in order, and leaves the mask as it was |
| Devices.Device.UpdateClearing | midi-status-display-core/Devices/NovationLaunchpadPro.cs:304-311 | corrected: sends the same column messages, then no column is pending |
| Devices.Device.Apply | midi-status-display-core/Device.cs:92-94 | one tracker draw call changes the device exactly as the mirrored call effect says |
| Devices.Device.Render | midi-status-display-core/Controller.cs:183 | a tracker's rendering changes the device as its replay says; the outcome is the first draw failure, else the tracker's own exception |
| Devices.Device.ReplayCalls | midi-status-display-core/Controller.cs:183 | the device state after a sequence of draw calls is the replayed state, successful exactly when the replay is |
| DriverProperties.BarFitsExactly | midi-status-display-core/Devices/NovationLaunchpadPro.cs:237-240 | every bar row of column x lies in the buffer exactly when x ≤ 19 or x ≥ 246 (wrap-around) |
| DriverProperties.ClearingBarFits | midi-status-display-core/Devices/NovationLaunchpadPro.cs:235-242 | a clearing bar fits exactly for those columns |
| DriverProperties.LayerFits | midi-status-display-core/Devices/NovationLaunchpadPro.cs:243-250 | a layered bar of height 0 always fits, and any bar that fits clearing also fits layered |
| DriverProperties.PaintBarColumn | midi-status-display-core/Devices/NovationLaunchpadPro.cs:233-250 | on a column 0..9 the bar sets rows 1..8 of that column and no other cell |
| DriverProperties.LayeredBarKeepsHigherRows | midi-status-display-core/Devices/NovationLaunchpadPro.cs:245-249 | a layered bar leaves rows above its height untouched |
| DriverProperties.RampColors | midi-status-display-core/Devices/NovationLaunchpadPro.cs:288 | row i of the ramp bar has colour 39 − 4i: 35 at the bottom, 7 at the top |
| DriverProperties.ThreeLayerBar | midi-status-display-core/Trackers/TrueNasTracker.cs:272-278 | max, average and min bars drawn in turn colour each row 23, 15, 7 or 0 by the highest value it lies under |
| DriverProperties.PendingOr | midi-status-display-core/Devices/NovationLaunchpadPro.cs:252 | a column is pending in an OR of masks exactly when it is pending in either |
| DriverProperties.PendingBit | midi-status-display-core/Devices/NovationLaunchpadPro.cs:252 | a single column's bit marks that column and no other |
| DriverProperties.MaskBitMarksColumn | midi-status-display-core/Devices/NovationLaunchpadPro.cs:252 | marking column x adds exactly x to the pending columns |
| DriverProperties.StrayBar | midi-status-display-core/Devices/NovationLaunchpadPro.cs:233-242 | a bar on column 10..19 paints rows of column x − 10 instead |
| DriverProperties.StrayBarMarksNothing | midi-status-display-core/Devices/NovationLaunchpadPro.cs:304-311 | such a bar marks no column 0..9 pending, so Update never sends it |
| DriverProperties.FlushesExactlyPending | midi-status-display-core/Devices/NovationLaunchpadPro.cs:304-311 | Update sends a column's message exactly when that column is pending |
| DriverProperties.FlushUpToShape | midi-status-display-core/Devices/NovationLaunchpadPro.cs:306-310 | every message Update sends is a 19-byte column message of a pending column, at most one per column |
| DriverProperties.FlushUpToNothingPending | midi-status-display-core/Devices/NovationLaunchpadPro.cs:306-310 | with nothing pending Update sends nothing |
| DriverProperties.FlushSingleColumn | midi-status-display-core/Devices/NovationLaunchpadPro.cs:301-311 | after one bar on a clean mask, Update sends exactly that column |
| DriverProperties.BufferRowRejected | midi-status-display-core/Devices/NovationLaunchpadPro.cs:199-213 | for rows 1..9 the scaled row reads inside the buffer yet is rejected as out of range, while the unscaled row would pass |
| DeviceSelection.ParseInt32 | midi-status-display-core/Controller.cs:38 | a parsed selector is within int range |
| DeviceSelection.ParseShowRoundTrip | midi-status-display-core/Controller.cs:38 | every int written in decimal parses back to itself |
| DeviceSelection.FirstMatch | midi-status-display-core/Controller.cs:50-63 | the input chosen is the first whose name starts with the selector, ignoring case; none is chosen exactly when no name does |
| DeviceSelection.FirstMatchIgnoresCase | midi-status-display-core/Controller.cs:55 | upper-casing the selector does not change the choice |
| DeviceSelection.GetDeviceFromId | midi-status-display-core/Controller.cs:90-102 | an index selects an input exactly when it is within 0..count−1, and then that input |
| DeviceSelection.GetDevice | midi-status-display-core/Controller.cs:36-48 | the selected input, if any, is one of the inputs |
| DeviceSelection.SelectByIndex | midi-status-display-core/Controller.cs:36-48 | the decimal text of a valid index selects that input |
| DeviceSelection.SelectByName | midi-status-display-core/Controller.cs:36-48 | a selector that is not a valid index selects by name prefix |
| DeviceSelection.EmptySelectorPicksFirst | midi-status-display-core/Controller.cs:50-63 | the empty selector picks the first input |
| DeviceSelection.SearchName | midi-status-display-core/Controller.cs:112 | the name searched is the profile's device when set, else the configured default |
| DeviceSelection.IntendedName | midi-status-display-core/Controller.cs:110-112 | corrected: a non-empty profile device wins, otherwise the configured default |
| DeviceSelection.ProgramGuardAsWritten | midi-status-display-core/Controller.cs:110-128 | as written, with the device Program passes, the constructor proceeds exactly when the profile device is not "" and the default device is not ""; whenever Program passed a device it throws |
| DeviceSelection.ProgramGuardIntended | midi-status-display-core/Controller.cs:110-128 | corrected: it proceeds unless neither a device nor any name is available, and agrees with the written guard wherever that one proceeds |
| DeviceSelection.DefaultsNameNoDevice | midi-status-display-cl/Program.cs:68-80 | with the default profile and configuration Program asks for a device, which the written guard then rejects and the corrected one accepts |
| PingTrackers.Normalised | midi-status-display-core/Trackers/PingTracker.cs:115-117 | Init leaves at least two colours ([0, 3] for none, [0, c] for one, the list otherwise), size 0, and every other field unchanged |
| PingTrackers.DefaultItemNeedsKey | midi-status-display-core/Trackers/PingTracker.cs:112-118 | a default item has no URL; one given a URL normalises to colours [0, 3], size 0, drawn unlit |
| PingTrackers.Init | midi-status-display-core/Trackers/PingTracker.cs:109-119 | items are normalised in order up to the first one without a URL, which throws NullReferenceException; items after it are untouched |
| PingTrackers.HandleSocketException | midi-status-display-core/Trackers/PingTracker.cs:58-80 | codes 10060, 10061 and 10065 are swallowed and set size 0; any other code is rethrown with the item unchanged |
| PingTrackers.PingStepOutcomes | midi-status-display-core/Trackers/PingTracker.cs:21-55 | a response sets size 1 or 0 by its status; timeouts and swallowed socket codes continue; other failures escape; only the size changes |
| PingTrackers.PingAll | midi-status-display-core/Trackers/PingTracker.cs:18-56 | items are pinged in order until the first escaping failure, which is rethrown; later items are untouched |
| PingTrackers.Display | midi-status-display-core/Trackers/PingTracker.cs:100-107 | one draw per item with the colour indexed by its size, stopping at the first size outside its colour list with IndexOutOfRange |
| PingTrackers.PingKeepsColorDefined | midi-status-display-core/Trackers/PingTracker.cs:21-55 | after Init's normalisation a ping keeps the colour lookup in range and the colours unchanged |
| PingTrackers.InitMakesColorsDefined | midi-status-display-core/Trackers/PingTracker.cs:109-119 | after Init every item's colour lookup is in range, before and after any ping |
| JellyfinTrackers.ActiveCount | midi-status-display-core/Trackers/JellyfinTracker.cs:55-72 | the count of active sessions never exceeds the number of sessions |
| JellyfinTrackers.ActiveCountAppend | midi-status-display-core/Trackers/JellyfinTracker.cs:58-72 | the count over two runs of sessions is the sum of their counts |
| JellyfinTrackers.ActiveCountExtremes | midi-status-display-core/Trackers/JellyfinTracker.cs:58-72 | the count is 0 exactly when no session is active and the total exactly when all are |
| JellyfinTrackers.ActiveCountMonotone | midi-status-display-core/Trackers/JellyfinTracker.cs:56-67 | a later cutoff never counts more sessions |
| JellyfinTrackers.IsJellyfinConfiguredAsWritten | midi-status-display-core/Trackers/JellyfinTracker.cs:85 | as written: "configured" holds exactly when URL and key are both empty |
| JellyfinTrackers.IsJellyfinConfigured | midi-status-display-core/Trackers/JellyfinTracker.cs:85 | corrected: configured exactly when URL and key are both set |
| JellyfinTrackers.JellyfinConfiguredInverted | midi-status-display-core/Trackers/JellyfinTracker.cs:85 | the written test accepts the default (empty) configuration and rejects a filled-in one; the corrected one does the opposite |
| JellyfinTrackers.DisplayIdempotent | midi-status-display-core/Trackers/JellyfinTracker.cs:93-109 | displaying the same count again draws nothing |
| JellyfinTrackers.DisplayDrawsOnChange | midi-status-display-core/Trackers/JellyfinTracker.cs:93-109 | at most one bar is drawn, exactly when the first item is active_users and the count changed; any other key throws |
| JellyfinTrackers.CountBarFits | midi-status-display-core/Trackers/JellyfinTracker.cs:103 | the count's ramp bar on a column 0..9 always fits the buffer |
| JellyfinTrackers.JellyfinTracker.constructor | midi-status-display-core/Trackers/JellyfinTracker.cs:12-13 | a new tracker has last drawn count −1 and active count 0 |
| JellyfinTrackers.JellyfinTracker.CountActive | midi-status-display-core/Trackers/JellyfinTracker.cs:55-72 | the loop counts exactly the sessions active since the cutoff |
| JellyfinTrackers.JellyfinTracker.GetActiveUserCount | midi-status-display-core/Trackers/JellyfinTracker.cs:26-77 | a timeout yields 0 and keeps the stored count; a reply stores and returns the active count; other failures escape |
| JellyfinTrackers.JellyfinTracker.Display | midi-status-display-core/Trackers/JellyfinTracker.cs:93-109 | the drawing and the remembered count are those of the display effect |
| TrueNasTrackers.NewGraph | midi-status-display-core/Trackers/TrueNasTracker.cs:195-204 | a new graph keeps its legend and has one unset aggregation per slot |
| TrueNasTrackers.Refreshed | midi-status-display-core/Trackers/TrueNasTracker.cs:210-212 | a refreshed slot takes min, mean and max of its key and keeps its average; a key missing from min leaves it as it was |
| TrueNasTrackers.Refresh | midi-status-display-core/Trackers/TrueNasTracker.cs:206-214 | refreshing succeeds exactly when every legend key has min, mean and max, and otherwise throws KeyNotFound |
| TrueNasTrackers.WithAverages | midi-status-display-core/Trackers/TrueNasTracker.cs:127-130 | setting the averages succeeds exactly when there are no more sums than slots, else IndexOutOfRange |
| TrueNasTrackers.ColumnSumBounds | midi-status-display-core/Trackers/TrueNasTracker.cs:109-116 | a column's sum lies between count·low and count·high when every point does |
| TrueNasTrackers.ColumnSums | midi-status-display-core/Trackers/TrueNasTracker.cs:106-116 | the loop yields each legend column's sum exactly when every data point covers the legend |
| TrueNasTrackers.AbsorbGraph | midi-status-display-core/Trackers/TrueNasTracker.cs:81-138 | absorbing one graph touches only that name, adds it exactly when it has data covering its legend, and keeps every graph well formed |
| TrueNasTrackers.Absorbed | midi-status-display-core/Trackers/TrueNasTracker.cs:121-130 | the stored graph keeps its legend and stays well formed |
| TrueNasTrackers.AbsorbAll | midi-status-display-core/Trackers/TrueNasTracker.cs:81-138 | absorbing the reply's graphs keeps every stored graph well formed |
| TrueNasTrackers.FirstReplyAverages | midi-status-display-core/Trackers/TrueNasTracker.cs:91-130 | a first graph with data is stored under its name with the time column dropped, and each slot holds min, mean, max and the column's average |
| TrueNasTrackers.EmptyGraphSkipped | midi-status-display-core/Trackers/TrueNasTracker.cs:85-89 | a graph without data points changes nothing |
| TrueNasTrackers.AggregationBar | midi-status-display-core/Trackers/TrueNasTracker.cs:272-278 | the aggregation bar is three draw calls |
| TrueNasTrackers.AggregationBarPicture | midi-status-display-core/Trackers/TrueNasTracker.cs:272-278 | drawn on a column 0..9 the three bars colour each row 23, 15, 7 or 0 by min, average and max |
| TrueNasTrackers.ItemCalls | midi-status-display-core/Trackers/TrueNasTracker.cs:253-267 | an item draws the receive (7-character value) or transmit slot of "interface"; any other key throws ArgumentException |
| TrueNasTrackers.DisplayCalls | midi-status-display-core/Trackers/TrueNasTracker.cs:251-269 | the display completes exactly when every item can be drawn |
| TrueNasTrackers.DisplayCallCount | midi-status-display-core/Trackers/TrueNasTracker.cs:251-269 | a completed display issues three bar draws per item |
| TrueNasTrackers.IsTrueNasConfigured | midi-status-display-core/Trackers/TrueNasTracker.cs:33 | configured exactly when the API key and URL are both set |
| TrueNasTrackers.DefaultConfigNotTrueNas | midi-status-display-core/Trackers/TrueNasTracker.cs:33 | the default configuration is not TrueNAS-configured |
| TrueNasTrackers.WholeSeconds | midi-status-display-core/Trackers/TrueNasTracker.cs:282 | the interval in whole seconds, truncated toward zero as C# integer division does |
| TrueNasTrackers.TrueNasTracker.constructor | midi-status-display-core/Trackers/TrueNasTracker.cs:16-18 | a new tracker has no graphs and queries from 60 seconds before now |
| TrueNasTrackers.TrueNasTracker.Init | midi-status-display-core/Trackers/TrueNasTracker.cs:280-284 | the query start becomes now minus the update interval in whole seconds |
| TrueNasTrackers.TrueNasTracker.UpdateAggregations | midi-status-display-core/Trackers/TrueNasTracker.cs:206-214 | the loop refreshes the graph as Refresh does, stopping at the first missing key |
| TrueNasTrackers.TrueNasTracker.SetAverages | midi-status-display-core/Trackers/TrueNasTracker.cs:127-130 | the loop sets the averages as WithAverages does |
| TrueNasTrackers.TrueNasTracker.AbsorbOne | midi-status-display-core/Trackers/TrueNasTracker.cs:83-137 | one iteration of the reply loop stores what AbsorbGraph says |
| TrueNasTrackers.TrueNasTracker.CalculateAveragesFrom | midi-status-display-core/Trackers/TrueNasTracker.cs:68-139 | no graphs changes nothing; otherwise the query start becomes the first graph's end and the graphs are absorbed in order |
| TrueNasTrackers.TrueNasTracker.CalculateAverages | midi-status-display-core/Trackers/TrueNasTracker.cs:36-66 | a timeout changes nothing, other request failures escape unchanged, and a body is handled as CalculateAveragesFrom |
| TrueNasTrackers.TrueNasTracker.Display | midi-status-display-core/Trackers/TrueNasTracker.cs:247-270 | nothing is drawn without graphs; otherwise the item calls in order |
| Controllers.InitRegistration | midi-status-display-core/Controller.cs:134-140 | GetTracker and Init of one registration: Regex throws NotImplemented, a Ping item without URL throws NullReference, Ping items are normalised, other registrations unchanged (the TrueNAS tracker's own reset is QueryStartAfterInit) |
| Controllers.InitAllFailureStays | midi-status-display-core/Controller.cs:134-140 | once a registration fails, later registrations cannot change the outcome |
| Controllers.InitAllSucceeds | midi-status-display-core/Controller.cs:134-140 | initialisation succeeds exactly when every registration does, each initialised on its own |
| Controllers.InitialLastUpdate | midi-status-display-core/Controller.cs:139 | a timer starts at −interval − 100 (as a 32-bit int) |
| Controllers.DefaultIntervalTimer | midi-status-display-core/Controller.cs:139 | a registration with the default 60000 ms interval starts at −60100 and is due at any non-negative time |
| Controllers.TimersKeys | midi-status-display-core/Controller.cs:134-140 | there is a timer for exactly the tracker types the profile registers |
| Controllers.TimersLastWins | midi-status-display-core/Controller.cs:137-139 | a type's shared timer is set by its last registration |
| Controllers.QueryStartAfterInit | midi-status-display-core/Trackers/TrueNasTracker.cs:280-283 | the shared TrueNAS tracker's query start after every registration's Init: its starting value when the profile has no TrueNAS registration, otherwise `now` minus some TrueNAS registration's interval in whole seconds |
| Controllers.QueryStartLastWins | midi-status-display-core/Controller.cs:130-140 | the last TrueNAS registration's interval decides the shared tracker's query start; earlier ones are overwritten |
| Controllers.Schedule | midi-status-display-core/Controller.cs:172-189 | one pass keeps the timer keys, fires only registrations of the pass, and its next update fits a long |
| Controllers.ScheduleAscending | midi-status-display-core/Controller.cs:174 | registrations fire in profile order |
| Controllers.ScheduleStep | midi-status-display-core/Controller.cs:176-187 | one registration's turn fires at most that registration and keeps the timer keys |
| Controllers.ScheduleDistinct | midi-status-display-core/Controller.cs:177-180 | with one registration per type, a registration fires exactly when its interval has passed, and its timer then becomes the reading |
| Controllers.ScheduleNextIsEarliest | midi-status-display-core/Controller.cs:172-187 | the next update is the earliest due time of any registration (or long.MaxValue for none) |
| Controllers.FirstTickFiresAll | midi-status-display-core/Controller.cs:139-178 | with one registration per type, the first pass fires every registration in order |
| Controllers.SleepTime | midi-status-display-core/Controller.cs:193 | the sleep is the time to the next update plus 1, at least 100 ms and within int |
| Controllers.EmptyProfileSleepsMinimum | midi-status-display-core/Controller.cs:172-193 | with nothing registered the loop sleeps the minimum 100 ms |
| Controllers.RenderOutcome | midi-status-display-core/Controller.cs:182-183 | a rendering completes exactly when the tracker did not throw and every draw fits the device |
| Controllers.Rendered | midi-status-display-core/Controller.cs:183 | the generic device is unchanged by any rendering |
| Controllers.GenericPaintsNothing | midi-status-display-core/Device.cs:92-94 | a pass on the generic device leaves it unchanged |
| Controllers.Flushed | midi-status-display-core/Controller.cs:191 | the flush appends exactly the pending columns' messages |
| Controllers.TurnAdvances | midi-status-display-core/Controller.cs:174-188 | each turn extends the pass's record, or ends it at the throwing registration |
| Controllers.SlowRegistrationStarves | midi-status-display-core/Controller.cs:174-193 | as written: with Ping registrations of 3000 ms and 1000 ms, every pass fires only the fast one |
| Controllers.StarvedFromStart | midi-status-display-core/Controller.cs:139 | as written: that starvation starts with the loop when it begins within 900 ms |
| Controllers.ScheduleOwn | midi-status-display-core/Controller.cs:177-187 | corrected: a pass with one timer per registration keeps the timers of registrations not reached |
| Controllers.OwnFiresWhenDue | midi-status-display-core/Controller.cs:177-187 | corrected: every registration fires exactly when its own interval has passed, and the next update is no later than any due time |
| Controllers.OwnAgreesWhenDistinct | midi-status-display-core/Controller.cs:177-187 | with one registration per type the corrected and the written pass agree |
| Controllers.OwnTimersServeSlowRegistration | midi-status-display-core/Controller.cs:177-187 | corrected: the slow registration of the starving profile fires whenever its interval has passed |
| Controllers.Controller.constructor | midi-status-display-core/Controller.cs:13-14 | a new controller is not running and not disposed |
| Controllers.Controller.Create | midi-status-display-core/Controller.cs:104-141 | the guard, the device found by name prefix, a TrueNAS tracker exactly when the profile uses TrueNAS (empty, its query start as QueryStartAfterInit gives), then the registrations initialised in order with their timers, or the first exception |
| Controllers.Controller.InitRegistrations | midi-status-display-core/Controller.cs:134-140 | the loop initialises the registrations and sets their timers as InitAll and Timers say, and resets the TrueNAS tracker's query start as QueryStartAfterInit says, or stops at the first exception |
| Controllers.Controller.Begin | midi-status-display-core/Controller.cs:150-157 | a missing device throws NullReference; otherwise the controller runs |
| Controllers.Controller.Tick | midi-status-display-core/Controller.cs:169-196 | one pass fires what the schedule says, draws their renderings, flushes once if any fired and sleeps SleepTime; an exception ends it at the throwing registration without a flush |
| Controllers.Controller.Turns | midi-status-display-core/Controller.cs:174-189 | the foreach over the registrations, one turn each, stopping at an exception |
| Controllers.Controller.TakeTurn | midi-status-display-core/Controller.cs:176-187 | one registration's turn: the schedule step, then its rendering if it fired |
| Controllers.Controller.Finish | midi-status-display-core/Controller.cs:198-201 | leaving the loop disposes the device (its mirror zeroed exactly when a driver with an open output clears it, otherwise unchanged) and stops running |
| Controllers.Controller.Stop | midi-status-display-core/Controller.cs:204-207 | stopping ends the loop |
| Controllers.Controller.Dispose | midi-status-display-core/Controller.cs:209-214 | disposing ends the loop, disposes the device (its mirror zeroed exactly when a driver with an open output clears it, otherwise unchanged) and stops running |
| CommandLine.ParseAsWritten | midi-status-display-cl/Program.cs:31-63 | as written: a missing option value always reports the --config message |
| CommandLine.Parse | midi-status-display-cl/Program.cs:31-63 | corrected: a missing value happens only at the last argument, and the message names that option |
| CommandLine.Examples | midi-status-display-cl/Program.cs:34-63 | sample command lines: paths taken, help before a missing value, "-h" as a path, plain words ignored, no arguments |
| CommandLine.ParseArguments | midi-status-display-cl/Program.cs:31-63 | the argument loop computes what ParseAsWritten says |
| CommandLine.MissingOnlyAtEnd | midi-status-display-cl/Program.cs:44-61 | a missing value can only be the last argument's, and the message names the option given there |
| CommandLine.ProfileErrorNamesConfig | midi-status-display-cl/Program.cs:60 | "--profile" alone reports the --config message as written; apart from that message both parsers agree |
| CommandLine.PlainArgumentsIgnored | midi-status-display-cl/Program.cs:36-62 | arguments that are no option leave the paths at their defaults |
| CommandLine.PathsComeFromArguments | midi-status-display-cl/Program.cs:42-59 | each path is its default or the argument right after a matching option |
| CommandLine.UsageNeedsHelp | midi-status-display-cl/Program.cs:38-41 | usage is shown only when a help option is present |
| CommandLine.ParseAppend | midi-status-display-cl/Program.cs:34-63 | parsing a command line continues from where its prefix left the paths |
| CommandLine.LastOccurrenceWins | midi-status-display-cl/Program.cs:42-59 | a later option overrides the earlier path |

## Left out

- HTTP requests, JSON parsing and `DateTime` parsing are not modelled. A reply is a
  datatype: a timeout, a cancellation, an unsuccessful status, a malformed body, or the
  parsed sessions or graphs. The clock is a parameter (`now`).
- The `HttpClient` set-up in the tracker constructors (base address, headers, timeout)
  is not modelled. Neither is `Uri` construction from the configured URL.
- Floating point is modelled with `real`. The `(byte)(value * 0.000125f)` bar heights in
  TrueNasTracker are a parameter, `height`. The `(float)` rounding of averages is not
  modelled.
- Logging (`Log`, `ConsoleLog`, `NoLog`, TrueNAS's debug `Log`) is left out, as are the
  trackers' `Init` assignments of the controller's log. `JellyfinTracker.Init` does
  nothing else. MidiController.cs is not part of this model.
- Loading the settings and the profile from files (ConfigLoader, ProfileLoader) is not
  modelled, nor is the `config ?? LoadConfig()` fallback. The settings are given.
- The MIDI input message handlers only log and are left out.
- Program's interactive `GetDevice` prompt (Program.cs lines 102-130) is not modelled:
  it reads the console. The model records only whether Program passes a device.
- `GetDeviceFromId(Log, string)` (Controller.cs lines 65-88) is never called and is left
  out.
- The string-device constructor overload (Controller.cs line 34) is not a separate
  member. It is `GetDevice` followed by `Create` with a device.
- `Start` re-creating the tracker objects (Controller.cs lines 146-148) is left out. The
  loop reads only each registration's `TrackerObject`, which still holds the object the
  constructor initialised, so the model keeps one set of timers and the constructor's
  TrueNAS tracker.
- Controllers.Controller.Create: of the tracker objects it holds only the TrueNAS one,
  whose query start Init changes. The Ping tracker object has no state of its own, and
  the Jellyfin one starts as `JellyfinTracker.constructor` states.
- Controllers.Schedule: the sums `LastUpdate + UpdateInterval` (Controller.cs lines 178
  and 187) are unbounded integers, not wrapped to 64 bits. Only the sleep time at line
  193 is wrapped, with `ToInt64` and `ToInt32`.
- DeviceSelection.FirstMatch: the case-insensitive comparison folds only the ASCII
  letters a-z, while `StringComparison.OrdinalIgnoreCase` also folds every other letter
  with a simple upper-case mapping (so "ÉLAN X" matches the selector "élan" in the
  source but not in the model). Name lengths and prefixes count Unicode scalar values,
  while `Length` and `Substring` count UTF-16 code units, so they differ for names
  with characters outside the Basic Multilingual Plane.
- DeviceSelection.ParseInt32: the signs are fixed to '-' and '+' and the digits to
  ASCII '0'-'9'. `int.TryParse` takes its sign symbols from the current culture.
- The busy wait for `Connected`, the stopwatch, `Thread.Sleep` and the domain-unload
  handler are not modelled. Stopwatch readings are inputs to `Tick`, and the sleep time
  is returned.
- `Tick` is one pass of the loop. The unbounded repetition is not a method.
- Controllers.Controller.Tick: a registration's Update and Display are an input
  `Rendering`. The tracker objects are not called from the tick.
- Enum values outside `TrackerTypes` (GetTracker's `ArgumentOutOfRangeException`) are
  left out, because the enum is a datatype.
- The `ContinueWith` continuations run as explicit handshake steps (`InputOpened`,
  `OutputOpened`, `OpenFailed`). Thread interleaving is not modelled.
- Devices.Device.Send: requires an open output. The `NullReferenceException` of sending
  before `Output` is assigned is not modelled.
- Devices.Device.Draw: requires an open output on the Launchpad Pro. The
  `NullReferenceException` of drawing before `Output` is assigned is not modelled.
- TrueNasTrackers.AbsorbAll: its own contract states only that the graphs stay well
  formed. What it stores is stated by `AbsorbGraph`, `FirstReplyAverages` and
  `EmptyGraphSkipped`.
- The profile item fields `Mode`, `Scale` and `Direction` are not modelled: nothing in
  the core reads them. `StatValue` is read only through its length.

## Findings

| source | as written | input that shows it | evidently intended | confidence | as-written member | corrected member |
|---|---|---|---|---|---|---|
| midi-status-display-core/Controller.cs:10-12 | The tracker objects are static, one per type, so all registrations of a type share one `LastUpdate` timer. | Two Ping registrations of 3000 ms and 1000 ms, with the loop starting within 900 ms: every pass fires only the 1000 ms one. | Each registration fires when its own interval has passed. | not executed | Controllers.SlowRegistrationStarves | Controllers.OwnTimersServeSlowRegistration |
| midi-status-display-core/Devices/NovationLaunchpadPro.cs:304-311 | `Update` sends the pending columns but never clears `_pendingColumn`. | A bar on column 3, then two `Update` calls: column 3 is sent both times, and again on every later flush. | The mask is cleared after the flush. | not executed | Devices.Device.Update | Devices.Device.UpdateClearing |
| midi-status-display-core/Devices/NovationLaunchpadPro.cs:197-201 | `SendRow(byte row)` multiplies the row by 10 before `SendRow(row, colors)` checks `row > 9`. | Row 1 becomes 10, which is rejected with `ArgumentOutOfRangeException`, although its cells 10..19 exist. | Rows 0..9 send buffer row `row`. | not executed | DriverProperties.BufferRowRejected | Devices.Device.SendBufferRowChecked |
| midi-status-display-core/Trackers/JellyfinTracker.cs:85 | `IsJellyfinConfigured` holds when the URL and the key are both empty. | The default settings count as configured; a URL and key of "x" do not. | Configured when both are set, as `IsTruNasConfigured` does. | not executed | JellyfinTrackers.JellyfinConfiguredInverted | JellyfinTrackers.IsJellyfinConfigured |
| midi-status-display-core/Controller.cs:110-128 | The guard throws whenever a device is passed, and whenever the profile device is "" or the default device is "". | Program's defaults: it prompts for a device, because both names are "", then passes it, and the constructor throws. | Proceed with a given device, else search by the profile's name when it is set, else by the default. | not executed | DeviceSelection.ProgramGuardAsWritten | DeviceSelection.ProgramGuardIntended |
| midi-status-display-cl/Program.cs:60 | `--profile` without a value prints the `--config` error message. | The single argument `--profile`. | The message names `--profile`. | not executed | CommandLine.ProfileErrorNamesConfig | CommandLine.MissingOnlyAtEnd |
