/** The MIDI grid device: the connection handshake shared by every device and the
    Launchpad Pro dialect with its 100-cell mirror buffer and per-column dirty mask.
    The C# subclass is modelled as a dialect of one class: every virtual draw operation
    is a no-op on the generic dialect and the Launchpad Pro implementation on the other. */
module Devices {
  import opened Primitives
  import opened Frames

  /** An endpoint as the MIDI access manager lists it. */
  datatype Port = Port(id: string, name: string)

  datatype Dialect = Generic | LaunchpadPro

  const LaunchpadProName: string := "Launchpad Pro"

  /** Device.Start: the dialect is chosen by the exact advertised name. */
  function DialectFor(name: string): (d: Dialect)
    ensures d == LaunchpadPro <==> name == LaunchpadProName
    ensures d == Generic <==> name != LaunchpadProName
  {
    if name == LaunchpadProName then LaunchpadPro else Generic
  }

  /** The output the handshake opens: the first output whose name equals the input's name. */
  function FirstNamed(outputs: seq<Port>, name: string): (r: Option<nat>)
    ensures r.Some? ==> r.value < |outputs| && outputs[r.value].name == name
    ensures r.Some? ==> forall j :: 0 <= j < r.value ==> outputs[j].name != name
    ensures r.None? <==> forall j :: 0 <= j < |outputs| ==> outputs[j].name != name
  {
    if outputs == [] then None
    else if outputs[0].name == name then Some(0)
    else match FirstNamed(outputs[1..], name)
      case None => None
      case Some(k) => Some(k + 1)
  }

  /** The two chained continuations of the handshake as explicit states. */
  datatype Phase =
    | OpeningInput                 // OpenInputAsync issued
    | OpeningOutput(target: Port)  // input continuation ran, OpenOutputAsync issued
    | Ready                        // output continuation ran to the end
    | Stalled                      // a continuation threw; the handshake never completes

  /** What the continuations and Dispose do to the link, in order. */
  datatype LinkEvent =
    | InputAssigned(input: Port)
    | HandlerInstalled
    | InputHookRan
    | OutputAssigned(output: Port)
    | OutputHookRan
    | ConnectedSet
    | OutputClosed
    | OutputDisposed
    | InputClosed
    | InputDisposed

  /** A draw operation as a tracker issues it to the device. */
  datatype DrawCall =
    | Pixel(x: byte, y: byte, color: byte)                  // Draw(x, y, color)
    | Bar(value: byte, x: byte, color: byte, clear: bool)   // DrawBarX(value, x, color, clear)
    | RampBar(value: byte, x: byte, clear: bool)            // DrawBarX(value, x, clear)

  // -----------------------------------------------------------------------------------
  // Specification of the Launchpad Pro mirror buffer and dirty mask

  const GridCells: nat := 100

  /** The buffer index row i of a bar in column x is written to, in byte arithmetic. */
  function BarIndex(x: byte, i: int): int
  {
    (x as int + i * 10) % 256
  }

  /** The first bar row (1..8) whose index falls outside the buffer, or 9 when none does. */
  function FirstBadRowFrom(x: byte, i: int): (r: int)
    requires 1 <= i <= 9
    ensures i <= r <= 9
    ensures forall j :: i <= j < r ==> BarIndex(x, j) < GridCells
    ensures r <= 8 ==> BarIndex(x, r) >= GridCells
    decreases 9 - i
  {
    if i == 9 then 9
    else if BarIndex(x, i) >= GridCells then i
    else FirstBadRowFrom(x, i + 1)
  }

  function FirstBadRow(x: byte): (r: int)
    ensures 1 <= r <= 9
    ensures forall j :: 1 <= j < r ==> BarIndex(x, j) < GridCells
    ensures r <= 8 ==> BarIndex(x, r) >= GridCells
  {
    FirstBadRowFrom(x, 1)
  }

  /** The bar row (1..8) that buffer cell c belongs to for a bar in column x, or 0 for none. */
  function BarRowOf(x: byte, c: int): int
  {
    var d := (c - x as int) % 256;
    if d % 10 == 0 && 1 <= d / 10 <= 8 then d / 10 else 0
  }

  /** An explicit colour, or the palette ramp `(9 - i) * 4 + 3` of the overload without a colour. */
  datatype Paint = Solid(color: byte) | Ramp

  function RowColor(paint: Paint, i: int): byte
    requires 1 <= i <= 8
  {
    match paint
    case Solid(c) => c
    case Ramp => (9 - i) * 4 + 3
  }

  /** The new value of the cell of row i: the colour up to the bar's height, above it 0 when
      clearing and the old value otherwise. */
  function BarCell(paint: Paint, value: byte, i: int, clear: bool, old_: byte): byte
    requires 1 <= i <= 8
  {
    if value >= i then RowColor(paint, i) else if clear then 0 else old_
  }

  /** The mirror buffer once DrawBarX has handled rows 1..i-1: those of them before the first
      row outside the buffer are rewritten, everything else keeps its value. */
  function PartialBar(buf: seq<byte>, value: byte, x: byte, paint: Paint, clear: bool, i: int): (r: seq<byte>)
    requires |buf| == GridCells
    ensures |r| == GridCells
  {
    seq(GridCells, c requires 0 <= c < GridCells =>
      var row := BarRowOf(x, c);
      if 1 <= row < i && row < FirstBadRow(x) then BarCell(paint, value, row, clear, buf[c]) else buf[c])
  }

  /** The mirror buffer after a DrawBarX call, whether or not it completes. */
  function PaintBar(buf: seq<byte>, value: byte, x: byte, paint: Paint, clear: bool): (r: seq<byte>)
    requires |buf| == GridCells
    ensures |r| == GridCells
  {
    PartialBar(buf, value, x, paint, clear, 9)
  }

  /** Whether DrawBarX completes. Every row is written when clearing, only rows up to `value`
      otherwise, and the first written row whose index falls outside the buffer throws. */
  predicate BarFits(x: byte, value: byte, clear: bool)
  {
    FirstBadRow(x) == 9 || (!clear && value < FirstBadRow(x))
  }

  /** The sixteen single-bit masks: entry c is `1 << c`. */
  const ColumnBits: seq<bv16> :=
    [0x1, 0x2, 0x4, 0x8, 0x10, 0x20, 0x40, 0x80, 0x100, 0x200, 0x400, 0x800, 0x1000, 0x2000, 0x4000, 0x8000]

  lemma ColumnBitsAreShifts(c: nat)
    requires c < 16
    ensures ColumnBits[c] == (1 as bv16) << c
  {
  }

  /** `(ushort)(1 << x)`: C# masks an int shift count to five bits and the cast keeps 16 bits. */
  function MaskBit(x: byte): bv16
  {
    if x % 32 < 16 then ColumnBits[x % 32] else 0
  }

  /** Whether column c's bit is set, as Update tests it. */
  function Pending(mask: bv16, c: nat): bool
  {
    c < 16 && mask & ColumnBits[c] != 0
  }

  /** The ten cells of column col, bottom (row 0) to top (row 9). */
  function ColumnCells(buf: seq<byte>, col: nat): (cells: seq<byte>)
    requires |buf| == GridCells && col <= 9
    ensures |cells| == 10 && forall k :: 0 <= k < 10 ==> cells[k] == buf[col + 10 * k]
  {
    seq(10, k requires 0 <= k < 10 => buf[col + 10 * k])
  }

  /** The set-column frames Update emits for the pending columns among 0..n-1, ascending. */
  function FlushUpTo(buf: seq<byte>, mask: bv16, n: nat): seq<seq<byte>>
    requires |buf| == GridCells && n <= 10
  {
    if n == 0 then []
    else
      var last := if Pending(mask, n - 1) then [ColumnFrame(n - 1, ColumnCells(buf, n - 1))] else [];
      FlushUpTo(buf, mask, n - 1) + last
  }

  function Flushes(buf: seq<byte>, mask: bv16): seq<seq<byte>>
    requires |buf| == GridCells
  {
    FlushUpTo(buf, mask, 10)
  }

  // -----------------------------------------------------------------------------------
  // Replaying a tracker's draw calls on the Launchpad Pro

  /** What a sequence of draw calls can change on the Launchpad Pro: the mirror, the mask and
      the messages sent. */
  datatype Mirror = Mirror(buffer: seq<byte>, mask: bv16, sent: seq<seq<byte>>)

  /** Whether a draw call completes on the Launchpad Pro. */
  predicate CallFits(call: DrawCall)
  {
    match call
    case Pixel(x, y, _) => CellIndex(x, y) < GridCells
    case Bar(value, x, _, clear) => BarFits(x, value, clear)
    case RampBar(value, x, clear) => BarFits(x, value, clear)
  }

  /** The state after one draw call, including the partial effect of one that throws. */
  function CallEffect(m: Mirror, call: DrawCall): (r: Mirror)
    requires |m.buffer| == GridCells
    ensures |r.buffer| == GridCells
  {
    match call
    case Pixel(x, y, color) =>
      if CellIndex(x, y) < GridCells
      then Mirror(m.buffer[CellIndex(x, y) := color], m.mask, m.sent + [NoteOn(CellIndex(x, y), color)])
      else m
    case Bar(value, x, color, clear) =>
      Mirror(PaintBar(m.buffer, value, x, Solid(color), clear),
             if BarFits(x, value, clear) then m.mask | MaskBit(x) else m.mask, m.sent)
    case RampBar(value, x, clear) =>
      Mirror(PaintBar(m.buffer, value, x, Ramp, clear),
             if BarFits(x, value, clear) then m.mask | MaskBit(x) else m.mask, m.sent)
  }

  /** The calls run in order until the first that throws. */
  function Replay(m: Mirror, calls: seq<DrawCall>): (r: (Mirror, Outcome))
    requires |m.buffer| == GridCells
    ensures |r.0.buffer| == GridCells
    ensures r.1 == Done <==> forall k :: 0 <= k < |calls| ==> CallFits(calls[k])
    ensures r.1.Thrown? ==> r.1.fault == IndexOutOfRange
    decreases |calls|
  {
    if calls == [] then (m, Done)
    else if !CallFits(calls[0]) then (CallEffect(m, calls[0]), Thrown(IndexOutOfRange))
    else
      var rest := Replay(CallEffect(m, calls[0]), calls[1..]);
      assert forall k :: 1 <= k < |calls| ==> calls[k] == calls[1..][k - 1];
      rest
  }

  /** The draw calls a tracker's Display makes, in order, and the exception it throws after
      them, if any. */
  datatype Rendering = Rendering(calls: seq<DrawCall>, fault: Option<Fault>)

  // -----------------------------------------------------------------------------------
  // The device

  class Device {
    const deviceId: string
    const dialect: Dialect
    var phase: Phase
    var input: Option<Port>
    var output: Option<Port>
    /** The output's connection state (`MidiPortConnectionState.Open`). */
    var outputOpen: bool
    var connected: bool
    /** Every message handed to the output, in order. */
    var sent: seq<seq<byte>>
    var events: seq<LinkEvent>

    // Launchpad Pro state
    /** The colours last written for the 100 pads, index x + 10 * y. */
    const buffer: array<byte>
    /** One bit per column drawn by DrawBarX (`_pendingColumn`). */
    var pendingColumn: bv16
    /** Reused Note On message `[144, index, color]` (`_drawBuffer`). */
    const drawFrame: array<byte>
    /** Reused 19-byte set-column frame (`_fixedColorBuffer`). */
    const columnFrame: array<byte>

    ghost predicate Valid()
      reads this, drawFrame, columnFrame
    {
      buffer.Length == GridCells && drawFrame.Length == 3 && columnFrame.Length == 19 &&
      buffer != drawFrame && buffer != columnFrame && drawFrame != columnFrame &&
      drawFrame[0] == NoteOnStatus &&
      columnFrame[..7] == Header + [CmdColumn] && columnFrame[18] == SysExEnd &&
      (phase == OpeningInput ==> input.None? && output.None?) &&
      (phase.OpeningOutput? ==> input.Some? && phase.target.name == input.value.name) &&
      (phase == Ready ==> input.Some? && output.Some? && output.value.name == input.value.name) &&
      (connected <==> phase == Ready) &&
      (outputOpen ==> output.Some?)
    }

    /** An output is open, so Send reaches the device. */
    predicate CanSend()
      reads this
    {
      output.Some? && outputOpen
    }

    /** Both constructors: the buffers are allocated and OpenInputAsync is issued. */
    constructor (deviceId: string, dialect: Dialect)
      ensures Valid() && fresh(buffer) && fresh(drawFrame) && fresh(columnFrame)
      ensures this.deviceId == deviceId && this.dialect == dialect
      ensures phase == OpeningInput && !connected && !outputOpen
      ensures sent == [] && events == [] && pendingColumn == 0
      ensures forall c :: 0 <= c < GridCells ==> buffer[c] == 0
    {
      this.deviceId := deviceId;
      this.dialect := dialect;
      phase := OpeningInput;
      input, output := None, None;
      outputOpen, connected := false, false;
      sent, events := [], [];
      buffer := new byte[GridCells](_ => 0);
      pendingColumn := 0;
      drawFrame := new byte[3][NoteOnStatus, 0, 0];
      columnFrame := new byte[19][0xF0, 0x00, 0x20, 0x29, 0x02, 0x10, CmdColumn, 0, 0, 0, 0, 0, 0, 0, 0, 0, 0, 0, SysExEnd];
    }

    /** Device.Start(details): a Launchpad Pro driver for that exact name, a generic device otherwise. */
    static method Start(port: Port) returns (d: Device)
      ensures fresh(d) && d.Valid() && d.phase == OpeningInput && d.sent == []
      ensures d.deviceId == port.id
      ensures d.dialect == LaunchpadPro <==> port.name == LaunchpadProName
    {
      d := new Device(port.id, DialectFor(port.name));
    }

    /** The continuation of OpenInputAsync: assign Input, install the message handler, run the
        input hook (empty in both dialects), then look up the output by the input's name.
        With no such output `First` throws inside the continuation and the handshake stalls. */
    method InputOpened(name: string, outputs: seq<Port>)
      requires Valid() && phase == OpeningInput
      modifies this
      ensures Valid()
      ensures input == Some(Port(deviceId, name)) && output.None? && !connected
      ensures events == old(events) + [InputAssigned(Port(deviceId, name)), HandlerInstalled, InputHookRan]
      ensures FirstNamed(outputs, name).None? ==> phase == Stalled
      ensures FirstNamed(outputs, name).Some? ==> phase == OpeningOutput(outputs[FirstNamed(outputs, name).value])
      ensures sent == old(sent) && pendingColumn == old(pendingColumn)
    {
      input := Some(Port(deviceId, name));
      events := events + [InputAssigned(Port(deviceId, name))];
      events := events + [HandlerInstalled];
      OnDeviceInputConnected();
      match FirstNamed(outputs, name)
      case None =>
        phase := Stalled;
      case Some(k) =>
        phase := OpeningOutput(outputs[k]);
    }

    /** OnDeviceInputConnected: empty in both dialects. */
    method OnDeviceInputConnected()
      modifies this
      ensures events == old(events) + [InputHookRan]
      ensures phase == old(phase) && input == old(input) && output == old(output)
      ensures outputOpen == old(outputOpen) && connected == old(connected)
      ensures sent == old(sent) && pendingColumn == old(pendingColumn)
    {
      events := events + [InputHookRan];
    }

    /** A continuation whose task faulted (the port could not be opened): `task.Result` throws
        and the handshake never completes. */
    method OpenFailed()
      requires Valid() && (phase == OpeningInput || phase.OpeningOutput?)
      modifies this
      ensures Valid() && phase == Stalled && !connected
      ensures input == old(input) && output == old(output) && sent == old(sent) && events == old(events)
    {
      phase := Stalled;
    }

    /** The continuation of OpenOutputAsync: assign Output, run the output hook, and only then
        set Connected. */
    method OutputOpened()
      requires Valid() && phase.OpeningOutput?
      modifies this, buffer
      ensures Valid() && phase == Ready && connected && CanSend()
      ensures output == Some(old(phase).target) && input == old(input)
      ensures events == old(events) + [OutputAssigned(old(phase).target), OutputHookRan, ConnectedSet]
      ensures dialect == LaunchpadPro ==> sent == old(sent) + [ModeFrame, LayoutFrame, ClearFrame]
      ensures dialect == LaunchpadPro ==> forall c :: 0 <= c < GridCells ==> buffer[c] == 0
      ensures dialect == Generic ==> sent == old(sent) && buffer[..] == old(buffer[..])
      ensures pendingColumn == old(pendingColumn)
    {
      output := Some(phase.target);
      outputOpen := true;
      events := events + [OutputAssigned(phase.target)];
      OnDeviceOutputConnected();
      events := events + [OutputHookRan];
      connected := true;
      phase := Ready;
      events := events + [ConnectedSet];
    }

    /** OnDeviceOutputConnected: the Launchpad Pro selects Ableton mode, then the session
        layout, then clears the grid; the generic device does nothing. */
    method OnDeviceOutputConnected()
      requires Valid() && CanSend()
      modifies this, buffer
      ensures Valid() && CanSend()
      ensures phase == old(phase) && input == old(input) && output == old(output)
      ensures connected == old(connected) && events == old(events)
      ensures dialect == LaunchpadPro ==> sent == old(sent) + [ModeFrame, LayoutFrame, ClearFrame]
      ensures dialect == LaunchpadPro ==> forall c :: 0 <= c < GridCells ==> buffer[c] == 0
      ensures dialect == Generic ==> sent == old(sent) && buffer[..] == old(buffer[..])
      ensures pendingColumn == old(pendingColumn)
    {
      if dialect == LaunchpadPro {
        Send(ModeFrame);
        Send(LayoutFrame);
        Clear();
      }
    }

    /** Send(params byte[]): the whole array, offset 0, timestamp 0. */
    method Send(value: seq<byte>)
      requires CanSend()
      modifies this`sent
      ensures sent == old(sent) + [value]
    {
      sent := sent + [value];
    }

    /** Send(byte[], int): only the first `length` bytes. */
    method SendPrefix(value: seq<byte>, length: nat)
      requires CanSend() && length <= |value|
      modifies this`sent
      ensures sent == old(sent) + [value[..length]]
    {
      sent := sent + [value[..length]];
    }

    /** Dispose: the Launchpad Pro clears the grid while its output is open; then the output is
        closed and disposed before the input. */
    method Dispose()
      requires Valid()
      modifies this, buffer
      ensures Valid() && !outputOpen
      ensures input == old(input) && output == old(output) && connected == old(connected)
      ensures sent == old(sent) + (if dialect == LaunchpadPro && old(CanSend()) then [ClearFrame] else [])
      ensures events == old(events)
        + (if output.Some? then [OutputClosed, OutputDisposed] else [])
        + (if input.Some? then [InputClosed, InputDisposed] else [])
      ensures pendingColumn == old(pendingColumn) && phase == old(phase)
      ensures dialect == LaunchpadPro && old(CanSend()) ==> forall c :: 0 <= c < GridCells ==> buffer[c] == 0
      ensures !(dialect == LaunchpadPro && old(CanSend())) ==> buffer[..] == old(buffer[..])
    {
      if dialect == LaunchpadPro && output.Some? && outputOpen {
        Clear();
      }
      if output.Some? {
        outputOpen := false;
        events := events + [OutputClosed, OutputDisposed];
      }
      if input.Some? {
        events := events + [InputClosed, InputDisposed];
      }
    }

    // ---------------------------------------------------------------------------------
    // Launchpad Pro operations

    /** Clear: send the clear-all frame, then zero the mirror buffer. The dirty mask is kept. */
    method Clear()
      requires Valid() && CanSend()
      modifies this`sent, buffer
      ensures sent == old(sent) + [ClearFrame]
      ensures forall c :: 0 <= c < GridCells ==> buffer[c] == 0
    {
      Send(ClearFrame);
      forall c | 0 <= c < GridCells {
        buffer[c] := 0;
      }
    }

    /** Draw(x, y, color): write the mirror cell and send a Note On for it at once. An index of
        100 or more throws before the mirror is written or anything is sent. */
    method Draw(x: byte, y: byte, color: byte) returns (ok: bool)
      requires Valid() && (dialect == LaunchpadPro ==> CanSend())
      modifies drawFrame, buffer, this`sent
      ensures Valid()
      ensures dialect == Generic ==> ok && sent == old(sent) && buffer[..] == old(buffer[..])
      ensures dialect == LaunchpadPro ==> (ok <==> CellIndex(x, y) < GridCells)
      ensures dialect == LaunchpadPro && ok ==>
        buffer[..] == old(buffer[..])[CellIndex(x, y) := color] &&
        sent == old(sent) + [NoteOn(CellIndex(x, y), color)]
      ensures !ok ==> sent == old(sent) && buffer[..] == old(buffer[..])
    {
      if dialect == Generic {
        return true;
      }
      drawFrame[1] := CellIndex(x, y);
      drawFrame[2] := color;
      if drawFrame[1] >= GridCells {
        return false;
      }
      buffer[drawFrame[1]] := color;
      assert drawFrame[..] == NoteOn(CellIndex(x, y), color);
      Send(drawFrame[..]);
      ok := true;
    }

    /** Send(byte[][]): several pads in one frame; nothing is sent when an entry is too short. */
    method SendPads(data: seq<seq<byte>>) returns (outcome: Outcome)
      requires dialect == LaunchpadPro && CanSend()
      modifies this`sent
      ensures outcome == Done <==> PadsFit(data)
      ensures outcome == Done ==> sent == old(sent) + [PadFrame(data)]
      ensures outcome != Done ==> outcome == Thrown(IndexOutOfRange) && sent == old(sent)
    {
      var frame := BuildPadFrame(data);
      match frame
      case Failure(fault) =>
        return Thrown(fault);
      case Success(f) =>
        Send(f);
        return Done;
    }

    /** SendRgb(byte[][]): several pads with RGB colours in one frame. */
    method SendPadsRgb(data: seq<seq<byte>>) returns (outcome: Outcome)
      requires dialect == LaunchpadPro && CanSend()
      modifies this`sent
      ensures outcome == Done <==> RgbFit(data)
      ensures outcome == Done ==> sent == old(sent) + [RgbFrame(data)]
      ensures outcome != Done ==> outcome == Thrown(IndexOutOfRange) && sent == old(sent)
    {
      var frame := BuildRgbFrame(data);
      match frame
      case Failure(fault) =>
        return Thrown(fault);
      case Success(f) =>
        Send(f);
        return Done;
    }

    /** SendColumn(col, colors): checked before anything is sent. */
    method SendColumn(col: byte, colors: seq<byte>) returns (outcome: Outcome)
      requires dialect == LaunchpadPro && CanSend()
      modifies this`sent
      ensures LineCheck(col, |colors|).Some? ==> outcome == Thrown(LineCheck(col, |colors|).value) && sent == old(sent)
      ensures LineCheck(col, |colors|).None? ==> outcome == Done && sent == old(sent) + [ColumnFrame(col, colors)]
    {
      var fault := LineCheck(col, |colors|);
      if fault.Some? {
        return Thrown(fault.value);
      }
      Send(ColumnFrame(col, colors));
      outcome := Done;
    }

    /** SendRow(row, colors): checked before anything is sent. */
    method SendRow(row: byte, colors: seq<byte>) returns (outcome: Outcome)
      requires dialect == LaunchpadPro && CanSend()
      modifies this`sent
      ensures LineCheck(row, |colors|).Some? ==> outcome == Thrown(LineCheck(row, |colors|).value) && sent == old(sent)
      ensures LineCheck(row, |colors|).None? ==> outcome == Done && sent == old(sent) + [RowFrame(row, colors)]
    {
      var fault := LineCheck(row, |colors|);
      if fault.Some? {
        return Thrown(fault.value);
      }
      Send(RowFrame(row, colors));
      outcome := Done;
    }

    /** SendColumnFixed(col): copy column col of the mirror into the reused frame and send it.
        The index `col + 10 * i` is not wrapped, so a column above 9 throws before sending. */
    method SendColumnFixed(col: byte) returns (outcome: Outcome)
      requires Valid() && CanSend()
      modifies columnFrame, this`sent
      ensures Valid()
      ensures col <= 9 ==> outcome == Done && sent == old(sent) + [ColumnFrame(col, ColumnCells(buffer[..], col))]
      ensures col > 9 ==> outcome == Thrown(IndexOutOfRange) && sent == old(sent)
    {
      columnFrame[7] := col;
      var i := 0;
      while i < 10
        invariant 0 <= i <= 10
        invariant Valid() && columnFrame[7] == col && sent == old(sent)
        invariant forall k :: 0 <= k < i ==> col as int + 10 * k < GridCells && columnFrame[8 + k] == buffer[col as int + 10 * k]
      {
        if col as int + i * 10 >= GridCells {
          return Thrown(IndexOutOfRange);
        }
        columnFrame[8 + i] := buffer[col as int + i * 10];
        i := i + 1;
      }
      assert col <= 9 by {
        assert col as int + 10 * 9 < GridCells;
      }
      ColumnFrameFromCells(columnFrame[..], col, ColumnCells(buffer[..], col));
      Send(columnFrame[..]);
      outcome := Done;
    }

    /** SendRow(byte row) as written: `row` is multiplied by 10 in byte arithmetic first, and the
        product is what SendRow(row, colors) range-checks, so every row from 1 to 9 is rejected. */
    method SendBufferRow(row: byte) returns (outcome: Outcome)
      requires Valid() && dialect == LaunchpadPro && CanSend()
      modifies this`sent
      ensures var r := ToByte(row as int * 10);
        (r + 9 >= GridCells ==> outcome == Thrown(IndexOutOfRange) && sent == old(sent)) &&
        (r + 9 < GridCells && r > 9 ==> outcome == Thrown(ArgumentOutOfRange) && sent == old(sent)) &&
        (r <= 9 ==> outcome == Done && sent == old(sent) + [RowFrame(r, buffer[r..r + 10])])
    {
      var r := ToByte(row as int * 10);
      if r + 9 >= GridCells {
        return Thrown(IndexOutOfRange);
      }
      outcome := SendRow(r, buffer[r..r + 10]);
    }

    /** The row overload as evidently intended: check the row, then send row `row` of the mirror. */
    method SendBufferRowChecked(row: byte) returns (outcome: Outcome)
      requires Valid() && dialect == LaunchpadPro && CanSend()
      modifies this`sent
      ensures row > 9 ==> outcome == Thrown(ArgumentOutOfRange) && sent == old(sent)
      ensures row <= 9 ==> outcome == Done && sent == old(sent) + [RowFrame(row, buffer[10 * row..10 * row + 10])]
    {
      if row > 9 {
        return Thrown(ArgumentOutOfRange);
      }
      outcome := SendRow(row, buffer[10 * row..10 * row + 10]);
    }

    /** The loop shared by both DrawBarX overloads: rows 1 to 8 of column x, then the column's
        bit in the dirty mask. Nothing is sent. An index outside the buffer throws in the loop,
        after the rows below it were written and before the mask is touched. */
    method PaintBarX(value: byte, x: byte, paint: Paint, clear: bool) returns (ok: bool)
      requires Valid()
      modifies this`pendingColumn, buffer
      ensures Valid()
      ensures ok <==> BarFits(x, value, clear)
      ensures buffer[..] == PaintBar(old(buffer[..]), value, x, paint, clear)
      ensures pendingColumn == if ok then old(pendingColumn) | MaskBit(x) else old(pendingColumn)
    {
      ok := PaintRows(value, x, paint, clear);
      if ok {
        MarkPending(x);
      }
    }

    /** The row loop of DrawBarX: rows 1..8, each written only when clearing or when the bar
        reaches it; the first written row outside the buffer throws. */
    method PaintRows(value: byte, x: byte, paint: Paint, clear: bool) returns (ok: bool)
      requires buffer.Length == GridCells
      modifies buffer
      ensures ok <==> BarFits(x, value, clear)
      ensures buffer[..] == PaintBar(old(buffer[..]), value, x, paint, clear)
    {
      var i := 1;
      while i < 9
        invariant 1 <= i <= 9
        invariant forall j :: 1 <= j < i && (clear || j <= value) ==> BarIndex(x, j) < GridCells
        invariant buffer[..] == PartialBar(old(buffer[..]), value, x, paint, clear, i)
      {
        if clear || value >= i {
          var idx := (x as int + i * 10) % 256;
          if idx >= GridCells {
            BarRowsBelow(x, i);
            PartialBarStops(old(buffer[..]), value, x, paint, clear, i);
            return false;
          }
          BarRowsGood(x, i);
          PartialBarStep(old(buffer[..]), value, x, paint, clear, i);
          buffer[idx] := BarCell(paint, value, i, clear, buffer[idx]);
        } else {
          PartialBarSkip(old(buffer[..]), value, x, paint, clear, i);
        }
        i := i + 1;
      }
      if clear {
        BarRowsGood(x, 8);
      } else if value >= 1 {
        BarRowsGood(x, Min(value, 8));
      }
      ok := true;
    }

    /** `_pendingColumn |= (ushort)(1 << x)`. */
    method MarkPending(x: byte)
      modifies this`pendingColumn
      ensures pendingColumn == old(pendingColumn) | MaskBit(x)
    {
      pendingColumn := pendingColumn | MaskBit(x);
    }

    /** DrawBarX(value, x, color, clear). */
    method DrawBarX(value: byte, x: byte, color: byte, clear: bool) returns (ok: bool)
      requires Valid()
      modifies this`pendingColumn, buffer
      ensures Valid()
      ensures dialect == Generic ==> ok && buffer[..] == old(buffer[..]) && pendingColumn == old(pendingColumn)
      ensures dialect == LaunchpadPro ==> (ok <==> BarFits(x, value, clear))
      ensures dialect == LaunchpadPro ==> buffer[..] == PaintBar(old(buffer[..]), value, x, Solid(color), clear)
      ensures dialect == LaunchpadPro ==>
        pendingColumn == if ok then old(pendingColumn) | MaskBit(x) else old(pendingColumn)
    {
      if dialect == Generic {
        return true;
      }
      ok := PaintBarX(value, x, Solid(color), clear);
    }

    /** DrawBarX(value, x, clear): the same bar coloured with the palette ramp. */
    method DrawRampBarX(value: byte, x: byte, clear: bool) returns (ok: bool)
      requires Valid()
      modifies this`pendingColumn, buffer
      ensures Valid()
      ensures dialect == Generic ==> ok && buffer[..] == old(buffer[..]) && pendingColumn == old(pendingColumn)
      ensures dialect == LaunchpadPro ==> (ok <==> BarFits(x, value, clear))
      ensures dialect == LaunchpadPro ==> buffer[..] == PaintBar(old(buffer[..]), value, x, Ramp, clear)
      ensures dialect == LaunchpadPro ==>
        pendingColumn == if ok then old(pendingColumn) | MaskBit(x) else old(pendingColumn)
    {
      if dialect == Generic {
        return true;
      }
      ok := PaintBarX(value, x, Ramp, clear);
    }

    /** Update as written: one set-column frame per pending column, ascending; neither the
        mirror nor the mask is changed, so the same frames go out again on the next call. */
    method Update()
      requires Valid() && (dialect == LaunchpadPro ==> CanSend())
      modifies columnFrame, this`sent
      ensures Valid() && pendingColumn == old(pendingColumn)
      ensures dialect == Generic ==> sent == old(sent)
      ensures dialect == LaunchpadPro ==> sent == old(sent) + Flushes(buffer[..], pendingColumn)
    {
      if dialect == Generic {
        return;
      }
      var i := 0;
      while i < 10
        invariant 0 <= i <= 10
        invariant Valid() && CanSend()
        invariant sent == old(sent) + FlushUpTo(buffer[..], pendingColumn, i)
      {
        ColumnBitsAreShifts(i);
        if pendingColumn & ((1 as bv16) << i) != 0 {
          var _ := SendColumnFixed(i);
        }
        i := i + 1;
      }
    }

    /** Update as the batching design intends: flush the pending columns, then clear their bits,
        so a second call with no draw in between sends nothing. */
    method UpdateClearing()
      requires Valid() && (dialect == LaunchpadPro ==> CanSend())
      modifies columnFrame, this`sent, this`pendingColumn
      ensures Valid()
      ensures dialect == Generic ==> sent == old(sent) && pendingColumn == old(pendingColumn)
      ensures dialect == LaunchpadPro ==> sent == old(sent) + Flushes(buffer[..], old(pendingColumn))
      ensures dialect == LaunchpadPro ==> forall c :: 0 <= c <= 9 ==> !Pending(pendingColumn, c)
    {
      Update();
      if dialect == LaunchpadPro {
        pendingColumn := pendingColumn & 0xFC00;
        forall c | 0 <= c <= 9 ensures !Pending(pendingColumn, c) {
          LowBitsCleared(old(pendingColumn), c);
        }
      }
    }

    /** One draw call of a tracker, dispatched to the overload it names. */
    method Apply(call: DrawCall) returns (ok: bool)
      requires Valid() && (dialect == LaunchpadPro ==> CanSend())
      modifies drawFrame, buffer, this`sent, this`pendingColumn
      ensures Valid()
      ensures dialect == Generic ==> ok && sent == old(sent) && buffer[..] == old(buffer[..]) && pendingColumn == old(pendingColumn)
      ensures dialect == LaunchpadPro ==> State() == CallEffect(old(State()), call) && ok == CallFits(call)
    {
      match call
      case Pixel(x, y, color) =>
        ok := Draw(x, y, color);
      case Bar(value, x, color, clear) =>
        ok := DrawBarX(value, x, color, clear);
      case RampBar(value, x, clear) =>
        ok := DrawRampBarX(value, x, clear);
    }

    ghost function State(): Mirror
      reads this, buffer
    {
      Mirror(buffer[..], pendingColumn, sent)
    }

    /** A tracker's Display against this device: its draw calls in order, stopping at the first
        that throws; the tracker's own exception comes only after all of its calls. On a generic
        device every draw call is a no-op. */
    method Render(r: Rendering) returns (outcome: Outcome)
      requires Valid() && (dialect == LaunchpadPro ==> CanSend())
      modifies drawFrame, buffer, this`sent, this`pendingColumn
      ensures Valid()
      ensures dialect == Generic ==>
        sent == old(sent) && buffer[..] == old(buffer[..]) && pendingColumn == old(pendingColumn) &&
        outcome == if r.fault.Some? then Thrown(r.fault.value) else Done
      ensures dialect == LaunchpadPro ==>
        State() == Replay(old(State()), r.calls).0 &&
        outcome == if Replay(old(State()), r.calls).1.Thrown? then Replay(old(State()), r.calls).1
                   else if r.fault.Some? then Thrown(r.fault.value) else Done
    {
      if dialect == Generic {
        return if r.fault.Some? then Thrown(r.fault.value) else Done;
      }
      var ok := ReplayCalls(r.calls);
      outcome := if !ok then Thrown(IndexOutOfRange) else if r.fault.Some? then Thrown(r.fault.value) else Done;
    }

    method ReplayCalls(calls: seq<DrawCall>) returns (ok: bool)
      requires Valid() && dialect == LaunchpadPro && CanSend()
      modifies drawFrame, buffer, this`sent, this`pendingColumn
      ensures Valid()
      ensures State() == Replay(old(State()), calls).0
      ensures ok <==> Replay(old(State()), calls).1 == Done
    {
      var i := 0;
      while i < |calls|
        invariant 0 <= i <= |calls|
        invariant Valid() && CanSend()
        invariant Replay(old(State()), calls) == Replay(State(), calls[i..])
      {
        ghost var before := State();
        ok := Apply(calls[i]);
        ReplayStep(before, State(), calls, i, ok);
        if !ok {
          return;
        }
        i := i + 1;
      }
      ok := true;
    }
  }

  // -----------------------------------------------------------------------------------
  // Proof helpers for the driver

  /** One step of ReplayCalls: the remaining calls from the new state replay the same. */
  lemma ReplayStep(before: Mirror, after: Mirror, calls: seq<DrawCall>, i: nat, ok: bool)
    requires |before.buffer| == GridCells && i < |calls|
    requires after == CallEffect(before, calls[i]) && ok == CallFits(calls[i])
    ensures ok ==> Replay(before, calls[i..]) == Replay(after, calls[i + 1..])
    ensures !ok ==> Replay(before, calls[i..]) == (after, Thrown(IndexOutOfRange))
  {
    assert calls[i..][0] == calls[i];
    assert calls[i..][1..] == calls[i + 1..];
  }

  /** Row i of a bar in column x lands on BarIndex(x, i), and on no other row's index. */
  lemma BarRowOfIndex(x: byte, i: int)
    requires 1 <= i <= 8
    ensures BarRowOf(x, BarIndex(x, i)) == i
    ensures forall c :: 0 <= c < 256 && BarRowOf(x, c) == i ==> c == BarIndex(x, i)
  {
    var b := BarIndex(x, i);
    assert (b - x as int) % 256 == i * 10;
    forall c | 0 <= c < 256 && BarRowOf(x, c) == i ensures c == b {
      var d := (c - x as int) % 256;
      assert d == i * 10;
    }
  }

  /** Handling row i inside the buffer rewrites its one cell. */
  lemma PartialBarStep(buf: seq<byte>, value: byte, x: byte, paint: Paint, clear: bool, i: int)
    requires |buf| == GridCells && 1 <= i < FirstBadRow(x)
    ensures BarIndex(x, i) < GridCells
    ensures PartialBar(buf, value, x, paint, clear, i)[BarIndex(x, i)] == buf[BarIndex(x, i)]
    ensures PartialBar(buf, value, x, paint, clear, i + 1) ==
      PartialBar(buf, value, x, paint, clear, i)[BarIndex(x, i) := BarCell(paint, value, i, clear, buf[BarIndex(x, i)])]
  {
    BarRowOfIndex(x, i);
  }

  /** Without clearing, a row above the bar's height is left alone. */
  lemma PartialBarSkip(buf: seq<byte>, value: byte, x: byte, paint: Paint, clear: bool, i: int)
    requires |buf| == GridCells && 1 <= i <= 8 && !clear && value < i
    ensures PartialBar(buf, value, x, paint, clear, i + 1) == PartialBar(buf, value, x, paint, clear, i)
  {
  }

  /** Once the first row outside the buffer is reached, no later row changes anything. */
  lemma PartialBarStops(buf: seq<byte>, value: byte, x: byte, paint: Paint, clear: bool, i: int)
    requires |buf| == GridCells && 1 <= i <= 9 && FirstBadRow(x) <= i
    ensures PartialBar(buf, value, x, paint, clear, i) == PaintBar(buf, value, x, paint, clear)
  {
  }

  /** When rows 1..i all lie inside the buffer, the first row outside it comes later. */
  lemma BarRowsGood(x: byte, i: int)
    requires 1 <= i <= 8
    requires forall j :: 1 <= j <= i ==> BarIndex(x, j) < GridCells
    ensures i < FirstBadRow(x)
  {
  }

  /** When row i is the first one outside the buffer, FirstBadRow reports it. */
  lemma BarRowsBelow(x: byte, i: int)
    requires 1 <= i <= 8 && i <= FirstBadRow(x) && BarIndex(x, i) >= GridCells
    ensures FirstBadRow(x) == i
  {
  }

  lemma LowBitsCleared(mask: bv16, c: nat)
    requires c <= 9
    ensures !Pending(mask & 0xFC00, c)
  {
  }
}
