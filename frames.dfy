/** The Launchpad Pro's wire format: MIDI 1.0 System Exclusive frames
    `F0 <Novation id 00 20 29> <product 02 10> <command> <payload> F7`
    and the three-byte Note On message used for a single pad. */
module Frames {
  import opened Primitives

  const SysExStart: byte := 0xF0
  const SysExEnd: byte := 0xF7
  /** Start marker, Novation manufacturer id and the Launchpad Pro product id. */
  const Header: seq<byte> := [SysExStart, 0x00, 0x20, 0x29, 0x02, 0x10]
  /** Status byte of a Note On message on channel 1. */
  const NoteOnStatus: byte := 0x90

  // Command bytes
  const CmdPads: byte := 0x0A
  const CmdPadsRgb: byte := 0x0B
  const CmdColumn: byte := 0x0C
  const CmdRow: byte := 0x0D
  const CmdClear: byte := 0x0E
  const CmdMode: byte := 0x21
  const CmdLayout: byte := 0x2C

  /** A frame: header, one command byte, the payload, the end marker. */
  function SysEx(command: byte, payload: seq<byte>): (f: seq<byte>)
    ensures |f| == |payload| + 8
    ensures f[..6] == Header && f[6] == command && f[|f| - 1] == SysExEnd
    ensures f[7..|f| - 1] == payload
  {
    Header + [command] + payload + [SysExEnd]
  }

  /** What a receiver reads back from a frame: its command and payload, if the framing is right. */
  function ParseSysEx(f: seq<byte>): Option<(byte, seq<byte>)>
  {
    if |f| >= 8 && f[..6] == Header && f[|f| - 1] == SysExEnd then Some((f[6], f[7..|f| - 1]))
    else None
  }

  lemma ParseSysExInvertsSysEx(command: byte, payload: seq<byte>)
    ensures ParseSysEx(SysEx(command, payload)) == Some((command, payload))
  {
  }

  lemma SysExInvertsParseSysEx(f: seq<byte>)
    requires ParseSysEx(f).Some?
    ensures SysEx(ParseSysEx(f).value.0, ParseSysEx(f).value.1) == f
  {
    var g := SysEx(f[6], f[7..|f| - 1]);
    assert |g| == |f|;
    forall k | 0 <= k < |f| ensures g[k] == f[k] {
      if k < 6 {
        assert g[k] == g[..6][k] && f[k] == f[..6][k];
      } else if 7 <= k < |f| - 1 {
        assert g[k] == g[7..|g| - 1][k - 7];
      }
    }
  }

  /** `Set to Ableton mode`, `Session layout` and `clear all pads`, each with a zero argument. */
  const ModeFrame: seq<byte> := SysEx(CmdMode, [0])
  const LayoutFrame: seq<byte> := SysEx(CmdLayout, [0])
  const ClearFrame: seq<byte> := SysEx(CmdClear, [0])

  /** The pad index of grid cell (x, y), computed in `byte` arithmetic as the driver does. */
  function CellIndex(x: byte, y: byte): (i: byte)
    ensures x <= 9 && y <= 9 ==> i == x + 10 * y && i < 100
  {
    ToByte(x as int + y as int * 10)
  }

  /** Note On for one pad: the colour is the velocity. */
  function NoteOn(index: byte, color: byte): (f: seq<byte>)
    ensures |f| == 3 && f[0] == 144 && f[1] == index && f[2] == color
  {
    [NoteOnStatus, index, color]
  }

  function Zeros(n: nat): (z: seq<byte>)
    ensures |z| == n && forall k :: 0 <= k < n ==> z[k] == 0
  {
    seq(n, _ => 0)
  }

  /** Set-column frame: column number, then the colours bottom to top. */
  function ColumnFrame(col: byte, colors: seq<byte>): (f: seq<byte>)
    ensures |f| == |colors| + 9
    ensures f[..6] == Header && f[6] == CmdColumn && f[7] == col && f[|f| - 1] == SysExEnd
    ensures forall k :: 0 <= k < |colors| ==> f[8 + k] == colors[k]
  {
    SysEx(CmdColumn, [col] + colors)
  }

  /** A 19-byte set-column frame buffer whose header, column byte and cells are in place is
      that column's frame. */
  lemma ColumnFrameFromCells(f: seq<byte>, col: byte, cells: seq<byte>)
    requires |f| == 19 && |cells| == 10
    requires f[..7] == Header + [CmdColumn] && f[7] == col && f[18] == SysExEnd
    requires forall k :: 0 <= k < 10 ==> f[8 + k] == cells[k]
    ensures f == ColumnFrame(col, cells)
  {
    var g := ColumnFrame(col, cells);
    forall k | 0 <= k < 7 ensures f[k] == g[k] {
      assert f[k] == f[..7][k];
      if k < 6 {
        assert g[k] == g[..6][k];
      }
    }
  }

  /** Set-row frame as the driver allocates it: `2 * |colors| + 9` bytes, so the colours are
      followed by as many zero bytes before the end marker. */
  function RowFrame(row: byte, colors: seq<byte>): (f: seq<byte>)
    ensures |f| == 2 * |colors| + 9
    ensures f[..6] == Header && f[6] == CmdRow && f[7] == row && f[|f| - 1] == SysExEnd
    ensures forall k :: 0 <= k < |colors| ==> f[8 + k] == colors[k] && f[8 + |colors| + k] == 0
  {
    SysEx(CmdRow, [row] + colors + Zeros(|colors|))
  }

  /** The range checks shared by SendColumn and SendRow, in the order the driver makes them. */
  function LineCheck(line: byte, count: nat): (fault: Option<Fault>)
    ensures fault.None? <==> line <= 9 && 1 <= count <= 10
    ensures line > 9 ==> fault == Some(ArgumentOutOfRange)
    ensures line <= 9 && fault.Some? ==> fault == Some(ArgumentError)
  {
    if line > 9 then Some(ArgumentOutOfRange)
    else if count == 0 then Some(ArgumentError)
    else if count > 10 then Some(ArgumentError)
    else None
  }

  // ---------------------------------------------------------------------------------------
  // Multi-pad frames. The entry format is chosen by the length of the FIRST entry only.

  /** Entries are `[index, color]` when the first entry has two bytes, `[x, y, color]` otherwise. */
  function PadWidth(data: seq<seq<byte>>): nat
    requires |data| > 0
  {
    if |data[0]| == 2 then 2 else 3
  }

  /** Every entry has the bytes the chosen format reads; otherwise the driver indexes past an entry. */
  predicate PadsFit(data: seq<seq<byte>>)
  {
    |data| > 0 && forall i :: 0 <= i < |data| ==> |data[i]| >= PadWidth(data)
  }

  /** The (index, color) pair of one entry. */
  function PadEntry(e: seq<byte>, width: nat): (p: seq<byte>)
    requires width == 2 || width == 3
    requires |e| >= width
    ensures |p| == 2
  {
    if width == 2 then [e[0], e[1]] else [ToByte(e[0] as int + e[1] as int * 10), e[2]]
  }

  function PadPayload(data: seq<seq<byte>>, width: nat): (p: seq<byte>)
    requires width == 2 || width == 3
    requires forall i :: 0 <= i < |data| ==> |data[i]| >= width
    ensures |p| == 2 * |data|
  {
    if data == [] then []
    else PadPayload(data[..|data| - 1], width) + PadEntry(data[|data| - 1], width)
  }

  function PadFrame(data: seq<seq<byte>>): (f: seq<byte>)
    requires PadsFit(data)
  {
    SysEx(CmdPads, PadPayload(data, PadWidth(data)))
  }

  lemma {:induction false} PadPayloadAt(data: seq<seq<byte>>, width: nat, i: nat)
    requires width == 2 || width == 3
    requires forall j :: 0 <= j < |data| ==> |data[j]| >= width
    requires i < |data|
    ensures PadPayload(data, width)[2 * i] == PadEntry(data[i], width)[0]
    ensures PadPayload(data, width)[2 * i + 1] == PadEntry(data[i], width)[1]
  {
    var front := data[..|data| - 1];
    if i < |data| - 1 {
      PadPayloadAt(front, width, i);
    }
  }

  /** The layout of a multi-pad frame: `2n + 8` bytes, command 0x0A, pair i at 7 + 2i and 8 + 2i. */
  lemma PadFrameLayout(data: seq<seq<byte>>, i: nat)
    requires PadsFit(data) && i < |data|
    ensures |PadFrame(data)| == 2 * |data| + 8
    ensures PadFrame(data)[6] == CmdPads && PadFrame(data)[|PadFrame(data)| - 1] == SysExEnd
    ensures PadWidth(data) == 2 ==>
      PadFrame(data)[7 + 2 * i] == data[i][0] && PadFrame(data)[8 + 2 * i] == data[i][1]
    ensures PadWidth(data) == 3 ==>
      PadFrame(data)[7 + 2 * i] == CellIndex(data[i][0], data[i][1]) && PadFrame(data)[8 + 2 * i] == data[i][2]
  {
    var w := PadWidth(data);
    var f := PadFrame(data);
    PadPayloadAt(data, w, i);
    assert f[7 + 2 * i] == f[7..|f| - 1][2 * i];
    assert f[8 + 2 * i] == f[7..|f| - 1][2 * i + 1];
  }

  /** Entries are `[index, r, g, b]` when the first entry has four bytes, `[x, y, r, g, b]` otherwise.
      The device's colour channels go up to 99, not 255; the driver does not clamp them. */
  function RgbWidth(data: seq<seq<byte>>): nat
    requires |data| > 0
  {
    if |data[0]| == 4 then 4 else 5
  }

  predicate RgbFit(data: seq<seq<byte>>)
  {
    |data| > 0 && forall i :: 0 <= i < |data| ==> |data[i]| >= RgbWidth(data)
  }

  function RgbEntry(e: seq<byte>, width: nat): (p: seq<byte>)
    requires width == 4 || width == 5
    requires |e| >= width
    ensures |p| == 4
  {
    if width == 4 then [e[0], e[1], e[2], e[3]] else [ToByte(e[0] as int + e[1] as int * 10), e[2], e[3], e[4]]
  }

  function RgbPayload(data: seq<seq<byte>>, width: nat): (p: seq<byte>)
    requires width == 4 || width == 5
    requires forall i :: 0 <= i < |data| ==> |data[i]| >= width
    ensures |p| == 4 * |data|
  {
    if data == [] then []
    else RgbPayload(data[..|data| - 1], width) + RgbEntry(data[|data| - 1], width)
  }

  function RgbFrame(data: seq<seq<byte>>): (f: seq<byte>)
    requires RgbFit(data)
  {
    SysEx(CmdPadsRgb, RgbPayload(data, RgbWidth(data)))
  }

  lemma {:induction false} RgbPayloadAt(data: seq<seq<byte>>, width: nat, i: nat, k: nat)
    requires width == 4 || width == 5
    requires forall j :: 0 <= j < |data| ==> |data[j]| >= width
    requires i < |data| && k < 4
    ensures RgbPayload(data, width)[4 * i + k] == RgbEntry(data[i], width)[k]
  {
    var front := data[..|data| - 1];
    if i < |data| - 1 {
      RgbPayloadAt(front, width, i, k);
    }
  }

  /** The layout of an RGB frame: `4n + 8` bytes, command 0x0B, entry i from 7 + 4i. */
  lemma RgbFrameLayout(data: seq<seq<byte>>, i: nat)
    requires RgbFit(data) && i < |data|
    ensures |RgbFrame(data)| == 4 * |data| + 8
    ensures RgbFrame(data)[6] == CmdPadsRgb
    ensures RgbWidth(data) == 4 ==>
      RgbFrame(data)[7 + 4 * i .. 11 + 4 * i] == data[i][..4]
    ensures RgbWidth(data) == 5 ==>
      RgbFrame(data)[7 + 4 * i .. 11 + 4 * i] == [CellIndex(data[i][0], data[i][1])] + data[i][2..5]
  {
    var w := RgbWidth(data);
    var f := RgbFrame(data);
    var p := RgbPayload(data, w);
    assert f[7..|f| - 1] == p;
    forall k | 0 <= k < 4 ensures f[7 + 4 * i + k] == RgbEntry(data[i], w)[k] {
      RgbPayloadAt(data, w, i, k);
      assert f[7 + 4 * i + k] == f[7..|f| - 1][4 * i + k];
    }
    assert f[7 + 4 * i .. 11 + 4 * i] == RgbEntry(data[i], w);
  }

  // ---------------------------------------------------------------------------------------
  // Frame construction into a freshly allocated array, as the driver's Send and SendRgb do.

  /** `f` starts with the SysEx header and command `cmd` and ends with the end marker. */
  predicate Framed(f: seq<byte>, cmd: byte)
  {
    |f| >= 8 && f[0] == 0xF0 && f[1] == 0x00 && f[2] == 0x20 && f[3] == 0x29 && f[4] == 0x02 &&
    f[5] == 0x10 && f[6] == cmd && f[|f| - 1] == SysExEnd
  }

  /** The two bytes of `e` sit in `f` from position `at`. */
  predicate PairAt(f: seq<byte>, at: nat, e: seq<byte>)
    requires |e| == 2 && at + 2 <= |f|
  {
    f[at] == e[0] && f[at + 1] == e[1]
  }

  /** A payload that holds each pad entry in its place is the multi-pad payload. */
  lemma {:induction false} PadPayloadFromEntries(data: seq<seq<byte>>, width: nat, p: seq<byte>)
    requires width == 2 || width == 3
    requires forall j :: 0 <= j < |data| ==> |data[j]| >= width
    requires |p| == 2 * |data|
    requires forall j :: 0 <= j < |data| ==> PairAt(p, 2 * j, PadEntry(data[j], width))
    ensures p == PadPayload(data, width)
  {
    if data != [] {
      var n := |data| - 1;
      var front := p[..2 * n];
      PadEntriesPrefix(data, width, p, n);
      PadPayloadFromEntries(data[..n], width, front);
      PadPayloadSnoc(data, width, p);
    }
  }

  /** The entries of a prefix of the data sit in the same prefix of the payload. */
  lemma PadEntriesPrefix(data: seq<seq<byte>>, width: nat, p: seq<byte>, n: nat)
    requires width == 2 || width == 3
    requires forall j :: 0 <= j < |data| ==> |data[j]| >= width
    requires n <= |data| && |p| == 2 * |data|
    requires forall j :: 0 <= j < |data| ==> PairAt(p, 2 * j, PadEntry(data[j], width))
    ensures forall j :: 0 <= j < n ==> PairAt(p[..2 * n], 2 * j, PadEntry(data[..n][j], width))
  {
    forall j | 0 <= j < n ensures PairAt(p[..2 * n], 2 * j, PadEntry(data[..n][j], width)) {
      assert data[..n][j] == data[j];
      assert PairAt(p, 2 * j, PadEntry(data[j], width));
    }
  }

  /** A payload whose front is the payload of all but the last entry, followed by that entry,
      is the payload of all of them. */
  lemma PadPayloadSnoc(data: seq<seq<byte>>, width: nat, p: seq<byte>)
    requires width == 2 || width == 3
    requires forall j :: 0 <= j < |data| ==> |data[j]| >= width
    requires |data| > 0 && |p| == 2 * |data|
    requires p[..2 * (|data| - 1)] == PadPayload(data[..|data| - 1], width)
    requires PairAt(p, 2 * (|data| - 1), PadEntry(data[|data| - 1], width))
    ensures p == PadPayload(data, width)
  {
    var n := |data| - 1;
    PairSlice(p, 2 * n, PadEntry(data[n], width));
    assert p == p[..2 * n] + p[2 * n..2 * n + 2];
  }

  lemma PairSlice(p: seq<byte>, at: nat, e: seq<byte>)
    requires |e| == 2 && at + 2 <= |p| && PairAt(p, at, e)
    ensures p[at..at + 2] == e
  {
  }

  /** An entry of the frame's payload, seen from the payload. */
  lemma RgbInside(f: seq<byte>, at: nat, e: seq<byte>)
    requires |e| == 4 && |f| >= 8 && 7 + at + 4 <= |f| - 1 && RgbAt(f, 7 + at, e)
    ensures RgbAt(f[7..|f| - 1], at, e)
  {
    var p := f[7..|f| - 1];
    assert p[at] == f[7 + at] && p[at + 1] == f[8 + at] && p[at + 2] == f[9 + at] && p[at + 3] == f[10 + at];
  }

  lemma PairInside(f: seq<byte>, at: nat, e: seq<byte>)
    requires |e| == 2 && |f| >= 8 && 7 + at + 2 <= |f| - 1 && PairAt(f, 7 + at, e)
    ensures PairAt(f[7..|f| - 1], at, e)
  {
    var p := f[7..|f| - 1];
    assert p[at] == f[7 + at] && p[at + 1] == f[8 + at];
  }

  /** A framed buffer is the frame of its payload. */
  lemma FramedSplit(f: seq<byte>, cmd: byte)
    requires Framed(f, cmd)
    ensures f == SysEx(cmd, f[7..|f| - 1])
  {
    assert f[..6] == Header;
    assert f == f[..6] + [f[6]] + f[7..|f| - 1] + [f[|f| - 1]];
  }

  /** A buffer that holds a framed multi-pad payload entry by entry is that frame. */
  lemma PadFrameFromEntries(data: seq<seq<byte>>, f: seq<byte>)
    requires PadsFit(data)
    requires |f| == 2 * |data| + 8 && Framed(f, CmdPads)
    requires forall j :: 0 <= j < |data| ==> PairAt(f, 7 + 2 * j, PadEntry(data[j], PadWidth(data)))
    ensures f == PadFrame(data)
  {
    var w := PadWidth(data);
    var p := f[7..|f| - 1];
    forall j | 0 <= j < |data| ensures PairAt(p, 2 * j, PadEntry(data[j], w)) {
      PairInside(f, 2 * j, PadEntry(data[j], w));
    }
    PadPayloadFromEntries(data, w, p);
    FramedSplit(f, CmdPads);
  }

  /** Allocates an n-byte frame and writes the header, the command and the end marker. */
  method NewFrame(n: nat, cmd: byte) returns (a: array<byte>)
    requires n >= 8
    ensures fresh(a) && a.Length == n && Framed(a[..], cmd)
  {
    a := new byte[n];
    a[0], a[1], a[2], a[3] := 0xF0, 0x00, 0x20, 0x29;
    a[4], a[5], a[6] := 0x02, 0x10, cmd;
    a[n - 1] := SysExEnd;
  }

  /** Writes the two bytes of one pad entry into the frame under construction. */
  method PutPair(a: array<byte>, at: nat, e: seq<byte>)
    requires |e| == 2 && at + 2 <= a.Length
    modifies a
    ensures forall k :: 0 <= k < a.Length && !(at <= k < at + 2) ==> a[k] == old(a[k])
    ensures PairAt(a[..], at, e)
  {
    a[at], a[at + 1] := e[0], e[1];
  }

  /** Send(byte[][]): allocate `2n + 8` bytes, write the header and end marker, then the pairs. */
  method BuildPadFrame(data: seq<seq<byte>>) returns (r: Result<seq<byte>>)
    ensures r.Success? <==> PadsFit(data)
    ensures r.Failure? ==> r.fault == IndexOutOfRange
    ensures r.Success? ==> r.value == PadFrame(data)
  {
    var sendData := NewFrame(|data| * 2 + 8, CmdPads);
    if |data| == 0 {
      return Failure(IndexOutOfRange);
    }
    var width := if |data[0]| == 2 then 2 else 3;
    var i := 0;
    while i < |data|
      invariant 0 <= i <= |data|
      invariant forall j :: 0 <= j < i ==> |data[j]| >= width
      invariant Framed(sendData[..], CmdPads)
      invariant forall j :: 0 <= j < i ==> PairAt(sendData[..], 7 + 2 * j, PadEntry(data[j], width))
    {
      if |data[i]| < width {
        return Failure(IndexOutOfRange);
      }
      ghost var before := sendData[..];
      PutPair(sendData, 7 + 2 * i, PadEntry(data[i], width));
      assert Framed(before, CmdPads);
      forall j | 0 <= j < i ensures PairAt(sendData[..], 7 + 2 * j, PadEntry(data[j], width)) {
        assert PairAt(before, 7 + 2 * j, PadEntry(data[j], width));
      }
      i := i + 1;
    }
    PadFrameFromEntries(data, sendData[..]);
    r := Success(sendData[..]);
  }

  /** The four bytes of `e` sit in `f` from position `at`. */
  predicate RgbAt(f: seq<byte>, at: nat, e: seq<byte>)
    requires |e| == 4 && at + 4 <= |f|
  {
    f[at] == e[0] && f[at + 1] == e[1] && f[at + 2] == e[2] && f[at + 3] == e[3]
  }

  lemma {:induction false} RgbPayloadFromEntries(data: seq<seq<byte>>, width: nat, p: seq<byte>)
    requires width == 4 || width == 5
    requires forall j :: 0 <= j < |data| ==> |data[j]| >= width
    requires |p| == 4 * |data|
    requires forall j :: 0 <= j < |data| ==> RgbAt(p, 4 * j, RgbEntry(data[j], width))
    ensures p == RgbPayload(data, width)
  {
    if data != [] {
      var n := |data| - 1;
      var front := p[..4 * n];
      RgbEntriesPrefix(data, width, p, n);
      RgbPayloadFromEntries(data[..n], width, front);
      RgbPayloadSnoc(data, width, p);
    }
  }

  /** The entries of a prefix of the data sit in the same prefix of the payload. */
  lemma RgbEntriesPrefix(data: seq<seq<byte>>, width: nat, p: seq<byte>, n: nat)
    requires width == 4 || width == 5
    requires forall j :: 0 <= j < |data| ==> |data[j]| >= width
    requires n <= |data| && |p| == 4 * |data|
    requires forall j :: 0 <= j < |data| ==> RgbAt(p, 4 * j, RgbEntry(data[j], width))
    ensures forall j :: 0 <= j < n ==> RgbAt(p[..4 * n], 4 * j, RgbEntry(data[..n][j], width))
  {
    forall j | 0 <= j < n ensures RgbAt(p[..4 * n], 4 * j, RgbEntry(data[..n][j], width)) {
      assert data[..n][j] == data[j];
      assert RgbAt(p, 4 * j, RgbEntry(data[j], width));
    }
  }

  /** A payload whose front is the payload of all but the last entry, followed by that entry,
      is the payload of all of them. */
  lemma RgbPayloadSnoc(data: seq<seq<byte>>, width: nat, p: seq<byte>)
    requires width == 4 || width == 5
    requires forall j :: 0 <= j < |data| ==> |data[j]| >= width
    requires |data| > 0 && |p| == 4 * |data|
    requires p[..4 * (|data| - 1)] == RgbPayload(data[..|data| - 1], width)
    requires RgbAt(p, 4 * (|data| - 1), RgbEntry(data[|data| - 1], width))
    ensures p == RgbPayload(data, width)
  {
    var n := |data| - 1;
    QuadSlice(p, 4 * n, RgbEntry(data[n], width));
    assert p == p[..4 * n] + p[4 * n..4 * n + 4];
  }

  lemma QuadSlice(p: seq<byte>, at: nat, e: seq<byte>)
    requires |e| == 4 && at + 4 <= |p| && RgbAt(p, at, e)
    ensures p[at..at + 4] == e
  {
  }

  /** A buffer that holds a framed RGB payload entry by entry is that frame. */
  lemma RgbFrameFromEntries(data: seq<seq<byte>>, f: seq<byte>)
    requires RgbFit(data)
    requires |f| == 4 * |data| + 8 && Framed(f, CmdPadsRgb)
    requires forall j :: 0 <= j < |data| ==> RgbAt(f, 7 + 4 * j, RgbEntry(data[j], RgbWidth(data)))
    ensures f == RgbFrame(data)
  {
    var w := RgbWidth(data);
    var p := f[7..|f| - 1];
    forall j | 0 <= j < |data| ensures RgbAt(p, 4 * j, RgbEntry(data[j], w)) {
      RgbInside(f, 4 * j, RgbEntry(data[j], w));
    }
    RgbPayloadFromEntries(data, w, p);
    FramedSplit(f, CmdPadsRgb);
  }

  /** Writes the four bytes of one RGB entry into the frame under construction. */
  method PutRgbEntry(a: array<byte>, at: nat, e: seq<byte>)
    requires |e| == 4 && at + 4 <= a.Length
    modifies a
    ensures forall k :: 0 <= k < a.Length && !(at <= k < at + 4) ==> a[k] == old(a[k])
    ensures RgbAt(a[..], at, e)
  {
    a[at], a[at + 1], a[at + 2], a[at + 3] := e[0], e[1], e[2], e[3];
  }

  /** SendRgb(byte[][]): allocate `4n + 8` bytes, write the header and end marker, then the entries. */
  method BuildRgbFrame(data: seq<seq<byte>>) returns (r: Result<seq<byte>>)
    ensures r.Success? <==> RgbFit(data)
    ensures r.Failure? ==> r.fault == IndexOutOfRange
    ensures r.Success? ==> r.value == RgbFrame(data)
  {
    var sendData := NewFrame(|data| * 4 + 8, CmdPadsRgb);
    if |data| == 0 {
      return Failure(IndexOutOfRange);
    }
    var width := if |data[0]| == 4 then 4 else 5;
    var i := 0;
    while i < |data|
      invariant 0 <= i <= |data|
      invariant forall j :: 0 <= j < i ==> |data[j]| >= width
      invariant Framed(sendData[..], CmdPadsRgb)
      invariant forall j :: 0 <= j < i ==> RgbAt(sendData[..], 7 + 4 * j, RgbEntry(data[j], width))
    {
      if |data[i]| < width {
        return Failure(IndexOutOfRange);
      }
      ghost var before := sendData[..];
      PutRgbEntry(sendData, 7 + 4 * i, RgbEntry(data[i], width));
      assert Framed(before, CmdPadsRgb);
      forall j | 0 <= j < i ensures RgbAt(sendData[..], 7 + 4 * j, RgbEntry(data[j], width)) {
        assert RgbAt(before, 7 + 4 * j, RgbEntry(data[j], width));
      }
      i := i + 1;
    }
    RgbFrameFromEntries(data, sendData[..]);
    r := Success(sendData[..]);
  }
}
