/** What the Launchpad Pro driver's mirror buffer, dirty mask and flush promise, stated on
    the specification functions its methods are proved against. */
module DriverProperties {
  import opened Primitives
  import opened Frames
  import opened Devices

  /** A bar fits in the buffer exactly for columns 0..19 and, after byte wrap-around, 246..255. */
  lemma BarFitsExactly(x: byte)
    ensures FirstBadRow(x) == 9 <==> x <= 19 || x >= 246
  {
    if x <= 19 {
      forall j | 1 <= j <= 8 ensures BarIndex(x, j) < GridCells {
        assert BarIndex(x, j) == x as int + j * 10;
      }
    } else if x >= 246 {
      forall j | 1 <= j <= 8 ensures BarIndex(x, j) < GridCells {
        assert BarIndex(x, j) == x as int + j * 10 - 256;
      }
    } else {
      var j := if x <= 90 then 8 else 1;
      assert BarIndex(x, j) >= GridCells;
    }
    if FirstBadRow(x) <= 8 {
      assert BarIndex(x, FirstBadRow(x)) >= GridCells;
    }
  }

  /** DrawBarX with clearing completes exactly for columns 0..19 and 246..255. */
  lemma ClearingBarFits(x: byte, value: byte)
    ensures BarFits(x, value, true) <==> x <= 19 || x >= 246
  {
    BarFitsExactly(x);
  }

  /** Without clearing only rows up to `value` are written, so a zero-height layer completes
      for every column, and a layer completes whenever the clearing bar in that column does. */
  lemma LayerFits(x: byte, value: byte)
    ensures BarFits(x, 0, false)
    ensures BarFits(x, value, true) ==> BarFits(x, value, false)
  {
  }

  /** For a grid column x, cell c is row i of the bar exactly when c == x + 10 * i. */
  lemma BarRowOfGridColumn(x: byte, c: int)
    requires x <= 9 && 0 <= c < GridCells
    ensures 1 <= BarRowOf(x, c) <= 8 <==> c % 10 == x && 1 <= c / 10 <= 8
    ensures 1 <= BarRowOf(x, c) ==> BarRowOf(x, c) == c / 10
  {
    var d := (c - x as int) % 256;
    if c % 10 == x && 1 <= c / 10 <= 8 {
      assert c - x as int == 10 * (c / 10);
      assert d == 10 * (c / 10);
    }
    if 1 <= BarRowOf(x, c) {
      var i := BarRowOf(x, c);
      assert d == 10 * i;
      assert c == x as int + 10 * i;
    }
  }

  /** DrawBarX on a grid column x: rows 1..8 of column x get their bar value; rows 0 and 9
      of column x and every other column keep theirs. */
  lemma {:induction false} PaintBarColumn(buf: seq<byte>, value: byte, x: byte, paint: Paint, clear: bool)
    requires |buf| == GridCells && x <= 9
    ensures FirstBadRow(x) == 9
    ensures forall i :: 1 <= i <= 8 ==>
      PaintBar(buf, value, x, paint, clear)[x + 10 * i] == BarCell(paint, value, i, clear, buf[x + 10 * i])
    ensures forall c :: 0 <= c < GridCells && (c % 10 != x || c / 10 == 0 || c / 10 == 9) ==>
      PaintBar(buf, value, x, paint, clear)[c] == buf[c]
  {
    BarFitsExactly(x);
    var r := PaintBar(buf, value, x, paint, clear);
    forall i | 1 <= i <= 8
      ensures r[x + 10 * i] == BarCell(paint, value, i, clear, buf[x + 10 * i])
    {
      var c := x + 10 * i;
      assert c % 10 == x && c / 10 == i;
      BarRowOfGridColumn(x, c);
    }
    forall c | 0 <= c < GridCells && (c % 10 != x || c / 10 == 0 || c / 10 == 9)
      ensures r[c] == buf[c]
    {
      BarRowOfGridColumn(x, c);
    }
  }

  /** Without clearing, a bar only paints rows up to its height: a lower bar drawn over a
      higher one leaves the higher rows as they were (additive layering). */
  lemma LayeredBarKeepsHigherRows(buf: seq<byte>, value: byte, x: byte, paint: Paint, i: int)
    requires |buf| == GridCells && x <= 9 && value < i <= 8
    ensures PaintBar(buf, value, x, paint, false)[x + 10 * i] == buf[x + 10 * i]
  {
    PaintBarColumn(buf, value, x, paint, false);
  }

  /** The ramp runs from 35 on row 1 down to 7 on row 8, four steps per row. */
  lemma RampColors(i: int)
    requires 1 <= i <= 8
    ensures RowColor(Ramp, i) == 39 - 4 * i
    ensures i == 1 ==> RowColor(Ramp, i) == 35
    ensures i == 8 ==> RowColor(Ramp, i) == 7
  {
  }

  /** The TrueNAS aggregation bar: maximum in colour 7 with clearing, then average in 15 and
      minimum in 23 without. Row i ends up 23 up to the minimum, 15 up to the average, 7 up to
      the maximum and 0 above. */
  lemma ThreeLayerBar(buf: seq<byte>, max: byte, avg: byte, min: byte, x: byte)
    requires |buf| == GridCells && x <= 9
    ensures var b := PaintBar(PaintBar(PaintBar(buf, max, x, Solid(7), true), avg, x, Solid(15), false), min, x, Solid(23), false);
      forall i :: 1 <= i <= 8 ==>
        b[x + 10 * i] == if i <= min then 23 else if i <= avg then 15 else if i <= max then 7 else 0
  {
    var b1 := PaintBar(buf, max, x, Solid(7), true);
    var b2 := PaintBar(b1, avg, x, Solid(15), false);
    PaintBarColumn(buf, max, x, Solid(7), true);
    PaintBarColumn(b1, avg, x, Solid(15), false);
    PaintBarColumn(b2, min, x, Solid(23), false);
  }

  lemma PendingOr(a: bv16, b: bv16, c: nat)
    ensures Pending(a | b, c) <==> Pending(a, c) || Pending(b, c)
  {
    if c < 16 {
      var k := ColumnBits[c];
      OrMasked(a, b, k);
      PendingMasked(a | b, c, k);
      PendingMasked(a, c, k);
      PendingMasked(b, c, k);
    }
  }

  lemma PendingMasked(m: bv16, c: nat, k: bv16)
    requires c < 16 && k == ColumnBits[c]
    ensures Pending(m, c) == (m & k != 0)
  {
  }

  lemma OrMasked(a: bv16, b: bv16, k: bv16)
    ensures (a | b) & k != 0 <==> a & k != 0 || b & k != 0
  {
  }

  lemma MaskBitLow(x: byte)
    requires x < 16
    ensures MaskBit(x) == ColumnBits[x]
  {
    assert x % 32 == x;
  }

  lemma SingleBitsOverlap(x: nat, c: nat)
    requires x < 16 && c < 16
    ensures ((1 as bv16) << x) & ((1 as bv16) << c) != 0 <==> x == c
  {
  }

  lemma PendingBit(x: nat, c: nat)
    requires x < 16
    ensures Pending(ColumnBits[x], c) <==> x == c
  {
    if c < 16 {
      ColumnBitsAreShifts(x);
      ColumnBitsAreShifts(c);
      SingleBitsOverlap(x, c);
    }
  }

  /** DrawBarX on a grid column x marks column x pending and leaves every other bit as it was. */
  lemma MaskBitMarksColumn(mask: bv16, x: byte, c: nat)
    requires x <= 9
    ensures Pending(mask | MaskBit(x), c) <==> Pending(mask, c) || c == x
  {
    MaskBitLow(x);
    PendingOr(mask, MaskBit(x), c);
    PendingBit(x, c);
  }

  /** A bar drawn at column 10..19 fits in the buffer and paints rows 2..9 of column x - 10
      (cell x + 10 * i is row i + 1 of that column). */
  lemma {:induction false} StrayBar(buf: seq<byte>, value: byte, x: byte, paint: Paint)
    requires |buf| == GridCells && 10 <= x <= 19
    ensures FirstBadRow(x) == 9
    ensures forall i :: 1 <= i <= 8 ==>
      (x + 10 * i) % 10 == x - 10 &&
      PaintBar(buf, value, x, paint, true)[x + 10 * i] == BarCell(paint, value, i, true, buf[x + 10 * i])
  {
    BarFitsExactly(x);
    forall i | 1 <= i <= 8
      ensures (x + 10 * i) % 10 == x - 10
      ensures PaintBar(buf, value, x, paint, true)[x + 10 * i] == BarCell(paint, value, i, true, buf[x + 10 * i])
    {
      StrayRow(x, i);
      BarRowOfIndex(x, i);
    }
  }

  /** Row i of a bar at column 10..19 is cell x + 10 * i, in grid column x - 10. */
  lemma StrayRow(x: byte, i: int)
    requires 10 <= x <= 19 && 1 <= i <= 8
    ensures BarIndex(x, i) == x + 10 * i < GridCells
    ensures (x + 10 * i) % 10 == x - 10
  {
    assert x + 10 * i == (x - 10) + 10 * (i + 1);
  }

  /** ... yet it marks no grid column pending: those writes reach the device only with that
      column's next flush. */
  lemma StrayBarMarksNothing(mask: bv16, x: byte, c: nat)
    requires 10 <= x <= 19 && c <= 9
    ensures Pending(mask | MaskBit(x), c) <==> Pending(mask, c)
  {
    PendingOr(mask, MaskBit(x), c);
    if x < 16 {
      MaskBitLow(x);
      PendingBit(x, c);
    } else {
      assert x % 32 == x;
    }
  }

  // -----------------------------------------------------------------------------------
  // Flushing

  lemma {:induction false} FlushUpToGrows(buf: seq<byte>, mask: bv16, m: nat, n: nat, f: seq<byte>)
    requires |buf| == GridCells && m <= n <= 10 && f in FlushUpTo(buf, mask, m)
    ensures f in FlushUpTo(buf, mask, n)
  {
    if m < n {
      FlushUpToGrows(buf, mask, m, n - 1, f);
    }
  }

  /** Update sends column c's frame exactly when c's bit is set. */
  lemma FlushesExactlyPending(buf: seq<byte>, mask: bv16, c: nat)
    requires |buf| == GridCells && c <= 9
    ensures ColumnFrame(c, ColumnCells(buf, c)) in Flushes(buf, mask) <==> Pending(mask, c)
  {
    var f := ColumnFrame(c, ColumnCells(buf, c));
    if Pending(mask, c) {
      assert f in FlushUpTo(buf, mask, c + 1);
      FlushUpToGrows(buf, mask, c + 1, 10, f);
    } else {
      FlushUpToShape(buf, mask, 10);
    }
  }

  /** Every flushed frame is the 19-byte set-column frame of a pending column below n, and
      there are at most n of them. */
  lemma {:induction false} FlushUpToShape(buf: seq<byte>, mask: bv16, n: nat)
    requires |buf| == GridCells && n <= 10
    ensures |FlushUpTo(buf, mask, n)| <= n
    ensures forall f: seq<byte> :: f in FlushUpTo(buf, mask, n) ==>
      |f| == 19 && f[7] < n && Pending(mask, f[7] as nat) && f == ColumnFrame(f[7], ColumnCells(buf, f[7] as nat))
  {
    if n > 0 {
      FlushUpToShape(buf, mask, n - 1);
    }
  }

  /** With no grid column pending, Update sends nothing. */
  lemma {:induction false} FlushUpToNothingPending(buf: seq<byte>, mask: bv16, n: nat)
    requires |buf| == GridCells && n <= 10
    requires forall c :: 0 <= c < n ==> !Pending(mask, c)
    ensures FlushUpTo(buf, mask, n) == []
  {
    if n > 0 {
      FlushUpToNothingPending(buf, mask, n - 1);
    }
  }

  /** A flush after a bar drawn into an otherwise clean mask is exactly one set-column frame. */
  lemma {:induction false} FlushSingleColumn(buf: seq<byte>, x: byte)
    requires |buf| == GridCells && x <= 9
    ensures Flushes(buf, (0 as bv16) | MaskBit(x)) == [ColumnFrame(x, ColumnCells(buf, x))]
  {
    var m := (0 as bv16) | MaskBit(x);
    forall c | 0 <= c < 16 ensures Pending(m, c) <==> c == x {
      MaskBitMarksColumn(0, x, c);
    }
    FlushUpToNothingPending(buf, m, x);
    assert FlushUpTo(buf, m, x + 1) == [ColumnFrame(x, ColumnCells(buf, x))];
    var n := x + 1;
    while n < 10
      invariant x + 1 <= n <= 10
      invariant FlushUpTo(buf, m, n) == [ColumnFrame(x, ColumnCells(buf, x))]
    {
      n := n + 1;
    }
  }

  /** The row overload as written scales the row before SendRow(row, colors) range-checks it:
      for rows 1..9 the ten cells read lie inside the buffer, yet the check rejects the scaled
      row, where the row itself would pass. */
  lemma BufferRowRejected(row: byte)
    requires 1 <= row <= 9
    ensures ToByte(row * 10) + 9 < GridCells
    ensures LineCheck(ToByte(row * 10), 10) == Some(ArgumentOutOfRange)
    ensures LineCheck(row, 10).None?
  {
  }
}
