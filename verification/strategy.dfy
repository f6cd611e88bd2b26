/**
 * Signal generation of the moving-average crossover strategy. Each input row
 * carries the fast and slow moving averages (None where the average is not
 * yet defined), the close and the row's timestamp.
 */
module Strategy {
  import opened Types

  datatype Bar = Bar(fastMa: Option<real>, slowMa: Option<real>, close: real, time: int)

  /**
   * The state after scanning a prefix of the rows: the signals emitted so
   * far, the row each of them was emitted at, and the tracked position.
   */
  datatype Scan = Scan(signals: seq<Signal>, rows: seq<nat>, position: Position)

  /** All four averages of a pair of consecutive rows are defined. */
  predicate Complete(prev: Bar, cur: Bar)
  {
    prev.fastMa.Some? && prev.slowMa.Some? && cur.fastMa.Some? && cur.slowMa.Some?
  }

  /** Fast was at or below slow and is now strictly above it. */
  predicate Bullish(prev: Bar, cur: Bar)
    requires Complete(prev, cur)
  {
    prev.fastMa.value <= prev.slowMa.value && cur.fastMa.value > cur.slowMa.value
  }

  /** Fast was at or above slow and is now strictly below it. */
  predicate Bearish(prev: Bar, cur: Bar)
    requires Complete(prev, cur)
  {
    prev.fastMa.value >= prev.slowMa.value && cur.fastMa.value < cur.slowMa.value
  }

  predicate Crossover(prev: Bar, cur: Bar)
  {
    Complete(prev, cur) && (Bullish(prev, cur) || Bearish(prev, cur))
  }

  /** A row is never both a bullish and a bearish crossover. */
  lemma CrossoversExclusive(prev: Bar, cur: Bar)
    requires Complete(prev, cur)
    ensures !(Bullish(prev, cur) && Bearish(prev, cur))
  {
  }

  /** The position an exit signal closes. */
  function Closes(kind: SignalType): Position
  {
    match kind
    case ExitLong => Long
    case ExitShort => Short
    case _ => Flat
  }

  /** The entry that follows an exit at the same row. */
  function Reversal(kind: SignalType): SignalType
  {
    match kind
    case ExitLong => EntryShort
    case ExitShort => EntryLong
    case _ => kind
  }

  /** The position an entry signal opens; FLAT for an exit. */
  function Opens(kind: SignalType): Position
  {
    match kind
    case EntryLong => Long
    case EntryShort => Short
    case _ => Flat
  }

  /** The position opened by the last entry signal, FLAT if there is none. */
  function LastEntry(signals: seq<Signal>): Position
  {
    if signals == [] then Flat
    else if signals[|signals| - 1].kind.IsEntry() then Opens(signals[|signals| - 1].kind)
    else LastEntry(signals[..|signals| - 1])
  }

  /** Every exit closes the position opened by the most recent entry before it. */
  ghost predicate ExitsMatch(signals: seq<Signal>)
  {
    forall k :: 0 <= k < |signals| && signals[k].kind.IsExit() ==> LastEntry(signals[..k]) == Closes(signals[k].kind)
  }

  /** Every exit that is not the last signal is followed by the opposite entry at the same price and time. */
  ghost predicate ExitsReversed(signals: seq<Signal>)
  {
    forall k :: 0 <= k < |signals| - 1 && signals[k].kind.IsExit() ==>
      signals[k + 1] == Signal(Reversal(signals[k].kind), signals[k].price, signals[k].timestamp)
  }

  /**
   * The signals row i emits while the tracked position is `pos`: nothing
   * unless the row is a crossover; on a crossover, an exit of a position in
   * the opposite direction, then the entry in the crossover's direction.
   */
  function RowSignals(data: seq<Bar>, i: nat, pos: Position): (c: seq<Signal>)
    requires 1 <= i < |data|
    ensures |c| <= 2
    ensures c == [] <==> !Crossover(data[i - 1], data[i])
  {
    var prev, cur := data[i - 1], data[i];
    if !Complete(prev, cur) then []
    else if Bullish(prev, cur) then
      (if pos == Short then [Signal(ExitShort, cur.close, cur.time)] else []) + [Signal(EntryLong, cur.close, cur.time)]
    else if Bearish(prev, cur) then
      (if pos == Long then [Signal(ExitLong, cur.close, cur.time)] else []) + [Signal(EntryShort, cur.close, cur.time)]
    else []
  }

  /**
   * What one row emits: every signal at the row's close and time; the last
   * one an entry in the crossover's direction; an exit only first, only of
   * the tracked position, and followed by the opposite entry.
   */
  lemma RowSignalsShape(data: seq<Bar>, i: nat, pos: Position)
    requires 1 <= i < |data|
    ensures var c := RowSignals(data, i, pos);
      && (forall k :: 0 <= k < |c| ==> c[k].price == data[i].close && c[k].timestamp == data[i].time)
      && (c != [] ==> c[|c| - 1].kind.IsEntry())
      && (c != [] && Bullish(data[i - 1], data[i]) ==> c[|c| - 1].kind == EntryLong)
      && (c != [] && Bearish(data[i - 1], data[i]) ==> c[|c| - 1].kind == EntryShort)
      && (|c| == 1 ==> c[0].kind.IsEntry())
      && (|c| == 2 ==> c[0].kind.IsExit() && Closes(c[0].kind) == pos
                       && c[1] == Signal(Reversal(c[0].kind), c[0].price, c[0].timestamp))
  {
  }

  /** `n` copies of the row index `i`. */
  function Repeat(i: nat, n: nat): (r: seq<nat>)
    ensures |r| == n && forall k :: 0 <= k < n ==> r[k] == i
  {
    seq(n, _ => i)
  }

  /** Processes row i: appends what it emits and moves the tracked position to the last entry's. */
  function RowStep(data: seq<Bar>, i: nat, s: Scan): (r: Scan)
    requires 1 <= i < |data|
    ensures |s.signals| <= |r.signals| <= |s.signals| + 2
    ensures r.position == Flat ==> s.position == Flat
  {
    var c := RowSignals(data, i, s.position);
    var pos := if c == [] then s.position else Opens(c[|c| - 1].kind);
    RowSignalsShape(data, i, s.position);
    Scan(s.signals + c, s.rows + Repeat(i, |c|), pos)
  }

  /** The state after the loop has processed rows 1 .. n-1 (nothing when n <= 1). */
  function ScanRows(data: seq<Bar>, n: nat): Scan
    requires n <= |data|
  {
    if n <= 1 then Scan([], [], Flat) else RowStep(data, n - 1, ScanRows(data, n - 1))
  }

  /** The end-of-series exit of any position still open, at the last close and timestamp. */
  function Flush(data: seq<Bar>, pos: Position): (f: seq<Signal>)
    requires |data| >= 1
    ensures pos == Flat <==> f == []
    ensures f != [] ==>
      && |f| == 1 && Closes(f[0].kind) == pos
      && f[0].price == data[|data| - 1].close && f[0].timestamp == data[|data| - 1].time
  {
    var last := data[|data| - 1];
    match pos
    case Long => [Signal(ExitLong, last.close, last.time)]
    case Short => [Signal(ExitShort, last.close, last.time)]
    case Flat => []
  }

  /** The full run: every row scanned, then the flush, each signal tagged with its row. */
  function Run(data: seq<Bar>): Scan
  {
    if |data| == 0 then Scan([], [], Flat)
    else
      var s := ScanRows(data, |data|);
      var f := Flush(data, s.position);
      Scan(s.signals + f, s.rows + Repeat(|data| - 1, |f|), s.position)
  }

  /** The signal list the strategy returns for `data`. */
  function Signals(data: seq<Bar>): seq<Signal>
  {
    Run(data).signals
  }

  /** One row of the scan, case by case, in the order the loop tests them. */
  lemma RowStepCases(data: seq<Bar>, i: nat, s: Scan)
    requires 1 <= i < |data|
    ensures var r, prev, cur := RowStep(data, i, s), data[i - 1], data[i];
      && (!Complete(prev, cur) ==> r.signals == s.signals && r.position == s.position)
      && (Complete(prev, cur) && Bullish(prev, cur) ==>
            && r.signals == (if s.position == Short then s.signals + [Signal(ExitShort, cur.close, cur.time)] else s.signals)
                            + [Signal(EntryLong, cur.close, cur.time)]
            && r.position == Long)
      && (Complete(prev, cur) && !Bullish(prev, cur) && Bearish(prev, cur) ==>
            && r.signals == (if s.position == Long then s.signals + [Signal(ExitLong, cur.close, cur.time)] else s.signals)
                            + [Signal(EntryShort, cur.close, cur.time)]
            && r.position == Short)
      && (Complete(prev, cur) && !Bullish(prev, cur) && !Bearish(prev, cur) ==>
            r.signals == s.signals && r.position == s.position)
  {
    var prev, cur := data[i - 1], data[i];
    var c := RowSignals(data, i, s.position);
    if Complete(prev, cur) && Bullish(prev, cur) {
      var x := Signal(ExitShort, cur.close, cur.time);
      var e := Signal(EntryLong, cur.close, cur.time);
      if s.position == Short {
        assert s.signals + c == s.signals + [x] + [e];
      } else {
        assert s.signals + c == s.signals + [e];
      }
    } else if Complete(prev, cur) && Bearish(prev, cur) {
      var x := Signal(ExitLong, cur.close, cur.time);
      var e := Signal(EntryShort, cur.close, cur.time);
      if s.position == Long {
        assert s.signals + c == s.signals + [x] + [e];
      } else {
        assert s.signals + c == s.signals + [e];
      }
    } else {
      assert s.signals + c == s.signals;
    }
  }

  /** Walks the rows, emitting exits and entries on crossovers, then flushes any open position. */
  method GenerateSignals(data: seq<Bar>) returns (signals: seq<Signal>)
    ensures signals == Signals(data)
  {
    signals := [];
    var currentPosition := Flat;
    var i := 1;
    while i < |data|
      invariant 1 <= i && (|data| > 0 ==> i <= |data|)
      invariant var s := ScanRows(data, if |data| > 0 then i else 0);
        signals == s.signals && currentPosition == s.position
    {
      RowStepCases(data, i, ScanRows(data, i));
      assert ScanRows(data, i + 1) == RowStep(data, i, ScanRows(data, i));
      var prev, cur := data[i - 1], data[i];
      if !Complete(prev, cur) {
        i := i + 1;
        continue;
      }
      if Bullish(prev, cur) {
        if currentPosition == Short {
          signals := signals + [Signal(ExitShort, cur.close, cur.time)];
        }
        signals := signals + [Signal(EntryLong, cur.close, cur.time)];
        currentPosition := Long;
      } else if Bearish(prev, cur) {
        if currentPosition == Long {
          signals := signals + [Signal(ExitLong, cur.close, cur.time)];
        }
        signals := signals + [Signal(EntryShort, cur.close, cur.time)];
        currentPosition := Short;
      }
      i := i + 1;
    }
    if currentPosition == Long {
      signals := signals + [Signal(ExitLong, data[|data| - 1].close, data[|data| - 1].time)];
    } else if currentPosition == Short {
      signals := signals + [Signal(ExitShort, data[|data| - 1].close, data[|data| - 1].time)];
    }
  }

  // ---------------------------------------------------------------------------
  // Properties of the scan

  /**
   * After rows 1 .. n-1: one row tag per signal, at most two signals per row,
   * the tracked position is the last entry's, it is FLAT exactly while
   * nothing has been emitted, and the last signal emitted is an entry.
   */
  lemma {:induction false} ScanShape(data: seq<Bar>, n: nat)
    requires n <= |data|
    ensures var s := ScanRows(data, n);
      && |s.rows| == |s.signals|
      && (n >= 1 ==> |s.signals| <= 2 * (n - 1))
      && s.position == LastEntry(s.signals)
      && (s.position == Flat <==> s.signals == [])
      && (s.signals != [] ==> s.signals[|s.signals| - 1].kind.IsEntry())
  {
    if n > 1 {
      ScanShape(data, n - 1);
      var s := ScanRows(data, n - 1);
      var c := RowSignals(data, n - 1, s.position);
      RowSignalsShape(data, n - 1, s.position);
      var r := ScanRows(data, n);
      assert r.signals == s.signals + c && r.rows == s.rows + Repeat(n - 1, |c|);
      if c == [] {
        assert r.signals == s.signals && r.position == s.position;
      } else {
        var last := r.signals[|r.signals| - 1];
        assert last == c[|c| - 1] && last.kind.IsEntry();
        assert r.position == Opens(last.kind) != Flat;
      }
    }
  }

  /** Within the scan every exit closes the position of the latest entry before it. */
  lemma {:induction false} ScanExitsMatch(data: seq<Bar>, n: nat)
    requires n <= |data|
    ensures ExitsMatch(ScanRows(data, n).signals)
  {
    if n > 1 {
      ScanExitsMatch(data, n - 1);
      ScanShape(data, n - 1);
      var s := ScanRows(data, n - 1);
      var c := RowSignals(data, n - 1, s.position);
      RowSignalsShape(data, n - 1, s.position);
      var all := s.signals + c;
      assert ScanRows(data, n).signals == all;
      forall k | 0 <= k < |all| && all[k].kind.IsExit()
        ensures LastEntry(all[..k]) == Closes(all[k].kind)
      {
        if k < |s.signals| {
          assert all[..k] == s.signals[..k] && all[k] == s.signals[k];
        } else {
          RowExitFollowsPrefix(data, n - 1, s, k);
        }
      }
    }
  }

  /**
   * An exit among the signals row i appends to scan `s` sits right after the
   * signals already emitted and closes the position `s` tracks.
   */
  lemma RowExitFollowsPrefix(data: seq<Bar>, i: nat, s: Scan, k: nat)
    requires 1 <= i < |data|
    requires |s.signals| <= k < |s.signals + RowSignals(data, i, s.position)|
    requires (s.signals + RowSignals(data, i, s.position))[k].kind.IsExit()
    ensures k == |s.signals|
    ensures (s.signals + RowSignals(data, i, s.position))[..k] == s.signals
    ensures Closes((s.signals + RowSignals(data, i, s.position))[k].kind) == s.position
  {
    var c := RowSignals(data, i, s.position);
    RowSignalsShape(data, i, s.position);
    var j := k - |s.signals|;
    assert (s.signals + c)[k] == c[j];
    if j == |c| - 1 {
      assert false;
    }
    assert (s.signals + c)[..k] == s.signals;
  }

  /** Within the scan every exit is followed by the opposite entry at the same price and time. */
  lemma {:induction false} ScanExitsReversed(data: seq<Bar>, n: nat)
    requires n <= |data|
    ensures ExitsReversed(ScanRows(data, n).signals)
  {
    if n > 1 {
      ScanExitsReversed(data, n - 1);
      ScanShape(data, n - 1);
      var s := ScanRows(data, n - 1);
      var c := RowSignals(data, n - 1, s.position);
      RowSignalsShape(data, n - 1, s.position);
      var all := s.signals + c;
      assert ScanRows(data, n).signals == all;
      forall k | 0 <= k < |all| - 1 && all[k].kind.IsExit()
        ensures all[k + 1] == Signal(Reversal(all[k].kind), all[k].price, all[k].timestamp)
      {
        if k < |s.signals| - 1 {
          assert all[k] == s.signals[k] && all[k + 1] == s.signals[k + 1];
        } else if k == |s.signals| - 1 {
          assert false;
        } else {
          assert all[k] == c[k - |s.signals|] && all[k + 1] == c[k + 1 - |s.signals|];
        }
      }
    }
  }

  /** Every signal of a scan is tagged with a row below n, carries that row's close and time, and tags never decrease. */
  ghost predicate RowsCarryData(data: seq<Bar>, s: Scan, n: nat)
    requires n <= |data|
  {
    && |s.rows| == |s.signals|
    && (forall k :: 0 <= k < |s.rows| ==>
          1 <= s.rows[k] < n
          && s.signals[k].price == data[s.rows[k]].close
          && s.signals[k].timestamp == data[s.rows[k]].time)
    && (forall j, k :: 0 <= j <= k < |s.rows| ==> s.rows[j] <= s.rows[k])
  }

  lemma {:induction false} ScanRowsCarryData(data: seq<Bar>, n: nat)
    requires n <= |data|
    ensures RowsCarryData(data, ScanRows(data, n), n)
  {
    if n > 1 {
      ScanRowsCarryData(data, n - 1);
      var s := ScanRows(data, n - 1);
      var c := RowSignals(data, n - 1, s.position);
      RowSignalsShape(data, n - 1, s.position);
      var r := ScanRows(data, n);
      assert r.signals == s.signals + c && r.rows == s.rows + Repeat(n - 1, |c|);
      forall k | 0 <= k < |r.rows|
        ensures 1 <= r.rows[k] < n
        ensures r.signals[k].price == data[r.rows[k]].close && r.signals[k].timestamp == data[r.rows[k]].time
      {
        if k < |s.rows| {
          assert r.rows[k] == s.rows[k] && r.signals[k] == s.signals[k];
        } else {
          assert r.rows[k] == n - 1 && r.signals[k] == c[k - |s.rows|];
        }
      }
      forall j, k | 0 <= j <= k < |r.rows|
        ensures r.rows[j] <= r.rows[k]
      {
        if k < |s.rows| {
          assert r.rows[j] == s.rows[j] && r.rows[k] == s.rows[k];
        } else {
          assert r.rows[k] == n - 1;
          if j < |s.rows| {
            assert r.rows[j] == s.rows[j];
          } else {
            assert r.rows[j] == n - 1;
          }
        }
      }
    }
  }

  /** Rows where no crossover happens leave the scan empty and FLAT. */
  lemma {:induction false} QuietScan(data: seq<Bar>, n: nat)
    requires n <= |data|
    requires forall i :: 1 <= i < n ==> !Crossover(data[i - 1], data[i])
    ensures ScanRows(data, n) == Scan([], [], Flat)
  {
    if n > 1 {
      QuietScan(data, n - 1);
      assert !Crossover(data[n - 2], data[n - 1]);
    }
  }

  // ---------------------------------------------------------------------------
  // Properties of the returned signal list

  /** Fewer than two rows, or no crossover row at all, yields no signals. */
  lemma NoCrossoverNoSignals(data: seq<Bar>)
    requires forall i :: 1 <= i < |data| ==> !Crossover(data[i - 1], data[i])
    ensures Signals(data) == []
  {
    if |data| > 0 {
      QuietScan(data, |data|);
    }
  }

  /** At most two signals per row after the first, plus the flush. */
  lemma SignalCountBound(data: seq<Bar>)
    ensures |data| <= 1 ==> Signals(data) == []
    ensures |data| >= 1 ==> |Signals(data)| <= 2 * (|data| - 1) + 1
  {
    if |data| > 0 {
      ScanShape(data, |data|);
    }
  }

  /**
   * Every exit in the output closes the position of the most recent entry,
   * and every exit but the last is followed by the opposite entry at the
   * same price and time.
   */
  lemma ExitsMatchTrackedPosition(data: seq<Bar>)
    ensures ExitsMatch(Signals(data))
    ensures ExitsReversed(Signals(data))
  {
    if |data| > 0 {
      var s := ScanRows(data, |data|);
      ScanShape(data, |data|);
      ScanExitsMatch(data, |data|);
      ScanExitsReversed(data, |data|);
      var f := Flush(data, s.position);
      var all := s.signals + f;
      forall k | 0 <= k < |all| && all[k].kind.IsExit()
        ensures LastEntry(all[..k]) == Closes(all[k].kind)
      {
        if k < |s.signals| {
          assert all[..k] == s.signals[..k];
        } else {
          assert all[..k] == s.signals;
        }
      }
      forall k | 0 <= k < |all| - 1 && all[k].kind.IsExit()
        ensures all[k + 1] == Signal(Reversal(all[k].kind), all[k].price, all[k].timestamp)
      {
        assert all[k] == s.signals[k];
        if k + 1 < |s.signals| {
          assert all[k + 1] == s.signals[k + 1];
        }
      }
    }
  }

  /**
   * A non-empty output ends with the exit of the position the last entry
   * opened, at the last row's close and timestamp.
   */
  lemma EndsWithFlush(data: seq<Bar>)
    requires Signals(data) != []
    ensures var out := Signals(data); var last := out[|out| - 1];
      && |data| >= 2
      && last.kind.IsExit()
      && LastEntry(out[..|out| - 1]) != Flat
      && Closes(last.kind) == LastEntry(out[..|out| - 1])
      && last.price == data[|data| - 1].close
      && last.timestamp == data[|data| - 1].time
  {
    var s := ScanRows(data, |data|);
    ScanShape(data, |data|);
    var out := Signals(data);
    assert out[..|out| - 1] == s.signals;
  }

  /**
   * Every signal is emitted at some row i >= 1 and carries close[i] and
   * time[i], and the rows of successive signals never decrease.
   */
  lemma SignalsCarryRowData(data: seq<Bar>)
    ensures var r := Run(data);
      && r.signals == Signals(data)
      && |r.rows| == |r.signals|
      && (forall k :: 0 <= k < |r.rows| ==>
            1 <= r.rows[k] < |data|
            && r.signals[k].price == data[r.rows[k]].close
            && r.signals[k].timestamp == data[r.rows[k]].time)
      && (forall j, k :: 0 <= j <= k < |r.rows| ==> r.rows[j] <= r.rows[k])
  {
    if |data| > 0 {
      var s := ScanRows(data, |data|);
      ScanRowsCarryData(data, |data|);
      ScanShape(data, |data|);
      var f := Flush(data, s.position);
      var r := Run(data);
      assert r.rows == s.rows + Repeat(|data| - 1, |f|);
      forall k | 0 <= k < |r.rows|
        ensures 1 <= r.rows[k] < |data|
        ensures r.signals[k].price == data[r.rows[k]].close && r.signals[k].timestamp == data[r.rows[k]].time
      {
        if k < |s.rows| {
          assert r.rows[k] == s.rows[k] && r.signals[k] == s.signals[k];
        } else {
          assert |f| == 1 && k == |s.rows|;
          assert r.rows[k] == |data| - 1 && r.signals[k] == f[0];
          assert s.signals != [] && |data| >= 2;
        }
      }
    }
  }

  /** When the input timestamps are in order, so are the timestamps of the signals. */
  lemma TimestampsFollowRowOrder(data: seq<Bar>)
    requires forall i, j :: 0 <= i <= j < |data| ==> data[i].time <= data[j].time
    ensures var out := Signals(data);
      forall j, k :: 0 <= j <= k < |out| ==> out[j].timestamp <= out[k].timestamp
  {
    SignalsCarryRowData(data);
  }

  /**
   * Entries need not alternate: a tie followed by a rise, twice, emits two
   * ENTRY_LONG signals with no exit between them.
   */
  lemma EntriesNeedNotAlternate()
    ensures var data := [Bar(Some(1.0), Some(1.0), 10.0, 0), Bar(Some(2.0), Some(1.0), 11.0, 1),
                         Bar(Some(1.0), Some(1.0), 12.0, 2), Bar(Some(2.0), Some(1.0), 13.0, 3)];
      Signals(data) == [Signal(EntryLong, 11.0, 1), Signal(EntryLong, 13.0, 3), Signal(ExitLong, 13.0, 3)]
  {
    var data := [Bar(Some(1.0), Some(1.0), 10.0, 0), Bar(Some(2.0), Some(1.0), 11.0, 1),
                 Bar(Some(1.0), Some(1.0), 12.0, 2), Bar(Some(2.0), Some(1.0), 13.0, 3)];
    assert Bullish(data[0], data[1]) && !Crossover(data[1], data[2]) && Bullish(data[2], data[3]);
    assert RowSignals(data, 1, Flat) == [Signal(EntryLong, 11.0, 1)];
    assert RowSignals(data, 3, Long) == [Signal(EntryLong, 13.0, 3)];
    assert ScanRows(data, 2).signals == [Signal(EntryLong, 11.0, 1)] && ScanRows(data, 2).position == Long;
    assert ScanRows(data, 3) == ScanRows(data, 2);
    assert ScanRows(data, 4).signals == [Signal(EntryLong, 11.0, 1), Signal(EntryLong, 13.0, 3)];
    assert ScanRows(data, 4).position == Long;
  }
}
