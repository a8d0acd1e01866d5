/**
  * OHLCV bar synchronisation: per timeframe, only bars newer than that
  * timeframe's cursor are appended, and the cursor then moves to the newest bar
  * of the batch.
  */
module Bars {
  import opened Wrappers
  import opened Stamps

  datatype Timeframe = M1 | M5 | M15 | M30 | H1 | H4 | D1 | W1 | MN1

  /** The timeframes in the order `sync_all_ohlcv` visits them. */
  const TIMEFRAMES: seq<Timeframe> := [M1, M5, M15, M30, H1, H4, D1, W1, MN1]

  /** The position of `tf` in `TIMEFRAMES`. */
  function Index(tf: Timeframe): (k: nat)
    ensures k < |TIMEFRAMES| && TIMEFRAMES[k] == tf
  {
    match tf
    case M1 => 0
    case M5 => 1
    case M15 => 2
    case M30 => 3
    case H1 => 4
    case H4 => 5
    case D1 => 6
    case W1 => 7
    case MN1 => 8
  }

  /** The timeframes are listed once each. */
  lemma IndexOfListed(i: nat)
    requires i < |TIMEFRAMES|
    ensures Index(TIMEFRAMES[i]) == i
  {
    if i == 0 {} else if i == 1 {} else if i == 2 {} else if i == 3 {}
    else if i == 4 {} else if i == 5 {} else if i == 6 {} else if i == 7 {}
  }

  /** A bar as the terminal returns it; `real_volume` may be missing. Times are epoch seconds. */
  datatype Bar = Bar(
    time: int, open: real, high: real, low: real, close: real,
    tickVolume: int, spread: int, realVolume: Option<real>)

  /** A row of a timeframe's log. */
  datatype BarRow = BarRow(
    time: int, open: real, high: real, low: real, close: real,
    tickVolume: int, realVolume: real, spread: int)

  function ToRow(b: Bar): BarRow {
    BarRow(b.time, b.open, b.high, b.low, b.close, b.tickVolume,
           if b.realVolume.Some? then b.realVolume.value else 0.0, b.spread)
  }

  function ToRows(bars: seq<Bar>): seq<BarRow> {
    seq(|bars|, i requires 0 <= i < |bars| => ToRow(bars[i]))
  }

  function BarTimes(bars: seq<Bar>): seq<int> {
    seq(|bars|, i requires 0 <= i < |bars| => bars[i].time)
  }

  /** `df[df["time"] > cursor]`: the bars newer than the cursor, in their order. */
  function Newer(bars: seq<Bar>, cursor: int): (r: seq<Bar>)
    ensures |r| <= |bars|
    ensures forall i :: 0 <= i < |r| ==> r[i].time > cursor && r[i] in bars
    ensures forall i :: 0 <= i < |bars| && bars[i].time > cursor ==> bars[i] in r
  {
    if |bars| == 0 then []
    else (if bars[0].time > cursor then [bars[0]] else []) + Newer(bars[1..], cursor)
  }

  /** The filter keeps every newer bar as many times as the batch holds it, and no other bar. */
  lemma {:induction false} NewerCounts(bars: seq<Bar>, cursor: int)
    ensures forall b :: multiset(Newer(bars, cursor))[b] == (if b.time > cursor then multiset(bars)[b] else 0)
  {
    if |bars| > 0 {
      NewerCounts(bars[1..], cursor);
      assert bars == [bars[0]] + bars[1..];
    }
  }

  datatype SyncResult = SyncResult(rows: seq<BarRow>, cursor: int)

  /** `sync_ohlcv` for one timeframe, given what the fetch returned (`None` or empty: nothing). */
  function Sync(cursor: int, rates: Option<seq<Bar>>): SyncResult {
    if rates.None? || |rates.value| == 0 then SyncResult([], cursor)
    else
      var newer := Newer(rates.value, cursor);
      if |newer| == 0 then SyncResult([], cursor)
      else SyncResult(ToRows(newer), Max(BarTimes(rates.value)))
  }

  /**
    * Only bars newer than the cursor are logged, in their order; the cursor moves
    * only when one exists, and then to the newest bar of the batch, strictly forward.
    */
  lemma SyncSpec(cursor: int, rates: Option<seq<Bar>>)
    ensures var r := Sync(cursor, rates);
      cursor <= r.cursor &&
      (|r.rows| == 0 ==> r.cursor == cursor) &&
      (|r.rows| > 0 ==>
        rates.Some? && r.rows == ToRows(Newer(rates.value, cursor)) &&
        cursor < r.cursor && r.cursor in BarTimes(rates.value) &&
        forall i :: 0 <= i < |rates.value| ==> rates.value[i].time <= r.cursor) &&
      (|r.rows| > 0 <==>
        rates.Some? && exists i :: 0 <= i < |rates.value| && rates.value[i].time > cursor)
  {
    if rates.Some? && |rates.value| > 0 {
      var bars := rates.value;
      var newer := Newer(bars, cursor);
      NewerNonEmpty(bars, cursor);
      if |newer| > 0 {
        NewestBound(bars, newer[0], Max(BarTimes(bars)));
      }
    }
  }

  lemma NewerNonEmpty(bars: seq<Bar>, cursor: int)
    ensures |Newer(bars, cursor)| > 0 <==> exists i :: 0 <= i < |bars| && bars[i].time > cursor
  {
    var newer := Newer(bars, cursor);
    if |newer| > 0 {
      assert newer[0] in bars;
      var j :| 0 <= j < |bars| && bars[j] == newer[0];
      assert bars[j].time > cursor;
    }
  }

  lemma NewestBound(bars: seq<Bar>, b: Bar, newest: int)
    requires |bars| > 0 && b in bars && newest == Max(BarTimes(bars))
    ensures b.time <= newest
    ensures forall i :: 0 <= i < |bars| ==> bars[i].time <= newest
  {
    var j :| 0 <= j < |bars| && bars[j] == b;
    assert BarTimes(bars)[j] == bars[j].time;
    forall i | 0 <= i < |bars| ensures bars[i].time <= newest {
      assert BarTimes(bars)[i] == bars[i].time;
    }
  }

  /** Syncing the same bars twice logs nothing the second time. */
  lemma SyncIdempotent(cursor: int, rates: Option<seq<Bar>>)
    ensures var first := Sync(cursor, rates);
      Sync(first.cursor, rates) == SyncResult([], first.cursor)
  {
    var first := Sync(cursor, rates);
    SyncSpec(cursor, rates);
    SyncSpec(first.cursor, rates);
    if rates.Some? && |first.rows| == 0 {
      assert forall i :: 0 <= i < |rates.value| ==> rates.value[i].time <= cursor;
    }
  }

  /** Two successive syncs never log the same bar time: each new row is later than every earlier one. */
  lemma SyncsNeverOverlap(cursor: int, a: Option<seq<Bar>>, b: Option<seq<Bar>>)
    ensures var first := Sync(cursor, a);
      var second := Sync(first.cursor, b);
      (forall i :: 0 <= i < |first.rows| ==> cursor < first.rows[i].time <= first.cursor) &&
      (forall i, j :: 0 <= i < |first.rows| && 0 <= j < |second.rows| ==>
        first.rows[i].time < second.rows[j].time)
  {
    var first := Sync(cursor, a);
    var second := Sync(first.cursor, b);
    SyncSpec(cursor, a);
    SyncSpec(first.cursor, b);
    forall i | 0 <= i < |first.rows| ensures cursor < first.rows[i].time <= first.cursor {
      var newer := Newer(a.value, cursor);
      assert first.rows[i].time == newer[i].time;
      var j :| 0 <= j < |a.value| && a.value[j] == newer[i];
    }
    forall j | 0 <= j < |second.rows| ensures first.cursor < second.rows[j].time {
      var newer := Newer(b.value, first.cursor);
      assert second.rows[j].time == newer[j].time;
    }
  }
}
