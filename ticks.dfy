/**
  * The tick-ingestion step of the main loop: fetch from the watermark, count
  * consecutive failures, and append a batch only if it reaches past the
  * watermark, which then moves one millisecond beyond the newest tick.
  */
module Ticks {
  import opened Wrappers
  import opened Stamps
  import Flags
  import Sessions

  /** Consecutive fetch failures before the watermark is forced forward. */
  const MAX_FAILS: nat := 5
  /** The forced watermark lies this far behind the clock, in milliseconds. */
  const RESET_LOOKBACK_MS: int := 1000

  /** A tick as the terminal delivers it; `volume_real` may be missing. */
  datatype RawTick = RawTick(
    timeMsc: int, bid: real, ask: real, last: real,
    volume: int, volumeReal: Option<real>, flags: int)

  /** A row of the tick log: the raw fields plus the derived integer and label columns. */
  datatype TickRow = TickRow(
    timeMsc: int, bid: real, ask: real, last: real,
    volume: int, volumeReal: real, flags: int,
    flagDesc: string, session: Sessions.Label, hourUtc: int)

  /** `process_ticks` on one tick. */
  function Enrich(t: RawTick): TickRow {
    TickRow(
      t.timeMsc, t.bid, t.ask, t.last, t.volume,
      if t.volumeReal.Some? then t.volumeReal.value else 0.0,
      t.flags, Flags.Describe(t.flags),
      Sessions.OfInstant(t.timeMsc), Sessions.UtcHour(t.timeMsc))
  }

  /** `process_ticks` on a batch: one row per tick, in order. */
  function EnrichAll(ts: seq<RawTick>): seq<TickRow> {
    seq(|ts|, i requires 0 <= i < |ts| => Enrich(ts[i]))
  }

  function Times(ts: seq<RawTick>): seq<int> {
    seq(|ts|, i requires 0 <= i < |ts| => ts[i].timeMsc)
  }

  function RowTimes(rows: seq<TickRow>): seq<int> {
    seq(|rows|, i requires 0 <= i < |rows| => rows[i].timeMsc)
  }

  /** Each enriched row keeps its tick's instant, tags it with that instant's session and lists its flags. */
  lemma EnrichedRows(ts: seq<RawTick>)
    ensures |EnrichAll(ts)| == |ts|
    ensures RowTimes(EnrichAll(ts)) == Times(ts)
    ensures forall i :: 0 <= i < |ts| ==>
      EnrichAll(ts)[i].session == Sessions.OfInstant(ts[i].timeMsc) &&
      Flags.Decode(EnrichAll(ts)[i].flagDesc) == Flags.Bits(ts[i].flags)
  {
    forall i | 0 <= i < |ts|
      ensures Flags.Decode(EnrichAll(ts)[i].flagDesc) == Flags.Bits(ts[i].flags)
    {
      Flags.DecodeDescribe(ts[i].flags);
    }
  }

  /** The loop's tick state: `last_time_msc`, `fail_count`, `total_ticks`. */
  datatype IngestState = IngestState(watermark: int, failCount: nat, totalTicks: nat)

  /** What `copy_ticks_from` did: raised, or returned a batch (`None` counts as empty). */
  datatype FetchOutcome = FetchFailed | Fetched(ticks: Option<seq<RawTick>>)

  /** One fetch attempt, with the clock the forced reset would read after the backoff. */
  datatype Attempt = Attempt(outcome: FetchOutcome, resetClock: int)

  /**
    * The effect of one step: the new state, the rows to append, the newest tick
    * time when rows were appended (for the session check), the batch length
    * (for the heartbeat) and whether the fetch failed (the loop then skips the
    * rest of the iteration).
    */
  datatype IngestResult = IngestResult(
    next: IngestState, appended: seq<TickRow>, newest: Option<int>, batchSize: nat, failed: bool)

  function Batch(outcome: FetchOutcome): seq<RawTick> {
    if outcome.Fetched? && outcome.ticks.Some? then outcome.ticks.value else []
  }

  /** Some tick of the batch is later than the watermark. */
  ghost predicate ReachesPast(batch: seq<RawTick>, watermark: int) {
    exists i :: 0 <= i < |batch| && batch[i].timeMsc > watermark
  }

  /** Lines 443-474 of the main loop. */
  function Ingest(s: IngestState, a: Attempt): IngestResult {
    match a.outcome
    case FetchFailed =>
      var fails := s.failCount + 1;
      if fails >= MAX_FAILS then
        IngestResult(IngestState(a.resetClock - RESET_LOOKBACK_MS, 0, s.totalTicks), [], None, 0, true)
      else
        IngestResult(IngestState(s.watermark, fails, s.totalTicks), [], None, 0, true)
    case Fetched(got) =>
      var batch := if got.Some? then got.value else [];
      var n := |batch|;
      if n > 0 && Max(Times(batch)) > s.watermark then
        var newLast := Max(Times(batch));
        var rows := EnrichAll(batch);
        IngestResult(IngestState(newLast + 1, 0, s.totalTicks + |rows|), rows, Some(newLast), n, false)
      else
        IngestResult(IngestState(s.watermark, 0, s.totalTicks), [], None, n, false)
  }

  /**
    * One step keeps the counter below MAX_FAILS; a failure logs nothing; a
    * success clears the counter and never moves the watermark back; rows are
    * appended exactly when some tick is later than the watermark, and then the
    * whole batch is, the count grows by its length and the watermark passes
    * every tick in it, landing one past the newest.
    */
  lemma IngestSpec(s: IngestState, a: Attempt)
    ensures var r := Ingest(s, a);
      var batch := Batch(a.outcome);
      r.next.failCount < MAX_FAILS &&
      (r.failed <==> a.outcome.FetchFailed?) &&
      (r.failed ==> r.appended == [] && r.next.totalTicks == s.totalTicks) &&
      (!r.failed ==> r.next.failCount == 0 && r.batchSize == |batch| && s.watermark <= r.next.watermark) &&
      (|r.appended| > 0 <==> !r.failed && ReachesPast(batch, s.watermark)) &&
      (|r.appended| > 0 ==>
        r.appended == EnrichAll(batch) &&
        r.next.totalTicks == s.totalTicks + |r.appended| &&
        AllBelow(Times(batch), r.next.watermark) &&
        r.newest.Some? && r.next.watermark == r.newest.value + 1 &&
        r.newest.value in Times(batch)) &&
      (!r.failed && |r.appended| == 0 ==>
        r.next == IngestState(s.watermark, 0, s.totalTicks) && r.newest.None?)
  {
    var batch := Batch(a.outcome);
    if a.outcome.Fetched? && |batch| > 0 {
      if Max(Times(batch)) > s.watermark {
        assert Times(batch)[0] == batch[0].timeMsc;
      } else {
        forall i | 0 <= i < |batch| ensures batch[i].timeMsc <= s.watermark {
          assert Times(batch)[i] == batch[i].timeMsc;
        }
      }
    }
  }

  /** A failed fetch counts; the fifth in a row forces the watermark to `resetClock - 1000`. */
  lemma FailedFetch(s: IngestState, resetClock: int)
    requires s.failCount < MAX_FAILS
    ensures var r := Ingest(s, Attempt(FetchFailed, resetClock));
      if s.failCount + 1 < MAX_FAILS then r.next == IngestState(s.watermark, s.failCount + 1, s.totalTicks)
      else r.next == IngestState(resetClock - RESET_LOOKBACK_MS, 0, s.totalTicks)
  {
  }

  /** The state after a sequence of attempts. */
  function RunState(s: IngestState, attempts: seq<Attempt>): IngestState
    decreases |attempts|
  {
    if |attempts| == 0 then s
    else Ingest(RunState(s, attempts[..|attempts| - 1]), attempts[|attempts| - 1]).next
  }

  /** All rows appended during a sequence of attempts, in order. */
  function RunAppended(s: IngestState, attempts: seq<Attempt>): seq<TickRow>
    decreases |attempts|
  {
    if |attempts| == 0 then []
    else
      var before := attempts[..|attempts| - 1];
      RunAppended(s, before) + Ingest(RunState(s, before), attempts[|attempts| - 1]).appended
  }

  ghost predicate AllFailed(attempts: seq<Attempt>) {
    forall i :: 0 <= i < |attempts| ==> attempts[i].outcome.FetchFailed?
  }

  /** Fewer than MAX_FAILS failures in a row only count: the watermark stays and nothing is logged. */
  lemma {:induction false} FailuresAccumulate(s: IngestState, attempts: seq<Attempt>)
    requires AllFailed(attempts)
    requires s.failCount + |attempts| < MAX_FAILS
    ensures RunState(s, attempts) == IngestState(s.watermark, s.failCount + |attempts|, s.totalTicks)
    ensures RunAppended(s, attempts) == []
    decreases |attempts|
  {
    if |attempts| > 0 {
      FailuresAccumulate(s, attempts[..|attempts| - 1]);
    }
  }

  /**
    * From a clean counter, MAX_FAILS failures in a row reset the watermark to the
    * last reset clock less one second and clear the counter, logging nothing.
    */
  lemma ForcedReset(s: IngestState, attempts: seq<Attempt>)
    requires AllFailed(attempts)
    requires s.failCount == 0 && |attempts| == MAX_FAILS
    ensures RunState(s, attempts) ==
      IngestState(attempts[MAX_FAILS - 1].resetClock - RESET_LOOKBACK_MS, 0, s.totalTicks)
    ensures RunAppended(s, attempts) == []
  {
    FailuresAccumulate(s, attempts[..MAX_FAILS - 1]);
  }

  ghost predicate AllFetched(attempts: seq<Attempt>) {
    forall i :: 0 <= i < |attempts| ==> attempts[i].outcome.Fetched?
  }

  /** A successful fetch keeps every row logged so far, and every row it logs, below the watermark. */
  lemma FetchKeepsBelow(s: IngestState, a: Attempt, logged: seq<TickRow>)
    requires a.outcome.Fetched? && AllBelow(RowTimes(logged), s.watermark)
    ensures var r := Ingest(s, a);
      s.watermark <= r.next.watermark && AllBelow(RowTimes(logged + r.appended), r.next.watermark)
  {
    var r := Ingest(s, a);
    IngestSpec(s, a);
    var all := logged + r.appended;
    forall i | 0 <= i < |all| ensures RowTimes(all)[i] < r.next.watermark {
      if i >= |logged| {
        var j := i - |logged|;
        assert all[i] == r.appended[j];
        assert Times(Batch(a.outcome))[j] == all[i].timeMsc;
      } else {
        assert RowTimes(logged)[i] == all[i].timeMsc;
      }
    }
  }

  /**
    * Over successful fetches the watermark never moves back, and it stays
    * strictly above every tick logged during the run.
    */
  lemma {:induction false} WatermarkAboveConsumed(s: IngestState, attempts: seq<Attempt>)
    requires AllFetched(attempts)
    ensures s.watermark <= RunState(s, attempts).watermark
    ensures AllBelow(RowTimes(RunAppended(s, attempts)), RunState(s, attempts).watermark)
    ensures RunState(s, attempts).totalTicks == s.totalTicks + |RunAppended(s, attempts)|
    decreases |attempts|
  {
    if |attempts| > 0 {
      var n := |attempts| - 1;
      var before := attempts[..n];
      WatermarkAboveConsumed(s, before);
      var mid := RunState(s, before);
      var r := Ingest(mid, attempts[n]);
      assert RunState(s, attempts) == r.next;
      assert RunAppended(s, attempts) == RunAppended(s, before) + r.appended;
      FetchKeepsBelow(mid, attempts[n], RunAppended(s, before));
      IngestSpec(mid, attempts[n]);
    }
  }

  /** Feeding the same batch twice logs it once: the second fetch finds it behind the watermark. */
  lemma RepeatedBatch(s: IngestState, batch: seq<RawTick>, c1: int, c2: int)
    ensures var first := Ingest(s, Attempt(Fetched(Some(batch)), c1));
      var second := Ingest(first.next, Attempt(Fetched(Some(batch)), c2));
      second.appended == [] && second.next == first.next
  {
    var first := Ingest(s, Attempt(Fetched(Some(batch)), c1));
    IngestSpec(s, Attempt(Fetched(Some(batch)), c1));
    IngestSpec(first.next, Attempt(Fetched(Some(batch)), c2));
    if |first.appended| > 0 {
      forall i | 0 <= i < |batch| ensures batch[i].timeMsc <= first.next.watermark {
        assert Times(batch)[i] == batch[i].timeMsc;
      }
    }
  }

  /**
    * When the terminal returns only ticks at or after the watermark it was asked
    * from, every appended tick is later than every tick already logged, and the
    * log stays behind the new watermark.
    */
  lemma NoReplay(s: IngestState, logged: seq<int>, a: Attempt)
    requires AllBelow(logged, s.watermark)
    requires AllAtLeast(Times(Batch(a.outcome)), s.watermark)
    requires a.outcome.Fetched?
    ensures var r := Ingest(s, a);
      AllBelow(logged + RowTimes(r.appended), r.next.watermark) &&
      forall i, j :: 0 <= i < |logged| && 0 <= j < |r.appended| ==> logged[i] < r.appended[j].timeMsc
  {
    var r := Ingest(s, a);
    var b := Batch(a.outcome);
    IngestSpec(s, a);
    forall j | 0 <= j < |r.appended| ensures s.watermark <= r.appended[j].timeMsc < r.next.watermark {
      assert Times(b)[j] == b[j].timeMsc;
    }
    var all := logged + RowTimes(r.appended);
    forall k | 0 <= k < |all| ensures all[k] < r.next.watermark {
      if k >= |logged| { assert all[k] == r.appended[k - |logged|].timeMsc; }
    }
  }

  /**
    * The whole batch is appended once its newest tick passes the watermark: a
    * repeated boundary tick older than the watermark is logged again.
    */
  lemma BoundaryTickRelogged()
    ensures var old99 := RawTick(99, 1.0, 1.0, 0.0, 0, None, 2);
      var new150 := RawTick(150, 1.0, 1.0, 0.0, 0, None, 2);
      var r := Ingest(IngestState(100, 0, 1), Attempt(Fetched(Some([old99, new150])), 0));
      RowTimes(r.appended) == [99, 150] && r.next.watermark == 151
  {
    var b := [RawTick(99, 1.0, 1.0, 0.0, 0, None, 2), RawTick(150, 1.0, 1.0, 0.0, 0, None, 2)];
    assert Times(b) == [99, 150];
    assert Max(Times(b)) == 150;
  }
}
