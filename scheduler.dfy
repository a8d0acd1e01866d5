/**
  * The periodic tasks of the main loop. Each keeps the clock of its last run; a
  * task runs when at least its interval has elapsed since then, and its clock is
  * set to the current one. A late task runs once, never several times to catch up.
  */
module Scheduler {
  /** Intervals, in milliseconds, of the tasks the loop schedules. */
  const HEARTBEAT_MS: int := 10_000
  const OHLCV_SYNC_MS: int := 60_000
  const DOM_SNAP_MS: int := 5_000
  const META_LOG_MS: int := 3_600_000

  datatype Task = OhlcvSync | DomSnap | MetaLog | Heartbeat

  function Interval(t: Task): (ms: int)
    ensures ms > 0
  {
    match t
    case OhlcvSync => OHLCV_SYNC_MS
    case DomSnap => DOM_SNAP_MS
    case MetaLog => META_LOG_MS
    case Heartbeat => HEARTBEAT_MS
  }

  /** `now - last_run >= interval`. */
  predicate Due(now: int, lastRun: int, interval: int) {
    now - lastRun >= interval
  }

  datatype Poll = Poll(ran: bool, lastRun: int)

  /** One iteration's check of one task. */
  function Check(lastRun: int, now: int, interval: int): Poll {
    if Due(now, lastRun, interval) then Poll(true, now) else Poll(false, lastRun)
  }

  /** The clocks at which a task runs over successive iterations. */
  function Fired(lastRun: int, interval: int, clocks: seq<int>): seq<int>
    decreases |clocks|
  {
    if |clocks| == 0 then []
    else
      var p := Check(lastRun, clocks[0], interval);
      (if p.ran then [clocks[0]] else []) + Fired(p.lastRun, interval, clocks[1..])
  }

  /** The task's clock after successive iterations. */
  function LastRunAfter(lastRun: int, interval: int, clocks: seq<int>): int
    decreases |clocks|
  {
    if |clocks| == 0 then lastRun
    else LastRunAfter(Check(lastRun, clocks[0], interval).lastRun, interval, clocks[1..])
  }

  /** Runs are at least one interval apart, the first one interval after the starting clock. */
  lemma {:induction false} RunsSpaced(lastRun: int, interval: int, clocks: seq<int>)
    ensures var f := Fired(lastRun, interval, clocks);
      (|f| > 0 ==> f[0] - lastRun >= interval) &&
      (forall k :: 0 < k < |f| ==> f[k] - f[k - 1] >= interval)
    decreases |clocks|
  {
    if |clocks| > 0 {
      var p := Check(lastRun, clocks[0], interval);
      RunsSpaced(p.lastRun, interval, clocks[1..]);
      var rest := Fired(p.lastRun, interval, clocks[1..]);
      if p.ran {
        var f := [clocks[0]] + rest;
        assert Fired(lastRun, interval, clocks) == f;
        forall k | 0 < k < |f| ensures f[k] - f[k - 1] >= interval {
          assert f[k] == rest[k - 1];
          if k > 1 { assert f[k - 1] == rest[k - 2]; }
        }
      } else {
        assert Fired(lastRun, interval, clocks) == rest;
      }
    }
  }

  /** At most one run per iteration, and the task's clock ends at its last run. */
  lemma {:induction false} OneRunPerIteration(lastRun: int, interval: int, clocks: seq<int>)
    ensures var f := Fired(lastRun, interval, clocks);
      |f| <= |clocks| &&
      LastRunAfter(lastRun, interval, clocks) == (if |f| == 0 then lastRun else f[|f| - 1])
    decreases |clocks|
  {
    if |clocks| > 0 {
      var p := Check(lastRun, clocks[0], interval);
      OneRunPerIteration(p.lastRun, interval, clocks[1..]);
      var rest := Fired(p.lastRun, interval, clocks[1..]);
      if p.ran {
        assert Fired(lastRun, interval, clocks) == [clocks[0]] + rest;
      } else {
        assert Fired(lastRun, interval, clocks) == rest;
      }
    }
  }

  /** An iteration in which a task does not run is one where it was not due. */
  lemma {:induction false} IdleMeansNotDue(lastRun: int, interval: int, clocks: seq<int>)
    requires Fired(lastRun, interval, clocks) == []
    ensures forall i :: 0 <= i < |clocks| ==> clocks[i] - lastRun < interval
    ensures LastRunAfter(lastRun, interval, clocks) == lastRun
    decreases |clocks|
  {
    if |clocks| > 0 {
      IdleMeansNotDue(lastRun, interval, clocks[1..]);
      forall i | 1 <= i < |clocks| ensures clocks[i] - lastRun < interval {
        assert clocks[i] == clocks[1..][i - 1];
      }
    }
  }

  /** However late a run is, the next iteration within one interval of it does not run again. */
  lemma NoCatchUp(lastRun: int, interval: int, now: int, next: int)
    requires interval > 0 && Due(now, lastRun, interval)
    requires next - now < interval
    ensures Fired(lastRun, interval, [now, next]) == [now]
  {
    assert [now, next][1..] == [next];
    assert [next][1..] == [];
    assert Fired(now, interval, [next]) == [] + Fired(now, interval, []);
    assert Fired(lastRun, interval, [now, next]) == [now] + Fired(now, interval, [next]);
  }

  /** One more iteration at clock `c` after `clocks`. */
  lemma {:induction false} LastRunAfterSnoc(lastRun: int, interval: int, clocks: seq<int>, c: int)
    ensures LastRunAfter(lastRun, interval, clocks + [c]) ==
      Check(LastRunAfter(lastRun, interval, clocks), c, interval).lastRun
    decreases |clocks|
  {
    if |clocks| == 0 {
      assert [c][1..] == [];
    } else {
      assert (clocks + [c])[1..] == clocks[1..] + [c];
      LastRunAfterSnoc(Check(lastRun, clocks[0], interval).lastRun, interval, clocks[1..], c);
    }
  }
}
