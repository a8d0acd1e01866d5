/**
  * The logger process. Its whole state (the module-level globals of the script,
  * the variables of its main loop and the files it writes) is the value
  * `LoggerState`; each task of the script is a function from one such value to
  * the next, and the class `Logger` holds the state in fields and runs the
  * tasks as methods, each proved to leave the fields equal to what the task's
  * function makes of their old values.
  */
module TickLogger {
  import opened Wrappers
  import opened CsvLog
  import Sessions
  import StateStore
  import opened Ticks
  import opened Scheduler
  import opened Bars
  import opened Depth

  /** Symbol metadata as the terminal reports it: the values of the logged fields, in column order. */
  datatype SymbolInfo = SymbolInfo(values: seq<string>)

  /** A row of the metadata log. */
  datatype MetaRow = MetaRow(loggedAt: int, info: SymbolInfo)

  /** A row of the heartbeat log (without the file sizes). */
  datatype HeartbeatRow = HeartbeatRow(
    timeMsc: int, watermark: int, batchSize: nat, totalTicks: nat, session: Sessions.Label)

  /**
    * Everything the outside world contributes to one loop iteration: the clock
    * read at its top, what each upstream call returns if it is made, and the
    * clock reading each task stamps its row with.
    */
  datatype Observation = Observation(
    now: int,
    rates: map<Timeframe, Option<seq<Bar>>>,
    book: BookOutcome, domClock: int,
    info: Option<SymbolInfo>, metaClock: int,
    fetch: FetchOutcome, resetClock: int,
    heartbeatClock: int)

  /** What the bar fetch returns for `tf`; a timeframe the map does not mention returned nothing. */
  function RatesFor(rates: map<Timeframe, Option<seq<Bar>>>, tf: Timeframe): Option<seq<Bar>> {
    if tf in rates then rates[tf] else None
  }

  /** `ohlcv_last_bar` as the script creates it: every timeframe at 0. */
  const START_CURSORS: map<Timeframe, int> := map tf | tf in TIMEFRAMES :: 0

  /** The files the logger writes: one per log, one bar file per timeframe, and the state file. */
  datatype Disk = Disk(
    ticks: Dest<TickRow>, bars: map<Timeframe, Dest<BarRow>>, dom: Dest<DepthRow>,
    meta: Dest<MetaRow>, sessions: Dest<Sessions.Event>, heartbeats: Dest<HeartbeatRow>,
    state: StateStore.StateFile)

  /** Every file is one this logger wrote, and every timeframe has its bar file. */
  ghost predicate DiskWellFormed(d: Disk) {
    WellFormed(d.ticks) && WellFormed(d.dom) && WellFormed(d.meta) &&
    WellFormed(d.sessions) && WellFormed(d.heartbeats) &&
    forall tf: Timeframe :: tf in d.bars && WellFormed(d.bars[tf])
  }

  /**
    * The logger's state: the tick state (`last_time_msc`, `fail_count`,
    * `total_ticks`), the clocks of the periodic tasks, the bar cursors, the
    * depth capability, the current session and the files.
    */
  datatype LoggerState = LoggerState(
    ingest: IngestState,
    lastOhlcvSync: int, lastDomSnap: int, lastMetaLog: int, lastHeartbeat: int,
    barCursor: map<Timeframe, int>, dom: Capability, session: Option<Sessions.Label>,
    disk: Disk)

  /** Every timeframe has a bar cursor and a bar file. */
  ghost predicate HasTimeframes(s: LoggerState) {
    Complete(FeedsOf(s))
  }

  /** What holds of the running logger whatever its files held at startup. */
  ghost predicate Running(s: LoggerState) {
    s.ingest.failCount < MAX_FAILS && HasTimeframes(s)
  }

  /** The invariant of a logger started on files it wrote itself: it runs, and every file is well formed. */
  ghost predicate Consistent(s: LoggerState) {
    Running(s) && DiskWellFormed(s.disk)
  }

  /**
    * From `a` to `b` every log only gained rows at its end, the tick count grew
    * by exactly the rows the tick log gained, every bar cursor only moved
    * forward, and a final depth capability stayed final.
    */
  ghost predicate Grew(a: LoggerState, b: LoggerState) {
    Rows(a.disk.ticks.lines) <= Rows(b.disk.ticks.lines) &&
    |Rows(b.disk.ticks.lines)| - |Rows(a.disk.ticks.lines)| == b.ingest.totalTicks - a.ingest.totalTicks &&
    Rows(a.disk.dom.lines) <= Rows(b.disk.dom.lines) &&
    Rows(a.disk.meta.lines) <= Rows(b.disk.meta.lines) &&
    Rows(a.disk.sessions.lines) <= Rows(b.disk.sessions.lines) &&
    Rows(a.disk.heartbeats.lines) <= Rows(b.disk.heartbeats.lines) &&
    (forall tf :: tf in a.barCursor ==> tf in b.barCursor && a.barCursor[tf] <= b.barCursor[tf]) &&
    (forall tf :: tf in a.disk.bars ==> tf in b.disk.bars && Rows(a.disk.bars[tf].lines) <= Rows(b.disk.bars[tf].lines)) &&
    (a.dom == Unsupported ==> b.dom == Unsupported && b.disk.dom == a.disk.dom) &&
    (a.dom == Supported ==> b.dom == Supported)
  }

  /** A step the logger may take: it grows every output and keeps the invariant. */
  ghost predicate Advances(a: LoggerState, b: LoggerState) {
    Grew(a, b) && (Consistent(a) ==> Consistent(b))
  }

  lemma AdvancesTransitive(a: LoggerState, b: LoggerState, c: LoggerState)
    requires Advances(a, b) && Advances(b, c)
    ensures Advances(a, c)
  {
  }

  // ---------------------------------------------------------------- bars

  /** The bar cursors (`ohlcv_last_bar`) and the bar files, by timeframe. */
  datatype Feeds = Feeds(cursor: map<Timeframe, int>, files: map<Timeframe, Dest<BarRow>>)

  function FeedsOf(s: LoggerState): Feeds {
    Feeds(s.barCursor, s.disk.bars)
  }

  /** Every timeframe has a cursor and a file. */
  ghost predicate Complete(f: Feeds) {
    forall tf: Timeframe :: tf in f.cursor && tf in f.files
  }

  /** `sync_ohlcv(tf)`: the timeframe's new bars are appended to its file and its cursor moves. */
  function SyncOne(f: Feeds, tf: Timeframe, rates: Option<seq<Bar>>): Feeds
    requires tf in f.cursor && tf in f.files
  {
    var r := Sync(f.cursor[tf], rates);
    Feeds(f.cursor[tf := r.cursor], f.files[tf := Append(f.files[tf], r.rows)])
  }

  /** `sync_ohlcv` for each timeframe of `tfs` in turn. */
  function SyncEach(f: Feeds, rates: map<Timeframe, Option<seq<Bar>>>, tfs: seq<Timeframe>): (r: Feeds)
    requires Complete(f)
    ensures Complete(r)
    decreases |tfs|
  {
    if |tfs| == 0 then f
    else
      var n := |tfs| - 1;
      SyncOne(SyncEach(f, rates, tfs[..n]), tfs[n], RatesFor(rates, tfs[n]))
  }

  /** Syncing one more timeframe of a list extends the fold over its prefix by one `SyncOne`. */
  lemma SyncEachSnoc(f: Feeds, rates: map<Timeframe, Option<seq<Bar>>>, tfs: seq<Timeframe>, i: nat)
    requires Complete(f) && i < |tfs|
    ensures SyncEach(f, rates, tfs[..i + 1]) == SyncOne(SyncEach(f, rates, tfs[..i]), tfs[i], RatesFor(rates, tfs[i]))
  {
    assert tfs[..i + 1][..i] == tfs[..i];
  }

  /** Timeframe `tf` of `g` is timeframe `tf` of `f` synced against `rates`. */
  ghost predicate Synced(g: Feeds, f: Feeds, rates: map<Timeframe, Option<seq<Bar>>>, tf: Timeframe) {
    tf in g.cursor && tf in g.files && tf in f.cursor && tf in f.files &&
    var r := Sync(f.cursor[tf], RatesFor(rates, tf));
    g.cursor[tf] == r.cursor && g.files[tf] == Append(f.files[tf], r.rows)
  }

  ghost predicate Distinct(tfs: seq<Timeframe>) {
    forall j, k :: 0 <= j < k < |tfs| ==> tfs[j] != tfs[k]
  }

  /**
    * Syncing distinct timeframes in turn: each of them is synced against its
    * own cursor, whatever the others did, and every other timeframe is untouched.
    */
  lemma {:induction false} SyncEachAt(f: Feeds, rates: map<Timeframe, Option<seq<Bar>>>, tfs: seq<Timeframe>, tf: Timeframe)
    requires Complete(f) && Distinct(tfs)
    ensures var g := SyncEach(f, rates, tfs);
      if tf in tfs then Synced(g, f, rates, tf)
      else g.cursor[tf] == f.cursor[tf] && g.files[tf] == f.files[tf]
    decreases |tfs|
  {
    if |tfs| > 0 {
      var n := |tfs| - 1;
      var tf0 := tfs[n];
      var p := SyncEach(f, rates, tfs[..n]);
      var g := SyncOne(p, tf0, RatesFor(rates, tf0));
      assert SyncEach(f, rates, tfs) == g;
      DistinctPrefix(tfs);
      SyncEachAt(f, rates, tfs[..n], tf);
      if tf != tf0 {
        assert g.cursor[tf] == p.cursor[tf] && g.files[tf] == p.files[tf];
      }
    }
  }

  /** Dropping the last timeframe of a distinct list leaves a distinct list without it. */
  lemma DistinctPrefix(tfs: seq<Timeframe>)
    requires Distinct(tfs) && |tfs| > 0
    ensures var n := |tfs| - 1;
      Distinct(tfs[..n]) && tfs[n] !in tfs[..n] &&
      forall tf :: tf in tfs <==> tf in tfs[..n] || tf == tfs[n]
  {
    var n := |tfs| - 1;
    assert tfs == tfs[..n] + [tfs[n]];
    forall j | 0 <= j < n ensures tfs[..n][j] != tfs[n] {
      assert tfs[..n][j] == tfs[j];
    }
  }

  lemma TimeframesDistinct()
    ensures Distinct(TIMEFRAMES)
    ensures forall tf: Timeframe :: tf in TIMEFRAMES
  {
    forall j, k | 0 <= j < k < |TIMEFRAMES| ensures TIMEFRAMES[j] != TIMEFRAMES[k] {
      IndexOfListed(j);
      IndexOfListed(k);
    }
    forall tf: Timeframe ensures tf in TIMEFRAMES {
      assert TIMEFRAMES[Index(tf)] == tf;
    }
  }

  /** `sync_all_ohlcv` syncs every timeframe against its own cursor. */
  lemma SyncAllSpec(f: Feeds, rates: map<Timeframe, Option<seq<Bar>>>)
    requires Complete(f)
    ensures forall tf: Timeframe :: Synced(SyncEach(f, rates, TIMEFRAMES), f, rates, tf)
  {
    TimeframesDistinct();
    forall tf: Timeframe ensures Synced(SyncEach(f, rates, TIMEFRAMES), f, rates, tf) {
      SyncEachAt(f, rates, TIMEFRAMES, tf);
    }
  }

  /** `sync_all_ohlcv` on the logger: only the cursors and the bar files change. */
  function SyncAll(s: LoggerState, rates: map<Timeframe, Option<seq<Bar>>>): LoggerState
    requires HasTimeframes(s)
  {
    var g := SyncEach(FeedsOf(s), rates, TIMEFRAMES);
    s.(barCursor := g.cursor, disk := s.disk.(bars := g.files))
  }

  /** A bar sync advances the logger. */
  lemma SyncAllAdvances(s: LoggerState, rates: map<Timeframe, Option<seq<Bar>>>)
    requires HasTimeframes(s)
    ensures Advances(s, SyncAll(s, rates))
  {
    var f := FeedsOf(s);
    var g := SyncEach(f, rates, TIMEFRAMES);
    SyncAllSpec(f, rates);
    forall tf | tf in f.cursor ensures tf in g.cursor && f.cursor[tf] <= g.cursor[tf] {
      assert Synced(g, f, rates, tf);
      SyncSpec(f.cursor[tf], RatesFor(rates, tf));
    }
    forall tf | tf in f.files ensures tf in g.files && Rows(f.files[tf].lines) <= Rows(g.files[tf].lines) {
      assert Synced(g, f, rates, tf);
    }
    if Consistent(s) {
      forall tf: Timeframe ensures WellFormed(g.files[tf]) {
        assert Synced(g, f, rates, tf);
      }
    }
  }

  // ---------------------------------------------------------------- the other tasks

  /** `snap_dom`, stamped with `clock`. */
  function SnapStep(s: LoggerState, outcome: BookOutcome, clock: int): LoggerState {
    var r := Snap(s.dom, outcome, clock);
    s.(dom := r.capability, disk := s.disk.(dom := Append(s.disk.dom, r.rows)))
  }

  /** The rows `log_metadata` appends: none when the terminal knows no such symbol. */
  function MetaRows(info: Option<SymbolInfo>, clock: int): seq<MetaRow> {
    if info.Some? then [MetaRow(clock, info.value)] else []
  }

  /** `log_metadata`, stamped with `clock`. */
  function MetaStep(s: LoggerState, info: Option<SymbolInfo>, clock: int): LoggerState {
    s.(disk := s.disk.(meta := Append(s.disk.meta, MetaRows(info, clock))))
  }

  /** The rows a session check appends: its event, if there is one. */
  function EventRows(t: Sessions.Transition): seq<Sessions.Event> {
    if t.event.Some? then [t.event.value] else []
  }

  /** `check_session_change` at the instant `msc`. */
  function SessionStep(s: LoggerState, msc: int): LoggerState {
    var t := Sessions.Detect(s.session, msc);
    s.(session := t.held, disk := s.disk.(sessions := Append(s.disk.sessions, EventRows(t))))
  }

  /** `log_heartbeat`, stamped with `clock`, reporting the last batch length and the tick state. */
  function HeartbeatStep(s: LoggerState, clock: int, batchSize: nat): LoggerState {
    var row := HeartbeatRow(clock, s.ingest.watermark, batchSize, s.ingest.totalTicks, Sessions.OfInstant(clock));
    s.(disk := s.disk.(heartbeats := Append(s.disk.heartbeats, [row])))
  }

  /**
    * The tick part of an iteration: what `Ingest` makes of attempt `a`; an
    * accepted batch is appended, the new watermark saved, and the session of
    * the newest tick checked.
    */
  function IngestStep(s: LoggerState, a: Attempt): LoggerState {
    var r := Ingest(s.ingest, a);
    var t := s.(ingest := r.next, disk := s.disk.(ticks := Append(s.disk.ticks, r.appended)));
    if r.newest.Some? then SessionStep(t.(disk := t.disk.(state := StateStore.Save(r.next.watermark))), r.newest.value)
    else t
  }

  /**
    * What an accepted batch does: the batch is logged whole and counted, the
    * watermark moves one past its newest tick `newest` and is saved, and the
    * session of that tick is checked.
    */
  function Accepted(s: LoggerState, batch: seq<RawTick>, newest: int): LoggerState {
    var next := s.ingest.(watermark := newest + 1, totalTicks := s.ingest.totalTicks + |batch|);
    SessionStep(s.(ingest := next,
      disk := s.disk.(ticks := Append(s.disk.ticks, EnrichAll(batch)), state := StateStore.Save(next.watermark))), newest)
  }

  /** A fetched batch that reaches past the watermark clears the counter and is `Accepted`. */
  lemma IngestAccepted(s: LoggerState, a: Attempt)
    requires a.outcome.Fetched?
    requires var b := Batch(a.outcome); |b| > 0 && Stamps.Max(Times(b)) > s.ingest.watermark
    ensures var b := Batch(a.outcome);
      Ingest(s.ingest, a).batchSize == |b| &&
      IngestStep(s, a) == Accepted(s.(ingest := s.ingest.(failCount := 0)), b, Stamps.Max(Times(b)))
  {
  }

  /** A fetched batch that does not reach past the watermark only clears the failure counter. */
  lemma IngestIgnored(s: LoggerState, a: Attempt)
    requires a.outcome.Fetched?
    requires var b := Batch(a.outcome); |b| == 0 || Stamps.Max(Times(b)) <= s.ingest.watermark
    ensures Ingest(s.ingest, a).batchSize == |Batch(a.outcome)|
    ensures IngestStep(s, a) == s.(ingest := s.ingest.(failCount := 0))
  {
  }

  lemma SnapAdvances(s: LoggerState, outcome: BookOutcome, clock: int)
    ensures Advances(s, SnapStep(s, outcome, clock))
  {
    SnapSpec(s.dom, outcome, clock);
  }

  lemma IngestAdvances(s: LoggerState, a: Attempt)
    ensures Advances(s, IngestStep(s, a))
  {
    IngestSpec(s.ingest, a);
  }

  // ---------------------------------------------------------------- one iteration

  /** The bar sync, when a minute has passed since the last one. */
  function OhlcvTask(s: LoggerState, obs: Observation): LoggerState
    requires HasTimeframes(s)
  {
    var p := Check(s.lastOhlcvSync, obs.now, Interval(OhlcvSync));
    if p.ran then SyncAll(s, obs.rates).(lastOhlcvSync := p.lastRun) else s
  }

  /** The book snapshot, when five seconds have passed since the last one. */
  function DomTask(s: LoggerState, obs: Observation): LoggerState {
    var p := Check(s.lastDomSnap, obs.now, Interval(DomSnap));
    if p.ran then SnapStep(s, obs.book, obs.domClock).(lastDomSnap := p.lastRun) else s
  }

  /** The metadata re-log, when an hour has passed since the last one. */
  function MetaTask(s: LoggerState, obs: Observation): LoggerState {
    var p := Check(s.lastMetaLog, obs.now, Interval(MetaLog));
    if p.ran then MetaStep(s, obs.info, obs.metaClock).(lastMetaLog := p.lastRun) else s
  }

  /**
    * The tick fetch and, unless it failed (the loop then goes straight to the
    * next iteration), the heartbeat when ten seconds have passed since the last one.
    */
  function TickTask(s: LoggerState, obs: Observation): LoggerState {
    var a := Attempt(obs.fetch, obs.resetClock);
    var r := Ingest(s.ingest, a);
    var t := IngestStep(s, a);
    if r.failed then t
    else
      var p := Check(t.lastHeartbeat, obs.now, Interval(Heartbeat));
      if p.ran then HeartbeatStep(t, obs.heartbeatClock, r.batchSize).(lastHeartbeat := p.lastRun) else t
  }

  /** One iteration of the main loop: the periodic tasks in their order, then the ticks and the heartbeat. */
  function Iteration(s: LoggerState, obs: Observation): (r: LoggerState)
    requires HasTimeframes(s)
    ensures HasTimeframes(r)
  {
    TickTask(MetaTask(DomTask(OhlcvTask(s, obs), obs), obs), obs)
  }

  /** A run of iterations, one per observation. */
  function Steps(s: LoggerState, observations: seq<Observation>): (r: LoggerState)
    requires HasTimeframes(s)
    ensures HasTimeframes(r)
    decreases |observations|
  {
    if |observations| == 0 then s
    else
      var n := |observations| - 1;
      Iteration(Steps(s, observations[..n]), observations[n])
  }

  lemma OhlcvTaskAdvances(s: LoggerState, obs: Observation)
    requires HasTimeframes(s)
    ensures Advances(s, OhlcvTask(s, obs))
  {
    if Check(s.lastOhlcvSync, obs.now, Interval(OhlcvSync)).ran {
      SyncAllAdvances(s, obs.rates);
    }
  }

  lemma DomTaskAdvances(s: LoggerState, obs: Observation)
    ensures Advances(s, DomTask(s, obs))
  {
    SnapAdvances(s, obs.book, obs.domClock);
  }

  lemma HeartbeatAdvances(s: LoggerState, clock: int, batchSize: nat, now: int)
    ensures Advances(s, HeartbeatStep(s, clock, batchSize).(lastHeartbeat := now))
  {
  }

  lemma TickTaskAdvances(s: LoggerState, obs: Observation)
    ensures Advances(s, TickTask(s, obs))
  {
    var a := Attempt(obs.fetch, obs.resetClock);
    var t := IngestStep(s, a);
    IngestAdvances(s, a);
    HeartbeatAdvances(t, obs.heartbeatClock, Ingest(s.ingest, a).batchSize, obs.now);
    AdvancesTransitive(s, t, HeartbeatStep(t, obs.heartbeatClock, Ingest(s.ingest, a).batchSize).(lastHeartbeat := obs.now));
  }

  lemma MetaTaskAdvances(s: LoggerState, obs: Observation)
    ensures Advances(s, MetaTask(s, obs))
  {
  }

  /** Steps that each advance the logger advance it together. */
  lemma AdvancesChain(a: LoggerState, b: LoggerState, c: LoggerState, d: LoggerState, e: LoggerState)
    requires Advances(a, b) && Advances(b, c) && Advances(c, d) && Advances(d, e)
    ensures Advances(a, e)
  {
    AdvancesTransitive(a, b, c);
    AdvancesTransitive(a, c, d);
    AdvancesTransitive(a, d, e);
  }

  /** Every iteration advances the logger. */
  lemma IterationAdvances(s: LoggerState, obs: Observation)
    requires HasTimeframes(s)
    ensures Advances(s, Iteration(s, obs))
  {
    var s1 := OhlcvTask(s, obs);
    var s2 := DomTask(s1, obs);
    var s3 := MetaTask(s2, obs);
    OhlcvTaskAdvances(s, obs);
    DomTaskAdvances(s1, obs);
    MetaTaskAdvances(s2, obs);
    TickTaskAdvances(s3, obs);
    AdvancesChain(s, s1, s2, s3, Iteration(s, obs));
  }

  /** Over any run the logs only grow, the cursors only advance, and the invariant holds throughout. */
  lemma {:induction false} StepsAdvance(s: LoggerState, observations: seq<Observation>)
    requires HasTimeframes(s)
    ensures Advances(s, Steps(s, observations))
    decreases |observations|
  {
    if |observations| > 0 {
      var n := |observations| - 1;
      var p := Steps(s, observations[..n]);
      var q := Iteration(p, observations[n]);
      assert Steps(s, observations) == q;
      StepsAdvance(s, observations[..n]);
      IterationAdvances(p, observations[n]);
      AdvancesTransitive(s, p, q);
    }
  }

  /**
    * What an iteration does to the tick state, the tick log and the state file
    * is what `Ingest` makes of its fetch: the periodic tasks do not touch them.
    */
  lemma IterationTicks(s: LoggerState, obs: Observation)
    requires HasTimeframes(s)
    ensures var r := Ingest(s.ingest, Attempt(obs.fetch, obs.resetClock));
      var t := Iteration(s, obs);
      t.ingest == r.next && t.disk.ticks == Append(s.disk.ticks, r.appended) &&
      t.disk.state == (if r.newest.Some? then StateStore.Save(r.next.watermark) else s.disk.state)
  {
    var s3 := MetaTask(DomTask(OhlcvTask(s, obs), obs), obs);
    assert s3.ingest == s.ingest && s3.disk.ticks == s.disk.ticks && s3.disk.state == s.disk.state;
    assert Iteration(s, obs) == TickTask(s3, obs);
  }

  /**
    * The clocks of the periodic tasks move as the scheduler's check says; the
    * heartbeat's is checked only on an iteration whose fetch did not fail.
    */
  lemma IterationClocks(s: LoggerState, obs: Observation)
    requires HasTimeframes(s)
    ensures var t := Iteration(s, obs);
      t.lastOhlcvSync == Check(s.lastOhlcvSync, obs.now, Interval(OhlcvSync)).lastRun &&
      t.lastDomSnap == Check(s.lastDomSnap, obs.now, Interval(DomSnap)).lastRun &&
      t.lastMetaLog == Check(s.lastMetaLog, obs.now, Interval(MetaLog)).lastRun &&
      t.lastHeartbeat == (if Ingest(s.ingest, Attempt(obs.fetch, obs.resetClock)).failed then s.lastHeartbeat
                          else Check(s.lastHeartbeat, obs.now, Interval(Heartbeat)).lastRun)
  {
    var s1 := OhlcvTask(s, obs);
    var s2 := DomTask(s1, obs);
    var s3 := MetaTask(s2, obs);
    assert s1.lastDomSnap == s.lastDomSnap && s1.lastMetaLog == s.lastMetaLog;
    assert s2.lastMetaLog == s.lastMetaLog && s2.lastOhlcvSync == s1.lastOhlcvSync;
    assert s3.lastOhlcvSync == s1.lastOhlcvSync && s3.lastDomSnap == s2.lastDomSnap;
    assert s3.ingest == s.ingest && s3.lastHeartbeat == s.lastHeartbeat;
    assert Iteration(s, obs) == TickTask(s3, obs);
    TickTaskClocks(s3, obs);
  }

  /** The tick part leaves the periodic tasks' clocks alone and moves the heartbeat's unless the fetch failed. */
  lemma TickTaskClocks(s: LoggerState, obs: Observation)
    ensures var t := TickTask(s, obs);
      t.lastOhlcvSync == s.lastOhlcvSync && t.lastDomSnap == s.lastDomSnap && t.lastMetaLog == s.lastMetaLog &&
      t.lastHeartbeat == (if Ingest(s.ingest, Attempt(obs.fetch, obs.resetClock)).failed then s.lastHeartbeat
                          else Check(s.lastHeartbeat, obs.now, Interval(Heartbeat)).lastRun)
  {
    var t := IngestStep(s, Attempt(obs.fetch, obs.resetClock));
    assert t.lastOhlcvSync == s.lastOhlcvSync && t.lastDomSnap == s.lastDomSnap;
    assert t.lastMetaLog == s.lastMetaLog && t.lastHeartbeat == s.lastHeartbeat;
  }

  /** The clocks read at the top of each iteration. */
  function Nows(observations: seq<Observation>): (cs: seq<int>)
    ensures |cs| == |observations| && forall i :: 0 <= i < |cs| ==> cs[i] == observations[i].now
  {
    seq(|observations|, i requires 0 <= i < |observations| => observations[i].now)
  }

  /**
    * Over a run, each periodic task's clock ends where the scheduler's would:
    * at `LastRunAfter` of its starting clock and the iterations' clocks.
    */
  lemma {:induction false} StepsClocks(s: LoggerState, observations: seq<Observation>)
    requires HasTimeframes(s)
    ensures var t := Steps(s, observations);
      t.lastOhlcvSync == LastRunAfter(s.lastOhlcvSync, Interval(OhlcvSync), Nows(observations)) &&
      t.lastDomSnap == LastRunAfter(s.lastDomSnap, Interval(DomSnap), Nows(observations)) &&
      t.lastMetaLog == LastRunAfter(s.lastMetaLog, Interval(MetaLog), Nows(observations))
    decreases |observations|
  {
    if |observations| > 0 {
      var n := |observations| - 1;
      var prefix := observations[..n];
      StepsClocks(s, prefix);
      IterationClocks(Steps(s, prefix), observations[n]);
      assert Nows(observations) == Nows(prefix) + [observations[n].now];
      LastRunAfterSnoc(s.lastOhlcvSync, Interval(OhlcvSync), Nows(prefix), observations[n].now);
      LastRunAfterSnoc(s.lastDomSnap, Interval(DomSnap), Nows(prefix), observations[n].now);
      LastRunAfterSnoc(s.lastMetaLog, Interval(MetaLog), Nows(prefix), observations[n].now);
    }
  }

  /** An iteration keeps the failure counter below its bound and every timeframe in place, whatever the files hold. */
  lemma IterationRunning(s: LoggerState, obs: Observation)
    requires HasTimeframes(s)
    ensures Running(Iteration(s, obs))
  {
    IterationTicks(s, obs);
    IngestSpec(s.ingest, Attempt(obs.fetch, obs.resetClock));
  }

  // ---------------------------------------------------------------- startup

  /** What the startup sequence reads: metadata, the initial bar sync, the state-file clock, the loop's start clock. */
  datatype Boot = Boot(
    info: Option<SymbolInfo>, metaClock: int,
    rates: map<Timeframe, Option<seq<Bar>>>,
    loadClock: int, startClock: int)

  /**
    * The state before the initial bar sync: metadata logged, the watermark
    * resumed, every task clock at the start clock, every cursor at 0, the depth
    * capability and the session unknown. `load_state` and the clock readings
    * come after the sync in the script; they touch neither the cursors nor the
    * bar files, so the order does not matter.
    */
  function Booted(disk: Disk, boot: Boot): LoggerState {
    var c := boot.startClock;
    LoggerState(IngestState(StateStore.Load(disk.state, boot.loadClock), 0, 0), c, c, c, c,
      START_CURSORS, Unknown, None, disk.(meta := Append(disk.meta, MetaRows(boot.info, boot.metaClock))))
  }

  /** The startup sequence: metadata, a first bar sync from cursors at 0, the resumed watermark, the task clocks. */
  function Startup(disk: Disk, boot: Boot): LoggerState
    requires forall tf: Timeframe :: tf in disk.bars
  {
    StartCursorsComplete();
    SyncAll(Booted(disk, boot), boot.rates)
  }

  lemma StartCursorsComplete()
    ensures forall tf: Timeframe :: tf in START_CURSORS
  {
    forall tf: Timeframe ensures tf in START_CURSORS {
      assert TIMEFRAMES[Index(tf)] == tf;
    }
  }

  /**
    * Startup resumes from the state file's clamped value with a clear counter
    * and no ticks counted, the depth capability unknown and no session held;
    * started from files this logger wrote, it is consistent.
    */
  lemma StartupConsistent(disk: Disk, boot: Boot)
    requires forall tf: Timeframe :: tf in disk.bars
    ensures var s := Startup(disk, boot);
      Running(s) && s.ingest == IngestState(StateStore.Load(disk.state, boot.loadClock), 0, 0) &&
      s.dom == Unknown && s.session == None &&
      (DiskWellFormed(disk) ==> Consistent(s))
  {
    StartCursorsComplete();
    var b := Booted(disk, boot);
    SyncAllAdvances(b, boot.rates);
  }

  // ---------------------------------------------------------------- the process

  class Logger {
    var watermark: int
    var failCount: nat
    var totalTicks: nat
    var lastOhlcvSync: int
    var lastDomSnap: int
    var lastMetaLog: int
    var lastHeartbeat: int
    var barCursor: map<Timeframe, int>
    var dom: Capability
    var currentSession: Option<Sessions.Label>
    var stateFile: StateStore.StateFile
    var tickLog: Dest<TickRow>
    var barLogs: map<Timeframe, Dest<BarRow>>
    var domLog: Dest<DepthRow>
    var metaLog: Dest<MetaRow>
    var sessionLog: Dest<Sessions.Event>
    var heartbeatLog: Dest<HeartbeatRow>

    /** The state the fields hold. */
    function State(): LoggerState
      reads this
    {
      LoggerState(IngestState(watermark, failCount, totalTicks),
        lastOhlcvSync, lastDomSnap, lastMetaLog, lastHeartbeat, barCursor, dom, currentSession,
        Disk(tickLog, barLogs, domLog, metaLog, sessionLog, heartbeatLog, stateFile))
    }

    /** The bar cursors and the bar files. */
    function BarState(): Feeds
      reads this`barCursor, this`barLogs
    {
      Feeds(barCursor, barLogs)
    }

    ghost predicate Valid()
      reads this
    {
      Running(State())
    }

    constructor Start(disk: Disk, boot: Boot)
      requires forall tf: Timeframe :: tf in disk.bars
      ensures Valid()
      ensures State() == Startup(disk, boot)
      ensures DiskWellFormed(disk) ==> DiskWellFormed(State().disk)
    {
      watermark, failCount, totalTicks := StateStore.Load(disk.state, boot.loadClock), 0, 0;
      lastOhlcvSync, lastDomSnap := boot.startClock, boot.startClock;
      lastMetaLog, lastHeartbeat := boot.startClock, boot.startClock;
      barCursor := START_CURSORS;
      dom, currentSession := Unknown, None;
      stateFile := disk.state;
      tickLog, barLogs, domLog := disk.ticks, disk.bars, disk.dom;
      metaLog, sessionLog, heartbeatLog := disk.meta, disk.sessions, disk.heartbeats;
      new;
      LogMetadata(boot.info, boot.metaClock);
      StartCursorsComplete();
      assert State() == Booted(disk, boot);
      SyncAllOhlcv(boot.rates);
      StartupConsistent(disk, boot);
    }

    /** `sync_ohlcv` for one timeframe. */
    method SyncOhlcv(tf: Timeframe, rates: Option<seq<Bar>>)
      requires tf in barCursor && tf in barLogs
      modifies this`barCursor, this`barLogs
      ensures BarState() == SyncOne(old(BarState()), tf, rates)
    {
      if rates.None? || |rates.value| == 0 {
        return;
      }
      var newer := Newer(rates.value, barCursor[tf]);
      if |newer| == 0 {
        return;
      }
      barLogs := barLogs[tf := Append(barLogs[tf], ToRows(newer))];
      barCursor := barCursor[tf := Stamps.Max(BarTimes(rates.value))];
    }

    /** `sync_all_ohlcv`: every timeframe in turn. */
    method SyncAllOhlcv(rates: map<Timeframe, Option<seq<Bar>>>)
      requires HasTimeframes(State())
      modifies this`barCursor, this`barLogs
      ensures State() == SyncAll(old(State()), rates)
    {
      SyncList(rates, TIMEFRAMES);
    }

    /** The timeframes `tfs` synced one after the other, in order. */
    method SyncList(rates: map<Timeframe, Option<seq<Bar>>>, tfs: seq<Timeframe>)
      requires Complete(BarState())
      modifies this`barCursor, this`barLogs
      ensures BarState() == SyncEach(old(BarState()), rates, tfs)
    {
      for i := 0 to |tfs|
        invariant BarState() == SyncEach(old(BarState()), rates, tfs[..i])
      {
        SyncEachSnoc(old(BarState()), rates, tfs, i);
        SyncOhlcv(tfs[i], RatesFor(rates, tfs[i]));
      }
      assert tfs[..|tfs|] == tfs;
    }

    /** `snap_dom`. */
    method SnapDom(outcome: BookOutcome, clock: int)
      modifies this`dom, this`domLog
      ensures State() == SnapStep(old(State()), outcome, clock)
    {
      if dom == Unsupported {
        return;
      }
      if outcome.BookFailed? {
        return;
      }
      var book := Entries(outcome);
      if |book| == 0 {
        if dom == Unknown {
          dom := Unsupported;
        }
        return;
      }
      dom := Supported;
      var rows := RowsOf(book, clock);
      domLog := Append(domLog, rows);
    }

    /** `log_metadata`. */
    method LogMetadata(info: Option<SymbolInfo>, clock: int)
      modifies this`metaLog
      ensures State() == MetaStep(old(State()), info, clock)
    {
      if info.None? {
        return;
      }
      metaLog := Append(metaLog, [MetaRow(clock, info.value)]);
    }

    /** `check_session_change` at the instant `msc`. */
    method CheckSessionChange(msc: int)
      modifies this`currentSession, this`sessionLog
      ensures State() == SessionStep(old(State()), msc)
    {
      var sess := Sessions.OfInstant(msc);
      if Some(sess) != currentSession {
        var row := Sessions.Event(msc, sess, currentSession);
        currentSession := Some(sess);
        sessionLog := Append(sessionLog, [row]);
      }
    }

    /** `log_heartbeat`, stamped with `clock`, reporting the last batch length. */
    method LogHeartbeat(clock: int, batchSize: nat)
      modifies this`heartbeatLog
      ensures State() == HeartbeatStep(old(State()), clock, batchSize)
    {
      var row := HeartbeatRow(clock, watermark, batchSize, totalTicks, Sessions.OfInstant(clock));
      heartbeatLog := Append(heartbeatLog, [row]);
    }

    /** The tick fetch attempt `a`, reporting the batch length and whether the fetch failed. */
    method IngestTicks(a: Attempt) returns (n: nat, failed: bool)
      modifies this`watermark, this`failCount, this`totalTicks, this`tickLog
      modifies this`stateFile, this`currentSession, this`sessionLog
      ensures State() == IngestStep(old(State()), a)
      ensures n == Ingest(old(State()).ingest, a).batchSize && failed == Ingest(old(State()).ingest, a).failed
    {
      match a.outcome {
        case FetchFailed =>
          CountFailure(a);
          return 0, true;
        case Fetched(_) =>
          n := Consume(a);
          return n, false;
      }
    }

    /** A failed fetch: count it, and force the watermark forward on the MAX_FAILS-th in a row. */
    method CountFailure(a: Attempt)
      requires a.outcome.FetchFailed?
      modifies this`watermark, this`failCount
      ensures State() == IngestStep(old(State()), a)
    {
      failCount := failCount + 1;
      if failCount >= MAX_FAILS {
        watermark := a.resetClock - RESET_LOOKBACK_MS;
        failCount := 0;
      }
    }

    /** A successful fetch: clear the counter and append the batch if it reaches past the watermark. */
    method Consume(a: Attempt) returns (n: nat)
      requires a.outcome.Fetched?
      modifies this`watermark, this`failCount, this`totalTicks, this`tickLog
      modifies this`stateFile, this`currentSession, this`sessionLog
      ensures State() == IngestStep(old(State()), a)
      ensures n == Ingest(old(State()).ingest, a).batchSize
    {
      ghost var s0 := State();
      var got := a.outcome.ticks;
      var batch := if got.Some? then got.value else [];
      assert batch == Batch(a.outcome);
      failCount := 0;
      n := |batch|;
      if |batch| > 0 {
        var newLast := Stamps.Max(Times(batch));
        if newLast > watermark {
          IngestAccepted(s0, a);
          assert State() == s0.(ingest := s0.ingest.(failCount := 0));
          Accept(batch, newLast);
          return;
        }
      }
      IngestIgnored(s0, a);
    }

    /** The part of a successful fetch that logs an accepted batch whose newest tick is `newest`. */
    method Accept(batch: seq<RawTick>, newest: int)
      modifies this`watermark, this`totalTicks, this`tickLog
      modifies this`stateFile, this`currentSession, this`sessionLog
      ensures State() == Accepted(old(State()), batch, newest)
    {
      tickLog := Append(tickLog, EnrichAll(batch));
      totalTicks := totalTicks + |batch|;
      watermark := newest + 1;
      stateFile := StateStore.Save(watermark);
      ghost var s0 := old(State());
      ghost var next := s0.ingest.(watermark := newest + 1, totalTicks := s0.ingest.totalTicks + |batch|);
      assert State() == s0.(ingest := next,
        disk := s0.disk.(ticks := Append(s0.disk.ticks, EnrichAll(batch)), state := StateStore.Save(next.watermark)));
      CheckSessionChange(newest);
    }

    /** The bar sync, when due. */
    method OhlcvIfDue(obs: Observation)
      requires HasTimeframes(State())
      modifies this`lastOhlcvSync, this`barCursor, this`barLogs
      ensures State() == OhlcvTask(old(State()), obs)
    {
      if obs.now - lastOhlcvSync >= Interval(OhlcvSync) {
        SyncAllOhlcv(obs.rates);
        lastOhlcvSync := obs.now;
      }
    }

    /** The book snapshot, when due. */
    method DomIfDue(obs: Observation)
      modifies this`lastDomSnap, this`dom, this`domLog
      ensures State() == DomTask(old(State()), obs)
    {
      if obs.now - lastDomSnap >= Interval(DomSnap) {
        SnapDom(obs.book, obs.domClock);
        lastDomSnap := obs.now;
      }
    }

    /** The metadata re-log, when due. */
    method MetaIfDue(obs: Observation)
      modifies this`lastMetaLog, this`metaLog
      ensures State() == MetaTask(old(State()), obs)
    {
      if obs.now - lastMetaLog >= Interval(MetaLog) {
        LogMetadata(obs.info, obs.metaClock);
        lastMetaLog := obs.now;
      }
    }

    /** The tick fetch, then the heartbeat when due unless the fetch failed. */
    method TicksAndHeartbeat(obs: Observation)
      modifies this`watermark, this`failCount, this`totalTicks, this`tickLog
      modifies this`stateFile, this`currentSession, this`sessionLog
      modifies this`lastHeartbeat, this`heartbeatLog
      ensures State() == TickTask(old(State()), obs)
    {
      var n, failed := IngestTicks(Attempt(obs.fetch, obs.resetClock));
      if failed {
        return;
      }
      if obs.now - lastHeartbeat >= Interval(Heartbeat) {
        LogHeartbeat(obs.heartbeatClock, n);
        lastHeartbeat := obs.now;
      }
    }

    /** One iteration of the main loop. */
    method Iterate(obs: Observation)
      requires Valid()
      modifies this
      ensures Valid()
      ensures State() == Iteration(old(State()), obs)
      ensures Grew(old(State()), State())
      ensures old(DiskWellFormed(State().disk)) ==> DiskWellFormed(State().disk)
    {
      OhlcvIfDue(obs);
      DomIfDue(obs);
      MetaIfDue(obs);
      TicksAndHeartbeat(obs);
      IterationAdvances(old(State()), obs);
      IterationRunning(old(State()), obs);
    }

    /** The main loop over a run of iterations. */
    method Run(observations: seq<Observation>)
      requires Valid()
      modifies this
      ensures Valid()
      ensures State() == Steps(old(State()), observations)
      ensures old(DiskWellFormed(State().disk)) ==> DiskWellFormed(State().disk)
    {
      for i := 0 to |observations|
        invariant Valid()
        invariant State() == Steps(old(State()), observations[..i])
        invariant old(DiskWellFormed(State().disk)) ==> DiskWellFormed(State().disk)
      {
        Iterate(observations[i]);
        assert observations[..i + 1][..i] == observations[..i];
      }
      assert observations[..|observations|] == observations;
    }

    /** The interrupt path: the watermark is written so that the next start resumes from it. */
    method Shutdown()
      modifies this`stateFile
      ensures State() == old(State()).(disk := old(State()).disk.(state := StateStore.Save(watermark)))
    {
      stateFile := StateStore.Save(watermark);
    }
  }

  /** Startup: without a terminal connection the process stops before it logs anything. */
  method Launch(connected: bool, disk: Disk, boot: Boot) returns (r: Option<Logger>)
    requires forall tf: Timeframe :: tf in disk.bars
    ensures r.Some? <==> connected
    ensures r.Some? ==> fresh(r.value) && r.value.Valid() && r.value.State() == Startup(disk, boot)
    ensures r.Some? && DiskWellFormed(disk) ==> DiskWellFormed(r.value.State().disk)
  {
    if !connected {
      return None;
    }
    var logger := new Logger.Start(disk, boot);
    return Some(logger);
  }
}
