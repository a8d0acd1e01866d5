# XAUUSD tick logger — a Dafny model

This project models `logging/mt5_logger.py`. That script connects to a
MetaTrader 5 terminal and keeps logging XAUUSD market data into append-only CSV
files:

- raw ticks, enriched with a flag description, the trading session and the UTC
  hour;
- OHLCV bars, one file per timeframe;
- depth-of-market snapshots;
- symbol metadata;
- session transitions;
- heartbeats.

A persisted watermark (`state.json`) lets the script resume the tick stream
after a restart.

The model is split into modules that follow the script's sections:

| module | file | what it models |
|---|---|---|
| `Sessions` | `sessions.dfy` | `get_session` on integer hours and minutes, and the edge-triggered `check_session_change` over a run of instants |
| `Flags` | `flags.dfy` | `flag_description` as a walk over the six named bits, with a decoder that reads a description back into the bits |
| `StateStore` | `state_store.dfy` | `load_state` with its clamp, and `save_state` |
| `CsvLog` | `csv_log.dfy` | an append-only CSV file as a "file exists" flag plus its lines; appending writes the header once, when the file is created |
| `Ticks` | `ticks.dfy` | one tick-fetch step of the main loop, runs of such steps, and `process_ticks` |
| `Scheduler` | `scheduler.dfy` | the `now - last >= interval` due-check of the periodic tasks |
| `Bars` | `bars.dfy` | `sync_ohlcv` for one timeframe: only bars newer than the cursor, then the cursor moves to the newest bar of the batch |
| `Depth` | `depth.dfy` | `snap_dom` and its tri-state `dom_supported` (unknown, supported, unsupported for good) |
| `TickLogger` | `tick_logger.dfy` | the whole process |

`TickLogger` has two layers:

- A value layer. The process state is a `LoggerState`: the globals, the
  main-loop variables and every file. Each task is a function from one state
  to the next, and these are composed into `Iteration` and `Steps`.
- A class `Logger`. It holds the same state in fields, and each task of the
  script is one of its methods. Each method is proved to leave the fields equal
  to what the task's function makes of their old values. The lemmas of the
  value layer (`Advances`, `IterationTicks`, `StepsClocks`, …) then carry over
  to the methods.

Tick instants, depth and session stamps and every clock are integer
milliseconds. The intervals of 10 s, 60 s, 5 s and 3600 s become 10 000,
60 000, 5 000 and 3 600 000 ms. Bar times and the bar cursors stay in epoch
seconds, as the terminal returns them: line 241 reads them with `unit="s"`.

Each clock reading of an iteration becomes a field of that iteration's
`Observation`, and so does what the terminal returns to each call. There are
two exceptions, both listed under "Left out". Two groups of readings are
merged. The reading `save_state` takes for `updated_at` is dropped, together
with that field. The model therefore has no clock and
no I/O of its own.

Three behaviours of the code are easy to misread:

- **Whole-batch append.** Only the newest tick of a batch is compared with the
  watermark (lines 466-468). Once that tick is later, the whole batch is
  appended (lines 469-470), including any tick at or before the watermark. A
  per-tick filter would never log a tick twice; this code logs such a tick
  again.
  - `Ticks.BoundaryTickRelogged` exhibits one.
  - `Ticks.NoReplay` states the no-duplicate guarantee under the condition the
    code depends on: the terminal returns only ticks at or after the time it
    was asked from.
- **When the watermark is saved.** It is saved when a batch was appended
  (line 473) and at shutdown (line 485). The forced reset of line 459 is not
  saved, so a restart after it resumes from the last saved value.
- **The forced reset.** It reads the clock after the 0.5 s backoff of line
  457. The model therefore takes that clock as a separate input
  (`Attempt.resetClock`).

## Model

| member | source | states |
|---|---|---|
| Sessions.OfInstant | logging/mt5_logger.py:135-147 | the session of a millisecond instant by its UTC hour (0-23) and minute (0-59); what it gives is stated by `Classify` |
| Sessions.Classify | logging/mt5_logger.py:138-147 | the label is LondonNY_Overlap exactly for UTC hours 12-15, London exactly for 7-11, NewYork exactly for 16-20 and Asia exactly for the rest, so the minute never changes the label |
| Sessions.NameInjective | logging/mt5_logger.py:141-147 | the four labels written to the logs are distinct strings |
| Sessions.Detect | logging/mt5_logger.py:336-348 | the held label becomes the instant's session; a row is emitted exactly when that differs from the held label, and then it names the instant, the new label and the previous one (None the first time) |
| Sessions.HeldAfter | logging/mt5_logger.py:336-346 | after checking a non-empty run of instants the held label is the session of the last instant; after an empty run it is unchanged |
| Sessions.Events | logging/mt5_logger.py:336-348 | the rows written while instants are checked in order; stated by `EventsChained`, `LastEventHeld`, `SameSessionRun`, `EventsConcat` and `CrossingOneBoundary` |
| Sessions.EventsChained | logging/mt5_logger.py:336-348 | the session log is never duplicated: each event changes the label, names the label held just before it, and there are at most as many events as checks |
| Sessions.LastEventHeld | logging/mt5_logger.py:336-348 | the last event written names the label that ends up held |
| Sessions.SameHeldWithoutEvents | logging/mt5_logger.py:339-346 | checks that write nothing leave the held label unchanged |
| Sessions.SameSessionRun | logging/mt5_logger.py:336-348 | instants that all fall into one session write nothing when that session is held, and exactly one row (at the first instant) otherwise |
| Sessions.EventsConcat | logging/mt5_logger.py:336-348 | the events of two consecutive runs are those of the first followed by those of the second, started from the label the first leaves held |
| Sessions.CrossingOneBoundary | logging/mt5_logger.py:336-348 | a run that crosses one session boundary writes exactly one row, at the first instant of the new session |
| Flags.NamedIsGood | logging/mt5_logger.py:151-157 | the six masks are the single bits 2^1 to 2^6, as `HasBit`'s floor test needs to agree with `flags & mask`, and the six names are distinct, non-empty, free of the separator and never "TICK" |
| Flags.Pick | logging/mt5_logger.py:150-156 | the `parts` list: the names of the set bits in table order; stated by `PickMember`, `PickEmpty`, `PickSameBits` and `SixTests` |
| Flags.Join | logging/mt5_logger.py:157 | joining the parts with the separator; stated by `SplitJoin` |
| Flags.PickMember | logging/mt5_logger.py:150-156 | a name is among the collected parts exactly when its bit is set |
| Flags.PickEmpty | logging/mt5_logger.py:150-157 | no part is collected exactly when none of the six bits is set |
| Flags.PickSameBits | logging/mt5_logger.py:150-156 | two masks that agree on the six named bits collect the same parts |
| Flags.SixTests | logging/mt5_logger.py:150-156 | the table walk performs the six bit checks of `flag_description`, in the source's order BID, ASK, LAST, VOLUME, BUY, SELL |
| Flags.Describe | logging/mt5_logger.py:149-157 | the description is "TICK" exactly when none of the six named bits is set |
| Flags.SplitJoin | logging/mt5_logger.py:157 | splitting, at the separator, the join of parts that do not contain it gives the parts back |
| Flags.DecodeDescribe | logging/mt5_logger.py:149-157 | round trip: decoding a description recovers exactly the six named bits of the mask |
| Flags.SameDescription | logging/mt5_logger.py:149-157 | two masks have the same description exactly when they agree on the six named bits; every other bit is ignored |
| Flags.DescribeExamples | logging/mt5_logger.py:149-157 | 0x42 gives BID and SELL joined by the separator, 0x06 gives BID and ASK, and 0x81 (bit 0x01 and a bit above 0x40) gives "TICK" |
| StateStore.Load | logging/mt5_logger.py:170-180 | a stored value in (0, now] is resumed as it is; anything else (missing or unparsable file, missing key, zero, negative, in the future) gives now - 2000; the result is never in the future and is positive once the clock is past 2000 |
| StateStore.Save | logging/mt5_logger.py:159-180 | once the watermark is saved, a later load at any clock resumes from it while it is positive and not in the future; a saved watermark in the future, or zero or negative, loads as now - 2000 |
| Stamps.Max | logging/mt5_logger.py:467 | the maximum of a batch's times is one of them and bounds them all |
| CsvLog.Append | logging/mt5_logger.py:216-220 | an empty batch writes nothing; otherwise the file exists afterwards, its data rows are the old ones followed by the batch, a header is added exactly when the file did not exist, and a well-formed file stays well formed |
| CsvLog.OnlyDataAfterHeader | logging/mt5_logger.py:219-220 | in a file this logger wrote, every line after the header is a data row |
| CsvLog.AppendTwice | logging/mt5_logger.py:219-220 | two appends to a new file leave one header and both batches in order |
| Ticks.EnrichedRows | logging/mt5_logger.py:195-214 | enrichment keeps one row per tick with its instant, tags it with that instant's session, and writes a description that decodes to the tick's flag bits |
| Ticks.Ingest | logging/mt5_logger.py:443-474 | one fetch step of the main loop; stated by `IngestSpec` and `FailedFetch`, and over runs by `FailuresAccumulate`, `ForcedReset`, `WatermarkAboveConsumed` and `RepeatedBatch` |
| Ticks.IngestSpec | logging/mt5_logger.py:443-474 | after one fetch: the counter stays below MAX_FAILS; a failure logs nothing; a success clears the counter and never moves the watermark back; rows are appended exactly when some tick is later than the watermark, and then the whole batch is, the count grows by its length and the watermark lands one past the newest tick and above all of them; otherwise the state is unchanged except for the counter |
| Ticks.FailedFetch | logging/mt5_logger.py:454-462 | a failure increments the counter, and the fifth one in a row sets the watermark to the reset clock minus 1000 and clears the counter |
| Ticks.FailuresAccumulate | logging/mt5_logger.py:454-462 | fewer than MAX_FAILS failures in a row only count up, leave the watermark in place and log nothing |
| Ticks.ForcedReset | logging/mt5_logger.py:455-461 | from a clear counter, MAX_FAILS failures in a row reset the watermark to the last reset clock minus 1000, clear the counter and log nothing |
| Ticks.FetchKeepsBelow | logging/mt5_logger.py:465-473 | a successful fetch never lowers the watermark and keeps every row logged so far, and every row it logs, below it |
| Ticks.WatermarkAboveConsumed | logging/mt5_logger.py:465-473 | over any run of successful fetches the watermark never decreases, stays strictly above every tick logged during the run, and the tick count equals the rows logged |
| Ticks.RepeatedBatch | logging/mt5_logger.py:465-473 | feeding the same batch twice logs nothing the second time and leaves the state as the first fetch left it |
| Ticks.NoReplay | logging/mt5_logger.py:465-473 | when the terminal returns only ticks at or after the watermark, every appended tick is later than every tick logged before, and all of them stay below the new watermark |
| Ticks.BoundaryTickRelogged | logging/mt5_logger.py:466-470 | a batch holding a tick older than the watermark and one newer is appended whole, the older tick included |
| Scheduler.Interval | logging/mt5_logger.py:82-85 | every task interval is positive; the loop's due-checks use these intervals |
| Scheduler.Check | logging/mt5_logger.py:428-440 | one due-check: the task runs exactly when `now - last >= interval`, and its clock becomes now; otherwise the clock is kept. What this implies is stated by `RunsSpaced`, `OneRunPerIteration`, `IdleMeansNotDue` and `NoCatchUp` |
| Scheduler.Fired | logging/mt5_logger.py:428-440 | the clocks at which a task runs over successive iterations; stated by `RunsSpaced`, `OneRunPerIteration`, `IdleMeansNotDue` and `NoCatchUp` |
| Scheduler.RunsSpaced | logging/mt5_logger.py:428-440 | a task's runs are at least one interval apart, the first at least one interval after its starting clock |
| Scheduler.OneRunPerIteration | logging/mt5_logger.py:428-440 | a task runs at most once per iteration, and its clock ends at its last run |
| Scheduler.IdleMeansNotDue | logging/mt5_logger.py:428-440 | if a task never runs, it was never due, and its clock is unchanged |
| Scheduler.NoCatchUp | logging/mt5_logger.py:428-440 | however overdue a task is, it runs once, and not again within one interval after that run |
| Scheduler.LastRunAfterSnoc | logging/mt5_logger.py:428-430 | one more iteration moves the task's clock exactly as one due-check does |
| Bars.Index | logging/mt5_logger.py:88-98 | every timeframe has a position in the visiting order |
| Bars.IndexOfListed | logging/mt5_logger.py:88-98 | every timeframe is listed once |
| Bars.Newer | logging/mt5_logger.py:248 | as a set, the filtered bars are exactly the bars newer than the cursor |
| Bars.NewerCounts | logging/mt5_logger.py:248 | the filter keeps each newer bar as many times as the batch holds it, and no other bar |
| Bars.Sync | logging/mt5_logger.py:233-255 | `sync_ohlcv` for one timeframe; stated by `SyncSpec`, `SyncIdempotent` and `SyncsNeverOverlap` |
| Bars.SyncSpec | logging/mt5_logger.py:233-255 | the cursor never moves back; rows are logged exactly when some bar is newer than the cursor, and then they are exactly the newer bars in order, and the cursor moves strictly forward to the newest bar of the whole batch; otherwise nothing is logged and the cursor stays |
| Bars.NewerNonEmpty | logging/mt5_logger.py:248-250 | the filter keeps something exactly when some bar is newer than the cursor |
| Bars.NewestBound | logging/mt5_logger.py:255 | the new cursor bounds every bar of the batch |
| Bars.SyncIdempotent | logging/mt5_logger.py:233-255 | syncing the same bars again logs nothing and leaves the cursor |
| Bars.SyncsNeverOverlap | logging/mt5_logger.py:248-255 | the bars logged by a sync lie in (old cursor, new cursor], and the next sync logs only later bars |
| Depth.Snap | logging/mt5_logger.py:271-300 | `snap_dom`; stated by `SnapSpec`, and over runs by `UnsupportedIsFinal`, `EmptyFirstBook` and `SupportedIsFinal` |
| Depth.SnapSpec | logging/mt5_logger.py:271-300 | once unsupported, the call is a no-op that does not ask the terminal; unsupported is reached only from unknown by an empty book; supported is never withdrawn; a non-empty book makes it supported and is logged entry by entry under one clock, as a BID row exactly for a plain buy order; a failed or empty read logs nothing, and a failed one leaves the capability |
| Depth.UnsupportedIsFinal | logging/mt5_logger.py:273-274 | after unsupported, no later call asks the terminal or writes a row |
| Depth.EmptyFirstBook | logging/mt5_logger.py:279-283 | an empty book on the first attempt switches depth logging off for the rest of the run, after exactly one query |
| Depth.SupportedIsFinal | logging/mt5_logger.py:279-285 | once supported, the capability stays supported and every later call asks the terminal |
| TickLogger.SyncOne | logging/mt5_logger.py:233-258 | `sync_ohlcv(tf)` on the cursors and bar files; stated by `Bars.SyncSpec` and, within a sync of several timeframes, by `SyncEachAt` |
| TickLogger.SyncAll | logging/mt5_logger.py:260-262 | `sync_all_ohlcv` on the logger; stated by `SyncAllSpec` and `SyncAllAdvances` |
| TickLogger.SyncEach | logging/mt5_logger.py:260-262 | syncing timeframes in turn keeps a cursor and a file for every timeframe |
| TickLogger.SyncEachSnoc | logging/mt5_logger.py:260-262 | syncing one more timeframe extends the sync of the earlier ones by one `sync_ohlcv` |
| TickLogger.SyncEachAt | logging/mt5_logger.py:260-262 | syncing distinct timeframes in turn syncs each of them against its own cursor and its own fetch, whatever the others did, and leaves every other timeframe untouched |
| TickLogger.TimeframesDistinct | logging/mt5_logger.py:88-98 | the nine timeframes are distinct and every timeframe is among them |
| TickLogger.SyncAllSpec | logging/mt5_logger.py:260-262 | `sync_all_ohlcv` syncs every timeframe against its own cursor |
| TickLogger.SyncAllAdvances | logging/mt5_logger.py:231-262 | a bar sync only advances cursors, only appends to the bar files, and keeps the invariant |
| TickLogger.IngestStep | logging/mt5_logger.py:443-474 | the tick part of an iteration; stated by `IngestAccepted`, `IngestIgnored`, `IngestAdvances` and `IterationTicks` |
| TickLogger.Accepted | logging/mt5_logger.py:468-474 | what an accepted batch does; stated by `IngestAccepted` |
| TickLogger.SessionStep | logging/mt5_logger.py:336-349 | `check_session_change` on the logger; what it appends and holds is stated by `Sessions.Detect` and `CsvLog.Append` |
| TickLogger.SnapStep | logging/mt5_logger.py:271-303 | `snap_dom` on the logger; stated by `Depth.SnapSpec` and `SnapAdvances` |
| TickLogger.MetaStep | logging/mt5_logger.py:318-328 | `log_metadata`: one row, or none when the terminal knows no such symbol; stated by `MetaTaskAdvances` |
| TickLogger.HeartbeatStep | logging/mt5_logger.py:355-381 | `log_heartbeat` with the watermark, the batch length and the tick count; stated by `HeartbeatAdvances` |
| TickLogger.IngestAccepted | logging/mt5_logger.py:465-474 | a batch whose newest tick passes the watermark clears the counter, is appended whole and counted, moves the watermark one past that tick, saves it and checks that tick's session |
| TickLogger.IngestIgnored | logging/mt5_logger.py:465-468 | a batch that does not pass the watermark only clears the failure counter |
| TickLogger.SnapAdvances | logging/mt5_logger.py:271-300 | a depth snapshot only appends, and keeps a final capability final |
| TickLogger.IngestAdvances | logging/mt5_logger.py:443-474 | a tick fetch only appends, the tick count grows by exactly the rows appended, and the invariant is kept |
| TickLogger.OhlcvTask | logging/mt5_logger.py:428-430 | the bar sync when due; stated by `OhlcvTaskAdvances` and `IterationClocks` |
| TickLogger.DomTask | logging/mt5_logger.py:433-435 | the depth snapshot when due; stated by `DomTaskAdvances` and `IterationClocks` |
| TickLogger.MetaTask | logging/mt5_logger.py:438-440 | the metadata re-log when due; stated by `MetaTaskAdvances` and `IterationClocks` |
| TickLogger.TickTask | logging/mt5_logger.py:443-479 | the tick fetch, then the heartbeat when due unless the fetch failed; stated by `TickTaskAdvances` and `TickTaskClocks` |
| TickLogger.OhlcvTaskAdvances | logging/mt5_logger.py:428-430 | the due bar sync advances the logger |
| TickLogger.DomTaskAdvances | logging/mt5_logger.py:433-435 | the due depth snapshot advances the logger |
| TickLogger.MetaTaskAdvances | logging/mt5_logger.py:438-440 | the due metadata re-log advances the logger |
| TickLogger.HeartbeatAdvances | logging/mt5_logger.py:477-479 | the due heartbeat advances the logger |
| TickLogger.TickTaskAdvances | logging/mt5_logger.py:443-479 | the tick fetch followed by the heartbeat advances the logger |
| TickLogger.Iteration | logging/mt5_logger.py:423-479 | an iteration keeps a cursor and a bar file for every timeframe |
| TickLogger.Steps | logging/mt5_logger.py:423-479 | a run of iterations keeps a cursor and a bar file for every timeframe |
| TickLogger.IterationAdvances | logging/mt5_logger.py:423-479 | every iteration only appends to each log, counts exactly the tick rows it appends, never moves a bar cursor back, keeps a final depth capability final, and keeps the failure counter below MAX_FAILS and every file well formed |
| TickLogger.StepsAdvance | logging/mt5_logger.py:423-479 | the same holds over any run of iterations |
| TickLogger.IterationTicks | logging/mt5_logger.py:425-474 | what an iteration does to the tick state, the tick log and the state file is what the tick step makes of its fetch; the periodic tasks do not touch them |
| TickLogger.IterationClocks | logging/mt5_logger.py:425-479 | each task's clock moves as its due-check says; the heartbeat's is checked only when the fetch did not fail |
| TickLogger.TickTaskClocks | logging/mt5_logger.py:443-479 | the tick part leaves the periodic clocks alone and moves the heartbeat's only when the fetch did not fail |
| TickLogger.StepsClocks | logging/mt5_logger.py:423-440 | over any run, the bar-sync, depth and metadata clocks are those of the scheduler fed with the clocks of the iterations |
| TickLogger.Booted | logging/mt5_logger.py:396-413 | the state before the first bar sync; with `Startup`, stated by `StartupConsistent` |
| TickLogger.Startup | logging/mt5_logger.py:396-413 | the startup sequence; stated by `StartupConsistent` |
| TickLogger.StartCursorsComplete | logging/mt5_logger.py:231 | the initial cursor map covers every timeframe |
| TickLogger.StartupConsistent | logging/mt5_logger.py:396-413 | on any files, startup resumes from the clamped state-file value with a clear counter, no ticks counted, the depth capability unknown, no session held and a cursor and bar file for every timeframe; started from files this logger wrote, it is also consistent |
| TickLogger.IterationRunning | logging/mt5_logger.py:423-479 | whatever the files hold, an iteration keeps the failure counter below MAX_FAILS and a cursor and bar file for every timeframe |
| TickLogger.Logger.Start | logging/mt5_logger.py:400-413 | on any files, the startup sequence leaves the fields equal to `Startup`, with the counter below its bound and every timeframe in place; files this logger wrote stay well formed |
| TickLogger.Logger.SyncOhlcv | logging/mt5_logger.py:233-258 | the cursors and the bar files become `SyncOne` of their old values |
| TickLogger.Logger.SyncAllOhlcv | logging/mt5_logger.py:260-262 | the state becomes `SyncAll` of the old one |
| TickLogger.Logger.SyncList | logging/mt5_logger.py:261-262 | the loop over the timeframes leaves the bar state equal to `SyncEach` |
| TickLogger.Logger.SnapDom | logging/mt5_logger.py:271-303 | the state becomes `SnapStep` of the old one |
| TickLogger.Logger.LogMetadata | logging/mt5_logger.py:318-328 | the state becomes `MetaStep` of the old one |
| TickLogger.Logger.CheckSessionChange | logging/mt5_logger.py:336-349 | the state becomes `SessionStep` of the old one |
| TickLogger.Logger.LogHeartbeat | logging/mt5_logger.py:355-381 | the state becomes `HeartbeatStep` of the old one |
| TickLogger.Logger.IngestTicks | logging/mt5_logger.py:443-474 | the state becomes `IngestStep` of the old one, and the batch length and the failure flag are those of `Ingest` |
| TickLogger.Logger.CountFailure | logging/mt5_logger.py:454-462 | a failed fetch leaves the state equal to `IngestStep` of the old one |
| TickLogger.Logger.Consume | logging/mt5_logger.py:444-474 | a successful fetch leaves the state equal to `IngestStep` of the old one and returns the batch length |
| TickLogger.Logger.Accept | logging/mt5_logger.py:469-474 | an accepted batch leaves the state equal to `Accepted` of the old one |
| TickLogger.Logger.OhlcvIfDue | logging/mt5_logger.py:428-430 | the state becomes `OhlcvTask` of the old one |
| TickLogger.Logger.DomIfDue | logging/mt5_logger.py:433-435 | the state becomes `DomTask` of the old one |
| TickLogger.Logger.MetaIfDue | logging/mt5_logger.py:438-440 | the state becomes `MetaTask` of the old one |
| TickLogger.Logger.TicksAndHeartbeat | logging/mt5_logger.py:443-479 | the state becomes `TickTask` of the old one |
| TickLogger.Logger.Iterate | logging/mt5_logger.py:423-481 | one iteration leaves the state equal to `Iteration` of the old one. It keeps the counter below its bound and every timeframe in place. Every log and cursor only grows. Well-formed files stay well formed |
| TickLogger.Logger.Run | logging/mt5_logger.py:423-481 | a run of iterations leaves the state equal to `Steps` of the old one, keeps the counter bound and the timeframes, and keeps well-formed files well formed |
| TickLogger.Logger.Shutdown | logging/mt5_logger.py:483-488 | the interrupt path writes the watermark to the state file and changes nothing else |
| TickLogger.Launch | logging/mt5_logger.py:396-413 | whatever the files hold, a logger exists exactly when the terminal connected; it is then fresh and in the startup state, and its files are well formed when they were before |

## Left out

- Floating-point columns are not computed: `spread_pct`, `mid` and `bid_ask_imbalance` of a tick row, and the rounding of the heartbeat's sizes. Prices are carried as `real` and never computed with.
- Date and time text is left out: the `time_dt` columns, `day_of_week`, the weekday of a session row, and state.json's `last_time_dt` and `updated_at` (lines 164-165, with the `now_utc()` reading behind `updated_at`). Session rows carry the millisecond instant instead.
- The heartbeat's file sizes are left out (`tick_mb`, `ohlcv_mb`, `dom_mb`), because they need the file system's byte counts.
- The `spread` column of a tick row is not modelled. `process_ticks` never computes it, and a terminal tick has no such field, so the column selection drops it.
- A missing `volume_real` or `real_volume` defaults to 0 per tick or bar. The source adds the column for the whole batch. The two agree because every record of a terminal batch has the same fields.
- Symbol metadata (the `getattr` collection of the listed fields) is an opaque row of values.
- Console logging, `mt5.last_error()` and its message are left out. The sleeps (`LOOP_SLEEP` and the 0.5 s backoff) are left out too. A fetch that returns nothing counts as an empty batch.
- The terminal calls (`copy_ticks_from`, `copy_rates_from_pos`, `market_book_add` with `market_book_get`, `symbol_info`, `initialize`, `shutdown`) are not modelled. What they return is an input of each iteration. A fetch that raises inside `sync_ohlcv` or `log_metadata` is modelled as one that returned nothing, which is what the script then does.
- `TICK_BATCH` and `OHLCV_LOOKBACK` are only arguments of those fetches. The model does not bound the length of a batch by them.
- Write failures are left out. A `to_csv`, or a `save_state` whose `open` fails, partway through a task is assumed to succeed. So is an exception raised after `dom_supported` has already been set.
- The outer exception handler of the main loop is left out. So is an interrupt arriving in the middle of an iteration: `Shutdown` is modelled between iterations.
- `load_state` can crash when the file holds JSON that is not an object, or a non-numeric `last_time_msc`. The model's state file is absent, unparsable, or an object with an optional integer.
- The four `time.time()` readings at lines 408-411 are merged into one `Boot.startClock`, which all four task clocks get. The two `now_utc()` readings of `log_heartbeat` (lines 362 and 370) are merged into one `heartbeatClock`. The readings in each group lie microseconds apart in the script.
- The wall clock is left out. `time.time()` readings are integer milliseconds given with each iteration, and the second-valued intervals are compared in milliseconds.
- In the script `load_state` and the task clocks come after the first bar sync. `Booted` sets them before it. Neither touches the cursors or the bar files, so the resulting state is the same.
- TickLogger.Logger.Run: models a finite prefix of the endless main loop, one iteration per observation.
- TickLogger.StepsClocks: does not relate the heartbeat clock over a run to the scheduler. An iteration whose fetch fails skips the heartbeat check, so that clock follows the scheduler only on the other iterations. `IterationClocks` states this per iteration.
- Sessions.Classify: takes the hour and minute as integers in range, as a `datetime` provides them, rather than a `datetime`.
