/**
  * The persisted watermark (`state.json`): what `save_state` writes and how
  * `load_state` reads it back at startup, clamping anything out of range.
  */
module StateStore {
  import opened Wrappers

  /** How far back a fresh or clamped resume starts, in milliseconds. */
  const RESUME_LOOKBACK_MS: int := 2000

  /**
    * The state file as `load_state` finds it: missing, not valid JSON, or a JSON
    * object whose `last_time_msc` key may be absent.
    */
  datatype StateFile = Absent | Unparsable | Stored(lastTimeMsc: Option<int>)

  /** The value `load_state` reads before clamping: 0 for every failure it catches. */
  function StoredValue(f: StateFile): int {
    match f
    case Absent => 0
    case Unparsable => 0
    case Stored(None) => 0
    case Stored(Some(v)) => v
  }

  /**
    * `load_state` at clock `nowMsc`: the stored value if it is positive and not in
    * the future, otherwise `nowMsc - 2000`.
    */
  function Load(f: StateFile, nowMsc: int): (v: int)
    ensures 0 < StoredValue(f) <= nowMsc ==> v == StoredValue(f)
    ensures !(0 < StoredValue(f) <= nowMsc) ==> v == nowMsc - RESUME_LOOKBACK_MS
    ensures v <= nowMsc
    ensures nowMsc > RESUME_LOOKBACK_MS ==> v > 0
  {
    var v := StoredValue(f);
    if v <= 0 || v > nowMsc then nowMsc - RESUME_LOOKBACK_MS else v
  }

  /** `save_state`: the file now holds the watermark, and a later load resumes from it while it is in range. */
  function Save(watermark: int): (f: StateFile)
    ensures forall nowMsc :: 0 < watermark <= nowMsc ==> Load(f, nowMsc) == watermark
    ensures forall nowMsc :: watermark > nowMsc ==> Load(f, nowMsc) == nowMsc - RESUME_LOOKBACK_MS
    ensures forall nowMsc :: watermark <= 0 ==> Load(f, nowMsc) == nowMsc - RESUME_LOOKBACK_MS
  {
    Stored(Some(watermark))
  }
}
