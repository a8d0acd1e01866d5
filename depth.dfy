/**
  * Depth-of-market snapshots and the capability the logger detects on its first
  * attempt: unknown, supported, or unsupported for good.
  */
module Depth {
  import opened Wrappers

  /** `dom_supported`: `None`, `True` or `False`. */
  datatype Capability = Unknown | Supported | Unsupported

  /** The terminal's book entry kinds. */
  datatype BookType = Sell | Buy | SellMarket | BuyMarket

  datatype BookEntry = BookEntry(kind: BookType, price: real, volume: int)

  datatype Side = Bid | Ask

  /** A row of the depth log. */
  datatype DepthRow = DepthRow(timeMsc: int, side: Side, price: real, volume: int)

  /** What subscribing and reading the book did: raised, or returned a book (`None` counts as empty). */
  datatype BookOutcome = BookFailed | Book(entries: Option<seq<BookEntry>>)

  function Entries(o: BookOutcome): seq<BookEntry> {
    if o.Book? && o.entries.Some? then o.entries.value else []
  }

  /** Only a plain buy order is written as BID; every other kind is written as ASK. */
  function SideOf(kind: BookType): Side {
    if kind == Buy then Bid else Ask
  }

  /** The rows of one snapshot, all stamped with the one clock reading taken for it. */
  function RowsOf(entries: seq<BookEntry>, clock: int): seq<DepthRow> {
    seq(|entries|, i requires 0 <= i < |entries| =>
      DepthRow(clock, SideOf(entries[i].kind), entries[i].price, entries[i].volume))
  }

  /** The effect of one call: the new capability, whether the terminal was asked, and the rows to append. */
  datatype Snapshot = Snapshot(capability: Capability, queried: bool, rows: seq<DepthRow>)

  /** `snap_dom`, with `clock` the millisecond reading it stamps the snapshot with. */
  function Snap(cap: Capability, outcome: BookOutcome, clock: int): Snapshot {
    if cap == Unsupported then Snapshot(Unsupported, false, [])
    else match outcome
      case BookFailed => Snapshot(cap, true, [])
      case Book(_) =>
        var book := Entries(outcome);
        if |book| == 0 then
          Snapshot(if cap == Unknown then Unsupported else cap, true, [])
        else
          Snapshot(Supported, true, RowsOf(book, clock))
  }

  /**
    * Unsupported makes the call a no-op that does not ask the terminal; it is
    * reached only from Unknown by an empty book; Supported is never withdrawn;
    * a non-empty book makes the capability Supported and is logged entry by
    * entry under one timestamp; a failed or empty read logs nothing.
    */
  lemma SnapSpec(cap: Capability, outcome: BookOutcome, clock: int)
    ensures var r := Snap(cap, outcome, clock);
      var book := Entries(outcome);
      (cap == Unsupported ==> r == Snapshot(Unsupported, false, [])) &&
      (cap != Unsupported ==> r.queried) &&
      (r.capability == Unsupported <==>
        cap == Unsupported || (cap == Unknown && outcome.Book? && |book| == 0)) &&
      (cap == Supported ==> r.capability == Supported) &&
      (|r.rows| > 0 ==> r.capability == Supported) &&
      (cap != Unsupported && outcome.Book? && |book| > 0 ==>
        r.capability == Supported && |r.rows| == |book| &&
        forall i :: 0 <= i < |r.rows| ==>
          r.rows[i].timeMsc == clock &&
          (r.rows[i].side == Bid <==> book[i].kind == Buy) &&
          r.rows[i].price == book[i].price && r.rows[i].volume == book[i].volume) &&
      (outcome.BookFailed? || |book| == 0 ==> r.rows == []) &&
      (outcome.BookFailed? ==> r.capability == cap)
  {
  }

  datatype Call = Call(outcome: BookOutcome, clock: int)

  /** The capability after a sequence of calls. */
  function CapabilityAfter(cap: Capability, calls: seq<Call>): Capability
    decreases |calls|
  {
    if |calls| == 0 then cap
    else CapabilityAfter(Snap(cap, calls[0].outcome, calls[0].clock).capability, calls[1..])
  }

  /** How many of a sequence of calls asked the terminal. */
  function Queries(cap: Capability, calls: seq<Call>): nat
    decreases |calls|
  {
    if |calls| == 0 then 0
    else
      var r := Snap(cap, calls[0].outcome, calls[0].clock);
      (if r.queried then 1 else 0) + Queries(r.capability, calls[1..])
  }

  /** All rows written during a sequence of calls. */
  function RowsAfter(cap: Capability, calls: seq<Call>): seq<DepthRow>
    decreases |calls|
  {
    if |calls| == 0 then []
    else
      var r := Snap(cap, calls[0].outcome, calls[0].clock);
      r.rows + RowsAfter(r.capability, calls[1..])
  }

  /** Once unsupported, later calls never ask the terminal and never write a row. */
  lemma {:induction false} UnsupportedIsFinal(calls: seq<Call>)
    ensures CapabilityAfter(Unsupported, calls) == Unsupported
    ensures Queries(Unsupported, calls) == 0
    ensures RowsAfter(Unsupported, calls) == []
    decreases |calls|
  {
    if |calls| > 0 {
      UnsupportedIsFinal(calls[1..]);
    }
  }

  /** An empty book on the first attempt switches depth logging off for the rest of the run. */
  lemma EmptyFirstBook(first: Call, later: seq<Call>)
    requires first.outcome.Book? && |Entries(first.outcome)| == 0
    ensures CapabilityAfter(Unknown, [first] + later) == Unsupported
    ensures Queries(Unknown, [first] + later) == 1
    ensures RowsAfter(Unknown, [first] + later) == []
  {
    assert ([first] + later)[1..] == later;
    UnsupportedIsFinal(later);
  }

  /** Once supported, the capability is never withdrawn. */
  lemma {:induction false} SupportedIsFinal(calls: seq<Call>)
    ensures CapabilityAfter(Supported, calls) == Supported
    ensures Queries(Supported, calls) == |calls|
    decreases |calls|
  {
    if |calls| > 0 {
      SupportedIsFinal(calls[1..]);
    }
  }
}
