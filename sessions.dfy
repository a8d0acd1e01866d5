/**
  * Trading-session classification by UTC time of day, and the edge-triggered
  * detector that writes one session-log row per change of label.
  */
module Sessions {
  import opened Wrappers

  datatype Label = Asia | London | NewYork | LondonNYOverlap

  /** The label as it is written into the tick and session logs. */
  function Name(l: Label): string {
    match l
    case Asia => "Asia"
    case London => "London"
    case NewYork => "NewYork"
    case LondonNYOverlap => "LondonNY_Overlap"
  }

  lemma NameInjective(a: Label, b: Label)
    requires Name(a) == Name(b)
    ensures a == b
  {
    assert Name(a)[0] == Name(b)[0] && |Name(a)| == |Name(b)|;
  }

  const MS_PER_MINUTE: int := 60_000
  const MS_PER_HOUR: int := 3_600_000

  /**
    * UTC hour and minute of a millisecond epoch instant. Dafny's division by a
    * positive divisor rounds down, as the calendar does for instants before 1970.
    */
  function UtcHour(msc: int): (h: int)
    ensures 0 <= h < 24
  {
    (msc / MS_PER_HOUR) % 24
  }

  function UtcMinute(msc: int): (m: int)
    ensures 0 <= m < 60
  {
    (msc / MS_PER_MINUTE) % 60
  }

  /**
    * `get_session`: with `h = hour + minute / 60`, the half-open intervals
    * [12, 16), [7, 16), [12, 21) are tried in that order. Scaling by 60 keeps the
    * comparison exact on integers. The result depends on the hour alone.
    */
  function Classify(hour: int, minute: int): (r: Label)
    requires 0 <= hour < 24 && 0 <= minute < 60
    ensures r == LondonNYOverlap <==> 12 <= hour < 16
    ensures r == London <==> 7 <= hour < 12
    ensures r == NewYork <==> 16 <= hour < 21
    ensures r == Asia <==> hour < 7 || 21 <= hour
  {
    var h := hour * 60 + minute;
    if 12 * 60 <= h < 16 * 60 then LondonNYOverlap
    else if 7 * 60 <= h < 16 * 60 then London
    else if 12 * 60 <= h < 21 * 60 then NewYork
    else Asia
  }

  /** The session of a millisecond instant. */
  function OfInstant(msc: int): Label {
    Classify(UtcHour(msc), UtcMinute(msc))
  }

  /** One row of the session log: the new label, the label held before (None on the first call). */
  datatype Event = Event(timeMsc: int, session: Label, previous: Option<Label>)

  datatype Transition = Transition(event: Option<Event>, held: Option<Label>)

  /** `check_session_change`: compare the instant's label with the held one. */
  function Detect(held: Option<Label>, msc: int): (t: Transition)
    ensures t.held == Some(OfInstant(msc))
    ensures t.event.Some? <==> held != Some(OfInstant(msc))
    ensures t.event.Some? ==> t.event.value == Event(msc, OfInstant(msc), held)
  {
    var sess := OfInstant(msc);
    if Some(sess) != held then Transition(Some(Event(msc, sess, held)), Some(sess))
    else Transition(None, held)
  }

  /** The events emitted while `Detect` is applied to `instants` in order. */
  function Events(held: Option<Label>, instants: seq<int>): seq<Event>
    decreases |instants|
  {
    if |instants| == 0 then []
    else
      var t := Detect(held, instants[0]);
      (if t.event.Some? then [t.event.value] else []) + Events(t.held, instants[1..])
  }

  /** The label held after `instants` have been checked. */
  function HeldAfter(held: Option<Label>, instants: seq<int>): (r: Option<Label>)
    ensures |instants| > 0 ==> r == Some(OfInstant(instants[|instants| - 1]))
    ensures |instants| == 0 ==> r == held
    decreases |instants|
  {
    if |instants| == 0 then held else HeldAfter(Detect(held, instants[0]).held, instants[1..])
  }

  /** All instants fall into session `l`. */
  ghost predicate AllIn(instants: seq<int>, l: Label) {
    forall i :: 0 <= i < |instants| ==> OfInstant(instants[i]) == l
  }

  /** The log is never duplicated: each event names the label held just before it, and changes it. */
  ghost predicate Chained(held: Option<Label>, es: seq<Event>) {
    (|es| > 0 ==> es[0].previous == held) &&
    (forall k :: 0 < k < |es| ==> es[k].previous == Some(es[k - 1].session)) &&
    (forall k :: 0 <= k < |es| ==> es[k].previous != Some(es[k].session))
  }

  lemma {:induction false} EventsChained(held: Option<Label>, instants: seq<int>)
    ensures Chained(held, Events(held, instants))
    ensures |Events(held, instants)| <= |instants|
    decreases |instants|
  {
    if |instants| > 0 {
      var t := Detect(held, instants[0]);
      EventsChained(t.held, instants[1..]);
      var rest := Events(t.held, instants[1..]);
      if t.event.Some? {
        var es := [t.event.value] + rest;
        assert Events(held, instants) == es;
        forall k | 0 < k < |es| ensures es[k].previous == Some(es[k - 1].session) {
          assert es[k] == rest[k - 1];
          if k > 1 { assert es[k - 1] == rest[k - 2]; }
        }
        forall k | 0 <= k < |es| ensures es[k].previous != Some(es[k].session) {
          if k > 0 { assert es[k] == rest[k - 1]; }
        }
      } else {
        assert Events(held, instants) == rest;
      }
    }
  }

  /** The last event names the label that ends up held. */
  lemma {:induction false} LastEventHeld(held: Option<Label>, instants: seq<int>)
    ensures var es := Events(held, instants);
      |es| > 0 ==> Some(es[|es| - 1].session) == HeldAfter(held, instants)
    decreases |instants|
  {
    if |instants| > 0 {
      var t := Detect(held, instants[0]);
      LastEventHeld(t.held, instants[1..]);
      var rest := Events(t.held, instants[1..]);
      if |rest| == 0 && t.event.Some? {
        SameHeldWithoutEvents(t.held, instants[1..]);
      }
    }
  }

  /** When checking instants emits nothing, the held label does not change. */
  lemma {:induction false} SameHeldWithoutEvents(held: Option<Label>, instants: seq<int>)
    requires Events(held, instants) == []
    ensures HeldAfter(held, instants) == held
    decreases |instants|
  {
    if |instants| > 0 {
      var t := Detect(held, instants[0]);
      assert t.event.None?;
      SameHeldWithoutEvents(t.held, instants[1..]);
    }
  }

  /** A run of instants in one session emits nothing if that session is held, and one row otherwise. */
  lemma {:induction false} SameSessionRun(held: Option<Label>, instants: seq<int>, l: Label)
    requires AllIn(instants, l)
    ensures held == Some(l) || |instants| == 0 ==> Events(held, instants) == []
    ensures held != Some(l) && |instants| > 0 ==> Events(held, instants) == [Event(instants[0], l, held)]
    decreases |instants|
  {
    if |instants| > 0 {
      assert AllIn(instants[1..], l) by {
        forall i | 0 <= i < |instants[1..]| ensures OfInstant(instants[1..][i]) == l {
          assert instants[1..][i] == instants[i + 1];
        }
      }
      SameSessionRun(Some(l), instants[1..], l);
    }
  }

  lemma {:induction false} EventsConcat(held: Option<Label>, a: seq<int>, b: seq<int>)
    ensures Events(held, a + b) == Events(held, a) + Events(HeldAfter(held, a), b)
    decreases |a|
  {
    if |a| > 0 {
      assert (a + b)[0] == a[0];
      assert (a + b)[1..] == a[1..] + b;
      EventsConcat(Detect(held, a[0]).held, a[1..], b);
    } else {
      assert a + b == b;
    }
  }

  /** Crossing one boundary while `l1` is held emits exactly one row, at the first instant of `l2`. */
  lemma CrossingOneBoundary(a: seq<int>, b: seq<int>, l1: Label, l2: Label)
    requires AllIn(a, l1) && AllIn(b, l2) && l1 != l2 && |b| > 0
    ensures Events(Some(l1), a + b) == [Event(b[0], l2, Some(l1))]
  {
    EventsConcat(Some(l1), a, b);
    SameSessionRun(Some(l1), a, l1);
    assert HeldAfter(Some(l1), a) == Some(l1);
    SameSessionRun(Some(l1), b, l2);
  }
}
