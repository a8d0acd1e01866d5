/** Millisecond and second timestamps, and the maximum the logger takes over a batch of them. */
module Stamps {
  /** The largest element of a non-empty sequence (pandas `Series.max()`). */
  function Max(xs: seq<int>): (m: int)
    requires |xs| > 0
    ensures m in xs
    ensures forall i :: 0 <= i < |xs| ==> xs[i] <= m
  {
    if |xs| == 1 then xs[0]
    else
      var rest := Max(xs[1..]);
      if xs[0] >= rest then xs[0] else rest
  }

  /** Every stamp is strictly below `bound`. */
  ghost predicate AllBelow(xs: seq<int>, bound: int) {
    forall i :: 0 <= i < |xs| ==> xs[i] < bound
  }

  /** Every stamp is at least `bound`. */
  ghost predicate AllAtLeast(xs: seq<int>, bound: int) {
    forall i :: 0 <= i < |xs| ==> bound <= xs[i]
  }
}
