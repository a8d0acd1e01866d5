/**
  * Decoding of the tick `flags` bitmask into the `flag_desc` column: the names
  * of the set bits among BID, ASK, LAST, VOLUME, BUY and SELL joined by `|`, or
  * "TICK" when none of them is set. Other bits are ignored.
  */
module Flags {
  const SEPARATOR: char := '|'
  const DEFAULT_DESCRIPTION: string := "TICK"

  const BID: int := 0x02
  const ASK: int := 0x04
  const LAST: int := 0x08
  const VOLUME: int := 0x10
  const BUY: int := 0x20
  const SELL: int := 0x40

  /**
    * `flags & mask` is non-zero, for a one-bit `mask`: Python integers behave as
    * unbounded two's complement, so bit k of any integer is floor(flags / 2^k) mod 2.
    */
  predicate HasBit(flags: int, mask: int)
    requires mask > 0
  {
    (flags / mask) % 2 == 1
  }

  /** The tested bits and their names, in the order `flag_description` checks them. */
  const NAMED: seq<(int, string)> :=
    [(BID, "BID"), (ASK, "ASK"), (LAST, "LAST"), (VOLUME, "VOLUME"), (BUY, "BUY"), (SELL, "SELL")]

  /** A table of one-bit masks whose names are distinct, non-empty and separator-free. */
  ghost predicate GoodTable(table: seq<(int, string)>) {
    (forall i :: 0 <= i < |table| ==> table[i].0 > 0 && |table[i].1| > 0 && SEPARATOR !in table[i].1) &&
    (forall i, j :: 0 <= i < j < |table| ==> table[i].1 != table[j].1)
  }

  /** 2^k. */
  function Pow2(k: nat): (r: int)
    ensures r > 0
  {
    if k == 0 then 1 else 2 * Pow2(k - 1)
  }

  /** The masks are the single bits 2^1 .. 2^6, and the names are distinct, non-empty, separator-free and never "TICK". */
  lemma NamedIsGood()
    ensures GoodTable(NAMED)
    ensures forall i :: 0 <= i < |NAMED| ==> NAMED[i].0 == Pow2(i + 1)
    ensures forall i :: 0 <= i < |NAMED| ==> NAMED[i].1 != DEFAULT_DESCRIPTION && NAMED[i].1[0] != 'T'
  {
    assert Pow2(1) == 2 && Pow2(2) == 4 && Pow2(3) == 8 && Pow2(4) == 16 && Pow2(5) == 32 && Pow2(6) == 64;
  }

  /** The six bits the description reports, in the order it reports them. */
  function Bits(flags: int): (b: seq<bool>)
    ensures |b| == |NAMED|
    ensures forall k :: 0 <= k < |NAMED| ==> b[k] == HasBit(flags, NAMED[k].0)
  {
    seq(|NAMED|, k requires 0 <= k < |NAMED| => HasBit(flags, NAMED[k].0))
  }

  /** The names of the set bits of `table`, in table order: with `NAMED`, the `parts` list of `flag_description`. */
  function Pick(flags: int, table: seq<(int, string)>): seq<string>
    requires forall i :: 0 <= i < |table| ==> table[i].0 > 0
  {
    if |table| == 0 then []
    else (if HasBit(flags, table[0].0) then [table[0].1] else []) + Pick(flags, table[1..])
  }

  lemma {:induction false} PickMember(flags: int, table: seq<(int, string)>, name: string)
    requires forall i :: 0 <= i < |table| ==> table[i].0 > 0
    ensures name in Pick(flags, table) <==>
      exists i :: 0 <= i < |table| && table[i].1 == name && HasBit(flags, table[i].0)
  {
    if |table| > 0 {
      PickMember(flags, table[1..], name);
      if name in Pick(flags, table[1..]) {
        var i :| 0 <= i < |table[1..]| && table[1..][i].1 == name && HasBit(flags, table[1..][i].0);
        assert table[i + 1] == table[1..][i];
      }
      if exists i :: 0 <= i < |table| && table[i].1 == name && HasBit(flags, table[i].0) {
        var i :| 0 <= i < |table| && table[i].1 == name && HasBit(flags, table[i].0);
        if i > 0 { assert table[1..][i - 1] == table[i]; }
      }
    }
  }

  lemma {:induction false} PickEmpty(flags: int, table: seq<(int, string)>)
    requires forall i :: 0 <= i < |table| ==> table[i].0 > 0
    ensures |Pick(flags, table)| == 0 <==> forall i :: 0 <= i < |table| ==> !HasBit(flags, table[i].0)
  {
    if |table| > 0 {
      PickEmpty(flags, table[1..]);
      assert forall i :: 1 <= i < |table| ==> table[i] == table[1..][i - 1];
    }
  }

  /** Python's `"|".join(parts)`. */
  function Join(parts: seq<string>): string {
    if |parts| == 0 then ""
    else if |parts| == 1 then parts[0]
    else parts[0] + [SEPARATOR] + Join(parts[1..])
  }

  /** The first position of `c` in `s`. */
  function IndexOf(s: string, c: char): (i: nat)
    requires c in s
    ensures i < |s| && s[i] == c && c !in s[..i]
  {
    if s[0] == c then 0
    else
      assert c in s[1..] by { var k :| 0 <= k < |s| && s[k] == c; assert s[1..][k - 1] == c; }
      var j := IndexOf(s[1..], c);
      assert s[..j + 1] == [s[0]] + s[1..][..j];
      j + 1
  }

  /** Python's `s.split("|")`: always at least one piece. */
  function Split(s: string): (pieces: seq<string>)
    ensures |pieces| > 0
    decreases |s|
  {
    if SEPARATOR in s then
      var i := IndexOf(s, SEPARATOR);
      [s[..i]] + Split(s[i + 1..])
    else [s]
  }

  /** `flag_description`. */
  function Describe(flags: int): (desc: string)
    ensures desc == DEFAULT_DESCRIPTION <==> forall k :: 0 <= k < |NAMED| ==> !Bits(flags)[k]
  {
    var parts := Pick(flags, NAMED);
    PickEmpty(flags, NAMED);
    if |parts| == 0 then DEFAULT_DESCRIPTION
    else
      NamedIsGood();
      assert parts[0] in parts;
      PickMember(flags, NAMED, parts[0]);
      var i :| 0 <= i < |NAMED| && NAMED[i].1 == parts[0] && HasBit(flags, NAMED[i].0);
      assert Bits(flags)[i];
      JoinStartsWithFirst(parts);
      assert Join(parts)[0] != DEFAULT_DESCRIPTION[0];
      Join(parts)
  }

  /** Reads a description back into the six bits it reports. */
  function Decode(desc: string): (bits: seq<bool>)
    ensures |bits| == |NAMED|
  {
    var pieces := Split(desc);
    seq(|NAMED|, k requires 0 <= k < |NAMED| => NAMED[k].1 in pieces)
  }

  lemma {:induction false} JoinStartsWithFirst(parts: seq<string>)
    requires |parts| > 0 && |parts[0]| > 0
    ensures |Join(parts)| > 0 && Join(parts)[0] == parts[0][0]
  {
  }

  lemma IndexAfterPrefix(p: string, q: string)
    requires SEPARATOR !in p
    ensures SEPARATOR in p + [SEPARATOR] + q
    ensures IndexOf(p + [SEPARATOR] + q, SEPARATOR) == |p|
  {
    var s := p + [SEPARATOR] + q;
    assert s[|p|] == SEPARATOR;
  }

  /** Splitting a join of separator-free pieces gives the pieces back. */
  lemma {:induction false} SplitJoin(parts: seq<string>)
    requires |parts| > 0
    requires forall k :: 0 <= k < |parts| ==> SEPARATOR !in parts[k]
    ensures Split(Join(parts)) == parts
  {
    if |parts| > 1 {
      var s := Join(parts);
      assert s == parts[0] + [SEPARATOR] + Join(parts[1..]);
      IndexAfterPrefix(parts[0], Join(parts[1..]));
      var i := |parts[0]|;
      assert s[..i] == parts[0];
      assert s[i + 1..] == Join(parts[1..]);
      SplitJoin(parts[1..]);
      assert parts == [parts[0]] + parts[1..];
    }
  }

  /** The description names exactly the set bits among the six: decoding it recovers them. */
  lemma DecodeDescribe(flags: int)
    ensures Decode(Describe(flags)) == Bits(flags)
  {
    NamedIsGood();
    var parts := Pick(flags, NAMED);
    var pieces := Split(Describe(flags));
    if |parts| > 0 {
      forall k | 0 <= k < |parts| ensures SEPARATOR !in parts[k] {
        PickMember(flags, NAMED, parts[k]);
      }
      SplitJoin(parts);
      assert pieces == parts;
    } else {
      assert SEPARATOR !in DEFAULT_DESCRIPTION;
      assert pieces == [DEFAULT_DESCRIPTION];
    }
    forall k | 0 <= k < |NAMED| ensures (NAMED[k].1 in pieces) == HasBit(flags, NAMED[k].0) {
      PickMember(flags, NAMED, NAMED[k].1);
      PickEmpty(flags, NAMED);
    }
  }

  /** Two masks get the same description exactly when they agree on the six named bits. */
  lemma SameDescription(f: int, g: int)
    ensures Describe(f) == Describe(g) <==> Bits(f) == Bits(g)
  {
    DecodeDescribe(f);
    DecodeDescribe(g);
    if Bits(f) == Bits(g) {
      forall i | 0 <= i < |NAMED| ensures HasBit(f, NAMED[i].0) == HasBit(g, NAMED[i].0) {
        assert Bits(f)[i] == Bits(g)[i];
      }
      PickSameBits(f, g, NAMED);
    }
  }

  lemma {:induction false} PickSameBits(f: int, g: int, table: seq<(int, string)>)
    requires forall i :: 0 <= i < |table| ==> table[i].0 > 0
    requires forall i :: 0 <= i < |table| ==> HasBit(f, table[i].0) == HasBit(g, table[i].0)
    ensures Pick(f, table) == Pick(g, table)
  {
    if |table| > 0 {
      assert forall i :: 1 <= i < |table| ==> table[i] == table[1..][i - 1];
      PickSameBits(f, g, table[1..]);
    }
  }

  /** The table walk is the six bit checks of `flag_description`, in their order. */
  lemma SixTests(flags: int)
    ensures Pick(flags, NAMED) ==
      (if HasBit(flags, BID) then ["BID"] else []) +
      ((if HasBit(flags, ASK) then ["ASK"] else []) +
      ((if HasBit(flags, LAST) then ["LAST"] else []) +
      ((if HasBit(flags, VOLUME) then ["VOLUME"] else []) +
      ((if HasBit(flags, BUY) then ["BUY"] else []) +
      (if HasBit(flags, SELL) then ["SELL"] else [])))))
  {
    var t0 := NAMED;
    var t1 := [(ASK, "ASK"), (LAST, "LAST"), (VOLUME, "VOLUME"), (BUY, "BUY"), (SELL, "SELL")];
    var t2 := [(LAST, "LAST"), (VOLUME, "VOLUME"), (BUY, "BUY"), (SELL, "SELL")];
    var t3 := [(VOLUME, "VOLUME"), (BUY, "BUY"), (SELL, "SELL")];
    var t4 := [(BUY, "BUY"), (SELL, "SELL")];
    var t5 := [(SELL, "SELL")];
    assert t0[1..] == t1 && t1[1..] == t2 && t2[1..] == t3 && t3[1..] == t4 && t4[1..] == t5;
    assert Pick(flags, t5) == (if HasBit(flags, SELL) then ["SELL"] else []) + Pick(flags, t5[1..]);
    assert Pick(flags, t5[1..]) == [];
    assert Pick(flags, t5) == (if HasBit(flags, SELL) then ["SELL"] else []);
    assert Pick(flags, t4) == (if HasBit(flags, BUY) then ["BUY"] else []) + Pick(flags, t5);
    assert Pick(flags, t3) == (if HasBit(flags, VOLUME) then ["VOLUME"] else []) + Pick(flags, t4);
    assert Pick(flags, t2) == (if HasBit(flags, LAST) then ["LAST"] else []) + Pick(flags, t3);
    assert Pick(flags, t1) == (if HasBit(flags, ASK) then ["ASK"] else []) + Pick(flags, t2);
    assert Pick(flags, t0) == (if HasBit(flags, BID) then ["BID"] else []) + Pick(flags, t1);
  }

  /** Bits are reported in table order; bit 0x01 and bits above 0x40 are ignored. */
  lemma DescribeExamples()
    ensures Describe(0x42) == "BID|SELL"
    ensures Describe(0x06) == "BID|ASK"
    ensures Describe(0x81) == DEFAULT_DESCRIPTION
  {
    SixTests(0x42);
    assert Pick(0x42, NAMED) == ["BID", "SELL"];
    assert Join(["BID", "SELL"]) == "BID|SELL";
    SixTests(0x06);
    assert Pick(0x06, NAMED) == ["BID", "ASK"];
    assert Join(["BID", "ASK"]) == "BID|ASK";
    SixTests(0x81);
    assert Pick(0x81, NAMED) == [];
  }
}
