/** Half-open ranges of indices in a sequence, and the set of indices they stand for. */
module Ranges {
  datatype Range = Range(first: nat, second: nat)
  {
    function Len(): int {
      second - first
    }
  }

  ghost predicate Has(rs: seq<Range>, x: nat) {
    exists i :: 0 <= i < |rs| && rs[i].first <= x < rs[i].second
  }

  /** In order, but possibly empty or touching. */
  ghost predicate Sorted(rs: seq<Range>) {
    && (forall i | 0 <= i < |rs| :: rs[i].first <= rs[i].second)
    && (forall i, j | 0 <= i < j < |rs| :: rs[i].second <= rs[j].first)
  }

  /** Nonempty, in order and coalesced: no range touches the next one. */
  ghost predicate Canonical(rs: seq<Range>) {
    && (forall i | 0 <= i < |rs| :: rs[i].first < rs[i].second)
    && (forall i, j | 0 <= i < j < |rs| :: rs[i].second < rs[j].first)
  }

  /** Total number of indices. */
  function Total(rs: seq<Range>): int {
    if rs == [] then 0 else rs[0].Len() + Total(rs[1..])
  }

  lemma {:induction false} TotalConcat(a: seq<Range>, b: seq<Range>)
    ensures Total(a + b) == Total(a) + Total(b)
  {
    if a == [] {
      assert a + b == b;
    } else {
      assert (a + b)[1..] == a[1..] + b;
      TotalConcat(a[1..], b);
    }
  }

  lemma TotalParts(a: seq<Range>, r: Range, b: seq<Range>)
    ensures Total(a + [r] + b) == Total(a) + r.Len() + Total(b)
  {
    TotalConcat(a + [r], b);
    TotalConcat(a, [r]);
    TotalOne(r);
    hide Total;
  }

  lemma TotalOne(r: Range)
    ensures Total([r]) == r.Len()
  {
    assert [r][1..] == [];
  }

  /** Total number of indices of the first `k` ranges. */
  function TotalUpTo(rs: seq<Range>, k: nat): int
    requires k <= |rs|
  {
    Total(rs[..k])
  }

  lemma TotalUpToNone(rs: seq<Range>)
    ensures TotalUpTo(rs, 0) == 0
  {
  }

  lemma TotalUpToNext(rs: seq<Range>, k: nat)
    requires k < |rs|
    ensures TotalUpTo(rs, k + 1) == TotalUpTo(rs, k) + rs[k].Len()
  {
    hide Total;
    assert rs[..k + 1] == rs[..k] + [rs[k]];
    TotalConcat(rs[..k], [rs[k]]);
    TotalOne(rs[k]);
  }

  /** The first range that ends after `x`: the one that contains `x`, or the first one after it. */
  function FirstAfter(rs: seq<Range>, x: nat): (k: nat)
    ensures k <= |rs|
    ensures forall i | 0 <= i < k :: rs[i].second <= x
    ensures k < |rs| ==> x < rs[k].second
  {
    if rs == [] || x < rs[0].second then 0 else FirstAfter(rs[1..], x) + 1
  }

  lemma FirstAfterIs(rs: seq<Range>, x: nat, k: nat)
    requires k <= |rs| && (forall i | 0 <= i < k :: rs[i].second <= x) && (k < |rs| ==> x < rs[k].second)
    ensures FirstAfter(rs, x) == k
  {
  }

  lemma FirstAfterPast(rs: seq<Range>, x: nat, last: nat)
    requires Sorted(rs) && last < |rs| && rs[last].second <= x
    ensures last < FirstAfter(rs, x)
  {
  }

  lemma HasAt(rs: seq<Range>, x: nat)
    requires Sorted(rs)
    ensures var k := FirstAfter(rs, x); Has(rs, x) <==> k < |rs| && rs[k].first <= x
  {
    var k := FirstAfter(rs, x);
    if Has(rs, x) {
      var i :| 0 <= i < |rs| && rs[i].first <= x < rs[i].second;
    }
  }

  lemma CanonicalSorted(rs: seq<Range>)
    requires Canonical(rs)
    ensures Sorted(rs)
  {
  }

  lemma HasConcat(a: seq<Range>, b: seq<Range>, x: nat)
    ensures Has(a + b, x) <==> Has(a, x) || Has(b, x)
  {
    if Has(a, x) {
      var i :| 0 <= i < |a| && a[i].first <= x < a[i].second;
      assert (a + b)[i] == a[i];
    }
    if Has(b, x) {
      var i :| 0 <= i < |b| && b[i].first <= x < b[i].second;
      assert (a + b)[|a| + i] == b[i];
    }
  }

  lemma HasOne(r: Range, x: nat)
    ensures Has([r], x) <==> r.first <= x < r.second
  {
    if r.first <= x < r.second {
      assert [r][0] == r;
    }
  }

  /** The members around the `k`-th range. */
  lemma HasParts(rs: seq<Range>, k: nat, x: nat)
    requires k < |rs|
    ensures Has(rs, x) <==> Has(rs[..k], x) || rs[k].first <= x < rs[k].second || Has(rs[k + 1..], x)
  {
    assert rs == rs[..k] + ([rs[k]] + rs[k + 1..]);
    HasConcat(rs[..k], [rs[k]] + rs[k + 1..], x);
    HasConcat([rs[k]], rs[k + 1..], x);
    HasOne(rs[k], x);
  }

  /**
   * A set of indices has one canonical list of ranges: what is proved about the members of a
   * canonical list determines the list.
   */
  lemma {:induction false} CanonicalUnique(a: seq<Range>, b: seq<Range>)
    requires Canonical(a) && Canonical(b) && forall x: nat :: Has(a, x) <==> Has(b, x)
    ensures a == b
    decreases |a|
  {
    if a == [] {
      if b != [] {
        HasFirst(b);
      }
    } else if b == [] {
      HasFirst(a);
    } else {
      SameHead(a, b);
      TailHas(a);
      TailHas(b);
      forall x: nat ensures Has(a[1..], x) <==> Has(b[1..], x) {
        assert Has(a, x) <==> Has(b, x);
      }
      CanonicalUnique(a[1..], b[1..]);
      assert a == [a[0]] + a[1..];
      assert b == [b[0]] + b[1..];
    }
  }

  lemma HasFirst(a: seq<Range>)
    requires Canonical(a) && a != []
    ensures Has(a, a[0].first)
  {
  }

  lemma TailHas(a: seq<Range>)
    requires Canonical(a) && a != []
    ensures Canonical(a[1..])
    ensures forall x: nat :: Has(a[1..], x) <==> Has(a, x) && a[0].second <= x
  {
    forall x: nat ensures Has(a[1..], x) <==> Has(a, x) && a[0].second <= x {
      if Has(a[1..], x) {
        var i :| 0 <= i < |a[1..]| && a[1..][i].first <= x < a[1..][i].second;
        assert a[i + 1] == a[1..][i];
      }
      if Has(a, x) && a[0].second <= x {
        var i :| 0 <= i < |a| && a[i].first <= x < a[i].second;
        assert a[1..][i - 1] == a[i];
      }
    }
  }

  lemma SameHead(a: seq<Range>, b: seq<Range>)
    requires Canonical(a) && Canonical(b) && a != [] && b != [] && forall x: nat :: Has(a, x) <==> Has(b, x)
    ensures a[0] == b[0]
  {
    HeadHas(a, b);
    HeadHas(b, a);
  }

  /** The first range of `a` starts and ends no earlier than the first one of `b`. */
  lemma HeadHas(a: seq<Range>, b: seq<Range>)
    requires Canonical(a) && Canonical(b) && a != [] && b != [] && forall x: nat :: Has(a, x) <==> Has(b, x)
    ensures b[0].first <= a[0].first && (a[0].first == b[0].first ==> a[0].second <= b[0].second)
  {
    HasFirst(a);
    HasHead(a);
    EndsHead(b);
  }

  lemma HasHead(a: seq<Range>)
    requires a != []
    ensures forall x: nat | a[0].first <= x < a[0].second :: Has(a, x)
  {
  }

  lemma EndsHead(a: seq<Range>)
    requires Canonical(a) && a != []
    ensures !Has(a, a[0].second) && forall x: nat | x < a[0].first :: !Has(a, x)
  {
  }

  // ---- counting ----

  /** How many indices of one range lie below `e`. */
  function Clip(r: Range, e: nat): int {
    if e <= r.first then 0 else if e <= r.second then e - r.first else r.Len()
  }

  /** How many members lie below `e`. */
  function Below(rs: seq<Range>, e: nat): int {
    if rs == [] then 0 else Clip(rs[0], e) + Below(rs[1..], e)
  }

  lemma {:induction false} BelowConcat(a: seq<Range>, b: seq<Range>, e: nat)
    ensures Below(a + b, e) == Below(a, e) + Below(b, e)
  {
    if a == [] {
      assert a + b == b;
    } else {
      assert (a + b)[1..] == a[1..] + b;
      BelowConcat(a[1..], b, e);
    }
  }

  /** Ranges that end by `e` count in full, ranges that start from `e` on not at all. */
  lemma {:induction false} BelowAll(rs: seq<Range>, e: nat)
    requires forall i | 0 <= i < |rs| :: rs[i].first <= rs[i].second <= e
    ensures Below(rs, e) == Total(rs)
  {
    if rs != [] {
      assert forall i | 0 <= i < |rs[1..]| :: rs[1..][i] == rs[i + 1];
      BelowAll(rs[1..], e);
    }
  }

  lemma {:induction false} BelowNone(rs: seq<Range>, e: nat)
    requires forall i | 0 <= i < |rs| :: e <= rs[i].first
    ensures Below(rs, e) == 0
  {
    if rs != [] {
      assert forall i | 0 <= i < |rs[1..]| :: rs[1..][i] == rs[i + 1];
      BelowNone(rs[1..], e);
    }
  }

  /** Below `x` lie all of the ranges before the first one that ends after `x`, and its own part. */
  lemma BelowAtFirstAfter(rs: seq<Range>, x: nat)
    requires Sorted(rs)
    ensures var k := FirstAfter(rs, x);
            Below(rs, x) == TotalUpTo(rs, k) + if k < |rs| then Clip(rs[k], x) else 0
  {
    BelowAt(rs, FirstAfter(rs, x), x);
  }

  /** The same, at any range that the count may stop at. */
  lemma BelowAt(rs: seq<Range>, j: nat, e: nat)
    requires Sorted(rs) && j <= |rs| && (forall i | 0 <= i < j :: rs[i].second <= e) && (j < |rs| ==> e <= rs[j].second)
    ensures Below(rs, e) == TotalUpTo(rs, j) + if j < |rs| then Clip(rs[j], e) else 0
  {
    hide Below, Total;
    var a := rs[..j];
    BelowAll(a, e);
    if j < |rs| {
      var c := rs[j + 1..];
      BelowOne(rs[j], e);
      BelowNone(c, e);
      assert rs == a + ([rs[j]] + c);
      BelowConcat(a, [rs[j]] + c, e);
      BelowConcat([rs[j]], c, e);
    } else {
      assert rs == a;
    }
  }

  lemma BelowOne(r: Range, x: nat)
    ensures Below([r], x) == Clip(r, x)
  {
    assert [r][1..] == [];
  }

  lemma {:induction false} BelowStep(rs: seq<Range>, e: nat)
    requires Sorted(rs)
    ensures Below(rs, e + 1) == Below(rs, e) + if Has(rs, e) then 1 else 0
  {
    if rs != [] {
      var tail := rs[1..];
      assert forall i | 0 <= i < |tail| :: tail[i] == rs[i + 1];
      BelowStep(tail, e);
      HasParts(rs, 0, e);
      assert rs[..0] == [] && rs[0 + 1..] == tail;
      if rs[0].first <= e < rs[0].second {
        BelowNone(tail, e);
        BelowNone(tail, e + 1);
      }
    }
  }

  lemma {:induction false} BelowBounds(rs: seq<Range>, e: nat)
    requires Sorted(rs)
    ensures 0 <= Below(rs, e) <= e
    decreases e
  {
    if e == 0 {
      BelowNone(rs, 0);
    } else {
      BelowBounds(rs, e - 1);
      BelowStep(rs, e - 1);
    }
  }

  ghost function MembersBelow(rs: seq<Range>, e: nat): set<nat> {
    set x: nat | x < e && Has(rs, x)
  }

  lemma BelowNothing(rs: seq<Range>)
    ensures Below(rs, 0) == 0 && MembersBelow(rs, 0) == {}
  {
    BelowNone(rs, 0);
  }

  lemma MembersBelowNext(rs: seq<Range>, e: nat)
    ensures MembersBelow(rs, e + 1) == MembersBelow(rs, e) + if Has(rs, e) then {e} else {}
    ensures e !in MembersBelow(rs, e)
  {
    hide Has;
  }

  /** `Below` is the number of members below `e`. */
  lemma {:induction false} BelowCounts(rs: seq<Range>, e: nat)
    requires Sorted(rs)
    ensures Below(rs, e) == |MembersBelow(rs, e)|
    decreases e
  {
    hide MembersBelow, Below, Has, Sorted;
    if e == 0 {
      BelowNothing(rs);
    } else {
      BelowCounts(rs, e - 1);
      BelowStep(rs, e - 1);
      MembersBelowNext(rs, e - 1);
    }
  }

  // ---- shifting ----

  /** An index after all the members of the set have been deleted. */
  function Unshift(rs: seq<Range>, y: nat): int {
    y - Below(rs, y)
  }

  /** An index after all the members of the set have been inserted. */
  function ShiftTo(rs: seq<Range>, i: nat): nat
    requires Sorted(rs)
    decreases |rs|
  {
    if rs == [] || rs[0].first > i then i else ShiftTo(rs[1..], i + rs[0].Len())
  }

  /** Shifting lands outside the set, and unshifting leads back. */
  lemma {:induction false} ShiftSpec(rs: seq<Range>, i: nat)
    requires Canonical(rs)
    ensures i <= ShiftTo(rs, i) && !Has(rs, ShiftTo(rs, i)) && Unshift(rs, ShiftTo(rs, i)) == i
    decreases |rs|
  {
    var r := ShiftTo(rs, i);
    if rs == [] {
    } else if rs[0].first > i {
      assert forall k | 0 <= k < |rs| :: rs[0].first <= rs[k].first;
      BelowNone(rs, i);
    } else {
      var tail := rs[1..];
      assert forall k | 0 <= k < |tail| :: tail[k] == rs[k + 1];
      ShiftSpec(tail, i + rs[0].Len());
      HasParts(rs, 0, r);
      assert rs[..0] == [] && rs[0 + 1..] == tail;
    }
  }

  /** Unshifting never reorders, and separates any two indices with a non-member at the lower one. */
  lemma {:induction false} UnshiftMonotone(rs: seq<Range>, y: nat, z: nat)
    requires Sorted(rs) && y <= z
    ensures Unshift(rs, y) <= Unshift(rs, z)
    ensures y < z && !Has(rs, y) ==> Unshift(rs, y) < Unshift(rs, z)
    decreases z - y
  {
    if y < z {
      BelowStep(rs, y);
      UnshiftMonotone(rs, y + 1, z);
    }
  }

  /** Unshifting an index outside the set and shifting it again gives the index back. */
  lemma ShiftUnshift(rs: seq<Range>, y: nat)
    requires Canonical(rs) && !Has(rs, y)
    ensures Unshift(rs, y) >= 0 && ShiftTo(rs, Unshift(rs, y)) == y
  {
    BelowBounds(rs, y);
    var i := Unshift(rs, y);
    ShiftSpec(rs, i);
    var z := ShiftTo(rs, i);
    if y < z {
      UnshiftMonotone(rs, y, z);
    } else if z < y {
      UnshiftMonotone(rs, z, y);
    }
  }

  /**
   * Shifting is a strictly increasing bijection from the indices onto those outside the set, and
   * unshifting is its inverse there.
   */
  lemma ShiftBijection(rs: seq<Range>)
    requires Canonical(rs)
    ensures forall i: nat, j: nat | i < j :: ShiftTo(rs, i) < ShiftTo(rs, j)
    ensures forall i: nat :: !Has(rs, ShiftTo(rs, i)) && Unshift(rs, ShiftTo(rs, i)) == i
    ensures forall y: nat :: !Has(rs, y) ==> 0 <= Unshift(rs, y) && ShiftTo(rs, Unshift(rs, y)) == y
  {
    forall i: nat ensures !Has(rs, ShiftTo(rs, i)) && Unshift(rs, ShiftTo(rs, i)) == i {
      ShiftSpec(rs, i);
    }
    forall y: nat | !Has(rs, y) ensures 0 <= Unshift(rs, y) && ShiftTo(rs, Unshift(rs, y)) == y {
      ShiftUnshift(rs, y);
    }
    forall i: nat, j: nat | i < j ensures ShiftTo(rs, i) < ShiftTo(rs, j) {
      ShiftSpec(rs, i);
      ShiftSpec(rs, j);
      if ShiftTo(rs, j) <= ShiftTo(rs, i) {
        UnshiftMonotone(rs, ShiftTo(rs, j), ShiftTo(rs, i));
      }
    }
  }
}
