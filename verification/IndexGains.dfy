/** Adding indices that are given relative to another set: where they land and in which order. */
module IndexGains {
  import opened Ranges
  import opened RangeEdits
  import opened IndexSetSteps
  import opened IndexIterators
  import opened IndexMerges
  import opened Chunks
  import opened RangeBuilder

  /** Where an index lands once the members of `bs` are deleted and then those of `rs` inserted. */
  function Target(rs: seq<Range>, bs: seq<Range>, v: nat): nat
    requires Sorted(rs) && Unshift(bs, v) >= 0
  {
    ShiftTo(rs, Unshift(bs, v))
  }

  /** `y` is the place where one of the values lands that is not itself a member of `bs`. */
  ghost predicate Gained(rs: seq<Range>, bs: seq<Range>, vs: seq<Range>, y: nat)
    requires Sorted(bs)
  {
    !Has(rs, y) && Unshift(rs, y) >= 0 && Has(vs, ShiftTo(bs, Unshift(rs, y)))
  }

  /** A value outside `bs` lands on an index outside `rs`, from which it can be found again. */
  lemma TargetIsGained(rs: seq<Range>, bs: seq<Range>, vs: seq<Range>, v: nat)
    requires Canonical(rs) && Canonical(bs) && Sorted(rs) && Sorted(bs) && !Has(bs, v)
    ensures Unshift(bs, v) >= 0
    ensures var y := Target(rs, bs, v);
            !Has(rs, y) && Unshift(rs, y) >= 0 && ShiftTo(bs, Unshift(rs, y)) == v
              && (Gained(rs, bs, vs, y) <==> Has(vs, v))
  {
    hide Has, Canonical, Sorted, ShiftTo, Below, Unshift;
    ShiftUnshift(bs, v);
    ShiftSpec(rs, Unshift(bs, v));
  }

  /** What is gained is where exactly one value outside `bs` lands. */
  lemma GainedIsTarget(rs: seq<Range>, bs: seq<Range>, vs: seq<Range>, y: nat)
    requires Canonical(rs) && Canonical(bs) && Sorted(rs) && Sorted(bs) && Gained(rs, bs, vs, y)
    ensures var v := ShiftTo(bs, Unshift(rs, y));
            Has(vs, v) && !Has(bs, v) && Unshift(bs, v) >= 0 && Target(rs, bs, v) == y
  {
    hide Has, Canonical, Sorted, ShiftTo, Below, Unshift;
    ShiftUnshift(rs, y);
    ShiftSpec(bs, Unshift(rs, y));
  }

  lemma TargetsAscend(rs: seq<Range>, bs: seq<Range>, v: nat, w: nat)
    requires Canonical(rs) && Canonical(bs) && Sorted(rs) && Sorted(bs) && !Has(bs, v) && !Has(bs, w) && v < w
    ensures Unshift(bs, v) >= 0 && Unshift(bs, w) >= 0 && Target(rs, bs, v) < Target(rs, bs, w)
  {
    hide Has, Canonical, Sorted, ShiftTo, Below, Unshift;
    UnshiftMonotone(bs, v, w);
    ShiftUnshift(bs, v);
    ShiftUnshift(bs, w);
    ShiftBijection(rs);
  }

  /** `s` is right about the indices below `f` and has no others. */
  ghost predicate GainedUpTo(rs: seq<Range>, bs: seq<Range>, vs: seq<Range>, s: seq<Range>, f: nat)
    requires Sorted(bs)
  {
    forall y: nat :: Has(s, y) <==> y < f && (Has(rs, y) || Gained(rs, bs, vs, y))
  }

  /** The members are those of `rs` and the places where the values land. */
  ghost predicate GainedBy(rs: seq<Range>, bs: seq<Range>, vs: seq<Range>, s: seq<Range>)
    requires Sorted(bs)
  {
    forall y: nat :: Has(s, y) <==> Has(rs, y) || Gained(rs, bs, vs, y)
  }

  /** What is gained from `f` on comes from the values from `lo` on, and those land from `f` on. */
  ghost predicate Frontier(rs: seq<Range>, bs: seq<Range>, vs: seq<Range>, f: nat, lo: nat)
    requires Sorted(rs) && Sorted(bs)
  {
    && (forall y: nat | f <= y && Gained(rs, bs, vs, y) :: lo <= ShiftTo(bs, Unshift(rs, y)))
    && (forall v: nat | lo <= v && !Has(bs, v) :: Unshift(bs, v) >= 0 && f <= Target(rs, bs, v))
  }

  lemma GainBegins(rs: seq<Range>, bs: seq<Range>, vs: seq<Range>)
    requires Canonical(rs) && Canonical(bs) && Sorted(rs) && Sorted(bs)
    ensures GainedUpTo(rs, bs, vs, [], 0) && Canonical([]) && Frontier(rs, bs, vs, 0, 0)
    ensures vs == [] ==> GainedBy(rs, bs, vs, rs)
  {
    forall v: nat | !Has(bs, v) ensures Unshift(bs, v) >= 0 {
      ShiftUnshift(bs, v);
    }
  }

  /** A value in `bs` is passed over. */
  lemma GainSkips(rs: seq<Range>, bs: seq<Range>, vs: seq<Range>, f: nat, lo: nat, v: nat)
    requires Canonical(rs) && Canonical(bs) && Sorted(rs) && Sorted(bs) && Frontier(rs, bs, vs, f, lo)
    requires lo <= v && NoneIn(vs, lo, v) && Has(bs, v)
    ensures Frontier(rs, bs, vs, f, v + 1)
  {
    hide Has, Canonical, Sorted, ShiftTo, Below, Unshift;
    forall y: nat | f <= y && Gained(rs, bs, vs, y) ensures v + 1 <= ShiftTo(bs, Unshift(rs, y)) {
      GainedIsTarget(rs, bs, vs, y);
    }
  }

  /** The next value outside `bs` is the next gain, and after it the next ones follow. */
  lemma GainNext(rs: seq<Range>, bs: seq<Range>, vs: seq<Range>, f: nat, lo: nat, v: nat)
    requires Canonical(rs) && Canonical(bs) && Sorted(rs) && Sorted(bs) && Frontier(rs, bs, vs, f, lo)
    requires lo <= v && NoneIn(vs, lo, v) && !Has(bs, v) && Has(vs, v)
    ensures Unshift(bs, v) >= 0 && f <= Target(rs, bs, v) && Gained(rs, bs, vs, Target(rs, bs, v))
    ensures forall y: nat | f <= y < Target(rs, bs, v) :: !Gained(rs, bs, vs, y)
    ensures Frontier(rs, bs, vs, Target(rs, bs, v) + 1, v + 1)
  {
    hide Has, Canonical, Sorted, ShiftTo, Below, Unshift, Target;
    TargetIsGained(rs, bs, vs, v);
    var t := Target(rs, bs, v);
    forall y: nat | f <= y && Gained(rs, bs, vs, y) ensures t <= y && (y > t ==> v + 1 <= ShiftTo(bs, Unshift(rs, y))) {
      GainedIsTarget(rs, bs, vs, y);
      var w := ShiftTo(bs, Unshift(rs, y));
      assert v <= w;
      if v < w {
        TargetsAscend(rs, bs, v, w);
      }
    }
    forall w: nat | v + 1 <= w && !Has(bs, w) ensures t + 1 <= Target(rs, bs, w) {
      TargetsAscend(rs, bs, v, w);
    }
  }

  /** After the last value nothing more is gained. */
  lemma GainEnds(rs: seq<Range>, bs: seq<Range>, vs: seq<Range>, f: nat, lo: nat)
    requires Sorted(rs) && Sorted(bs) && Frontier(rs, bs, vs, f, lo) && NoneFrom(vs, lo)
    ensures forall y: nat | f <= y :: !Gained(rs, bs, vs, y)
  {
    hide Has, Sorted, ShiftTo, Below, Unshift;
  }

  /** Pushing the next index that belongs in the result. */
  lemma GainPushes(rs: seq<Range>, bs: seq<Range>, vs: seq<Range>, s: seq<Range>, t: seq<Range>, f: nat, x: nat)
    requires Sorted(bs) && GainedUpTo(rs, bs, vs, s, f) && f <= x && OneMore(s, t, x)
    requires Has(rs, x) || Gained(rs, bs, vs, x)
    requires NoneIn(rs, f, x) && forall y: nat | f <= y < x :: !Gained(rs, bs, vs, y)
    ensures GainedUpTo(rs, bs, vs, t, x + 1)
  {
    hide Has, Sorted, Gained;
  }

  /** Pushing the next range of the old set. */
  lemma GainPushesRange(rs: seq<Range>, bs: seq<Range>, vs: seq<Range>, s: seq<Range>, t: seq<Range>, f: nat, k: nat)
    requires Sorted(bs) && Canonical(rs) && GainedUpTo(rs, bs, vs, s, f) && k < |rs| && f <= rs[k].first
    requires NoneIn(rs, f, rs[k].first) && forall y: nat | f <= y < rs[k].second :: !Gained(rs, bs, vs, y)
    requires forall y: nat :: Has(t, y) <==> Has(s, y) || rs[k].first <= y < rs[k].second
    ensures GainedUpTo(rs, bs, vs, t, rs[k].second) && f <= rs[k].second
  {
    CanonicalAt(rs, k);
    hide Has, Sorted, Gained, Canonical;
    forall y: nat | rs[k].first <= y < rs[k].second ensures Has(rs, y) {
      RangeHas(rs, k, y);
    }
  }

  lemma GainedAll(rs: seq<Range>, bs: seq<Range>, vs: seq<Range>, s: seq<Range>, f: nat)
    requires Sorted(bs) && GainedUpTo(rs, bs, vs, s, f) && NoneFrom(rs, f)
    requires forall y: nat | f <= y :: !Gained(rs, bs, vs, y)
    ensures GainedBy(rs, bs, vs, s)
  {
    hide Has, Sorted, Gained;
  }

  // ---- where the search stands ----

  /** The old ranges before the `k`-th have been pushed: they end by `f`, and the others start from there on. */
  ghost predicate Stands(rs: seq<Range>, k: nat, f: nat) {
    && k <= |rs|
    && (k > 0 ==> rs[k - 1].second <= f)
    && (k < |rs| ==> f <= rs[k].first)
  }

  lemma StandsNone(rs: seq<Range>, k: nat, f: nat)
    requires Canonical(rs) && Stands(rs, k, f)
    ensures k < |rs| ==> NoneIn(rs, f, rs[k].first)
    ensures k == |rs| ==> NoneFrom(rs, f)
    ensures k < |rs| ==> rs[k].first < rs[k].second && Stands(rs, k + 1, rs[k].second)
  {
    if k > 0 {
      EndsBefore(rs, k, f);
    }
  }

  lemma EndsBefore(rs: seq<Range>, k: nat, f: nat)
    requires Canonical(rs) && 0 < k <= |rs| && rs[k - 1].second <= f
    ensures forall i | 0 <= i < k :: rs[i].second <= f
  {
  }

  /** All ranges before the `k`-th start by where the pushed index then is. */
  ghost predicate PushedOver(rs: seq<Range>, k: nat, w: int) {
    k <= |rs| && forall j | 0 <= j < k :: rs[j].first <= w + TotalUpTo(rs, j)
  }

  lemma PushedOverNext(rs: seq<Range>, k: nat, w: int)
    requires PushedOver(rs, k, w) && k < |rs| && rs[k].first <= w + TotalUpTo(rs, k)
    ensures PushedOver(rs, k + 1, w) && TotalUpTo(rs, k + 1) == TotalUpTo(rs, k) + rs[k].Len()
    ensures rs[k].second <= w + TotalUpTo(rs, k + 1)
  {
    TotalUpToNext(rs, k);
    hide TotalUpTo;
  }

  lemma PushedOverMore(rs: seq<Range>, k: nat, w: int, x: int)
    requires PushedOver(rs, k, w) && w <= x
    ensures PushedOver(rs, k, x)
  {
    hide TotalUpTo;
  }

  /** When no more range starts by the pushed index, it is at the shifted index. */
  lemma PushedOverLands(rs: seq<Range>, k: nat, w: nat)
    requires Canonical(rs) && Sorted(rs) && PushedOver(rs, k, w) && (k < |rs| ==> w + TotalUpTo(rs, k) < rs[k].first)
    requires 0 <= w + TotalUpTo(rs, k)
    ensures w + TotalUpTo(rs, k) == ShiftTo(rs, w)
    ensures Stands(rs, k, ShiftTo(rs, w)) && (k < |rs| ==> ShiftTo(rs, w) + 1 <= rs[k].first)
  {
    if k > 0 {
      PushedOverNext2(rs, k - 1, w);
    }
    hide Canonical, Sorted, ShiftTo, TotalUpTo;
    PushedLands(rs, k, w);
  }

  lemma PushedOverNext2(rs: seq<Range>, k: nat, w: int)
    requires PushedOver(rs, k + 1, w)
    ensures rs[k].second <= w + TotalUpTo(rs, k + 1)
  {
    TotalUpToNext(rs, k);
    hide TotalUpTo;
  }

  /** While ranges still start by the pushed index, it has not passed the shifted index. */
  lemma PushedOverBehind(rs: seq<Range>, k: nat, w: nat)
    requires Canonical(rs) && Sorted(rs) && PushedOver(rs, k, w) && k < |rs| && rs[k].first <= w + TotalUpTo(rs, k)
    ensures rs[k].second <= ShiftTo(rs, w)
    decreases |rs| - k
  {
    PushedOverNext(rs, k, w);
    if k + 1 < |rs| && rs[k + 1].first <= w + TotalUpTo(rs, k + 1) {
      PushedOverBehind(rs, k + 1, w);
      CanonicalPair(rs, k, k + 1);
    } else {
      CanonicalAt(rs, k);
      PushedOverLands(rs, k + 1, w);
    }
  }

  /** Between the pushed old ranges and the next place nothing is missing. */
  lemma StandsUntil(rs: seq<Range>, k: nat, f: nat, t: nat)
    requires Canonical(rs) && Stands(rs, k, f) && f <= t && (k < |rs| ==> t + 1 <= rs[k].first)
    ensures NoneIn(rs, f, t) && Stands(rs, k, t + 1)
  {
    StandsNone(rs, k, f);
    hide Has, Canonical;
  }

  /** The ranges passed are those that start by the value: it is a member iff the last one reaches over it. */
  lemma PassedShifts(bs: seq<Range>, j: nat, v: nat, skipUntil: nat)
    requires Canonical(bs) && j <= |bs| && (j > 0 ==> bs[j - 1].first <= v) && (j < |bs| ==> v < bs[j].first)
    requires skipUntil == if j == 0 then 0 else bs[j - 1].second
    ensures Has(bs, v) <==> v < skipUntil
    ensures v >= skipUntil ==> Unshift(bs, v) == v - TotalUpTo(bs, j) && Unshift(bs, v) >= 0
  {
    CanonicalSorted(bs);
    if j > 0 && v < skipUntil {
      RangeHas(bs, j - 1, v);
    } else {
      if j > 0 {
        EndsBefore(bs, j, v);
      }
      if j < |bs| {
        CanonicalAt(bs, j);
      }
      FirstAfterIs(bs, v, j);
      HasAt(bs, v);
      BelowAt(bs, j, v);
      BelowBounds(bs, v);
    }
  }

  /** The last index is one that was gained. */
  ghost predicate EndsGained(rs: seq<Range>, bs: seq<Range>, vs: seq<Range>, s: seq<Range>)
    requires Sorted(bs)
  {
    s != [] ==> s[|s| - 1].second > 0 && Gained(rs, bs, vs, s[|s| - 1].second - 1)
  }

  lemma EndsWith(s: seq<Range>, t: nat)
    requires Canonical(s) && Has(s, t) && EndBy(s, t + 1)
    ensures s != [] && s[|s| - 1].second == t + 1
  {
    var i :| 0 <= i < |s| && s[i].first <= t < s[i].second;
    CanonicalPair(s, i, |s| - 1);
  }

  lemma StandsStart(rs: seq<Range>, k: nat, f: nat)
    requires Canonical(rs) && Stands(rs, k, f) && k < |rs|
    ensures f <= rs[k].first < rs[k].second && NoneIn(rs, f, rs[k].first) && Stands(rs, k + 1, rs[k].second)
  {
    StandsNone(rs, k, f);
  }

  lemma NothingPushed(rs: seq<Range>, bs: seq<Range>)
    ensures TotalUpTo(rs, 0) == 0 && TotalUpTo(bs, 0) == 0 && PushedOver(rs, 0, 0) && Unshift(bs, 0) == 0
    ensures Stands(rs, 0, 0)
  {
    TotalUpToNone(rs);
    TotalUpToNone(bs);
    BelowNothing(bs);
  }

  lemma PushedIsThere(rs: seq<Range>, k: nat, w: nat)
    requires Canonical(rs) && PushedOver(rs, k, w)
    ensures 0 <= w + TotalUpTo(rs, k)
    decreases k
  {
    if k == 0 {
      TotalUpToNone(rs);
    } else {
      PushedOverNext2(rs, k - 1, w);
    }
  }

  // ---- counts of the chunks ----

  /** No member from `x` on is new. */
  ghost predicate NothingNew(rs: seq<Range>, s: seq<Range>, x: nat) {
    forall y: nat | x <= y && Has(s, y) :: Has(rs, y)
  }

  /**
   * The `i`-th chunk of the result lies beyond those planned for the old ranges, and starts with a
   * range of several indices that is copied from the old ones after the last place.
   */
  ghost predicate Miscounted(rs: seq<Range>, s: seq<Range>, max: nat, i: nat) {
    && max > 0 && |rs| / max + 1 <= i
    && StartOf(max, i) < |s| && s[StartOf(max, i)].Len() != 1
    && NothingNew(rs, s, s[StartOf(max, i)].first)
  }

  /**
   * No chunk of the result will be miscounted. The result is the one canonical list of ranges with
   * the members that adding the shifted values gives, so this can be told before the call.
   */
  ghost predicate CountsStayRight(rs: seq<Range>, bs: seq<Range>, vs: seq<Range>, max: nat)
    requires Sorted(bs)
  {
    forall s, i: nat | Canonical(s) && GainedBy(rs, bs, vs, s) :: !Miscounted(rs, s, max, i)
  }

  lemma CountsStayRightFor(rs: seq<Range>, bs: seq<Range>, vs: seq<Range>, max: nat, s: seq<Range>)
    requires Sorted(bs) && Canonical(s) && GainedBy(rs, bs, vs, s)
    ensures CountsStayRight(rs, bs, vs, max) <==> forall i: nat :: !Miscounted(rs, s, max, i)
  {
    hide Canonical, Miscounted, Has, Gained, Sorted;
    forall t | Canonical(t) && GainedBy(rs, bs, vs, t) ensures t == s {
      forall y: nat ensures Has(t, y) <==> Has(s, y) {
      }
      CanonicalUnique(t, s);
    }
  }

  lemma NothingMiscounted(rs: seq<Range>, max: nat)
    ensures forall i: nat :: !Miscounted(rs, rs, max, i)
  {
    forall i: nat ensures !Miscounted(rs, rs, max, i) {
      if max > 0 && |rs| / max + 1 <= i {
        StartOfOrder(max, |rs| / max + 1, i);
        assert max * (|rs| / max + 1) == max * (|rs| / max) + max;
      }
    }
  }

  /** The state of the chunks while the last old ranges are copied. */
  ghost predicate Copied(
      was: seq<Range>, s: seq<Range>, data: seq<Chunk>, max: nat, planned: nat, outer0: nat, outer: nat, f0: nat) {
    && outer0 <= outer < |data| && |was| <= |s|
    && (forall i: nat | i <= outer ::
          Lack(data[i]) == if i <= outer0 || i < planned || |s| <= StartOf(max, i) then 0
            else s[StartOf(max, i)].Len() - 1)
    && (forall i: nat | outer0 < i <= outer :: StartOf(max, i) < |s| && f0 <= s[StartOf(max, i)].first)
    && (forall i | 0 <= i < |was| :: s[i].first == was[i].first)
  }

  lemma CopiedExactly(
      rs: seq<Range>, bs: seq<Range>, vs: seq<Range>, was: seq<Range>, s: seq<Range>, data: seq<Chunk>, max: nat,
      outer0: nat, outer: nat, f0: nat)
    requires Sorted(bs) && max > 0 && Copied(was, s, data, max, |rs| / max + 1, outer0, outer, f0)
    requires GainedBy(rs, bs, vs, s) && (forall y: nat | f0 <= y :: !Gained(rs, bs, vs, y))
    requires EndsGained(rs, bs, vs, was) && Canonical(was)
    requires (outer0 > 0 ==> StartOf(max, outer0) < |was|) && |s| <= StartOf(max, outer + 1)
    ensures (forall i | 0 <= i <= outer :: Lack(data[i]) == 0) <==> forall i: nat :: !Miscounted(rs, s, max, i)
  {
    hide Gained, Has, Canonical, Sorted, Total, StartOf;
    var planned := |rs| / max + 1;
    forall i: nat | i <= outer && Lack(data[i]) != 0 ensures Miscounted(rs, s, max, i) {
      forall y: nat | s[StartOf(max, i)].first <= y && Has(s, y) ensures Has(rs, y) {
      }
    }
    forall i: nat | Miscounted(rs, s, max, i) ensures i <= outer && Lack(data[i]) != 0 {
      if outer < i {
        StartOfOrder(max, outer + 1, i);
        assert false;
      }
      if i <= outer0 {
        NewAtEnd(rs, bs, vs, was, s, max, i, outer0);
      }
    }
  }

  /** A chunk that was started before the copying has a new member at or after its start. */
  lemma NewAtEnd(
      rs: seq<Range>, bs: seq<Range>, vs: seq<Range>, was: seq<Range>, s: seq<Range>, max: nat, i: nat, outer0: nat)
    requires Sorted(bs) && GainedBy(rs, bs, vs, s) && EndsGained(rs, bs, vs, was) && Canonical(was)
    requires i <= outer0 && StartOf(max, outer0) < |was| <= |s|
    requires forall j | 0 <= j < |was| :: s[j].first == was[j].first
    ensures StartOf(max, i) < |s| && !NothingNew(rs, s, s[StartOf(max, i)].first)
  {
    hide Has, Canonical, Sorted, StartOf;
    StartOfOrder(max, i, outer0);
    var n := |was| - 1;
    CanonicalPair(was, StartOf(max, i), n);
    var y := was[n].second - 1;
    assert Gained(rs, bs, vs, y) && Has(s, y) && !Has(rs, y);
  }

  lemma CopyStarts(was: seq<Range>, data: seq<Chunk>, max: nat, planned: nat, outer: nat, f: nat)
    requires outer < |data| && forall i | 0 <= i <= outer :: Lack(data[i]) == 0
    ensures Copied(was, was, data, max, planned, outer, outer, f)
  {
    hide Lack;
  }

  /** Copying one more range. */
  lemma CopyNext(
      was: seq<Range>, s: seq<Range>, t: seq<Range>, d: seq<Chunk>, e: seq<Chunk>, max: nat, planned: nat,
      outer0: nat, o: nat, p: nat, f0: nat, r: Range)
    requires Copied(was, s, d, max, planned, outer0, o, f0) && t == Joined(s, r) && o <= p < |e|
    requires || p == o
             || (&& p == o + 1 && |t| == |s| + 1 && StartOf(max, p) == |s|
                 && Lack(e[p]) == if p < planned then 0 else r.Len() - 1)
    requires forall i | 0 <= i <= o :: Lack(e[i]) == Lack(d[i])
    requires o == outer0 || (s != [] && s[|s| - 1].second < r.first)
    requires f0 <= r.first
    requires p == o ==> forall i: nat | i <= o :: StartOf(max, i) < |s| || |t| <= StartOf(max, i) || i <= outer0
    ensures Copied(was, t, e, max, planned, outer0, p, f0)
  {
    hide Lack, StartOf;
  }
}
