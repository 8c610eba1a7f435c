/** Walking two sets of indices side by side. */
module IndexMerges {
  import opened Ranges
  import opened Chunks
  import opened RangeEdits
  import opened IndexSetSteps
  import opened IndexIterators

  /** Where `y` lands once the members of `ps` are deleted, `rs` has a member. */
  ghost predicate UnshiftHas(rs: seq<Range>, ps: seq<Range>, y: nat) {
    Unshift(ps, y) >= 0 && Has(rs, Unshift(ps, y))
  }

  /** Membership after the members of `ps` are opened up in `rs`; the new indices are in iff `filled`. */
  ghost predicate OpenedBy(rs: seq<Range>, ps: seq<Range>, filled: bool, y: nat) {
    if Has(ps, y) then filled else UnshiftHas(rs, ps, y)
  }

  /** `s` is right about the indices below `f` and has no others. */
  ghost predicate OpenedUpTo(rs: seq<Range>, ps: seq<Range>, filled: bool, s: seq<Range>, f: nat) {
    forall y: nat :: Has(s, y) <==> y < f && OpenedBy(rs, ps, filled, y)
  }

  ghost predicate OpenedBySet(rs: seq<Range>, ps: seq<Range>, filled: bool, s: seq<Range>) {
    forall y: nat :: Has(s, y) <==> OpenedBy(rs, ps, filled, y)
  }

  /** Without members on the way the number of members below does not change. */
  lemma {:induction false} BelowSame(ps: seq<Range>, f: nat, y: nat)
    requires Sorted(ps) && f <= y && NoneIn(ps, f, y)
    ensures Below(ps, y) == Below(ps, f)
    decreases y
  {
    if f < y {
      BelowSame(ps, f, y - 1);
      BelowStep(ps, y - 1);
    }
  }

  /** The next member of `rs` is moved up before the next new index comes. */
  lemma OpenKeeps(rs: seq<Range>, ps: seq<Range>, filled: bool, s: seq<Range>, t: seq<Range>, f: nat, a: nat)
    requires Sorted(ps) && Below(ps, f) <= f <= a + Below(ps, f) && NoneIn(ps, f, a + Below(ps, f) + 1)
    requires NoneIn(rs, f - Below(ps, f), a) && Has(rs, a)
    requires OpenedUpTo(rs, ps, filled, s, f) && OneMore(s, t, a + Below(ps, f))
    ensures Below(ps, a + Below(ps, f) + 1) == Below(ps, f) && OpenedUpTo(rs, ps, filled, t, a + Below(ps, f) + 1)
  {
    hide Has, Sorted, Below;
    var shift := Below(ps, f);
    BelowSame(ps, f, a + shift + 1);
    forall y: nat | f <= y <= a + shift ensures OpenedBy(rs, ps, filled, y) <==> y == a + shift {
      BelowSame(ps, f, y);
    }
  }

  /** The next new index comes before the next member of `rs` is moved up. */
  lemma OpenAdds(rs: seq<Range>, ps: seq<Range>, filled: bool, s: seq<Range>, t: seq<Range>, f: nat, b: nat)
    requires Sorted(ps) && Below(ps, f) <= f <= b && NoneIn(ps, f, b) && Has(ps, b)
    requires NoneIn(rs, f - Below(ps, f), b - Below(ps, f))
    requires OpenedUpTo(rs, ps, filled, s, f) && if filled then OneMore(s, t, b) else t == s
    ensures Below(ps, b + 1) == Below(ps, f) + 1 && OpenedUpTo(rs, ps, filled, t, b + 1)
  {
    hide Has, Sorted, Below;
    BelowSame(ps, f, b);
    BelowStep(ps, b);
    forall y: nat | f <= y <= b ensures OpenedBy(rs, ps, filled, y) <==> y == b && filled {
      BelowSame(ps, f, y);
    }
  }

  lemma OpenEnds(rs: seq<Range>, ps: seq<Range>, filled: bool, s: seq<Range>, f: nat)
    requires Sorted(ps) && Below(ps, f) <= f && NoneFrom(rs, f - Below(ps, f)) && (filled ==> NoneFrom(ps, f))
    requires OpenedUpTo(rs, ps, filled, s, f)
    ensures OpenedBySet(rs, ps, filled, s)
  {
    hide Has, Sorted, Below;
    forall y: nat | f <= y ensures !OpenedBy(rs, ps, filled, y) {
      UnshiftMonotone(ps, f, y);
    }
  }

  lemma OpenBegins(rs: seq<Range>, ps: seq<Range>, filled: bool)
    ensures OpenedUpTo(rs, ps, filled, [], 0) && Below(ps, 0) == 0 && Canonical([])
  {
    BelowNothing(ps);
  }

  /** Nothing is opened up, or what is opened up is all there is, or it lies behind all members. */
  lemma OpenTrivially(rs: seq<Range>, ps: seq<Range>)
    requires Sorted(rs) && Sorted(ps)
    ensures ps == [] ==> OpenedBySet(rs, ps, true, rs)
    ensures rs == [] ==> OpenedBySet(rs, ps, true, ps) && OpenedBySet(rs, ps, false, rs)
    ensures ps != [] && rs != [] && rs[|rs| - 1].second <= ps[0].first ==> OpenedBySet(rs, ps, false, rs)
    ensures ps == [] ==> OpenedBySet(rs, ps, false, rs)
  {
    if ps == [] {
      forall y: nat ensures Unshift(ps, y) == y && !Has(ps, y) {
      }
    }
    if ps != [] && rs != [] && rs[|rs| - 1].second <= ps[0].first {
      var x := ps[0].first;
      EndsBehind(rs, x);
      StartsAt(ps);
      BelowNone(ps, x);
      forall y: nat ensures Has(rs, y) <==> OpenedBy(rs, ps, false, y) {
        if y < x {
          BelowNone(ps, y);
        } else {
          UnshiftMonotone(ps, x, y);
        }
      }
    }
  }

  lemma EndsBehind(rs: seq<Range>, x: nat)
    requires Sorted(rs) && rs != [] && rs[|rs| - 1].second <= x
    ensures NoneFrom(rs, x)
  {
  }

  lemma StartsAt(ps: seq<Range>)
    requires Sorted(ps) && ps != []
    ensures (forall i | 0 <= i < |ps| :: ps[0].first <= ps[i].first) && NoneIn(ps, 0, ps[0].first)
  {
  }

  // ---- deleting a set of indices ----

  /** Membership after the members of `ps` are deleted: what was at the shifted index. */
  ghost predicate ClosedBy(rs: seq<Range>, ps: seq<Range>, x: nat)
    requires Sorted(ps)
  {
    Has(rs, ShiftTo(ps, x))
  }

  ghost predicate ClosedUpTo(rs: seq<Range>, ps: seq<Range>, s: seq<Range>, f: int)
    requires Sorted(ps)
  {
    forall x: nat :: Has(s, x) <==> x < f && ClosedBy(rs, ps, x)
  }

  ghost predicate ClosedBySet(rs: seq<Range>, ps: seq<Range>, s: seq<Range>)
    requires Sorted(ps)
  {
    forall x: nat :: Has(s, x) <==> ClosedBy(rs, ps, x)
  }

  /** Up to the next deleted index everything moves down by the same amount. */
  lemma ShiftsBy(ps: seq<Range>, g: nat, y: nat)
    requires Canonical(ps) && g <= y && NoneIn(ps, g, y + 1)
    ensures 0 <= g - Below(ps, g) <= y - Below(ps, g) && ShiftTo(ps, y - Below(ps, g)) == y
  {
    CanonicalSorted(ps);
    BelowBounds(ps, g);
    BelowSame(ps, g, y);
    ShiftUnshift(ps, y);
  }

  /** The next member of `rs` comes before the next deleted index and is moved down. */
  lemma CloseKeeps(rs: seq<Range>, ps: seq<Range>, s: seq<Range>, t: seq<Range>, g: nat, a: nat)
    requires Canonical(ps) && Sorted(ps) && g <= a && NoneIn(ps, g, a + 1) && NoneIn(rs, g, a) && Has(rs, a)
    requires ClosedUpTo(rs, ps, s, g - Below(ps, g)) && 0 <= a - Below(ps, g) && OneMore(s, t, a - Below(ps, g))
    ensures Below(ps, a + 1) == Below(ps, g) && ClosedUpTo(rs, ps, t, a + 1 - Below(ps, g))
  {
    hide Has, Sorted, Canonical, Below, ShiftTo;
    var shift := Below(ps, g);
    BelowSame(ps, g, a + 1);
    forall x: nat | g - shift <= x <= a - shift ensures ClosedBy(rs, ps, x) <==> x == a - shift {
      BelowBounds(ps, g);
      ShiftsBy(ps, g, x + shift);
    }
  }

  /** The next deleted index comes; a member there is dropped. */
  lemma CloseDrops(rs: seq<Range>, ps: seq<Range>, s: seq<Range>, g: nat, b: nat)
    requires Canonical(ps) && Sorted(ps) && g <= b && NoneIn(ps, g, b) && Has(ps, b) && NoneIn(rs, g, b)
    requires ClosedUpTo(rs, ps, s, g - Below(ps, g))
    ensures Below(ps, b + 1) == Below(ps, g) + 1 && ClosedUpTo(rs, ps, s, b + 1 - Below(ps, b + 1))
  {
    hide Has, Sorted, Canonical, Below, ShiftTo;
    var shift := Below(ps, g);
    BelowSame(ps, g, b);
    BelowStep(ps, b);
    forall x: nat | g - shift <= x < b - shift ensures !ClosedBy(rs, ps, x) {
      BelowBounds(ps, g);
      ShiftsBy(ps, g, x + shift);
    }
  }

  lemma CloseEnds(rs: seq<Range>, ps: seq<Range>, s: seq<Range>, g: nat)
    requires Canonical(ps) && Sorted(ps) && NoneFrom(rs, g) && ClosedUpTo(rs, ps, s, g - Below(ps, g))
    ensures ClosedBySet(rs, ps, s)
  {
    hide Has, Sorted, Canonical, Below, ShiftTo;
    forall x: nat | g - Below(ps, g) <= x ensures !ClosedBy(rs, ps, x) {
      var y := ShiftTo(ps, x);
      ShiftSpec(ps, x);
      if y < g {
        UnshiftMonotone(ps, y, g);
      }
    }
  }

  lemma CloseTrivially(rs: seq<Range>, ps: seq<Range>)
    requires Sorted(ps)
    ensures ps == [] || rs == [] ==> ClosedBySet(rs, ps, rs)
    ensures ClosedUpTo(rs, ps, [], 0) && Canonical([]) && Below(ps, 0) == 0
  {
    BelowNothing(ps);
  }

  // ---- deleting undoes opening up ----

  /** Deleting a set of indices undoes opening it up, filled or not. */
  lemma CloseUndoesOpen(rs: seq<Range>, ps: seq<Range>, filled: bool, s: seq<Range>, t: seq<Range>)
    requires Canonical(rs) && Canonical(ps) && Canonical(t) && Sorted(ps)
    requires OpenedBySet(rs, ps, filled, s) && ClosedBySet(s, ps, t)
    ensures t == rs
  {
    hide Has, Sorted, Canonical, Below, ShiftTo;
    forall x: nat ensures Has(t, x) <==> Has(rs, x) {
      ShiftSpec(ps, x);
    }
    CanonicalUnique(t, rs);
  }

  /** Opening up without filling undoes deleting, but for the members that were deleted. */
  lemma OpenUndoesClose(rs: seq<Range>, ps: seq<Range>, s: seq<Range>, t: seq<Range>)
    requires Canonical(rs) && Canonical(ps) && Sorted(ps)
    requires ClosedBySet(rs, ps, s) && OpenedBySet(s, ps, false, t)
    ensures forall y: nat :: Has(t, y) <==> Has(rs, y) && !Has(ps, y)
  {
    hide Has, Sorted, Canonical, Below, ShiftTo;
    forall y: nat ensures Has(t, y) <==> Has(rs, y) && !Has(ps, y) {
      if !Has(ps, y) {
        ShiftUnshift(ps, y);
      }
    }
  }
}
