/** Runs of edits on an index set, against the plain set of naturals they should give. */
module IndexSetRuns {
  import opened Ranges
  import opened Chunks
  import opened RangeEdits
  import opened IndexSetSteps
  import opened IndexMerges
  import opened IndexGains
  import opened IndexSets

  /** `arg` is the run of edits by which the other set of an edit has come about. */
  datatype Edit =
    | Add(index: nat)
    | AddShifted(index: nat)
    | InsertAt(index: nat, count: nat)
    | ShiftForInsertAt(index: nat, count: nat)
    | EraseAt(index: nat)
    | EraseOrUnshift(index: nat)
    | Remove(index: nat, count: nat)
    | SetTo(len: nat)
    | Clear
    | AddAll(arg: seq<Edit>)
    | RemoveAll(arg: seq<Edit>)
    | InsertAtAll(arg: seq<Edit>)
    | ShiftForInsertAtAll(arg: seq<Edit>)
    | EraseAtAll(arg: seq<Edit>)
    | AddShiftedBy(shiftedBy: seq<Edit>, values: seq<Edit>)

  ghost predicate IsIn(s: iset<nat>, x: nat) {
    x in s
  }

  /** The number of members below `y`. */
  ghost function Under(s: iset<nat>, y: nat): nat {
    |set x: nat | x < y && IsIn(s, x)|
  }

  /** Every member moves up past the new indices at or below it; those are in iff `filled`. */
  ghost predicate Opened(s: iset<nat>, p: iset<nat>, filled: bool, y: nat) {
    if y in p then filled else 0 <= y - Under(p, y) && y - Under(p, y) in s
  }

  /** The members that are deleted go, and the others move down by the number of deleted ones below. */
  ghost predicate Closed(s: iset<nat>, p: iset<nat>, y: nat) {
    exists z: nat | z in s && z !in p :: y == z - Under(p, z)
  }

  /** The values outside `b` that are in `v` move to where they land outside `s`. */
  ghost predicate Landed(s: iset<nat>, b: iset<nat>, v: iset<nat>, y: nat) {
    y !in s && exists x: nat | x in v && x !in b :: y - Under(s, y) == x - Under(b, x)
  }

  /** Whether `y` is a member after an edit of a set of naturals. */
  ghost predicate In(s: iset<nat>, e: Edit, y: nat)
    decreases e, 0
  {
    match e
    case Add(x) => y in s || y == x
    case AddShifted(i) => y in s || y - Under(s, y) == i
    case InsertAt(x, c) => (y < x && y in s) || x <= y < x + c || (y >= x + c && y - c in s)
    case ShiftForInsertAt(x, c) => (y < x && y in s) || (y >= x + c && y - c in s)
    case EraseAt(x) => if y < x then y in s else y + 1 in s
    case EraseOrUnshift(x) => if y < x then y in s else y + 1 in s
    case Remove(x, c) => y in s && !(x <= y < x + c)
    case SetTo(n) => y < n
    case Clear => false
    case AddAll(a) => y in s || y in Run(iset{}, a)
    case RemoveAll(a) => y in s && y !in Run(iset{}, a)
    case InsertAtAll(a) => Opened(s, Run(iset{}, a), true, y)
    case ShiftForInsertAtAll(a) => Opened(s, Run(iset{}, a), false, y)
    case EraseAtAll(a) => Closed(s, Run(iset{}, a), y)
    case AddShiftedBy(b, v) => y in s || Landed(s, Run(iset{}, b), Run(iset{}, v), y)
  }

  ghost function After(s: iset<nat>, e: Edit): iset<nat>
    decreases e, 1
  {
    iset y: nat | In(s, e, y)
  }

  ghost function Run(s: iset<nat>, es: seq<Edit>): iset<nat>
    decreases es
  {
    if es == [] then s else Run(After(s, es[0]), es[1..])
  }

  ghost function Members(rs: seq<Range>): iset<nat> {
    iset y: nat | Has(rs, y)
  }

  /** The ranges of the three sets are such that adding the shifted values counts them right. */
  ghost predicate Counts(s: iset<nat>, b: iset<nat>, v: iset<nat>, maxSize: nat) {
    forall rs, bs, vs |
      && Canonical(rs) && Canonical(bs) && Canonical(vs) && Sorted(bs)
      && Members(rs) == s && Members(bs) == b && Members(vs) == v ::
      CountsStayRight(rs, bs, vs, maxSize)
  }

  /**
   * Inserting nothing is an error of the caller, removing nothing may split a range, and adding
   * shifted values may miscount them.
   */
  ghost predicate Allowed(s: iset<nat>, e: Edit, maxSize: nat)
    decreases e, 0
  {
    match e
    case InsertAt(_, c) => c > 0
    case ShiftForInsertAt(_, c) => c > 0
    case Remove(_, c) => c > 0
    case AddAll(a) => AllAllowed(iset{}, a, maxSize)
    case RemoveAll(a) => AllAllowed(iset{}, a, maxSize)
    case InsertAtAll(a) => AllAllowed(iset{}, a, maxSize)
    case ShiftForInsertAtAll(a) => AllAllowed(iset{}, a, maxSize)
    case EraseAtAll(a) => AllAllowed(iset{}, a, maxSize)
    case AddShiftedBy(b, v) =>
      && AllAllowed(iset{}, b, maxSize) && AllAllowed(iset{}, v, maxSize)
      && Counts(s, Run(iset{}, b), Run(iset{}, v), maxSize)
    case _ => true
  }

  ghost predicate AllAllowed(s: iset<nat>, es: seq<Edit>, maxSize: nat)
    decreases es
  {
    es != [] ==> Allowed(s, es[0], maxSize) && AllAllowed(After(s, es[0]), es[1..], maxSize)
  }

  // ---- the plain set and the ranges ----

  lemma UnderIs(rs: seq<Range>, y: nat)
    requires Canonical(rs)
    ensures Under(Members(rs), y) == Below(rs, y) <= y
  {
    hide Has, Canonical, Below;
    CanonicalSorted(rs);
    BelowCounts(rs, y);
    BelowBounds(rs, y);
    assert (set x: nat | x < y && IsIn(Members(rs), x)) == MembersBelow(rs, y);
  }

  lemma AddShiftedIs(rs: seq<Range>, s: seq<Range>, i: nat, r: nat)
    requires Canonical(rs) && !Has(rs, r) && Unshift(rs, r) == i && OneMore(rs, s, r)
    ensures Members(s) == After(Members(rs), AddShifted(i))
  {
    hide Has, Canonical, Below, Under;
    forall y: nat ensures Has(s, y) <==> Has(rs, y) || y - Under(Members(rs), y) == i {
      UnderIs(rs, y);
      if !Has(rs, y) && y - Below(rs, y) == i {
        ShiftUnshift(rs, y);
        ShiftUnshift(rs, r);
      }
    }
  }

  lemma OpenedIs(rs: seq<Range>, ps: seq<Range>, filled: bool, s: seq<Range>)
    requires Canonical(ps) && OpenedBySet(rs, ps, filled, s)
    ensures Members(s) == iset y: nat | Opened(Members(rs), Members(ps), filled, y)
  {
    hide Has, Canonical, Below, Under;
    forall y: nat ensures Has(s, y) <==> Opened(Members(rs), Members(ps), filled, y) {
      UnderIs(ps, y);
    }
  }

  lemma ClosedIs(rs: seq<Range>, ps: seq<Range>, s: seq<Range>)
    requires Canonical(ps) && Sorted(ps) && ClosedBySet(rs, ps, s)
    ensures Members(s) == iset y: nat | Closed(Members(rs), Members(ps), y)
  {
    hide Has, Canonical, Sorted, Below, Under, ShiftTo;
    var a, p := Members(rs), Members(ps);
    forall y: nat ensures Has(s, y) <==> Closed(a, p, y) {
      var z := ShiftTo(ps, y);
      ShiftSpec(ps, y);
      UnderIs(ps, z);
      if Closed(a, p, y) {
        var w: nat :| w in a && w !in p && y == w - Under(p, w);
        UnderIs(ps, w);
        ShiftUnshift(ps, w);
      }
    }
  }

  lemma LandedIs(rs: seq<Range>, bs: seq<Range>, vs: seq<Range>, s: seq<Range>)
    requires Canonical(rs) && Canonical(bs) && Sorted(bs) && GainedBy(rs, bs, vs, s)
    ensures Members(s) == iset y: nat | y in Members(rs) || Landed(Members(rs), Members(bs), Members(vs), y)
  {
    hide Has, Canonical, Sorted, Below, Under, ShiftTo, Landed, Gained;
    forall y: nat | !Has(rs, y)
      ensures Gained(rs, bs, vs, y) <==> Landed(Members(rs), Members(bs), Members(vs), y)
    {
      LandedAt(rs, bs, vs, y);
    }
  }

  lemma LandedAt(rs: seq<Range>, bs: seq<Range>, vs: seq<Range>, y: nat)
    requires Canonical(rs) && Canonical(bs) && Sorted(bs) && !Has(rs, y)
    ensures Gained(rs, bs, vs, y) <==> Landed(Members(rs), Members(bs), Members(vs), y)
  {
    hide Has, Canonical, Sorted, Below, Under, ShiftTo;
    var a, b, v := Members(rs), Members(bs), Members(vs);
    UnderIs(rs, y);
    ShiftUnshift(rs, y);
    var z := ShiftTo(bs, Unshift(rs, y));
    ShiftSpec(bs, Unshift(rs, y));
    UnderIs(bs, z);
    if Landed(a, b, v, y) {
      var x: nat :| x in v && x !in b && y - Under(a, y) == x - Under(b, x);
      UnderIs(bs, x);
      ShiftUnshift(bs, x);
    }
  }

  // ---- running the edits ----

  method Perform(s: IndexSet, e: Edit)
    requires s.Valid() && Allowed(Members(s.Spans()), e, s.ranges.maxSize)
    modifies s.ranges
    ensures s.Valid() && Members(s.Spans()) == After(Members(old(s.Spans())), e)
    decreases e, 1
  {
    hide Has, Canonical, Flat, Below, Under, Opened, Closed, Landed, Counts;
    match e
    case Add(x) => s.Add(x);
    case AddShifted(i) =>
      ghost var was := s.Spans();
      var r := s.AddShifted(i);
      AddShiftedIs(was, s.Spans(), i, r);
    case InsertAt(x, c) => s.InsertAt(x, c);
    case ShiftForInsertAt(x, c) => s.ShiftForInsertAt(x, c);
    case EraseAt(x) => s.EraseAt(x);
    case EraseOrUnshift(x) => var _ := s.EraseOrUnshift(x);
    case Remove(x, c) => s.Remove(x, c);
    case SetTo(n) => s.SetTo(n);
    case Clear =>
      s.Clear();
      HasNone();
    case AddShiftedBy(_, _) => PerformShiftedBy(s, e);
    case _ => PerformBySet(s, e);
  }

  /** Edits by another set, which is built first. */
  method PerformBySet(s: IndexSet, e: Edit)
    requires s.Valid() && Allowed(Members(s.Spans()), e, s.ranges.maxSize)
    requires e.AddAll? || e.RemoveAll? || e.InsertAtAll? || e.ShiftForInsertAtAll? || e.EraseAtAll?
    modifies s.ranges
    ensures s.Valid() && Members(s.Spans()) == After(Members(old(s.Spans())), e)
    decreases e, 0
  {
    hide Has, Canonical, Flat, Below, Under, Opened, Closed;
    ghost var was := s.Spans();
    var other := Execute(e.arg, s.ranges.maxSize);
    ghost var ps := other.Spans();
    match e
    case AddAll(_) => s.AddAll(other);
    case RemoveAll(_) => s.RemoveAll(other);
    case InsertAtAll(_) =>
      s.InsertAtAll(other);
      OpenedIs(was, ps, true, s.Spans());
    case ShiftForInsertAtAll(_) =>
      s.ShiftForInsertAtAll(other);
      OpenedIs(was, ps, false, s.Spans());
    case EraseAtAll(_) =>
      s.EraseAtAll(other);
      ClosedIs(was, ps, s.Spans());
  }

  /** Adding values shifted by one set and unshifted by the other; both are built first. */
  method PerformShiftedBy(s: IndexSet, e: Edit)
    requires s.Valid() && e.AddShiftedBy? && Allowed(Members(s.Spans()), e, s.ranges.maxSize)
    modifies s.ranges
    ensures s.Valid() && Members(s.Spans()) == After(Members(old(s.Spans())), e)
    decreases e, 0
  {
    hide Has, Canonical, Sorted, Flat, Below, Under, Landed, GainedBy, CountsStayRight;
    ghost var was := s.Spans();
    var shiftedBy := Execute(e.shiftedBy, s.ranges.maxSize);
    var values := Execute(e.values, s.ranges.maxSize);
    ghost var bs, vs := shiftedBy.Spans(), values.Spans();
    CanonicalSorted(bs);
    s.AddShiftedBy(shiftedBy, values);
    LandedIs(was, bs, vs, s.Spans());
  }

  /** Over every run of edits the set holds what the plain set of naturals would, in canonical chunks. */
  method Execute(es: seq<Edit>, maxSize: nat) returns (s: IndexSet)
    requires maxSize >= 2 && maxSize % 2 == 0 && AllAllowed(iset{}, es, maxSize)
    ensures fresh(s) && fresh(s.ranges)
    ensures s.Valid() && s.ranges.maxSize == maxSize && Members(s.Spans()) == Run(iset{}, es)
    decreases es
  {
    hide Has, Canonical, Flat, In, Allowed;
    s := new IndexSet(maxSize);
    HasNone();
    assert Members(s.Spans()) == iset{};
    for i := 0 to |es|
      invariant s.Valid() && s.ranges.maxSize == maxSize && AllAllowed(Members(s.Spans()), es[i..], maxSize)
      invariant Run(Members(s.Spans()), es[i..]) == Run(iset{}, es)
    {
      assert es[i..][0] == es[i] && es[i..][1..] == es[i + 1..];
      Perform(s, es[i]);
    }
  }

  /** The size of the chunks, which differs between builds, never shows in the ranges. */
  method ExecuteTwice(es: seq<Edit>, maxSize: nat, otherSize: nat) returns (s: IndexSet, t: IndexSet)
    requires maxSize >= 2 && maxSize % 2 == 0 && otherSize >= 2 && otherSize % 2 == 0
    requires AllAllowed(iset{}, es, maxSize) && AllAllowed(iset{}, es, otherSize)
    ensures s.Valid() && t.Valid() && s.ranges.maxSize == maxSize && t.ranges.maxSize == otherSize
    ensures s.Spans() == t.Spans()
  {
    hide Has, Canonical, Flat;
    s := Execute(es, maxSize);
    t := Execute(es, otherSize);
    SameMembers(s.Spans(), t.Spans());
  }

  lemma SameMembers(a: seq<Range>, b: seq<Range>)
    requires Canonical(a) && Canonical(b) && Members(a) == Members(b)
    ensures a == b
  {
    hide Has, Canonical;
    forall y: nat ensures Has(a, y) <==> Has(b, y) {
      assert y in Members(a) <==> y in Members(b);
    }
    CanonicalUnique(a, b);
  }
}
