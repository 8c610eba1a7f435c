/** Stepping through the individual indices of a chunked list of ranges. */
module IndexIterators {
  import opened Ranges
  import opened Chunks
  import opened IndexSetSteps

  /** A position and an offset in the range there. */
  datatype IndexPos = IndexPos(at: Pos, offset: nat)

  predicate ValidIndex(m: seq<Chunk>, ip: IndexPos) {
    if AtEnd(m, ip.at) then ip.offset == 0
    else InRange(m, ip.at) && At(m, ip.at).first + ip.offset < At(m, ip.at).second
  }

  /** Index iterators compare by the range only, whatever the offset. */
  predicate SamePlace(a: IndexPos, b: IndexPos) {
    a.at == b.at
  }

  /** The index at a position. */
  function Value(m: seq<Chunk>, ip: IndexPos): nat
    requires InRange(m, ip.at)
  {
    At(m, ip.at).first + ip.offset
  }

  function Step(m: seq<Chunk>, ip: IndexPos): IndexPos
    requires InRange(m, ip.at)
  {
    if At(m, ip.at).first + (ip.offset + 1) == At(m, ip.at).second then IndexPos(Next(m, ip.at), 0)
    else IndexPos(ip.at, ip.offset + 1)
  }

  function FirstIndex(m: seq<Chunk>): IndexPos {
    IndexPos(Begin(m), 0)
  }

  ghost predicate NoneIn(rs: seq<Range>, lo: nat, hi: nat) {
    forall y: nat | lo <= y < hi :: !Has(rs, y)
  }

  ghost predicate NoneFrom(rs: seq<Range>, lo: nat) {
    forall y: nat | lo <= y :: !Has(rs, y)
  }

  /** The position is at the first member that is not below `lo`, or at the end if there is none. */
  ghost predicate Leads(m: seq<Chunk>, ip: IndexPos, lo: nat) {
    && ValidIndex(m, ip)
    && (AtEnd(m, ip.at) ==> NoneFrom(Flat(m), lo))
    && (InRange(m, ip.at) ==> lo <= Value(m, ip) && Has(Flat(m), Value(m, ip)) && NoneIn(Flat(m), lo, Value(m, ip)))
  }

  /** The ranges still ahead, and the indices still ahead in the current one. */
  ghost function RangesAhead(m: seq<Chunk>, ip: IndexPos): int
    requires ValidPos(m, ip.at)
  {
    |Flat(m)| - Index(m, ip.at)
  }

  ghost function IndicesAhead(m: seq<Chunk>, ip: IndexPos): int {
    if InRange(m, ip.at) then At(m, ip.at).second - Value(m, ip) else 0
  }

  /** After a step the position is at the next member. */
  lemma StepLeads(m: seq<Chunk>, ip: IndexPos)
    requires NoEmpty(m) && Canonical(Flat(m)) && ValidIndex(m, ip) && InRange(m, ip.at)
    ensures Leads(m, Step(m, ip), Value(m, ip) + 1)
    ensures 0 <= RangesAhead(m, Step(m, ip)) && 0 <= IndicesAhead(m, Step(m, ip))
    ensures RangesAhead(m, Step(m, ip)) < RangesAhead(m, ip)
         || (RangesAhead(m, Step(m, ip)) == RangesAhead(m, ip) && IndicesAhead(m, Step(m, ip)) < IndicesAhead(m, ip))
  {
    hide Flat, Canonical, NoEmpty, Index, Has;
    var rs := Flat(m);
    var k := Index(m, ip.at);
    IndexAt(m, ip.at);
    IndexNext(m, ip.at);
    IndexAt(m, Next(m, ip.at));
    if At(m, ip.at).first + ip.offset + 1 == At(m, ip.at).second {
      GapUntilNext(rs, k);
    } else {
      RangeHas(rs, k, Value(m, ip) + 1);
    }
  }

  /** Up to the index at the position there are no members. */
  lemma LeadsFrom(m: seq<Chunk>, ip: IndexPos, lo: nat, hi: nat)
    requires Leads(m, ip, lo) && InRange(m, ip.at) && hi <= Value(m, ip)
    ensures NoneIn(Flat(m), lo, hi) && Has(Flat(m), Value(m, ip)) && lo <= Value(m, ip)
  {
    hide Flat, Has;
  }

  lemma LeadsStill(m: seq<Chunk>, ip: IndexPos, lo: nat, hi: nat)
    requires Leads(m, ip, lo) && lo <= hi && (InRange(m, ip.at) ==> hi <= Value(m, ip))
    ensures Leads(m, ip, hi)
  {
    hide Flat, Has;
  }

  lemma RangeHas(rs: seq<Range>, k: nat, x: nat)
    requires k < |rs| && rs[k].first <= x < rs[k].second
    ensures Has(rs, x)
  {
  }

  /** Between a range and the next one there are no members. */
  lemma GapUntilNext(rs: seq<Range>, k: nat)
    requires Canonical(rs) && k < |rs|
    ensures k + 1 < |rs| ==>
              && NoneIn(rs, rs[k].second, rs[k + 1].first) && rs[k].second <= rs[k + 1].first < rs[k + 1].second
              && Has(rs, rs[k + 1].first)
    ensures k + 1 == |rs| ==> NoneFrom(rs, rs[k].second)
  {
    forall y: nat | Has(rs, y) && rs[k].second <= y ensures k + 1 < |rs| && rs[k + 1].first <= y {
      var i :| 0 <= i < |rs| && rs[i].first <= y < rs[i].second;
      assert i > k;
    }
    if k + 1 < |rs| {
      RangeHas(rs, k + 1, rs[k + 1].first);
    }
  }

  /** The first index position is at the first member. */
  lemma FirstLeads(m: seq<Chunk>)
    requires NoEmpty(m) && Canonical(Flat(m))
    ensures Leads(m, FirstIndex(m), 0)
    ensures 0 <= RangesAhead(m, FirstIndex(m)) && 0 <= IndicesAhead(m, FirstIndex(m))
  {
    IndexAt(m, Begin(m));
    hide Flat, NoEmpty, Has;
    if Flat(m) == [] {
      NoMembers(Flat(m));
    } else {
      FirstMember(Flat(m));
    }
  }

  lemma NoMembers(rs: seq<Range>)
    requires rs == []
    ensures NoneFrom(rs, 0)
  {
  }

  lemma FirstMember(rs: seq<Range>)
    requires Canonical(rs) && rs != []
    ensures rs[0].first < rs[0].second && Has(rs, rs[0].first) && NoneIn(rs, 0, rs[0].first)
  {
    RangeHas(rs, 0, rs[0].first);
  }

  /** Iterators are equal exactly if there is no gap between them; the offset does not matter. */
  lemma SamePlaceIsNoGap(m: seq<Chunk>, a: IndexPos, b: IndexPos)
    requires NoEmpty(m) && Canonical(Flat(m)) && ValidIndex(m, a) && ValidIndex(m, b)
    requires InRange(m, a.at) && InRange(m, b.at) && Value(m, a) <= Value(m, b)
    ensures SamePlace(a, b) <==> forall y: nat | Value(m, a) <= y <= Value(m, b) :: Has(Flat(m), y)
    ensures Value(m, a) == Value(m, b) ==> a == b
  {
    IndexAt(m, a.at);
    IndexAt(m, b.at);
    var rs := Flat(m);
    var i, j := Index(m, a.at), Index(m, b.at);
    hide Flat, NoEmpty, Has;
    if i == j {
      IndexInjective(m, a.at, b.at);
      forall y: nat | Value(m, a) <= y <= Value(m, b) ensures Has(rs, y) {
        RangeHas(rs, i, y);
      }
    } else {
      assert i < j;
      GapUntilNext(rs, i);
      CanonicalPair(rs, i + 1, j);
      CanonicalPair(rs, i, j);
      assert !Has(rs, rs[i].second);
    }
  }

  /** Visit the ranges from the first to the last position: exactly the flattened chunks. */
  method VisitRanges(m: seq<Chunk>) returns (rs: seq<Range>)
    requires NoEmpty(m)
    ensures rs == Flat(m)
  {
    hide Flat, NoEmpty, Index;
    rs := [];
    var it := Begin(m);
    FirstIndexIsNone(m);
    IndexAt(m, it);
    while it != End(m)
      invariant ValidPos(m, it) && Index(m, it) == |rs| <= |Flat(m)| && (it == End(m) <==> |rs| == |Flat(m)|)
      invariant it != End(m) ==> Flat(m)[|rs|] == At(m, it)
      invariant rs == Flat(m)[..|rs|]
      decreases |Flat(m)| - |rs|
    {
      rs := rs + [At(m, it)];
      IndexNext(m, it);
      it := Next(m, it);
      IndexAt(m, it);
    }
  }

  /** Visit the ranges backwards from the end. */
  method VisitRangesBackwards(m: seq<Chunk>) returns (rs: seq<Range>)
    requires NoEmpty(m)
    ensures |rs| == |Flat(m)| && forall i | 0 <= i < |rs| :: rs[i] == Flat(m)[|rs| - 1 - i]
  {
    hide Flat, NoEmpty, Index;
    rs := [];
    var it := End(m);
    IndexAt(m, it);
    ghost var n := |Flat(m)|;
    IndexPrev(m, it);
    while it != Begin(m)
      invariant ValidPos(m, it) && Index(m, it) == n - |rs| && |rs| <= n && (it == Begin(m) <==> |rs| == n)
      invariant forall i | 0 <= i < |rs| :: rs[i] == Flat(m)[n - 1 - i]
      decreases n - |rs|
    {
      IndexPrev(m, it);
      it := Prev(m, it);
      IndexAt(m, it);
      rs := rs + [At(m, it)];
      IndexPrev(m, it);
    }
  }

  lemma FirstIndexIsNone(m: seq<Chunk>)
    requires NoEmpty(m)
    ensures ValidPos(m, Begin(m)) && Index(m, Begin(m)) == 0
  {
  }

  /** Visit the members one by one: each exactly once, in ascending order. */
  method AsIndexes(m: seq<Chunk>) returns (xs: seq<nat>)
    requires NoEmpty(m) && Canonical(Flat(m))
    ensures forall i, j | 0 <= i < j < |xs| :: xs[i] < xs[j]
    ensures forall x: nat :: x in xs <==> Has(Flat(m), x)
  {
    hide Flat, NoEmpty, Index, Canonical, Has;
    xs := [];
    FirstLeads(m);
    var ip := FirstIndex(m);
    ghost var lo: nat := 0;
    while !SamePlace(ip, IndexPos(End(m), 0))
      invariant Leads(m, ip, lo) && 0 <= RangesAhead(m, ip) && 0 <= IndicesAhead(m, ip)
      invariant forall i, j | 0 <= i < j < |xs| :: xs[i] < xs[j]
      invariant forall i | 0 <= i < |xs| :: xs[i] < lo
      invariant forall x: nat :: x in xs <==> x < lo && Has(Flat(m), x)
      decreases RangesAhead(m, ip), IndicesAhead(m, ip)
    {
      StepLeads(m, ip);
      xs := xs + [Value(m, ip)];
      lo := Value(m, ip) + 1;
      ip := Step(m, ip);
    }
  }
}
