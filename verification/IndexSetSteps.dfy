/** Steps of the index set's searches, counts and edits, on its chunks and ranges. */
module IndexSetSteps {
  import opened Ranges
  import opened Chunks
  import opened RangeVector
  import opened RangeEdits

  /** The number of members from `start` up to `end`. */
  function Between(rs: seq<Range>, start: nat, end: nat): int {
    Below(rs, end) - Below(rs, start)
  }

  /** The start lies strictly inside the `o`-th chunk and the end in the first range of the next one. */
  predicate CutShort(m: seq<Chunk>, start: nat, end: nat, o: int) {
    0 <= o && o + 1 < |m| && m[o + 1].data != [] && m[o].begin < start < m[o].end
      && m[o + 1].begin < end <= m[o + 1].data[0].second
  }

  /** The same, for the chunk that the search for the start has stopped in. */
  predicate CutsHere(m: seq<Chunk>, it: Pos, start: nat, end: nat) {
    && InRange(m, it)
    && (start > At(m, it).first || it.inner != 0)
    && it.outer + 1 < |m|
    && m[it.outer + 1].data != []
    && m[it.outer + 1].begin < end <= m[it.outer + 1].data[0].second
  }

  /** Every index from the one before `end` up to `start` is a member. */
  ghost predicate Filled(rs: seq<Range>, end: nat, start: nat) {
    0 < end && forall x: nat | end - 1 <= x <= start :: Has(rs, x)
  }

  /** Ranges that do not touch hold two members and all between them only in one range. */
  lemma FilledByOne(rs: seq<Range>, start: nat, end: nat)
    requires Canonical(rs) && end < start
    ensures var k := FirstAfter(rs, start); Filled(rs, end, start) <==> k < |rs| && rs[k].first < end
  {
    hide Canonical, Has;
    var k := FirstAfter(rs, start);
    FoundEndsAfter(rs, start);
    CanonicalSorted(rs);
    HasAt(rs, start);
    if k < |rs| && rs[k].first < end {
      forall x: nat | end - 1 <= x <= start ensures Has(rs, x) {
        InRangeHas(rs, k, x);
      }
    } else if 0 < end && k < |rs| && rs[k].first <= start {
      GapBefore(rs, k);
    } else if 0 < end {
      assert !Has(rs, start);
    }
  }

  lemma InRangeHas(rs: seq<Range>, k: nat, x: nat)
    requires k < |rs| && rs[k].first <= x < rs[k].second
    ensures Has(rs, x)
  {
  }

  lemma GapBefore(rs: seq<Range>, k: nat)
    requires Canonical(rs) && k < |rs| && 0 < rs[k].first
    ensures !Has(rs, rs[k].first - 1)
  {
    forall i | 0 <= i < |rs| ensures !(rs[i].first <= rs[k].first - 1 < rs[i].second) {
      if i < k {
        CanonicalPair(rs, i, k);
      } else if k < i {
        CanonicalPair(rs, k, i);
      }
    }
  }

  lemma CutOnlyHere(m: seq<Chunk>, max: nat, it: Pos, start: nat, end: nat, o: int)
    requires Cached(m, max) && Canonical(Flat(m)) && ValidPos(m, it) && Index(m, it) == FirstAfter(Flat(m), start)
    requires CutShort(m, start, end, o)
    ensures CutsHere(m, it, start, end) && it.outer == o && At(m, it).first < At(m, it).second < end
  {
    hide Flat, Cached, NoEmpty, Index, Canonical, FirstAfter;
    var rs := Flat(m);
    var base := |Flat(m[..o])|;
    CutStart(m, max, it, start, o);
    CachedNoEmpty(m, max);
    ChunkEnds(m, max, o);
    ChunkEnds(m, max, o + 1);
    IndexAt(m, it);
    CanonicalPair(rs, Index(m, it), base + |m[o].data|);
    CanonicalPair(rs, base, Index(m, it));
  }

  /** A start strictly inside a chunk is searched for in that chunk. */
  lemma CutStart(m: seq<Chunk>, max: nat, it: Pos, start: nat, o: nat)
    requires Cached(m, max) && Canonical(Flat(m)) && ValidPos(m, it) && Index(m, it) == FirstAfter(Flat(m), start)
    requires o < |m| && m[o].begin < start < m[o].end
    ensures InRange(m, it) && it.outer == o && (start > At(m, it).first || it.inner != 0)
    ensures |Flat(m[..o])| <= Index(m, it) < |Flat(m[..o])| + |m[o].data| <= |Flat(m)|
  {
    hide Flat, Cached, NoEmpty, Index, Canonical, FirstAfter;
    var rs := Flat(m);
    var base := |Flat(m[..o])|;
    CachedNoEmpty(m, max);
    ChunkEnds(m, max, o);
    IndexAt(m, it);
    EndsAfter(rs, start, base + |m[o].data| - 1);
    StartsBefore(rs, start, base);
    PosInChunk(m, it, o);
  }

  // ---- removing ----

  /** `x` and the index before it are both members. */
  ghost predicate Inside(rs: seq<Range>, x: nat) {
    x > 0 && Has(rs, x) && Has(rs, x - 1)
  }

  /** The members are those of `rs` outside `[b, e)`. */
  ghost predicate Lost(rs: seq<Range>, s: seq<Range>, b: nat, e: nat) {
    forall y: nat :: Has(s, y) <==> Has(rs, y) && !(b <= y < e)
  }

  /** The members of `[b, e)` below `c` are gone, and of the others only some in `[b, e)`. */
  ghost predicate LostUpTo(rs: seq<Range>, s: seq<Range>, b: nat, e: nat, c: nat) {
    && (forall y: nat :: Has(s, y) ==> Has(rs, y) && (b <= y < e ==> c <= y))
    && (forall y: nat :: Has(rs, y) && !Has(s, y) ==> b <= y < e)
  }

  lemma LostNothing(rs: seq<Range>, b: nat, e: nat)
    ensures LostUpTo(rs, rs, b, e, b)
  {
  }

  lemma InsideAt(rs: seq<Range>, x: nat)
    requires Canonical(rs)
    ensures var k := FirstAfter(rs, x); Inside(rs, x) <==> k < |rs| && rs[k].first < x
  {
    hide Has;
    CanonicalSorted(rs);
    HasAt(rs, x);
    var k := FirstAfter(rs, x);
    if x > 0 && k < |rs| && rs[k].first <= x {
      HasAt(rs, x - 1);
      BeforeToo(rs, x, k);
    }
  }

  /** The range before the one that contains `x` ends before `x - 1`. */
  lemma BeforeToo(rs: seq<Range>, x: nat, k: nat)
    requires Canonical(rs) && x > 0 && k == FirstAfter(rs, x) < |rs| && rs[k].first <= x
    ensures FirstAfter(rs, x - 1) == k
  {
    assert forall i | 0 <= i < k :: rs[i].second < rs[k].first;
    FirstAfterIs(rs, x - 1, k);
  }

  /** Between an index and the range found for it there are no members. */
  lemma NoneUntilFound(rs: seq<Range>, x: nat, y: nat)
    requires Sorted(rs) && Has(rs, y) && x <= y
    ensures var k := FirstAfter(rs, x); k < |rs| && rs[k].first <= y
  {
    hide FirstAfter;
    var i :| 0 <= i < |rs| && rs[i].first <= y < rs[i].second;
  }

  lemma CutStep(was: seq<Range>, rs: seq<Range>, begin: nat, end: nat, c: nat, b: nat)
    requires Canonical(rs) && LostUpTo(was, rs, begin, end, c) && begin <= c <= end && (begin == end ==> was == rs)
    requires var k := FirstAfter(rs, c);
             k < |rs| && rs[k].first < end && b == if rs[k].first > c then rs[k].first else c
    requires c == end ==> begin == end
    ensures var k := FirstAfter(rs, c);
            var s := Cut(rs, k, b, end);
            && Sorted(s) && (Canonical(s) <==> begin < end) && LostUpTo(was, s, begin, end, b)
            && (begin == end ==> Inside(was, begin))
            && k <= FirstAfter(s, b) && |s| - FirstAfter(s, b) <= |rs| - k
            && (begin == end || |s| - FirstAfter(s, b) == |rs| - k ==>
                  FirstAfter(s, b) < |s| && s[FirstAfter(s, b)].first == end)
  {
    hide Canonical, Sorted, Has, Cut, Inside, FirstAfter;
    var k := FirstAfter(rs, c);
    FoundEndsAfter(rs, c);
    CanonicalSorted(rs);
    CanonicalAt(rs, k);
    CutHas(rs, k, b, end);
    CutCanonical(rs, k, b, end);
    CutFound(rs, c, b, end);
    CutLoses(was, rs, begin, end, c, b);
    if begin == end {
      InsideAt(rs, begin);
    }
  }

  lemma CutFound(rs: seq<Range>, c: nat, b: nat, end: nat)
    requires Canonical(rs)
    requires var k := FirstAfter(rs, c);
             k < |rs| && rs[k].first < end && c <= end && b == if rs[k].first > c then rs[k].first else c
    ensures var k := FirstAfter(rs, c);
            var s := Cut(rs, k, b, end);
            && k <= FirstAfter(s, b) && |s| - FirstAfter(s, b) <= |rs| - k
            && (b == end || |s| - FirstAfter(s, b) == |rs| - k ==>
                  FirstAfter(s, b) < |s| && s[FirstAfter(s, b)].first == end)
  {
    hide Canonical;
    var k := FirstAfter(rs, c);
    CanonicalAt(rs, k);
    EarlierEnd(rs, c, b);
    CutNext(rs, k, b, end);
  }

  lemma EarlierEnd(rs: seq<Range>, c: nat, b: nat)
    requires c <= b
    ensures forall i | 0 <= i < FirstAfter(rs, c) :: rs[i].second <= b
  {
  }

  lemma CutLoses(was: seq<Range>, rs: seq<Range>, begin: nat, end: nat, c: nat, b: nat)
    requires Canonical(rs) && LostUpTo(was, rs, begin, end, c) && begin <= c
    requires var k := FirstAfter(rs, c); k < |rs| && b == if rs[k].first > c then rs[k].first else c
    requires WithoutPart(rs, Cut(rs, FirstAfter(rs, c), b, end), rs[FirstAfter(rs, c)], b, end)
    ensures LostUpTo(was, Cut(rs, FirstAfter(rs, c), b, end), begin, end, b)
  {
    hide Canonical, Sorted, Has, Cut, FirstAfter;
    var s := Cut(rs, FirstAfter(rs, c), b, end);
    CanonicalSorted(rs);
    forall y: nat | Has(s, y) ensures Has(was, y) && (begin <= y < end ==> b <= y) {
      if c <= y {
        NoneUntilFound(rs, c, y);
      }
    }
  }

  lemma CutEnds(was: seq<Range>, s: seq<Range>, begin: nat, end: nat, b: nat)
    requires Sorted(s) && LostUpTo(was, s, begin, end, b) && begin <= b <= end
    requires Canonical(was) && (begin == end && s == was ==> b == begin)
    requires begin < end ==> Canonical(s)
    requires var k := FirstAfter(s, b); k < |s| ==> s[k].first >= end
    ensures Lost(was, s, begin, end) && FirstAfter(s, end) == FirstAfter(s, b)
    ensures begin == end && s == was ==> !Inside(was, begin)
  {
    hide Canonical, Sorted, Has, FirstAfter, Inside;
    forall y: nat ensures Has(s, y) <==> Has(was, y) && !(begin <= y < end) {
      if Has(s, y) && begin <= y < end {
        NoneUntilFound(s, b, y);
      }
    }
    EarlierEnd(s, b, end);
    FoundEndsAfter(s, b);
    if begin < end && FirstAfter(s, b) < |s| {
      CanonicalAt(s, FirstAfter(s, b));
    }
    FirstAfterIs(s, end, FirstAfter(s, b));
    InsideAt(was, begin);
  }

  lemma EndsAfter(rs: seq<Range>, x: nat, i: nat)
    requires i < |rs| && x < rs[i].second
    ensures FirstAfter(rs, x) <= i
  {
  }

  lemma StartsBefore(rs: seq<Range>, x: nat, i: nat)
    requires i < |rs| && Canonical(rs) && rs[i].first < x
    ensures i <= FirstAfter(rs, x)
  {
  }

  lemma CanonicalPair(rs: seq<Range>, i: nat, j: nat)
    requires Canonical(rs) && i < |rs| && j < |rs|
    ensures i < j ==> rs[i].second < rs[j].first
    ensures i <= j ==> rs[i].second <= rs[j].second
    ensures rs[i].first < rs[i].second && rs[j].first < rs[j].second
  {
  }

  /** Past the last range counted in its chunk, the next range is cut short only at a chunk border. */
  lemma CutsOnlyAtBorder(m: seq<Chunk>, max: nat, it: Pos, pos: Pos, start: nat, end: nat)
    requires Cached(m, max) && Canonical(Flat(m)) && InRange(m, it) && ValidPos(m, pos)
    requires pos.outer == if pos.inner == 0 then it.outer + 1 else it.outer
    requires Index(m, pos) <= |Flat(m)| && (pos == End(m) || At(m, pos).second >= end)
    requires start > At(m, it).first || it.inner != 0
    ensures CutsHere(m, it, start, end) <==> pos != End(m) && pos.inner == 0 && At(m, pos).first < end
    ensures pos != End(m) && pos.inner == 0 ==> m[it.outer + 1].begin == At(m, pos).first
  {
    hide Flat, Cached, NoEmpty, Canonical, Index;
    CachedNoEmpty(m, max);
    if it.outer + 1 < |m| {
      ChunkEnds(m, max, it.outer + 1);
      if pos.inner != 0 {
        BehindStart(m, max, pos);
      }
    }
  }

  /** The next chunk begins behind the end of every range of a chunk. */
  lemma BehindStart(m: seq<Chunk>, max: nat, pos: Pos)
    requires Cached(m, max) && Canonical(Flat(m)) && InRange(m, pos) && pos.outer + 1 < |m|
    ensures At(m, pos).second < m[pos.outer + 1].begin
  {
    hide Flat, Cached, NoEmpty, Canonical;
    CachedNoEmpty(m, max);
    IndexAt(m, pos);
    ChunkEnds(m, max, pos.outer);
    ChunkEnds(m, max, pos.outer + 1);
    CanonicalPair(Flat(m), Index(m, pos), |Flat(m[..pos.outer + 1])|);
  }

  lemma CutIsShort(m: seq<Chunk>, max: nat, it: Pos, start: nat, end: nat)
    requires Cached(m, max) && Canonical(Flat(m)) && ValidPos(m, it) && Index(m, it) == FirstAfter(Flat(m), start)
    requires CutsHere(m, it, start, end)
    ensures CutShort(m, start, end, it.outer)
  {
    hide Cached, Canonical, FirstAfter, Flat;
    var rs := Flat(m);
    var o := it.outer;
    var k := Index(m, it);
    var base := |Flat(m[..o])|;
    ChunkEnds(m, max, o);
    IndexAt(m, it);
    FoundEndsAfter(rs, start);
    hide Index;
    CanonicalPair(rs, base, k);
    CanonicalPair(rs, k, base + |m[o].data| - 1);
  }

  lemma FoundEndsAfter(rs: seq<Range>, x: nat)
    ensures var k := FirstAfter(rs, x); k < |rs| ==> x < rs[k].second
  {
  }

  lemma CountNone(rs: seq<Range>, start: nat, end: nat)
    requires Canonical(rs) && start <= end
    requires var k := FirstAfter(rs, start); k < |rs| ==> end <= rs[k].first
    ensures Between(rs, start, end) == 0
  {
    CanonicalSorted(rs);
    var k := FirstAfter(rs, start);
    BelowAtFirstAfter(rs, start);
    if k < |rs| {
      CanonicalAt(rs, k);
    }
    BelowAt(rs, k, end);
  }

  lemma CountOne(rs: seq<Range>, start: nat, end: nat)
    requires Canonical(rs) && start <= end
    requires var k := FirstAfter(rs, start); k < |rs| && rs[k].first < end <= rs[k].second
    ensures var r := rs[FirstAfter(rs, start)];
            Between(rs, start, end) == end - if r.first < start then start else r.first
  {
    CanonicalSorted(rs);
    var k := FirstAfter(rs, start);
    BelowAtFirstAfter(rs, start);
    BelowAt(rs, k, end);
  }

  lemma CountAtStart(rs: seq<Range>, start: nat)
    requires Canonical(rs)
    requires var k := FirstAfter(rs, start); k < |rs| && start <= rs[k].first
    ensures Below(rs, start) == TotalUpTo(rs, FirstAfter(rs, start))
  {
    CanonicalSorted(rs);
    BelowAtFirstAfter(rs, start);
  }

  lemma CanonicalAt(rs: seq<Range>, k: nat)
    requires Canonical(rs) && k < |rs|
    ensures rs[k].first < rs[k].second
  {
  }

  /** Once the next range starts behind the index that has grown, it has been shifted. */
  lemma PushedEnds(rs: seq<Range>, k: nat, index: nat, r: nat)
    requires Canonical(rs) && k <= |rs| && r == Pushed(rs, k, index) && index <= r
    requires forall j | 0 <= j < k :: rs[j].first <= Pushed(rs, j, index)
    requires k < |rs| ==> r < rs[k].first
    ensures r == ShiftTo(rs, index) && k == FirstAfter(rs, r)
  {
    hide Canonical, ShiftTo, TotalUpTo, FirstAfter, Sorted, Has;
    CanonicalSorted(rs);
    PushedLands(rs, k, index);
    ShiftSpec(rs, index);
    if k > 0 {
      PushedNext(rs, k - 1, index);
      CanonicalAt(rs, k - 1);
    }
    PushedIsFirstAfter(rs, k, r);
  }

  lemma PushedNone(rs: seq<Range>, i: nat)
    ensures Pushed(rs, 0, i) == i
  {
  }

  /** Every range of a chunk that ends by the index starts by the index as it grows. */
  lemma {:induction false} PushedChunk(rs: seq<Range>, a: nat, b: nat, i: nat, r: int)
    requires Canonical(rs) && a <= b <= |rs| && r == Pushed(rs, a, i)
    requires forall j | a <= j < b :: rs[j].first <= rs[j].second <= r
    ensures Pushed(rs, b, i) == r + TotalUpTo(rs, b) - TotalUpTo(rs, a) && r <= Pushed(rs, b, i)
    ensures forall j | a <= j < b :: rs[j].first <= Pushed(rs, j, i)
    decreases b
  {
    if a < b {
      PushedChunk(rs, a, b - 1, i, r);
      PushedNext(rs, b - 1, i);
      CanonicalAt(rs, b - 1);
    }
  }

  lemma FlatNone(m: seq<Chunk>)
    ensures |Flat(m[..0])| == 0
  {
  }

  /** Not past a range that ends after the index. */
  lemma NotBefore(rs: seq<Range>, x: nat, k: nat)
    requires k <= FirstAfter(rs, x) && (k < |rs| ==> x < rs[k].second)
    ensures k == FirstAfter(rs, x)
  {
  }

  lemma ValidStart(m: seq<Chunk>, o: nat)
    requires NoEmpty(m) && o <= |m|
    ensures ValidPos(m, Pos(o, 0)) && Index(m, Pos(o, 0)) == |Flat(m[..o])|
  {
  }

  lemma OpensUp(rs: seq<Range>, x: nat, c: nat)
    requires Canonical(rs) && c > 0 && FirstAfter(rs, x) < |rs|
    ensures var k := FirstAfter(rs, x);
            var s := if rs[k].first < x then SplitUp(rs, k, x, c) else MovedFrom(rs, k, c);
            Canonical(s) && Sorted(s) && OpenedUp(rs, s, x, c, false)
  {
    hide Canonical, Sorted, OpenedUp, SplitUp, MovedFrom;
    var k := FirstAfter(rs, x);
    if rs[k].first < x {
      SplitsInside(rs, x, c);
      CanonicalSorted(SplitUp(rs, k, x, c));
    } else {
      MovesAfter(rs, x, c);
      CanonicalSorted(MovedFrom(rs, k, c));
    }
  }

  lemma MovesNothing(rs: seq<Range>, x: nat, c: nat)
    requires Canonical(rs) && FirstAfter(rs, x) == |rs|
    ensures OpenedUp(rs, rs, x, c, false)
  {
    MovesAfter(rs, x, c);
    assert MovedFrom(rs, |rs|, c) == rs;
  }

  lemma MovedStillFirst(rs: seq<Range>, k: nat, x: nat, c: nat)
    requires k == FirstAfter(rs, x)
    ensures FirstAfter(MovedFrom(rs, k, c), x) == k
  {
    var s := MovedFrom(rs, k, c);
    assert forall i | 0 <= i < k :: s[i] == rs[i];
    FirstAfterIs(s, x, k);
  }

  lemma MovedAt(rs: seq<Range>, k: nat, d: int, j: nat)
    requires k <= j < |rs| && CanMove(rs[k..], d)
    ensures 0 <= rs[j].first + d && 0 <= rs[j].second + d
    ensures var moved := MovedFrom(rs, k, d); |moved| == |rs| && moved[j] == Range(rs[j].first + d, rs[j].second + d)
  {
    assert rs[j] == rs[k..][j - k];
  }

  lemma GrownMoved(rs: seq<Range>, k: nat, c: nat)
    requires k < |rs|
    ensures MovedFrom(rs[k := Range(rs[k].first, rs[k].second + c)], k + 1, c) == Grown(rs, k, c)
  {
    var s := rs[k := Range(rs[k].first, rs[k].second + c)];
    assert s[k + 1..] == rs[k + 1..];
    assert s[..k + 1] == rs[..k] + [s[k]];
  }

  lemma MovedStart(rs: seq<Range>, k: nat, d: int)
    requires k <= |rs| && CanMove(rs[k..], d)
    ensures |MovedFrom(rs, k, d)| == |rs| && MovedFrom(rs, k, d)[..k] == rs[..k]
  {
  }

  lemma SameShapeRefl(m: seq<Chunk>)
    ensures SameShape(m, m)
  {
  }

  /** The first `j` ranges of `a` followed by the others of `b`. */
  function HalfMoved(a: seq<Range>, b: seq<Range>, j: nat): seq<Range>
    requires j <= |b| == |a|
  {
    a[..j] + b[j..]
  }

  lemma HalfMovedEnds(a: seq<Range>, b: seq<Range>, k: nat)
    requires k <= |b| == |a| && a[..k] == b[..k]
    ensures HalfMoved(a, b, k) == b && HalfMoved(a, b, |b|) == a
  {
    assert b == b[..k] + b[k..];
  }

  lemma ReplaceNext(a: seq<Range>, b: seq<Range>, j: nat)
    requires j < |b| == |a|
    ensures |HalfMoved(a, b, j)| == |b| && HalfMoved(a, b, j)[j] == b[j]
    ensures HalfMoved(a, b, j)[j := a[j]] == HalfMoved(a, b, j + 1)
  {
  }

  lemma CachedNoEmpty(m: seq<Chunk>, max: nat)
    requires Cached(m, max)
    ensures NoEmpty(m)
  {
    forall i | 0 <= i < |m| ensures m[i].data != [] {
      assert ChunkOk(m[i], max);
    }
  }

  /** A new range fits between its neighbours. */
  lemma NewFits(rs: seq<Range>, x: nat)
    requires Canonical(rs)
    ensures var k := FirstAfter(rs, x);
            (k < |rs| ==> x + 1 < rs[k].first) && (k > 0 ==> rs[k - 1].second != x) ==>
              Sorted(Inserted(rs, k, Range(x, x + 1)))
  {
    var k := FirstAfter(rs, x);
    if (k < |rs| ==> x + 1 < rs[k].first) && (k > 0 ==> rs[k - 1].second != x) {
      CanonicalInserted(rs, k, Range(x, x + 1));
      CanonicalSorted(Inserted(rs, k, Range(x, x + 1)));
    }
  }

  lemma AddedCases(rs: seq<Range>, x: nat, k: nat)
    requires k == FirstAfter(rs, x)
    ensures k < |rs| && rs[k].first <= x ==> Added(rs, x) == rs && AddedAt(rs, x) == k
    ensures !(k < |rs| && rs[k].first <= x) && k > 0 && rs[k - 1].second == x ==>
              && AddedAt(rs, x) == k - 1
              && Added(rs, x) == if k < |rs| && rs[k].first == x + 1
                   then Erased(rs[k - 1 := Range(rs[k - 1].first, rs[k].second)], k)
                                 else rs[k - 1 := Range(rs[k - 1].first, x + 1)]
    ensures !(k > 0 && rs[k - 1].second == x) && k < |rs| && rs[k].first == x + 1 ==>
              AddedAt(rs, x) == k && Added(rs, x) == rs[k := Range(x, rs[k].second)]
    ensures !(k > 0 && rs[k - 1].second == x) && (k < |rs| ==> x + 1 < rs[k].first) ==>
              AddedAt(rs, x) == k && Added(rs, x) == Inserted(rs, k, Range(x, x + 1))
  {
  }

  lemma ChunkSorted(m: seq<Chunk>, o: nat)
    requires o < |m| && Sorted(Flat(m))
    ensures Sorted(m[o].data)
  {
    FlatAround(m, o);
    SortedMiddle(Flat(m[..o]), m[o].data, Flat(m[o + 1..]));
  }

  lemma SortedOne(data: seq<Range>)
    requires Sorted(data)
    ensures data != [] ==> data[0].first <= data[0].second
  {
  }

  lemma SecondsAscend(data: seq<Range>, mid: nat)
    requires Sorted(data) && mid < |data|
    ensures forall j | 0 <= j <= mid :: data[j].second <= data[mid].second
  {
  }

  lemma LaterIsLater(rs: seq<Range>, x: nat, y: nat)
    requires x <= y
    ensures FirstAfter(rs, x) <= FirstAfter(rs, y)
  {
    if FirstAfter(rs, y) < |rs| {
      EndsAfter(rs, x, FirstAfter(rs, y));
    }
  }

  /** The range of an index is not past any later index. */
  lemma NotPast(rs: seq<Range>, p: nat, x: nat, y: nat)
    requires Canonical(rs) && p < |rs| && rs[p].first <= x <= y
    ensures p <= FirstAfter(rs, y)
  {
    if FirstAfter(rs, y) < p {
      CanonicalPair(rs, FirstAfter(rs, y), p);
    }
  }

  lemma FlatEmpty(m: seq<Chunk>, max: nat)
    requires Cached(m, max)
    ensures m == [] <==> Flat(m) == []
  {
    if m != [] {
      assert ChunkOk(m[0], max);
    }
  }

  /** The members outside the first `j + 1` ranges of the values. */
  lemma LostPrefix(was: seq<Range>, rs: seq<Range>, s: seq<Range>, vs: seq<Range>, j: nat)
    requires j < |vs| && Lost(rs, s, vs[j].first, vs[j].second)
    requires forall y: nat :: Has(rs, y) <==> Has(was, y) && !Has(vs[..j], y)
    ensures forall y: nat :: Has(s, y) <==> Has(was, y) && !Has(vs[..j + 1], y)
  {
    hide Has;
    assert vs[..j + 1] == vs[..j] + [vs[j]];
    forall y: nat ensures Has(s, y) <==> Has(was, y) && !Has(vs[..j + 1], y) {
      HasConcat(vs[..j], [vs[j]], y);
      HasOne(vs[j], y);
    }
  }

  lemma LaterRanges(vs: seq<Range>, j: nat)
    requires Canonical(vs) && 0 < j <= |vs|
    ensures forall i | j <= i < |vs| :: vs[j - 1].second <= vs[i].first
  {
  }

  /** When no member is left from the last removed stretch on, the other values remove nothing. */
  lemma NothingLeft(was: seq<Range>, s: seq<Range>, vs: seq<Range>, j: nat)
    requires Sorted(s) && Canonical(vs) && 0 < j <= |vs| && FirstAfter(s, vs[j - 1].second) == |s|
    requires forall y: nat :: Has(s, y) <==> Has(was, y) && !Has(vs[..j], y)
    ensures forall y: nat :: Has(s, y) <==> Has(was, y) && !Has(vs, y)
  {
    hide Has, Sorted, Canonical, FirstAfter;
    var x := vs[j - 1].second;
    assert vs == vs[..j] + vs[j..];
    forall y: nat ensures Has(s, y) <==> Has(was, y) && !Has(vs, y) {
      HasConcat(vs[..j], vs[j..], y);
      if Has(s, y) {
        if x <= y {
          NoneUntilFound(s, x, y);
        } else if Has(vs[j..], y) {
          HasLater(vs, j, y);
        }
      }
    }
  }

  lemma HasLater(vs: seq<Range>, j: nat, y: nat)
    requires Canonical(vs) && 0 < j <= |vs| && Has(vs[j..], y)
    ensures vs[j - 1].second < y
  {
    var i :| 0 <= i < |vs[j..]| && vs[j..][i].first <= y < vs[j..][i].second;
    assert vs[j..][i] == vs[j + i];
  }

  lemma OneMoreOf(rs: seq<Range>, s: seq<Range>, x: nat)
    requires OneMore(rs, s, x)
    ensures forall y: nat :: Has(s, y) <==> Has(rs, y) || y == x
  {
  }

  lemma FirstChunkBegins(m: seq<Chunk>, max: nat)
    requires Cached(m, max) && m != []
    ensures Flat(m) != [] && m[0].begin == Flat(m)[0].first
  {
    ChunkEnds(m, max, 0);
    FlatNone(m);
  }

  lemma LastChunkEnds(m: seq<Chunk>, max: nat)
    requires Cached(m, max) && m != []
    ensures Flat(m) != [] && m[|m| - 1].end == Flat(m)[|Flat(m)| - 1].second
  {
    ChunkEnds(m, max, |m| - 1);
    assert m[..|m| - 1 + 1] == m;
  }
}
