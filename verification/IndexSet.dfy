/** A set of indices kept as coalesced ranges in bounded chunks. */
module IndexSets {
  import opened Wrappers
  import opened Ranges
  import opened Chunks
  import opened RangeVector
  import opened RangeEdits
  import opened IndexSetSteps
  import opened IndexIterators
  import opened IndexMerges
  import opened RangeBuilder
  import opened IndexGains

  class IndexSet {
    const ranges: ChunkedRangeVector

    constructor (maxSize: nat)
      requires maxSize >= 2 && maxSize % 2 == 0
      ensures fresh(ranges) && ranges.maxSize == maxSize && Valid() && Spans() == []
    {
      ranges := new ChunkedRangeVector(maxSize);
    }

    /** The layout is canonical and every cached value is right. */
    ghost predicate Valid()
      reads this, ranges
    {
      ranges.Laid() && Canonical(Spans())
    }

    /** All ranges, in order. */
    ghost function Spans(): seq<Range>
      reads this, ranges
    {
      ranges.Ranges()
    }

    /** Find the range that contains the index, or the first one after it if none does, from a position on. */
    method FindFrom(index: nat, begin: Pos) returns (pos: Pos)
      requires ranges.Laid() && Sorted(Spans()) && ValidPos(ranges.data, begin)
      requires Index(ranges.data, begin) <= FirstAfter(Spans(), index)
      ensures ValidPos(ranges.data, pos) && Index(ranges.data, pos) == FirstAfter(Spans(), index)
    {
      hide Flat, Canonical, Sorted, Cached, FirstAfter;
      var m := ranges.data;
      ghost var rs := Spans();
      var o := begin.outer;
      while o < |m| && m[o].end <= index
        invariant begin.outer <= o <= |m|
        invariant |Flat(m[..o])| <= FirstAfter(rs, index)
      {
        ChunkPassed(m, ranges.maxSize, o, index);
        o := o + 1;
      }
      if o == |m| {
        assert m[..o] == m;
        return End(m);
      }
      ChunkSorted(m, o);
      ChunkIsOk(m, ranges.maxSize, o);
      if index < m[o].begin {
        SortedOne(m[o].data);
        ChunkFound(m, ranges.maxSize, o, 0, 0, index);
        return Pos(o, 0);
      }
      var lo := if o == begin.outer then begin.inner else 0;
      var inner := LowerBound(m[o].data, lo, index);
      ChunkFound(m, ranges.maxSize, o, lo, inner, index);
      return Pos(o, inner);
    }

    /** Binary search for the first range from `lo` on that ends after the index. */
    static method LowerBound(data: seq<Range>, lo: nat, index: nat) returns (first: nat)
      requires lo < |data| && index < data[|data| - 1].second && Sorted(data)
      ensures lo <= first < |data| && index < data[first].second
      ensures forall j | lo <= j < first :: data[j].second <= index
    {
      first := lo;
      var len := |data| - lo;
      while len > 0
        invariant lo <= first && 0 <= len && first + len <= |data|
        invariant forall j | lo <= j < first :: data[j].second <= index
        invariant first + len < |data| ==> index < data[first + len].second
      {
        var half := len / 2;
        var mid := first + half;
        if data[mid].second <= index {
          SecondsAscend(data, mid);
          first := mid + 1;
          len := len - half - 1;
        } else {
          len := half;
        }
      }
    }

    /** The range that contains the index, or the first one after it. */
    method Find(index: nat) returns (pos: Pos)
      requires Valid()
      ensures ValidPos(ranges.data, pos) && Index(ranges.data, pos) == FirstAfter(Spans(), index)
    {
      CanonicalSorted(Spans());
      pos := FindFrom(index, Begin(ranges.data));
    }

    /** Check if the set contains the index. */
    method Contains(index: nat) returns (r: bool)
      requires Valid()
      ensures r <==> Has(Spans(), index)
    {
      var it := Find(index);
      IndexAt(ranges.data, it);
      CanonicalSorted(Spans());
      HasAt(Spans(), index);
      r := it != End(ranges.data) && At(ranges.data, it).first <= index;
    }

    /** The index directly follows the range at `prev`, which grows and may join the one at `it`. */
    method AddBehind(prev: Pos, it: Pos, ghost k: nat, index: nat) returns (pos: Pos)
      requires ranges.Laid() && InRange(ranges.data, prev) && ValidPos(ranges.data, it)
      requires 0 < k == Index(ranges.data, it) <= |Spans()| && Index(ranges.data, prev) == k - 1
      requires Spans()[k - 1].second == index
      modifies ranges
      ensures ranges.Laid() && InRange(ranges.data, pos) && Index(ranges.data, pos) == k - 1
      ensures var rs := old(Spans());
              Spans() == if k < |rs| && rs[k].first == index + 1
                then Erased(rs[k - 1 := Range(rs[k - 1].first, rs[k].second)], k)
                         else rs[k - 1 := Range(rs[k - 1].first, index + 1)]
    {
      hide Flat, Cached, Erased, NoEmpty, Index;
      ghost var rs := Spans();
      ghost var m := ranges.data;
      var valid := it != End(ranges.data);
      IndexAt(m, it);
      IndexAt(m, prev);
      ranges.Adjust(prev, 0, 1);
      ghost var m1 := ranges.data;
      SameShapeIndex(m, m1, prev);
      SameShapeIndex(m, m1, it);
      IndexAt(m1, prev);
      IndexAt(m1, it);
      if valid && At(ranges.data, prev).second == At(ranges.data, it).first {
        pos := JoinNext(prev, it, k);
        assert rs[k - 1 := Range(rs[k - 1].first, index + 1)][k - 1 := Range(rs[k - 1].first, rs[k].second)]
            == rs[k - 1 := Range(rs[k - 1].first, rs[k].second)];
      } else {
        pos := prev;
      }
    }

    /** Whether the range before a position ends at the index. */
    method EndsBefore(it: Pos, index: nat) returns (r: bool)
      requires ranges.Laid() && ValidPos(ranges.data, it)
      ensures var k := Index(ranges.data, it); r <==> 0 < k <= |Spans()| && Spans()[k - 1].second == index
    {
      CachedNoEmpty(ranges.data, ranges.maxSize);
      hide Flat, Cached, NoEmpty;
      IndexAt(ranges.data, it);
      IndexPrev(ranges.data, it);
      if it == Begin(ranges.data) {
        return false;
      }
      var prev := Prev(ranges.data, it);
      IndexAt(ranges.data, prev);
      return At(ranges.data, prev).second == index;
    }

    /** Let the range at `prev` swallow the one at `it`, which it touches. */
    method JoinNext(prev: Pos, it: Pos, ghost k: nat) returns (pos: Pos)
      requires ranges.Laid() && InRange(ranges.data, prev) && InRange(ranges.data, it)
      requires 0 < k == Index(ranges.data, it) < |Spans()| && Index(ranges.data, prev) == k - 1
      requires Spans()[k - 1].second == Spans()[k].first
      modifies ranges
      ensures ranges.Laid() && InRange(ranges.data, pos) && Index(ranges.data, pos) == k - 1
      ensures var rs := old(Spans()); Spans() == Erased(rs[k - 1 := Range(rs[k - 1].first, rs[k].second)], k)
    {
      hide Flat, Cached, Erased, NoEmpty, Index;
      ghost var m := ranges.data;
      IndexAt(m, it);
      IndexAt(m, prev);
      ranges.Adjust(prev, 0, At(ranges.data, it).Len());
      SameShapeIndex(m, ranges.data, it);
      pos := ranges.Erase(it);
      CachedNoEmpty(ranges.data, ranges.maxSize);
      IndexPrev(ranges.data, pos);
      pos := Prev(ranges.data, pos);
    }

    /** Add an index at the place it belongs; the result is the range that now holds it. */
    method DoAdd(it: Pos, index: nat) returns (pos: Pos)
      requires Valid() && ValidPos(ranges.data, it) && Index(ranges.data, it) == FirstAfter(Spans(), index)
      modifies ranges
      ensures ranges.Laid() && Spans() == Added(old(Spans()), index)
      ensures InRange(ranges.data, pos) && Index(ranges.data, pos) == AddedAt(old(Spans()), index)
    {
      hide Flat, Canonical, Cached, NoEmpty, Added, AddedAt, Erased, Inserted, FirstAfter, Sorted, Index;
      ghost var rs := Spans();
      ghost var k := FirstAfter(rs, index);
      ghost var m := ranges.data;
      NewFits(rs, index);
      AddedCases(rs, index, k);
      CachedNoEmpty(m, ranges.maxSize);
      IndexAt(m, it);
      var valid := it != End(ranges.data);
      if valid && At(ranges.data, it).first <= index && At(ranges.data, it).second > index {
        return it;
      }
      var behind := EndsBefore(it, index);
      if behind {
        IndexPrev(m, it);
        pos := AddBehind(Prev(ranges.data, it), it, k, index);
      } else if valid && At(ranges.data, it).first == index + 1 {
        ranges.Adjust(it, -1, 0);
        SameShapeIndex(m, ranges.data, it);
        pos := it;
      } else {
        pos := ranges.Insert(it, Range(index, index + 1));
      }
    }

    /** Add an index, doing nothing if it is already present. */
    method Add(index: nat)
      requires Valid()
      modifies ranges
      ensures Valid() && OneMore(old(Spans()), Spans(), index)
    {
      AddedSpec(Spans(), index);
      var it := Find(index);
      var _ := DoAdd(it, index);
    }

    /** Move every range from a position to the end by the given distance. */
    method ShiftUntilEnd(begin: Pos, distance: int)
      requires ranges.Laid() && ValidPos(ranges.data, begin) && Index(ranges.data, begin) <= |Spans()|
      requires CanMove(Spans()[Index(ranges.data, begin)..], distance)
      modifies ranges
      ensures ranges.Laid() && SameShape(old(ranges.data), ranges.data)
      ensures Spans() == MovedFrom(old(Spans()), Index(old(ranges.data), begin), distance)
    {
      hide HalfMoved, Flat, Cached, NoEmpty, Index, Move, CanMove, SameShape, MovedFrom;
      ghost var m := ranges.data;
      ghost var rs := Spans();
      ghost var k := Index(m, begin);
      ghost var moved := MovedFrom(rs, k, distance);
      CachedNoEmpty(m, ranges.maxSize);
      var it := begin;
      ghost var j := k;
      IndexAt(m, begin);
      MovedStart(rs, k, distance);
      HalfMovedEnds(moved, rs, k);
      SameShapeRefl(m);
      while it != End(ranges.data)
        invariant ranges.Laid() && SameShape(m, ranges.data) && ValidPos(m, it)
        invariant k <= j == Index(m, it) <= |rs| == |moved|
        invariant |ranges.data| == |m| && (it == End(m) <==> j == |rs|)
        invariant Spans() == HalfMoved(moved, rs, j)
        decreases |rs| - j
      {
        SameShapeIndex(m, ranges.data, it);
        IndexAt(ranges.data, it);
        MovedAt(rs, k, distance, j);
        ReplaceNext(moved, rs, j);
        ghost var before := ranges.data;
        ranges.Shift(it, distance);
        SameShapeTrans(m, before, ranges.data);
        IndexNext(m, it);
        it := Next(ranges.data, it);
        IndexAt(m, it);
        j := j + 1;
      }
    }

    /** Insert `count` new members at an index, moving later members up. */
    method InsertAt(index: nat, count: nat)
      requires Valid() && count > 0
      modifies ranges
      ensures Valid() && OpenedUp(old(Spans()), Spans(), index, count, true)
    {
      ghost var rs := Spans();
      var pos := Find(index);
      IndexAt(ranges.data, pos);
      var inExisting := pos != End(ranges.data) && At(ranges.data, pos).first <= index;
      hide Flat, Cached, OpenedUp, Has, Index, Canonical, FirstAfter;
      if inExisting {
        GrowInside(pos, index, count);
      } else {
        OpenAndFill(pos, index, count);
      }
    }

    /** Insert members in the middle of a range. */
    method GrowInside(pos: Pos, index: nat, count: nat)
      requires Valid() && InRange(ranges.data, pos)
      requires var k := Index(ranges.data, pos);
               k == FirstAfter(Spans(), index) < |Spans()| && Spans()[k].first <= index
      modifies ranges
      ensures Valid() && OpenedUp(old(Spans()), Spans(), index, count, true)
    {
      GrowsInside(Spans(), index, count);
      hide Flat, Cached, OpenedUp, Has, Index, Canonical, FirstAfter, Move, CanMove, Grown;
      GrowAndShift(pos, count);
    }

    /** Open up a gap outside every range and fill it. */
    method OpenAndFill(pos: Pos, index: nat, count: nat)
      requires Valid() && ValidPos(ranges.data, pos)
      requires var k := Index(ranges.data, pos);
               k == FirstAfter(Spans(), index) && (k < |Spans()| ==> index < Spans()[k].first)
      modifies ranges
      ensures Valid() && OpenedUp(old(Spans()), Spans(), index, count, true)
    {
      ghost var rs := Spans();
      ghost var m := ranges.data;
      ghost var k := FirstAfter(rs, index);
      MovesAfter(rs, index, count);
      CanonicalSorted(rs);
      HasAt(rs, index);
      MoveUp(pos, count);
      SameShapeIndex(m, ranges.data, pos);
      MovedStillFirst(rs, k, index, count);
      hide Flat, Cached, OpenedUp, Has, Index, Canonical, FirstAfter;
      Fill(pos, index, count, rs);
    }

    /** Let the range at a position grow by `count` and move the ones after it up. */
    method GrowAndShift(pos: Pos, count: nat)
      requires ranges.Laid() && InRange(ranges.data, pos)
      modifies ranges
      ensures ranges.Laid()
      ensures var rs := old(Spans());
              var k := Index(old(ranges.data), pos);
              k < |rs| && Spans() == Grown(rs, k, count)
    {
      hide Flat, Cached, NoEmpty, Index, Grown, MovedFrom;
      ghost var m := ranges.data;
      ghost var rs := Spans();
      CachedNoEmpty(m, ranges.maxSize);
      IndexAt(m, pos);
      IndexNext(m, pos);
      IndexAt(m, Next(m, pos));
      ranges.Adjust(pos, 0, count);
      SameShapeIndex(m, ranges.data, Next(m, pos));
      ghost var k := Index(m, pos);
      GrownMoved(rs, k, count);
      ShiftUntilEnd(Next(ranges.data, pos), count);
    }

    /** Move the range at a position, if there is one, and the ones after it up. */
    method MoveUp(pos: Pos, count: nat)
      requires ranges.Laid() && ValidPos(ranges.data, pos)
      modifies ranges
      ensures ranges.Laid() && SameShape(old(ranges.data), ranges.data)
      ensures var rs := old(Spans());
              var k := Index(old(ranges.data), pos);
              k <= |rs| && Spans() == MovedFrom(rs, k, count)
    {
      IndexAt(ranges.data, pos);
      ShiftUntilEnd(pos, count);
    }

    /** Add `count` indices one by one in a gap that has been opened up at `index`. */
    method Fill(begin: Pos, index: nat, count: nat, ghost rs: seq<Range>)
      requires Valid() && ValidPos(ranges.data, begin) && Index(ranges.data, begin) == FirstAfter(Spans(), index)
      requires OpenedUp(rs, Spans(), index, count, false) && !Has(rs, index)
      modifies ranges
      ensures Valid() && OpenedUp(rs, Spans(), index, count, true)
    {
      hide Canonical, Flat, Has, FirstAfter, Index, Cached, NoEmpty, Added;
      var pos := begin;
      var i := 0;
      while i < count
        invariant i <= count && Valid()
        invariant ValidPos(ranges.data, pos)
        invariant i < count ==> Index(ranges.data, pos) == FirstAfter(Spans(), index + i)
        invariant forall y: nat :: Has(Spans(), y) <==> HadBefore(rs, index, count, y) || index <= y < index + i
      {
        ghost var was := Spans();
        AddedSpec(was, index + i);
        pos := DoAdd(pos, index + i);
        assert !Has(Spans(), index + i + 1) by {
          assert Has(Spans(), index + i + 1) <==> Has(was, index + i + 1) || index + i + 1 == index + i;
        }
        CachedNoEmpty(ranges.data, ranges.maxSize);
        AddedThenNext(Spans(), index + i, AddedAt(was, index + i));
        IndexNext(ranges.data, pos);
        pos := Next(ranges.data, pos);
        i := i + 1;
      }
    }

    /** Move members at or after an index up, splitting a range that reaches over it. */
    method ShiftForInsertAt(index: nat, count: nat)
      requires Valid() && count > 0
      modifies ranges
      ensures Valid() && OpenedUp(old(Spans()), Spans(), index, count, false)
    {
      hide Flat, Cached, OpenedUp, Has, Index, Canonical, FirstAfter, MovedFrom, SplitUp, Sorted;
      var it := Find(index);
      IndexAt(ranges.data, it);
      if it == End(ranges.data) {
        MovesNothing(Spans(), index, count);
      } else {
        OpensUp(Spans(), index, count);
        ShiftAndSplit(it, index, count);
      }
    }

    /** Move a range and the later ones up, then put back what lies below the gap. */
    method ShiftAndSplit(it: Pos, index: nat, count: nat)
      requires ranges.Laid() && InRange(ranges.data, it) && Index(ranges.data, it) < |Spans()| && count > 0
      requires var k := Index(ranges.data, it); Spans()[k].first < index ==> Sorted(SplitUp(Spans(), k, index, count))
      modifies ranges
      ensures ranges.Laid()
      ensures var rs := old(Spans());
              var k := Index(old(ranges.data), it);
              Spans() == if rs[k].first < index then SplitUp(rs, k, index, count) else MovedFrom(rs, k, count)
    {
      hide Flat, Cached, Index, MovedFrom, SplitUp, SameShape, Sorted, Inserted;
      ghost var m := ranges.data;
      ghost var rs := Spans();
      SplitMoved(rs, Index(m, it), index, count);
      MoveUp(it, count);
      SameShapeIndex(m, ranges.data, it);
      IndexAt(ranges.data, it);
      if At(ranges.data, it).first < index + count {
        SplitAt(it, index, count);
      }
    }

    /** Put the part of a range below the gap back and the part above it behind. */
    method SplitAt(it: Pos, index: nat, count: nat)
      requires ranges.Laid() && InRange(ranges.data, it) && count <= At(ranges.data, it).first
      requires Index(ranges.data, it) < |Spans()|
      requires var k := Index(ranges.data, it);
               Sorted(Inserted(Spans()[k := Range(At(ranges.data, it).first - count, index)], k + 1,
                 Range(index + count, At(ranges.data, it).second)))
      modifies ranges
      ensures ranges.Laid()
      ensures var k := Index(old(ranges.data), it);
              Spans() == Inserted(old(Spans())[k := Range(old(At(ranges.data, it)).first - count, index)], k + 1,
                Range(index + count, old(At(ranges.data, it)).second))
    {
      hide Flat, Cached, Index, Sorted, Inserted, SameShape;
      ghost var m := ranges.data;
      var oldSecond := At(ranges.data, it).second;
      ranges.Set(it, At(ranges.data, it).first - count, index);
      SameShapeIndex(m, ranges.data, it);
      CachedNoEmpty(ranges.data, ranges.maxSize);
      IndexNext(ranges.data, it);
      IndexAt(ranges.data, Next(ranges.data, it));
      var _ := ranges.Insert(Next(ranges.data, it), Range(index + count, oldSecond));
    }

    /** Delete an index at a known place, moving later members down. */
    method DoErase(it: Pos, index: nat)
      requires Valid() && InRange(ranges.data, it) && Index(ranges.data, it) == FirstAfter(Spans(), index)
      modifies ranges
      ensures Valid() && Spans() == Closed(old(Spans()), index)
    {
      hide Flat, Cached, Index, Has, Canonical, FirstAfter, Closed, MovedFrom, ClosedUp, SameShape, NoEmpty, CanMove,
          Move, Erased;
      ghost var m := ranges.data;
      ghost var rs := Spans();
      ghost var k := FirstAfter(rs, index);
      ClosedSpec(rs, index);
      IndexAt(m, it);
      CachedNoEmpty(m, ranges.maxSize);
      var p := it;
      var r := At(ranges.data, it);
      if r.first <= index {
        if r.first + 1 == r.second {
          ClosedIsGone(rs, index, k);
          p := ranges.Erase(it);
          IndexAt(ranges.data, p);
        } else {
          ClosedIsShrunk(rs, index, k);
          IndexNext(m, it);
          ranges.Adjust(it, 0, -1);
          p := Next(ranges.data, it);
          SameShapeIndex(m, ranges.data, Next(m, it));
          SameShapeNext(m, ranges.data, it);
          IndexAt(ranges.data, p);
        }
      } else {
        var behind := EndsBefore(it, r.first - 1);
        if behind {
          ClosedIsJoined(rs, index, k);
          IndexPrev(m, it);
          IndexAt(m, Prev(m, it));
          ranges.Adjust(Prev(ranges.data, it), 0, r.Len());
          SameShapeIndex(m, ranges.data, it);
          IndexAt(ranges.data, it);
          p := ranges.Erase(it);
          IndexAt(ranges.data, p);
        } else {
          ClosedIsMoved(rs, index, k);
        }
      }
      ShiftUntilEnd(p, -1);
    }

    /** Delete an index, moving later members down. */
    method EraseAt(index: nat)
      requires Valid()
      modifies ranges
      ensures Valid() && ClosedUp(old(Spans()), Spans(), index)
    {
      hide Flat, Cached, Index, Has, Canonical, FirstAfter, ClosedUp;
      ClosedSpec(Spans(), index);
      var it := Find(index);
      IndexAt(ranges.data, it);
      if it != End(ranges.data) {
        DoErase(it, index);
      }
    }

    /** If the index is a member, delete it; otherwise delete it too and give back where it lands. */
    method EraseOrUnshift(index: nat) returns (r: Option<int>)
      requires Valid()
      modifies ranges
      ensures Valid() && ClosedUp(old(Spans()), Spans(), index)
      ensures r == if Has(old(Spans()), index) then None else Some(Unshift(old(Spans()), index))
    {
      ghost var rs := Spans();
      ghost var k := FirstAfter(rs, index);
      CanonicalSorted(rs);
      HasAt(rs, index);
      BelowAtFirstAfter(rs, index);
      ClosedSpec(rs, index);
      hide Flat, Cached, Canonical, FirstAfter, ClosedUp, Closed, Below, Sorted, Has, TotalUpTo;
      var shifted: int;
      var it: Pos;
      it, shifted := UnshiftPast(index);
      if it == End(ranges.data) {
        return Some(shifted);
      }
      IndexAt(ranges.data, it);
      r := if At(ranges.data, it).first <= index then None else Some(shifted);
      DoErase(it, index);
    }

    /** Go past whole chunks and then ranges that end by the index, subtracting their sizes. */
    method UnshiftPast(index: nat) returns (it: Pos, shifted: int)
      requires Valid()
      ensures ValidPos(ranges.data, it) && Index(ranges.data, it) == FirstAfter(Spans(), index) <= |Spans()|
      ensures it == End(ranges.data) <==> Index(ranges.data, it) == |Spans()|
      ensures shifted == index - TotalUpTo(Spans(), FirstAfter(Spans(), index))
    {
      hide Cached, Canonical, FirstAfter, Sorted, TotalUpTo, NoEmpty, Flat;
      ghost var m := ranges.data;
      ghost var rs := Spans();
      CanonicalSorted(rs);
      CachedNoEmpty(m, ranges.maxSize);
      var total;
      it, total := PassChunks(index);
      shifted := index - total;
      ghost var k := Index(m, it);
      IndexAt(m, it);
      while it != End(ranges.data) && At(ranges.data, it).second <= index
        invariant ValidPos(m, it) && Index(m, it) == k <= FirstAfter(rs, index) <= |rs|
        invariant it == End(m) <==> k == |rs|
        invariant it != End(m) ==> rs[k] == At(m, it)
        invariant shifted == index - TotalUpTo(rs, k)
        decreases |rs| - k
      {
        FirstAfterPast(rs, index, k);
        TotalUpToNext(rs, k);
        shifted := shifted - At(ranges.data, it).Len();
        IndexNext(m, it);
        it := Next(ranges.data, it);
        k := k + 1;
        IndexAt(m, it);
      }
      NotBefore(rs, index, k);
    }

    /** Go past the chunks that end by the index, adding up their cached counts. */
    method PassChunks(index: nat) returns (it: Pos, total: int)
      requires Valid()
      ensures ValidPos(ranges.data, it) && it.inner == 0
      ensures Index(ranges.data, it) <= FirstAfter(Spans(), index) <= |Spans()|
      ensures total == TotalUpTo(Spans(), Index(ranges.data, it))
      ensures it != End(ranges.data) ==> index < ranges.data[it.outer].end
    {
      hide Cached, Canonical, FirstAfter, Sorted, TotalUpTo, NoEmpty, Flat;
      ghost var m := ranges.data;
      ghost var rs := Spans();
      CanonicalSorted(rs);
      CachedNoEmpty(m, ranges.maxSize);
      TotalUpToNone(rs);
      FlatNone(m);
      total := 0;
      var o := 0;
      while o < |ranges.data| && ranges.data[o].end <= index
        invariant o <= |m| && |Flat(m[..o])| <= FirstAfter(rs, index) <= |rs|
        invariant total == TotalUpTo(rs, |Flat(m[..o])|)
      {
        ChunkPassed(m, ranges.maxSize, o, index);
        ChunkTotal(m, ranges.maxSize, o);
        total := total + ranges.data[o].count;
        o := o + 1;
      }
      it := Pos(o, 0);
      ValidStart(m, o);
    }

    /** Remove the part of a range that lies in `[b, e)`, splitting the range if it sticks out on both sides. */
    method CutAt(it: Pos, ghost k: nat, b: nat, e: nat) returns (p: Pos)
      requires ranges.Laid() && InRange(ranges.data, it) && k == Index(ranges.data, it) < |Spans()|
      requires Sorted(Cut(Spans(), k, b, e)) && At(ranges.data, it).first <= b && b <= e
      modifies ranges
      ensures ranges.Laid() && Spans() == Cut(old(Spans()), k, b, e)
      ensures ValidPos(ranges.data, p) && Index(ranges.data, p) == k
    {
      hide Flat, Cached, Index, Sorted, Inserted, Erased, SameShape;
      ghost var m := ranges.data;
      var r := At(ranges.data, it);
      IndexAt(m, it);
      p := it;
      if r.first < b && r.second > e {
        p := Split(it, k, b, e);
      } else if b == r.first && e >= r.second {
        p := ranges.Erase(it);
      } else if b == r.first {
        ranges.Set(it, e, r.second);
        SameShapeIndex(m, ranges.data, it);
      } else {
        ranges.Set(it, r.first, b);
        SameShapeIndex(m, ranges.data, it);
      }
    }

    /** Split a range in two around `[b, e)`; the result is the first part. */
    method Split(it: Pos, ghost k: nat, b: nat, e: nat) returns (p: Pos)
      requires ranges.Laid() && InRange(ranges.data, it) && k == Index(ranges.data, it) < |Spans()|
      requires var r := At(ranges.data, it);
               Sorted(Inserted(Spans()[k := Range(r.first, b)], k + 1, Range(e, r.second)))
      modifies ranges
      ensures ranges.Laid() && ValidPos(ranges.data, p) && Index(ranges.data, p) == k
      ensures var r := old(At(ranges.data, it));
              Spans() == Inserted(old(Spans())[k := Range(r.first, b)], k + 1, Range(e, r.second))
    {
      hide Flat, Cached, Index, Sorted, Inserted, SameShape, NoEmpty;
      ghost var m := ranges.data;
      var r := At(ranges.data, it);
      ranges.Set(it, r.first, b);
      SameShapeIndex(m, ranges.data, it);
      CachedNoEmpty(ranges.data, ranges.maxSize);
      IndexNext(ranges.data, it);
      IndexAt(ranges.data, Next(ranges.data, it));
      p := ranges.Insert(Next(ranges.data, it), Range(e, r.second));
      CachedNoEmpty(ranges.data, ranges.maxSize);
      IndexPrev(ranges.data, p);
      p := Prev(ranges.data, p);
    }

    /**
     * Remove the indices from `begin` up to `end`. An empty stretch strictly inside a range still
     * splits that range, and then the ranges are no longer coalesced.
     */
    method DoRemove(from: Pos, begin: nat, end: nat) returns (it: Pos)
      requires Valid() && ValidPos(ranges.data, from) && Index(ranges.data, from) <= FirstAfter(Spans(), begin)
      requires begin <= end
      modifies ranges
      ensures ranges.Laid() && Sorted(Spans()) && Lost(old(Spans()), Spans(), begin, end)
      ensures Canonical(Spans()) <==> begin < end || !Inside(old(Spans()), begin)
      ensures ValidPos(ranges.data, it) && Index(ranges.data, it) == FirstAfter(Spans(), end)
    {
      hide Flat, Cached, Canonical, Sorted, Cut, Has, Index, FirstAfter, Inside;
      ghost var was := Spans();
      CanonicalSorted(was);
      var b: nat := begin;
      it := FindFrom(b, from);
      IndexAt(ranges.data, it);
      ghost var n := |Spans()|;
      LostNothing(was, b, end);
      while it != End(ranges.data) && At(ranges.data, it).first < end
        invariant ranges.Laid() && Sorted(Spans()) && ValidPos(ranges.data, it)
        invariant Index(ranges.data, it) == FirstAfter(Spans(), b) <= |Spans()|
        invariant it == End(ranges.data) <==> Index(ranges.data, it) == |Spans()|
        invariant it != End(ranges.data) ==> At(ranges.data, it) == Spans()[Index(ranges.data, it)]
        invariant begin <= b <= end && (b == end ==> begin == end) && LostUpTo(was, Spans(), begin, end, b)
        invariant Spans() == was || it == End(ranges.data) || At(ranges.data, it).first >= end || Canonical(Spans())
        invariant if begin < end then Canonical(Spans())
                  else
                    || Spans() == was
                    || (&& !Canonical(Spans()) && Inside(was, begin)
                        && Index(ranges.data, it) < |Spans()| && At(ranges.data, it).first >= end)
        decreases
          |Spans()| - Index(ranges.data, it)
          + if it != End(ranges.data) && At(ranges.data, it).first < end then 1 else 0
      {
        ghost var rs := Spans();
        ghost var k := Index(ranges.data, it);
        ghost var c := b;
        b := if At(ranges.data, it).first > b then At(ranges.data, it).first else b;
        CutStep(was, rs, begin, end, c, b);
        it := CutAt(it, k, b, end);
        it := FindFrom(b, it);
        IndexAt(ranges.data, it);
      }
      CutEnds(was, Spans(), begin, end, b);
    }

    /** Remove `count` indices from an index on, without moving others. */
    method Remove(index: nat, count: nat)
      requires Valid()
      modifies ranges
      ensures ranges.Laid() && Sorted(Spans()) && Lost(old(Spans()), Spans(), index, index + count)
      ensures Canonical(Spans()) <==> count > 0 || !Inside(old(Spans()), index)
    {
      var it := Find(index);
      it := DoRemove(it, index, index + count);
    }

    /** Make the set the indices from zero up to a length. */
    method SetTo(len: nat)
      requires ranges.Laid()
      modifies ranges
      ensures Valid() && forall y: nat :: Has(Spans(), y) <==> y < len
    {
      Clear();
      if len > 0 {
        ranges.PushBack(Range(0, len));
        assert Spans() == [Range(0, len)];
        forall y: nat ensures Has(Spans(), y) <==> y < len {
          HasOne(Range(0, len), y);
        }
      }
    }

    method Clear()
      requires ranges.Laid()
      modifies ranges
      ensures Valid() && Spans() == []
    {
      ranges.data := [];
    }

    /** Where an index lands after all members have been inserted. */
    method ShiftIndex(index: nat) returns (r: int)
      requires Valid()
      ensures r == ShiftTo(Spans(), index)
    {
      hide Cached, Canonical, NoEmpty, Flat, ShiftTo, TotalUpTo;
      ghost var m := ranges.data;
      ghost var rs := Spans();
      CachedNoEmpty(m, ranges.maxSize);
      FlatNone(m);
      TotalUpToNone(rs);
      r := index;
      var it := Begin(ranges.data);
      ghost var k := 0;
      ValidStart(m, 0);
      IndexAt(m, it);
      while it != End(ranges.data)
        invariant ValidPos(m, it) && Index(m, it) == k <= |rs| && (it == End(m) <==> k == |rs|)
        invariant it != End(m) ==> rs[k] == At(m, it)
        invariant r == Pushed(rs, k, index) && index <= r
        invariant forall j | 0 <= j < k :: rs[j].first <= Pushed(rs, j, index)
        decreases |rs| - k
      {
        if At(ranges.data, it).first > r {
          break;
        }
        PushedNext(rs, k, index);
        CanonicalAt(rs, k);
        r := r + At(ranges.data, it).Len();
        IndexNext(m, it);
        it := Next(ranges.data, it);
        k := k + 1;
        IndexAt(m, it);
      }
      PushedLands(rs, k, index);
    }

    /** Where an index outside the set lands after all members have been deleted. */
    method UnshiftIndex(index: nat) returns (r: int)
      requires Valid() && !Has(Spans(), index)
      ensures r == Unshift(Spans(), index)
    {
      BelowNothing(Spans());
      var c := Count(0, index);
      r := index - c;
    }

    /**
     * Count the members from `start` up to `end`. When the start lies inside a chunk and the end
     * inside the first range of the next chunk, the part of that range is left out; otherwise the
     * count is right. An end before the start gives the negative distance if one range holds both
     * the start and the index before the end, and nothing otherwise.
     */
    method Count(start: nat, end: nat) returns (r: int)
      requires Valid()
      ensures forall o | CutShort(ranges.data, start, end, o) ::
                r == Between(Spans(), start, end) - (end - ranges.data[o + 1].begin)
      ensures start <= end && (forall o :: !CutShort(ranges.data, start, end, o)) ==> r == Between(Spans(), start, end)
      ensures end < start ==> r == if Filled(Spans(), end, start) then end - start else 0
    {
      hide Cached, Canonical, NoEmpty, Flat, TotalUpTo, FirstAfter, Sorted, Below, CutShort, Index, Filled;
      ghost var m := ranges.data;
      ghost var max := ranges.maxSize;
      var it := Find(start);
      IndexAt(m, it);
      FoundEndsAfter(Spans(), start);
      forall o | CutShort(m, start, end, o)
        ensures CutsHere(m, it, start, end) && it.outer == o && At(m, it).first < At(m, it).second < end
      {
        CutOnlyHere(m, max, it, start, end, o);
      }
      if end < start {
        FilledByOne(Spans(), start, end);
      }
      if it == End(ranges.data) || At(ranges.data, it).first >= end {
        if start <= end {
          CountNone(Spans(), start, end);
        }
        return 0;
      }
      var first := At(ranges.data, it).first;
      var second := At(ranges.data, it).second;
      if second >= end {
        if start <= end {
          CountOne(Spans(), start, end);
        }
        return end - if first < start then start else first;
      }
      if start > first || it.inner != 0 {
        r := CountFromInside(it, start, end);
        if CutsHere(m, it, start, end) {
          CutIsShort(m, max, it, start, end);
        }
      } else {
        CountAtStart(Spans(), start);
        r := CountTail(it, start, end, 0);
      }
    }

    /** Count from a range inside a chunk on. */
    method CountFromInside(it: Pos, start: nat, end: nat) returns (r: int)
      requires Valid() && InRange(ranges.data, it) && Index(ranges.data, it) == FirstAfter(Spans(), start)
      requires At(ranges.data, it).second < end
      requires start > At(ranges.data, it).first || it.inner != 0
      ensures r == Between(Spans(), start, end) - if CutsHere(ranges.data, it, start, end)
                then end - ranges.data[it.outer + 1].begin else 0
    {
      hide Cached, Canonical, NoEmpty, Flat, TotalUpTo, FirstAfter, Sorted, Below, Index;
      ghost var m := ranges.data;
      ghost var rs := Spans();
      ghost var k := Index(m, it);
      CanonicalSorted(rs);
      CachedNoEmpty(m, ranges.maxSize);
      IndexAt(m, it);
      BelowAtFirstAfter(rs, start);
      TotalUpToNext(rs, k);
      IndexNext(m, it);
      r := At(ranges.data, it).second - if At(ranges.data, it).first < start then start else At(ranges.data, it).first;
      var pos := Next(ranges.data, it);
      ghost var j := k + 1;
      IndexAt(m, pos);
      while pos != End(ranges.data) && At(ranges.data, pos).second < end && pos.inner != 0
        invariant ValidPos(m, pos) && Index(m, pos) == j <= |rs| && (pos == End(m) <==> j == |rs|)
        invariant pos != End(m) ==> rs[j] == At(m, pos)
        invariant pos.outer == if pos.inner == 0 then it.outer + 1 else it.outer
        invariant r == TotalUpTo(rs, j) - Below(rs, start)
        invariant forall i | 0 <= i < j :: rs[i].second <= end
        decreases |rs| - j
      {
        TotalUpToNext(rs, j);
        r := r + At(ranges.data, pos).Len();
        IndexNext(m, pos);
        pos := Next(ranges.data, pos);
        j := j + 1;
        IndexAt(m, pos);
      }
      if pos != End(ranges.data) && At(ranges.data, pos).first < end && pos.inner != 0 {
        r := r + end - At(ranges.data, pos).first;
      }
      if pos == End(ranges.data) || At(ranges.data, pos).second >= end {
        BelowAt(rs, j, end);
        CutsOnlyAtBorder(m, ranges.maxSize, it, pos, start, end);
        return;
      }
      r := CountTail(pos, start, end, r);
    }

    /** Count from the start of a chunk on, whole chunks first. */
    method CountTail(begin: Pos, start: nat, end: nat, counted: int) returns (r: int)
      requires Valid() && ValidPos(ranges.data, begin) && begin.inner == 0 && start <= end
      requires Index(ranges.data, begin) <= |Spans()|
      requires counted == TotalUpTo(Spans(), Index(ranges.data, begin)) - Below(Spans(), start)
      requires forall i | 0 <= i < Index(ranges.data, begin) :: Spans()[i].second <= end
      ensures r == Between(Spans(), start, end)
    {
      hide Cached, Canonical, NoEmpty, Flat, TotalUpTo, Sorted, Below;
      ghost var m := ranges.data;
      ghost var rs := Spans();
      CanonicalSorted(rs);
      CachedNoEmpty(m, ranges.maxSize);
      r := counted;
      var o := begin.outer;
      while o < |ranges.data| && ranges.data[o].end <= end
        invariant o <= |m| && |Flat(m[..o])| <= |rs|
        invariant r == TotalUpTo(rs, |Flat(m[..o])|) - Below(rs, start)
        invariant forall i | 0 <= i < |Flat(m[..o])| :: rs[i].second <= end
      {
        ChunkTotal(m, ranges.maxSize, o);
        ChunkEndsBy(m, ranges.maxSize, o, end);
        r := r + ranges.data[o].count;
        o := o + 1;
      }
      var it := Pos(o, 0);
      ghost var j := |Flat(m[..o])|;
      ValidStart(m, o);
      IndexAt(m, it);
      while it != End(ranges.data) && At(ranges.data, it).second <= end
        invariant ValidPos(m, it) && Index(m, it) == j <= |rs| && (it == End(m) <==> j == |rs|)
        invariant it != End(m) ==> rs[j] == At(m, it)
        invariant r == TotalUpTo(rs, j) - Below(rs, start)
        invariant forall i | 0 <= i < j :: rs[i].second <= end
        decreases |rs| - j
      {
        TotalUpToNext(rs, j);
        r := r + At(ranges.data, it).Len();
        IndexNext(m, it);
        it := Next(ranges.data, it);
        j := j + 1;
        IndexAt(m, it);
      }
      BelowAt(rs, j, end);
      if it != End(ranges.data) && At(ranges.data, it).first < end {
        r := r + end - At(ranges.data, it).first;
      }
    }

    /**
     * Add an index given without counting the members before it: it is shifted over them first,
     * and the shifted index is given back.
     */
    method AddShifted(index: nat) returns (r: int)
      requires Valid()
      modifies ranges
      ensures r == ShiftTo(old(Spans()), index) && !Has(old(Spans()), r) && Unshift(old(Spans()), r) == index
      ensures Valid() && OneMore(old(Spans()), Spans(), r)
    {
      ghost var rs := Spans();
      ShiftSpec(rs, index);
      AddedSpec(rs, ShiftTo(rs, index));
      hide Cached, Canonical, Flat, ShiftTo, Has, Added, AddedAt, OneMore, Unshift, FirstAfter;
      var it: Pos;
      it, r := ShiftPast(index);
      var _ := DoAdd(it, r);
    }

    /** Go past whole chunks and then ranges that start by the index as it grows by their sizes. */
    method ShiftPast(index: nat) returns (it: Pos, r: int)
      requires Valid()
      ensures r == ShiftTo(Spans(), index)
      ensures ValidPos(ranges.data, it) && Index(ranges.data, it) == FirstAfter(Spans(), r)
    {
      hide Cached, Canonical, NoEmpty, Flat, ShiftTo, TotalUpTo, FirstAfter, Sorted, Has, Index;
      ghost var m := ranges.data;
      ghost var rs := Spans();
      CanonicalSorted(rs);
      CachedNoEmpty(m, ranges.maxSize);
      it, r := ShiftPastChunks(index);
      ghost var k := Index(m, it);
      IndexAt(m, it);
      while it != End(ranges.data) && At(ranges.data, it).first <= r
        invariant ValidPos(m, it) && Index(m, it) == k <= |rs| && (it == End(m) <==> k == |rs|)
        invariant it != End(m) ==> rs[k] == At(m, it)
        invariant r == Pushed(rs, k, index) && index <= r
        invariant forall j | 0 <= j < k :: rs[j].first <= Pushed(rs, j, index)
        decreases |rs| - k
      {
        PushedNext(rs, k, index);
        CanonicalAt(rs, k);
        r := r + At(ranges.data, it).Len();
        IndexNext(m, it);
        it := Next(ranges.data, it);
        k := k + 1;
        IndexAt(m, it);
      }
      PushedEnds(rs, k, index, r);
    }

    method ShiftPastChunks(index: nat) returns (it: Pos, r: int)
      requires Valid()
      ensures ValidPos(ranges.data, it) && Index(ranges.data, it) <= |Spans()|
      ensures r == Pushed(Spans(), Index(ranges.data, it), index) && index <= r
      ensures forall j | 0 <= j < Index(ranges.data, it) :: Spans()[j].first <= Pushed(Spans(), j, index)
    {
      hide Cached, Canonical, NoEmpty, Flat, TotalUpTo, Sorted, Pushed;
      ghost var m := ranges.data;
      ghost var rs := Spans();
      CanonicalSorted(rs);
      CachedNoEmpty(m, ranges.maxSize);
      FlatNone(m);
      PushedNone(rs, index);
      r := index;
      var o := 0;
      while o < |ranges.data| && ranges.data[o].end <= r
        invariant o <= |m| && |Flat(m[..o])| <= |rs|
        invariant r == Pushed(rs, |Flat(m[..o])|, index) && index <= r
        invariant forall j | 0 <= j < |Flat(m[..o])| :: rs[j].first <= Pushed(rs, j, index)
      {
        ChunkTotal(m, ranges.maxSize, o);
        ChunkEndsBy(m, ranges.maxSize, o, r);
        PushedChunk(rs, |Flat(m[..o])|, |Flat(m[..o + 1])|, index, r);
        r := r + ranges.data[o].count;
        o := o + 1;
      }
      it := Pos(o, 0);
      ValidStart(m, o);
    }

    /** Add all members of another set. */
    method AddAll(other: IndexSet)
      requires Valid() && other.Valid()
      modifies ranges
      ensures Valid() && forall y: nat :: Has(Spans(), y) <==> Has(old(Spans()), y) || Has(old(other.Spans()), y)
    {
      hide Flat, Has, Canonical, Sorted, Index, Cached, NoEmpty, FirstAfter, Added, AddedAt, OneMore;
      ghost var was, os := Spans(), other.Spans();
      var m := other.ranges.data;
      CachedNoEmpty(m, other.ranges.maxSize);
      CachedNoEmpty(ranges.data, ranges.maxSize);
      FirstIndexIsNone(ranges.data);
      FirstLeads(m);
      var it := Begin(ranges.data);
      var ip := FirstIndex(m);
      ghost var lo: nat := 0;
      while !SamePlace(ip, IndexPos(End(m), 0))
        invariant Valid() && ValidPos(ranges.data, it) && Index(ranges.data, it) <= FirstAfter(Spans(), lo)
        invariant Leads(m, ip, lo) && 0 <= RangesAhead(m, ip) && 0 <= IndicesAhead(m, ip)
        invariant forall y: nat :: Has(Spans(), y) <==> Has(was, y) || (y < lo && Has(os, y))
        decreases RangesAhead(m, ip), IndicesAhead(m, ip)
      {
        ghost var rs := Spans();
        var index := Value(m, ip);
        StepLeads(m, ip);
        LaterIsLater(rs, lo, index);
        CanonicalSorted(rs);
        AddedSpec(rs, index);
        it := FindFrom(index, it);
        it := DoAdd(it, index);
        lo := index + 1;
        NotPast(Spans(), AddedAt(rs, index), index, lo);
        OneMoreOf(rs, Spans(), index);
        ip := Step(m, ip);
      }
    }

    /** Remove all members of another set, range by range. */
    method RemoveAll(values: IndexSet)
      requires Valid() && values.Valid() && values.ranges != ranges
      modifies ranges
      ensures Valid() && forall y: nat :: Has(Spans(), y) <==> Has(old(Spans()), y) && !Has(values.Spans(), y)
    {
      hide Flat, Has, Canonical, Sorted, Index, Cached, NoEmpty, FirstAfter;
      ghost var was := Spans();
      var m := values.ranges.data;
      ghost var vs := values.Spans();
      CachedNoEmpty(m, values.ranges.maxSize);
      CachedNoEmpty(ranges.data, ranges.maxSize);
      FirstIndexIsNone(ranges.data);
      FirstIndexIsNone(m);
      HasNone();
      var it := Begin(ranges.data);
      var v := Begin(m);
      ghost var j := 0;
      ghost var lo: nat := 0;
      IndexAt(m, v);
      while v != End(m)
        invariant Valid() && ValidPos(ranges.data, it) && Index(ranges.data, it) <= FirstAfter(Spans(), lo)
        invariant ValidPos(m, v) && Index(m, v) == j <= |vs| && (v == End(m) <==> j == |vs|)
        invariant v != End(m) ==> vs[j] == At(m, v)
        invariant forall i | j <= i < |vs| :: lo <= vs[i].first
        invariant forall y: nat :: Has(Spans(), y) <==> Has(was, y) && !Has(vs[..j], y)
        decreases |vs| - j
      {
        ghost var rs := Spans();
        var range := At(m, v);
        LaterIsLater(rs, lo, range.first);
        CanonicalAt(vs, j);
        it := DoRemove(it, range.first, range.second);
        LostPrefix(was, rs, Spans(), vs, j);
        IndexNext(m, v);
        v := Next(m, v);
        j := j + 1;
        lo := range.second;
        IndexAt(m, v);
        LaterRanges(vs, j);
        if it == End(ranges.data) {
          IndexAt(ranges.data, it);
          NothingLeft(was, Spans(), vs, j);
          return;
        }
      }
      assert vs[..|vs|] == vs;
    }

    /** Insert the members of another set as new members, moving the members after each up. */
    method InsertAtAll(positions: IndexSet)
      requires Valid() && positions.Valid() && positions.ranges.maxSize == ranges.maxSize
      modifies ranges
      ensures Valid() && OpenedBySet(old(Spans()), old(positions.Spans()), true, Spans())
    {
      hide Flat, Has, Canonical, Sorted, Index, Cached, NoEmpty, Below, OneMore, OpenedBySet, OpenedUpTo, NoneFrom,
          NoneIn;
      ghost var rs, ps := Spans(), positions.Spans();
      CanonicalSorted(rs);
      CanonicalSorted(ps);
      OpenTrivially(rs, ps);
      FlatEmpty(ranges.data, ranges.maxSize);
      FlatEmpty(positions.ranges.data, ranges.maxSize);
      if positions.ranges.data == [] {
        return;
      }
      if ranges.data == [] {
        ranges.data := positions.ranges.data;
        return;
      }
      var m, n := ranges.data, positions.ranges.data;
      CachedNoEmpty(m, ranges.maxSize);
      CachedNoEmpty(n, ranges.maxSize);
      OpenBegins(rs, ps, true);
      var builder := new ChunkedRangeVectorBuilder(m, ranges.maxSize);
      var begin1, begin2, shift;
      ghost var f;
      begin1, begin2, shift, f := Interleave(m, n, true, builder);
      f := MoveRest(m, begin1, ps, true, builder, f, shift);
      f := AddRest(n, begin2, rs, builder, f);
      OpenEnds(rs, ps, true, builder.Built(), f);
      ranges.data := builder.Finalize();
    }

    /** Open up the members of another set as new indices, moving the members after each up. */
    method ShiftForInsertAtAll(values: IndexSet)
      requires Valid() && values.Valid()
      modifies ranges
      ensures Valid() && OpenedBySet(old(Spans()), old(values.Spans()), false, Spans())
    {
      hide Flat, Has, Canonical, Sorted, Index, Cached, NoEmpty, Below, OneMore, OpenedBySet, OpenedUpTo, NoneFrom,
          NoneIn;
      ghost var rs, ps := Spans(), values.Spans();
      CanonicalSorted(rs);
      CanonicalSorted(ps);
      OpenTrivially(rs, ps);
      FlatEmpty(ranges.data, ranges.maxSize);
      FlatEmpty(values.ranges.data, values.ranges.maxSize);
      if ranges.data == [] || values.ranges.data == [] {
        return;
      }
      var m, n := ranges.data, values.ranges.data;
      FirstChunkBegins(n, values.ranges.maxSize);
      LastChunkEnds(m, ranges.maxSize);
      if n[0].begin >= m[|m| - 1].end {
        return;
      }
      CachedNoEmpty(m, ranges.maxSize);
      CachedNoEmpty(n, values.ranges.maxSize);
      OpenBegins(rs, ps, false);
      var builder := new ChunkedRangeVectorBuilder(m, ranges.maxSize);
      var begin1, begin2, shift;
      ghost var f;
      begin1, begin2, shift, f := Interleave(m, n, false, builder);
      f := MoveRest(m, begin1, ps, false, builder, f, shift);
      OpenEnds(rs, ps, false, builder.Built(), f);
      ranges.data := builder.Finalize();
    }

    /**
     * Push the members of `m` moved up, and between them those of `n` if the new indices are filled,
     * until one side ends.
     */
    static method Interleave(m: seq<Chunk>, n: seq<Chunk>, filled: bool, builder: ChunkedRangeVectorBuilder)
      returns (begin1: IndexPos, begin2: IndexPos, shift: nat, ghost f: nat)
      requires NoEmpty(m) && NoEmpty(n) && Canonical(Flat(m)) && Canonical(Flat(n)) && Sorted(Flat(n))
      requires builder.Valid() && builder.Counted() && builder.Built() == []
      modifies builder
      ensures builder.Valid() && builder.Counted() && Canonical(builder.Built()) && EndBy(builder.Built(), f)
      ensures OpenedUpTo(Flat(m), Flat(n), filled, builder.Built(), f) && shift == Below(Flat(n), f) <= f
      ensures Leads(m, begin1, f - shift) && 0 <= RangesAhead(m, begin1) && 0 <= IndicesAhead(m, begin1)
      ensures Leads(n, begin2, f) && 0 <= RangesAhead(n, begin2) && 0 <= IndicesAhead(n, begin2)
      ensures AtEnd(m, begin1.at) || AtEnd(n, begin2.at)
    {
      hide Flat, Has, Canonical, Sorted, Index, Cached, NoEmpty, Below, OneMore, OpenedBySet, OpenedUpTo, NoneIn,
          NoneFrom;
      ghost var rs, ps := Flat(m), Flat(n);
      FirstLeads(m);
      FirstLeads(n);
      OpenBegins(rs, ps, filled);
      begin1, begin2 := FirstIndex(m), FirstIndex(n);
      f := 0;
      shift := 0;
      while !SamePlace(begin1, IndexPos(End(m), 0)) && !SamePlace(begin2, IndexPos(End(n), 0))
        invariant builder.Valid() && builder.Counted() && Canonical(builder.Built()) && EndBy(builder.Built(), f)
        invariant OpenedUpTo(rs, ps, filled, builder.Built(), f) && shift == Below(ps, f) <= f
        invariant Leads(m, begin1, f - shift) && 0 <= RangesAhead(m, begin1) && 0 <= IndicesAhead(m, begin1)
        invariant Leads(n, begin2, f) && 0 <= RangesAhead(n, begin2) && 0 <= IndicesAhead(n, begin2)
        decreases RangesAhead(m, begin1), IndicesAhead(m, begin1), RangesAhead(n, begin2), IndicesAhead(n, begin2)
      {
        ghost var was := builder.Built();
        if Value(m, begin1) + shift < Value(n, begin2) {
          var a := Value(m, begin1);
          LeadsFrom(m, begin1, f - shift, a);
          LeadsFrom(n, begin2, f, a + shift + 1);
          StepLeads(m, begin1);
          builder.PushIndex(a + shift);
          OpenKeeps(rs, ps, filled, was, builder.Built(), f, a);
          begin1 := Step(m, begin1);
          LeadsStill(n, begin2, f, a + shift + 1);
          f := a + shift + 1;
        } else {
          var b := Value(n, begin2);
          LeadsFrom(m, begin1, f - shift, b - shift);
          LeadsFrom(n, begin2, f, b);
          StepLeads(n, begin2);
          if filled {
            builder.PushIndex(b);
          }
          OpenAdds(rs, ps, filled, was, builder.Built(), f, b);
          LeadsStill(m, begin1, f - shift, b - shift);
          shift := shift + 1;
          begin2 := Step(n, begin2);
          f := b + 1;
        }
      }
    }

    /** Push the members that are left, moved up, when no more new indices come before them. */
    static method MoveRest(
        m: seq<Chunk>, begin: IndexPos, ghost ps: seq<Range>, ghost filled: bool, builder: ChunkedRangeVectorBuilder,
        ghost from: nat, shift: nat)
      returns (ghost f: nat)
      requires NoEmpty(m) && Canonical(Flat(m)) && Sorted(ps)
      requires builder.Valid() && builder.Counted() && Canonical(builder.Built()) && EndBy(builder.Built(), from)
      requires OpenedUpTo(Flat(m), ps, filled, builder.Built(), from) && shift == Below(ps, from) <= from
      requires Leads(m, begin, from - shift) && 0 <= RangesAhead(m, begin) && 0 <= IndicesAhead(m, begin)
      requires AtEnd(m, begin.at) || NoneFrom(ps, from)
      modifies builder
      ensures builder.Valid() && builder.Counted() && Canonical(builder.Built()) && EndBy(builder.Built(), f)
      ensures OpenedUpTo(Flat(m), ps, filled, builder.Built(), f) && shift == Below(ps, f) <= f
      ensures NoneFrom(Flat(m), f - shift)
      ensures if AtEnd(m, begin.at) then f == from else from <= f && NoneFrom(ps, f)
    {
      hide Flat, Has, Canonical, Sorted, Index, Cached, NoEmpty, Below, OneMore, OpenedBySet, OpenedUpTo;
      f := from;
      var it := begin;
      while !SamePlace(it, IndexPos(End(m), 0))
        invariant builder.Valid() && builder.Counted() && Canonical(builder.Built()) && EndBy(builder.Built(), f)
        invariant OpenedUpTo(Flat(m), ps, filled, builder.Built(), f) && shift == Below(ps, f) <= f
        invariant Leads(m, it, f - shift) && 0 <= RangesAhead(m, it) && 0 <= IndicesAhead(m, it)
        invariant if AtEnd(m, begin.at) then it == begin && f == from else from <= f && NoneFrom(ps, f)
        decreases RangesAhead(m, it), IndicesAhead(m, it)
      {
        ghost var was := builder.Built();
        var a := Value(m, it);
        StepLeads(m, it);
        LeadsFrom(m, it, f - shift, a);
        builder.PushIndex(a + shift);
        OpenKeeps(Flat(m), ps, filled, was, builder.Built(), f, a);
        it := Step(m, it);
        f := a + shift + 1;
      }
    }

    /** Push the new members that are left when there are no members any more that would move. */
    static method AddRest(
        n: seq<Chunk>, begin: IndexPos, ghost rs: seq<Range>, builder: ChunkedRangeVectorBuilder, ghost from: nat)
      returns (ghost f: nat)
      requires NoEmpty(n) && Canonical(Flat(n)) && Sorted(Flat(n))
      requires builder.Valid() && builder.Counted() && Canonical(builder.Built()) && EndBy(builder.Built(), from)
      requires OpenedUpTo(rs, Flat(n), true, builder.Built(), from) && Below(Flat(n), from) <= from
      requires NoneFrom(rs, from - Below(Flat(n), from))
      requires if AtEnd(n, begin.at) then NoneFrom(Flat(n), from)
               else Leads(n, begin, from) && 0 <= RangesAhead(n, begin) && 0 <= IndicesAhead(n, begin)
      modifies builder
      ensures builder.Valid() && builder.Counted() && Canonical(builder.Built())
      ensures OpenedUpTo(rs, Flat(n), true, builder.Built(), f) && Below(Flat(n), f) <= f
      ensures NoneFrom(Flat(n), f) && NoneFrom(rs, f - Below(Flat(n), f))
    {
      hide Flat, Has, Canonical, Sorted, Index, Cached, NoEmpty, Below, OneMore, OpenedBySet, OpenedUpTo;
      f := from;
      var it := begin;
      while !SamePlace(it, IndexPos(End(n), 0))
        invariant builder.Valid() && builder.Counted() && Canonical(builder.Built()) && EndBy(builder.Built(), f)
        invariant OpenedUpTo(rs, Flat(n), true, builder.Built(), f) && Below(Flat(n), f) <= f
        invariant NoneFrom(rs, f - Below(Flat(n), f))
        invariant if AtEnd(n, it.at) then NoneFrom(Flat(n), f)
                  else Leads(n, it, f) && 0 <= RangesAhead(n, it) && 0 <= IndicesAhead(n, it)
        decreases RangesAhead(n, it), IndicesAhead(n, it)
      {
        ghost var was := builder.Built();
        var b := Value(n, it);
        StepLeads(n, it);
        LeadsFrom(n, it, f, b);
        builder.PushIndex(b);
        OpenAdds(rs, Flat(n), true, was, builder.Built(), f, b);
        it := Step(n, it);
        f := b + 1;
      }
    }

    /** Delete the members of another set as indices, moving the members after each down. */
    method EraseAtAll(positions: IndexSet)
      requires Valid() && positions.Valid()
      modifies ranges
      ensures Valid() && Sorted(old(positions.Spans())) && ClosedBySet(old(Spans()), old(positions.Spans()), Spans())
    {
      hide Flat, Has, Canonical, Sorted, Index, Cached, NoEmpty, Below, OneMore, ClosedBySet, ClosedUpTo, NoneFrom,
          NoneIn;
      ghost var rs, ps := Spans(), positions.Spans();
      CanonicalSorted(ps);
      CloseTrivially(rs, ps);
      FlatEmpty(ranges.data, ranges.maxSize);
      FlatEmpty(positions.ranges.data, positions.ranges.maxSize);
      if ranges.data == [] || positions.ranges.data == [] {
        return;
      }
      var m, n := ranges.data, positions.ranges.data;
      CachedNoEmpty(m, ranges.maxSize);
      CachedNoEmpty(n, positions.ranges.maxSize);
      var builder := new ChunkedRangeVectorBuilder(m, ranges.maxSize);
      var begin1, begin2, shift;
      ghost var g;
      begin1, begin2, shift, g := Separate(m, n, builder);
      g := CloseRest(m, begin1, ps, builder, g, shift);
      CloseEnds(rs, ps, builder.Built(), g);
      ranges.data := builder.Finalize();
    }

    /** Push the members of `m` that are not members of `n`, moved down, until one side ends. */
    static method Separate(m: seq<Chunk>, n: seq<Chunk>, builder: ChunkedRangeVectorBuilder)
      returns (begin1: IndexPos, begin2: IndexPos, shift: nat, ghost g: nat)
      requires NoEmpty(m) && NoEmpty(n) && Canonical(Flat(m)) && Canonical(Flat(n)) && Sorted(Flat(n))
      requires builder.Valid() && builder.Counted() && builder.Built() == []
      modifies builder
      ensures shift == Below(Flat(n), g) <= g
      ensures builder.Valid() && builder.Counted() && Canonical(builder.Built()) && EndBy(builder.Built(), g - shift)
      ensures ClosedUpTo(Flat(m), Flat(n), builder.Built(), g - shift)
      ensures Leads(m, begin1, g) && 0 <= RangesAhead(m, begin1) && 0 <= IndicesAhead(m, begin1)
      ensures AtEnd(m, begin1.at) || NoneFrom(Flat(n), g)
    {
      hide Flat, Has, Canonical, Sorted, Index, Cached, NoEmpty, Below, OneMore, ClosedBySet, ClosedUpTo, NoneIn,
          NoneFrom;
      ghost var rs, ps := Flat(m), Flat(n);
      FirstLeads(m);
      FirstLeads(n);
      CloseTrivially(rs, ps);
      begin1, begin2 := FirstIndex(m), FirstIndex(n);
      g := 0;
      shift := 0;
      while !SamePlace(begin1, IndexPos(End(m), 0)) && !SamePlace(begin2, IndexPos(End(n), 0))
        invariant shift == Below(ps, g) <= g
        invariant builder.Valid() && builder.Counted() && Canonical(builder.Built())
        invariant EndBy(builder.Built(), g - shift)
        invariant ClosedUpTo(rs, ps, builder.Built(), g - shift)
        invariant Leads(m, begin1, g) && 0 <= RangesAhead(m, begin1) && 0 <= IndicesAhead(m, begin1)
        invariant Leads(n, begin2, g) && 0 <= RangesAhead(n, begin2) && 0 <= IndicesAhead(n, begin2)
        decreases RangesAhead(m, begin1), IndicesAhead(m, begin1), RangesAhead(n, begin2), IndicesAhead(n, begin2)
      {
        ghost var was := builder.Built();
        var a, b := Value(m, begin1), Value(n, begin2);
        StepLeads(m, begin1);
        StepLeads(n, begin2);
        BelowBounds(ps, g);
        if a < b {
          LeadsFrom(m, begin1, g, a);
          LeadsFrom(n, begin2, g, a + 1);
          builder.PushIndex(a - shift);
          CloseKeeps(rs, ps, was, builder.Built(), g, a);
          LeadsStill(n, begin2, g, a + 1);
          begin1 := Step(m, begin1);
          g := a + 1;
        } else {
          LeadsFrom(m, begin1, g, b);
          LeadsFrom(n, begin2, g, b);
          CloseDrops(rs, ps, was, g, b);
          if a == b {
            shift := shift + 1;
            begin1 := Step(m, begin1);
            begin2 := Step(n, begin2);
          } else {
            LeadsStill(m, begin1, g, b + 1);
            shift := shift + 1;
            begin2 := Step(n, begin2);
          }
          g := b + 1;
        }
      }
    }

    /** Push the members that are left, moved down, when no more deleted indices come. */
    static method CloseRest(
        m: seq<Chunk>, begin: IndexPos, ghost ps: seq<Range>, builder: ChunkedRangeVectorBuilder, ghost from: nat,
        shift: nat)
      returns (ghost g: nat)
      requires NoEmpty(m) && Canonical(Flat(m)) && Canonical(ps) && Sorted(ps) && shift == Below(ps, from) <= from
      requires builder.Valid() && builder.Counted() && Canonical(builder.Built())
      requires EndBy(builder.Built(), from - shift)
      requires ClosedUpTo(Flat(m), ps, builder.Built(), from - shift)
      requires Leads(m, begin, from) && 0 <= RangesAhead(m, begin) && 0 <= IndicesAhead(m, begin)
      requires AtEnd(m, begin.at) || NoneFrom(ps, from)
      modifies builder
      ensures builder.Valid() && builder.Counted() && Canonical(builder.Built())
      ensures ClosedUpTo(Flat(m), ps, builder.Built(), g - Below(ps, g)) && NoneFrom(Flat(m), g)
    {
      hide Flat, Has, Canonical, Sorted, Index, Cached, NoEmpty, Below, OneMore, ClosedBySet, ClosedUpTo;
      g := from;
      var it := begin;
      while !SamePlace(it, IndexPos(End(m), 0))
        invariant shift == Below(ps, g) <= g
        invariant builder.Valid() && builder.Counted() && Canonical(builder.Built())
        invariant EndBy(builder.Built(), g - shift)
        invariant ClosedUpTo(Flat(m), ps, builder.Built(), g - shift)
        invariant Leads(m, it, g) && 0 <= RangesAhead(m, it) && 0 <= IndicesAhead(m, it)
        invariant AtEnd(m, it.at) || NoneFrom(ps, g)
        decreases RangesAhead(m, it), IndicesAhead(m, it)
      {
        ghost var was := builder.Built();
        var a := Value(m, it);
        StepLeads(m, it);
        LeadsFrom(m, it, g, a);
        builder.PushIndex(a - shift);
        CloseKeeps(Flat(m), ps, was, builder.Built(), g, a);
        it := Step(m, it);
        g := a + 1;
      }
    }

    /**
     * Add the values, given as indices with the members of `shiftedBy` inserted and those of this
     * set not yet. The members are always right. A cached count is wrong exactly if some chunk of
     * the result, beyond those planned for the old ranges, starts with a copied range of several
     * indices; the three sets tell before the call.
     */
    method AddShiftedBy(shiftedBy: IndexSet, values: IndexSet)
      requires Valid() && shiftedBy.Valid() && values.Valid()
      modifies ranges
      ensures Canonical(Spans()) && Sorted(old(shiftedBy.Spans()))
      ensures GainedBy(old(Spans()), old(shiftedBy.Spans()), old(values.Spans()), Spans())
      ensures ranges.Laid() <==>
                CountsStayRight(old(Spans()), old(shiftedBy.Spans()), old(values.Spans()), ranges.maxSize)
    {
      hide Flat, Has, Canonical, Sorted, Index, Cached, NoEmpty, Below, OneMore, GainedBy, GainedUpTo, Gained, Frontier,
          NoneFrom, NoneIn, ShiftTo, EndsGained, Miscounted, Copied, StartOf, Stands, Unshift, Lack, CountsStayRight;
      ghost var rs, bs, vs := Spans(), shiftedBy.Spans(), values.Spans();
      CanonicalSorted(rs);
      CanonicalSorted(bs);
      GainBegins(rs, bs, vs);
      FlatEmpty(values.ranges.data, values.ranges.maxSize);
      if values.ranges.data == [] {
        NothingMiscounted(rs, ranges.maxSize);
        CountsStayRightFor(rs, bs, vs, ranges.maxSize, rs);
        return;
      }
      CachedNoEmpty(ranges.data, ranges.maxSize);
      CachedNoEmpty(shiftedBy.ranges.data, shiftedBy.ranges.maxSize);
      CachedNoEmpty(values.ranges.data, values.ranges.maxSize);
      var builder := new ChunkedRangeVectorBuilder(ranges.data, ranges.maxSize);
      var oldIt;
      ghost var k, f;
      oldIt, k, f := PlaceValues(ranges.data, shiftedBy.ranges.data, values.ranges.data, builder);
      ghost var was, outer0, f0 := builder.Built(), builder.outer, f;
      CopyStarts(was, builder.data, builder.maxSize, builder.planned, builder.outer, f);
      BuiltSize(builder);
      f := CopyRest(ranges.data, oldIt, k, bs, vs, builder, f);
      GainedAll(rs, bs, vs, builder.Built(), f);
      BuiltSize(builder);
      CopiedExactly(rs, bs, vs, was, builder.Built(), builder.data, builder.maxSize, outer0, builder.outer, f0);
      CountsStayRightFor(rs, bs, vs, builder.maxSize, builder.Built());
      ranges.data := builder.Finalize();
    }

    /** Push the places where the values land, and before each the old ranges that come before it. */
    static method PlaceValues(m: seq<Chunk>, shifts: seq<Chunk>, values: seq<Chunk>, builder: ChunkedRangeVectorBuilder)
      returns (oldIt: Pos, ghost k: nat, ghost f: nat)
      requires NoEmpty(m) && NoEmpty(shifts) && NoEmpty(values) && Canonical(Flat(m)) && Canonical(Flat(shifts))
      requires Canonical(Flat(values))
      requires Sorted(Flat(m)) && Sorted(Flat(shifts))
      requires builder.Valid() && builder.Counted() && builder.Built() == []
      modifies builder
      ensures builder.Valid() && builder.Counted() && Canonical(builder.Built()) && EndBy(builder.Built(), f)
      ensures GainedUpTo(Flat(m), Flat(shifts), Flat(values), builder.Built(), f)
      ensures forall y: nat | f <= y :: !Gained(Flat(m), Flat(shifts), Flat(values), y)
      ensures ValidPos(m, oldIt) && k == Index(m, oldIt) <= |Flat(m)| && Stands(Flat(m), k, f)
      ensures EndsGained(Flat(m), Flat(shifts), Flat(values), builder.Built())
    {
      hide Flat, Has, Canonical, Sorted, Index, Cached, NoEmpty, Below, OneMore, GainedUpTo, Gained, Frontier, NoneFrom,
          NoneIn, ShiftTo, Unshift, TotalUpTo, PushedOver, Stands;
      ghost var rs, bs, vs := Flat(m), Flat(shifts), Flat(values);
      GainBegins(rs, bs, vs);
      FirstLeads(values);
      FirstIndexIsNone(m);
      FirstIndexIsNone(shifts);
      var shiftIt := Begin(shifts);
      var ip := FirstIndex(values);
      oldIt, k, f := Begin(m), 0, 0;
      ghost var j: nat, lo: nat, w: nat := 0, 0, 0;
      var skipUntil, oldShift, newShift := 0, 0, 0;
      NothingPushed(rs, bs);
      while !SamePlace(ip, IndexPos(End(values), 0))
        invariant builder.Valid() && builder.Counted() && Canonical(builder.Built()) && EndBy(builder.Built(), f)
        invariant GainedUpTo(rs, bs, vs, builder.Built(), f) && Frontier(rs, bs, vs, f, lo)
        invariant EndsGained(rs, bs, vs, builder.Built())
        invariant ValidPos(m, oldIt) && k == Index(m, oldIt) <= |rs| && Stands(rs, k, f) && PushedOver(rs, k, w)
        invariant oldShift == TotalUpTo(rs, k)
        invariant ValidPos(shifts, shiftIt) && j == Index(shifts, shiftIt) <= |bs| && newShift == TotalUpTo(bs, j)
        invariant w <= Unshift(bs, lo)
        invariant skipUntil == (if j == 0 then 0 else bs[j - 1].second) && (j > 0 ==> bs[j - 1].first <= lo)
        invariant Leads(values, ip, lo) && 0 <= RangesAhead(values, ip) && 0 <= IndicesAhead(values, ip)
        decreases RangesAhead(values, ip), IndicesAhead(values, ip)
      {
        var index := Value(values, ip);
        LeadsFrom(values, ip, lo, index);
        StepLeads(values, ip);
        UnshiftMonotone(bs, lo, index);
        UnshiftMonotone(bs, index, index + 1);
        shiftIt, j, skipUntil, newShift := PassShifts(shifts, shiftIt, j, index, skipUntil, newShift);
        PassedShifts(bs, j, index, skipUntil);
        if index < skipUntil {
          GainSkips(rs, bs, vs, f, lo, index);
        } else {
          oldIt, k, oldShift, f := PlaceOne(m, oldIt, k, bs, vs, builder, index, lo, w, index - newShift, oldShift, f);
          w := index - newShift;
        }
        lo := index + 1;
        ip := Step(values, ip);
      }
      GainEnds(rs, bs, vs, f, lo);
    }

    /** Push the place where one value lands, and before it the old ranges that come before it. */
    static method PlaceOne(
        m: seq<Chunk>, from: Pos, ghost start: nat, ghost bs: seq<Range>, ghost vs: seq<Range>,
        builder: ChunkedRangeVectorBuilder, ghost v: nat, ghost lo: nat, ghost w: nat, index: nat, shifted: int,
        ghost begin: nat)
      returns (oldIt: Pos, ghost k: nat, oldShift: int, ghost f: nat)
      requires NoEmpty(m) && Canonical(Flat(m)) && Sorted(Flat(m)) && Canonical(bs) && Sorted(bs) && ValidPos(m, from)
      requires start == Index(m, from) <= |Flat(m)|
      requires builder.Valid() && builder.Counted() && Canonical(builder.Built()) && EndBy(builder.Built(), begin)
      requires GainedUpTo(Flat(m), bs, vs, builder.Built(), begin) && Stands(Flat(m), start, begin)
      requires Frontier(Flat(m), bs, vs, begin, lo)
      requires lo <= v && NoneIn(vs, lo, v) && !Has(bs, v) && Has(vs, v) && Unshift(bs, v) == index
      requires PushedOver(Flat(m), start, w) && w <= index && shifted == TotalUpTo(Flat(m), start)
      modifies builder
      ensures builder.Valid() && builder.Counted() && Canonical(builder.Built()) && EndBy(builder.Built(), f)
      ensures GainedUpTo(Flat(m), bs, vs, builder.Built(), f) && Frontier(Flat(m), bs, vs, f, v + 1)
      ensures EndsGained(Flat(m), bs, vs, builder.Built())
      ensures ValidPos(m, oldIt) && k == Index(m, oldIt) <= |Flat(m)| && Stands(Flat(m), k, f)
      ensures PushedOver(Flat(m), k, index)
      ensures oldShift == TotalUpTo(Flat(m), k)
    {
      hide Flat, Has, Canonical, Sorted, Index, NoEmpty, OneMore, GainedUpTo, Gained, Frontier, NoneFrom, NoneIn,
          ShiftTo, Unshift, TotalUpTo, PushedOver, Stands;
      ghost var rs := Flat(m);
      GainNext(rs, bs, vs, begin, lo, v);
      PushedOverMore(rs, start, w, index);
      oldIt, k, oldShift, f := PushBefore(m, from, start, bs, vs, builder, index, shifted, begin);
      ghost var t := index + oldShift;
      ghost var was := builder.Built();
      StandsUntil(rs, k, f, t);
      builder.PushIndex(index + oldShift);
      GainPushes(rs, bs, vs, was, builder.Built(), f, t);
      OneMoreOf(was, builder.Built(), t);
      EndsWith(builder.Built(), t);
      f := t + 1;
    }

    /** Go past the ranges that start by the index, adding up their sizes. */
    static method PassShifts(shifts: seq<Chunk>, from: Pos, ghost j: nat, index: nat, skipped: nat, shifted: int)
      returns (shiftIt: Pos, ghost k: nat, skipUntil: nat, newShift: int)
      requires NoEmpty(shifts) && Canonical(Flat(shifts)) && ValidPos(shifts, from)
      requires j == Index(shifts, from) <= |Flat(shifts)|
      requires shifted == TotalUpTo(Flat(shifts), j)
      requires skipped == (if j == 0 then 0 else Flat(shifts)[j - 1].second)
      requires j > 0 ==> Flat(shifts)[j - 1].first <= index
      ensures ValidPos(shifts, shiftIt) && k == Index(shifts, shiftIt) <= |Flat(shifts)|
      ensures newShift == TotalUpTo(Flat(shifts), k)
      ensures skipUntil == (if k == 0 then 0 else Flat(shifts)[k - 1].second)
      ensures k > 0 ==> Flat(shifts)[k - 1].first <= index
      ensures k < |Flat(shifts)| ==> index < Flat(shifts)[k].first
    {
      hide Flat, Canonical, Index, NoEmpty, TotalUpTo;
      ghost var bs := Flat(shifts);
      shiftIt, k, skipUntil, newShift := from, j, skipped, shifted;
      IndexAt(shifts, shiftIt);
      while shiftIt != End(shifts) && At(shifts, shiftIt).first <= index
        invariant ValidPos(shifts, shiftIt) && k == Index(shifts, shiftIt) <= |bs|
        invariant shiftIt == End(shifts) <==> k == |bs|
        invariant shiftIt != End(shifts) ==> bs[k] == At(shifts, shiftIt)
        invariant newShift == TotalUpTo(bs, k)
        invariant skipUntil == (if k == 0 then 0 else bs[k - 1].second) && (k > 0 ==> bs[k - 1].first <= index)
        decreases |bs| - k
      {
        TotalUpToNext(bs, k);
        newShift := newShift + At(shifts, shiftIt).Len();
        skipUntil := At(shifts, shiftIt).second;
        IndexNext(shifts, shiftIt);
        shiftIt := Next(shifts, shiftIt);
        k := k + 1;
        IndexAt(shifts, shiftIt);
      }
    }

    /** Push the old ranges that come before where an index lands. */
    static method PushBefore(
        m: seq<Chunk>, from: Pos, ghost start: nat, ghost bs: seq<Range>, ghost vs: seq<Range>,
        builder: ChunkedRangeVectorBuilder, index: nat, shifted: int, ghost begin: nat)
      returns (oldIt: Pos, ghost k: nat, oldShift: int, ghost f: nat)
      requires NoEmpty(m) && Canonical(Flat(m)) && Sorted(Flat(m)) && Sorted(bs) && ValidPos(m, from)
      requires start == Index(m, from) <= |Flat(m)|
      requires builder.Valid() && builder.Counted() && Canonical(builder.Built()) && EndBy(builder.Built(), begin)
      requires GainedUpTo(Flat(m), bs, vs, builder.Built(), begin) && Stands(Flat(m), start, begin)
      requires PushedOver(Flat(m), start, index) && shifted == TotalUpTo(Flat(m), start)
      requires begin <= ShiftTo(Flat(m), index)
      requires forall y: nat | begin <= y < ShiftTo(Flat(m), index) :: !Gained(Flat(m), bs, vs, y)
      modifies builder
      ensures builder.Valid() && builder.Counted() && Canonical(builder.Built()) && EndBy(builder.Built(), f)
      ensures GainedUpTo(Flat(m), bs, vs, builder.Built(), f)
      ensures begin <= f <= ShiftTo(Flat(m), index) == index + oldShift
      ensures ValidPos(m, oldIt) && k == Index(m, oldIt) <= |Flat(m)| && Stands(Flat(m), k, f)
      ensures PushedOver(Flat(m), k, index)
      ensures oldShift == TotalUpTo(Flat(m), k) && (k < |Flat(m)| ==> index + oldShift + 1 <= Flat(m)[k].first)
    {
      hide Flat, Has, Canonical, Sorted, Index, NoEmpty, OneMore, GainedUpTo, Gained, NoneFrom, NoneIn, ShiftTo,
          TotalUpTo, PushedOver, Stands;
      ghost var rs := Flat(m);
      oldIt, k, oldShift, f := from, start, shifted, begin;
      IndexAt(m, oldIt);
      while oldIt != End(m) && At(m, oldIt).first <= index + oldShift
        invariant builder.Valid() && builder.Counted() && Canonical(builder.Built()) && EndBy(builder.Built(), f)
        invariant GainedUpTo(rs, bs, vs, builder.Built(), f) && begin <= f <= ShiftTo(rs, index)
        invariant ValidPos(m, oldIt) && k == Index(m, oldIt) <= |rs| && (oldIt == End(m) <==> k == |rs|)
        invariant oldIt != End(m) ==> rs[k] == At(m, oldIt)
        invariant Stands(rs, k, f) && PushedOver(rs, k, index) && oldShift == TotalUpTo(rs, k)
        decreases |rs| - k
      {
        ghost var was := builder.Built();
        StandsStart(rs, k, f);
        PushedOverBehind(rs, k, index);
        PushedOverNext(rs, k, index);
        PushEach(builder, At(m, oldIt));
        GainPushesRange(rs, bs, vs, was, builder.Built(), f, k);
        oldShift := oldShift + At(m, oldIt).Len();
        f := At(m, oldIt).second;
        IndexNext(m, oldIt);
        oldIt := Next(m, oldIt);
        k := k + 1;
        IndexAt(m, oldIt);
      }
      PushedIsThere(rs, k, index);
      PushedOverLands(rs, k, index);
    }

    /** Push the indices of a range one by one. */
    static method PushEach(builder: ChunkedRangeVectorBuilder, range: Range)
      requires builder.Valid() && builder.Counted() && Canonical(builder.Built()) && EndBy(builder.Built(), range.first)
      requires range.first < range.second
      modifies builder
      ensures builder.Valid() && builder.Counted() && Canonical(builder.Built()) && EndBy(builder.Built(), range.second)
      ensures forall y: nat :: Has(builder.Built(), y) <==>
                Has(old(builder.Built()), y) || range.first <= y < range.second
    {
      hide Flat, Has, Canonical;
      for i := range.first to range.second
        invariant builder.Valid() && builder.Counted() && Canonical(builder.Built()) && EndBy(builder.Built(), i)
        invariant forall y: nat :: Has(builder.Built(), y) <==> Has(old(builder.Built()), y) || range.first <= y < i
      {
        builder.PushIndex(i);
      }
    }

    /** Push the old ranges that are left as whole ranges. */
    static method CopyRest(
        m: seq<Chunk>, from: Pos, ghost start: nat, ghost bs: seq<Range>, ghost vs: seq<Range>,
        builder: ChunkedRangeVectorBuilder, ghost begin: nat)
      returns (ghost f: nat)
      requires NoEmpty(m) && Canonical(Flat(m)) && Sorted(bs) && ValidPos(m, from)
      requires start == Index(m, from) <= |Flat(m)| && Stands(Flat(m), start, begin)
      requires builder.Valid() && builder.Counted() && Canonical(builder.Built()) && EndBy(builder.Built(), begin)
      requires GainedUpTo(Flat(m), bs, vs, builder.Built(), begin)
      requires forall y: nat | begin <= y :: !Gained(Flat(m), bs, vs, y)
      modifies builder
      ensures builder.Valid() && Canonical(builder.Built()) && NoneFrom(Flat(m), f) && begin <= f
      ensures GainedUpTo(Flat(m), bs, vs, builder.Built(), f)
      ensures Copied(old(builder.Built()), builder.Built(), builder.data, builder.maxSize, builder.planned,
                old(builder.outer), builder.outer, begin)
    {
      hide Flat, Has, Canonical, Sorted, Index, NoEmpty, OneMore, GainedUpTo, Gained, NoneFrom, NoneIn, Stands, Copied,
          Lack;
      ghost var rs, was, outer0 := Flat(m), builder.Built(), builder.outer;
      ghost var k := start;
      var it := from;
      f := begin;
      CopyStarts(was, builder.data, builder.maxSize, builder.planned, builder.outer, f);
      IndexAt(m, it);
      while it != End(m)
        invariant builder.Valid() && Canonical(builder.Built()) && EndBy(builder.Built(), f) && begin <= f
        invariant GainedUpTo(rs, bs, vs, builder.Built(), f)
        invariant Copied(was, builder.Built(), builder.data, builder.maxSize, builder.planned, outer0, builder.outer,
                    begin)
        invariant ValidPos(m, it) && k == Index(m, it) <= |rs| && (it == End(m) <==> k == |rs|)
        invariant (it != End(m) ==> rs[k] == At(m, it)) && Stands(rs, k, f)
        invariant builder.outer == outer0 || (builder.Built() != []
                    && (k < |rs| ==> builder.Built()[|builder.Built()| - 1].second < rs[k].first))
        decreases |rs| - k
      {
        StandsStart(rs, k, f);
        ghost var s := builder.Built();
        CopyOne(builder, At(m, it), was, outer0, begin);
        GainPushesRange(rs, bs, vs, s, builder.Built(), f, k);
        f := At(m, it).second;
        if k + 1 < |rs| {
          CanonicalPair(rs, k, k + 1);
        }
        IndexNext(m, it);
        it := Next(m, it);
        k := k + 1;
        IndexAt(m, it);
      }
      StandsNone(rs, k, f);
    }

    /** Push one old range as a whole. */
    static method CopyOne(
        builder: ChunkedRangeVectorBuilder, range: Range, ghost was: seq<Range>, ghost outer0: nat, ghost begin: nat)
      requires builder.Valid() && Canonical(builder.Built()) && EndBy(builder.Built(), range.first)
      requires begin <= range.first < range.second
      requires Copied(was, builder.Built(), builder.data, builder.maxSize, builder.planned, outer0, builder.outer,
                 begin)
      requires builder.outer == outer0 || (builder.Built() != []
                 && builder.Built()[|builder.Built()| - 1].second < range.first)
      modifies builder
      ensures builder.Valid() && Canonical(builder.Built()) && EndBy(builder.Built(), range.second)
      ensures forall y: nat :: Has(builder.Built(), y) <==>
                Has(old(builder.Built()), y) || range.first <= y < range.second
      ensures Copied(was, builder.Built(), builder.data, builder.maxSize, builder.planned, outer0, builder.outer, begin)
      ensures builder.outer == outer0 || (builder.Built() != []
                && builder.Built()[|builder.Built()| - 1].second == range.second)
    {
      hide Flat, Has, Canonical, Lack, StartOf;
      ghost var s, d, o := builder.Built(), builder.data, builder.outer;
      JoinedSpec(s, range);
      BuiltSize(builder);
      StartsBelow(builder);
      builder.PushRange(range);
      BuiltSize(builder);
      CopyNext(was, s, builder.Built(), d, builder.data, builder.maxSize, builder.planned, outer0, o, builder.outer,
        begin, range);
    }
  }
}
