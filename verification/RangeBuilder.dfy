/** Builds the chunks of a range vector from its end, joining what is pushed to the last range. */
module RangeBuilder {
  import opened Ranges
  import opened Chunks
  import opened RangeEdits

  /** The ranges after one is pushed behind them. */
  function Joined(rs: seq<Range>, r: Range): seq<Range> {
    if rs != [] && rs[|rs| - 1].second == r.first
    then rs[|rs| - 1 := Range(rs[|rs| - 1].first, r.second)]
    else rs + [r]
  }

  /** By how much the cached count of a chunk falls short. */
  function Lack(c: Chunk): int {
    Total(c.data) - c.count
  }

  /** All ranges end by `x`. */
  predicate EndBy(rs: seq<Range>, x: nat) {
    rs == [] || rs[|rs| - 1].second <= x
  }

  ghost predicate FullChunk(c: Chunk, max: nat) {
    0 < |c.data| == max && c.begin == c.data[0].first && c.end == c.data[max - 1].second
  }

  class ChunkedRangeVectorBuilder {
    const maxSize: nat
    const planned: nat
    var data: seq<Chunk>
    var outer: nat

    /** Make room for as many ranges as there are in some chunks. */
    constructor (expected: seq<Chunk>, maxSize: nat)
      requires maxSize > 0
      ensures this.maxSize == maxSize && planned == |Flat(expected)| / maxSize + 1
      ensures Valid() && Counted() && Built() == []
    {
      var size := 0;
      for i := 0 to |expected|
        invariant size == |Flat(expected[..i])|
      {
        FlatPrefix(expected, i);
        size := size + |expected[i].data|;
      }
      assert expected[..|expected|] == expected;
      this.maxSize := maxSize;
      planned := size / maxSize + 1;
      data := seq(size / maxSize + 1, _ => Chunk([], 0, 0, 0));
      outer := 0;
      new;
      assert data[..1] == [Chunk([], 0, 0, 0)];
      FlatOne(Chunk([], 0, 0, 0));
    }

    ghost predicate Valid()
      reads this
    {
      && 0 < maxSize && outer < |data| && |data| == (if outer < planned then planned else outer + 1)
      && (forall i | 0 <= i < outer :: FullChunk(data[i], maxSize))
      && (forall i | outer < i < |data| :: data[i].data == [])
      && (outer > 0 ==> data[outer].data != [])
      && |data[outer].data| <= maxSize
      && (data[outer].data != [] ==> data[outer].begin == data[outer].data[0].first)
      && (data[outer].data == [] ==> data[outer].count == 0)
    }

    /** The ranges so far. */
    ghost function Built(): seq<Range>
      reads this
      requires Valid()
    {
      Flat(data[..outer + 1])
    }

    /** All counts are right. */
    ghost predicate Counted()
      reads this
      requires Valid()
    {
      forall i | 0 <= i <= outer :: Lack(data[i]) == 0
    }

    /** Push one index. */
    method PushIndex(index: nat)
      requires Valid() && Canonical(Built()) && EndBy(Built(), index)
      modifies this
      ensures Valid() && Canonical(Built()) && OneMore(old(Built()), Built(), index) && EndBy(Built(), index + 1)
      ensures old(Counted()) ==> Counted()
    {
      JoinedSpec(Built(), Range(index, index + 1));
      ghost var was := Built();
      PushRange(Range(index, index + 1));
      JoinedOne(was, Built(), index);
    }

    /**
     * Push a range. The counts of the chunks keep falling short by what they did before. A chunk
     * that is started beyond the planned ones always counts its first range as a single index.
     */
    method PushRange(range: Range)
      requires Valid()
      modifies this
      ensures Valid() && Built() == Joined(old(Built()), range)
      ensures outer == old(outer) || (outer == old(outer) + 1 && data[outer].data == [range])
      ensures |Built()| == |old(Built())| ==> outer == old(outer)
      ensures forall i | 0 <= i <= old(outer) :: Lack(data[i]) == old(Lack(data[i]))
      ensures outer > old(outer) ==> Lack(data[outer]) == if outer < planned then 0 else range.Len() - 1
    {
      hide Flat, Total;
      var chunk := data[outer];
      BuiltParts(data, outer);
      ghost var n := |chunk.data|;
      if chunk.data == [] {
        TotalOne(range);
        TotalNone();
        Replace(Chunk([range], range.first, chunk.end, range.Len()));
      } else if range.first == chunk.data[|chunk.data| - 1].second {
        ghost var last := chunk.data[n - 1];
        TotalUpdate(chunk.data, n - 1, Range(last.first, range.second));
        Replace(Chunk(chunk.data[|chunk.data| - 1 := Range(chunk.data[|chunk.data| - 1].first, range.second)],
          chunk.begin, chunk.end, chunk.count + range.Len()));
      } else if |chunk.data| < maxSize {
        TotalOne(range);
        TotalConcat(chunk.data, [range]);
        Replace(Chunk(chunk.data + [range], chunk.begin, chunk.end, chunk.count + range.Len()));
      } else {
        StartChunk(range);
      }
    }

    /** Replace the current chunk. */
    method Replace(c: Chunk)
      requires Valid() && c.data != [] && |c.data| <= maxSize && c.begin == c.data[0].first
      modifies this
      ensures Valid() && outer == old(outer) && data == old(data)[outer := c]
      ensures Built() == Flat(old(data)[..outer]) + c.data
    {
      ghost var was := data;
      data := data[outer := c];
      assert data[..outer] == was[..outer];
      BuiltParts(data, outer);
    }

    /** Close the current chunk, which is full, and start the next one. */
    method StartChunk(range: Range)
      requires Valid() && |data[outer].data| == maxSize && data[outer].data[maxSize - 1].second != range.first
      modifies this
      ensures Valid() && Built() == Joined(old(Built()), range)
      ensures outer == old(outer) + 1 && data[outer].data == [range]
      ensures forall i | 0 <= i < outer :: Lack(data[i]) == old(Lack(data[i]))
      ensures Lack(data[outer]) == if outer < planned then 0 else range.Len() - 1
    {
      hide Flat, Total, Joined;
      TotalOne(range);
      ghost var was := data;
      data := data[outer := data[outer].(end := data[outer].data[|data[outer].data| - 1].second)];
      outer := outer + 1;
      if outer >= |data| {
        data := data + [Chunk([range], range.first, 0, 1)];
      } else {
        data := data[outer := Chunk([range], range.first, data[outer].end, range.Len())];
      }
      StartedBuilt(was, data, outer, range);
    }

    /**
     * The finished chunks. They are laid out as a range vector wants them, except for the counts
     * that fall short.
     */
    method Finalize() returns (chunks: seq<Chunk>)
      requires Valid()
      ensures Flat(chunks) == Built() && |chunks| == if Built() == [] then 0 else outer + 1
      ensures forall i | 0 <= i < |chunks| :: Lack(chunks[i]) == Lack(data[i])
      ensures forall i | 0 <= i < |chunks| - 1 :: |chunks[i].data| == maxSize
      ensures Cached(chunks, maxSize) <==> forall i | 0 <= i <= outer :: Lack(data[i]) == 0
    {
      hide Flat, Total, Lack, Cached, FullChunk;
      BuiltParts(data, outer);
      chunks := data[..outer + 1];
      var last := chunks[|chunks| - 1];
      if last.data == [] {
        chunks := chunks[..|chunks| - 1];
        assert chunks == [];
        CachedNone(maxSize);
        LackNone(last);
      } else {
        FinishedLayout(data, outer, maxSize);
        chunks := chunks[|chunks| - 1 := last.(end := last.data[|last.data| - 1].second)];
      }
    }
  }

  /** The chunks up to the current one, closed. */
  function Finished(data: seq<Chunk>, outer: nat): seq<Chunk>
    requires outer < |data| && data[outer].data != []
  {
    data[..outer + 1][outer := data[outer].(end := data[outer].data[|data[outer].data| - 1].second)]
  }

  lemma FinishedLayout(data: seq<Chunk>, outer: nat, max: nat)
    requires outer < |data| && (forall i | 0 <= i < outer :: FullChunk(data[i], max))
    requires 0 < |data[outer].data| <= max && data[outer].begin == data[outer].data[0].first
    ensures var s := Finished(data, outer);
            && Flat(s) == Flat(data[..outer + 1])
            && (forall i | 0 <= i < |s| :: Lack(s[i]) == Lack(data[i]))
            && (forall i | 0 <= i < |s| - 1 :: |s[i].data| == max)
            && (Cached(s, max) <==> forall i | 0 <= i < |s| :: Lack(s[i]) == 0)
  {
    hide Flat, Total;
    var s := Finished(data, outer);
    assert s[..outer] == data[..outer];
    BuiltParts(data, outer);
    BuiltParts(s, outer);
    assert s[..outer + 1] == s;
    forall i | 0 <= i < |s| ensures ChunkOk(s[i], max) <==> Lack(s[i]) == 0 {
      if i < outer {
        assert FullChunk(data[i], max);
      }
    }
  }

  lemma LackNone(c: Chunk)
    requires c.data == [] && c.count == 0
    ensures Lack(c) == 0
  {
  }

  lemma CachedNone(max: nat)
    ensures Flat([]) == [] && Cached([], max)
  {
  }

  lemma BuiltParts(data: seq<Chunk>, outer: nat)
    requires outer < |data|
    ensures Flat(data[..outer + 1]) == Flat(data[..outer]) + data[outer].data
    ensures outer == 0 ==> Flat(data[..outer]) == []
  {
    FlatPrefix(data, outer);
  }

  /** A new chunk holds one more range, which does not touch the last one. */
  lemma StartedBuilt(was: seq<Chunk>, data: seq<Chunk>, outer: nat, range: Range)
    requires 0 < outer <= |was| && outer < |data| && data[..outer - 1] == was[..outer - 1]
    requires was[outer - 1].data != [] && data[outer - 1].data == was[outer - 1].data && data[outer].data == [range]
    requires var last := was[outer - 1].data; last[|last| - 1].second != range.first
    ensures Flat(data[..outer + 1]) == Joined(Flat(was[..outer]), range)
  {
    hide Flat;
    BuiltParts(was, outer - 1);
    BuiltParts(data, outer);
    BuiltParts(data, outer - 1);
  }

  lemma TotalNone()
    ensures Total([]) == 0
  {
  }

  lemma JoinedSpec(rs: seq<Range>, r: Range)
    requires Canonical(rs) && EndBy(rs, r.first) && r.first < r.second
    ensures Canonical(Joined(rs, r)) && EndBy(Joined(rs, r), r.second)
    ensures forall y: nat :: Has(Joined(rs, r), y) <==> Has(rs, y) || r.first <= y < r.second
  {
    hide Has, Canonical;
    if rs != [] && rs[|rs| - 1].second == r.first {
      JoinedBehind(rs, r);
    } else {
      OneCanonical(r);
      CanonicalConcat(rs, [r]);
      var s := rs + [r];
      forall y: nat ensures Has(s, y) <==> Has(rs, y) || r.first <= y < r.second {
        HasConcat(rs, [r], y);
        HasOne(r, y);
      }
    }
  }

  lemma JoinedBehind(rs: seq<Range>, r: Range)
    requires Canonical(rs) && rs != [] && rs[|rs| - 1].second == r.first < r.second
    ensures var s := rs[|rs| - 1 := Range(rs[|rs| - 1].first, r.second)];
            Canonical(s) && forall y: nat :: Has(s, y) <==> Has(rs, y) || r.first <= y < r.second
  {
    var n := |rs| - 1;
    var t := Range(rs[n].first, r.second);
    assert rs[n].first < rs[n].second;
    CanonicalReplaced(rs, n, t);
    hide Has, Canonical;
    var result := rs[n := t];
    forall y: nat ensures Has(result, y) <==> Has(rs, y) || r.first <= y < r.second {
      HasReplaced(rs, n, t, y);
      HasParts(rs, n, y);
    }
  }

  lemma JoinedOne(rs: seq<Range>, s: seq<Range>, x: nat)
    requires forall y: nat :: Has(s, y) <==> Has(rs, y) || x <= y < x + 1
    ensures OneMore(rs, s, x)
  {
    hide Has;
  }

  /** How many ranges come before the `i`-th chunk when the chunks before it are full. */
  function StartOf(max: nat, i: nat): nat {
    max * i
  }

  lemma StartOfOrder(max: nat, i: nat, j: nat)
    requires i <= j
    ensures StartOf(max, i) <= StartOf(max, j)
  {
    assert max * j == max * i + max * (j - i);
  }

  lemma StartOfNext(max: nat, i: nat)
    ensures StartOf(max, i + 1) == StartOf(max, i) + max
  {
  }

  lemma {:induction false} FullStarts(data: seq<Chunk>, max: nat, i: nat)
    requires i <= |data| && forall j | 0 <= j < i :: |data[j].data| == max
    ensures |Flat(data[..i])| == StartOf(max, i)
  {
    if i > 0 {
      FullStarts(data, max, i - 1);
      FlatPrefix(data, i - 1);
      StartOfNext(max, i - 1);
      hide StartOf, Flat;
    }
  }

  /** The current chunk starts where all the ones before it are full. */
  lemma BuiltSize(b: ChunkedRangeVectorBuilder)
    requires b.Valid()
    ensures |b.Built()| == StartOf(b.maxSize, b.outer) + |b.data[b.outer].data|
    ensures |b.Built()| <= StartOf(b.maxSize, b.outer + 1)
    ensures b.outer > 0 ==> StartOf(b.maxSize, b.outer) < |b.Built()|
  {
    hide Flat, StartOf;
    forall j | 0 <= j < b.outer ensures |b.data[j].data| == b.maxSize {
      assert FullChunk(b.data[j], b.maxSize);
    }
    FullStarts(b.data, b.maxSize, b.outer);
    BuiltParts(b.data, b.outer);
    StartOfNext(b.maxSize, b.outer);
  }

  lemma StartsBelow(b: ChunkedRangeVectorBuilder)
    requires b.Valid() && (b.outer > 0 ==> StartOf(b.maxSize, b.outer) < |b.Built()|)
    ensures forall i: nat | i <= b.outer :: i == 0 || StartOf(b.maxSize, i) < |b.Built()|
  {
    hide StartOf, Flat;
    forall i: nat | i <= b.outer ensures i == 0 || StartOf(b.maxSize, i) < |b.Built()| {
      StartOfOrder(b.maxSize, i, b.outer);
    }
  }
}
