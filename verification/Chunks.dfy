/** The chunked layout of a list of ranges, and positions in it. */
module Chunks {
  import opened Ranges

  datatype Chunk = Chunk(data: seq<Range>, begin: nat, end: nat, count: int)

  /** An iterator: a chunk and an offset in it; one past the last chunk at the end. */
  datatype Pos = Pos(outer: nat, inner: nat)

  function Flat(m: seq<Chunk>): seq<Range> {
    if m == [] then [] else m[0].data + Flat(m[1..])
  }

  /** The chunk is neither empty nor overfull and its cached values are what its ranges say. */
  ghost predicate ChunkOk(c: Chunk, max: nat) {
    && 0 < |c.data| <= max
    && c.begin == c.data[0].first
    && c.end == c.data[|c.data| - 1].second
    && c.count == Total(c.data)
  }

  ghost predicate Cached(m: seq<Chunk>, max: nat) {
    forall i | 0 <= i < |m| :: ChunkOk(m[i], max)
  }

  lemma ChunkIsOk(m: seq<Chunk>, max: nat, o: nat)
    requires Cached(m, max) && o < |m|
    ensures ChunkOk(m[o], max)
  {
  }

  ghost predicate NoEmpty(m: seq<Chunk>) {
    forall i | 0 <= i < |m| :: m[i].data != []
  }

  predicate AtEnd(m: seq<Chunk>, pos: Pos) {
    pos == Pos(|m|, 0)
  }

  predicate InRange(m: seq<Chunk>, pos: Pos) {
    pos.outer < |m| && pos.inner < |m[pos.outer].data|
  }

  predicate ValidPos(m: seq<Chunk>, pos: Pos) {
    AtEnd(m, pos) || InRange(m, pos)
  }

  function End(m: seq<Chunk>): Pos {
    Pos(|m|, 0)
  }

  /** The first position; chunks are never empty, so this is the end only for no chunks. */
  function Begin(m: seq<Chunk>): Pos {
    Pos(0, 0)
  }

  function At(m: seq<Chunk>, pos: Pos): Range
    requires InRange(m, pos)
  {
    m[pos.outer].data[pos.inner]
  }

  /** The start of the next chunk. */
  function NextChunk(pos: Pos): Pos {
    Pos(pos.outer + 1, 0)
  }

  function Next(m: seq<Chunk>, pos: Pos): Pos
    requires InRange(m, pos)
  {
    if pos.inner + 1 == |m[pos.outer].data| then NextChunk(pos) else Pos(pos.outer, pos.inner + 1)
  }

  function Prev(m: seq<Chunk>, pos: Pos): Pos
    requires ValidPos(m, pos) && pos != Begin(m) && NoEmpty(m)
  {
    if pos.inner == 0 then Pos(pos.outer - 1, |m[pos.outer - 1].data| - 1) else Pos(pos.outer, pos.inner - 1)
  }

  /** How many ranges come before a position. */
  function Index(m: seq<Chunk>, pos: Pos): nat
    requires ValidPos(m, pos)
  {
    |Flat(m[..pos.outer])| + pos.inner
  }

  lemma {:induction false} FlatConcat(a: seq<Chunk>, b: seq<Chunk>)
    ensures Flat(a + b) == Flat(a) + Flat(b)
  {
    if a == [] {
      assert a + b == b;
    } else {
      assert (a + b)[1..] == a[1..] + b;
      FlatConcat(a[1..], b);
      assert a[0].data + (Flat(a[1..]) + Flat(b)) == (a[0].data + Flat(a[1..])) + Flat(b);
    }
  }

  lemma FlatOne(c: Chunk)
    ensures Flat([c]) == c.data
  {
    assert [c][1..] == [];
    assert c.data + [] == c.data;
  }

  /** The ranges before, in and after one chunk. */
  lemma FlatAround(m: seq<Chunk>, o: nat)
    requires o < |m|
    ensures Flat(m) == Flat(m[..o]) + m[o].data + Flat(m[o + 1..])
  {
    assert m == m[..o] + m[o..];
    FlatConcat(m[..o], m[o..]);
    assert m[o..][1..] == m[o + 1..];
    assert Flat(m[..o]) + (m[o].data + Flat(m[o + 1..])) == Flat(m[..o]) + m[o].data + Flat(m[o + 1..]);
  }

  lemma FlatPrefix(m: seq<Chunk>, o: nat)
    requires o < |m|
    ensures Flat(m[..o + 1]) == Flat(m[..o]) + m[o].data
  {
    assert m[..o + 1] == m[..o] + [m[o]];
    FlatConcat(m[..o], [m[o]]);
    FlatOne(m[o]);
  }

  /** A position is an index into the flattened ranges, the end being their number. */
  lemma IndexAt(m: seq<Chunk>, pos: Pos)
    requires ValidPos(m, pos)
    ensures Index(m, pos) <= |Flat(m)|
    ensures Index(m, pos) == |Flat(m)| <==> AtEnd(m, pos)
    ensures InRange(m, pos) ==> Flat(m)[Index(m, pos)] == At(m, pos)
  {
    if InRange(m, pos) {
      FlatAround(m, pos.outer);
    } else {
      assert m[..|m|] == m;
    }
  }

  lemma IndexNext(m: seq<Chunk>, pos: Pos)
    requires InRange(m, pos) && NoEmpty(m)
    ensures ValidPos(m, Next(m, pos)) && Index(m, Next(m, pos)) == Index(m, pos) + 1
  {
    FlatPrefix(m, pos.outer);
  }

  lemma IndexPrev(m: seq<Chunk>, pos: Pos)
    requires ValidPos(m, pos) && NoEmpty(m)
    ensures pos != Begin(m) <==> Index(m, pos) > 0
    ensures pos != Begin(m) ==> InRange(m, Prev(m, pos)) && Index(m, Prev(m, pos)) + 1 == Index(m, pos)
  {
    if pos.inner == 0 && pos.outer > 0 {
      FlatPrefix(m, pos.outer - 1);
    }
  }

  /** Stepping back undoes stepping forward, across chunk borders and from the end. */
  lemma PrevNext(m: seq<Chunk>, pos: Pos)
    requires NoEmpty(m)
    ensures InRange(m, pos) ==> Next(m, pos) != Begin(m) && ValidPos(m, Next(m, pos)) && Prev(m, Next(m, pos)) == pos
    ensures ValidPos(m, pos) && pos != Begin(m) ==> InRange(m, Prev(m, pos)) && Next(m, Prev(m, pos)) == pos
  {
  }

  /** Different positions have different indices. */
  lemma IndexInjective(m: seq<Chunk>, a: Pos, b: Pos)
    requires ValidPos(m, a) && ValidPos(m, b) && NoEmpty(m) && Index(m, a) == Index(m, b)
    ensures a == b
  {
    if a.outer < b.outer {
      IndexOrder(m, a, b);
    } else if b.outer < a.outer {
      IndexOrder(m, b, a);
    }
  }

  lemma IndexOrder(m: seq<Chunk>, a: Pos, b: Pos)
    requires ValidPos(m, a) && ValidPos(m, b) && NoEmpty(m) && a.outer < b.outer
    ensures Index(m, a) < Index(m, b)
  {
    assert m[..b.outer] == m[..a.outer + 1] + m[a.outer + 1..b.outer];
    FlatConcat(m[..a.outer + 1], m[a.outer + 1..b.outer]);
    FlatPrefix(m, a.outer);
  }

  /** The same chunk lengths, so that every position keeps its index. */
  ghost predicate SameShape(m: seq<Chunk>, n: seq<Chunk>) {
    |m| == |n| && forall i | 0 <= i < |m| :: |m[i].data| == |n[i].data|
  }

  lemma {:induction false} SameShapeFlat(m: seq<Chunk>, n: seq<Chunk>)
    requires SameShape(m, n)
    ensures |Flat(m)| == |Flat(n)|
  {
    if m != [] {
      assert SameShape(m[1..], n[1..]) by {
        forall i | 0 <= i < |m[1..]| ensures |m[1..][i].data| == |n[1..][i].data| {
          assert |m[i + 1].data| == |n[i + 1].data|;
        }
      }
      SameShapeFlat(m[1..], n[1..]);
    }
  }

  lemma SameShapeTrans(a: seq<Chunk>, b: seq<Chunk>, c: seq<Chunk>)
    requires SameShape(a, b) && SameShape(b, c)
    ensures SameShape(a, c) && |a| == |b| == |c|
  {
    forall i | 0 <= i < |a| ensures |a[i].data| == |c[i].data| {
      assert |a[i].data| == |b[i].data|;
    }
  }

  lemma SameShapeIndex(m: seq<Chunk>, n: seq<Chunk>, pos: Pos)
    requires SameShape(m, n) && ValidPos(m, pos)
    ensures ValidPos(n, pos) && Index(n, pos) == Index(m, pos) && |n| == |m|
  {
    SameShapeFlat(m[..pos.outer], n[..pos.outer]);
  }

  lemma SameShapeNext(m: seq<Chunk>, n: seq<Chunk>, pos: Pos)
    requires SameShape(m, n) && InRange(m, pos)
    ensures InRange(n, pos) && Next(n, pos) == Next(m, pos)
  {
    assert |m[pos.outer].data| == |n[pos.outer].data|;
  }

  /** Changing one chunk changes the flattened ranges only where it lies. */
  lemma ReplaceChunk(m: seq<Chunk>, o: nat, c: Chunk)
    requires o < |m|
    ensures Flat(m[o := c]) == Flat(m[..o]) + c.data + Flat(m[o + 1..])
  {
    var n := m[o := c];
    FlatAround(n, o);
    assert n[..o] == m[..o] && n[o + 1..] == m[o + 1..];
  }

  lemma TotalUpdate(rs: seq<Range>, k: nat, r: Range)
    requires k < |rs|
    ensures Total(rs[k := r]) == Total(rs) - rs[k].Len() + r.Len()
  {
    hide Total;
    assert rs == rs[..k] + [rs[k]] + rs[k + 1..];
    assert rs[k := r] == rs[..k] + [r] + rs[k + 1..];
    TotalParts(rs[..k], rs[k], rs[k + 1..]);
    TotalParts(rs[..k], r, rs[k + 1..]);
  }

  /** Changing one range in place. */
  lemma ReplaceRange(m: seq<Chunk>, pos: Pos, r: Range, c: Chunk)
    requires InRange(m, pos) && c.data == m[pos.outer].data[pos.inner := r]
    ensures var n := m[pos.outer := c];
            SameShape(m, n) && Index(m, pos) < |Flat(m)| && Flat(n) == Flat(m)[Index(m, pos) := r]
  {
    IndexAt(m, pos);
    ReplaceChunk(m, pos.outer, c);
    FlatAround(m, pos.outer);
  }

  /** The ranges of one chunk inside the flattened ranges. */
  lemma ChunkSlice(m: seq<Chunk>, o: nat)
    requires o < |m|
    ensures |Flat(m[..o + 1])| == |Flat(m[..o])| + |m[o].data| <= |Flat(m)|
    ensures forall i | 0 <= i < |m[o].data| :: Flat(m)[|Flat(m[..o])| + i] == m[o].data[i]
  {
    FlatPrefix(m, o);
    FlatAround(m, o);
  }

  /** A chunk that ends by `x` has no range that ends after `x`. */
  lemma ChunkPassed(m: seq<Chunk>, max: nat, o: nat, x: nat)
    requires o < |m| && Cached(m, max) && Sorted(Flat(m)) && |Flat(m[..o])| <= FirstAfter(Flat(m), x) && m[o].end <= x
    ensures |Flat(m[..o + 1])| <= FirstAfter(Flat(m), x)
  {
    hide Flat, Total, Cached, Sorted, FirstAfter;
    ChunkEnds(m, max, o);
    FirstAfterPast(Flat(m), x, |Flat(m[..o])| + |m[o].data| - 1);
  }

  /** The first range from `lo` on that ends after `x`, in a chunk that ends after `x`. */
  lemma ChunkFound(m: seq<Chunk>, max: nat, o: nat, lo: nat, i: nat, x: nat)
    requires o < |m| && |Flat(m[..o])| + lo <= FirstAfter(Flat(m), x)
    requires lo <= i < |m[o].data| && x < m[o].data[i].second && forall j | lo <= j < i :: m[o].data[j].second <= x
    ensures FirstAfter(Flat(m), x) == |Flat(m[..o])| + i
  {
    hide Flat, FirstAfter;
    ChunkSlice(m, o);
    var rs := Flat(m);
    var base := |Flat(m[..o])|;
    assert rs[base + i] == m[o].data[i];
    forall j | 0 <= j < base + i ensures rs[j].second <= x {
      if base + lo <= j {
        assert rs[base + (j - base)] == m[o].data[j - base];
      }
    }
    FirstAfterIs(rs, x, base + i);
  }

  /** The cached count of a chunk is what it adds to the running total. */
  lemma ChunkTotal(m: seq<Chunk>, max: nat, o: nat)
    requires o < |m| && Cached(m, max)
    ensures |Flat(m[..o])| < |Flat(m[..o + 1])| <= |Flat(m)|
    ensures TotalUpTo(Flat(m), |Flat(m[..o + 1])|) == TotalUpTo(Flat(m), |Flat(m[..o])|) + m[o].count
  {
    assert ChunkOk(m[o], max);
    FlatPrefix(m, o);
    FlatAround(m, o);
    var a := Flat(m[..o]);
    hide Flat, Total;
    assert Flat(m)[..|a|] == a;
    assert Flat(m)[..|a| + |m[o].data|] == a + m[o].data;
    TotalConcat(a, m[o].data);
  }

  /** Every range of a chunk that ends by `x` starts and ends by `x`. */
  lemma ChunkEndsBy(m: seq<Chunk>, max: nat, o: nat, x: nat)
    requires o < |m| && Cached(m, max) && Sorted(Flat(m)) && m[o].end <= x
    ensures |Flat(m[..o + 1])| <= |Flat(m)|
    ensures forall j | |Flat(m[..o])| <= j < |Flat(m[..o + 1])| :: Flat(m)[j].first <= Flat(m)[j].second <= x
  {
    ChunkSlice(m, o);
    assert ChunkOk(m[o], max);
    var n := |m[o].data| - 1;
    var last := |Flat(m[..o])| + n;
    assert Flat(m)[last] == m[o].data[n];
    hide Flat, Total, Cached;
    forall j | |Flat(m[..o])| <= j <= last ensures Flat(m)[j].first <= Flat(m)[j].second <= x {
      if j < last {
        assert Flat(m)[j].second <= Flat(m)[last].first <= Flat(m)[last].second;
      }
    }
  }

  /** A position whose index lies in a chunk is in that chunk. */
  lemma PosInChunk(m: seq<Chunk>, pos: Pos, o: nat)
    requires NoEmpty(m) && o < |m| && ValidPos(m, pos)
    requires |Flat(m[..o])| <= Index(m, pos) < |Flat(m[..o])| + |m[o].data|
    ensures pos == Pos(o, Index(m, pos) - |Flat(m[..o])|) && InRange(m, pos)
  {
    IndexInjective(m, pos, Pos(o, Index(m, pos) - |Flat(m[..o])|));
  }

  /** The first and the last range of a chunk. */
  lemma ChunkEnds(m: seq<Chunk>, max: nat, o: nat)
    requires Cached(m, max) && o < |m|
    ensures var base := |Flat(m[..o])|;
            && m[o].data != []
            && base + |m[o].data| <= |Flat(m)| && |Flat(m[..o + 1])| == base + |m[o].data|
            && Flat(m)[base] == m[o].data[0] && m[o].begin == Flat(m)[base].first
            && m[o].end == Flat(m)[base + |m[o].data| - 1].second
  {
    assert ChunkOk(m[o], max);
    ChunkSlice(m, o);
    var n := |m[o].data| - 1;
    hide Flat, Total, Cached;
    assert Flat(m)[|Flat(m[..o])| + 0] == m[o].data[0];
    assert Flat(m)[|Flat(m[..o])| + n] == m[o].data[n];
  }
}
