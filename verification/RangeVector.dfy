/** A vector that stores ranges in chunks with a maximum size. */
module RangeVector {
  import opened Ranges
  import opened Chunks

  /** The chunk with one range replaced, its cached values brought up to date as the iterator does. */
  function Recount(c: Chunk, k: nat, r: Range): (d: Chunk)
    requires k < |c.data|
    ensures forall max | ChunkOk(c, max) :: ChunkOk(d, max)
    ensures d.data == c.data[k := r]
  {
    TotalUpdate(c.data, k, r);
    Chunk(
      c.data[k := r],
      if k == 0 then r.first else c.begin,
      if k == |c.data| - 1 then r.second else c.end,
      c.count - c.data[k].Len() + r.Len())
  }

  class ChunkedRangeVector {
    const maxSize: nat
    var data: seq<Chunk>

    constructor (maxSize: nat)
      requires maxSize >= 2 && maxSize % 2 == 0
      ensures this.maxSize == maxSize && data == [] && Laid()
    {
      this.maxSize := maxSize;
      data := [];
    }

    /** No chunk is empty or overfull and all cached values are right. */
    ghost predicate Laid()
      reads this
    {
      maxSize >= 2 && maxSize % 2 == 0 && Cached(data, maxSize)
    }

    ghost function Ranges(): seq<Range>
      reads this
    {
      Flat(data)
    }

    /** Set the range at a position, updating its chunk if needed. */
    method Set(pos: Pos, front: nat, back: nat)
      requires Laid() && InRange(data, pos)
      modifies this
      ensures Laid() && SameShape(old(data), data)
      ensures Index(old(data), pos) < |old(Ranges())|
      ensures Ranges() == old(Ranges())[Index(old(data), pos) := Range(front, back)]
    {
      var c := data[pos.outer];
      var count := c.count - c.data[pos.inner].Len();
      var begin := if pos.inner == 0 then front else c.begin;
      var end := if pos.inner == |c.data| - 1 then back else c.end;
      count := count + back - front;
      var d := Chunk(c.data[pos.inner := Range(front, back)], begin, end, count);
      assert d == Recount(c, pos.inner, Range(front, back));
      ReplaceRange(data, pos, Range(front, back), d);
      data := data[pos.outer := d];
    }

    /** Move the two ends of the range at a position by the given amounts. */
    method Adjust(pos: Pos, front: int, back: int)
      requires Laid() && InRange(data, pos)
      requires 0 <= At(data, pos).first + front && 0 <= At(data, pos).second + back
      modifies this
      ensures Laid() && SameShape(old(data), data)
      ensures var r := old(At(data, pos));
              Index(old(data), pos) < |old(Ranges())| && Ranges()
                == old(Ranges())[Index(old(data), pos) := Range(r.first + front, r.second + back)]
    {
      var c := data[pos.outer];
      var r := c.data[pos.inner];
      var s := Range(r.first + front, r.second + back);
      var begin := if pos.inner == 0 then c.begin + front else c.begin;
      var end := if pos.inner == |c.data| - 1 then c.end + back else c.end;
      var d := Chunk(c.data[pos.inner := s], begin, end, c.count - front + back);
      assert d == Recount(c, pos.inner, s);
      ReplaceRange(data, pos, s, d);
      data := data[pos.outer := d];
    }

    /** Move the range at a position by the given distance. */
    method Shift(pos: Pos, distance: int)
      requires Laid() && InRange(data, pos) && 0 <= At(data, pos).first + distance
      requires 0 <= At(data, pos).second + distance
      modifies this
      ensures Laid() && SameShape(old(data), data)
      ensures var r := old(At(data, pos));
              Index(old(data), pos) < |old(Ranges())| && Ranges()
                == old(Ranges())[Index(old(data), pos) := Range(r.first + distance, r.second + distance)]
    {
      var c := data[pos.outer];
      var r := c.data[pos.inner];
      var s := Range(r.first + distance, r.second + distance);
      var begin := if pos.inner == 0 then c.begin + distance else c.begin;
      var end := if pos.inner == |c.data| - 1 then c.end + distance else c.end;
      var d := Chunk(c.data[pos.inner := s], begin, end, c.count);
      assert d == Recount(c, pos.inner, s);
      ReplaceRange(data, pos, s, d);
      data := data[pos.outer := d];
    }

    /** Add a range at the end. */
    method PushBack(value: Range)
      requires Laid() && (data != [] ==> data[|data| - 1].end <= value.first)
      modifies this
      ensures Laid() && Ranges() == old(Ranges()) + [value]
      ensures var full := old(data) == [] || |old(data)[|old(data)| - 1].data| == maxSize;
              |data| == |old(data)| + if full then 1 else 0
    {
      if data != [] && |data[|data| - 1].data| < maxSize {
        var o := |data| - 1;
        var c := data[o];
        var d := Chunk(c.data + [value], c.begin, value.second, c.count + value.Len());
        TotalConcat(c.data, [value]);
        TotalOne(value);
        FlatAround(data, o);
        ReplaceChunk(data, o, d);
        data := data[o := d];
      } else {
        var d := Chunk([value], value.first, value.second, value.Len());
        FlatConcat(data, [d]);
        FlatOne(d);
        TotalOne(value);
        data := data + [d];
      }
    }

    /** Make room for one more range in the chunk of a position, splitting the chunk if it is full. */
    method EnsureSpace(pos: Pos) returns (p: Pos)
      requires Laid() && InRange(data, pos)
      modifies this
      ensures Laid() && Ranges() == old(Ranges())
      ensures InRange(data, p) && Index(data, p) == Index(old(data), pos)
      ensures |data[p.outer].data| < maxSize
    {
      if |data[pos.outer].data| + 1 <= maxSize {
        return pos;
      }
      var offset := pos.inner;
      var toMove := maxSize / 2;
      var c := data[pos.outer];
      var keep := |c.data| - toMove;
      var moved := c.data[keep..];
      hide Total;
      var movedCount := CountMoved(moved);
      var left := Chunk(c.data[..keep], c.begin, c.data[keep - 1].second, c.count - movedCount);
      var right := Chunk(moved, moved[0].first, moved[|moved| - 1].second, movedCount);
      SplitLaid(c, keep, maxSize, left, right);
      SplitFlat(data, pos.outer, left, right);
      SplitIndex(data, pos, left, right);
      SplitCached(data, maxSize, pos.outer, left, right);
      data := data[..pos.outer] + [left, right] + data[pos.outer + 1..];
      if offset >= toMove {
        p := Pos(pos.outer + 1, offset - toMove);
      } else {
        p := Pos(pos.outer, offset);
      }
    }

    /** Insert a range before a position. */
    method Insert(pos: Pos, value: Range) returns (p: Pos)
      requires Laid() && ValidPos(data, pos)
      requires Index(data, pos) <= |Ranges()| && Sorted(Inserted(Ranges(), Index(data, pos), value))
      modifies this
      ensures Laid() && Ranges() == Inserted(old(Ranges()), Index(old(data), pos), value)
      ensures InRange(data, p) && Index(data, p) == Index(old(data), pos)
    {
      ghost var k := Index(data, pos);
      IndexAt(data, pos);
      if pos.outer == |data| {
        InsertedAtEnd(data, maxSize, value);
        PushBack(value);
        p := Prev(data, End(data));
        IndexPrev(data, End(data));
        IndexAt(data, End(data));
        return;
      }
      p := EnsureSpace(pos);
      var c := data[p.outer];
      var d := Chunk(
        c.data[..p.inner] + [value] + c.data[p.inner..],
        if value.first < c.begin then value.first else c.begin,
        if value.second > c.end then value.second else c.end,
        c.count + value.Len());
      assert d == WithRange(c, p.inner, value);
      InsertedChunk(data, p, maxSize, value, d);
      data := data[p.outer := d];
    }

    /** Remove the range at a position; the result is the position of the range after it. */
    method Erase(pos: Pos) returns (p: Pos)
      requires Laid() && InRange(data, pos)
      modifies this
      ensures Laid() && Index(old(data), pos) < |old(Ranges())|
      ensures Ranges() == Erased(old(Ranges()), Index(old(data), pos))
      ensures ValidPos(data, p) && Index(data, p) == Index(old(data), pos)
    {
      hide Total, Flat, Erased;
      var offset := pos.inner;
      var c := data[pos.outer];
      var rest := c.data[..offset] + c.data[offset + 1..];
      var count := c.count - c.data[offset].Len();
      ErasedFlat(data, pos, rest);
      ErasedTotal(c.data, offset);
      IndexAt(data, pos);
      if |rest| == 0 {
        DropChunk(data, pos.outer);
        data := data[..pos.outer] + data[pos.outer + 1..];
        return Pos(pos.outer, 0);
      }
      var d := Chunk(rest, rest[0].first, rest[|rest| - 1].second, count);
      ReplaceChunk(data, pos.outer, d);
      ghost var was := data;
      data := data[pos.outer := d];
      assert data[..pos.outer] == was[..pos.outer];
      if offset < |rest| {
        p := pos;
      } else {
        p := NextChunk(pos);
        FlatPrefix(data, pos.outer);
      }
    }
  }

  function Inserted(rs: seq<Range>, k: nat, r: Range): seq<Range>
    requires k <= |rs|
  {
    rs[..k] + [r] + rs[k..]
  }

  function Erased(rs: seq<Range>, k: nat): seq<Range>
    requires k < |rs|
  {
    rs[..k] + rs[k + 1..]
  }

  method CountMoved(moved: seq<Range>) returns (count: int)
    ensures count == Total(moved)
  {
    count := 0;
    for i := 0 to |moved|
      invariant count == Total(moved[..i])
    {
      TotalConcat(moved[..i], [moved[i]]);
      TotalOne(moved[i]);
      assert moved[..i + 1] == moved[..i] + [moved[i]];
      count := count + moved[i].Len();
    }
    assert moved[..|moved|] == moved;
  }

  lemma SplitLaid(c: Chunk, keep: nat, max: nat, left: Chunk, right: Chunk)
    requires 0 < keep < |c.data| && ChunkOk(c, max)
    requires left == Chunk(c.data[..keep], c.begin, c.data[keep - 1].second, c.count - Total(c.data[keep..]))
    requires right == Chunk(c.data[keep..], c.data[keep].first, c.data[|c.data| - 1].second, Total(c.data[keep..]))
    ensures ChunkOk(left, max) && ChunkOk(right, max) && left.data + right.data == c.data
  {
    hide Total;
    assert c.data == c.data[..keep] + c.data[keep..];
    TotalConcat(c.data[..keep], c.data[keep..]);
  }

  lemma SplitCached(m: seq<Chunk>, max: nat, o: nat, left: Chunk, right: Chunk)
    requires o < |m| && Cached(m, max) && ChunkOk(left, max) && ChunkOk(right, max)
    ensures Cached(m[..o] + [left, right] + m[o + 1..], max)
  {
    hide ChunkOk;
  }

  lemma SplitFlat(m: seq<Chunk>, o: nat, left: Chunk, right: Chunk)
    requires o < |m| && left.data + right.data == m[o].data
    ensures Flat(m[..o] + [left, right] + m[o + 1..]) == Flat(m)
  {
    FlatConcat(m[..o] + [left, right], m[o + 1..]);
    FlatConcat(m[..o], [left, right]);
    FlatConcat([left], [right]);
    FlatOne(left);
    FlatOne(right);
    FlatAround(m, o);
    assert [left] + [right] == [left, right];
    hide Flat;
  }

  lemma SplitIndex(m: seq<Chunk>, pos: Pos, left: Chunk, right: Chunk)
    requires InRange(m, pos) && left.data + right.data == m[pos.outer].data
    ensures var n := m[..pos.outer] + [left, right] + m[pos.outer + 1..];
            if pos.inner < |left.data| then InRange(n, pos) && Index(n, pos) == Index(m, pos)
            else InRange(n, Pos(pos.outer + 1, pos.inner - |left.data|))
                 && Index(n, Pos(pos.outer + 1, pos.inner - |left.data|)) == Index(m, pos)
  {
    var n := m[..pos.outer] + [left, right] + m[pos.outer + 1..];
    assert n[..pos.outer] == m[..pos.outer];
    FlatPrefix(n, pos.outer);
  }

  lemma InsertedAtEnd(m: seq<Chunk>, max: nat, value: Range)
    requires Cached(m, max) && Sorted(Inserted(Flat(m), |Flat(m)|, value))
    ensures m != [] ==> m[|m| - 1].end <= value.first
    ensures Inserted(Flat(m), |Flat(m)|, value) == Flat(m) + [value]
  {
    var rs := Inserted(Flat(m), |Flat(m)|, value);
    if m != [] {
      var o := |m| - 1;
      FlatAround(m, o);
      assert ChunkOk(m[o], max);
      assert rs[|Flat(m)| - 1] == m[o].data[|m[o].data| - 1];
      assert rs[|Flat(m)|] == value;
    }
  }

  lemma InsertedChunk(m: seq<Chunk>, p: Pos, max: nat, value: Range, d: Chunk)
    requires Cached(m, max) && InRange(m, p) && |m[p.outer].data| < max
    requires Index(m, p) <= |Flat(m)| && Sorted(Inserted(Flat(m), Index(m, p), value))
    requires d == WithRange(m[p.outer], p.inner, value)
    ensures ChunkOk(d, max) && Flat(m[p.outer := d]) == Inserted(Flat(m), Index(m, p), value)
    ensures InRange(m[p.outer := d], p) && Index(m[p.outer := d], p) == Index(m, p)
  {
    hide Flat, Total, Sorted;
    var c := m[p.outer];
    var before := Flat(m[..p.outer]);
    var after := Flat(m[p.outer + 1..]);
    FlatAround(m, p.outer);
    ReplaceChunk(m, p.outer, d);
    assert m[p.outer := d][..p.outer] == m[..p.outer];
    var rs := Inserted(Flat(m), Index(m, p), value);
    assert rs == before + d.data + after;
    SortedMiddle(before, d.data, after);
    InsertedCache(c, p.inner, max, value);
  }

  /** The chunk with a range inserted, its cached values updated as the vector does. */
  function WithRange(c: Chunk, i: nat, value: Range): Chunk
    requires i <= |c.data|
  {
    Chunk(
      c.data[..i] + [value] + c.data[i..],
      if value.first < c.begin then value.first else c.begin,
      if value.second > c.end then value.second else c.end,
      c.count + value.Len())
  }

  lemma SortedMiddle(a: seq<Range>, b: seq<Range>, c: seq<Range>)
    requires Sorted(a + b + c)
    ensures Sorted(b)
  {
    var s := a + b + c;
    assert forall j | 0 <= j < |b| :: b[j] == s[|a| + j];
  }

  /** In sorted surroundings, the least start and the greatest end are at the two ends. */
  lemma InsertedCache(c: Chunk, i: nat, max: nat, value: Range)
    requires ChunkOk(c, max) && i < |c.data| < max && Sorted(WithRange(c, i, value).data)
    ensures ChunkOk(WithRange(c, i, value), max)
  {
    hide Total;
    var d := WithRange(c, i, value);
    TotalParts(c.data[..i], value, c.data[i..]);
    TotalConcat(c.data[..i], c.data[i..]);
    assert c.data == c.data[..i] + c.data[i..];
    assert d.data[i] == value;
    assert d.data[0] == if i == 0 then value else c.data[0];
    assert d.data[1] == if i == 0 then c.data[0] else d.data[1];
    assert d.data[|d.data| - 1] == c.data[|c.data| - 1];
  }

  lemma ErasedFlat(m: seq<Chunk>, pos: Pos, rest: seq<Range>)
    requires InRange(m, pos) && rest == m[pos.outer].data[..pos.inner] + m[pos.outer].data[pos.inner + 1..]
    ensures Index(m, pos) < |Flat(m)|
    ensures Flat(m[..pos.outer]) + rest + Flat(m[pos.outer + 1..]) == Erased(Flat(m), Index(m, pos))
  {
    FlatAround(m, pos.outer);
  }

  lemma ErasedTotal(rs: seq<Range>, k: nat)
    requires k < |rs|
    ensures Total(rs[..k] + rs[k + 1..]) == Total(rs) - rs[k].Len()
  {
    hide Total;
    assert rs == rs[..k] + [rs[k]] + rs[k + 1..];
    TotalParts(rs[..k], rs[k], rs[k + 1..]);
    TotalConcat(rs[..k], rs[k + 1..]);
  }

  lemma DropChunk(m: seq<Chunk>, o: nat)
    requires o < |m|
    ensures var n := m[..o] + m[o + 1..]; Flat(n) == Flat(m[..o]) + Flat(m[o + 1..]) && n[..o] == m[..o]
  {
    FlatConcat(m[..o], m[o + 1..]);
  }
}
