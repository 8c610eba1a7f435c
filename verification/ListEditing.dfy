/** Editing a range of a list through single insertions and removals. */
module ListEditing {
  /** A call returns, or raises an exception, or the process stops on a violated language rule. */
  datatype Outcome = Done | Raised | Trapped

  /** The result of an edit: what the list then holds, and how the call ended. */
  datatype Edit<T> = Edit(items: seq<T>, outcome: Outcome)

  /** What replacing the range from `lo` up to `hi` is meant to do, out-of-bounds ranges included. */
  function Spliced<T>(items: seq<T>, lo: int, hi: int, new_: seq<T>): Edit<T>
    requires lo <= hi
  {
    if lo < hi && !(0 <= lo < |items|) then Edit(items, Raised)
    else if lo < hi && |items| < hi then Edit(items[..lo], Raised)
    else if lo == hi && new_ != [] && !(0 <= lo <= |items|) then Edit(items, Raised)
    else if lo == hi && new_ == [] then Edit(items, Done)
    else Edit(items[..lo] + new_ + items[hi..], Done)
  }

  class List<T> {
    var items: seq<T>

    constructor (items: seq<T>)
      ensures this.items == items
    {
      this.items := items;
    }

    method Insert(item: T, index: int) returns (outcome: Outcome)
      modifies this
      ensures if 0 <= index <= |old(items)|
              then outcome == Done && items == old(items)[..index] + [item] + old(items)[index..]
              else outcome == Raised && items == old(items)
    {
      if index < 0 || index > |items| {
        return Raised;
      }
      items := items[..index] + [item] + items[index..];
      return Done;
    }

    method Remove(index: int) returns (outcome: Outcome)
      modifies this
      ensures if 0 <= index < |old(items)|
              then outcome == Done && items == old(items)[..index] + old(items)[index + 1..]
              else outcome == Raised && items == old(items)
    {
      if index < 0 || index >= |items| {
        return Raised;
      }
      items := items[..index] + items[index + 1..];
      return Done;
    }

    /** Remove the range from `lo` up to `hi`, one item at a time at its lower bound. */
    method RemoveSubrange(lo: int, hi: int) returns (outcome: Outcome)
      requires lo <= hi
      modifies this
      ensures Edit(items, outcome) == Spliced(old(items), lo, hi, [])
    {
      ghost var was := items;
      for i := lo to hi
        invariant i == lo || 0 <= lo < |was|
        invariant i > lo ==> i <= |was|
        invariant items == if i == lo then was else was[..lo] + was[i..]
      {
        outcome := Remove(lo);
        if outcome != Done {
          return;
        }
      }
      outcome := Done;
    }

    /** Insert items one after the other from an index on. */
    method InsertAll(newElements: seq<T>, index: int) returns (outcome: Outcome)
      modifies this
      ensures Edit(items, outcome) == Spliced(old(items), index, index, newElements)
    {
      ghost var was := items;
      var currentIndex := index;
      for n := 0 to |newElements|
        invariant currentIndex == index + n
        invariant n == 0 || 0 <= index <= |was|
        invariant items == if n == 0 then was else was[..index] + newElements[..n] + was[index..]
      {
        outcome := Insert(newElements[n], currentIndex);
        if outcome != Done {
          return;
        }
        currentIndex := currentIndex + 1;
      }
      outcome := Done;
    }

    /**
     * Insert the items of a slice of this same list. The slice is read while the list changes, so
     * what is inserted is not always what the slice held before.
     */
    method InsertOwnSlice(lo: nat, hi: nat, index: int) returns (outcome: Outcome)
      requires lo <= hi <= |items|
      modifies this
      ensures outcome == if lo == hi || 0 <= index <= |old(items)| then Done else Raised
      ensures items ==
              if lo == hi || outcome == Raised then old(items)
              else old(items)[..index] + LiveItems(old(items), lo, index, hi - lo) + old(items)[index..]
    {
      ghost var was := items;
      var currentIndex := index;
      for n := 0 to hi - lo
        invariant currentIndex == index + n
        invariant n > 0 ==> 0 <= index <= |was|
        invariant items == if n == 0 then was else was[..index] + LiveItems(was, lo, index, n) + was[index..]
      {
        if 0 <= index <= |was| {
          assert was[..index] + LiveItems(was, lo, index, 0) + was[index..] == was;
          ReadsLive(was, lo, index, n);
        }
        var item := items[lo + n];
        outcome := Insert(item, currentIndex);
        if outcome != Done {
          return;
        }
        currentIndex := currentIndex + 1;
      }
      outcome := Done;
    }

    /** Replace a range: remove it, then insert the new items from the last to the first at its lower bound. */
    method ReplaceSubrangeReversed(lo: int, hi: int, newElements: seq<T>) returns (outcome: Outcome)
      requires lo <= hi
      modifies this
      ensures Edit(items, outcome) == Spliced(old(items), lo, hi, newElements)
    {
      outcome := RemoveSubrange(lo, hi);
      if outcome != Done {
        return;
      }
      SplicedInParts(old(items), lo, hi, newElements);
      outcome := InsertReversed(newElements, lo);
    }

    /** Insert items from the last to the first, all at the same index. */
    method InsertReversed(newElements: seq<T>, index: int) returns (outcome: Outcome)
      modifies this
      ensures Edit(items, outcome) == Spliced(old(items), index, index, newElements)
    {
      ghost var was := items;
      var n := |newElements|;
      while n > 0
        invariant 0 <= n <= |newElements|
        invariant n < |newElements| ==> 0 <= index <= |was|
        invariant items == if n == |newElements| then was else was[..index] + newElements[n..] + was[index..]
      {
        n := n - 1;
        ghost var before := items;
        outcome := Insert(newElements[n], index);
        if outcome != Done {
          return;
        }
        InsertedBefore(was, before, newElements, n, index);
      }
      outcome := Done;
    }

    /** Replace a range: remove it, then insert the new items in order. */
    method ReplaceSubrange(lo: int, hi: int, newElements: seq<T>) returns (outcome: Outcome)
      requires lo <= hi
      modifies this
      ensures Edit(items, outcome) == Spliced(old(items), lo, hi, newElements)
    {
      outcome := RemoveSubrange(lo, hi);
      if outcome != Done {
        return;
      }
      SplicedInParts(old(items), lo, hi, newElements);
      outcome := InsertAll(newElements, lo);
    }

    /** Remove items from the start; more than there are is an error, a negative number stops the process. */
    method RemoveFirst(number: int) returns (outcome: Outcome)
      modifies this
      ensures if number > |old(items)| then outcome == Raised && items == old(items)
              else if number < 0 then outcome == Trapped && items == old(items)
              else Edit(items, outcome) == Spliced(old(items), 0, number, [])
    {
      if number > |items| {
        return Raised;
      }
      if number < 0 {
        return Trapped;
      }
      ghost var was := items;
      for i := 0 to number
        invariant items == was[i..]
      {
        var _ := Remove(0);
      }
      outcome := Done;
    }

    /** Remove items from the end. */
    method RemoveLast(number: int) returns (outcome: Outcome)
      modifies this
      ensures if number > |old(items)| then outcome == Raised && items == old(items)
              else if number < 0 then outcome == Trapped && items == old(items)
              else Edit(items, outcome) == Spliced(old(items), |old(items)| - number, |old(items)|, [])
    {
      if number > |items| {
        return Raised;
      }
      if number < 0 {
        return Trapped;
      }
      ghost var was := items;
      for i := 0 to number
        invariant items == was[..|was| - i]
      {
        if |items| > 0 {
          var _ := Remove(|items| - 1);
        }
      }
      outcome := Done;
    }
  }

  /** Removing a range and inserting at its start replaces it. */
  lemma SplicedInParts<T>(items: seq<T>, lo: int, hi: int, new_: seq<T>)
    requires lo <= hi && Spliced(items, lo, hi, []).outcome == Done
    ensures Spliced(Spliced(items, lo, hi, []).items, lo, lo, new_) == Spliced(items, lo, hi, new_)
  {
  }

  /** Inserting at the start of what has been inserted so far. */
  lemma InsertedBefore<T>(was: seq<T>, before: seq<T>, new_: seq<T>, n: nat, index: nat)
    requires n < |new_| && index <= |was|
    requires before == if n + 1 == |new_| then was else was[..index] + new_[n + 1..] + was[index..]
    ensures before[..index] + [new_[n]] + before[index..] == was[..index] + new_[n..] + was[index..]
  {
    assert new_[n..] == [new_[n]] + new_[n + 1..];
    assert before[..index] == was[..index];
    assert before[index..] == new_[n + 1..] + was[index..];
  }

  /** A replacement that succeeds can be undone by replacing the new items with the old ones. */
  lemma SplicedBack<T>(items: seq<T>, lo: int, hi: int, new_: seq<T>)
    requires lo <= hi && Spliced(items, lo, hi, new_).outcome == Done
    requires lo + |new_| <= |Spliced(items, lo, hi, new_).items| && 0 <= lo
    requires lo < hi || new_ != []
    ensures Spliced(Spliced(items, lo, hi, new_).items, lo, lo + |new_|, items[lo..hi]) == Edit(items, Done)
  {
    var s := items[..lo] + new_ + items[hi..];
    assert s[..lo] == items[..lo] && s[lo + |new_|..] == items[hi..];
  }

  /**
   * A replacement changes the list or succeeds; it fails exactly if there is something to do and the
   * range is out of bounds.
   */
  lemma SplicedFails<T>(items: seq<T>, lo: int, hi: int, new_: seq<T>)
    requires lo <= hi
    ensures Spliced(items, lo, hi, new_).outcome == Raised <==> (lo < hi || new_ != []) && !(0 <= lo <= hi <= |items|)
    ensures Spliced(items, lo, hi, new_).outcome == Raised && Spliced(items, lo, hi, new_).items != items <==>
              0 <= lo < |items| < hi
  {
  }

  /**
   * What a replacement leaves, item by item: the new items stand where the range was. If it fails,
   * a beginning of the list is left: the items before the range if it starts inside the list and
   * ends outside, and otherwise all of them.
   */
  lemma SplicedAt<T>(items: seq<T>, lo: int, hi: int, new_: seq<T>)
    requires lo <= hi
    ensures var s := Spliced(items, lo, hi, new_);
            if s.outcome == Done && (lo < hi || new_ != []) then
              && |s.items| == |items| - (hi - lo) + |new_|
              && forall k | 0 <= k < |s.items| ::
                   s.items[k] == if k < lo then items[k]
                     else if k < lo + |new_| then new_[k - lo] else items[k - |new_| + (hi - lo)]
            else
              && s.outcome != Trapped && s.items <= items
              && |s.items| == if s.outcome == Raised && 0 <= lo < |items| < hi then lo else |items|
  {
  }

  // ---- inserting a slice of the list itself ----

  /** The `n`-th item read from a slice that starts at `lo`, while items are inserted at `index`. */
  function LiveItem<T>(was: seq<T>, lo: nat, index: nat, n: nat): T
    requires lo < |was| && index <= |was|
  {
    if index <= lo then was[lo] else was[lo + n % (index - lo)]
  }

  function LiveItems<T>(was: seq<T>, lo: nat, index: nat, count: nat): (r: seq<T>)
    requires index <= |was| && (count > 0 ==> lo < |was|)
    ensures |r| == count
    ensures forall n | 0 <= n < count :: r[n] == LiveItem(was, lo, index, n)
  {
    seq(count, n requires 0 <= n < count => LiveItem(was, lo, index, n))
  }

  /** Reading the slice after `n` of its items have been inserted. */
  lemma ReadsLive<T>(was: seq<T>, lo: nat, index: nat, n: nat)
    requires lo + n < |was| && index <= |was|
    ensures var live := was[..index] + LiveItems(was, lo, index, n) + was[index..];
            lo + n < |live| && live[lo + n] == LiveItem(was, lo, index, n)
    ensures LiveItems(was, lo, index, n + 1) == LiveItems(was, lo, index, n) + [LiveItem(was, lo, index, n)]
  {
    if lo < index {
      var p := index - lo;
      if n < p {
        SmallMod(n, p);
      } else {
        ModBack(n, p);
      }
    }
  }

  lemma SmallMod(n: nat, p: nat)
    requires n < p
    ensures n % p == n
  {
  }

  lemma ModBack(n: nat, p: nat)
    requires 0 < p <= n
    ensures (n - p) % p == n % p
  {
    assert n == p * (n / p) + n % p;
    assert n - p == p * (n / p - 1) + n % p;
    ModUnique(n - p, p, n / p - 1, n % p);
  }

  lemma ModUnique(a: int, p: nat, q: int, r: nat)
    requires 0 < p && a == p * q + r && r < p
    ensures a % p == r
  {
    var d := a / p - q;
    assert p * d == r - a % p;
    assert (0 - p) < p * d < p;
  }

  /** The slice repeats itself at the distance from its start to the index. */
  predicate Repeats<T(==)>(was: seq<T>, lo: nat, hi: nat, index: nat)
    requires lo <= hi <= |was|
  {
    if index <= lo then forall n | lo <= n < hi :: was[n] == was[lo]
    else forall n | index <= n < hi :: was[n] == was[n - (index - lo)]
  }

  /**
   * Inserting a slice of the list itself inserts what the slice held exactly if the slice repeats
   * itself; in particular if it ends by the index.
   */
  lemma OwnSliceIff<T>(was: seq<T>, lo: nat, hi: nat, index: nat)
    requires lo <= hi <= |was| && index <= |was|
    ensures Edit(was[..index] + LiveItems(was, lo, index, hi - lo) + was[index..], Done)
              == Spliced(was, index, index, was[lo..hi])
            <==> Repeats(was, lo, hi, index)
    ensures hi <= index ==> Repeats(was, lo, hi, index)
  {
    var live := LiveItems(was, lo, index, hi - lo);
    SameMiddle(was[..index], live, was[lo..hi], was[index..]);
    if Repeats(was, lo, hi, index) {
      forall n | 0 <= n < hi - lo ensures live[n] == was[lo + n] {
        RepeatsBack(was, lo, hi, index, n);
      }
      assert live == was[lo..hi];
    }
    if live == was[lo..hi] {
      forall n | 0 <= n < hi - lo ensures live[n] == was[lo + n] {
        assert was[lo..hi][n] == was[lo + n];
      }
      LiveRepeats(was, lo, hi, index, live);
    }
  }

  lemma LiveRepeats<T>(was: seq<T>, lo: nat, hi: nat, index: nat, live: seq<T>)
    requires lo <= hi <= |was| && index <= |was| && live == LiveItems(was, lo, index, hi - lo)
    requires forall n | 0 <= n < hi - lo :: live[n] == was[lo + n]
    ensures Repeats(was, lo, hi, index)
  {
    if index <= lo {
      forall n | lo <= n < hi ensures was[n] == was[lo] {
        assert live[n - lo] == was[lo + (n - lo)];
      }
    } else {
      forall n | index <= n < hi ensures was[n] == was[n - (index - lo)] {
        ModBack(n - lo, index - lo);
        assert live[n - lo] == was[lo + (n - lo)];
        assert live[n - index] == was[lo + (n - index)];
      }
    }
  }

  lemma SameMiddle<T>(a: seq<T>, b: seq<T>, c: seq<T>, d: seq<T>)
    requires |b| == |c|
    ensures a + b + d == a + c + d <==> b == c
  {
    if a + b + d == a + c + d {
      assert b == (a + b + d)[|a|..|a| + |b|];
      assert c == (a + c + d)[|a|..|a| + |b|];
    }
  }

  lemma {:induction false} RepeatsBack<T>(was: seq<T>, lo: nat, hi: nat, index: nat, n: nat)
    requires lo <= hi <= |was| && index <= |was| && n < hi - lo && Repeats(was, lo, hi, index)
    ensures LiveItem(was, lo, index, n) == was[lo + n]
    decreases n
  {
    if lo < index {
      var p := index - lo;
      if n < p {
        SmallMod(n, p);
      } else {
        ModBack(n, p);
        RepeatsBack(was, lo, hi, index, n - p);
      }
    }
  }
}
