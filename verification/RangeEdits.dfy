/** What the edits of an index set do to its list of ranges, and to its members. */
module RangeEdits {
  import opened Ranges
  import opened RangeVector

  /** Only the `k`-th range differs. */
  lemma HasReplaced(rs: seq<Range>, k: nat, r: Range, x: nat)
    requires k < |rs|
    ensures Has(rs[k := r], x) <==> Has(rs[..k], x) || r.first <= x < r.second || Has(rs[k + 1..], x)
  {
    HasParts(rs[k := r], k, x);
    assert rs[k := r][..k] == rs[..k] && rs[k := r][k + 1..] == rs[k + 1..];
  }

  lemma HasInserted(rs: seq<Range>, k: nat, r: Range, x: nat)
    requires k <= |rs|
    ensures Has(Inserted(rs, k, r), x) <==> Has(rs, x) || r.first <= x < r.second
  {
    HasParts(Inserted(rs, k, r), k, x);
    assert Inserted(rs, k, r)[..k] == rs[..k] && Inserted(rs, k, r)[k + 1..] == rs[k..];
    assert rs == rs[..k] + rs[k..];
    HasConcat(rs[..k], rs[k..], x);
  }

  lemma HasErased(rs: seq<Range>, k: nat, x: nat)
    requires k < |rs|
    ensures Has(Erased(rs, k), x) <==> Has(rs[..k], x) || Has(rs[k + 1..], x)
  {
    HasConcat(rs[..k], rs[k + 1..], x);
  }

  lemma CanonicalReplaced(rs: seq<Range>, k: nat, r: Range)
    requires k < |rs| && Canonical(rs) && r.first < r.second
    requires (k > 0 ==> rs[k - 1].second < r.first) && (k + 1 < |rs| ==> r.second < rs[k + 1].first)
    ensures Canonical(rs[k := r])
  {
    var s := rs[k := r];
    forall i, j | 0 <= i < j < |s| ensures s[i].second < s[j].first {
      if j == k && i < k - 1 {
        assert rs[i].second < rs[k - 1].first < rs[k - 1].second;
      } else if i == k && k + 1 < j {
        assert rs[k + 1].second < rs[j].first && rs[k + 1].first < rs[k + 1].second;
      }
    }
  }

  lemma CanonicalInserted(rs: seq<Range>, k: nat, r: Range)
    requires k <= |rs| && Canonical(rs) && r.first < r.second
    requires (k > 0 ==> rs[k - 1].second < r.first) && (k < |rs| ==> r.second < rs[k].first)
    ensures Canonical(Inserted(rs, k, r))
  {
    var s := Inserted(rs, k, r);
    forall i, j | 0 <= i < j < |s| ensures s[i].second < s[j].first {
      if j == k && i < k - 1 {
        assert rs[i].second < rs[k - 1].first < rs[k - 1].second;
      } else if i == k && k + 1 < j {
        assert rs[k].second < rs[j - 1].first && rs[k].first < rs[k].second;
      }
    }
  }

  lemma CanonicalErased(rs: seq<Range>, k: nat)
    requires k < |rs| && Canonical(rs)
    ensures Canonical(Erased(rs, k))
  {
    var s := Erased(rs, k);
    assert forall i | 0 <= i < |s| :: s[i] == if i < k then rs[i] else rs[i + 1];
  }

  lemma CanonicalSlice(rs: seq<Range>, lo: nat, hi: nat)
    requires lo <= hi <= |rs| && Canonical(rs)
    ensures Canonical(rs[lo..hi])
  {
  }

  // ---- adding one index ----

  /** The ranges after adding `x`, which joins the range before it, the one after it, or both. */
  function Added(rs: seq<Range>, x: nat): seq<Range> {
    var k := FirstAfter(rs, x);
    if k < |rs| && rs[k].first <= x then rs
    else if k > 0 && rs[k - 1].second == x then
      if k < |rs| && rs[k].first == x + 1
      then Erased(rs[k - 1 := Range(rs[k - 1].first, rs[k].second)], k)
      else rs[k - 1 := Range(rs[k - 1].first, x + 1)]
    else if k < |rs| && rs[k].first == x + 1 then rs[k := Range(x, rs[k].second)]
    else Inserted(rs, k, Range(x, x + 1))
  }

  /** The range that holds `x` after adding it. */
  function AddedAt(rs: seq<Range>, x: nat): nat {
    var k := FirstAfter(rs, x);
    if !(k < |rs| && rs[k].first <= x) && k > 0 && rs[k - 1].second == x then k - 1 else k
  }

  /** The same members as `rs` and `x` besides. */
  ghost predicate OneMore(rs: seq<Range>, s: seq<Range>, x: nat) {
    forall y: nat :: Has(s, y) <==> Has(rs, y) || y == x
  }

  lemma AddedSpec(rs: seq<Range>, x: nat)
    requires Canonical(rs)
    ensures Canonical(Added(rs, x)) && OneMore(rs, Added(rs, x), x)
    ensures AddedAt(rs, x) < |Added(rs, x)|
    ensures Added(rs, x)[AddedAt(rs, x)].first <= x < Added(rs, x)[AddedAt(rs, x)].second
  {
    var k := FirstAfter(rs, x);
    if k < |rs| && rs[k].first <= x {
      AddedInside(rs, x, k);
    } else if k > 0 && rs[k - 1].second == x {
      if k < |rs| && rs[k].first == x + 1 {
        AddedJoins(rs, x, k);
      } else {
        AddedExtends(rs, x, k);
      }
    } else if k < |rs| && rs[k].first == x + 1 {
      AddedPrepends(rs, x, k);
    } else {
      hide Canonical, Has, OneMore;
      AddedAlone(rs, x, k);
    }
  }

  /** Every finite set of naturals has a list of ranges. */
  lemma {:induction false} RangesExist(members: set<nat>) returns (rs: seq<Range>)
    ensures Canonical(rs) && forall y: nat :: Has(rs, y) <==> y in members
    decreases |members|
  {
    hide Canonical, Has, Added;
    rs := [];
    if members == {} {
      NoRanges();
    } else {
      var x: nat :| x in members;
      var before := RangesExist(members - {x});
      AddedSpec(before, x);
      rs := Added(before, x);
    }
  }

  lemma NoRanges()
    ensures Canonical([]) && forall y: nat :: !Has([], y)
  {
  }

  lemma AddedInside(rs: seq<Range>, x: nat, k: nat)
    requires k < |rs| && rs[k].first <= x < rs[k].second
    ensures OneMore(rs, rs, x)
  {
  }

  lemma AddedExtends(rs: seq<Range>, x: nat, k: nat)
    requires Canonical(rs) && 0 < k <= |rs| && rs[k - 1].second == x && (k < |rs| ==> x + 1 < rs[k].first)
    ensures var s := rs[k - 1 := Range(rs[k - 1].first, x + 1)]; Canonical(s) && OneMore(rs, s, x)
  {
    var r := Range(rs[k - 1].first, x + 1);
    CanonicalReplaced(rs, k - 1, r);
    hide Has, Canonical;
    var result := rs[k - 1 := r];
    forall y: nat ensures Has(result, y) <==> Has(rs, y) || y == x {
      HasReplaced(rs, k - 1, r, y);
      HasParts(rs, k - 1, y);
    }
  }

  lemma AddedPrepends(rs: seq<Range>, x: nat, k: nat)
    requires Canonical(rs) && k < |rs| && rs[k].first == x + 1 && (k > 0 ==> rs[k - 1].second < x)
    ensures var s := rs[k := Range(x, rs[k].second)]; Canonical(s) && OneMore(rs, s, x)
  {
    var r := Range(x, rs[k].second);
    CanonicalReplaced(rs, k, r);
    hide Has, Canonical;
    var result := rs[k := r];
    forall y: nat ensures Has(result, y) <==> Has(rs, y) || y == x {
      HasReplaced(rs, k, r, y);
      HasParts(rs, k, y);
    }
  }

  lemma AddedAlone(rs: seq<Range>, x: nat, k: nat)
    requires Canonical(rs) && k <= |rs| && (k > 0 ==> rs[k - 1].second < x) && (k < |rs| ==> x + 1 < rs[k].first)
    ensures var s := Inserted(rs, k, Range(x, x + 1)); Canonical(s) && OneMore(rs, s, x)
  {
    CanonicalInserted(rs, k, Range(x, x + 1));
    hide Has, Canonical;
    var result := Inserted(rs, k, Range(x, x + 1));
    forall y: nat ensures Has(result, y) <==> Has(rs, y) || y == x {
      HasInserted(rs, k, Range(x, x + 1), y);
    }
  }

  lemma AddedJoins(rs: seq<Range>, x: nat, k: nat)
    requires Canonical(rs) && 0 < k < |rs| && rs[k - 1].second == x && rs[k].first == x + 1
    ensures var s := Erased(rs[k - 1 := Range(rs[k - 1].first, rs[k].second)], k);
            && Canonical(s) && OneMore(rs, s, x) && k - 1 < |s| && s[k - 1].first <= x < s[k - 1].second
  {
    hide Has, Canonical, OneMore;
    var r := Range(rs[k - 1].first, rs[k].second);
    var t := Erased(rs, k);
    assert Erased(rs[k - 1 := r], k) == t[k - 1 := r];
    JoinedFits(rs, k);
    CanonicalErased(rs, k);
    CanonicalReplaced(t, k - 1, r);
    AddedJoinsHas(rs, x, k, r);
  }

  /** The two ranges beside an index and their neighbours. */
  lemma JoinedFits(rs: seq<Range>, k: nat)
    requires Canonical(rs) && 0 < k < |rs|
    ensures rs[k - 1].first < rs[k - 1].second && rs[k].first < rs[k].second
    ensures k - 1 > 0 ==> rs[k - 2].second < rs[k - 1].first
    ensures k + 1 < |rs| ==> rs[k].second < rs[k + 1].first
  {
  }

  lemma AddedJoinsHas(rs: seq<Range>, x: nat, k: nat, r: Range)
    requires 0 < k < |rs| && rs[k - 1].second == x && rs[k].first == x + 1 && r == Range(rs[k - 1].first, rs[k].second)
    requires rs[k - 1].first < rs[k - 1].second && rs[k].first < rs[k].second
    ensures OneMore(rs, Erased(rs, k)[k - 1 := r], x)
  {
    hide Has;
    var t := Erased(rs, k);
    var s := t[k - 1 := r];
    assert t[..k - 1] == rs[..k - 1] && t[k..] == rs[k + 1..];
    var tail := rs[k..];
    assert tail[..0] == [] && tail[0 + 1..] == rs[k + 1..];
    HasNone();
    forall y: nat ensures Has(s, y) <==> Has(rs, y) || y == x {
      HasReplaced(t, k - 1, r, y);
      HasParts(rs, k - 1, y);
      HasParts(tail, 0, y);
    }
  }

  lemma HasNone()
    ensures forall y: nat :: !Has([], y)
  {
  }

  // ---- moving the ranges after a point ----

  predicate CanMove(rs: seq<Range>, d: int) {
    forall i | 0 <= i < |rs| :: 0 <= rs[i].first + d && 0 <= rs[i].second + d
  }

  function Move(rs: seq<Range>, d: int): seq<Range>
    requires CanMove(rs, d)
  {
    seq(|rs|, i requires 0 <= i < |rs| => Range(rs[i].first + d, rs[i].second + d))
  }

  /** The ranges from the `k`-th on moved. */
  function MovedFrom(rs: seq<Range>, k: nat, d: int): seq<Range>
    requires k <= |rs| && CanMove(rs[k..], d)
  {
    rs[..k] + Move(rs[k..], d)
  }

  /** The `k`-th range grown by `c` and the later ones moved up. */
  function Grown(rs: seq<Range>, k: nat, c: nat): seq<Range>
    requires k < |rs|
  {
    rs[..k] + [Range(rs[k].first, rs[k].second + c)] + Move(rs[k + 1..], c)
  }

  /** The `k`-th range split at `x`, its upper part and the later ranges moved up. */
  function SplitUp(rs: seq<Range>, k: nat, x: nat, c: nat): seq<Range>
    requires k < |rs|
  {
    rs[..k] + [Range(rs[k].first, x)] + [Range(x + c, rs[k].second + c)] + Move(rs[k + 1..], c)
  }

  lemma HasMove(rs: seq<Range>, d: int, y: nat)
    requires CanMove(rs, d)
    ensures Has(Move(rs, d), y) <==> y - d >= 0 && Has(rs, y - d)
  {
    var s := Move(rs, d);
    if Has(s, y) {
      var i :| 0 <= i < |s| && s[i].first <= y < s[i].second;
      assert rs[i].first <= y - d < rs[i].second;
    }
    if y - d >= 0 && Has(rs, y - d) {
      var i :| 0 <= i < |rs| && rs[i].first <= y - d < rs[i].second;
      assert s[i].first <= y < s[i].second;
    }
  }

  lemma CanonicalMove(rs: seq<Range>, d: int)
    requires CanMove(rs, d) && Canonical(rs)
    ensures Canonical(Move(rs, d))
  {
  }

  /** Members before and from the `k`-th range on lie on the two sides of `x`. */
  lemma Sides(rs: seq<Range>, x: nat, y: nat)
    requires Canonical(rs)
    ensures var k := FirstAfter(rs, x);
            && (Has(rs[..k], y) ==> y < x)
            && (k < |rs| && Has(rs[k..], y) ==> rs[k].first <= y)
            && (k < |rs| && Has(rs[k + 1..], y) ==> rs[k].second < y)
            && (Has(rs, y) <==> Has(rs[..k], y) || Has(rs[k..], y))
  {
    hide Has, Canonical;
    var k := FirstAfter(rs, x);
    SideBefore(rs, k, x, y);
    if k < |rs| {
      SideAfter(rs, k, y);
    }
    assert rs == rs[..k] + rs[k..];
    HasConcat(rs[..k], rs[k..], y);
  }

  lemma SideBefore(rs: seq<Range>, k: nat, x: nat, y: nat)
    requires k <= |rs| && forall i | 0 <= i < k :: rs[i].second <= x
    ensures Has(rs[..k], y) ==> y < x
  {
  }

  lemma SideAfter(rs: seq<Range>, k: nat, y: nat)
    requires k < |rs| && Canonical(rs)
    ensures Has(rs[k..], y) ==> rs[k].first <= y
    ensures Has(rs[k + 1..], y) ==> rs[k].second < y
  {
    if Has(rs[k..], y) {
      var i :| 0 <= i < |rs[k..]| && rs[k..][i].first <= y < rs[k..][i].second;
      assert rs[k..][i] == rs[k + i];
    }
    if Has(rs[k + 1..], y) {
      var i :| 0 <= i < |rs[k + 1..]| && rs[k + 1..][i].first <= y < rs[k + 1..][i].second;
      assert rs[k + 1..][i] == rs[k + 1 + i];
    }
  }

  /** Two canonical lists with a gap between them. */
  lemma CanonicalConcat(a: seq<Range>, b: seq<Range>)
    requires Canonical(a) && Canonical(b)
    requires a != [] && b != [] ==> a[|a| - 1].second < b[0].first
    ensures Canonical(a + b)
  {
    var s := a + b;
    forall i, j | 0 <= i < j < |s| ensures s[i].second < s[j].first {
      if i < |a| <= j {
        assert a[i].second <= a[|a| - 1].second;
        assert b[0].first <= b[j - |a|].first;
      }
    }
  }

  /** Where a member comes from when `c` indices are opened up at `x`. */
  ghost predicate HadBefore(rs: seq<Range>, x: nat, c: nat, y: nat) {
    (y < x && Has(rs, y)) || (y >= x + c && Has(rs, y - c))
  }

  /** The members are those of `rs` with `c` indices opened up at `x`; the new ones are in iff `filled`. */
  ghost predicate OpenedUp(rs: seq<Range>, s: seq<Range>, x: nat, c: nat, filled: bool) {
    forall y: nat :: Has(s, y) <==> HadBefore(rs, x, c, y) || (filled && x <= y < x + c)
  }

  /** The point lies in a range, which grows by the new indices. */
  lemma GrowsInside(rs: seq<Range>, x: nat, c: nat)
    requires Canonical(rs)
    requires var k := FirstAfter(rs, x); k < |rs| && rs[k].first <= x
    ensures var k := FirstAfter(rs, x);
            var s := Grown(rs, k, c);
            Canonical(s) && OpenedUp(rs, s, x, c, true)
  {
    var k := FirstAfter(rs, x);
    hide Has, Canonical, HadBefore, Move, FirstAfter, Grown;
    GrownCanonical(rs, k, c);
    var result := Grown(rs, k, c);
    forall y: nat ensures Has(result, y) <==> HadBefore(rs, x, c, y) || x <= y < x + c {
      GrowsInsideAt(rs, x, c, y);
    }
  }

  lemma GrownCanonical(rs: seq<Range>, k: nat, c: nat)
    requires Canonical(rs) && k < |rs|
    ensures Canonical(Grown(rs, k, c))
  {
    var r := Range(rs[k].first, rs[k].second + c);
    GapAfter(rs, k);
    CanonicalAround(rs, k);
    CanonicalMove(rs[k + 1..], c);
    OneCanonical(r);
    hide Canonical;
    CanonicalConcat(rs[..k], [r]);
    CanonicalConcat(rs[..k] + [r], Move(rs[k + 1..], c));
  }

  lemma GrowsInsideAt(rs: seq<Range>, x: nat, c: nat, y: nat)
    requires Canonical(rs)
    requires var k := FirstAfter(rs, x); k < |rs| && rs[k].first <= x
    ensures var k := FirstAfter(rs, x);
            Has(Grown(rs, k, c), y) <==> HadBefore(rs, x, c, y) || x <= y < x + c
  {
    hide Has, Canonical, Move, FirstAfter;
    var k := FirstAfter(rs, x);
    var r := Range(rs[k].first, rs[k].second + c);
    HasConcat(rs[..k] + [r], Move(rs[k + 1..], c), y);
    HasConcat(rs[..k], [r], y);
    HasOne(r, y);
    HasMove(rs[k + 1..], c, y);
    HasParts(rs, k, y);
    Sides(rs, x, y);
    if y >= c {
      HasParts(rs, k, y - c);
      Sides(rs, x, y - c);
    }
  }

  lemma OneCanonical(r: Range)
    requires r.first < r.second
    ensures Canonical([r])
  {
  }

  lemma CanonicalAround(rs: seq<Range>, k: nat)
    requires Canonical(rs) && k < |rs|
    ensures Canonical(rs[..k]) && Canonical(rs[k..]) && Canonical(rs[k + 1..])
  {
  }

  /** The point lies in no range: the later ranges move, and nothing fills the gap. */
  lemma MovesAfter(rs: seq<Range>, x: nat, c: nat)
    requires Canonical(rs)
    requires var k := FirstAfter(rs, x); k < |rs| ==> x <= rs[k].first
    ensures var k := FirstAfter(rs, x);
            var s := MovedFrom(rs, k, c);
            Canonical(s) && OpenedUp(rs, s, x, c, false)
  {
    var k := FirstAfter(rs, x);
    hide Has, Canonical, HadBefore, FirstAfter;
    MovesCanonical(rs, k, c);
    var result := MovedFrom(rs, k, c);
    forall y: nat ensures Has(result, y) <==> HadBefore(rs, x, c, y) {
      MovesAfterAt(rs, x, c, y);
    }
  }

  lemma MovesCanonical(rs: seq<Range>, k: nat, c: nat)
    requires Canonical(rs) && k <= |rs|
    ensures Canonical(MovedFrom(rs, k, c))
  {
    CanonicalSlice(rs, 0, k);
    CanonicalSlice(rs, k, |rs|);
    CanonicalMove(rs[k..], c);
    if k < |rs| {
      GapAfter(rs, k);
    }
    hide Canonical, Has;
    CanonicalConcat(rs[..k], Move(rs[k..], c));
  }

  lemma MovesAfterAt(rs: seq<Range>, x: nat, c: nat, y: nat)
    requires Canonical(rs)
    requires var k := FirstAfter(rs, x); k < |rs| ==> x <= rs[k].first
    ensures var k := FirstAfter(rs, x); Has(MovedFrom(rs, k, c), y) <==> HadBefore(rs, x, c, y)
  {
    hide Has, Canonical, FirstAfter;
    var k := FirstAfter(rs, x);
    assert k == |rs| ==> rs[k..] == [];
    HasNone();
    HasConcat(rs[..k], Move(rs[k..], c), y);
    HasMove(rs[k..], c, y);
    Sides(rs, x, y);
    if y >= c {
      Sides(rs, x, y - c);
    }
  }

  /** The point lies inside a range, which is split around the gap. */
  lemma SplitsInside(rs: seq<Range>, x: nat, c: nat)
    requires Canonical(rs) && c > 0
    requires var k := FirstAfter(rs, x); k < |rs| && rs[k].first < x
    ensures var k := FirstAfter(rs, x);
            var s := SplitUp(rs, k, x, c);
            Canonical(s) && OpenedUp(rs, s, x, c, false)
  {
    var k := FirstAfter(rs, x);
    hide Has, Canonical, HadBefore, FirstAfter, Move, SplitUp;
    SplitUpCanonical(rs, k, x, c);
    var result := SplitUp(rs, k, x, c);
    forall y: nat ensures Has(result, y) <==> HadBefore(rs, x, c, y) {
      SplitsInsideAt(rs, x, c, y);
    }
  }

  lemma SplitUpCanonical(rs: seq<Range>, k: nat, x: nat, c: nat)
    requires Canonical(rs) && k < |rs| && rs[k].first < x < rs[k].second && c > 0
    ensures Canonical(SplitUp(rs, k, x, c))
  {
    hide Canonical;
    var l := Range(rs[k].first, x);
    var r := Range(x + c, rs[k].second + c);
    GapAfter(rs, k);
    CanonicalAround(rs, k);
    CanonicalMove(rs[k + 1..], c);
    OneCanonical(l);
    OneCanonical(r);
    CanonicalConcat(rs[..k], [l]);
    CanonicalConcat(rs[..k] + [l], [r]);
    CanonicalConcat(rs[..k] + [l] + [r], Move(rs[k + 1..], c));
  }

  lemma SplitsInsideAt(rs: seq<Range>, x: nat, c: nat, y: nat)
    requires Canonical(rs) && c > 0
    requires var k := FirstAfter(rs, x); k < |rs| && rs[k].first < x
    ensures var k := FirstAfter(rs, x);
            Has(SplitUp(rs, k, x, c), y) <==> HadBefore(rs, x, c, y)
  {
    hide Has, Canonical, Move, FirstAfter;
    var k := FirstAfter(rs, x);
    var l := Range(rs[k].first, x);
    var r := Range(x + c, rs[k].second + c);
    HasConcat(rs[..k] + [l] + [r], Move(rs[k + 1..], c), y);
    HasConcat(rs[..k] + [l], [r], y);
    HasConcat(rs[..k], [l], y);
    HasOne(l, y);
    HasOne(r, y);
    HasMove(rs[k + 1..], c, y);
    HasParts(rs, k, y);
    Sides(rs, x, y);
    if y >= c {
      HasParts(rs, k, y - c);
      Sides(rs, x, y - c);
    }
  }

  // ---- erasing one index ----

  /** Where a member comes from when the index `x` is deleted. */
  ghost predicate HadBelow(rs: seq<Range>, x: nat, y: nat) {
    (y < x && Has(rs, y)) || (y >= x && Has(rs, y + 1))
  }

  /** The members are those of `rs` with the index `x` deleted and the later ones moved down. */
  ghost predicate ClosedUp(rs: seq<Range>, s: seq<Range>, x: nat) {
    forall y: nat :: Has(s, y) <==> HadBelow(rs, x, y)
  }

  /** The ranges after deleting `x`: its range shrinks or goes, or the two beside it join. */
  function Closed(rs: seq<Range>, x: nat): seq<Range>
    requires Canonical(rs)
  {
    var k := FirstAfter(rs, x);
    if k == |rs| then rs
    else if rs[k].first <= x then
      if rs[k].first + 1 == rs[k].second then rs[..k] + Move(rs[k + 1..], -1)
      else rs[..k] + [Range(rs[k].first, rs[k].second - 1)] + Move(rs[k + 1..], -1)
    else if k > 0 && rs[k - 1].second + 1 == rs[k].first then
      rs[..k - 1] + [Range(rs[k - 1].first, rs[k].second - 1)] + Move(rs[k + 1..], -1)
    else rs[..k] + Move(rs[k..], -1)
  }

  lemma ClosedSpec(rs: seq<Range>, x: nat)
    requires Canonical(rs)
    ensures Canonical(Closed(rs, x)) && ClosedUp(rs, Closed(rs, x), x)
  {
    hide ClosedUp, Has, HadBelow, Canonical, Move, CanMove;
    var k := FirstAfter(rs, x);
    if k == |rs| {
      ClosedNothing(rs, x);
    } else if rs[k].first <= x {
      if rs[k].first + 1 == rs[k].second {
        ClosedGone(rs, x, k);
      } else {
        ClosedShrinks(rs, x, k);
      }
    } else if k > 0 && rs[k - 1].second + 1 == rs[k].first {
      ClosedJoins(rs, x, k);
    } else {
      ClosedMoves(rs, x, k);
    }
  }

  lemma ClosedNothing(rs: seq<Range>, x: nat)
    requires Canonical(rs) && FirstAfter(rs, x) == |rs|
    ensures ClosedUp(rs, rs, x)
  {
    assert rs[..|rs|] == rs;
    assert rs[|rs|..] == [];
    HasNone();
    hide Has, Canonical;
    forall y: nat ensures Has(rs, y) <==> HadBelow(rs, x, y) {
      Sides(rs, x, y);
      Sides(rs, x, y + 1);
    }
  }

  lemma ClosedSides(rs: seq<Range>, x: nat, k: nat, y: nat)
    requires Canonical(rs) && k == FirstAfter(rs, x) < |rs|
    ensures Has(rs, y) <==> Has(rs[..k], y) || rs[k].first <= y < rs[k].second || Has(rs[k + 1..], y)
    ensures Has(rs[..k], y) ==> y < x
    ensures Has(rs[k + 1..], y) ==> rs[k].second < y
  {
    hide Has, Canonical;
    HasParts(rs, k, y);
    Sides(rs, x, y);
  }

  lemma ClosedGone(rs: seq<Range>, x: nat, k: nat)
    requires Canonical(rs) && k == FirstAfter(rs, x) < |rs| && rs[k] == Range(x, x + 1)
    ensures CanMove(rs[k + 1..], -1)
    ensures var s := rs[..k] + Move(rs[k + 1..], -1); Canonical(s) && ClosedUp(rs, s, x)
  {
    hide Has, Canonical, FirstAfter, HadBelow;
    GoneCanonical(rs, k);
    var result := rs[..k] + Move(rs[k + 1..], -1);
    forall y: nat ensures Has(result, y) <==> HadBelow(rs, x, y) {
      ClosedGoneAt(rs, x, k, y);
    }
  }

  lemma GoneCanonical(rs: seq<Range>, k: nat)
    requires Canonical(rs) && k < |rs|
    ensures CanMove(rs[k + 1..], -1) && Canonical(rs[..k] + Move(rs[k + 1..], -1))
  {
    LaterCanMove(rs, k);
    CanonicalAround(rs, k);
    CanonicalMove(rs[k + 1..], -1);
    GapAfter(rs, k);
    hide Canonical, Has;
    CanonicalConcat(rs[..k], Move(rs[k + 1..], -1));
  }

  lemma LaterCanMove(rs: seq<Range>, k: nat)
    requires Canonical(rs) && k < |rs|
    ensures CanMove(rs[k + 1..], -1)
  {
    var t := rs[k + 1..];
    forall i | 0 <= i < |t| ensures 0 < t[i].first < t[i].second {
      assert rs[k].second < rs[k + 1 + i].first;
    }
  }

  lemma GapAfter(rs: seq<Range>, k: nat)
    requires Canonical(rs) && k < |rs|
    ensures k > 0 ==> rs[..k][|rs[..k]| - 1] == rs[k - 1] && rs[k - 1].second < rs[k].first
    ensures k + 1 < |rs| ==> rs[k + 1..][0] == rs[k + 1] && rs[k].first < rs[k].second < rs[k + 1].first
  {
  }

  lemma ClosedGoneAt(rs: seq<Range>, x: nat, k: nat, y: nat)
    requires Canonical(rs) && k == FirstAfter(rs, x) < |rs| && rs[k] == Range(x, x + 1) && CanMove(rs[k + 1..], -1)
    ensures Has(rs[..k] + Move(rs[k + 1..], -1), y) <==> HadBelow(rs, x, y)
  {
    hide Has, Canonical, Move, CanMove, FirstAfter;
    HasConcat(rs[..k], Move(rs[k + 1..], -1), y);
    HasMove(rs[k + 1..], -1, y);
    ClosedSides(rs, x, k, y);
    ClosedSides(rs, x, k, y + 1);
  }

  lemma ClosedShrinks(rs: seq<Range>, x: nat, k: nat)
    requires Canonical(rs) && k == FirstAfter(rs, x) < |rs| && rs[k].first <= x && rs[k].first + 1 < rs[k].second
    ensures CanMove(rs[k + 1..], -1)
    ensures var s := rs[..k] + [Range(rs[k].first, rs[k].second - 1)] + Move(rs[k + 1..], -1);
            Canonical(s) && ClosedUp(rs, s, x)
  {
    hide Has, Canonical, FirstAfter, HadBelow;
    var r := Range(rs[k].first, rs[k].second - 1);
    LaterCanMove(rs, k);
    GapAfter(rs, k);
    var tail := Move(rs[k + 1..], -1);
    CanonicalAround(rs, k);
    CanonicalMove(rs[k + 1..], -1);
    OneCanonical(r);
    CanonicalConcat(rs[..k], [r]);
    CanonicalConcat(rs[..k] + [r], tail);
    var result := rs[..k] + [r] + tail;
    forall y: nat ensures Has(result, y) <==> HadBelow(rs, x, y) {
      ClosedShrinksAt(rs, x, k, y);
    }
  }

  lemma ClosedShrinksAt(rs: seq<Range>, x: nat, k: nat, y: nat)
    requires Canonical(rs) && k == FirstAfter(rs, x) < |rs| && rs[k].first <= x && rs[k].first + 1 < rs[k].second
    requires CanMove(rs[k + 1..], -1)
    ensures Has(rs[..k] + [Range(rs[k].first, rs[k].second - 1)] + Move(rs[k + 1..], -1), y) <==> HadBelow(rs, x, y)
  {
    hide Has, Canonical, Move, CanMove;
    var r := Range(rs[k].first, rs[k].second - 1);
    HasConcat(rs[..k] + [r], Move(rs[k + 1..], -1), y);
    HasConcat(rs[..k], [r], y);
    HasOne(r, y);
    HasMove(rs[k + 1..], -1, y);
    ClosedSides(rs, x, k, y);
    ClosedSides(rs, x, k, y + 1);
  }

  lemma ClosedMoves(rs: seq<Range>, x: nat, k: nat)
    requires Canonical(rs) && k == FirstAfter(rs, x) < |rs| && x < rs[k].first
    requires k > 0 ==> rs[k - 1].second + 1 < rs[k].first
    ensures CanMove(rs[k..], -1)
    ensures var s := rs[..k] + Move(rs[k..], -1); Canonical(s) && ClosedUp(rs, s, x)
  {
    FromIsLater(rs, k);
    var tail := Move(rs[k..], -1);
    CanonicalAround(rs, k);
    CanonicalMove(rs[k..], -1);
    CanonicalConcat(rs[..k], tail);
    hide Has, Canonical, Move, CanMove, FirstAfter, HadBelow;
    var result := rs[..k] + tail;
    forall y: nat ensures Has(result, y) <==> HadBelow(rs, x, y) {
      ClosedMovesAt(rs, x, k, y);
    }
  }

  lemma FromIsLater(rs: seq<Range>, k: nat)
    requires Canonical(rs) && k < |rs| && 0 < rs[k].first
    ensures CanMove(rs[k..], -1)
  {
    var t := rs[k..];
    forall i | 0 <= i < |t| ensures 0 < t[i].first < t[i].second {
      assert t[i] == rs[k + i];
    }
  }

  lemma ClosedMovesAt(rs: seq<Range>, x: nat, k: nat, y: nat)
    requires Canonical(rs) && k == FirstAfter(rs, x) < |rs| && x < rs[k].first && CanMove(rs[k..], -1)
    ensures Has(rs[..k] + Move(rs[k..], -1), y) <==> HadBelow(rs, x, y)
  {
    hide Has, Canonical, Move, CanMove, FirstAfter;
    HasConcat(rs[..k], Move(rs[k..], -1), y);
    HasMove(rs[k..], -1, y);
    Sides(rs, x, y);
    Sides(rs, x, y + 1);
  }

  lemma ClosedJoins(rs: seq<Range>, x: nat, k: nat)
    requires Canonical(rs) && 0 < k == FirstAfter(rs, x) < |rs| && x < rs[k].first
    requires rs[k - 1].second + 1 == rs[k].first
    ensures CanMove(rs[k + 1..], -1)
    ensures var s := rs[..k - 1] + [Range(rs[k - 1].first, rs[k].second - 1)] + Move(rs[k + 1..], -1);
            Canonical(s) && ClosedUp(rs, s, x)
  {
    hide Has, Canonical, FirstAfter, HadBelow;
    JoinsCanonical(rs, k);
    var r := Range(rs[k - 1].first, rs[k].second - 1);
    var result := rs[..k - 1] + [r] + Move(rs[k + 1..], -1);
    forall y: nat ensures Has(result, y) <==> HadBelow(rs, x, y) {
      ClosedJoinsAt(rs, x, k, y);
    }
  }

  lemma JoinsCanonical(rs: seq<Range>, k: nat)
    requires Canonical(rs) && 0 < k < |rs|
    ensures 0 < rs[k].second && CanMove(rs[k + 1..], -1)
    ensures Canonical(rs[..k - 1] + [Range(rs[k - 1].first, rs[k].second - 1)] + Move(rs[k + 1..], -1))
  {
    var r := Range(rs[k - 1].first, rs[k].second - 1);
    LaterCanMove(rs, k);
    CanonicalAround(rs, k);
    CanonicalAround(rs, k - 1);
    CanonicalMove(rs[k + 1..], -1);
    GapAfter(rs, k);
    GapAfter(rs, k - 1);
    OneCanonical(r);
    hide Canonical, Has;
    CanonicalConcat(rs[..k - 1], [r]);
    CanonicalConcat(rs[..k - 1] + [r], Move(rs[k + 1..], -1));
  }

  lemma ClosedJoinsAt(rs: seq<Range>, x: nat, k: nat, y: nat)
    requires Canonical(rs) && 0 < k == FirstAfter(rs, x) < |rs| && x < rs[k].first
    requires rs[k - 1].second + 1 == rs[k].first && CanMove(rs[k + 1..], -1)
    ensures Has(rs[..k - 1] + [Range(rs[k - 1].first, rs[k].second - 1)] + Move(rs[k + 1..], -1), y) <==>
              HadBelow(rs, x, y)
  {
    LastOfPrefix(rs, k, y);
    LastOfPrefix(rs, k, y + 1);
    hide Has, Canonical, Move, CanMove;
    var r := Range(rs[k - 1].first, rs[k].second - 1);
    HasConcat(rs[..k - 1] + [r], Move(rs[k + 1..], -1), y);
    HasConcat(rs[..k - 1], [r], y);
    HasOne(r, y);
    HasMove(rs[k + 1..], -1, y);
    ClosedSides(rs, x, k, y);
    ClosedSides(rs, x, k, y + 1);
  }

  lemma LastOfPrefix(rs: seq<Range>, k: nat, y: nat)
    requires Canonical(rs) && 0 < k <= |rs|
    ensures Has(rs[..k - 1], y) ==> y < rs[k - 1].first
    ensures Has(rs[..k], y) <==> Has(rs[..k - 1], y) || rs[k - 1].first <= y < rs[k - 1].second
  {
    assert rs[..k] == rs[..k - 1] + [rs[k - 1]];
    HasConcat(rs[..k - 1], [rs[k - 1]], y);
    HasOne(rs[k - 1], y);
  }

  // ---- removing a stretch of indices without shifting ----

  /** One step of removing `[b, e)`: the part of it in the `k`-th range goes. */
  function Cut(rs: seq<Range>, k: nat, b: nat, e: nat): seq<Range>
    requires k < |rs|
  {
    var r := rs[k];
    if r.first < b && e < r.second then Inserted(rs[k := Range(r.first, b)], k + 1, Range(e, r.second))
    else if b == r.first && r.second <= e then Erased(rs, k)
    else if b == r.first then rs[k := Range(e, r.second)]
    else rs[k := Range(r.first, b)]
  }

  ghost predicate WithoutPart(rs: seq<Range>, s: seq<Range>, r: Range, b: nat, e: nat) {
    forall y: nat :: Has(s, y) <==> Has(rs, y) && !(r.first <= y < r.second && b <= y < e)
  }

  lemma CutHas(rs: seq<Range>, k: nat, b: nat, e: nat)
    requires Canonical(rs) && k < |rs| && rs[k].first <= b < rs[k].second && b <= e
    ensures WithoutPart(rs, Cut(rs, k, b, e), rs[k], b, e)
  {
    hide Has, Canonical;
    var s := Cut(rs, k, b, e);
    forall y: nat ensures Has(s, y) <==> Has(rs, y) && !(rs[k].first <= y < rs[k].second && b <= y < e) {
      CutHasAt(rs, k, b, e, y);
    }
  }

  lemma CutHasAt(rs: seq<Range>, k: nat, b: nat, e: nat, y: nat)
    requires Canonical(rs) && k < |rs| && rs[k].first <= b < rs[k].second && b <= e
    ensures Has(Cut(rs, k, b, e), y) <==> Has(rs, y) && !(rs[k].first <= y < rs[k].second && b <= y < e)
  {
    OnlyInRange(rs, k, y);
    hide Has, Canonical;
    var r := rs[k];
    HasParts(rs, k, y);
    if r.first < b && e < r.second {
      HasInserted(rs[k := Range(r.first, b)], k + 1, Range(e, r.second), y);
      HasReplaced(rs, k, Range(r.first, b), y);
    } else if b == r.first && r.second <= e {
      HasErased(rs, k, y);
    } else if b == r.first {
      HasReplaced(rs, k, Range(e, r.second), y);
    } else {
      HasReplaced(rs, k, Range(r.first, b), y);
    }
  }

  /** An index of one range is in no other. */
  lemma OnlyInRange(rs: seq<Range>, k: nat, y: nat)
    requires Canonical(rs) && k < |rs|
    ensures rs[k].first <= y < rs[k].second ==> !Has(rs[..k], y) && !Has(rs[k + 1..], y)
  {
    SideAfter(rs, k, y);
  }

  /** Cutting keeps the ranges coalesced unless nothing is cut from the inside of one. */
  lemma CutCanonical(rs: seq<Range>, k: nat, b: nat, e: nat)
    requires Canonical(rs) && k < |rs| && rs[k].first <= b < rs[k].second && b <= e && (b == e ==> rs[k].first < b)
    ensures Sorted(Cut(rs, k, b, e))
    ensures Canonical(Cut(rs, k, b, e)) <==> b < e
  {
    var r := rs[k];
    if r.first < b && e < r.second {
      CutInside(rs, k, b, e);
    } else if b == r.first && r.second <= e {
      CanonicalErased(rs, k);
      CanonicalSorted(Erased(rs, k));
    } else if b == r.first {
      CanonicalReplaced(rs, k, Range(e, r.second));
      CanonicalSorted(rs[k := Range(e, r.second)]);
    } else {
      CanonicalReplaced(rs, k, Range(r.first, b));
      CanonicalSorted(rs[k := Range(r.first, b)]);
    }
  }

  lemma CutInside(rs: seq<Range>, k: nat, b: nat, e: nat)
    requires Canonical(rs) && k < |rs| && rs[k].first < b <= e < rs[k].second
    ensures var s := Inserted(rs[k := Range(rs[k].first, b)], k + 1, Range(e, rs[k].second));
            Sorted(s) && (Canonical(s) <==> b < e)
  {
    hide Canonical;
    NeighboursApart(rs, k);
    var l := rs[k := Range(rs[k].first, b)];
    var s := Inserted(l, k + 1, Range(e, rs[k].second));
    CanonicalReplaced(rs, k, Range(rs[k].first, b));
    CanonicalSorted(l);
    if b < e {
      CanonicalInserted(l, k + 1, Range(e, rs[k].second));
      CanonicalSorted(s);
    } else {
      Touching(s, k);
      SortedInserted(l, k + 1, Range(e, rs[k].second));
    }
  }

  lemma NeighboursApart(rs: seq<Range>, k: nat)
    requires Canonical(rs) && k < |rs|
    ensures (k > 0 ==> rs[k - 1].second < rs[k].first) && (k + 1 < |rs| ==> rs[k].second < rs[k + 1].first)
  {
  }

  /** Ranges that touch are not coalesced. */
  lemma Touching(rs: seq<Range>, k: nat)
    requires k + 1 < |rs| && rs[k].second == rs[k + 1].first
    ensures !Canonical(rs)
  {
  }

  lemma SortedInserted(rs: seq<Range>, k: nat, r: Range)
    requires 0 < k <= |rs| && Sorted(rs) && r.first <= r.second
    requires rs[k - 1].second <= r.first && (k < |rs| ==> r.second <= rs[k].first)
    ensures Sorted(Inserted(rs, k, r))
  {
    var s := Inserted(rs, k, r);
    forall i, j | 0 <= i < j < |s| ensures s[i].second <= s[j].first {
      if j == k && i < k - 1 {
        assert rs[i].second <= rs[k - 1].first <= rs[k - 1].second;
      } else if i == k && k + 1 < j {
        assert rs[k].second <= rs[j - 1].first && rs[k].first <= rs[k].second;
      }
    }
  }

  /** Where the search for the next range to cut goes on. */
  lemma CutNext(rs: seq<Range>, k: nat, b: nat, e: nat)
    requires Canonical(rs) && k < |rs| && rs[k].first <= b < rs[k].second && b <= e && (b == e ==> rs[k].first < b)
    requires forall i | 0 <= i < k :: rs[i].second <= b
    ensures var s := Cut(rs, k, b, e);
            var n := if rs[k].first < b then k + 1 else k;
            FirstAfter(s, b) == n && n <= |s| && |s| - n <= |rs| - k
    ensures var s := Cut(rs, k, b, e);
            var n := if rs[k].first < b then k + 1 else k;
            |s| - n == |rs| - k ==> s[n].first == e
  {
    var s := Cut(rs, k, b, e);
    var n := if rs[k].first < b then k + 1 else k;
    assert forall i | 0 <= i < k :: s[i] == rs[i];
    if n < |s| && k + 1 < |rs| {
      assert rs[k].second < rs[k + 1].first < rs[k + 1].second;
    }
    FirstAfterIs(s, b, n);
  }

  // ---- after an index was added ----

  /** If the next index is not a member, the range of `x` ends there and the search goes on behind it. */
  lemma AddedThenNext(rs: seq<Range>, x: nat, p: nat)
    requires Canonical(rs) && p < |rs| && rs[p].first <= x < rs[p].second && !Has(rs, x + 1)
    ensures rs[p].second == x + 1 && FirstAfter(rs, x + 1) == p + 1
  {
    assert forall i | 0 <= i < p :: rs[i].second < rs[p].first;
    FirstAfterIs(rs, x + 1, p + 1);
  }

  // ---- the same results as the vector reaches them ----

  /** Splitting a range after it and the later ones have moved. */
  lemma SplitMoved(rs: seq<Range>, k: nat, x: nat, c: nat)
    requires k < |rs|
    ensures var s := MovedFrom(rs, k, c);
            |s| == |rs| && s[k] == Range(rs[k].first + c, rs[k].second + c) &&
            Inserted(s[k := Range(rs[k].first, x)], k + 1, Range(x + c, rs[k].second + c)) == SplitUp(rs, k, x, c)
  {
    var s := MovedFrom(rs, k, c);
    var t := s[k := Range(rs[k].first, x)];
    assert t[..k + 1] == rs[..k] + [Range(rs[k].first, x)];
    assert t[k + 1..] == Move(rs[k + 1..], c);
  }

  /** Deleting a whole range, then moving the later ones down. */
  lemma ClosedIsGone(rs: seq<Range>, x: nat, k: nat)
    requires Canonical(rs) && k == FirstAfter(rs, x) < |rs| && rs[k].first <= x && rs[k].first + 1 == rs[k].second
    ensures CanMove(Erased(rs, k)[k..], -1) && Closed(rs, x) == MovedFrom(Erased(rs, k), k, -1)
  {
    hide Canonical, FirstAfter, Move;
    LaterCanMove(rs, k);
    assert Erased(rs, k)[k..] == rs[k + 1..] && Erased(rs, k)[..k] == rs[..k];
  }

  lemma ClosedIsShrunk(rs: seq<Range>, x: nat, k: nat)
    requires Canonical(rs) && k == FirstAfter(rs, x) < |rs| && rs[k].first <= x && rs[k].first + 1 < rs[k].second
    ensures var s := rs[k := Range(rs[k].first, rs[k].second - 1)];
            CanMove(s[k + 1..], -1) && Closed(rs, x) == MovedFrom(s, k + 1, -1)
  {
    hide Canonical, FirstAfter, Move, CanMove;
    var r := Range(rs[k].first, rs[k].second - 1);
    var s := rs[k := r];
    LaterCanMove(rs, k);
    var tail := rs[k + 1..];
    assert s[k + 1..] == tail;
    assert s[..k + 1] == rs[..k] + [r];
  }

  lemma ClosedIsJoined(rs: seq<Range>, x: nat, k: nat)
    requires Canonical(rs) && 0 < k == FirstAfter(rs, x) < |rs| && x < rs[k].first
    requires rs[k - 1].second + 1 == rs[k].first
    ensures var s := Erased(rs[k - 1 := Range(rs[k - 1].first, rs[k - 1].second + rs[k].Len())], k);
            CanMove(s[k..], -1) && Closed(rs, x) == MovedFrom(s, k, -1)
  {
    hide Canonical, FirstAfter, Move, CanMove;
    var r := Range(rs[k - 1].first, rs[k].second - 1);
    var s := Erased(rs[k - 1 := r], k);
    LaterCanMove(rs, k);
    var tail := rs[k + 1..];
    assert s[k..] == tail;
    assert s[..k] == rs[..k - 1] + [r];
  }

  lemma ClosedIsMoved(rs: seq<Range>, x: nat, k: nat)
    requires Canonical(rs) && k == FirstAfter(rs, x) < |rs| && x < rs[k].first
    requires !(k > 0 && rs[k - 1].second + 1 == rs[k].first)
    ensures CanMove(rs[k..], -1) && Closed(rs, x) == MovedFrom(rs, k, -1)
  {
    FromIsLater(rs, k);
  }

  // ---- where a shifted index lands ----

  /** An index pushed past the first `k` ranges. */
  function Pushed(rs: seq<Range>, k: nat, i: nat): int
    requires k <= |rs|
  {
    i + TotalUpTo(rs, k)
  }

  /** Pushing the index past the ranges that start by where it is ends at the shifted index. */
  lemma {:induction false} PushedLands(rs: seq<Range>, k: nat, i: nat)
    requires Canonical(rs) && k <= |rs| && Pushed(rs, k, i) >= 0
    requires forall j | 0 <= j < k :: rs[j].first <= Pushed(rs, j, i)
    requires k < |rs| ==> Pushed(rs, k, i) < rs[k].first
    ensures Pushed(rs, k, i) == ShiftTo(rs, i)
    decreases k
  {
    if k == 0 {
    } else {
      var tail := rs[1..];
      assert rs[..0] == [];
      assert forall j | 0 <= j < |tail| :: tail[j] == rs[j + 1];
      var next := i + rs[0].Len();
      forall j | 0 <= j <= k - 1 ensures Pushed(tail, j, next) == Pushed(rs, j + 1, i) {
        assert rs[..j + 1] == [rs[0]] + tail[..j];
        TotalConcat([rs[0]], tail[..j]);
        TotalOne(rs[0]);
      }
      assert rs[0].first <= Pushed(rs, 0, i) == i;
      PushedLands(tail, k - 1, next);
    }
  }

  lemma PushedNext(rs: seq<Range>, k: nat, i: nat)
    requires k < |rs|
    ensures Pushed(rs, k + 1, i) == Pushed(rs, k, i) + rs[k].Len()
  {
    TotalUpToNext(rs, k);
  }

  /** The shifted index is where the search for it stops. */
  lemma PushedIsFirstAfter(rs: seq<Range>, k: nat, y: nat)
    requires Canonical(rs) && k <= |rs| && !Has(rs, y)
    requires (k > 0 ==> rs[k - 1].first <= y) && (k < |rs| ==> y < rs[k].first)
    ensures FirstAfter(rs, y) == k
  {
    FirstAfterIs(rs, y, k);
  }
}
