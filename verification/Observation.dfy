/** The chains of observation records of one class: all records for a row, linked in both directions. */
module Observation {
  import opened Wrappers

  class ObservationInfo {
    const target: int
    var next: ObservationInfo?
    var prev: ObservationInfo?
    var row: Option<nat>

    constructor (target: int)
      ensures this.target == target && next == null && prev == null && row == None
    {
      this.target := target;
      next, prev, row := null, null, None;
    }

    /**
     * Call back for every record of the chain this one is in: those before it, nearest first, then
     * this one and those after it. The calls are returned in order.
     */
    method ForEach(ghost chain: seq<ObservationInfo>, ghost k: nat) returns (visited: seq<ObservationInfo>)
      requires Linked(chain) && k < |chain| && chain[k] == this
      ensures visited == Reversed(chain[..k]) + chain[k..]
    {
      visited := [];
      assert LinkAt(chain, k);
      ghost var j: int := k;
      var info := prev;
      while info != null
        invariant 0 <= j <= k && info == (if j == 0 then null else chain[j - 1])
        invariant visited == Reversed(chain[j..k])
        decreases j
      {
        ReversedLast(chain, j - 1, k);
        assert LinkAt(chain, j - 1);
        visited := visited + [info];
        info := info.prev;
        j := j - 1;
      }
      assert chain[0..k] == chain[..k];
      info := this;
      j := k;
      while info != null
        invariant k <= j <= |chain| && info == (if j == |chain| then null else chain[j])
        invariant visited == Reversed(chain[..k]) + chain[k..j]
        decreases |chain| - j
      {
        assert LinkAt(chain, j);
        visited := visited + [info];
        assert chain[k..j + 1] == chain[k..j] + [chain[j]];
        info := info.next;
        j := j + 1;
      }
      assert chain[k..] == chain[k..|chain|];
    }

    /** Link this record behind the first one of a chain. */
    method LinkBehind(head: ObservationInfo, ghost c: seq<ObservationInfo>)
      requires Linked(c) && c != [] && c[0] == head && this !in c
      modifies this`next, this`prev, c`next, c`prev
      ensures Linked(Joined(c, this))
    {
      assert LinkAt(c, 0) && (|c| > 1 ==> LinkAt(c, 1));
      prev := head;
      next := head.next;
      if next != null {
        next.prev := this;
      }
      head.next := this;
      assert LinkedPast(c, 2);
      JoinedLinked(c, this);
    }

    /** Take this record out of its chain; the first one has no record before it. */
    method Unlink(ghost c: seq<ObservationInfo>, ghost k: nat)
      requires Linked(c) && k < |c| && c[k] == this
      modifies c`next, c`prev
      ensures Linked(Without(c, k))
      ensures next == old(next) && prev == old(prev)
    {
      assert LinkAt(c, k) && (k > 0 ==> LinkAt(c, k - 1)) && (k + 1 < |c| ==> LinkAt(c, k + 1));
      if prev != null {
        prev.next := next;
      }
      if next != null {
        next.prev := prev;
      }
      WithoutLinked(c, k);
    }
  }

  function Reversed<T>(s: seq<T>): seq<T> {
    if s == [] then [] else Reversed(s[1..]) + [s[0]]
  }

  lemma ReversedLast<T>(s: seq<T>, j: nat, k: nat)
    requires j < k <= |s|
    ensures Reversed(s[j..k]) == Reversed(s[j + 1..k]) + [s[j]]
  {
    assert s[j..k][1..] == s[j + 1..k];
  }

  /** The links of the `i`-th record say what the chain says. */
  ghost predicate LinkAt(c: seq<ObservationInfo>, i: nat)
    requires i < |c|
    reads c[i]
  {
    && c[i].prev == (if i == 0 then null else c[i - 1])
    && c[i].next == (if i == |c| - 1 then null else c[i + 1])
  }

  /** The links say what the chain says, and no record is in it twice. */
  ghost predicate Linked(c: seq<ObservationInfo>)
    reads c
  {
    && (forall i, j | 0 <= i < j < |c| :: c[i] != c[j])
    && (forall i | 0 <= i < |c| :: LinkAt(c, i))
  }

  /** Every record of the chain is called back exactly once. */
  lemma {:induction false} VisitsOnce<T>(c: seq<T>, k: nat)
    requires k <= |c|
    ensures multiset(Reversed(c[..k]) + c[k..]) == multiset(c)
  {
    ReversedMultiset(c[..k]);
    assert c == c[..k] + c[k..];
  }

  lemma {:induction false} ReversedMultiset<T>(s: seq<T>)
    ensures multiset(Reversed(s)) == multiset(s)
  {
    if s != [] {
      ReversedMultiset(s[1..]);
      assert s == [s[0]] + s[1..];
    }
  }

  // ---- the chain of a row over a run ----

  /** A new record goes behind the first one. */
  function Joined<T>(c: seq<T>, x: T): seq<T> {
    if c == [] then [x] else [c[0], x] + c[1..]
  }

  function Without<T>(c: seq<T>, k: nat): seq<T>
    requires k < |c|
  {
    c[..k] + c[k + 1..]
  }

  /** Records that join one after the other. */
  function JoinedAll<T>(xs: seq<T>): seq<T> {
    if xs == [] then [] else Joined(JoinedAll(xs[..|xs| - 1]), xs[|xs| - 1])
  }

  /** The chain is the first record and then the others, the newest first. */
  lemma {:induction false} NewestBehindFirst<T>(xs: seq<T>)
    requires xs != []
    ensures JoinedAll(xs) == [xs[0]] + Reversed(xs[1..])
  {
    var n := |xs| - 1;
    var front := xs[..n];
    if n > 0 {
      NewestBehindFirst(front);
      assert front[1..] == xs[1..n];
      assert xs[1..] == xs[1..n] + [xs[n]];
      ReversedAppend(xs[1..n], xs[n]);
    } else {
      assert xs[..0] == [] && JoinedAll(xs[..0]) == [];
    }
  }

  lemma {:induction false} ReversedAppend<T>(s: seq<T>, x: T)
    ensures Reversed(s + [x]) == [x] + Reversed(s)
  {
    if s != [] {
      assert (s + [x])[1..] == s[1..] + [x];
      ReversedAppend(s[1..], x);
    } else {
      assert s + [x] == [x] && [x][1..] == [];
    }
  }

  // ---- all records of a class ----

  /** Every chain has a first record, listed once, and every record is known. */
  ghost predicate Listed(
      observed: seq<ObservationInfo>, rows: seq<nat>, chains: map<nat, seq<ObservationInfo>>,
      nodes: set<ObservationInfo>) {
    && |rows| == |observed|
    && (forall i | 0 <= i < |rows| :: rows[i] in chains)
    && (forall r | r in chains :: r in rows && chains[r] != [] && forall n | n in chains[r] :: n in nodes)
    && (forall i | 0 <= i < |rows| :: chains[rows[i]] != [] && chains[rows[i]][0] == observed[i])
    && (forall i, j | 0 <= i < j < |rows| :: rows[i] != rows[j])
  }

  lemma StartedListed(
      observed: seq<ObservationInfo>, rows: seq<nat>, chains: map<nat, seq<ObservationInfo>>,
      nodes: set<ObservationInfo>, row: nat, info: ObservationInfo)
    requires Listed(observed, rows, chains, nodes) && row !in chains
    ensures Listed(observed + [info], rows + [row], chains[row := [info]], nodes + {info})
  {
    var all := rows + [row];
    assert all[|rows|] == row;
    forall r | r in chains ensures r in all {
      var i :| 0 <= i < |rows| && rows[i] == r;
      assert all[i] == r;
    }
  }

  lemma InNodes(
      observed: seq<ObservationInfo>, rows: seq<nat>, chains: map<nat, seq<ObservationInfo>>,
      nodes: set<ObservationInfo>)
    requires Listed(observed, rows, chains, nodes)
    ensures forall r, n | r in chains && n in chains[r] :: n in nodes
  {
  }

  /** The records of a chain are those for its row. */
  ghost predicate Rows(chains: map<nat, seq<ObservationInfo>>, nodes: set<ObservationInfo>)
    reads nodes`row
  {
    && (forall n | n in nodes :: n.row.Some? && n.row.value in chains && n in chains[n.row.value])
    && (forall r, n | r in chains && n in chains[r] && n in nodes :: n.row == Some(r))
  }

  ghost predicate AllLinked(chains: map<nat, seq<ObservationInfo>>, nodes: set<ObservationInfo>)
    reads nodes, set r, i | r in chains && 0 <= i < |chains[r]| :: chains[r][i]
  {
    forall r | r in chains :: Linked(chains[r])
  }

  /** The records from one place on have the links the chain says. */
  ghost predicate LinkedPast(c: seq<ObservationInfo>, from: nat)
    reads c
  {
    forall i | from <= i < |c| :: LinkAt(c, i)
  }

  /** A record is linked behind the first one of a chain. */
  lemma JoinedLinked(c: seq<ObservationInfo>, info: ObservationInfo)
    requires c != [] && info !in c && forall i, j | 0 <= i < j < |c| :: c[i] != c[j]
    requires info.prev == c[0] && info.next == (if |c| > 1 then c[1] else null) && c[0].prev == null
    requires c[0].next == info
    requires |c| > 1 ==> c[1].prev == info && c[1].next == (if |c| > 2 then c[2] else null)
    requires LinkedPast(c, 2)
    ensures Linked(Joined(c, info))
  {
    var d := Joined(c, info);
    forall i | 0 <= i < |d| ensures LinkAt(d, i) {
      if i >= 3 {
        assert LinkAt(c, i - 1) && d[i] == c[i - 1] && d[i - 1] == c[i - 2];
        assert i + 1 < |d| ==> d[i + 1] == c[i];
      }
    }
  }

  /** The record at `k` is unlinked: its neighbours are linked to each other. */
  lemma WithoutLinked(c: seq<ObservationInfo>, k: nat)
    requires k < |c| && forall i, j | 0 <= i < j < |c| :: c[i] != c[j]
    requires forall i | 0 <= i < |c| && (i < k - 1 || k + 1 < i) :: LinkAt(c, i)
    requires k > 0 ==>
               && c[k - 1].prev == (if k == 1 then null else c[k - 2])
               && c[k - 1].next == (if k + 1 < |c| then c[k + 1] else null)
    requires k + 1 < |c| ==>
               && c[k + 1].prev == (if k > 0 then c[k - 1] else null)
               && c[k + 1].next == (if k + 2 < |c| then c[k + 2] else null)
    ensures Linked(Without(c, k))
  {
    var d := Without(c, k);
    forall i | 0 <= i < |d| ensures LinkAt(d, i) {
      assert d[i] == if i < k then c[i] else c[i + 1];
      assert i > 0 ==> d[i - 1] == if i - 1 < k then c[i - 1] else c[i];
      assert i + 1 < |d| ==> d[i + 1] == if i + 1 < k then c[i + 1] else c[i + 2];
      if i < k - 1 {
        assert LinkAt(c, i);
      } else if k < i {
        assert LinkAt(c, i + 1);
      }
    }
  }

  /** The first record of every observed row, and by row the whole chains. */
  class ClassInfo {
    var observed: seq<ObservationInfo>
    ghost var rows: seq<nat>
    ghost var chains: map<nat, seq<ObservationInfo>>
    ghost var nodes: set<ObservationInfo>

    constructor ()
      ensures Valid() && chains == map[] && nodes == {}
    {
      observed, rows, chains, nodes := [], [], map[], {};
    }

    ghost predicate Valid()
      reads this, nodes, set r, i | r in chains && 0 <= i < |chains[r]| :: chains[r][i]
    {
      Listed(observed, rows, chains, nodes) && Rows(chains, nodes) && AllLinked(chains, nodes)
    }

    /** Start observing a row: the record joins the chain of the row, or starts one. */
    method SetRow(info: ObservationInfo, newRow: nat)
      requires Valid() && info !in nodes && info.row == None && info.prev == null && info.next == null
      modifies this, info, nodes
      ensures Valid() && nodes == old(nodes) + {info} && info.row == Some(newRow)
      ensures chains == old(chains)[newRow := Joined(if newRow in old(chains) then old(chains)[newRow] else [], info)]
    {
      hide Linked, LinkAt;
      var i := 0;
      while i < |observed|
        invariant 0 <= i <= |observed|
        invariant forall j | 0 <= j < i :: rows[j] != newRow
      {
        assert rows[i] in chains && observed[i] in chains[rows[i]] && observed[i].row == Some(rows[i]);
        if observed[i].row == Some(newRow) {
          Link(observed[i], info, newRow);
          return;
        }
        i := i + 1;
      }
      assert newRow !in chains;
      Start(info, newRow);
    }

    /** The first record for a row. */
    method Start(info: ObservationInfo, newRow: nat)
      requires Valid() && info !in nodes && info.row == None && info.prev == null && info.next == null
      requires newRow !in chains
      modifies this, info
      ensures Valid() && nodes == old(nodes) + {info} && info.row == Some(newRow)
      ensures chains == old(chains)[newRow := [info]]
    {
      hide LinkAt, Linked, Listed;
      ghost var was := chains;
      StartedListed(observed, rows, chains, nodes, newRow, info);
      assert forall r | r in was :: info !in was[r] by { InNodes(observed, rows, chains, nodes); }
      info.row := Some(newRow);
      observed := observed + [info];
      rows := rows + [newRow];
      chains := chains[newRow := [info]];
      nodes := nodes + {info};
      OneLinked(info);
    }

    /** Put a record behind the first one of its row. */
    method Link(head: ObservationInfo, info: ObservationInfo, newRow: nat)
      requires Valid() && info !in nodes && info.row == None && newRow in chains && chains[newRow][0] == head
      modifies this, info, nodes
      ensures Valid() && nodes == old(nodes) + {info} && info.row == Some(newRow)
      ensures chains == old(chains)[newRow := Joined(old(chains)[newRow], info)]
    {
      hide Linked, LinkAt, Listed, Rows;
      ghost var was, c, others := chains, chains[newRow], chains - {newRow};
      JoinedListed(observed, rows, chains, nodes, newRow, info);
      Apart(chains, nodes, newRow);
      info.row := Some(newRow);
      LinkIn(head, info, c, others);
      JoinedRows(was, nodes, newRow, info);
      chains := others[newRow := Joined(c, info)];
      assert chains == was[newRow := Joined(c, info)];
      nodes := nodes + {info};
    }

    /** A change of a row calls back every record of the row exactly once, whichever record it starts from. */
    method Notify(info: ObservationInfo, ghost k: nat) returns (visited: seq<ObservationInfo>)
      requires Valid() && info in nodes && info.row.Some? && info.row.value in chains
      requires k < |chains[info.row.value]| && chains[info.row.value][k] == info
      ensures visited == Reversed(chains[info.row.value][..k]) + chains[info.row.value][k..]
      ensures multiset(visited) == multiset(chains[info.row.value])
    {
      VisitsOnce(chains[info.row.value], k);
      visited := info.ForEach(chains[info.row.value], k);
    }

    /** A record goes away: it leaves its chain, and the list of first records if it was one. */
    method Destroy(info: ObservationInfo, ghost k: nat)
      requires Valid() && info in nodes && info.row.Some? && info.row.value in chains
      requires k < |chains[info.row.value]| && chains[info.row.value][k] == info
      modifies this, nodes
      ensures Valid() && nodes == old(nodes) - {info}
      ensures var r := old(info.row.value);
              chains == if |old(chains)[r]| == 1 then old(chains) - {r}
                else old(chains)[r := Without(old(chains)[r], k)]
    {
      Leaving(observed, rows, chains, nodes, info.row.value, k);
      if info.prev == null && info.next == null {
        DestroyOnly(info);
      } else {
        DestroyOneOf(info, k);
      }
    }

    /** The only record of its row goes away. */
    method DestroyOnly(info: ObservationInfo)
      requires Valid() && info in nodes && info.row.Some? && info.row.value in chains
      requires chains[info.row.value] == [info]
      modifies this
      ensures Valid() && nodes == old(nodes) - {info} && chains == old(chains) - {info.row.value}
    {
      hide Linked, LinkAt, Listed, Rows;
      ghost var r := info.row.value;
      Leaving(observed, rows, chains, nodes, r, 0);
      LeftRows(chains, nodes, r, 0);
      var it := FindFirst(info, r);
      DroppedListed(observed, rows, chains, nodes, r, it);
      Drop(it);
      chains := chains - {r};
      nodes := nodes - {info};
    }

    /** One of several records of a row goes away. */
    method DestroyOneOf(info: ObservationInfo, ghost k: nat)
      requires Valid() && info in nodes && info.row.Some? && info.row.value in chains && |chains[info.row.value]| > 1
      requires k < |chains[info.row.value]| && chains[info.row.value][k] == info
      modifies this, nodes
      ensures Valid() && nodes == old(nodes) - {info}
      ensures var r := old(info.row.value); chains == old(chains)[r := Without(old(chains)[r], k)]
    {
      hide Linked, LinkAt, Listed, Rows;
      ghost var r := info.row.value;
      ghost var was, c, others := chains, chains[r], chains - {r};
      Leaving(observed, rows, chains, nodes, r, k);
      if info.prev == null {
        var it := FindFirst(info, r);
        WithoutListed(observed, rows, chains, nodes, r, k, it);
        observed := observed[it := info.next];
      } else {
        ghost var at :| 0 <= at < |rows| && rows[at] == r;
        WithoutListed(observed, rows, chains, nodes, r, k, at);
      }
      UnlinkIn(info, k, c, others);
      LeftRows(was, nodes, r, k);
      chains := others[r := Without(c, k)];
      assert chains == was[r := Without(c, k)];
      nodes := nodes - {info};
    }

    /** Remove one first record from the list by putting the last one in its place. */
    method Drop(it: nat)
      requires it < |observed| == |rows|
      modifies this
      ensures observed == old(observed)[it := old(observed)[|old(observed)| - 1]][..|old(observed)| - 1]
      ensures rows == old(rows)[it := old(rows)[|old(rows)| - 1]][..|old(rows)| - 1]
      ensures chains == old(chains) && nodes == old(nodes)
    {
      var end := |observed| - 1;
      observed := observed[it := observed[end]];
      observed := observed[..end];
      rows := rows[it := rows[end]][..end];
    }

    /** Search for the first record of a row in the list. */
    method FindFirst(info: ObservationInfo, ghost r: nat) returns (it: nat)
      requires Valid() && r in chains && chains[r] != [] && chains[r][0] == info
      ensures it < |rows| == |observed| && rows[it] == r && observed[it] == info
    {
      ghost var at :| 0 <= at < |rows| && rows[at] == r;
      it := 0;
      while observed[it] != info
        invariant 0 <= it <= at
        decreases at - it
      {
        it := it + 1;
      }
      FirstIs(observed, rows, chains, nodes, r, it);
    }

    /** Unlink a record from one chain, leaving others alone. */
    static method UnlinkIn(
        info: ObservationInfo, ghost k: nat, ghost c: seq<ObservationInfo>,
        ghost others: map<nat, seq<ObservationInfo>>)
      requires Linked(c) && k < |c| && c[k] == info
      requires forall r | r in others :: Linked(others[r]) && forall i | 0 <= i < |others[r]| :: others[r][i] !in c
      modifies c`next, c`prev
      ensures Linked(Without(c, k))
      ensures forall r | r in others :: Linked(others[r])
    {
      hide Linked, LinkAt;
      info.Unlink(c, k);
      forall r | r in others ensures Linked(others[r]) {
        ghost var d := others[r];
        assert old(Linked(d));
        assert forall i | 0 <= i < |d| :: d[i] !in c;
      }
    }

    /** Link a record into one chain, leaving others alone. */
    static method LinkIn(
        head: ObservationInfo, info: ObservationInfo, ghost c: seq<ObservationInfo>,
        ghost others: map<nat, seq<ObservationInfo>>)
      requires Linked(c) && c != [] && c[0] == head && info !in c
      requires forall r | r in others ::
                 Linked(others[r]) && forall i | 0 <= i < |others[r]| :: others[r][i] != info && others[r][i] !in c
      modifies info`next, info`prev, c`next, c`prev
      ensures Linked(Joined(c, info))
      ensures forall r | r in others :: Linked(others[r])
    {
      hide Linked, LinkAt;
      info.LinkBehind(head, c);
      forall r | r in others ensures Linked(others[r]) {
        ghost var d := others[r];
        assert old(Linked(d));
        assert forall i | 0 <= i < |d| :: d[i] != info && d[i] !in c;
      }
    }
  }

  /** The record at `k` of a row leaves; when it was the first one, the next one takes its place. */
  lemma WithoutListed(
      observed: seq<ObservationInfo>, rows: seq<nat>, chains: map<nat, seq<ObservationInfo>>,
      nodes: set<ObservationInfo>, row: nat, k: nat, at: nat)
    requires Listed(observed, rows, chains, nodes) && row in chains && k < |chains[row]| && |chains[row]| > 1
    requires forall r, n | r in chains && r != row && n in chains[r] :: n != chains[row][k]
    requires forall i, j | 0 <= i < j < |chains[row]| :: chains[row][i] != chains[row][j]
    requires at < |rows| && rows[at] == row
    ensures var o := if k == 0 then observed[at := chains[row][1]] else observed;
            Listed(o, rows, chains[row := Without(chains[row], k)], nodes - {chains[row][k]})
  {
    WithoutHas(chains[row], k);
  }

  /** The only record of a row leaves: the last row takes its place. */
  lemma DroppedListed(
      observed: seq<ObservationInfo>, rows: seq<nat>, chains: map<nat, seq<ObservationInfo>>,
      nodes: set<ObservationInfo>, row: nat, at: nat)
    requires Listed(observed, rows, chains, nodes) && row in chains && |chains[row]| == 1
    requires forall r, n | r in chains && r != row && n in chains[r] :: n != chains[row][0]
    requires at < |rows| && rows[at] == row
    ensures var last := |rows| - 1;
            Listed(observed[at := observed[last]][..last], rows[at := rows[last]][..last], chains - {row},
              nodes - {chains[row][0]})
  {
    var last := |rows| - 1;
    var rest := rows[at := rows[last]][..last];
    forall r | r in chains && r != row ensures r in rest {
      var i :| 0 <= i < |rows| && rows[i] == r;
      assert rest[if i == last then at else i] == r;
    }
  }

  lemma WithoutHas(c: seq<ObservationInfo>, k: nat)
    requires k < |c| && forall i, j | 0 <= i < j < |c| :: c[i] != c[j]
    ensures forall n :: n in Without(c, k) <==> n in c && n != c[k]
  {
    forall n | n in c && n != c[k] ensures n in Without(c, k) {
      var i :| 0 <= i < |c| && c[i] == n;
      assert Without(c, k)[if i < k then i else i - 1] == n;
    }
  }

  lemma Leaving(
      observed: seq<ObservationInfo>, rows: seq<nat>, chains: map<nat, seq<ObservationInfo>>,
      nodes: set<ObservationInfo>, row: nat, k: nat)
    requires Listed(observed, rows, chains, nodes) && Rows(chains, nodes) && row in chains && k < |chains[row]|
    requires Linked(chains[row])
    ensures row in rows && forall i, j | 0 <= i < j < |chains[row]| :: chains[row][i] != chains[row][j]
    ensures forall r, i | r in chains && r != row && 0 <= i < |chains[r]| :: chains[r][i] !in chains[row]
    ensures forall r, n | r in chains && r != row && n in chains[r] :: n != chains[row][k]
    ensures chains[row][k].prev == null <==> k == 0
    ensures chains[row][k].next == null <==> k == |chains[row]| - 1
    ensures k == 0 && |chains[row]| > 1 ==> chains[row][0].next == chains[row][1]
    ensures forall r, n | r in chains && n in chains[r] :: n in nodes
  {
    Apart(chains, nodes, row);
    assert LinkAt(chains[row], k);
    assert chains[row][k] in chains[row];
  }

  lemma JoinedRows(chains: map<nat, seq<ObservationInfo>>, nodes: set<ObservationInfo>, row: nat, info: ObservationInfo)
    requires Rows(chains, nodes) && row in chains && info !in nodes && info.row == Some(row)
    requires forall r, n | r in chains && n in chains[r] :: n in nodes
    requires forall n :: n in Joined(chains[row], info) <==> n in chains[row] || n == info
    ensures Rows(chains[row := Joined(chains[row], info)], nodes + {info})
  {
  }

  /** The records that are left are still where their rows say. */
  lemma LeftRows(chains: map<nat, seq<ObservationInfo>>, nodes: set<ObservationInfo>, row: nat, k: nat)
    requires Rows(chains, nodes) && row in chains && k < |chains[row]| && chains[row][k].row == Some(row)
    requires forall r, n | r in chains && n in chains[r] :: n in nodes
    requires forall i, j | 0 <= i < j < |chains[row]| :: chains[row][i] != chains[row][j]
    ensures |chains[row]| > 1 ==> Rows(chains[row := Without(chains[row], k)], nodes - {chains[row][k]})
    ensures |chains[row]| == 1 ==> Rows(chains - {row}, nodes - {chains[row][k]})
  {
    WithoutHas(chains[row], k);
  }

  lemma FirstIs(
      observed: seq<ObservationInfo>, rows: seq<nat>, chains: map<nat, seq<ObservationInfo>>,
      nodes: set<ObservationInfo>, r: nat, i: nat)
    requires Listed(observed, rows, chains, nodes) && Rows(chains, nodes) && r in chains && i < |rows|
    requires observed[i] == chains[r][0]
    ensures rows[i] == r
  {
    var n := observed[i];
    assert n in chains[r] && n in chains[rows[i]] && n in nodes;
  }

  /** No record of one row is in the chain of another. */
  lemma Apart(chains: map<nat, seq<ObservationInfo>>, nodes: set<ObservationInfo>, row: nat)
    requires row in chains && Rows(chains, nodes) && forall r, n | r in chains && n in chains[r] :: n in nodes
    ensures forall r, i, n | r in chains && r != row && 0 <= i < |chains[r]| && n == chains[r][i] :: n !in chains[row]
  {
    forall r, i, n | r in chains && r != row && 0 <= i < |chains[r]| && n == chains[r][i] ensures n !in chains[row] {
      assert n in chains[r] && n.row == Some(r);
    }
  }

  lemma JoinedListed(
      observed: seq<ObservationInfo>, rows: seq<nat>, chains: map<nat, seq<ObservationInfo>>,
      nodes: set<ObservationInfo>, row: nat, info: ObservationInfo)
    requires Listed(observed, rows, chains, nodes) && row in chains
    ensures Listed(observed, rows, chains[row := Joined(chains[row], info)], nodes + {info})
    ensures forall r, n | r in chains && n in chains[r] :: n in nodes
    ensures chains[row] != [] && forall n :: n in Joined(chains[row], info) <==> n in chains[row] || n == info
  {
    var c := chains[row];
    assert c == [c[0]] + c[1..];
  }

  lemma OneLinked(info: ObservationInfo)
    requires info.prev == null && info.next == null
    ensures Linked([info])
  {
    var c := [info];
    assert LinkAt(c, 0);
  }
}
