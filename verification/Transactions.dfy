/** Write transactions of a realm and the block form that begins and ends one around a block. */
module Transactions {
  /**
   * A call returns, or throws an error that can be caught, or raises an exception that cannot, or
   * is one that the core rules out once a commit has failed, and then nothing is said of what follows.
   */
  datatype Outcome = Returned | Threw | Raised | Illegal

  /**
   * What a block does in one run. `Attempt` catches the errors thrown inside it; `Write` is the
   * block form again, and its commit and every other one may fail for lack of space.
   */
  datatype Action<T> =
    | Put(value: T)
    | Begin
    | Commit(succeeds: bool)
    | Cancel
    | Fail
    | Attempt(block: seq<Action>)
    | Write(block: seq<Action>, succeeds: bool)

  /**
   * The data seen, the data last committed, whether a transaction is open and whether its commit has
   * failed, and how many transactions were committed and cancelled.
   */
  datatype State<T> = State(live: T, committed: T, writing: bool, failed: bool, commits: nat, cancels: nat)

  datatype Result<T> = Result(state: State<T>, outcome: Outcome)

  function Begun<T>(s: State<T>): Result<T> {
    if s.writing then Result(s, Raised) else Result(s.(writing := true), Returned)
  }

  function Committed<T>(s: State<T>, succeeds: bool): Result<T> {
    if !s.writing then Result(s, Threw)
    else if s.failed then Result(s, Illegal)
    else if !succeeds then Result(s.(failed := true), Threw)
    else Result(s.(committed := s.live, writing := false, commits := s.commits + 1), Returned)
  }

  function Cancelled<T>(s: State<T>): Result<T> {
    if !s.writing then Result(s, Raised)
    else Result(s.(live := s.committed, writing := false, failed := false, cancels := s.cancels + 1), Returned)
  }

  function Stored<T>(s: State<T>, v: T): Result<T> {
    if !s.writing then Result(s, Raised)
    else if s.failed then Result(s, Illegal)
    else Result(s.(live := v), Returned)
  }

  function Done<T>(s: State<T>, a: Action<T>): Result<T>
    decreases a
  {
    match a
    case Put(v) => Stored(s, v)
    case Begin => Begun(s)
    case Commit(succeeds) => Committed(s, succeeds)
    case Cancel => Cancelled(s)
    case Fail => Result(s, Threw)
    case Attempt(block) =>
      var r := Ran(s, block);
      if r.outcome == Threw then Result(r.state, Returned) else r
    case Write(block, succeeds) => Written(s, block, succeeds)
  }

  function Ran<T>(s: State<T>, block: seq<Action<T>>): Result<T>
    decreases block, 0
  {
    if block == [] then Result(s, Returned)
    else
      var r := Done(s, block[0]);
      if r.outcome == Returned then Ran(r.state, block[1..]) else r
  }

  /** Begin, run the block, and end the transaction if it is still open: cancelled if the block threw. */
  function Written<T>(s: State<T>, block: seq<Action<T>>, succeeds: bool): Result<T>
    decreases block, 1
  {
    var b := Begun(s);
    if b.outcome != Returned then b
    else
      var r := Ran(b.state, block);
      match r.outcome
      case Raised => r
      case Illegal => r
      case Threw => if r.state.writing then Result(Cancelled(r.state).state, Threw) else r
      case Returned => if r.state.writing then Committed(r.state, succeeds) else r
  }

  class Realm<T> {
    var live: T
    var committed: T
    var writing: bool
    var failed: bool
    ghost var commits: nat
    ghost var cancels: nat

    constructor (data: T)
      ensures Abstract() == State(data, data, false, false, 0, 0)
    {
      live, committed, writing, failed, commits, cancels := data, data, false, false, 0, 0;
    }

    ghost function Abstract(): State<T>
      reads this
    {
      State(live, committed, writing, failed, commits, cancels)
    }

    method BeginWrite() returns (outcome: Outcome)
      modifies this
      ensures Result(Abstract(), outcome) == Begun(old(Abstract()))
    {
      if writing {
        return Raised;
      }
      writing := true;
      return Returned;
    }

    method CommitWrite(succeeds: bool) returns (outcome: Outcome)
      modifies this
      ensures Result(Abstract(), outcome) == Committed(old(Abstract()), succeeds)
    {
      if !writing {
        return Threw;
      }
      if failed {
        return Illegal;
      }
      if !succeeds {
        failed := true;
        return Threw;
      }
      committed := live;
      writing := false;
      commits := commits + 1;
      return Returned;
    }

    method CancelWrite() returns (outcome: Outcome)
      modifies this
      ensures Result(Abstract(), outcome) == Cancelled(old(Abstract()))
    {
      if !writing {
        return Raised;
      }
      live := committed;
      writing, failed := false, false;
      cancels := cancels + 1;
      return Returned;
    }

    method Perform(a: Action<T>) returns (outcome: Outcome)
      modifies this
      ensures Result(Abstract(), outcome) == Done(old(Abstract()), a)
      decreases a
    {
      match a
      case Put(v) =>
        if !writing {
          return Raised;
        }
        if failed {
          return Illegal;
        }
        live := v;
        return Returned;
      case Begin => outcome := BeginWrite();
      case Commit(succeeds) => outcome := CommitWrite(succeeds);
      case Cancel => outcome := CancelWrite();
      case Fail => return Threw;
      case Attempt(block) =>
        outcome := Run(block);
        if outcome == Threw {
          outcome := Returned;
        }
      case Write(block, succeeds) => outcome := WriteBlock(block, succeeds);
    }

    /** Run a block until it returns, throws or raises. */
    method Run(block: seq<Action<T>>) returns (outcome: Outcome)
      modifies this
      ensures Result(Abstract(), outcome) == Ran(old(Abstract()), block)
      decreases block, 0
    {
      ghost var start := Abstract();
      outcome := Returned;
      var i := 0;
      while i < |block|
        invariant 0 <= i <= |block| && outcome == Returned
        invariant Ran(start, block) == Ran(Abstract(), block[i..])
      {
        outcome := Perform(block[i]);
        if outcome != Returned {
          return;
        }
        i := i + 1;
      }
    }

    method WriteBlock(block: seq<Action<T>>, succeeds: bool) returns (outcome: Outcome)
      modifies this
      ensures Result(Abstract(), outcome) == Written(old(Abstract()), block, succeeds)
      decreases block, 1
    {
      outcome := BeginWrite();
      if outcome != Returned {
        return;
      }
      outcome := Run(block);
      if outcome == Threw {
        if writing {
          var _ := CancelWrite();
        }
      } else if outcome == Returned {
        if writing {
          outcome := CommitWrite(succeeds);
        }
      }
    }
  }

  // ---- what every block keeps ----

  /** Outside a transaction the data seen is the data last committed, and no failed commit is pending. */
  ghost predicate Consistent<T>(s: State<T>) {
    !s.writing ==> s.live == s.committed && !s.failed
  }

  /**
   * From `s` to `t`, without a commit the committed data stays, and without either the transaction
   * stays; and after a failed commit nothing changes without a cancellation.
   */
  ghost predicate Follows<T>(s: State<T>, t: State<T>) {
    && Consistent(t)
    && s.commits <= t.commits && s.cancels <= t.cancels
    && (t.commits == s.commits ==> t.committed == s.committed)
    && (t.commits == s.commits && t.cancels == s.cancels ==> (s.writing ==> t.writing))
    && (s.failed && t.cancels == s.cancels ==> t == s)
  }

  lemma FollowsOn<T>(s: State<T>, t: State<T>, u: State<T>)
    requires Follows(s, t) && Follows(t, u)
    ensures Follows(s, u)
  {
  }

  lemma {:induction false} DoneFollows<T>(s: State<T>, a: Action<T>)
    requires Consistent(s)
    ensures Follows(s, Done(s, a).state)
    decreases a
  {
    match a
    case Attempt(block) => RanFollows(s, block);
    case Write(block, succeeds) => WrittenFollows(s, block, succeeds);
    case _ =>
  }

  lemma {:induction false} RanFollows<T>(s: State<T>, block: seq<Action<T>>)
    requires Consistent(s)
    ensures Follows(s, Ran(s, block).state)
    decreases block, 0
  {
    if block != [] {
      var r := Done(s, block[0]);
      DoneFollows(s, block[0]);
      if r.outcome == Returned {
        RanFollows(r.state, block[1..]);
        FollowsOn(s, r.state, Ran(r.state, block[1..]).state);
      }
    }
  }

  lemma {:induction false} WrittenFollows<T>(s: State<T>, block: seq<Action<T>>, succeeds: bool)
    requires Consistent(s)
    ensures Follows(s, Written(s, block, succeeds).state)
    decreases block, 1
  {
    if !s.writing {
      RanFollows(Begun(s).state, block);
      FollowsOn(s, Begun(s).state, Ran(Begun(s).state, block).state);
    }
  }

  /** The state in which a block started by the block form ends. */
  function Inside<T>(s: State<T>, block: seq<Action<T>>): Result<T>
    requires !s.writing
  {
    Ran(s.(writing := true), block)
  }

  /**
   * Started outside a transaction, the block form ends outside one exactly unless its transaction is
   * open at the end of the block and the block neither throws nor can be committed; and outside, the
   * data seen is the data last committed.
   */
  lemma WriteEndsOutside<T>(s: State<T>, block: seq<Action<T>>, succeeds: bool)
    requires Consistent(s) && !s.writing
    ensures var i := Inside(s, block);
            var r := Written(s, block, succeeds);
            && (r.state.writing <==>
                && i.state.writing
                && i.outcome != Threw
                && !(i.outcome == Returned && succeeds && !i.state.failed))
            && (!r.state.writing ==> r.state.live == r.state.committed)
  {
    WrittenFollows(s, block, succeeds);
  }

  /** If the block throws and has not committed, the data is what it was. */
  lemma ThrowingLeavesData<T>(s: State<T>, block: seq<Action<T>>, succeeds: bool)
    requires Consistent(s) && !s.writing
    requires Inside(s, block).outcome == Threw && Inside(s, block).state.commits == s.commits
    ensures var r := Written(s, block, succeeds);
            && r.outcome == Threw && !r.state.writing
            && r.state.live == s.live && r.state.committed == s.committed && r.state.commits == s.commits
  {
    RanFollows(s.(writing := true), block);
  }

  /**
   * If the block returns and has neither committed nor cancelled, all its effects are committed as
   * one transaction, unless a commit tried inside the block failed.
   */
  lemma ReturningCommitsAll<T>(s: State<T>, block: seq<Action<T>>)
    requires Consistent(s) && !s.writing && Inside(s, block).outcome == Returned
    requires Inside(s, block).state.commits == s.commits && Inside(s, block).state.cancels == s.cancels
    ensures var i := Inside(s, block).state;
            Written(s, block, true) ==
            if i.failed then Result(i, Illegal)
            else Result(State(i.live, i.live, false, false, s.commits + 1, s.cancels), Returned)
  {
    RanFollows(s.(writing := true), block);
  }

  /**
   * If the commit of the block form fails, its transaction stays open: every later use of the block
   * form raises and changes nothing, whatever its block, and so does every block that does not cancel,
   * until a cancellation brings back the data last committed.
   */
  lemma FailedCommitStaysOpen<T>(s: State<T>, block: seq<Action<T>>, next: seq<Action<T>>, succeeds: bool)
    requires Consistent(s) && !s.writing && Inside(s, block).outcome == Returned
    requires Inside(s, block).state.writing && !Inside(s, block).state.failed
    ensures var i := Inside(s, block).state;
            var t := Written(s, block, false).state;
            && Written(s, block, false).outcome == Threw && t.writing && t.committed == i.committed
            && (i.commits == s.commits ==> t.committed == s.committed)
            && Written(t, next, succeeds) == Result(t, Raised)
            && (Ran(t, next).state.cancels == t.cancels ==> Ran(t, next).state == t)
            && Cancelled(t) == Result(State(i.committed, i.committed, false, false, i.commits, i.cancels + 1), Returned)
  {
    RanFollows(s.(writing := true), block);
    WrittenFollows(s, block, false);
    RanFollows(Written(s, block, false).state, next);
  }

  /** The block only stores data. */
  predicate Plain<T>(block: seq<Action<T>>) {
    forall i | 0 <= i < |block| :: block[i].Put?
  }

  /** A block that only stores data ends with what it stores last, its transaction still open. */
  lemma {:induction false} PlainBlock<T>(s: State<T>, block: seq<Action<T>>)
    requires s.writing && !s.failed && Plain(block)
    ensures Ran(s, block) == Result(if block == [] then s else s.(live := block[|block| - 1].value), Returned)
    decreases |block|
  {
    if block != [] {
      PlainBlock(Done(s, block[0]).state, block[1..]);
    }
  }

  // ---- what each action does ----

  /** Data is stored in an open transaction only; nothing else changes with it. */
  lemma PutDoes<T>(s: State<T>, v: T)
    ensures var r := Done(s, Put(v));
            && (s.writing && !s.failed ==>
                  r == Result(State(v, s.committed, true, false, s.commits, s.cancels), Returned))
            && (!s.writing ==> r == Result(s, Raised))
            && (s.writing && s.failed ==> r == Result(s, Illegal))
  {
  }

  /** A transaction begins where none is open. */
  lemma BeginDoes<T>(s: State<T>)
    ensures var r := Done(s, Begin);
            && (!s.writing ==>
                  r == Result(State(s.live, s.committed, true, s.failed, s.commits, s.cancels), Returned))
            && (s.writing ==> r == Result(s, Raised))
  {
  }

  /** A commit makes the data seen the data committed and ends the transaction, or throws. */
  lemma CommitDoes<T>(s: State<T>, succeeds: bool)
    ensures var r := Done(s, Commit(succeeds));
            && (s.writing && !s.failed && succeeds ==>
                  r == Result(State(s.live, s.live, false, false, s.commits + 1, s.cancels), Returned))
            && (s.writing && !s.failed && !succeeds ==>
                  r == Result(State(s.live, s.committed, true, true, s.commits, s.cancels), Threw))
            && (s.writing && s.failed ==> r == Result(s, Illegal))
            && (!s.writing ==> r == Result(s, Threw))
  {
  }

  /** A cancellation brings back the data last committed and ends the transaction, a failed one too. */
  lemma CancelDoes<T>(s: State<T>)
    ensures var r := Done(s, Cancel);
            && (s.writing ==>
                  r == Result(State(s.committed, s.committed, false, false, s.commits, s.cancels + 1), Returned))
            && (!s.writing ==> r == Result(s, Raised))
  {
  }

  /**
   * Throwing changes nothing; catching keeps the effects of the block and stops only thrown errors;
   * the block form inside a block is the block form.
   */
  lemma CatchDoes<T>(s: State<T>, block: seq<Action<T>>)
    ensures Done(s, Fail) == Result(s, Threw)
    ensures forall succeeds :: Done(s, Write(block, succeeds)) == Written(s, block, succeeds)
    ensures var i, r := Ran(s, block), Done(s, Attempt(block));
            && r.state == i.state
            && (r.outcome == Returned <==> i.outcome == Returned || i.outcome == Threw)
            && (r.outcome != Returned ==> r.outcome == i.outcome)
  {
  }

  /** The actions of a block are done in order, and the first one that does not return ends it. */
  lemma BlockDoes<T>(s: State<T>, a: seq<Action<T>>, b: seq<Action<T>>, x: Action<T>)
    ensures Ran(s, []) == Result(s, Returned) && Ran(s, [x]) == Done(s, x)
    ensures Ran(s, a + b) == if Ran(s, a).outcome == Returned then Ran(Ran(s, a).state, b) else Ran(s, a)
  {
    if Ran(s, a).outcome == Returned {
      RanConcat(s, a, b);
    } else {
      RanStops(s, a, b);
    }
  }

  lemma {:induction false} RanStops<T>(s: State<T>, a: seq<Action<T>>, b: seq<Action<T>>)
    requires Ran(s, a).outcome != Returned
    ensures Ran(s, a + b) == Ran(s, a)
    decreases |a|
  {
    assert (a + b)[1..] == a[1..] + b;
    if Done(s, a[0]).outcome == Returned {
      RanStops(Done(s, a[0]).state, a[1..], b);
    }
  }

  /** The data after some stores. */
  function LastStored<T>(data: T, puts: seq<T>): T {
    if puts == [] then data else puts[|puts| - 1]
  }

  function Puts<T>(values: seq<T>): seq<Action<T>> {
    seq(|values|, i requires 0 <= i < |values| => Put(values[i]))
  }

  lemma PutsRun<T>(s: State<T>, values: seq<T>)
    requires s.writing && !s.failed
    ensures Ran(s, Puts(values)) == Result(s.(live := LastStored(s.live, values)), Returned)
  {
    PlainBlock(s, Puts(values));
  }

  /**
   * A block that stores values and then commits by itself: the block form returns, its data is
   * what was stored last, and it has been committed once, whether another commit would succeed or not.
   */
  lemma CommitInside<T>(s: State<T>, values: seq<T>, succeeds: bool)
    requires Consistent(s) && !s.writing
    ensures var x := LastStored(s.live, values);
            Written(s, Puts(values) + [Commit(true)], succeeds)
            == Result(State(x, x, false, false, s.commits + 1, s.cancels), Returned)
  {
    EndInside(s, values, Commit(true));
    CommitDoes(Begun(s).state.(live := LastStored(s.live, values)), true);
  }

  /** A block that stores values and then cancels by itself leaves the data as it was. */
  lemma CancelInside<T>(s: State<T>, values: seq<T>, succeeds: bool)
    requires Consistent(s) && !s.writing
    ensures Written(s, Puts(values) + [Cancel], succeeds)
            == Result(State(s.committed, s.committed, false, false, s.commits, s.cancels + 1), Returned)
  {
    EndInside(s, values, Cancel);
    CancelDoes(Begun(s).state.(live := LastStored(s.live, values)));
  }

  /** A block that only stores values is committed as a whole, or, if the commit fails, not at all. */
  lemma StoresAreCommitted<T>(s: State<T>, values: seq<T>, succeeds: bool)
    requires Consistent(s) && !s.writing
    ensures var x := LastStored(s.live, values);
            Written(s, Puts(values), succeeds) ==
            if succeeds then Result(State(x, x, false, false, s.commits + 1, s.cancels), Returned)
            else Result(State(x, s.committed, true, true, s.commits, s.cancels), Threw)
  {
    PutsRun(Begun(s).state, values);
  }

  /** A block that stores values and then throws leaves the data as it was. */
  lemma ThrowInside<T>(s: State<T>, values: seq<T>, succeeds: bool)
    requires Consistent(s) && !s.writing
    ensures Written(s, Puts(values) + [Fail], succeeds)
            == Result(State(s.committed, s.committed, false, false, s.commits, s.cancels + 1), Threw)
  {
    EndInside(s, values, Fail);
  }

  lemma EndInside<T>(s: State<T>, values: seq<T>, last: Action<T>)
    requires !s.writing && Consistent(s)
    ensures Ran(Begun(s).state, Puts(values) + [last])
            == Done(Begun(s).state.(live := LastStored(s.live, values)), last)
  {
    PutsRun(Begun(s).state, values);
    BlockDoes(Begun(s).state, Puts(values), [last], last);
    BlockDoes(Begun(s).state.(live := LastStored(s.live, values)), Puts(values), [last], last);
  }

  /** Beginning again inside the block form raises, and leaves the transaction open. */
  lemma NestedWriteRaises<T>(
      s: State<T>, block: seq<Action<T>>, succeeds: bool, inner: seq<Action<T>>, rest: seq<Action<T>>)
    requires !s.writing && Inside(s, block).outcome == Returned && Inside(s, block).state.writing
    ensures var all := block + [Write(inner, succeeds)] + rest;
            Written(s, all, true).outcome == Raised && Written(s, all, true).state == Inside(s, block).state
  {
    var tail := [Write(inner, succeeds)] + rest;
    RanConcat(s.(writing := true), block, tail);
    assert block + [Write(inner, succeeds)] + rest == block + tail;
    assert tail[0] == Write(inner, succeeds);
    var t := Inside(s, block).state;
    assert Done(t, tail[0]) == Written(t, inner, succeeds) == Result(t, Raised);
  }

  lemma {:induction false} RanConcat<T>(s: State<T>, a: seq<Action<T>>, b: seq<Action<T>>)
    requires Ran(s, a).outcome == Returned
    ensures Ran(s, a + b) == Ran(Ran(s, a).state, b)
    decreases |a|
  {
    if a == [] {
      assert a + b == b;
    } else {
      assert (a + b)[1..] == a[1..] + b;
      RanConcat(Done(s, a[0]).state, a[1..], b);
    }
  }
}
