/** The smart pointers that unregister a collection notifier once nothing holds it any more. */
module Handles {
  import opened Wrappers

  class CollectionNotifier {
    const id: nat
    var registered: bool
    ghost var unregisterCalls: nat

    constructor (id: nat)
      ensures this.id == id && registered && unregisterCalls == 0
    {
      this.id := id;
      registered := true;
      unregisterCalls := 0;
    }

    method Unregister()
      modifies this
      ensures !registered && unregisterCalls == old(unregisterCalls) + 1
    {
      registered := false;
      unregisterCalls := unregisterCalls + 1;
    }
  }

  /** The notifier has been unregistered once more. */
  ghost predicate Unregistered(n: CollectionNotifier, before: nat)
    reads n
  {
    !n.registered && n.unregisterCalls == before + 1
  }

  class Handle {
    var target: CollectionNotifier?

    constructor ()
      ensures target == null
    {
      target := null;
    }

    constructor Holding(n: CollectionNotifier?)
      ensures target == n
    {
      target := n;
    }

    /** A copy holds nothing. */
    constructor CopyOf(other: Handle)
      ensures target == null
    {
      target := null;
    }

    constructor MovedFrom(other: Handle)
      modifies other
      ensures target == old(other.target) && other.target == null
    {
      target := other.target;
      new;
      other.target := null;
    }

    /** Unregister what is held, and hold nothing. */
    method Reset()
      modifies this, target
      ensures target == null
      ensures old(target) != null ==> Unregistered(old(target), old(target.unregisterCalls))
    {
      if target != null {
        target.Unregister();
        target := null;
      }
    }

    /** Assigning a copy only lets go of what was held, unless a handle is assigned to itself. */
    method AssignCopy(other: Handle)
      modifies this, target
      ensures other == this ==> target == old(target)
      ensures other == this && target != null ==>
                target.registered == old(target.registered) && target.unregisterCalls == old(target.unregisterCalls)
      ensures other != this ==> target == null
      ensures other != this && old(target) != null ==> Unregistered(old(target), old(target.unregisterCalls))
    {
      if this != other {
        Reset();
      }
    }

    /** Assigning by move lets go of what was held first; a handle moved to itself ends up holding nothing. */
    method AssignMove(other: Handle)
      modifies this, target, other
      ensures other.target == null || (other == this && target == null)
      ensures target == if other == this then null else old(other.target)
      ensures old(target) != null ==> Unregistered(old(target), old(target.unregisterCalls))
    {
      Reset();
      var moved := other.target;
      other.target := null;
      target := moved;
    }

    /** Take over any pointer; one that the handle holds already is unregistered all the same, and held. */
    method AssignShared(n: CollectionNotifier?)
      modifies this, target
      ensures target == n
      ensures old(target) != null ==> Unregistered(old(target), old(target.unregisterCalls))
    {
      Reset();
      target := n;
    }
  }

  // ---- what happens to handles and notifiers, by number ----

  /** What each live handle holds, and how often each notifier has been unregistered. */
  datatype State = State(held: map<nat, Option<nat>>, calls: seq<nat>)

  /** `at` is the number of the handle operated on; `from` of the one it is copied or moved from. */
  datatype Op =
    | Construct(at: nat)
    | ConstructHolding(at: nat)
    | ConstructCopy(at: nat, from: nat)
    | ConstructMove(at: nat, from: nat)
    | AssignCopy(at: nat, from: nat)
    | AssignMove(at: nat, from: nat)
    | AssignShared(at: nat)
    | Reset(at: nat)
    | Destroy(at: nat)

  /** Constructed handles are new, other handles exist. */
  predicate Enabled(live: set<nat>, op: Op) {
    match op
    case Construct(a) => a !in live
    case ConstructHolding(a) => a !in live
    case ConstructCopy(a, b) => a !in live && b in live
    case ConstructMove(a, b) => a !in live && b in live
    case AssignCopy(a, b) => a in live && b in live
    case AssignMove(a, b) => a in live && b in live
    case _ => op.at in live
  }

  /** Let go of what a handle holds. */
  function Release(s: State, a: nat): State
    requires a in s.held && (s.held[a].Some? ==> s.held[a].value < |s.calls|)
  {
    match s.held[a]
    case None => s
    case Some(n) => State(s.held[a := None], s.calls[n := s.calls[n] + 1])
  }

  /** Move what one handle holds to another one, which lets go of what it held. */
  function Moved(s: State, a: nat, b: nat): State
    requires b in s.held && a in s.held && (s.held[a].Some? ==> s.held[a].value < |s.calls|)
  {
    var r := Release(s, a);
    if a == b then r else r.(held := r.held[a := s.held[b]][b := None])
  }

  ghost predicate InRange(s: State) {
    forall a | a in s.held && s.held[a].Some? :: s.held[a].value < |s.calls|
  }

  function Step(s: State, op: Op): (t: State)
    requires InRange(s)
    ensures InRange(t)
  {
    if !Enabled(s.held.Keys, op) then s else
    match op
    case Construct(a) => s.(held := s.held[a := None])
    case ConstructHolding(a) => State(s.held[a := Some(|s.calls|)], s.calls + [0])
    case ConstructCopy(a, b) => s.(held := s.held[a := None])
    case ConstructMove(a, b) => s.(held := s.held[a := s.held[b]][b := None])
    case AssignCopy(a, b) => if a == b then s else Release(s, a)
    case AssignMove(a, b) => Moved(s, a, b)
    case AssignShared(a) => var r := Release(s, a); State(r.held[a := Some(|s.calls|)], r.calls + [0])
    case Reset(a) => Release(s, a)
    case Destroy(a) => var r := Release(s, a); r.(held := r.held - {a})
  }

  ghost predicate Holds(s: State, a: nat, n: nat) {
    a in s.held && s.held[a] == Some(n)
  }

  /**
   * At most one handle holds a notifier, and a notifier has been unregistered exactly once if no
   * handle holds it any more, and not at all as long as one does.
   */
  ghost predicate Linear(s: State) {
    && InRange(s)
    && (forall a, b, n | Holds(s, a, n) && Holds(s, b, n) :: a == b)
    && (forall n | 0 <= n < |s.calls| :: s.calls[n] == if exists a :: Holds(s, a, n) then 0 else 1)
  }

  function Run(s: State, ops: seq<Op>): (t: State)
    requires InRange(s)
    ensures InRange(t)
    decreases |ops|
  {
    if ops == [] then s else Run(Step(s, ops[0]), ops[1..])
  }

  lemma ReleaseLinear(s: State, a: nat)
    requires Linear(s) && a in s.held
    ensures Linear(Release(s, a)) && Release(s, a).held == s.held[a := None]
  {
    var t := Release(s, a);
    assert forall b, n :: Holds(t, b, n) <==> b != a && Holds(s, b, n);
    forall n | 0 <= n < |t.calls| ensures t.calls[n] == if exists b :: Holds(t, b, n) then 0 else 1 {
      if Holds(s, a, n) {
        assert forall b :: !Holds(t, b, n);
      } else {
        SameHolders(s, t, n);
      }
    }
  }

  lemma SameHolders(s: State, t: State, n: nat)
    requires forall a :: Holds(s, a, n) <==> Holds(t, a, n)
    ensures (exists a :: Holds(s, a, n)) <==> (exists a :: Holds(t, a, n))
  {
  }

  /** A new notifier is put into a handle that holds nothing. */
  lemma EnterLinear(s: State, a: nat)
    requires Linear(s) && (a in s.held ==> s.held[a] == None)
    ensures Linear(State(s.held[a := Some(|s.calls|)], s.calls + [0]))
  {
    var t := State(s.held[a := Some(|s.calls|)], s.calls + [0]);
    assert Holds(t, a, |s.calls|);
    assert forall b, n :: Holds(t, b, n) <==> Holds(s, b, n) || (b == a && n == |s.calls|);
    forall n | 0 <= n < |s.calls| ensures t.calls[n] == if exists b :: Holds(t, b, n) then 0 else 1 {
      SameHolders(s, t, n);
    }
  }

  /** What one handle holds moves to another that holds nothing. */
  lemma MoveLinear(s: State, a: nat, b: nat)
    requires Linear(s) && a != b && (a in s.held ==> s.held[a] == None) && b in s.held
    ensures Linear(s.(held := s.held[a := s.held[b]][b := None]))
  {
    var t := s.(held := s.held[a := s.held[b]][b := None]);
    assert forall c, n :: Holds(t, c, n) <==> if c == a then Holds(s, b, n) else c != b && Holds(s, c, n);
    forall n | 0 <= n < |t.calls| ensures t.calls[n] == if exists c :: Holds(t, c, n) then 0 else 1 {
      if Holds(s, b, n) {
        assert Holds(t, a, n);
      } else {
        SameHolders(s, t, n);
      }
    }
  }

  lemma NoneLinear(s: State, a: nat, t: State)
    requires Linear(s) && t.calls == s.calls && forall b, n :: Holds(s, b, n) <==> Holds(t, b, n)
    ensures Linear(t)
  {
    assert forall b | b in t.held && t.held[b].Some? :: Holds(t, b, t.held[b].value);
  }

  lemma StepLinear(s: State, op: Op)
    requires Linear(s)
    ensures Linear(Step(s, op))
  {
    if Enabled(s.held.Keys, op) {
      match op
      case Construct(a) => NoneLinear(s, a, Step(s, op));
      case ConstructHolding(a) => EnterLinear(s, a);
      case ConstructCopy(a, b) => NoneLinear(s, a, Step(s, op));
      case ConstructMove(a, b) => MoveLinear(s, a, b);
      case AssignCopy(a, b) => ReleaseLinear(s, a);
      case AssignMove(a, b) =>
        ReleaseLinear(s, a);
        if a != b {
          MoveLinear(Release(s, a), a, b);
        }
      case AssignShared(a) =>
        ReleaseLinear(s, a);
        EnterLinear(Release(s, a), a);
      case Reset(a) => ReleaseLinear(s, a);
      case Destroy(a) =>
        ReleaseLinear(s, a);
        NoneLinear(Release(s, a), a, Step(s, op));
    }
  }

  /** What the handles held after an operation. */
  function HeldAfter(s: State, op: Op, c: nat): Option<Option<nat>> {
    var before := if c in s.held then Some(s.held[c]) else None;
    match op
    case Construct(a) => if c == a then Some(None) else before
    case ConstructCopy(a, _) => if c == a then Some(None) else before
    case ConstructHolding(a) => if c == a then Some(Some(|s.calls|)) else before
    case AssignShared(a) => if c == a then Some(Some(|s.calls|)) else before
    case ConstructMove(a, b) =>
      if c == b then Some(None) else if c == a && b in s.held then Some(s.held[b]) else before
    case AssignMove(a, b) =>
      if c == b then Some(None) else if c == a && b in s.held then Some(s.held[b]) else before
    case AssignCopy(a, b) => if c == a && a != b then Some(None) else before
    case Reset(a) => if c == a then Some(None) else before
    case Destroy(a) => if c == a then None else before
  }

  /** The operations that make a handle let go of what it holds. */
  predicate LetsGo(op: Op) {
    match op
    case AssignCopy(a, b) => a != b
    case AssignMove(_, _) => true
    case AssignShared(_) => true
    case Reset(_) => true
    case Destroy(_) => true
    case _ => false
  }

  /**
   * An operation leaves every handle holding what it should, unregisters exactly the notifier that
   * is let go of, once, and lets a new notifier in where a pointer is taken over from outside.
   */
  lemma StepDoes(s: State, op: Op)
    requires InRange(s) && Enabled(s.held.Keys, op)
    ensures var t := Step(s, op);
            && (forall c: nat :: HeldAfter(s, op, c) == if c in t.held then Some(t.held[c]) else None)
            && |t.calls| == |s.calls| + (if op.ConstructHolding? || op.AssignShared? then 1 else 0)
            && (|t.calls| > |s.calls| ==> t.calls[|s.calls|] == 0)
            && forall n | 0 <= n < |s.calls| ::
                 t.calls[n] == s.calls[n] + if LetsGo(op) && Holds(s, op.at, n) then 1 else 0
  {
  }

  /** Over every run from nothing each notifier is held at most once and unregistered exactly once after that. */
  lemma {:induction false} RunIsLinear(s: State, ops: seq<Op>)
    requires Linear(s)
    ensures Linear(Run(s, ops))
    decreases |ops|
  {
    if ops != [] {
      StepLinear(s, ops[0]);
      RunIsLinear(Step(s, ops[0]), ops[1..]);
    }
  }

  /** A handle lets go of what it holds and takes over a notifier that has entered before. */
  function Adopted(s: State, a: nat, n: nat): State
    requires InRange(s) && a in s.held
  {
    var r := Release(s, a);
    r.(held := r.held[a := Some(n)])
  }

  /** Taking over a notifier that has entered before, held or not, always breaks linear ownership. */
  lemma AdoptingBreaks(s: State, a: nat, n: nat)
    requires Linear(s) && a in s.held && n < |s.calls|
    ensures !Linear(Adopted(s, a, n))
  {
    var t := Adopted(s, a, n);
    assert Holds(t, a, n);
    if b :| Holds(s, b, n) && b != a {
      assert Holds(t, b, n);
    } else {
      assert !Holds(s, a, n) ==> !exists b :: Holds(s, b, n);
      assert t.calls[n] == 1;
    }
  }

  /** When all handles are gone, every notifier that ever entered has been unregistered exactly once. */
  lemma AllUnregisteredAtEnd(ops: seq<Op>)
    requires Run(State(map[], []), ops).held == map[]
    ensures var t := Run(State(map[], []), ops); forall n | 0 <= n < |t.calls| :: t.calls[n] == 1
  {
    RunIsLinear(State(map[], []), ops);
    var t := Run(State(map[], []), ops);
    forall n | 0 <= n < |t.calls| ensures t.calls[n] == 1 {
      assert forall a :: !Holds(t, a, n);
    }
  }

  // ---- the handles and notifiers themselves ----

  function Held(h: Handle): Option<nat>
    reads h
  {
    if h.target == null then None else Some(h.target.id)
  }

  ghost function Calls(ns: seq<CollectionNotifier>): (r: seq<nat>)
    reads ns
    ensures |r| == |ns| && forall i | 0 <= i < |ns| :: r[i] == ns[i].unregisterCalls
  {
    seq(|ns|, i requires 0 <= i < |ns| reads ns => ns[i].unregisterCalls)
  }

  /** All live handles by number, and all notifiers that ever entered. */
  class World {
    var handles: map<nat, Handle>
    ghost var notifiers: seq<CollectionNotifier>
    var entered: nat

    constructor ()
      ensures Valid() && fresh(this) && handles == map[] && notifiers == [] && Abstract() == State(map[], [])
    {
      handles, notifiers, entered := map[], [], 0;
    }

    ghost predicate Valid()
      reads this, handles.Values, notifiers
    {
      && entered == |notifiers|
      && (forall a, b | a in handles && b in handles && handles[a] == handles[b] :: a == b)
      && (forall i | 0 <= i < |notifiers| ::
            notifiers[i].id == i && (notifiers[i].registered <==> notifiers[i].unregisterCalls == 0))
      && (forall a | a in handles && handles[a].target != null :: handles[a].target in notifiers)
    }

    ghost function Abstract(): State
      reads this, handles.Values, notifiers
    {
      State(map a | a in handles :: Held(handles[a]), Calls(notifiers))
    }

    /** Reset one handle. */
    method ResetAt(a: nat)
      requires Valid() && a in handles
      modifies handles.Values, notifiers
      ensures Valid() && handles == old(handles) && notifiers == old(notifiers) && handles[a].target == null
      ensures Old(old(Abstract()), a) && Abstract() == Release(old(Abstract()), a)
    {
      ghost var before := Abstract();
      handles[a].Reset();
      assert Abstract().held == before.held[a := None];
      assert before.held[a].Some? ==>
          Abstract().calls == before.calls[before.held[a].value := before.calls[before.held[a].value] + 1];
      assert before.held[a].None? ==> Abstract().calls == before.calls;
    }

    /** Keep a newly constructed handle at a number. */
    method Put(a: nat, h: Handle)
      requires Valid() && h !in handles.Values && (h.target != null ==> h.target in notifiers)
      modifies this
      ensures Valid() && handles == old(handles)[a := h] && notifiers == old(notifiers)
      ensures Abstract() == State(old(Abstract()).held[a := Held(h)], old(Abstract()).calls)
    {
      ghost var before := Abstract();
      handles := handles[a := h];
      assert Abstract().held == before.held[a := Held(h)];
    }

    /** Construct an empty handle. */
    method NewEmpty() returns (h: Handle)
      ensures fresh(h) && h.target == null
    {
      h := new Handle();
    }

    /** Construct a copy of a handle. */
    method NewCopy(b: nat) returns (h: Handle)
      requires b in handles
      ensures fresh(h) && h.target == null
    {
      h := new Handle.CopyOf(handles[b]);
    }

    /** Construct a handle by moving from another. */
    method NewMoved(b: nat) returns (h: Handle)
      requires Valid() && b in handles
      modifies handles[b]
      ensures Valid() && handles == old(handles) && notifiers == old(notifiers) && fresh(h) && h !in handles.Values
      ensures (h.target != null ==> h.target in notifiers) && b in old(Abstract()).held
      ensures Held(h) == old(Abstract()).held[b]
      ensures Abstract() == State(old(Abstract()).held[b := None], old(Abstract()).calls)
    {
      ghost var before := Abstract();
      h := new Handle.MovedFrom(handles[b]);
      assert Abstract().held == before.held[b := None];
    }

    /** A new notifier, which no handle holds yet. */
    method NewNotifier() returns (n: CollectionNotifier)
      requires Valid()
      modifies this
      ensures Valid() && handles == old(handles) && fresh(n) && notifiers == old(notifiers) + [n]
      ensures n.id == |old(notifiers)| && Abstract() == State(old(Abstract()).held, old(Abstract()).calls + [0])
    {
      ghost var before := Abstract();
      n := new CollectionNotifier(entered);
      notifiers := notifiers + [n];
      entered := entered + 1;
      assert Abstract().calls == before.calls + [0];
    }

    /** Let a new notifier enter through a handle that holds nothing. */
    method Enter(a: nat)
      requires Valid() && a in handles && handles[a].target == null
      modifies this, handles[a]
      ensures Valid() && handles == old(handles)
      ensures forall n | n in notifiers :: n in old(notifiers) || fresh(n)
      ensures Abstract() == State(old(Abstract()).held[a := Some(|old(Abstract()).calls|)], old(Abstract()).calls + [0])
    {
      hide Calls;
      var n := NewNotifier();
      ghost var between := Abstract();
      handles[a].AssignShared(n);
      assert n in notifiers;
      assert Abstract().held == between.held[a := Some(n.id)];
    }

    /** Assign one handle to another by move. */
    method AssignMoveAt(a: nat, b: nat)
      requires Valid() && a in handles && b in handles && a != b
      modifies handles[a], handles[b], handles[a].target
      ensures Valid() && handles == old(handles) && notifiers == old(notifiers)
      ensures b in old(Abstract()).held && Old(old(Abstract()), a)
      ensures Abstract() == Moved(old(Abstract()), a, b)
    {
      hide Calls;
      ghost var before := Abstract();
      handles[a].AssignMove(handles[b]);
      assert forall c | c in handles && c != a && c != b :: handles[c].target == old(handles[c].target);
      assert Abstract().held == Moved(before, a, b).held;
      assert Abstract().calls == Moved(before, a, b).calls;
    }

    /** Assign a handle to itself by move. */
    method AssignMoveSelf(a: nat)
      requires Valid() && a in handles
      modifies handles[a], handles[a].target
      ensures Valid() && handles == old(handles) && notifiers == old(notifiers)
      ensures Old(old(Abstract()), a) && Abstract() == Release(old(Abstract()), a)
    {
      ghost var before := Abstract();
      handles[a].AssignMove(handles[a]);
      assert Abstract().held == Release(before, a).held;
      assert Abstract().calls == Release(before, a).calls;
    }

    /** Assign one handle to another by copy. */
    method AssignCopyAt(a: nat, b: nat)
      requires Valid() && a in handles && b in handles && a != b
      modifies handles[a], handles[a].target
      ensures Valid() && handles == old(handles) && notifiers == old(notifiers)
      ensures Old(old(Abstract()), a) && Abstract() == Release(old(Abstract()), a)
    {
      hide Calls;
      ghost var before := Abstract();
      handles[a].AssignCopy(handles[b]);
      assert Abstract().held == Release(before, a).held;
      assert Abstract().calls == Release(before, a).calls;
    }

    /** Assign a handle to itself by copy. */
    method AssignCopySelf(a: nat)
      requires Valid() && a in handles
      modifies handles[a], handles[a].target
      ensures Valid() && handles == old(handles) && notifiers == old(notifiers) && Abstract() == old(Abstract())
    {
      ghost var before := Abstract();
      handles[a].AssignCopy(handles[a]);
      assert Abstract().held == before.held;
      assert Abstract().calls == before.calls;
    }

    /** One operation on the handles does what the numbers say. */
    method Perform(op: Op)
      requires Valid()
      modifies this, handles.Values, notifiers
      ensures Valid() && InRange(old(Abstract())) && Abstract() == Step(old(Abstract()), op)
      ensures forall h | h in handles.Values :: h in old(handles.Values) || fresh(h)
      ensures forall n | n in notifiers :: n in old(notifiers) || fresh(n)
    {
      assert InRange(Abstract());
      assert Abstract().held.Keys == handles.Keys;
      if Enabled(handles.Keys, op) {
        if op.Construct? || op.ConstructHolding? || op.ConstructCopy? || op.ConstructMove? {
          PerformConstruct(op);
        } else if op.Reset? || op.Destroy? || op.AssignShared? {
          PerformReset(op);
        } else {
          PerformAssign(op);
        }
      }
    }

    method PerformConstruct(op: Op)
      requires Valid() && Enabled(handles.Keys, op)
      requires op.Construct? || op.ConstructHolding? || op.ConstructCopy? || op.ConstructMove?
      requires InRange(Abstract()) && Abstract().held.Keys == handles.Keys
      modifies this, handles.Values
      ensures Valid() && InRange(old(Abstract())) && Abstract() == Step(old(Abstract()), op)
      ensures forall h | h in handles.Values :: h in old(handles.Values) || fresh(h)
      ensures forall n | n in notifiers :: n in old(notifiers) || fresh(n)
    {
      if op.ConstructMove? {
        PutMoved(op.at, op.from);
      } else if op.ConstructCopy? {
        PutCopy(op.at, op.from);
      } else if op.ConstructHolding? {
        PutHolding(op.at);
      } else {
        PutEmpty(op.at);
      }
    }

    method PutMoved(a: nat, b: nat)
      requires Valid() && b in handles && a !in handles
      modifies this, handles[b]
      ensures Valid() && fresh(handles.Values - old(handles.Values)) && notifiers == old(notifiers)
      ensures b in old(Abstract()).held
      ensures Abstract() == State(old(Abstract()).held[a := old(Abstract()).held[b]][b := None], old(Abstract()).calls)
    {
      hide Valid, Abstract, Held;
      ghost var before := Abstract();
      var h := NewMoved(b);
      Put(a, h);
      assert a != b;
      assert Abstract().held == before.held[a := before.held[b]][b := None];
    }

    method PutCopy(a: nat, b: nat)
      requires Valid() && b in handles
      modifies this
      ensures Valid() && fresh(handles.Values - old(handles.Values)) && notifiers == old(notifiers)
      ensures Abstract() == State(old(Abstract()).held[a := None], old(Abstract()).calls)
    {
      var h := NewCopy(b);
      Put(a, h);
    }

    method PutHolding(a: nat)
      requires Valid()
      modifies this
      ensures Valid() && fresh(handles.Values - old(handles.Values))
      ensures forall n | n in notifiers :: n in old(notifiers) || fresh(n)
      ensures Abstract() == State(old(Abstract()).held[a := Some(|old(Abstract()).calls|)], old(Abstract()).calls + [0])
    {
      ghost var before := Abstract();
      PutEmpty(a);
      Enter(a);
      assert before.held[a := None][a := Some(|before.calls|)] == before.held[a := Some(|before.calls|)];
    }

    method PutEmpty(a: nat)
      requires Valid()
      modifies this
      ensures Valid() && fresh(handles.Values - old(handles.Values)) && notifiers == old(notifiers) && a in handles
      ensures handles[a].target == null && fresh(handles[a])
      ensures Abstract() == State(old(Abstract()).held[a := None], old(Abstract()).calls)
    {
      var h := NewEmpty();
      Put(a, h);
    }

    method PerformReset(op: Op)
      requires Valid() && Enabled(handles.Keys, op) && (op.Reset? || op.Destroy? || op.AssignShared?)
      requires InRange(Abstract()) && Abstract().held.Keys == handles.Keys
      modifies this, handles.Values, notifiers
      ensures Valid() && InRange(old(Abstract())) && Abstract() == Step(old(Abstract()), op)
      ensures forall h | h in handles.Values :: h in old(handles.Values)
      ensures forall n | n in notifiers :: n in old(notifiers) || fresh(n)
    {
      ResetAt(op.at);
      if op.AssignShared? {
        Enter(op.at);
      } else if op.Destroy? {
        Forget(op.at);
      }
    }

    method PerformAssign(op: Op)
      requires Valid() && Enabled(handles.Keys, op) && (op.AssignCopy? || op.AssignMove?)
      requires InRange(Abstract()) && Abstract().held.Keys == handles.Keys
      modifies handles.Values, notifiers
      ensures Valid() && InRange(old(Abstract())) && Abstract() == Step(old(Abstract()), op)
      ensures handles == old(handles) && notifiers == old(notifiers)
    {
      if op.AssignCopy? {
        if op.at == op.from {
          AssignCopySelf(op.at);
        } else {
          AssignCopyAt(op.at, op.from);
        }
      } else {
        if op.at == op.from {
          AssignMoveSelf(op.at);
        } else {
          AssignMoveAt(op.at, op.from);
        }
      }
    }

    /** A handle that holds nothing is gone. */
    method Forget(a: nat)
      requires Valid() && a in handles && handles[a].target == null
      modifies this
      ensures Valid() && handles == old(handles) - {a} && notifiers == old(notifiers)
      ensures Abstract() == State(old(Abstract()).held - {a}, old(Abstract()).calls)
    {
      ghost var before := Abstract();
      handles := handles - {a};
      assert Abstract().held == before.held - {a};
    }
  }

  /** Any sequence of operations on handles keeps the notifiers held at most once, and unregisters each exactly once. */
  method Execute(ops: seq<Op>) returns (w: World)
    ensures fresh(w) && w.Valid() && w.Abstract() == Run(State(map[], []), ops) && Linear(w.Abstract())
  {
    w := new World();
    ghost var start := w.Abstract();
    RunIsLinear(start, ops);
    for i := 0 to |ops|
      invariant fresh(w) && w.Valid() && InRange(w.Abstract())
      invariant fresh(w.handles.Values) && forall n | 0 <= n < |w.notifiers| :: fresh(w.notifiers[n])
      invariant Run(w.Abstract(), ops[i..]) == Run(start, ops)
    {
      w.Perform(ops[i]);
      assert forall n | 0 <= n < |w.notifiers| :: w.notifiers[n] in w.notifiers;
      assert ops[i..][0] == ops[i] && ops[i..][1..] == ops[i + 1..];
    }
  }

  ghost predicate Old(s: State, a: nat) {
    a in s.held && (s.held[a].Some? ==> s.held[a].value < |s.calls|)
  }
}
