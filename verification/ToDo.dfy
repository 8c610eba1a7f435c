/** The two screens of the to-do application, as runs over the transactions of one realm. */
module ToDo {
  import opened Wrappers
  import opened Transactions

  datatype ToDoList = ToDoList(listId: string, name: string)

  datatype Item = Item(listId: string, name: string)

  datatype Store = Store(lists: seq<ToDoList>, items: seq<Item>)

  /** Deleting a row puts the last row in its place. */
  function MoveLastOver<T>(s: seq<T>, row: nat): seq<T>
    requires row < |s|
  {
    s[row := s[|s| - 1]][..|s| - 1]
  }

  /** The rows of the items of a list, in table order. */
  function Rows(items: seq<Item>, id: string): (rows: seq<nat>)
    ensures forall k | 0 <= k < |rows| :: rows[k] < |items| && items[rows[k]].listId == id
    ensures forall j, k | 0 <= j < k < |rows| :: rows[j] < rows[k]
  {
    if items == [] then []
    else
      var n := |items| - 1;
      Rows(items[..n], id) + if items[n].listId == id then [n] else []
  }

  /** The items of a list, as its screen shows them. */
  function View(items: seq<Item>, id: string): seq<Item> {
    if items == [] then []
    else if items[0].listId == id then [items[0]] + View(items[1..], id)
    else View(items[1..], id)
  }

  // ---- runs ----

  /**
   * What the user does. `opens` says if the realm can be opened, `succeeds` if the commit does;
   * rows are positions on the screen.
   */
  datatype Event =
    | AddList(id: string, name: string, opens: bool, succeeds: bool)
    | DeleteList(row: nat, opens: bool, succeeds: bool)
    | OpenList(row: nat)
    | Back
    | RenameList(name: string, opens: bool, succeeds: bool)
    | AddItem(name: string, opens: bool, succeeds: bool)
    | EditItem(row: nat, name: string, opens: bool, succeeds: bool)
    | DeleteItem(row: nat, opens: bool, succeeds: bool)

  /** The realm, the list whose screen is open, and whether an exception has ended the process. */
  datatype App = App(realm: State<Store>, screen: Option<string>, crashed: bool)

  function Save(s: App, store: Store, succeeds: bool): App {
    var r := Written(s.realm, [Put(store)], succeeds);
    App(r.state, s.screen, r.outcome == Raised)
  }

  /** The row of the list with an id. */
  function RowOf(lists: seq<ToDoList>, id: string): (row: nat)
    ensures row <= |lists| && (row < |lists| ==> lists[row].listId == id)
    ensures forall i | 0 <= i < row :: lists[i].listId != id
  {
    if lists == [] || lists[0].listId == id then 0 else RowOf(lists[1..], id) + 1
  }

  /** The data an event saves, if it saves anything. */
  function Saved(s: App, e: Event): Option<Store> {
    var lists, items := s.realm.live.lists, s.realm.live.items;
    match e
    case AddList(id, name, opens, _) =>
      if s.screen.Some? || name == "" || !opens then None else Some(Store(lists + [ToDoList(id, name)], items))
    case DeleteList(row, opens, _) =>
      if s.screen.Some? || row >= |lists| || !opens then None else Some(Store(MoveLastOver(lists, row), items))
    case RenameList(name, opens, _) =>
      if s.screen.None? then None else
      var row := RowOf(lists, s.screen.value);
      if row >= |lists| || name == "" || name == lists[row].name || !opens then None
      else Some(Store(lists[row := lists[row].(name := name)], items))
    case AddItem(name, opens, _) =>
      if s.screen.None? || name == "" || !opens then None else Some(Store(lists, items + [Item(s.screen.value, name)]))
    case EditItem(row, name, opens, _) =>
      if s.screen.None? then None else
      var rows := Rows(items, s.screen.value);
      if row >= |rows| || name == "" || name == items[rows[row]].name || !opens then None
      else Some(Store(lists, items[rows[row] := items[rows[row]].(name := name)]))
    case DeleteItem(row, opens, _) =>
      if s.screen.None? then None else
      var rows := Rows(items, s.screen.value);
      if row >= |rows| || !opens then None else Some(Store(lists, MoveLastOver(items, rows[row])))
    case _ => None
  }

  function Step(s: App, e: Event): App {
    if s.crashed then s
    else if e.OpenList? then
      if s.screen.None? && e.row < |s.realm.live.lists| then s.(screen := Some(s.realm.live.lists[e.row].listId)) else s
    else if e.Back? then s.(screen := None)
    else if Saved(s, e).None? then s
    else Save(s, Saved(s, e).value, e.succeeds)
  }

  function Run(s: App, es: seq<Event>): App
    decreases |es|
  {
    if es == [] then s else Run(Step(s, es[0]), es[1..])
  }

  /** Whether an event commits something. */
  predicate Commits(s: App, e: Event) {
    Step(s, e).realm.commits == s.realm.commits + 1
  }

  /** What an event does to the number of committed items of a list: one added, or one deleted, on its screen. */
  function Change(s: App, e: Event, id: string): int {
    if !Commits(s, e) || s.screen != Some(id) then 0
    else if e.AddItem? then 1
    else if e.DeleteItem? then -1
    else 0
  }

  /** Committed item adds minus committed item deletes on the screen of a list, over a run. */
  function Net(s: App, es: seq<Event>, id: string): int
    decreases |es|
  {
    if es == [] then 0 else Change(s, es[0], id) + Net(Step(s, es[0]), es[1..], id)
  }

  /** The same on all screens. */
  function NetAll(s: App, es: seq<Event>): int
    decreases |es|
  {
    if es == [] then 0
    else (if s.screen.Some? then Change(s, es[0], s.screen.value) else 0) + NetAll(Step(s, es[0]), es[1..])
  }

  lemma SaveEffect(s: App, store: Store, succeeds: bool)
    requires Consistent(s.realm)
    ensures var t := Save(s, store, succeeds);
            && t.screen == s.screen && Consistent(t.realm)
            && (s.realm.writing ==> t.crashed && t.realm == s.realm)
            && (!s.realm.writing ==> !t.crashed && t.realm.live == store)
            && (!s.realm.writing && succeeds ==>
                  t.realm.committed == store && t.realm.commits == s.realm.commits + 1 && !t.realm.writing)
            && (!s.realm.writing && !succeeds ==>
                  && t.realm.committed == s.realm.committed && t.realm.commits == s.realm.commits
                  && t.realm.writing && t.realm.failed)
  {
    var b := Begun(s.realm);
    if b.outcome == Returned {
      PlainBlock(b.state, [Put(store)]);
    }
  }

  /** An event either commits what it saves, or leaves the committed data alone. */
  lemma StepEffect(s: App, e: Event)
    requires Consistent(s.realm)
    ensures var t := Step(s, e);
            && Consistent(t.realm)
            && (Commits(s, e) ==>
                  s.realm.live == s.realm.committed && Saved(s, e).Some? && t.realm.committed == Saved(s, e).value)
            && (!Commits(s, e) ==> t.realm.committed == s.realm.committed)
  {
    if Saved(s, e).Some? {
      SaveEffect(s, Saved(s, e).value, match e case OpenList(_) => true case Back => true case _ => e.succeeds);
    }
  }

  // ---- views and rows ----

  /** A view holds exactly the items of its list. */
  lemma {:induction false} ViewHolds(items: seq<Item>, id: string)
    ensures forall x :: multiset(View(items, id))[x] == if x.listId == id then multiset(items)[x] else 0
  {
    if items != [] {
      assert items == [items[0]] + items[1..];
      ViewHolds(items[1..], id);
    }
  }

  lemma {:induction false} ViewConcat(a: seq<Item>, b: seq<Item>, id: string)
    ensures View(a + b, id) == View(a, id) + View(b, id)
  {
    if a == [] {
      assert a + b == b;
    } else {
      assert (a + b)[1..] == a[1..] + b;
      ViewConcat(a[1..], b, id);
    }
  }

  /** The rows of a list are where the items it shows are. */
  lemma {:induction false} RowsShow(items: seq<Item>, id: string)
    ensures |Rows(items, id)| == |View(items, id)|
    ensures forall k | 0 <= k < |Rows(items, id)| :: items[Rows(items, id)[k]] == View(items, id)[k]
    decreases |items|
  {
    if items != [] {
      var n := |items| - 1;
      RowsShow(items[..n], id);
      assert items == items[..n] + [items[n]];
      ViewConcat(items[..n], [items[n]], id);
    }
  }

  lemma MoveLastOverHolds<T>(s: seq<T>, row: nat)
    requires row < |s|
    ensures multiset(MoveLastOver(s, row)) == multiset(s) - multiset{s[row]}
  {
    var n := |s| - 1;
    assert s == s[..n] + [s[n]];
    if row < n {
      assert s[..n] == s[..row] + [s[row]] + s[row + 1..n];
      assert MoveLastOver(s, row) == s[..row] + [s[n]] + s[row + 1..n];
    } else {
      assert MoveLastOver(s, row) == s[..n];
    }
  }

  /** Around the deleted row, what another list shows. */
  lemma MoveLastOverView(items: seq<Item>, row: nat, id: string)
    requires row < |items| - 1
    ensures var n := |items| - 1;
            && View(items, id) == View(items[..row], id) + View([items[row]], id) + View(items[row + 1..n], id)
                 + View([items[n]], id)
            && View(MoveLastOver(items, row), id) == View(items[..row], id) + View([items[n]], id)
                 + View(items[row + 1..n], id)
  {
    var n := |items| - 1;
    assert items == items[..row] + [items[row]] + items[row + 1..n] + [items[n]];
    assert MoveLastOver(items, row) == items[..row] + [items[n]] + items[row + 1..n];
    ViewConcat(items[..row] + [items[row]] + items[row + 1..n], [items[n]], id);
    ViewConcat(items[..row] + [items[row]], items[row + 1..n], id);
    ViewConcat(items[..row], [items[row]], id);
    ViewConcat(items[..row] + [items[n]], items[row + 1..n], id);
    ViewConcat(items[..row], [items[n]], id);
  }

  // ---- items over a run ----

  /** The item that a saving event takes out of the items. */
  function Taken(s: App, e: Event): multiset<Item>
    requires Saved(s, e).Some?
  {
    match e
    case EditItem(row, _, _, _) => multiset{s.realm.live.items[Rows(s.realm.live.items, s.screen.value)[row]]}
    case DeleteItem(row, _, _) => multiset{s.realm.live.items[Rows(s.realm.live.items, s.screen.value)[row]]}
    case _ => multiset{}
  }

  /** The item that a saving event puts into the items. */
  function Given(s: App, e: Event): multiset<Item>
    requires Saved(s, e).Some?
  {
    match e
    case AddItem(name, _, _) => multiset{Item(s.screen.value, name)}
    case EditItem(_, name, _, _) => multiset{Item(s.screen.value, name)}
    case _ => multiset{}
  }

  /** One item of a list may go, and another one of the same list may come. */
  ghost predicate Swapped(a: seq<Item>, b: seq<Item>, id: string, gone: multiset<Item>, come: multiset<Item>) {
    && gone <= multiset(a) && multiset(b) == multiset(a) - gone + come
    && forall x | x in gone || x in come :: x.listId == id
  }

  /** A saving event swaps items of the list on the screen, or leaves the items as they are. */
  lemma SavedItems(s: App, e: Event)
    requires Saved(s, e).Some?
    ensures e.AddItem? || e.EditItem? || e.DeleteItem? ==>
              && s.screen.Some?
              && Swapped(s.realm.live.items, Saved(s, e).value.items, s.screen.value, Taken(s, e), Given(s, e))
    ensures !e.AddItem? && !e.EditItem? && !e.DeleteItem? ==> Saved(s, e).value.items == s.realm.live.items
  {
    hide Swapped, MoveLastOver;
    var items := s.realm.live.items;
    if e.AddItem? {
      AddedSwaps(items, Item(s.screen.value, e.name));
    } else if e.DeleteItem? {
      DeletedSwaps(items, Rows(items, s.screen.value)[e.row]);
    } else if e.EditItem? {
      EditedSwaps(items, Rows(items, s.screen.value)[e.row], e.name);
    }
  }

  lemma AddedSwaps(items: seq<Item>, x: Item)
    ensures Swapped(items, items + [x], x.listId, multiset{}, multiset{x})
  {
  }

  lemma DeletedSwaps(items: seq<Item>, row: nat)
    requires row < |items|
    ensures Swapped(items, MoveLastOver(items, row), items[row].listId, multiset{items[row]}, multiset{})
  {
    MoveLastOverHolds(items, row);
  }

  lemma EditedSwaps(items: seq<Item>, row: nat, name: string)
    requires row < |items|
    ensures var x := items[row].(name := name);
            Swapped(items, items[row := x], x.listId, multiset{items[row]}, multiset{x})
  {
    ReplacedHolds(items, row, items[row].(name := name));
  }

  lemma SavedSizes(s: App, e: Event)
    requires Saved(s, e).Some?
    ensures |Given(s, e)| - |Taken(s, e)| == if e.AddItem? then 1 else if e.DeleteItem? then -1 else 0
  {
  }

  lemma ReplacedHolds<T>(s: seq<T>, row: nat, x: T)
    requires row < |s|
    ensures multiset(s[row := x]) == multiset(s) - multiset{s[row]} + multiset{x}
  {
    assert s == s[..row] + [s[row]] + s[row + 1..];
    assert s[row := x] == s[..row] + [x] + s[row + 1..];
  }

  /** On other screens the items of a list stay the same. */
  lemma OthersKeep(s: App, e: Event, id: string)
    requires Consistent(s.realm) && s.screen != Some(id)
    ensures multiset(View(Step(s, e).realm.committed.items, id)) == multiset(View(s.realm.committed.items, id))
  {
    StepEffect(s, e);
    if Commits(s, e) {
      SavedItems(s, e);
      hide View, Step, Saved;
      if e.AddItem? || e.EditItem? || e.DeleteItem? {
        SwappedElsewhere(
          s.realm.live.items, Saved(s, e).value.items, s.screen.value, Taken(s, e), Given(s, e), id);
      }
    }
  }

  lemma SwappedElsewhere(
      a: seq<Item>, b: seq<Item>, id: string, gone: multiset<Item>, come: multiset<Item>, other: string)
    requires Swapped(a, b, id, gone, come) && other != id
    ensures multiset(View(a, other)) == multiset(View(b, other))
  {
    hide View;
    ViewHolds(a, other);
    ViewHolds(b, other);
  }

  lemma SwappedCounts(a: seq<Item>, b: seq<Item>, id: string, gone: multiset<Item>, come: multiset<Item>)
    requires Swapped(a, b, id, gone, come)
    ensures |View(b, id)| == |View(a, id)| - |gone| + |come|
  {
    hide View;
    var va, vb := multiset(View(a, id)), multiset(View(b, id));
    SwappedViews(a, b, id, gone, come);
    assert |va - gone| + |gone| == |va|;
    assert |vb| == |va - gone| + |come|;
  }

  lemma SwappedViews(a: seq<Item>, b: seq<Item>, id: string, gone: multiset<Item>, come: multiset<Item>)
    requires Swapped(a, b, id, gone, come)
    ensures gone <= multiset(View(a, id)) && multiset(View(b, id)) == multiset(View(a, id)) - gone + come
  {
    hide View;
    ViewHolds(a, id);
    ViewHolds(b, id);
  }

  /** The number of committed items of a list changes only as its screen adds and deletes. */
  lemma ChangeCounts(s: App, e: Event, id: string)
    requires Consistent(s.realm)
    ensures |View(Step(s, e).realm.committed.items, id)| == |View(s.realm.committed.items, id)| + Change(s, e, id)
  {
    var a := s.realm.committed.items;
    var b := Step(s, e).realm.committed.items;
    StepEffect(s, e);
    if s.screen != Some(id) {
      OthersKeep(s, e, id);
      SameSize(View(a, id), View(b, id));
    } else if Commits(s, e) {
      SavedCounts(s, e, id);
    }
  }

  lemma SavedCounts(s: App, e: Event, id: string)
    requires Saved(s, e).Some? && s.screen == Some(id)
    ensures |View(Saved(s, e).value.items, id)| ==
            |View(s.realm.live.items, id)| + if e.AddItem? then 1 else if e.DeleteItem? then -1 else 0
  {
    hide View, Saved, Swapped, Taken, Given;
    SavedItems(s, e);
    SavedSizes(s, e);
    if e.AddItem? || e.EditItem? || e.DeleteItem? {
      SwappedCounts(s.realm.live.items, Saved(s, e).value.items, id, Taken(s, e), Given(s, e));
    }
  }

  lemma SameSize<T>(a: seq<T>, b: seq<T>)
    requires multiset(a) == multiset(b)
    ensures |a| == |b|
  {
    assert |multiset(a)| == |a| && |multiset(b)| == |b|;
  }

  /** The same for all items. */
  lemma ChangeCountsAll(s: App, e: Event)
    requires Consistent(s.realm)
    ensures |Step(s, e).realm.committed.items| == |s.realm.committed.items| + if s.screen.Some?
              then Change(s, e, s.screen.value) else 0
  {
    StepEffect(s, e);
  }

  /** Over every run the committed items of a list are its committed adds minus its committed deletes. */
  lemma {:induction false} RunCounts(s: App, es: seq<Event>, id: string)
    requires Consistent(s.realm)
    ensures Consistent(Run(s, es).realm)
    ensures |View(Run(s, es).realm.committed.items, id)| == |View(s.realm.committed.items, id)| + Net(s, es, id)
    ensures |Run(s, es).realm.committed.items| == |s.realm.committed.items| + NetAll(s, es)
    decreases |es|
  {
    if es != [] {
      StepEffect(s, es[0]);
      ChangeCounts(s, es[0], id);
      ChangeCountsAll(s, es[0]);
      RunCounts(Step(s, es[0]), es[1..], id);
    }
  }

  /** As long as the screen of a list is not open its items stay the same. */
  lemma {:induction false} RunKeepsOthers(s: App, es: seq<Event>, id: string)
    requires Consistent(s.realm) && forall k | 0 <= k <= |es| :: Run(s, es[..k]).screen != Some(id)
    ensures multiset(View(Run(s, es).realm.committed.items, id)) == multiset(View(s.realm.committed.items, id))
    decreases |es|
  {
    if es != [] {
      assert Run(s, es[..0]).screen != Some(id);
      var tail := es[1..];
      forall k | 0 <= k <= |tail| ensures Run(Step(s, es[0]), tail[..k]).screen != Some(id) {
        assert es[..k + 1][0] == es[0] && es[..k + 1][1..] == tail[..k];
        assert Run(s, es[..k + 1]).screen != Some(id);
      }
      StepEffect(s, es[0]);
      OthersKeep(s, es[0], id);
      RunKeepsOthers(Step(s, es[0]), tail, id);
    }
  }

  // ---- lists and the items left behind by deleted ones ----

  ghost predicate UniqueIds(lists: seq<ToDoList>) {
    forall i, j | 0 <= i < j < |lists| :: lists[i].listId != lists[j].listId
  }

  /** New lists get ids that are not in use. */
  ghost predicate FreshId(s: App, e: Event) {
    e.AddList? ==>
      && (forall i | 0 <= i < |s.realm.live.lists| :: s.realm.live.lists[i].listId != e.id)
      && (forall i | 0 <= i < |s.realm.live.items| :: s.realm.live.items[i].listId != e.id)
  }

  ghost predicate FreshRun(s: App, es: seq<Event>)
    decreases |es|
  {
    es == [] || (FreshId(s, es[0]) && FreshRun(Step(s, es[0]), es[1..]))
  }

  /** The items of the lists that exist. */
  function Listed(items: seq<Item>, lists: seq<ToDoList>): nat {
    if lists == [] then 0 else |View(items, lists[0].listId)| + Listed(items, lists[1..])
  }

  predicate Known(lists: seq<ToDoList>, id: string) {
    exists i :: 0 <= i < |lists| && lists[i].listId == id
  }

  /** The items of lists that do not exist any more. */
  function Orphans(items: seq<Item>, lists: seq<ToDoList>): seq<Item> {
    if items == [] then []
    else if Known(lists, items[0].listId) then Orphans(items[1..], lists)
    else [items[0]] + Orphans(items[1..], lists)
  }

  lemma {:induction false} ListedOne(items: seq<Item>, lists: seq<ToDoList>)
    requires items != [] && UniqueIds(lists)
    ensures Listed(items, lists) == Listed(items[1..], lists) + if Known(lists, items[0].listId) then 1 else 0
    decreases |lists|
  {
    if lists != [] {
      var tail := lists[1..];
      assert forall i | 0 <= i < |tail| :: tail[i] == lists[i + 1];
      ListedOne(items, tail);
      var id := items[0].listId;
      if Known(tail, id) {
        var i :| 0 <= i < |tail| && tail[i].listId == id;
        assert lists[i + 1].listId == id;
      }
    }
  }

  lemma {:induction false} ListedNone(lists: seq<ToDoList>)
    ensures Listed([], lists) == 0
  {
    if lists != [] {
      ListedNone(lists[1..]);
    }
  }

  /** Every item belongs to exactly one existing list, or was left behind. */
  lemma {:induction false} ListedAndOrphans(items: seq<Item>, lists: seq<ToDoList>)
    requires UniqueIds(lists)
    ensures Listed(items, lists) + |Orphans(items, lists)| == |items|
    decreases |items|
  {
    if items == [] {
      ListedNone(lists);
    } else {
      ListedOne(items, lists);
      ListedAndOrphans(items[1..], lists);
    }
  }

  lemma StepUnique(s: App, e: Event)
    requires Consistent(s.realm) && UniqueIds(s.realm.live.lists) && UniqueIds(s.realm.committed.lists) && FreshId(s, e)
    ensures UniqueIds(Step(s, e).realm.live.lists) && UniqueIds(Step(s, e).realm.committed.lists)
  {
    StepEffect(s, e);
    if Saved(s, e).Some? {
      SavedUnique(s, e);
      SaveEffect(s, Saved(s, e).value, match e case OpenList(_) => true case Back => true case _ => e.succeeds);
    }
  }

  lemma SavedUnique(s: App, e: Event)
    requires UniqueIds(s.realm.live.lists) && FreshId(s, e) && Saved(s, e).Some?
    ensures UniqueIds(Saved(s, e).value.lists)
  {
  }

  /**
   * In every run with fresh ids, the items of the lists that exist and those left behind by deleted
   * lists together are the committed item adds minus the committed item deletes.
   */
  lemma {:induction false} RunConserves(s: App, es: seq<Event>)
    requires Consistent(s.realm) && UniqueIds(s.realm.live.lists) && UniqueIds(s.realm.committed.lists)
    requires FreshRun(s, es)
    ensures var t := Run(s, es).realm.committed;
            Listed(t.items, t.lists) + |Orphans(t.items, t.lists)| == |s.realm.committed.items| + NetAll(s, es)
    decreases |es|
  {
    if es == [] {
      ListedAndOrphans(s.realm.committed.items, s.realm.committed.lists);
    } else {
      StepEffect(s, es[0]);
      StepUnique(s, es[0]);
      ChangeCountsAll(s, es[0]);
      RunConserves(Step(s, es[0]), es[1..]);
    }
  }

  /** A new list with a fresh id starts with no items: none that a deleted list left behind come back. */
  lemma NewListIsEmpty(s: App, e: Event)
    requires Consistent(s.realm) && e.AddList? && FreshId(s, e) && Commits(s, e)
    ensures View(Step(s, e).realm.committed.items, e.id) == []
  {
    StepEffect(s, e);
    NoneShown(s.realm.live.items, e.id);
  }

  lemma {:induction false} NoneShown(items: seq<Item>, id: string)
    requires forall i | 0 <= i < |items| :: items[i].listId != id
    ensures View(items, id) == []
  {
    if items != [] {
      assert forall i | 0 <= i < |items[1..]| :: items[1..][i] == items[i + 1];
      NoneShown(items[1..], id);
    }
  }

  // ---- the order on other screens ----

  /**
   * Deleting a row of one list keeps what another list shows, in order, exactly if the last row is
   * not an item of that other list or all of its items behind the deleted row are equal to it.
   */
  lemma OthersKeepOrder(items: seq<Item>, row: nat, id: string)
    requires row < |items| && items[row].listId != id
    ensures View(MoveLastOver(items, row), id) == View(items, id) <==>
              || items[|items| - 1].listId != id
              || forall k | row < k < |items| && items[k].listId == id :: items[k] == items[|items| - 1]
  {
    var n := |items| - 1;
    if row < n {
      MoveLastOverView(items, row, id);
      var w := View(items[row + 1..n], id);
      var a := View(items[..row], id);
      ViewEqual(items[row + 1..n], id, items[n]);
      assert View([items[row]], id) == [];
      if items[n].listId == id {
        assert View([items[n]], id) == [items[n]];
        assert a + [items[n]] + w == a + ([items[n]] + w) && a + [] + w + [items[n]] == a + (w + [items[n]]);
        SamePrefix(a, [items[n]] + w, w + [items[n]]);
        Rotated(items[n], w);
        BehindRow(items, row, id);
      } else {
        assert View([items[n]], id) == [];
      }
    } else {
      assert items == items[..n] + [items[n]] && MoveLastOver(items, row) == items[..n];
      ViewConcat(items[..n], [items[n]], id);
    }
  }

  lemma BehindRow(items: seq<Item>, row: nat, id: string)
    requires row < |items| - 1
    ensures AllOf(items[row + 1..|items| - 1], id, items[|items| - 1]) <==>
              forall k | row < k < |items| && items[k].listId == id :: items[k] == items[|items| - 1]
  {
    var n := |items| - 1;
    var w := items[row + 1..n];
    assert forall k | 0 <= k < |w| :: w[k] == items[row + 1 + k];
    assert forall k | row < k < n :: items[k] == w[k - row - 1];
  }

  lemma SamePrefix<T>(a: seq<T>, b: seq<T>, c: seq<T>)
    ensures a + b == a + c <==> b == c
  {
    if a + b == a + c {
      assert b == (a + b)[|a|..] && c == (a + c)[|a|..];
    }
  }

  predicate AllAre<T(==)>(s: seq<T>, x: T) {
    forall k | 0 <= k < |s| :: s[k] == x
  }

  predicate AllOf(items: seq<Item>, id: string, x: Item) {
    forall k | 0 <= k < |items| && items[k].listId == id :: items[k] == x
  }

  lemma {:induction false} ViewEqual(items: seq<Item>, id: string, x: Item)
    ensures AllAre(View(items, id), x) <==> AllOf(items, id, x)
    decreases |items|
  {
    if items != [] {
      var tail := items[1..];
      ViewEqual(tail, id, x);
      AllOfParts(items, id, x);
      AllAreParts([items[0]], View(tail, id), x);
      assert [items[0]][0] == items[0];
      assert AllAre([items[0]], x) <==> items[0] == x;
    }
  }

  lemma AllOfParts(items: seq<Item>, id: string, x: Item)
    requires items != []
    ensures AllOf(items, id, x) <==> (items[0].listId == id ==> items[0] == x) && AllOf(items[1..], id, x)
  {
    assert forall k | 0 <= k < |items[1..]| :: items[1..][k] == items[k + 1];
    assert forall k | 1 <= k < |items| :: items[k] == items[1..][k - 1];
  }

  lemma AllAreParts<T>(a: seq<T>, b: seq<T>, x: T)
    ensures AllAre(a + b, x) <==> AllAre(a, x) && AllAre(b, x)
  {
    assert forall k | 0 <= k < |a| :: (a + b)[k] == a[k];
    assert forall k | 0 <= k < |b| :: (a + b)[|a| + k] == b[k];
  }

  /** Moving an element from the front to the back changes nothing exactly if all others are equal to it. */
  lemma {:induction false} Rotated<T>(x: T, w: seq<T>)
    ensures [x] + w == w + [x] <==> AllAre(w, x)
    decreases |w|
  {
    if w != [] {
      if [x] + w == w + [x] {
        assert w[0] == ([x] + w)[0];
        assert w[1..] + [x] == (w + [x])[1..] == w;
        assert [x] + w[1..] == w;
      }
      Rotated(x, w[1..]);
      AllAreParts([w[0]], w[1..], x);
      assert w == [w[0]] + w[1..];
      if AllAre(w, x) {
        assert [x] + w == w + [x];
      }
    }
  }

  /** Deleting the only item of list "a" swaps what list "b" shows. */
  lemma DeletingReorders()
    ensures var items := [Item("a", "1"), Item("b", "2"), Item("b", "3")];
            && View(items, "b") == [Item("b", "2"), Item("b", "3")]
            && View(MoveLastOver(items, 0), "b") == [Item("b", "3"), Item("b", "2")]
  {
    var items := [Item("a", "1"), Item("b", "2"), Item("b", "3")];
    var after := [Item("b", "3"), Item("b", "2")];
    assert MoveLastOver(items, 0) == after;
    assert items[1..][0] == Item("b", "2") && items[1..][1..][0] == Item("b", "3") && items[1..][1..][1..] == [];
    assert after[1..][0] == Item("b", "2") && after[1..][1..] == [];
  }

  // ---- the handlers of the two screens ----

  class Screens {
    const realm: Realm<Store>
    var screen: Option<string>
    var crashed: bool

    constructor (realm: Realm<Store>)
      ensures this.realm == realm && screen == None && !crashed
    {
      this.realm, screen, crashed := realm, None, false;
    }

    ghost function Abstract(): App
      reads this, realm
    {
      App(realm.Abstract(), screen, crashed)
    }

    /** Store new data in one write transaction; errors are caught, an exception ends the process. */
    method WriteStore(store: Store, succeeds: bool)
      modifies this, realm
      ensures Abstract() == Save(old(Abstract()), store, succeeds)
    {
      var outcome := realm.WriteBlock([Put(store)], succeeds);
      crashed := outcome == Raised;
    }

    method AddToDoList(id: string, name: string, opens: bool, succeeds: bool)
      modifies this, realm
      ensures Abstract() == Step(old(Abstract()), AddList(id, name, opens, succeeds))
    {
      if crashed || screen.Some? || name == "" || !opens {
        return;
      }
      var newToDoList := ToDoList(id, name);
      var data := realm.live;
      WriteStore(data.(lists := data.lists + [newToDoList]), succeeds);
    }

    method DeleteToDoList(row: nat, opens: bool, succeeds: bool)
      modifies this, realm
      ensures Abstract() == Step(old(Abstract()), DeleteList(row, opens, succeeds))
    {
      var data := realm.live;
      if crashed || screen.Some? || row >= |data.lists| || !opens {
        return;
      }
      WriteStore(data.(lists := MoveLastOver(data.lists, row)), succeeds);
    }

    method SelectToDoList(row: nat)
      modifies this
      ensures Abstract() == Step(old(Abstract()), OpenList(row))
    {
      if !crashed && screen.None? && row < |realm.live.lists| {
        screen := Some(realm.live.lists[row].listId);
      }
    }

    method GoBack()
      modifies this
      ensures Abstract() == Step(old(Abstract()), Back)
    {
      if !crashed {
        screen := None;
      }
    }

    method RenameToDoList(name: string, opens: bool, succeeds: bool)
      modifies this, realm
      ensures Abstract() == Step(old(Abstract()), RenameList(name, opens, succeeds))
    {
      var data := realm.live;
      if crashed || screen.None? || name == "" {
        return;
      }
      var row := RowOf(data.lists, screen.value);
      if row >= |data.lists| || name == data.lists[row].name || !opens {
        return;
      }
      WriteStore(data.(lists := data.lists[row := data.lists[row].(name := name)]), succeeds);
    }

    method AddToDoListItem(name: string, opens: bool, succeeds: bool)
      modifies this, realm
      ensures Abstract() == Step(old(Abstract()), AddItem(name, opens, succeeds))
    {
      if crashed || screen.None? || name == "" || !opens {
        return;
      }
      var toDoListItem := Item(screen.value, name);
      var data := realm.live;
      WriteStore(data.(items := data.items + [toDoListItem]), succeeds);
    }

    method EditToDoListItem(row: nat, name: string, opens: bool, succeeds: bool)
      modifies this, realm
      ensures Abstract() == Step(old(Abstract()), EditItem(row, name, opens, succeeds))
    {
      if crashed || screen.None? || name == "" {
        return;
      }
      var data := realm.live;
      var toDoListItems := Rows(data.items, screen.value);
      if row >= |toDoListItems| {
        return;
      }
      var item := data.items[toDoListItems[row]];
      if name == item.name || !opens {
        return;
      }
      WriteStore(data.(items := data.items[toDoListItems[row] := item.(name := name)]), succeeds);
    }

    method DeleteToDoListItem(row: nat, opens: bool, succeeds: bool)
      modifies this, realm
      ensures Abstract() == Step(old(Abstract()), DeleteItem(row, opens, succeeds))
    {
      if crashed || screen.None? || !opens {
        return;
      }
      var data := realm.live;
      var toDoListItems := Rows(data.items, screen.value);
      if row >= |toDoListItems| {
        return;
      }
      WriteStore(data.(items := MoveLastOver(data.items, toDoListItems[row])), succeeds);
    }
  }
}
