/** What every event of the to-do application does to the lists and items that are shown. */
module ToDoEffects {
  import opened Wrappers
  import opened Transactions
  import opened ToDo

  /**
   * From `s` to `t`, new data was saved. With a transaction still open the process ends; otherwise
   * the new data is seen, and it is committed at once, or the transaction stays open and failed.
   */
  ghost predicate SavedTo(s: App, t: App, succeeds: bool) {
    if s.realm.writing then t == App(s.realm, s.screen, true)
    else
      && t.screen == s.screen && !t.crashed
      && t.realm == if succeeds
           then State(t.realm.live, t.realm.live, false, false, s.realm.commits + 1, s.realm.cancels)
           else State(t.realm.live, s.realm.committed, true, true, s.realm.commits, s.realm.cancels)
  }

  lemma SaveIs(s: App, store: Store, succeeds: bool)
    requires Consistent(s.realm)
    ensures SavedTo(s, Save(s, store, succeeds), succeeds)
    ensures !s.realm.writing ==> Save(s, store, succeeds).realm.live == store
  {
    if !s.realm.writing {
      StoresAreCommitted(s.realm, [store], succeeds);
      assert Puts([store]) == [Put(store)];
    }
  }

  /** After an exception nothing happens any more. */
  lemma CrashedStays(s: App, e: Event)
    requires s.crashed
    ensures Step(s, e) == s
  {
  }

  // ---- the screen of all lists ----

  /** A list with a name is added behind the others; nothing else changes. */
  lemma AddListDoes(s: App, id: string, name: string, opens: bool, succeeds: bool)
    requires Consistent(s.realm) && !s.crashed
    ensures var t := Step(s, AddList(id, name, opens, succeeds));
            if s.screen.None? && name != "" && opens then
              && SavedTo(s, t, succeeds)
              && (!s.realm.writing ==>
                    && t.realm.live.lists == s.realm.live.lists + [ToDoList(id, name)]
                    && t.realm.live.items == s.realm.live.items)
            else t == s
  {
    var store := s.realm.live;
    SaveIs(s, Store(store.lists + [ToDoList(id, name)], store.items), succeeds);
  }

  /** One list goes, the one at the row; the last list takes its place, and no item goes. */
  lemma DeleteListDoes(s: App, row: nat, opens: bool, succeeds: bool)
    requires Consistent(s.realm) && !s.crashed
    ensures var lists := s.realm.live.lists;
            var t := Step(s, DeleteList(row, opens, succeeds));
            if s.screen.None? && row < |lists| && opens then
              && SavedTo(s, t, succeeds)
              && (!s.realm.writing ==>
                    && multiset(t.realm.live.lists) == multiset(lists) - multiset{lists[row]}
                    && MovedOver(lists, t.realm.live.lists, row)
                    && t.realm.live.items == s.realm.live.items)
            else t == s
  {
    var store := s.realm.live;
    if row < |store.lists| {
      SaveIs(s, Store(MoveLastOver(store.lists, row), store.items), succeeds);
      MoveLastOverHolds(store.lists, row);
      MoveLastOverIs(store.lists, row);
    }
  }

  /** Every element keeps its row, but the last one moves to the row that was deleted. */
  ghost predicate MovedOver<T>(a: seq<T>, b: seq<T>, row: nat) {
    && row < |a| == |b| + 1
    && forall k | 0 <= k < |b| :: b[k] == if k == row then a[|b|] else a[k]
  }

  lemma MoveLastOverIs<T>(s: seq<T>, row: nat)
    requires row < |s|
    ensures MovedOver(s, MoveLastOver(s, row), row)
  {
  }

  /** The screen of the list at the row is opened; going back closes it; no data changes. */
  lemma OpenListDoes(s: App, row: nat)
    requires !s.crashed
    ensures var t := Step(s, OpenList(row));
            if s.screen.None? && row < |s.realm.live.lists|
            then t == App(s.realm, Some(s.realm.live.lists[row].listId), false)
            else t == s
    ensures Step(s, Back) == App(s.realm, None, false)
  {
  }

  // ---- the screen of one list ----

  /** The first list with an id. */
  ghost predicate FirstList(lists: seq<ToDoList>, id: string, row: nat) {
    && row < |lists| && lists[row].listId == id
    && forall i | 0 <= i < row :: lists[i].listId != id
  }

  lemma RowOfIsFirst(lists: seq<ToDoList>, id: string, row: nat)
    requires FirstList(lists, id, row)
    ensures RowOf(lists, id) == row
  {
    var r := RowOf(lists, id);
    assert r < |lists| ==> lists[r].listId == id;
  }

  /** The list whose screen is open gets another name, keeping its id and its row; nothing else changes. */
  lemma RenameListDoes(s: App, name: string, opens: bool, succeeds: bool, row: nat)
    requires Consistent(s.realm) && !s.crashed && s.screen.Some?
    requires FirstList(s.realm.live.lists, s.screen.value, row)
    ensures var lists := s.realm.live.lists;
            var t := Step(s, RenameList(name, opens, succeeds));
            if name != "" && name != lists[row].name && opens then
              && SavedTo(s, t, succeeds)
              && (!s.realm.writing ==>
                    && |t.realm.live.lists| == |lists|
                    && (forall k | 0 <= k < |lists| ::
                          t.realm.live.lists[k] == if k == row then ToDoList(s.screen.value, name) else lists[k])
                    && t.realm.live.items == s.realm.live.items)
            else t == s
  {
    var store := s.realm.live;
    RowOfIsFirst(store.lists, s.screen.value, row);
    SaveIs(s, Store(store.lists[row := store.lists[row].(name := name)], store.items), succeeds);
  }

  /** Without its list, or without an open screen, nothing is renamed. */
  lemma RenameNothing(s: App, name: string, opens: bool, succeeds: bool)
    requires s.screen.Some? ==>
               forall i | 0 <= i < |s.realm.live.lists| :: s.realm.live.lists[i].listId != s.screen.value
    ensures Step(s, RenameList(name, opens, succeeds)) == s
  {
    if s.screen.Some? {
      var row := RowOf(s.realm.live.lists, s.screen.value);
      assert row == |s.realm.live.lists|;
    }
  }

  /** Without an open screen no item is added, edited or deleted. */
  lemma NoScreenNoItems(s: App, row: nat, name: string, opens: bool, succeeds: bool)
    requires s.screen.None?
    ensures Step(s, AddItem(name, opens, succeeds)) == s
    ensures Step(s, EditItem(row, name, opens, succeeds)) == s && Step(s, DeleteItem(row, opens, succeeds)) == s
  {
  }

  /** A named item appears behind the others of the open list; other lists show the same. */
  lemma AddItemDoes(s: App, name: string, opens: bool, succeeds: bool, other: string)
    requires Consistent(s.realm) && !s.crashed && s.screen.Some? && other != s.screen.value
    ensures var id, items := s.screen.value, s.realm.live.items;
            var t := Step(s, AddItem(name, opens, succeeds));
            if name != "" && opens then
              && SavedTo(s, t, succeeds)
              && (!s.realm.writing ==>
                    && t.realm.live.lists == s.realm.live.lists
                    && t.realm.live.items == items + [Item(id, name)]
                    && View(t.realm.live.items, id) == View(items, id) + [Item(id, name)]
                    && View(t.realm.live.items, other) == View(items, other))
            else t == s
  {
    var store := s.realm.live;
    var x := Item(s.screen.value, name);
    SaveIs(s, Store(store.lists, store.items + [x]), succeeds);
    ViewConcat(store.items, [x], s.screen.value);
    ViewConcat(store.items, [x], other);
    assert View([x], s.screen.value) == [x] && View([x], other) == [];
  }

  /** The item shown at the row gets another name in its place; nothing else that any list shows changes. */
  lemma EditItemDoes(s: App, row: nat, name: string, opens: bool, succeeds: bool, other: string)
    requires Consistent(s.realm) && !s.crashed && s.screen.Some? && other != s.screen.value
    ensures var id, items := s.screen.value, s.realm.live.items;
            var t := Step(s, EditItem(row, name, opens, succeeds));
            if row < |View(items, id)| && name != "" && name != View(items, id)[row].name && opens then
              && SavedTo(s, t, succeeds)
              && (!s.realm.writing ==>
                    && t.realm.live.lists == s.realm.live.lists
                    && |t.realm.live.items| == |items|
                    && View(t.realm.live.items, id) == View(items, id)[row := Item(id, name)]
                    && View(t.realm.live.items, other) == View(items, other))
            else t == s
  {
    var id, store := s.screen.value, s.realm.live;
    RowsShow(store.items, id);
    var rows := Rows(store.items, id);
    if row < |rows| {
      var at := rows[row];
      SaveIs(s, Store(store.lists, store.items[at := store.items[at].(name := name)]), succeeds);
      EditedView(store.items, id, row, name);
      EditedElsewhere(store.items, at, name, other);
    }
  }

  /** Renaming the item at one of the rows of a list renames it where the list shows it. */
  lemma {:induction false} EditedView(items: seq<Item>, id: string, row: nat, name: string)
    requires row < |Rows(items, id)|
    ensures row < |View(items, id)|
    ensures var at := Rows(items, id)[row];
            View(items[at := items[at].(name := name)], id) == View(items, id)[row := Item(id, name)]
    decreases |items|
  {
    RowsShow(items, id);
    var n := |items| - 1;
    var at := Rows(items, id)[row];
    var edited := items[at := items[at].(name := name)];
    assert items == items[..n] + [items[n]] && edited == edited[..n] + [edited[n]];
    ViewConcat(items[..n], [items[n]], id);
    ViewConcat(edited[..n], [edited[n]], id);
    if at == n {
      LastRow(items, id, row);
      assert edited[..n] == items[..n];
    } else {
      EarlierRow(items, id, row);
      EditedView(items[..n], id, row, name);
      assert edited[..n] == items[..n][at := items[at].(name := name)];
    }
  }

  lemma LastRow(items: seq<Item>, id: string, row: nat)
    requires row < |Rows(items, id)| && Rows(items, id)[row] == |items| - 1
    ensures row == |View(items[..|items| - 1], id)| && items[|items| - 1].listId == id
  {
    RowsShow(items[..|items| - 1], id);
  }

  lemma EarlierRow(items: seq<Item>, id: string, row: nat)
    requires row < |Rows(items, id)| && Rows(items, id)[row] < |items| - 1
    ensures var init := items[..|items| - 1];
            row < |Rows(init, id)| && Rows(init, id)[row] == Rows(items, id)[row] && row < |View(init, id)|
  {
    RowsShow(items[..|items| - 1], id);
  }

  lemma EditedElsewhere(items: seq<Item>, at: nat, name: string, other: string)
    requires at < |items| && items[at].listId != other
    ensures View(items[at := items[at].(name := name)], other) == View(items, other)
  {
    var x := items[at].(name := name);
    assert items == items[..at] + [items[at]] + items[at + 1..];
    assert items[at := x] == items[..at] + [x] + items[at + 1..];
    ViewConcat(items[..at] + [items[at]], items[at + 1..], other);
    ViewConcat(items[..at], [items[at]], other);
    ViewConcat(items[..at] + [x], items[at + 1..], other);
    ViewConcat(items[..at], [x], other);
    assert View([x], other) == [] && View([items[at]], other) == [];
  }

  /** The item shown at the row goes, and every list keeps its other items. */
  lemma DeleteItemDoes(s: App, row: nat, opens: bool, succeeds: bool, other: string)
    requires Consistent(s.realm) && !s.crashed && s.screen.Some? && other != s.screen.value
    ensures var id, items := s.screen.value, s.realm.live.items;
            var t := Step(s, DeleteItem(row, opens, succeeds));
            if row < |View(items, id)| && opens then
              && SavedTo(s, t, succeeds)
              && (!s.realm.writing ==>
                    && t.realm.live.lists == s.realm.live.lists
                    && multiset(View(t.realm.live.items, id))
                         == multiset(View(items, id)) - multiset{View(items, id)[row]}
                    && multiset(View(t.realm.live.items, other)) == multiset(View(items, other))
                    && exists at: nat :: MovedOver(items, t.realm.live.items, at) && items[at] == View(items, id)[row])
            else t == s
  {
    var id, store := s.screen.value, s.realm.live;
    RowsShow(store.items, id);
    var rows := Rows(store.items, id);
    if row < |rows| {
      hide View, Rows, MoveLastOver, Save;
      SaveIs(s, Store(store.lists, MoveLastOver(store.items, rows[row])), succeeds);
      DeletedItem(store.items, id, row, other);
    }
  }

  lemma DeletedItem(items: seq<Item>, id: string, row: nat, other: string)
    requires row < |Rows(items, id)| && other != id
    ensures row < |View(items, id)| && items[Rows(items, id)[row]] == View(items, id)[row]
    ensures var at := Rows(items, id)[row];
            var items' := MoveLastOver(items, at);
            && multiset(View(items', id)) == multiset(View(items, id)) - multiset{View(items, id)[row]}
            && multiset(View(items', other)) == multiset(View(items, other))
            && MovedOver(items, items', at)
  {
    hide View;
    RowsShow(items, id);
    var at := Rows(items, id)[row];
    DeletedViews(items, at, id);
    DeletedViews(items, at, other);
    MoveLastOverIs(items, at);
  }

  lemma DeletedViews(items: seq<Item>, at: nat, id: string)
    requires at < |items|
    ensures multiset(View(MoveLastOver(items, at), id)) ==
            if items[at].listId == id then multiset(View(items, id)) - multiset{items[at]}
                else multiset(View(items, id))
  {
    hide MoveLastOver, View;
    MoveLastOverHolds(items, at);
    ViewHolds(items, id);
    ViewHolds(MoveLastOver(items, at), id);
    var before, after := multiset(View(items, id)), multiset(View(MoveLastOver(items, at), id));
    var expected := if items[at].listId == id then before - multiset{items[at]} else before;
    forall x ensures after[x] == expected[x] {
      LessOne(multiset(items), items[at], x);
      LessOne(before, items[at], x);
    }
  }

  lemma LessOne(m: multiset<Item>, y: Item, x: Item)
    ensures (m - multiset{y})[x] == if x == y && m[x] > 0 then m[x] - 1 else m[x]
  {
  }
}
