/**
 * Running the same upsert a second time, followed step by step beside the first run. Each cell of
 * the second run is at any time what it is in the first run at the same step, or what it is when
 * the first run ends.
 */
module UpsertRerun {
  import opened Wrappers
  import opened Schemas
  import opened Tables
  import opened Upsert
  import opened UpsertKeys
  import opened UpsertFrame
  import opened UpsertHolds
  import opened UpsertRefines
  import opened UpsertSettled
  import opened UpsertKeyedMap

  function CellOf(db: Db, t: string, r: nat, name: string): Option<Cell> {
    if HasRow(db, t, r) && name in db[t][r] then Some(db[t][r][name]) else None
  }

  ghost predicate CellTracks(a: Db, b: Db, f: Db, t: string, r: nat, name: string) {
    CellOf(b, t, r, name) == CellOf(a, t, r, name) || CellOf(b, t, r, name) == CellOf(f, t, r, name)
  }

  /** `a` is a state of the first run, `f` its end, and `b` the second run at the same step as `a`. */
  ghost predicate Tracks(a: Db, b: Db, f: Db) {
    && Grows(a, f)
    && Grows(b, f) && Grows(f, b)
    && forall t: string, r: nat, name: string :: CellTracks(a, b, f, t, r, name)
  }

  ghost predicate InSync(a: Db, b: Db, t: string, r: nat, name: string) {
    HasRow(a, t, r) && CellOf(a, t, r, name) == CellOf(b, t, r, name)
  }

  /** Cells that agree in both runs still do, but for the cells of one row. */
  ghost predicate StaysInSync(a: Db, b: Db, a': Db, b': Db, skip: Option<(string, nat)>) {
    forall t: string, r: nat, name: string | InSync(a, b, t, r, name)
        && skip != Some((t, r)) :: InSync(a', b', t, r, name)
  }

  ghost predicate Rerun(ctx: Context, a: Db, b: Db, f: Db) {
    && Ready(ctx, a) && Ready(ctx, b) && Ready(ctx, f)
    && ctx.inWrite && !ctx.inMigration && KeylessDefaults(ctx) && KeysUnique(ctx, f)
    && Tracks(a, b, f)
  }

  lemma SyncRefl(a: Db, b: Db, skip: Option<(string, nat)>)
    ensures StaysInSync(a, b, a, b, skip)
  {
  }

  lemma SyncTrans(a: Db, b: Db, a1: Db, b1: Db, a2: Db, b2: Db, skip: Option<(string, nat)>)
    requires StaysInSync(a, b, a1, b1, skip) && StaysInSync(a1, b1, a2, b2, skip)
    ensures StaysInSync(a, b, a2, b2, skip)
  {
    hide InSync;
  }

  lemma SyncSkips(a: Db, b: Db, a': Db, b': Db, skip: Option<(string, nat)>)
    requires StaysInSync(a, b, a', b', None)
    ensures StaysInSync(a, b, a', b', skip)
  {
    hide InSync;
  }

  /** The row that is skipped is one the first state does not have. */
  lemma SyncUnskips(a: Db, b: Db, a': Db, b': Db, t: string, r: nat)
    requires StaysInSync(a, b, a', b', Some((t, r))) && !HasRow(a, t, r)
    ensures StaysInSync(a, b, a', b', None)
  {
  }

  // ---- single writes ----

  lemma CellOfSet(db: Db, ty: string, row: nat, name: string, c: Cell, t: string, r: nat, n: string)
    requires HasRow(db, ty, row)
    ensures CellOf(SetCell(db, ty, row, name, c), t, r, n)
         == if t == ty && r == row && n == name then Some(c) else CellOf(db, t, r, n)
  {
  }

  /** The same cell written in both runs. */
  lemma PutTracks(ctx: Context, a: Db, b: Db, f: Db, ty: string, row: nat, p: Property, c: Cell)
    requires Rerun(ctx, a, b, f) && Column(ctx, a, ty, row, p) && CellFits(p, c)
    ensures Column(ctx, b, ty, row, p)
    ensures var a', b' := PutCell(ctx, a, ty, row, p, c), PutCell(ctx, b, ty, row, p, c);
            Rerun(ctx, a', b', f) && StaysInSync(a, b, a', b', None) && InSync(a', b', ty, row, p.name)
  {
    hide Ready, KeylessDefaults, KeysUnique, CellOf, SetCell, CellFits;
    var a', b' := PutCell(ctx, a, ty, row, p, c), PutCell(ctx, b, ty, row, p, c);
    assert a' == SetCell(a, ty, row, p.name, c) && b' == SetCell(b, ty, row, p.name, c);
    forall t: string, r: nat, n: string
      ensures CellTracks(a', b', f, t, r, n) && (InSync(a, b, t, r, n) ==> InSync(a', b', t, r, n))
    {
      CellOfSet(a, ty, row, p.name, c, t, r, n);
      CellOfSet(b, ty, row, p.name, c, t, r, n);
      assert CellTracks(a, b, f, t, r, n);
    }
    CellOfSet(a, ty, row, p.name, c, ty, row, p.name);
    CellOfSet(b, ty, row, p.name, c, ty, row, p.name);
  }

  /** A row the first run has, the second has too. */
  lemma TracksHasRow(a: Db, b: Db, f: Db, t: string, r: nat)
    requires Tracks(a, b, f) && HasRow(a, t, r)
    ensures HasRow(b, t, r) && HasRow(f, t, r)
  {
    hide CellTracks;
  }

  /** An item is added to a list that is the same in both runs. */
  lemma PushTracks(ctx: Context, a: Db, b: Db, f: Db, ty: string, row: nat, p: Property, c: Cell)
    requires Rerun(ctx, a, b, f) && Column(ctx, a, ty, row, p) && p.kind.isArray && ItemFits(p, c)
    requires InSync(a, b, ty, row, p.name)
    ensures Column(ctx, b, ty, row, p)
    ensures var a', b' := PushItem(ctx, a, ty, row, p, c), PushItem(ctx, b, ty, row, p, c);
            Rerun(ctx, a', b', f) && StaysInSync(a, b, a', b', None) && InSync(a', b', ty, row, p.name)
  {
    hide Tracks, KeylessDefaults, KeysUnique, PutCell, StaysInSync, SchemaOk;
    TracksHasRow(a, b, f, ty, row);
    assert RowFits(ctx.schema[ty], a[ty][row]) && RowFits(ctx.schema[ty], b[ty][row]);
    PutTracks(ctx, a, b, f, ty, row, p, Items(a[ty][row][p.name].items + [c]));
  }

  /** Only the first run writes: a cell that the second already has as it ends, or has the same now. */
  lemma FirstOnly(ctx: Context, a: Db, a': Db, b: Db, f: Db, ty: string, row: nat, p: Property)
    requires Rerun(ctx, a, b, f) && Ready(ctx, a') && Grows(a, a') && Grows(a', f)
    requires forall t: string, r: nat | HasRow(a, t, r) :: OnlyCell(a, a', ty, row, p, t, r)
    requires CellOf(b, ty, row, p.name) == CellOf(f, ty, row, p.name)
               || CellOf(b, ty, row, p.name) == CellOf(a', ty, row, p.name)
    ensures Rerun(ctx, a', b, f) && StaysInSync(a, b, a', b, Some((ty, row)))
  {
    hide KeylessDefaults, KeysUnique;
    forall t: string, r: nat, n: string
      ensures CellTracks(a', b, f, t, r, n)
      ensures InSync(a, b, t, r, n) && !(t == ty && r == row) ==> InSync(a', b, t, r, n)
    {
      FirstOnlyAt(ctx, a, a', b, f, ty, row, p, t, r, n);
    }
    hide Ready, CellTracks, InSync, OnlyCell, CellOf;
  }

  lemma FirstOnlyAt(
      ctx: Context, a: Db, a': Db, b: Db, f: Db, ty: string, row: nat, p: Property, t: string, r: nat, n: string)
    requires Ready(ctx, a) && Ready(ctx, b) && Ready(ctx, f) && Tracks(a, b, f) && Grows(a, a') && Grows(a', f)
    requires HasRow(a, t, r) ==> OnlyCell(a, a', ty, row, p, t, r)
    requires CellOf(b, ty, row, p.name) == CellOf(f, ty, row, p.name)
               || CellOf(b, ty, row, p.name) == CellOf(a', ty, row, p.name)
    ensures CellTracks(a', b, f, t, r, n)
    ensures InSync(a, b, t, r, n) && !(t == ty && r == row) ==> InSync(a', b, t, r, n)
  {
    hide SchemaOk;
    assert CellTracks(a, b, f, t, r, n);
    if !HasRow(a, t, r) && HasRow(b, t, r) {
      assert RowFits(ctx.schema[t], b[t][r]) && RowFits(ctx.schema[t], f[t][r]);
    }
  }

  // ---- values that may name an object several times ----

  /** The default of a property that is left to it is written after everything else has been said about the object. */
  ghost predicate DefaultsLast(ctx: Context, ty: string, v: Value)
    decreases v, 0
  {
    v.Dict? && ty in ctx.schema ==>
      && (forall p | p in ctx.schema[ty].persisted && p.name in v.fields :: PropDefaultsLast(ctx, p, v.fields[p.name]))
      && (forall i, j | 0 <= i < j < |ctx.schema[ty].persisted| :: SettledBefore(ctx, ty, v, i, j))
  }

  ghost predicate PropDefaultsLast(ctx: Context, p: Property, x: Value)
    decreases x, 1
  {
    p.kind.base == Object ==>
      if p.kind.isArray then x.Vec? ==> forall i | 0 <= i < |x.elems| :: DefaultsLast(ctx, p.target, x.elems[i])
      else DefaultsLast(ctx, p.target, x)
  }

  /** Property `j` of a new object is left to a default, which is written. */
  predicate LeftToDefault(ctx: Context, ty: string, v: Value, j: nat)
    requires ty in ctx.schema && j < |ctx.schema[ty].persisted| && v.Dict?
  {
    var p := ctx.schema[ty].persisted[j];
    && !ctx.schema[ty].IsPrimary(p) && p.name !in v.fields && (ty, p.name) in ctx.defaults
    && !SkipsNull(p, ctx.defaults[(ty, p.name)], true)
  }

  /** What property `i` is given does not name the object again, or agrees with the default of property `j`. */
  ghost predicate SettledBefore(ctx: Context, ty: string, v: Value, i: nat, j: nat)
    requires ty in ctx.schema && i < |ctx.schema[ty].persisted| && j < |ctx.schema[ty].persisted| && v.Dict?
  {
    var p := ctx.schema[ty].persisted[i];
    p.name in v.fields && LeftToDefault(ctx, ty, v, j) ==>
      || Elsewhere(ctx, ty, v, i)
      || (NamesItself(ctx, ty, v, i) && Agrees(ctx, ty, v.fields[p.name], j))
  }

  /** What property `i` is given does not write down the object itself. */
  ghost predicate Elsewhere(ctx: Context, ty: string, v: Value, i: nat)
    requires ty in ctx.schema && i < |ctx.schema[ty].persisted| && v.Dict?
    requires ctx.schema[ty].persisted[i].name in v.fields
  {
    var p := ctx.schema[ty].persisted[i];
    NodeKey(ctx, ty, v).Some? ==> !PropAddresses(ctx, p, v.fields[p.name], ty, NodeKey(ctx, ty, v).value)
  }

  /** Property `i` is a link that is given the object itself, written down once more. */
  ghost predicate NamesItself(ctx: Context, ty: string, v: Value, i: nat)
    requires ty in ctx.schema && i < |ctx.schema[ty].persisted| && v.Dict?
    requires ctx.schema[ty].persisted[i].name in v.fields
  {
    var p := ctx.schema[ty].persisted[i];
    var w := v.fields[p.name];
    && p.kind.base == Object && !p.kind.isArray && p.target == ty && !ctx.schema[ty].IsPrimary(p)
    && w.Dict? && NodeKey(ctx, ty, v).Some? && NodeKey(ctx, ty, w) == NodeKey(ctx, ty, v) && NoRepeat(ctx, ty, w)
  }

  /** `w` leaves property `j` alone, or gives it the value of its default. */
  predicate Agrees(ctx: Context, ty: string, w: Value, j: nat)
    requires ty in ctx.schema && j < |ctx.schema[ty].persisted| && w.Dict?
  {
    var p := ctx.schema[ty].persisted[j];
    p.name in w.fields ==> IsScalar(p) && (ty, p.name) in ctx.defaults && w.fields[p.name] == ctx.defaults[(ty, p.name)]
  }

  predicate IsScalar(p: Property) {
    p.kind.base != Object && !p.kind.isArray
  }

  /** The cell a scalar property stores for a value. */
  function ScalarCell(x: Value): Cell {
    if x.Prim? then Atom(x.s) else Nil
  }

  // ---- finding the row again ----

  /** The keys of the second run are those at the end of the first. */
  lemma SameKeys(ctx: Context, a: Db, b: Db, f: Db, t: string, q: nat)
    requires Rerun(ctx, a, b, f) && KeepsKeys(ctx, a, f) && t in ctx.schema && KeyName(ctx, t).Some? && HasRow(b, t, q)
    ensures HasRow(f, t, q) && KeyAt(ctx, b, t, q) == KeyAt(ctx, f, t, q)
  {
    hide SchemaOk, Shape, KeylessDefaults, KeysUnique;
    var name := KeyName(ctx, t).value;
    KeyStored(ctx, b, t, q);
    KeyStored(ctx, f, t, q);
    assert CellTracks(a, b, f, t, q, name);
    if HasRow(a, t, q) {
      KeyStored(ctx, a, t, q);
      assert KeyAt(ctx, f, t, q) == KeyAt(ctx, a, t, q);
    }
  }

  /** The second run finds the row that the first run found or appended. */
  lemma LocateTwice(ctx: Context, a: Db, b: Db, f: Db, ty: string, v: Value)
    requires Rerun(ctx, a, b, f) && ty in ctx.schema && ctx.schema[ty].primary.Some?
    requires Locate(ctx, a, ty, v, true).out.Ok? && KeepsKeys(ctx, Locate(ctx, a, ty, v, true).db, f)
    ensures var l := Locate(ctx, a, ty, v, true);
            && Locate(ctx, b, ty, v, true) == Step(b, Ok(Place(l.out.value.row, false, true)))
            && l.out.value.skipPrimary && Rerun(ctx, l.db, b, f) && StaysInSync(a, b, l.db, b, None)
            && HasRow(f, ty, l.out.value.row) && NodeKey(ctx, ty, v).Some?
                 && RowKey(ctx, ty, f[ty][l.out.value.row]) == NodeKey(ctx, ty, v)
            && (l.out.value.created ==> !HasRow(a, ty, l.out.value.row) && SameRow(b, f, ty, l.out.value.row))
  {
    hide Ready, KeysUnique, KeylessDefaults, Locate, Tracks, StaysInSync;
    LocateAppends(ctx, a, b, f, ty, v);
    FoundTwice(ctx, a, b, f, ty, v);
  }

  /** Looking for the row changes nothing or appends one, which is as it ends in the second run. */
  lemma LocateAppends(ctx: Context, a: Db, b: Db, f: Db, ty: string, v: Value)
    requires Rerun(ctx, a, b, f) && ty in ctx.schema && ctx.schema[ty].primary.Some?
    requires Locate(ctx, a, ty, v, true).out.Ok? && Grows(Locate(ctx, a, ty, v, true).db, f)
    ensures var l := Locate(ctx, a, ty, v, true);
            && l.out.value.skipPrimary && Rerun(ctx, l.db, b, f) && StaysInSync(a, b, l.db, b, None)
            && (l.out.value.created ==> !HasRow(a, ty, l.out.value.row) && SameRow(b, f, ty, l.out.value.row))
  {
    hide KeylessDefaults, KeysUnique, Locate, SchemaOk;
    var l := Locate(ctx, a, ty, v, true);
    LocatePlace(ctx, a, ty, v);
    forall t: string, r: nat | HasRow(a, t, r) ensures l.db[t][r] == a[t][r] {
      LocateSpares(ctx, a, ty, v, true, t, r);
    }
    forall t: string, r: nat, n: string
      ensures CellTracks(l.db, b, f, t, r, n) && (InSync(a, b, t, r, n) ==> InSync(l.db, b, t, r, n))
    {
      NewRowsTrack(ctx, a, l.db, b, f, t, r, n);
    }
    if l.out.value.created {
      NewRowIsFinal(ctx, a, b, f, ty, l.out.value.row);
    }
    hide Ready, CellTracks, InSync, SameRow;
  }

  lemma LocatePlace(ctx: Context, a: Db, ty: string, v: Value)
    requires Ready(ctx, a) && ty in ctx.schema && ctx.schema[ty].primary.Some? && Locate(ctx, a, ty, v, true).out.Ok?
    ensures var place := Locate(ctx, a, ty, v, true).out.value;
            place.skipPrimary && (place.created ==> place.row == |a[ty]|)
  {
    hide Shape, SchemaOk;
    ReadySchema(ctx, a, ty);
  }

  lemma NewRowsTrack(ctx: Context, a: Db, a': Db, b: Db, f: Db, t: string, r: nat, n: string)
    requires Ready(ctx, a) && Ready(ctx, b) && Ready(ctx, f) && Tracks(a, b, f) && Grows(a, a')
    requires HasRow(a, t, r) ==> a'[t][r] == a[t][r]
    ensures CellTracks(a', b, f, t, r, n) && (InSync(a, b, t, r, n) ==> InSync(a', b, t, r, n))
  {
    hide SchemaOk;
    assert CellTracks(a, b, f, t, r, n);
    if !HasRow(a, t, r) && HasRow(b, t, r) {
      assert RowFits(ctx.schema[t], b[t][r]) && RowFits(ctx.schema[t], f[t][r]);
    }
  }

  /** A row the first run does not have yet is in the second run as it ends. */
  lemma NewRowIsFinal(ctx: Context, a: Db, b: Db, f: Db, t: string, r: nat)
    requires Ready(ctx, a) && Ready(ctx, b) && Ready(ctx, f) && Tracks(a, b, f) && !HasRow(a, t, r)
    ensures SameRow(b, f, t, r)
  {
    hide SchemaOk;
    if HasRow(b, t, r) {
      assert RowFits(ctx.schema[t], b[t][r]) && RowFits(ctx.schema[t], f[t][r]);
      forall n | n in b[t][r] ensures b[t][r][n] == f[t][r][n] {
        assert CellTracks(a, b, f, t, r, n);
      }
      assert b[t][r] == f[t][r];
    }
  }

  lemma FoundTwice(ctx: Context, a: Db, b: Db, f: Db, ty: string, v: Value)
    requires Rerun(ctx, a, b, f) && ty in ctx.schema && ctx.schema[ty].primary.Some?
    requires Locate(ctx, a, ty, v, true).out.Ok? && KeepsKeys(ctx, Locate(ctx, a, ty, v, true).db, f)
    requires Rerun(ctx, Locate(ctx, a, ty, v, true).db, b, f)
    ensures var l := Locate(ctx, a, ty, v, true);
            && Locate(ctx, b, ty, v, true) == Step(b, Ok(Place(l.out.value.row, false, true)))
            && HasRow(f, ty, l.out.value.row) && NodeKey(ctx, ty, v).Some?
                 && RowKey(ctx, ty, f[ty][l.out.value.row]) == NodeKey(ctx, ty, v)
  {
    hide Shape, SchemaOk, KeysUnique, KeylessDefaults, Tracks, KeepsKeys, KeyAt;
    var l := Locate(ctx, a, ty, v, true);
    var r := l.out.value.row;
    ReadySchema(ctx, a, ty);
    LocateKey(ctx, a, ty, v, true);
    TracksHasRow(l.db, b, f, ty, r);
    KeptKey(ctx, l.db, f, ty, r);
    SameKeys(ctx, l.db, b, f, ty, r);
    KeyIsRowKey(ctx, f, ty, r);
    FoundAt(ctx, l.db, b, f, ty, v, r);
  }

  lemma KeptKey(ctx: Context, a: Db, f: Db, ty: string, r: nat)
    requires Ready(ctx, a) && Ready(ctx, f) && KeepsKeys(ctx, a, f) && ty in ctx.schema && KeyName(ctx, ty).Some?
    requires HasRow(a, ty, r)
    ensures HasRow(f, ty, r) && KeyAt(ctx, f, ty, r) == KeyAt(ctx, a, ty, r)
  {
  }

  lemma FoundAt(ctx: Context, a: Db, b: Db, f: Db, ty: string, v: Value, r: nat)
    requires Rerun(ctx, a, b, f) && KeepsKeys(ctx, a, f) && ty in ctx.schema && PrimaryProp(ctx.schema[ty]).Some?
    requires HasRow(b, ty, r) && KeyName(ctx, ty).Some? && KeyOf(ctx, ty, PrimaryProp(ctx.schema[ty]).value, v).Ok?
    requires KeyAt(ctx, b, ty, r) == KeyOf(ctx, ty, PrimaryProp(ctx.schema[ty]).value, v).value
    ensures Locate(ctx, b, ty, v, true) == Step(b, Ok(Place(r, false, true)))
  {
    hide Shape, SchemaOk, KeysUnique, KeylessDefaults, Tracks, KeepsKeys;
    var pk := PrimaryProp(ctx.schema[ty]).value;
    var key := KeyOf(ctx, ty, pk, v).value;
    ReadySchema(ctx, b, ty);
    RowsHaveKey(ctx, b, ty);
    var q := FindKey(ctx, b, ty, pk, key);
    assert q.Some?;
    SameKeys(ctx, a, b, f, ty, q.value);
    SameKeys(ctx, a, b, f, ty, r);
    SameKeySameRow(ctx, f, ty, q.value, r);
  }

  // ---- the two runs side by side ----

  /** Creating in the first run, updating in the second: the same row, and the second run keeps track. */
  lemma {:induction false} CreateTwice(ctx: Context, a: Db, b: Db, f: Db, ty: string, v: Value, depth: nat)
    requires Rerun(ctx, a, b, f) && ty in ctx.schema && AllKeyed(ctx, ty, v) && DefaultsLast(ctx, ty, v)
    requires Create(ctx, a, ty, v, true, depth).out.Ok? && KeepsKeys(ctx, Create(ctx, a, ty, v, true, depth).db, f)
    ensures var sa, sb := Create(ctx, a, ty, v, true, depth), Create(ctx, b, ty, v, true, depth);
            sb.out == sa.out && Rerun(ctx, sa.db, sb.db, f) && StaysInSync(a, b, sa.db, sb.db, None)
    decreases depth, 4, 0
  {
    hide Ready, KeepsKeys, KeysUnique, KeylessDefaults, Locate, Populate, Tracks, StaysInSync, DefaultsLast, AllKeyed,
        SchemaOk;
    KeyedHere(ctx, ty, v);
    var l := Locate(ctx, a, ty, v, true);
    var place := l.out.value;
    var sa := Populate(ctx, l.db, ty, v, true, place, 0, depth);
    LocateKeyedDict(ctx, a, ty, v);
    PopulateKeepsKeys(ctx, l.db, ty, v, true, place, 0, depth);
    KeepsKeysTrans(ctx, l.db, sa.db, f);
    LocateTwice(ctx, a, b, f, ty, v);
    TracksHasRow(l.db, b, f, ty, place.row);
    PendingStarts(ctx, b, f, ty, v, place);
    PopulateTwice(ctx, l.db, b, f, ty, v, place, 0, depth);
    var sb := Populate(ctx, b, ty, v, true, Place(place.row, false, true), 0, depth);
    var skip := if place.created then Some((ty, place.row)) else None;
    SyncSkips(a, b, l.db, b, skip);
    SyncTrans(a, b, l.db, b, sa.db, sb.db, skip);
    if place.created {
      SyncUnskips(a, b, sa.db, sb.db, ty, place.row);
    }
  }

  lemma KeyedHere(ctx: Context, ty: string, v: Value)
    requires ty in ctx.schema && AllKeyed(ctx, ty, v)
    ensures ctx.schema[ty].primary.Some?
  {
  }

  lemma LocateKeyedDict(ctx: Context, a: Db, ty: string, v: Value)
    requires Ready(ctx, a) && ty in ctx.schema && ctx.schema[ty].primary.Some? && Locate(ctx, a, ty, v, true).out.Ok?
    ensures v.Dict? && (!ctx.inMigration ==> Locate(ctx, a, ty, v, true).out.value.skipPrimary)
  {
    hide Shape, SchemaOk;
    ReadySchema(ctx, a, ty);
  }

  /** The properties from the `i`-th on that are left to a default still are as they end, or agree with it. */
  ghost predicate Pending(ctx: Context, b: Db, f: Db, ty: string, v: Value, row: nat, i: nat)
    requires ty in ctx.schema && v.Dict?
  {
    forall j | i <= j < |ctx.schema[ty].persisted| && LeftToDefault(ctx, ty, v, j) :: PendingAt(ctx, b, f, ty, row, j)
  }

  ghost predicate PendingAt(ctx: Context, b: Db, f: Db, ty: string, row: nat, j: nat)
    requires ty in ctx.schema && j < |ctx.schema[ty].persisted|
  {
    var p := ctx.schema[ty].persisted[j];
    || CellOf(b, ty, row, p.name) == CellOf(f, ty, row, p.name)
    || (IsScalar(p) && (ty, p.name) in ctx.defaults && CellOf(b, ty, row, p.name)
       == Some(ScalarCell(ctx.defaults[(ty, p.name)])))
  }

  lemma PendingStarts(ctx: Context, b: Db, f: Db, ty: string, v: Value, place: Place)
    requires ty in ctx.schema && v.Dict? && HasRow(b, ty, place.row) && HasRow(f, ty, place.row)
    ensures SameRow(b, f, ty, place.row) ==> Pending(ctx, b, f, ty, v, place.row, 0)
  {
  }

  /** What is chosen for a property in the first run and in the second. */
  lemma ChosenTwice(ctx: Context, ty: string, v: Value, place: Place, p: Property)
    requires ty in ctx.schema && v.Dict? && Chosen(ctx, ty, v, place, p).Ok?
    ensures var again := Chosen(ctx, ty, v, Place(place.row, false, true), p);
            var c := Chosen(ctx, ty, v, place, p);
            if p.name in v.fields then c == Ok(Some((v.fields[p.name], false))) && again == c
            else again == Ok(None)
                 && (c == Ok(None) || (place.created && (ty, p.name) in ctx.defaults
                 && c == Ok(Some((ctx.defaults[(ty, p.name)], true)))))
  {
  }

  lemma {:induction false} PopulateTwice(
      ctx: Context, a: Db, b: Db, f: Db, ty: string, v: Value, place: Place, i: nat, depth: nat)
    requires Rerun(ctx, a, b, f) && ty in ctx.schema && HasRow(a, ty, place.row) && place.skipPrimary && v.Dict?
    requires HasRow(b, ty, place.row) && HasRow(f, ty, place.row) && i <= |ctx.schema[ty].persisted|
    requires AllKeyed(ctx, ty, v) && DefaultsLast(ctx, ty, v)
    requires NodeKey(ctx, ty, v).Some? && RowKey(ctx, ty, f[ty][place.row]) == NodeKey(ctx, ty, v)
    requires place.created ==> Pending(ctx, b, f, ty, v, place.row, i)
    requires Populate(ctx, a, ty, v, true, place, i, depth).out.Ok?
    requires KeepsKeys(ctx, Populate(ctx, a, ty, v, true, place, i, depth).db, f)
    ensures var sa := Populate(ctx, a, ty, v, true, place, i, depth);
            var sb := Populate(ctx, b, ty, v, true, Place(place.row, false, true), i, depth);
            && sb.out == sa.out && Rerun(ctx, sa.db, sb.db, f)
            && StaysInSync(a, b, sa.db, sb.db, if place.created then Some((ty, place.row)) else None)
    decreases depth, 3, |ctx.schema[ty].persisted| - i, 0
  {
    hide Ready, KeepsKeys, KeysUnique, KeylessDefaults, Tracks, StaysInSync, DefaultsLast, AllKeyed, SetProperty,
        Chosen, Pending, RowKey, SchemaOk;
    var skip := if place.created then Some((ty, place.row)) else None;
    SyncRefl(a, b, skip);
    var os := ctx.schema[ty];
    if i < |os.persisted| {
      var p := os.persisted[i];
      if os.IsPrimary(p) {
        PendingNext(ctx, b, f, ty, v, place.row, i);
        PopulateTwice(ctx, a, b, f, ty, v, place, i + 1, depth);
      } else {
        ChosenTwice(ctx, ty, v, place, p);
        if p.name in v.fields {
          GivenTwice(ctx, a, b, f, ty, v, place, i, depth);
        } else if Chosen(ctx, ty, v, place, p).value.None? {
          PendingNext(ctx, b, f, ty, v, place.row, i);
          PopulateTwice(ctx, a, b, f, ty, v, place, i + 1, depth);
        } else {
          DefaultOnce(ctx, a, b, f, ty, v, place, i, depth);
        }
      }
    }
  }

  lemma PendingNext(ctx: Context, b: Db, f: Db, ty: string, v: Value, row: nat, i: nat)
    requires ty in ctx.schema && v.Dict?
    ensures Pending(ctx, b, f, ty, v, row, i) ==> Pending(ctx, b, f, ty, v, row, i + 1)
  {
  }

  /** A property that is given is written in both runs. */
  lemma {:induction false} GivenTwice(
      ctx: Context, a: Db, b: Db, f: Db, ty: string, v: Value, place: Place, i: nat, depth: nat)
    requires Rerun(ctx, a, b, f) && ty in ctx.schema && HasRow(a, ty, place.row) && place.skipPrimary && v.Dict?
    requires HasRow(b, ty, place.row) && HasRow(f, ty, place.row) && i < |ctx.schema[ty].persisted|
    requires AllKeyed(ctx, ty, v) && DefaultsLast(ctx, ty, v)
    requires NodeKey(ctx, ty, v).Some? && RowKey(ctx, ty, f[ty][place.row]) == NodeKey(ctx, ty, v)
    requires place.created ==> Pending(ctx, b, f, ty, v, place.row, i)
    requires Populate(ctx, a, ty, v, true, place, i, depth).out.Ok?
    requires KeepsKeys(ctx, Populate(ctx, a, ty, v, true, place, i, depth).db, f)
    requires var p := ctx.schema[ty].persisted[i];
             && !ctx.schema[ty].IsPrimary(p) && p.name in v.fields
             && Chosen(ctx, ty, v, place, p) == Ok(Some((v.fields[p.name], false)))
             && Chosen(ctx, ty, v, Place(place.row, false, true), p) == Ok(Some((v.fields[p.name], false)))
    ensures var sa := Populate(ctx, a, ty, v, true, place, i, depth);
            var sb := Populate(ctx, b, ty, v, true, Place(place.row, false, true), i, depth);
            && sb.out == sa.out && Rerun(ctx, sa.db, sb.db, f)
            && StaysInSync(a, b, sa.db, sb.db, if place.created then Some((ty, place.row)) else None)
    decreases depth, 3, |ctx.schema[ty].persisted| - i - 1, 1
  {
    hide Ready, KeepsKeys, KeysUnique, KeylessDefaults, Tracks, StaysInSync, DefaultsLast, AllKeyed, SetProperty,
        Chosen, Pending, RowKey, SchemaOk, PropAllKeyed, PropDefaultsLast;
    var p := ctx.schema[ty].persisted[i];
    var x := v.fields[p.name];
    var skip := if place.created then Some((ty, place.row)) else None;
    var a1 := SetProperty(ctx, a, ty, place.row, p, x, true, false, depth).db;
    var b1 := SetProperty(ctx, b, ty, place.row, p, x, true, false, depth).db;
    var sa := Populate(ctx, a1, ty, v, true, place, i + 1, depth);
    var sb := Populate(ctx, b1, ty, v, true, Place(place.row, false, true), i + 1, depth);
    PopulateKeepsKeys(ctx, a1, ty, v, true, place, i + 1, depth);
    KeepsKeysTrans(ctx, a1, sa.db, f);
    SetKeepsKeys(ctx, a, ty, place.row, p, x, true, false, depth);
    KeepsKeysTrans(ctx, a, a1, f);
    PartsOf(ctx, ty, v, i);
    SetTwice(ctx, a, b, f, ty, place.row, p, x, depth);
    if place.created {
      PendingGiven(ctx, a, b, f, ty, v, place.row, i, depth);
    }
    PopulateTwice(ctx, a1, b1, f, ty, v, place, i + 1, depth);
    SyncSkips(a, b, a1, b1, skip);
    SyncTrans(a, b, a1, b1, sa.db, sb.db, skip);
  }

  lemma PartsOf(ctx: Context, ty: string, v: Value, i: nat)
    requires ty in ctx.schema && v.Dict? && i < |ctx.schema[ty].persisted|
    requires ctx.schema[ty].persisted[i].name in v.fields
    requires AllKeyed(ctx, ty, v) && DefaultsLast(ctx, ty, v)
    ensures var p := ctx.schema[ty].persisted[i];
            PropAllKeyed(ctx, p, v.fields[p.name]) && PropDefaultsLast(ctx, p, v.fields[p.name])
    ensures forall j | i < j < |ctx.schema[ty].persisted| :: SettledBefore(ctx, ty, v, i, j)
  {
    assert ctx.schema[ty].persisted[i] in ctx.schema[ty].persisted;
    hide PropAllKeyed, PropDefaultsLast, SettledBefore;
  }

  /** A property that is left to its default is written in the first run only. */
  lemma {:induction false} DefaultOnce(
      ctx: Context, a: Db, b: Db, f: Db, ty: string, v: Value, place: Place, i: nat, depth: nat)
    requires Rerun(ctx, a, b, f) && ty in ctx.schema && HasRow(a, ty, place.row) && place.skipPrimary && v.Dict?
    requires HasRow(b, ty, place.row) && HasRow(f, ty, place.row) && i < |ctx.schema[ty].persisted|
    requires AllKeyed(ctx, ty, v) && DefaultsLast(ctx, ty, v)
    requires NodeKey(ctx, ty, v).Some? && RowKey(ctx, ty, f[ty][place.row]) == NodeKey(ctx, ty, v)
    requires place.created && Pending(ctx, b, f, ty, v, place.row, i)
    requires Populate(ctx, a, ty, v, true, place, i, depth).out.Ok?
    requires KeepsKeys(ctx, Populate(ctx, a, ty, v, true, place, i, depth).db, f)
    requires var p := ctx.schema[ty].persisted[i];
             && !ctx.schema[ty].IsPrimary(p) && p.name !in v.fields && (ty, p.name) in ctx.defaults
             && Chosen(ctx, ty, v, place, p) == Ok(Some((ctx.defaults[(ty, p.name)], true)))
             && Chosen(ctx, ty, v, Place(place.row, false, true), p) == Ok(None)
    ensures var sa := Populate(ctx, a, ty, v, true, place, i, depth);
            var sb := Populate(ctx, b, ty, v, true, Place(place.row, false, true), i, depth);
            && sb.out == sa.out && Rerun(ctx, sa.db, sb.db, f)
            && StaysInSync(a, b, sa.db, sb.db, Some((ty, place.row)))
    decreases depth, 3, |ctx.schema[ty].persisted| - i - 1, 1
  {
    hide Ready, KeepsKeys, KeysUnique, KeylessDefaults, Tracks, StaysInSync, DefaultsLast, AllKeyed, SetProperty,
        Chosen, Pending, RowKey, SchemaOk;
    var p := ctx.schema[ty].persisted[i];
    var x := ctx.defaults[(ty, p.name)];
    var skip := Some((ty, place.row));
    var a1 := SetProperty(ctx, a, ty, place.row, p, x, true, true, depth).db;
    var sa := Populate(ctx, a1, ty, v, true, place, i + 1, depth);
    var sb := Populate(ctx, b, ty, v, true, Place(place.row, false, true), i + 1, depth);
    PopulateKeepsKeys(ctx, a1, ty, v, true, place, i + 1, depth);
    KeepsKeysTrans(ctx, a1, sa.db, f);
    KeepsGrows(ctx, a1, f);
    PendingNext(ctx, b, f, ty, v, place.row, i);
    DefaultTracks(ctx, a, b, f, ty, v, place.row, i, depth);
    PopulateTwice(ctx, a1, b, f, ty, v, place, i + 1, depth);
    SyncTrans(a, b, a1, b, sa.db, sb.db, skip);
  }

  lemma KeepsGrows(ctx: Context, a: Db, b: Db)
    requires Ready(ctx, a) && Ready(ctx, b) && KeepsKeys(ctx, a, b)
    ensures Grows(a, b)
  {
  }

  lemma DefaultTracks(ctx: Context, a: Db, b: Db, f: Db, ty: string, v: Value, row: nat, i: nat, depth: nat)
    requires Rerun(ctx, a, b, f) && ty in ctx.schema && HasRow(a, ty, row) && v.Dict? && i < |ctx.schema[ty].persisted|
    requires var p := ctx.schema[ty].persisted[i];
             && !ctx.schema[ty].IsPrimary(p) && p.name !in v.fields && (ty, p.name) in ctx.defaults
    requires Pending(ctx, b, f, ty, v, row, i)
    requires var p := ctx.schema[ty].persisted[i];
             var s := SetProperty(ctx, a, ty, row, p, ctx.defaults[(ty, p.name)], true, true, depth);
             s.out.Ok? && Grows(s.db, f)
    ensures var p := ctx.schema[ty].persisted[i];
            var a1 := SetProperty(ctx, a, ty, row, p, ctx.defaults[(ty, p.name)], true, true, depth).db;
            Rerun(ctx, a1, b, f) && StaysInSync(a, b, a1, b, Some((ty, row)))
  {
    hide KeysUnique, Tracks, StaysInSync, SetProperty, SchemaOk, Shape, OnlyCell;
    var p := ctx.schema[ty].persisted[i];
    var x := ctx.defaults[(ty, p.name)];
    var a1 := SetProperty(ctx, a, ty, row, p, x, true, true, depth).db;
    if SkipsNull(p, x, true) {
      NullIsSkipped(ctx, a, ty, row, p, x, depth);
      SyncRefl(a, b, Some((ty, row)));
    } else {
      KeylessSpare(ctx);
      forall t: string, r: nat | HasRow(a, t, r) ensures OnlyCell(a, a1, ty, row, p, t, r) {
        assert DefaultsSpare(ctx, t, a[t][r]);
        assert PropSpares(ctx, p, x, t, a[t][r]);
        SetSpares(ctx, a, ty, row, p, x, true, true, depth, t, r);
      }
      assert LeftToDefault(ctx, ty, v, i) && PendingAt(ctx, b, f, ty, row, i);
      if IsScalar(p) {
        ScalarIsStored(ctx, a, ty, row, p, x, true, depth);
      }
      FirstOnly(ctx, a, a1, b, f, ty, row, p);
    }
  }

  lemma NullIsSkipped(ctx: Context, a: Db, ty: string, row: nat, p: Property, x: Value, depth: nat)
    requires Ready(ctx, a) && Column(ctx, a, ty, row, p) && SkipsNull(p, x, true)
    ensures SetProperty(ctx, a, ty, row, p, x, true, true, depth) == Step(a, Ok(()))
  {
    hide Ready, SchemaOk, Unbox, Assign, PutCell;
    ColumnPersisted(ctx, a, ty, row, p);
  }

  /** A scalar property stores the one cell of its value. */
  lemma ScalarIsStored(ctx: Context, a: Db, ty: string, row: nat, p: Property, x: Value, isDefault: bool, depth: nat)
    requires Ready(ctx, a) && Column(ctx, a, ty, row, p) && IsScalar(p)
    requires SetProperty(ctx, a, ty, row, p, x, true, isDefault, depth).out.Ok?
    ensures var s := SetProperty(ctx, a, ty, row, p, x, true, isDefault, depth);
            CellOf(s.db, ty, row, p.name) == Some(ScalarCell(x)) && (x.Prim? || x.Empty?)
  {
    hide Ready, SchemaOk, Unbox, Assign;
  }

  /** After a given property has been written in the second run, the ones left to defaults are still pending. */
  lemma PendingGiven(ctx: Context, a: Db, b: Db, f: Db, ty: string, v: Value, row: nat, i: nat, depth: nat)
    requires Rerun(ctx, a, b, f) && KeepsKeys(ctx, a, f) && ty in ctx.schema && HasRow(b, ty, row) && v.Dict?
    requires i < |ctx.schema[ty].persisted| && Pending(ctx, b, f, ty, v, row, i)
    requires HasRow(f, ty, row) && NodeKey(ctx, ty, v).Some? && RowKey(ctx, ty, f[ty][row]) == NodeKey(ctx, ty, v)
    requires var p := ctx.schema[ty].persisted[i]; !ctx.schema[ty].IsPrimary(p) && p.name in v.fields
    requires forall j | i < j < |ctx.schema[ty].persisted| :: SettledBefore(ctx, ty, v, i, j)
    requires var p := ctx.schema[ty].persisted[i];
             SetProperty(ctx, b, ty, row, p, v.fields[p.name], true, false, depth).out.Ok?
    ensures var p := ctx.schema[ty].persisted[i];
            Pending(ctx, SetProperty(ctx, b, ty, row, p, v.fields[p.name], true, false, depth).db, f, ty, v, row, i + 1)
  {
    hide Ready, KeysUnique, KeylessDefaults, Tracks, SetProperty, KeepsKeys, SettledBefore, RowKey, SchemaOk, PendingAt;
    var p := ctx.schema[ty].persisted[i];
    var b1 := SetProperty(ctx, b, ty, row, p, v.fields[p.name], true, false, depth).db;
    SecondRow(ctx, a, b, f, ty, row);
    forall j | i + 1 <= j < |ctx.schema[ty].persisted| && LeftToDefault(ctx, ty, v, j)
        ensures PendingAt(ctx, b1, f, ty, row, j) {
      assert PendingAt(ctx, b, f, ty, row, j);
      PendingGivenAt(ctx, b, f, ty, v, row, i, j, depth);
    }
  }

  lemma SecondRow(ctx: Context, a: Db, b: Db, f: Db, ty: string, row: nat)
    requires Rerun(ctx, a, b, f) && KeepsKeys(ctx, a, f) && ty in ctx.schema && HasRow(b, ty, row)
    requires HasRow(f, ty, row) && RowKey(ctx, ty, f[ty][row]).Some?
    ensures RowKey(ctx, ty, b[ty][row]) == RowKey(ctx, ty, f[ty][row]) && KeysUnique(ctx, b)
  {
    hide SchemaOk, Shape, KeylessDefaults, KeysUnique, KeepsKeys, KeyAt, Tracks;
    SameKeys(ctx, a, b, f, ty, row);
    KeyIsRowKey(ctx, b, ty, row);
    KeyIsRowKey(ctx, f, ty, row);
    SecondUnique(ctx, a, b, f);
  }

  lemma SecondUnique(ctx: Context, a: Db, b: Db, f: Db)
    requires Rerun(ctx, a, b, f) && KeepsKeys(ctx, a, f)
    ensures KeysUnique(ctx, b)
  {
    hide SchemaOk, RowFits, KeylessDefaults, KeepsKeys, KeyAt, CellTracks;
    forall t, i, j | t in ctx.schema && KeyName(ctx, t).Some? && 0 <= i < j < |b[t]|
      ensures KeyAt(ctx, b, t, i) != KeyAt(ctx, b, t, j)
    {
      SameKeys(ctx, a, b, f, t, i);
      SameKeys(ctx, a, b, f, t, j);
    }
  }

  lemma PendingGivenAt(ctx: Context, b: Db, f: Db, ty: string, v: Value, row: nat, i: nat, j: nat, depth: nat)
    requires Ready(ctx, b) && KeysUnique(ctx, b) && ctx.inWrite && !ctx.inMigration && KeylessDefaults(ctx)
    requires ty in ctx.schema && HasRow(b, ty, row) && v.Dict? && i < j < |ctx.schema[ty].persisted|
    requires NodeKey(ctx, ty, v).Some? && RowKey(ctx, ty, b[ty][row]) == NodeKey(ctx, ty, v)
    requires var p := ctx.schema[ty].persisted[i]; !ctx.schema[ty].IsPrimary(p) && p.name in v.fields
    requires LeftToDefault(ctx, ty, v, j) && PendingAt(ctx, b, f, ty, row, j) && SettledBefore(ctx, ty, v, i, j)
    requires var p := ctx.schema[ty].persisted[i];
             SetProperty(ctx, b, ty, row, p, v.fields[p.name], true, false, depth).out.Ok?
    ensures var p := ctx.schema[ty].persisted[i];
            PendingAt(ctx, SetProperty(ctx, b, ty, row, p, v.fields[p.name], true, false, depth).db, f, ty, row, j)
  {
    hide Ready, KeysUnique, KeylessDefaults, SetProperty, SchemaOk, PropAddresses, NoRepeat;
    var p := ctx.schema[ty].persisted[i];
    if Elsewhere(ctx, ty, v, i) {
      ElsewhereKeeps(ctx, b, ty, v, row, i, ctx.schema[ty].persisted[j].name, depth);
    } else {
      SelfWrites(ctx, b, ty, v, row, i, j, depth);
    }
    Different(ctx, b, ty, i, j);
  }

  lemma Different(ctx: Context, b: Db, ty: string, i: nat, j: nat)
    requires Ready(ctx, b) && ty in ctx.schema && i < j < |ctx.schema[ty].persisted|
    ensures ctx.schema[ty].persisted[i].name != ctx.schema[ty].persisted[j].name
  {
    ReadySchema(ctx, b, ty);
    hide Ready;
  }

  /** A property that does not name the object again changes no other cell of it. */
  lemma ElsewhereKeeps(ctx: Context, b: Db, ty: string, v: Value, row: nat, i: nat, name: string, depth: nat)
    requires Ready(ctx, b) && KeylessDefaults(ctx) && ty in ctx.schema && HasRow(b, ty, row) && v.Dict?
    requires i < |ctx.schema[ty].persisted|
    requires NodeKey(ctx, ty, v).Some? && RowKey(ctx, ty, b[ty][row]) == NodeKey(ctx, ty, v)
    requires ctx.schema[ty].persisted[i].name in v.fields && Elsewhere(ctx, ty, v, i)
    requires name != ctx.schema[ty].persisted[i].name
    ensures var p := ctx.schema[ty].persisted[i];
            var b1 := SetProperty(ctx, b, ty, row, p, v.fields[p.name], true, false, depth).db;
            CellOf(b1, ty, row, name) == CellOf(b, ty, row, name)
            && HasRow(b1, ty, row) && (!ctx.schema[ty].IsPrimary(p) ==>
                 RowKey(ctx, ty, b1[ty][row]) == RowKey(ctx, ty, b[ty][row]))
  {
    hide Ready, SetProperty, SchemaOk, PropAddresses;
    KeylessSpare(ctx);
    var p := ctx.schema[ty].persisted[i];
    SetSpares(ctx, b, ty, row, p, v.fields[p.name], true, false, depth, ty, row);
  }

  /** The object named once more: what it gives a scalar property is stored, what it does not give is kept. */
  lemma SelfWrites(ctx: Context, b: Db, ty: string, v: Value, row: nat, i: nat, j: nat, depth: nat)
    requires Ready(ctx, b) && KeysUnique(ctx, b) && ctx.inWrite && !ctx.inMigration && KeylessDefaults(ctx)
    requires ty in ctx.schema && HasRow(b, ty, row) && v.Dict? && i < j < |ctx.schema[ty].persisted|
    requires NodeKey(ctx, ty, v).Some? && RowKey(ctx, ty, b[ty][row]) == NodeKey(ctx, ty, v)
    requires ctx.schema[ty].persisted[i].name in v.fields && NamesItself(ctx, ty, v, i)
    requires !ctx.schema[ty].IsPrimary(ctx.schema[ty].persisted[j])
    requires var p := ctx.schema[ty].persisted[i];
             SetProperty(ctx, b, ty, row, p, v.fields[p.name], true, false, depth).out.Ok?
    ensures var p, q := ctx.schema[ty].persisted[i], ctx.schema[ty].persisted[j];
            var w := v.fields[p.name];
            var b1 := SetProperty(ctx, b, ty, row, p, w, true, false, depth).db;
            && HasRow(b1, ty, row) && RowKey(ctx, ty, b1[ty][row]) == RowKey(ctx, ty, b[ty][row])
            && (q.name in w.fields && IsScalar(q) ==>
                  CellOf(b1, ty, row, q.name) == Some(ScalarCell(w.fields[q.name]))
                    && (w.fields[q.name].Prim? || w.fields[q.name].Empty?))
            && (q.name !in w.fields ==> CellOf(b1, ty, row, q.name) == CellOf(b, ty, row, q.name))
  {
    hide Ready, KeysUnique, KeylessDefaults, SetProperty, Create, SchemaOk, NoRepeat, Holds, Rest, PutCell, Spares,
        CellHolds, KeepsKeys, RowKey;
    var p, q := ctx.schema[ty].persisted[i], ctx.schema[ty].persisted[j];
    var w := v.fields[p.name];
    ColumnPersisted(ctx, b, ty, row, p);
    LinkSet(ctx, b, ty, row, p, w, true, false, depth);
    assert Unbox(ctx, b, ty, w, true, depth).db == Create(ctx, b, ty, w, true, depth - 1).db;
    var s := Create(ctx, b, ty, w, true, depth - 1);
    RootUpserted(ctx, b, ty, w, true, depth - 1);
    CreateKeepsKeys(ctx, b, ty, w, true, depth - 1);
    SameRowAgain(ctx, b, s.db, ty, row, s.out.value, w, depth - 1);
    assert q in ctx.schema[ty].persisted;
    SelfCell(ctx, b, s.db, ty, row, q, w, depth - 1);
    Different(ctx, b, ty, i, j);
    PutOther(ctx, s.db, ty, row, p, Link(s.out.value), q.name);
  }

  lemma SameRowAgain(ctx: Context, b: Db, b1: Db, ty: string, row: nat, r: nat, w: Value, n: nat)
    requires Ready(ctx, b) && Ready(ctx, b1) && KeepsKeys(ctx, b, b1) && KeysUnique(ctx, b) && ty in ctx.schema
    requires HasRow(b, ty, row)
    requires Holds(ctx, b, b1, ty, r, w, n) && NodeKey(ctx, ty, w).Some?
    requires RowKey(ctx, ty, b[ty][row]) == NodeKey(ctx, ty, w)
    ensures HasRow(b1, ty, row) && r == row && RowKey(ctx, ty, b1[ty][row]) == RowKey(ctx, ty, b[ty][row])
  {
    hide SchemaOk, Shape, KeysUnique, KeyAt, CellHolds;
    KeyIsRowKey(ctx, b, ty, row);
    KeyIsRowKey(ctx, b1, ty, row);
    KeyIsRowKey(ctx, b1, ty, r);
    SameKeySameRow(ctx, b1, ty, row, r);
  }

  lemma SelfCell(ctx: Context, b: Db, b1: Db, ty: string, row: nat, q: Property, w: Value, n: nat)
    requires HasRow(b, ty, row) && HasRow(b1, ty, row) && ty in ctx.schema && q in ctx.schema[ty].persisted && w.Dict?
    requires !ctx.schema[ty].IsPrimary(q) && Holds(ctx, b, b1, ty, row, w, n)
    requires q.name !in w.fields ==> Rest(ctx, b, b1, ty, row, q, n)
    ensures q.name in w.fields && IsScalar(q) ==>
              CellOf(b1, ty, row, q.name) == Some(ScalarCell(w.fields[q.name]))
                && (w.fields[q.name].Prim? || w.fields[q.name].Empty?)
    ensures q.name !in w.fields ==> CellOf(b1, ty, row, q.name) == CellOf(b, ty, row, q.name)
  {
    if q.name in w.fields {
      assert CellHolds(ctx, b, b1, ty, row, q, w.fields[q.name], n);
    }
  }

  lemma PutOther(ctx: Context, db: Db, ty: string, row: nat, p: Property, c: Cell, name: string)
    requires Ready(ctx, db) && Column(ctx, db, ty, row, p) && CellFits(p, c) && name != p.name
    ensures var db' := PutCell(ctx, db, ty, row, p, c);
            && CellOf(db', ty, row, name) == CellOf(db, ty, row, name) && HasRow(db', ty, row)
            && (!ctx.schema[ty].IsPrimary(p) ==> RowKey(ctx, ty, db'[ty][row]) == RowKey(ctx, ty, db[ty][row]))
  {
    hide Ready;
  }

  // ---- one property in both runs ----

  lemma {:induction false} SetTwice(
      ctx: Context, a: Db, b: Db, f: Db, ty: string, row: nat, p: Property, x: Value, depth: nat)
    requires Rerun(ctx, a, b, f) && Column(ctx, a, ty, row, p) && !ctx.schema[ty].IsPrimary(p)
    requires PropAllKeyed(ctx, p, x) && PropDefaultsLast(ctx, p, x)
    requires SetProperty(ctx, a, ty, row, p, x, true, false, depth).out.Ok?
    requires KeepsKeys(ctx, SetProperty(ctx, a, ty, row, p, x, true, false, depth).db, f)
    ensures Column(ctx, b, ty, row, p)
    ensures var sa, sb := SetProperty(ctx, a, ty, row, p, x, true, false, depth),
                SetProperty(ctx, b, ty, row, p, x, true, false, depth);
            sb.out == sa.out && Rerun(ctx, sa.db, sb.db, f) && StaysInSync(a, b, sa.db, sb.db, None)
    decreases depth, 2, 0
  {
    hide Ready, KeepsKeys, KeysUnique, KeylessDefaults, Tracks, StaysInSync, Assign, Unbox, PutCell, SchemaOk,
        PropAllKeyed, PropDefaultsLast, UnboxScalar;
    TracksHasRow(a, b, f, ty, row);
    ColumnPersisted(ctx, a, ty, row, p);
    FitsHere(p);
    if p.kind.isNullable && x.Empty? {
      PutTracks(ctx, a, b, f, ty, row, p, Nil);
    } else if p.kind.isArray {
      AssignTwice(ctx, a, b, f, ty, row, p, x, depth);
    } else if p.kind.base == Object {
      LinkTwice(ctx, a, b, f, ty, row, p, x, depth);
    } else {
      PutTracks(ctx, a, b, f, ty, row, p, UnboxScalar(p.kind.base, x).value);
    }
  }

  lemma {:induction false} LinkTwice(
      ctx: Context, a: Db, b: Db, f: Db, ty: string, row: nat, p: Property, x: Value, depth: nat)
    requires Rerun(ctx, a, b, f) && Column(ctx, a, ty, row, p) && Column(ctx, b, ty, row, p)
    requires !ctx.schema[ty].IsPrimary(p)
    requires p.kind.base == Object && !p.kind.isArray && !x.Empty? && PersistedOk(ctx.schema, p)
    requires PropAllKeyed(ctx, p, x) && PropDefaultsLast(ctx, p, x)
    requires SetProperty(ctx, a, ty, row, p, x, true, false, depth).out.Ok?
    requires KeepsKeys(ctx, SetProperty(ctx, a, ty, row, p, x, true, false, depth).db, f)
    ensures var sa, sb := SetProperty(ctx, a, ty, row, p, x, true, false, depth),
                SetProperty(ctx, b, ty, row, p, x, true, false, depth);
            sb.out == sa.out && Rerun(ctx, sa.db, sb.db, f) && StaysInSync(a, b, sa.db, sb.db, None)
    decreases depth, 1, 0
  {
    hide Ready, KeepsKeys, KeysUnique, KeylessDefaults, Tracks, StaysInSync, Unbox, PutCell, SchemaOk, DefaultsLast,
        AllKeyed;
    LinkSet(ctx, a, ty, row, p, x, true, false, depth);
    var ua, ub := Unbox(ctx, a, p.target, x, true, depth), Unbox(ctx, b, p.target, x, true, depth);
    PutKeepsKeys(ctx, ua.db, ty, row, p, Link(ua.out.value.row));
    KeepsKeysTrans(ctx, ua.db, PutCell(ctx, ua.db, ty, row, p, Link(ua.out.value.row)), f);
    UnboxTwice(ctx, a, b, f, p.target, x, depth);
    TracksHasRow(ua.db, ub.db, f, p.target, ua.out.value.row);
    PutTracks(ctx, ua.db, ub.db, f, ty, row, p, Link(ua.out.value.row));
    SyncTrans(a, b, ua.db, ub.db, PutCell(ctx, ua.db, ty, row, p, Link(ua.out.value.row)),
      PutCell(ctx, ub.db, ty, row, p, Link(ua.out.value.row)), None);
  }

  lemma {:induction false} UnboxTwice(ctx: Context, a: Db, b: Db, f: Db, ty: string, x: Value, depth: nat)
    requires Rerun(ctx, a, b, f) && ty in ctx.schema && AllKeyed(ctx, ty, x) && DefaultsLast(ctx, ty, x)
    requires Unbox(ctx, a, ty, x, true, depth).out.Ok? && KeepsKeys(ctx, Unbox(ctx, a, ty, x, true, depth).db, f)
    ensures var sa, sb := Unbox(ctx, a, ty, x, true, depth), Unbox(ctx, b, ty, x, true, depth);
            sb.out == sa.out && Rerun(ctx, sa.db, sb.db, f) && StaysInSync(a, b, sa.db, sb.db, None)
    decreases depth, 0, 0
  {
    hide Ready, KeepsKeys, KeysUnique, KeylessDefaults, Tracks, StaysInSync, Create, SchemaOk, DefaultsLast, AllKeyed;
    SyncRefl(a, b, None);
    if !x.RowOf? {
      CreateTwice(ctx, a, b, f, ty, x, depth - 1);
    }
  }

  lemma {:induction false} AssignTwice(
      ctx: Context, a: Db, b: Db, f: Db, ty: string, row: nat, p: Property, x: Value, depth: nat)
    requires Rerun(ctx, a, b, f) && Column(ctx, a, ty, row, p) && Column(ctx, b, ty, row, p) && p.kind.isArray
    requires !ctx.schema[ty].IsPrimary(p)
    requires PropAllKeyed(ctx, p, x) && PropDefaultsLast(ctx, p, x)
    requires Assign(ctx, a, ty, row, p, x, true, depth).out.Ok?
    requires KeepsKeys(ctx, Assign(ctx, a, ty, row, p, x, true, depth).db, f)
    ensures var sa, sb := Assign(ctx, a, ty, row, p, x, true, depth), Assign(ctx, b, ty, row, p, x, true, depth);
            sb.out == sa.out && Rerun(ctx, sa.db, sb.db, f) && StaysInSync(a, b, sa.db, sb.db, None)
    decreases depth, 1, if x.Vec? then |x.elems| + 1 else 0
  {
    hide Ready, KeepsKeys, KeysUnique, KeylessDefaults, Tracks, StaysInSync, AppendAll, PutCell, SchemaOk, AllKeyed,
        DefaultsLast;
    SyncRefl(a, b, None);
    if x != ListOf(ty, row, p.name) {
      var a1, b1 := PutCell(ctx, a, ty, row, p, Items([])), PutCell(ctx, b, ty, row, p, Items([]));
      PutTracks(ctx, a, b, f, ty, row, p, Items([]));
      if x.Vec? {
        var sa, sb := AppendAll(ctx, a1, ty, row, p, x.elems, true, depth),
            AppendAll(ctx, b1, ty, row, p, x.elems, true, depth);
        AppendAllTwice(ctx, a1, b1, f, ty, row, p, x.elems, depth);
        SyncTrans(a, b, a1, b1, sa.db, sb.db, None);
      }
    }
  }

  lemma {:induction false} AppendAllTwice(
      ctx: Context, a: Db, b: Db, f: Db, ty: string, row: nat, p: Property, vs: seq<Value>, depth: nat)
    requires Rerun(ctx, a, b, f) && Column(ctx, a, ty, row, p) && Column(ctx, b, ty, row, p) && p.kind.isArray
    requires !ctx.schema[ty].IsPrimary(p)
    requires p.kind.base == Object ==>
               forall i | 0 <= i < |vs| :: AllKeyed(ctx, p.target, vs[i]) && DefaultsLast(ctx, p.target, vs[i])
    requires InSync(a, b, ty, row, p.name)
    requires AppendAll(ctx, a, ty, row, p, vs, true, depth).out.Ok?
    requires KeepsKeys(ctx, AppendAll(ctx, a, ty, row, p, vs, true, depth).db, f)
    ensures var sa, sb := AppendAll(ctx, a, ty, row, p, vs, true, depth),
                AppendAll(ctx, b, ty, row, p, vs, true, depth);
            sb.out == sa.out && Rerun(ctx, sa.db, sb.db, f) && StaysInSync(a, b, sa.db, sb.db, None)
    decreases depth, 1, |vs|
  {
    hide Ready, KeepsKeys, KeysUnique, KeylessDefaults, Tracks, StaysInSync, AppendOne, SchemaOk, AllKeyed,
        DefaultsLast, InSync;
    SyncRefl(a, b, None);
    if vs != [] {
      var a1, b1 := AppendOne(ctx, a, ty, row, p, vs[0], true, depth).db,
          AppendOne(ctx, b, ty, row, p, vs[0], true, depth).db;
      var sa, sb := AppendAll(ctx, a1, ty, row, p, vs[1..], true, depth),
          AppendAll(ctx, b1, ty, row, p, vs[1..], true, depth);
      AppendAllKeepsKeys(ctx, a1, ty, row, p, vs[1..], true, depth);
      KeepsKeysTrans(ctx, a1, sa.db, f);
      AppendOneTwice(ctx, a, b, f, ty, row, p, vs[0], depth);
      AppendAllTwice(ctx, a1, b1, f, ty, row, p, vs[1..], depth);
      SyncTrans(a, b, a1, b1, sa.db, sb.db, None);
    }
  }

  lemma {:induction false} AppendOneTwice(
      ctx: Context, a: Db, b: Db, f: Db, ty: string, row: nat, p: Property, v: Value, depth: nat)
    requires Rerun(ctx, a, b, f) && Column(ctx, a, ty, row, p) && Column(ctx, b, ty, row, p) && p.kind.isArray
    requires !ctx.schema[ty].IsPrimary(p)
    requires p.kind.base == Object ==> AllKeyed(ctx, p.target, v) && DefaultsLast(ctx, p.target, v)
    requires InSync(a, b, ty, row, p.name)
    requires AppendOne(ctx, a, ty, row, p, v, true, depth).out.Ok?
    requires KeepsKeys(ctx, AppendOne(ctx, a, ty, row, p, v, true, depth).db, f)
    ensures var sa, sb := AppendOne(ctx, a, ty, row, p, v, true, depth), AppendOne(ctx, b, ty, row, p, v, true, depth);
            && sb.out == sa.out && Rerun(ctx, sa.db, sb.db, f) && StaysInSync(a, b, sa.db, sb.db, None)
            && InSync(sa.db, sb.db, ty, row, p.name)
    decreases depth, 1, 0
  {
    hide Ready, KeepsKeys, KeysUnique, KeylessDefaults, Tracks, Unbox, PushItem, SchemaOk, AllKeyed, DefaultsLast,
        InSync, UnboxItem;
    TargetKnown(ctx, a, ty, row, p);
    if p.kind.base == Object {
      AppendOneIs(ctx, a, ty, row, p, v, true, depth);
      var ua, ub := Unbox(ctx, a, p.target, v, true, depth), Unbox(ctx, b, p.target, v, true, depth);
      PushKeepsKeys(ctx, ua.db, ty, row, p, Link(ua.out.value.row));
      KeepsKeysTrans(ctx, ua.db, PushItem(ctx, ua.db, ty, row, p, Link(ua.out.value.row)), f);
      UnboxTwice(ctx, a, b, f, p.target, v, depth);
      TracksHasRow(ua.db, ub.db, f, p.target, ua.out.value.row);
      PushTracks(ctx, ua.db, ub.db, f, ty, row, p, Link(ua.out.value.row));
      SyncTrans(a, b, ua.db, ub.db, PushItem(ctx, ua.db, ty, row, p, Link(ua.out.value.row)),
        PushItem(ctx, ub.db, ty, row, p, Link(ua.out.value.row)), None);
    } else {
      AppendScalarIs(ctx, a, ty, row, p, v, true, depth);
      PushTracks(ctx, a, b, f, ty, row, p, UnboxItem(p, v).value);
    }
  }
}
