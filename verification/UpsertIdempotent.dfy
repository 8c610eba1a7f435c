/** Creating or updating from the same value twice is the same as doing it once. */
module UpsertIdempotent {
  import opened Wrappers
  import opened Schemas
  import opened Tables
  import opened Upsert
  import opened UpsertKeys
  import opened UpsertFrame
  import opened UpsertHolds
  import opened UpsertRefines
  import opened UpsertSettled
  import opened UpsertDepth
  import opened UpsertRerun

  /** The object that holds `v` is found again by its key. */
  lemma LocateAgain(ctx: Context, base: Db, db: Db, ty: string, r: nat, v: Value, n: nat)
    requires Ready(ctx, db) && KeysUnique(ctx, db) && ty in ctx.schema && ctx.schema[ty].primary.Some?
    requires Holds(ctx, base, db, ty, r, v, n)
    ensures Locate(ctx, db, ty, v, true) == Step(db, Ok(Place(r, false, true)))
  {
    assert ObjectSchemaOk(ctx.schema, ctx.schema[ty]);
    var pk := PrimaryProp(ctx.schema[ty]).value;
    var key := KeyOf(ctx, ty, pk, v).value;
    RowsHaveKey(ctx, db, ty);
    hide SchemaOk, Shape, CellHolds;
    assert KeyAt(ctx, db, ty, r) == key;
    var q := FindKey(ctx, db, ty, pk, key);
    assert q.Some?;
    assert KeyAt(ctx, db, ty, q.value) == key;
    SameKeySameRow(ctx, db, ty, q.value, r);
  }

  /** What is already held is not changed by writing it again. */
  lemma {:induction false} CreateNoOp(ctx: Context, base: Db, db: Db, ty: string, r: nat, v: Value, depth: nat)
    requires Ready(ctx, db) && ctx.inWrite && KeysUnique(ctx, db) && ty in ctx.schema
    requires AllKeyed(ctx, ty, v) && NoRepeat(ctx, ty, v) && Holds(ctx, base, db, ty, r, v, depth)
    ensures Create(ctx, db, ty, v, true, depth) == Step(db, Ok(r))
    decreases depth, 5, 0
  {
    hide Ready, KeysUnique, Locate, Populate, NoRepeat;
    LocateAgain(ctx, base, db, ty, r, v, depth);
    NoRepeatSparesRoot(ctx, ty, v, db[ty][r]);
    DictOnly(ctx, base, db, ty, r, v, depth);
    PopulateNoOp(ctx, base, db, ty, v, r, 0, depth);
  }

  lemma DictOnly(ctx: Context, base: Db, db: Db, ty: string, r: nat, v: Value, n: nat)
    requires Ready(ctx, db) && ty in ctx.schema && ctx.schema[ty].primary.Some? && Holds(ctx, base, db, ty, r, v, n)
    ensures v.Dict?
  {
    assert ObjectSchemaOk(ctx.schema, ctx.schema[ty]);
  }

  lemma {:induction false} PopulateNoOp(
      ctx: Context, base: Db, db: Db, ty: string, v: Value, r: nat, i: nat, depth: nat)
    requires Ready(ctx, db) && ctx.inWrite && KeysUnique(ctx, db) && ty in ctx.schema && v.Dict?
    requires i <= |ctx.schema[ty].persisted|
    requires AllKeyed(ctx, ty, v) && NoRepeat(ctx, ty, v) && Holds(ctx, base, db, ty, r, v, depth)
    requires FieldsSpare(ctx, ty, v, 0, ty, db[ty][r])
    ensures Populate(ctx, db, ty, v, true, Place(r, false, true), i, depth) == Step(db, Ok(r))
    decreases depth, 3, |ctx.schema[ty].persisted| - i
  {
    hide Ready, KeysUnique, SetProperty, Chosen, NoRepeat, Holds, FieldsSpare, AllKeyed;
    var os := ctx.schema[ty];
    if i < |os.persisted| {
      var p := os.persisted[i];
      PopulateNoOp(ctx, base, db, ty, v, r, i + 1, depth);
      if !os.IsPrimary(p) {
        ChosenAgain(ctx, base, db, ty, v, r, i, depth);
        if p.name in v.fields {
          Part(ctx, base, db, ty, v, r, i, depth);
          SetNoOp(ctx, base, db, ty, r, p, v.fields[p.name], depth);
        }
      }
    }
  }

  /** On the second run exactly the given properties are written. */
  lemma ChosenAgain(ctx: Context, base: Db, db: Db, ty: string, v: Value, r: nat, i: nat, n: nat)
    requires Ready(ctx, db) && ty in ctx.schema && v.Dict? && i < |ctx.schema[ty].persisted|
    requires Holds(ctx, base, db, ty, r, v, n)
    requires !ctx.schema[ty].IsPrimary(ctx.schema[ty].persisted[i])
    ensures var p := ctx.schema[ty].persisted[i];
            Chosen(ctx, ty, v, Place(r, false, true), p) == if p.name in v.fields
              then Ok(Some((v.fields[p.name], false))) else Ok(None)
  {
    var p := ctx.schema[ty].persisted[i];
    if p.name in v.fields {
      assert CellHolds(ctx, base, db, ty, r, p, v.fields[p.name], n);
      assert RowFits(ctx.schema[ty], db[ty][r]);
      assert CellFits(p, db[ty][r][p.name]);
    }
  }

  lemma Part(ctx: Context, base: Db, db: Db, ty: string, v: Value, r: nat, i: nat, depth: nat)
    requires Ready(ctx, db) && ty in ctx.schema && v.Dict? && i < |ctx.schema[ty].persisted|
    requires Holds(ctx, base, db, ty, r, v, depth)
    requires AllKeyed(ctx, ty, v) && NoRepeat(ctx, ty, v)
    requires FieldsSpare(ctx, ty, v, 0, ty, db[ty][r])
    requires var p := ctx.schema[ty].persisted[i]; !ctx.schema[ty].IsPrimary(p) && p.name in v.fields
    ensures var p := ctx.schema[ty].persisted[i];
            var x := v.fields[p.name];
            && PropAllKeyed(ctx, p, x) && PropNoRepeat(ctx, p, x) && PropSpares(ctx, p, x, ty, db[ty][r])
            && CellHolds(ctx, base, db, ty, r, p, x, depth)
                 && ctx.schema[ty].primary.Some?
  {
  }

  lemma {:induction false} SetNoOp(
      ctx: Context, base: Db, db: Db, ty: string, row: nat, p: Property, x: Value, depth: nat)
    requires Ready(ctx, db) && ctx.inWrite && KeysUnique(ctx, db) && Column(ctx, db, ty, row, p)
    requires ctx.schema[ty].primary.Some? && !ctx.schema[ty].IsPrimary(p)
    requires PropAllKeyed(ctx, p, x) && PropNoRepeat(ctx, p, x) && PropSpares(ctx, p, x, ty, db[ty][row])
    requires CellHolds(ctx, base, db, ty, row, p, x, depth)
    ensures SetProperty(ctx, db, ty, row, p, x, true, false, depth) == Step(db, Ok(()))
    decreases depth, 2, 0
  {
    hide Ready, KeysUnique, Assign, Unbox, NoRepeat, PropSpares, Holds, SchemaOk;
    TargetKnown(ctx, db, ty, row, p);
    CellHere(ctx, db, ty, row, p);
    SetSameCell(db, ty, row, p.name);
    if p.kind.isArray {
      ListNoOp(ctx, base, db, ty, row, p, x, depth);
    } else if p.kind.base == Object && !x.Empty? {
      UnboxNoOp(ctx, base, db, p, db[ty][row][p.name], x, depth);
    }
  }

  lemma CellHere(ctx: Context, db: Db, ty: string, row: nat, p: Property)
    requires Ready(ctx, db) && Column(ctx, db, ty, row, p)
    ensures p.name in db[ty][row] && CellFits(p, db[ty][row][p.name])
  {
    assert RowFits(ctx.schema[ty], db[ty][row]);
  }

  /** Unboxing a value that `c` already links to. */
  lemma {:induction false} UnboxNoOp(ctx: Context, base: Db, db: Db, p: Property, c: Cell, x: Value, depth: nat)
    requires Ready(ctx, db) && ctx.inWrite && KeysUnique(ctx, db) && p.kind.base == Object && p.target in ctx.schema
    requires x.Empty? ==> p.kind.isArray
    requires AllKeyed(ctx, p.target, x) && NoRepeat(ctx, p.target, x) && ItemHolds(ctx, base, db, p, c, x, depth)
    ensures c.Link?
    ensures Unbox(ctx, db, p.target, x, true, depth) == Step(db,
              Ok(RowRef(if x.RowOf? then x.table else p.target, c.row)))
    ensures !x.RowOf? ==> HasRow(db, p.target, c.row)
    decreases depth, 0, 0
  {
    hide Ready, KeysUnique, Create, NoRepeat, Holds, AllKeyed;
    if !x.RowOf? {
      CreateNoOp(ctx, base, db, p.target, c.row, x, depth - 1);
      HoldsHasRow(ctx, base, db, p.target, c.row, x, depth - 1);
    }
  }

  lemma HoldsHasRow(ctx: Context, base: Db, db: Db, ty: string, r: nat, v: Value, n: nat)
    requires Holds(ctx, base, db, ty, r, v, n)
    ensures HasRow(db, ty, r)
  {
  }

  /** The tables with only the first `k` items of a list in place. */
  function ListUpTo(ctx: Context, db: Db, ty: string, row: nat, p: Property, k: nat): (db': Db)
    requires Ready(ctx, db) && Column(ctx, db, ty, row, p) && p.kind.isArray && k <= |ListAt(ctx, db, ty, row, p).items|
    ensures Ready(ctx, db') && Column(ctx, db', ty, row, p) && Grows(db, db') && Grows(db', db)
  {
    CellHere(ctx, db, ty, row, p);
    PutCell(ctx, db, ty, row, p, Items(ListAt(ctx, db, ty, row, p).items[..k]))
  }

  lemma {:induction false} ListNoOp(
      ctx: Context, base: Db, db: Db, ty: string, row: nat, p: Property, x: Value, depth: nat)
    requires Ready(ctx, db) && ctx.inWrite && KeysUnique(ctx, db) && Column(ctx, db, ty, row, p)
    requires ctx.schema[ty].primary.Some? && !ctx.schema[ty].IsPrimary(p) && p.kind.isArray
    requires PropAllKeyed(ctx, p, x) && PropNoRepeat(ctx, p, x) && PropSpares(ctx, p, x, ty, db[ty][row])
    requires CellHolds(ctx, base, db, ty, row, p, x, depth)
    ensures Assign(ctx, db, ty, row, p, x, true, depth) == Step(db, Ok(()))
    decreases depth, 1, if x.Vec? then |x.elems| + 1 else 0
  {
    CellHere(ctx, db, ty, row, p);
    SetSameCell(db, ty, row, p.name);
    hide Ready, KeysUnique, AppendAll, NoRepeat, PropSpares, ItemHolds;
    if x.Vec? && x != ListOf(ty, row, p.name) {
      assert ListAt(ctx, db, ty, row, p).items[..0] == [];
      ElementsNoOp(ctx, base, db, ty, row, p, x, 0, depth);
      assert x.elems[0..] == x.elems;
    }
  }

  /** Re-appending the elements from the `k`-th on restores the list. */
  lemma {:induction false} ElementsNoOp(
      ctx: Context, base: Db, db: Db, ty: string, row: nat, p: Property, x: Value, k: nat, depth: nat)
    requires Ready(ctx, db) && ctx.inWrite && KeysUnique(ctx, db) && Column(ctx, db, ty, row, p)
    requires ctx.schema[ty].primary.Some? && !ctx.schema[ty].IsPrimary(p) && p.kind.isArray
    requires PropAllKeyed(ctx, p, x) && PropNoRepeat(ctx, p, x) && PropSpares(ctx, p, x, ty, db[ty][row])
    requires CellHolds(ctx, base, db, ty, row, p, x, depth)
    requires x.Vec? && k <= |x.elems| == |ListAt(ctx, db, ty, row, p).items|
    ensures AppendAll(ctx, ListUpTo(ctx, db, ty, row, p, k), ty, row, p, x.elems[k..], true, depth) == Step(db, Ok(()))
    decreases depth, 1, |x.elems| - k
  {
    hide Ready, KeysUnique, AppendOne, NoRepeat, PropSpares, ItemHolds, PropNoRepeat, PropAllKeyed, CellHolds,
        ListUpTo;
    if k == |x.elems| {
      WholeList(ctx, db, ty, row, p);
    } else {
      ElementsNoOp(ctx, base, db, ty, row, p, x, k + 1, depth);
      ElementNoOp(ctx, base, db, ty, row, p, x, k, depth);
      assert x.elems[k..][0] == x.elems[k] && x.elems[k..][1..] == x.elems[k + 1..];
    }
  }

  lemma WholeList(ctx: Context, db: Db, ty: string, row: nat, p: Property)
    requires Ready(ctx, db) && Column(ctx, db, ty, row, p) && p.kind.isArray
    ensures ListUpTo(ctx, db, ty, row, p, |ListAt(ctx, db, ty, row, p).items|) == db
  {
    var c := ListAt(ctx, db, ty, row, p);
    assert c.items[..|c.items|] == c.items && Items(c.items) == c;
    SetSameCell(db, ty, row, p.name);
  }

  /** Adding the `k`-th element back. */
  lemma {:induction false} ElementNoOp(
      ctx: Context, base: Db, db: Db, ty: string, row: nat, p: Property, x: Value, k: nat, depth: nat)
    requires Ready(ctx, db) && ctx.inWrite && KeysUnique(ctx, db) && Column(ctx, db, ty, row, p)
    requires ctx.schema[ty].primary.Some? && !ctx.schema[ty].IsPrimary(p) && p.kind.isArray
    requires PropAllKeyed(ctx, p, x) && PropNoRepeat(ctx, p, x) && PropSpares(ctx, p, x, ty, db[ty][row])
    requires CellHolds(ctx, base, db, ty, row, p, x, depth)
    requires x.Vec? && k < |x.elems| == |ListAt(ctx, db, ty, row, p).items|
    ensures AppendOne(ctx, ListUpTo(ctx, db, ty, row, p, k), ty, row, p, x.elems[k], true, depth)
         == Step(ListUpTo(ctx, db, ty, row, p, k + 1), Ok(()))
    decreases depth, 1, 0
  {
    var c := ListAt(ctx, db, ty, row, p).items[k];
    var db1 := ListUpTo(ctx, db, ty, row, p, k);
    TargetKnown(ctx, db, ty, row, p);
    PushNext(ctx, db, ty, row, p, k);
    ElementParts(ctx, base, db, ty, row, p, x, k, depth);
    UpToKeepsKeys(ctx, db, ty, row, p, k);
    if p.kind.base == Object {
      UpToAgrees(ctx, base, db, ty, row, p, x.elems[k], k);
    }
    ItemHoldsStable(ctx, base, db, db1, p, c, x.elems[k], depth);
    hide Ready, KeysUnique, Unbox, NoRepeat, PropSpares, PropNoRepeat, PropAllKeyed, CellHolds, ListUpTo,
        PushItem, Agree, Holds;
    if p.kind.base == Object {
      UnboxNoOp(ctx, base, db1, p, c, x.elems[k], depth);
    }
  }

  lemma ElementParts(ctx: Context, base: Db, db: Db, ty: string, row: nat, p: Property, x: Value, k: nat, depth: nat)
    requires Ready(ctx, db) && Column(ctx, db, ty, row, p) && p.kind.isArray && x.Vec?
    requires k < |x.elems| == |ListAt(ctx, db, ty, row, p).items|
    requires PropAllKeyed(ctx, p, x) && PropNoRepeat(ctx, p, x) && PropSpares(ctx, p, x, ty, db[ty][row])
    requires CellHolds(ctx, base, db, ty, row, p, x, depth)
    ensures ItemHolds(ctx, base, db, p, ListAt(ctx, db, ty, row, p).items[k], x.elems[k], depth)
    ensures p.kind.base == Object ==>
              && AllKeyed(ctx, p.target, x.elems[k]) && NoRepeat(ctx, p.target, x.elems[k])
              && Spares(ctx, p.target, x.elems[k], ty, db[ty][row])
  {
  }

  lemma PushNext(ctx: Context, db: Db, ty: string, row: nat, p: Property, k: nat)
    requires Ready(ctx, db) && Column(ctx, db, ty, row, p) && p.kind.isArray && k < |ListAt(ctx, db, ty, row, p).items|
    ensures var c := ListAt(ctx, db, ty, row, p).items[k];
            ItemFits(p, c) && PushItem(ctx, ListUpTo(ctx, db, ty, row, p, k), ty, row, p, c)
              == ListUpTo(ctx, db, ty, row, p, k + 1)
  {
    CellHere(ctx, db, ty, row, p);
    var items := ListAt(ctx, db, ty, row, p).items;
    assert items[..k] + [items[k]] == items[..k + 1];
    SetCellTwice(db, ty, row, p.name, Items(items[..k]), Items(items[..k + 1]));
    hide Ready, Shape, SchemaOk;
  }

  lemma UpToKeepsKeys(ctx: Context, db: Db, ty: string, row: nat, p: Property, k: nat)
    requires Ready(ctx, db) && Column(ctx, db, ty, row, p) && p.kind.isArray && k <= |ListAt(ctx, db, ty, row, p).items|
    requires !ctx.schema[ty].IsPrimary(p) && KeysUnique(ctx, db)
    ensures KeysUnique(ctx, ListUpTo(ctx, db, ty, row, p, k))
  {
    CellHere(ctx, db, ty, row, p);
    PutKeepsKeys(ctx, db, ty, row, p, Items(ListAt(ctx, db, ty, row, p).items[..k]));
  }

  lemma UpToAgrees(ctx: Context, base: Db, db: Db, ty: string, row: nat, p: Property, v: Value, k: nat)
    requires Ready(ctx, db) && Column(ctx, db, ty, row, p) && p.kind.isArray && k <= |ListAt(ctx, db, ty, row, p).items|
    requires Spares(ctx, p.target, v, ty, db[ty][row]) && ctx.schema[ty].primary.Some?
    ensures Agree(ctx, base, db, ListUpTo(ctx, db, ty, row, p, k), p.target, v)
  {
    CellHere(ctx, db, ty, row, p);
    RowsHaveKey(ctx, db, ty);
    PutAgrees(ctx, base, db, ty, row, p, p.target, v, Items(ListAt(ctx, db, ty, row, p).items[..k]));
  }

  /**
   * If creating or updating from a value returns, doing it again leaves every table, link and
   * list as it is and returns the same row. All objects of the value must have primary keys and
   * the objects in defaults none; the value may name an object several times, as long as what is
   * left to a default was not given before by another occurrence of the same object.
   */
  lemma UpsertIsIdempotent(ctx: Context, db: Db, ty: string, v: Value, depth: nat)
    requires Ready(ctx, db) && ty in ctx.schema && !ctx.inMigration && KeylessDefaults(ctx) && KeysUnique(ctx, db)
    requires AllKeyed(ctx, ty, v) && DefaultsLast(ctx, ty, v)
    requires Create(ctx, db, ty, v, true, depth).out.Ok?
    ensures var s := Create(ctx, db, ty, v, true, depth); Create(ctx, s.db, ty, v, true, depth) == s
  {
    assert ctx.inWrite;
    hide Ready, KeysUnique, KeepsKeys, Create, AllKeyed, DefaultsLast, KeylessDefaults, CellOf;
    var s := Create(ctx, db, ty, v, true, depth);
    CreateKeepsUnique(ctx, db, ty, v, depth);
    KeepsKeysRefl(ctx, s.db);
    CreateTwice(ctx, db, s.db, s.db, ty, v, depth);
    SameTables(ctx, Create(ctx, s.db, ty, v, true, depth).db, s.db);
  }

  /** Tables with the same cells are the same. */
  lemma SameTables(ctx: Context, b: Db, f: Db)
    requires Ready(ctx, b) && Ready(ctx, f) && Tracks(f, b, f)
    ensures b == f
  {
    hide SchemaOk;
    forall t | t in b ensures b[t] == f[t] {
      forall r | 0 <= r < |b[t]| ensures b[t][r] == f[t][r] {
        SameRows(ctx, b, f, t, r);
      }
    }
  }

  lemma SameRows(ctx: Context, b: Db, f: Db, t: string, r: nat)
    requires Ready(ctx, b) && Ready(ctx, f) && Tracks(f, b, f) && HasRow(b, t, r)
    ensures b[t][r] == f[t][r]
  {
    hide SchemaOk;
    assert RowFits(ctx.schema[t], b[t][r]) && RowFits(ctx.schema[t], f[t][r]);
    forall n | n in b[t][r] ensures b[t][r][n] == f[t][r][n] {
      assert CellTracks(f, b, f, t, r, n);
    }
  }

  /** Objects may be named any number of times when all that have defaults are given them. */
  lemma RepeatsAreIdempotent(ctx: Context, db: Db, ty: string, v: Value, depth: nat)
    requires Ready(ctx, db) && ty in ctx.schema && !ctx.inMigration && KeylessDefaults(ctx) && KeysUnique(ctx, db)
    requires AllKeyed(ctx, ty, v) && Undefaulted(ctx, ty, v) && Create(ctx, db, ty, v, true, depth).out.Ok?
    ensures var s := Create(ctx, db, ty, v, true, depth); Create(ctx, s.db, ty, v, true, depth) == s
  {
    hide *;
    DefaultsAreLast(ctx, ty, v);
    UpsertIsIdempotent(ctx, db, ty, v, depth);
  }

  lemma CreateKeepsUnique(ctx: Context, db: Db, ty: string, v: Value, depth: nat)
    requires Ready(ctx, db) && ty in ctx.schema && !ctx.inMigration && KeysUnique(ctx, db)
    ensures KeysUnique(ctx, Create(ctx, db, ty, v, true, depth).db)
  {
    hide Ready, KeysUnique, Create;
    CreateKeepsKeys(ctx, db, ty, v, true, depth);
  }

  /** Every object written down in `v` is given all of its properties that have a default. */
  ghost predicate Undefaulted(ctx: Context, ty: string, v: Value)
    decreases v, 0
  {
    v.Dict? && ty in ctx.schema ==>
      && (forall p | p in ctx.schema[ty].persisted && p.name in v.fields :: PropUndefaulted(ctx, p, v.fields[p.name]))
      && (forall j | 0 <= j < |ctx.schema[ty].persisted| :: !LeftToDefault(ctx, ty, v, j))
  }

  ghost predicate PropUndefaulted(ctx: Context, p: Property, x: Value)
    decreases x, 1
  {
    p.kind.base == Object ==>
      if p.kind.isArray then x.Vec? ==> forall i | 0 <= i < |x.elems| :: Undefaulted(ctx, p.target, x.elems[i])
      else Undefaulted(ctx, p.target, x)
  }

  /** Defaults come last when no object is named twice, and when no default applies. */
  lemma {:induction false} DefaultsAreLast(ctx: Context, ty: string, v: Value)
    requires NoRepeat(ctx, ty, v) || Undefaulted(ctx, ty, v)
    ensures DefaultsLast(ctx, ty, v)
    decreases v, 0
  {
    if v.Dict? && ty in ctx.schema {
      var ps := ctx.schema[ty].persisted;
      forall p | p in ps && p.name in v.fields ensures PropDefaultsLast(ctx, p, v.fields[p.name]) {
        PropDefaultsAreLast(ctx, p, v.fields[p.name]);
      }
      forall i, j | 0 <= i < j < |ps| ensures SettledBefore(ctx, ty, v, i, j) {
        assert ps[i] in ps;
      }
    }
  }

  lemma {:induction false} PropDefaultsAreLast(ctx: Context, p: Property, x: Value)
    requires PropNoRepeat(ctx, p, x) || PropUndefaulted(ctx, p, x)
    ensures PropDefaultsLast(ctx, p, x)
    decreases x, 1
  {
    if p.kind.base == Object {
      if p.kind.isArray {
        if x.Vec? {
          forall i | 0 <= i < |x.elems| ensures DefaultsLast(ctx, p.target, x.elems[i]) {
            DefaultsAreLast(ctx, p.target, x.elems[i]);
          }
        }
      } else {
        DefaultsAreLast(ctx, p.target, x);
      }
    }
  }

  // ---- an object that names itself ----

  /** In the first run a scalar left to its default ends with it, when nothing after names the object. */
  lemma {:induction false} DefaultStays(
      ctx: Context, a: Db, ty: string, v: Value, place: Place, i: nat, j: nat, depth: nat)
    requires Ready(ctx, a) && !ctx.inMigration && KeylessDefaults(ctx) && ty in ctx.schema && HasRow(a, ty, place.row)
    requires v.Dict? && place.created && place.skipPrimary && i <= j < |ctx.schema[ty].persisted|
    requires ctx.schema[ty].primary.Some?
    requires LeftToDefault(ctx, ty, v, j) && IsScalar(ctx.schema[ty].persisted[j])
    requires NodeKey(ctx, ty, v).Some? && RowKey(ctx, ty, a[ty][place.row]) == NodeKey(ctx, ty, v)
    requires ElsewhereFrom(ctx, ty, v, j + 1)
    requires Populate(ctx, a, ty, v, true, place, i, depth).out.Ok?
    ensures var q := ctx.schema[ty].persisted[j];
            CellOf(Populate(ctx, a, ty, v, true, place, i, depth).db, ty, place.row, q.name)
            == Some(ScalarCell(ctx.defaults[(ty, q.name)]))
            && (ctx.defaults[(ty, q.name)].Prim? || ctx.defaults[(ty, q.name)].Empty?)
    decreases |ctx.schema[ty].persisted| - i
  {
    hide Ready, SchemaOk, KeylessDefaults, SetProperty, Chosen, RowKey, ElsewhereFrom, FieldsSpare, KeepsKeys,
        Unwritten, DefaultsSpare, PropAddresses;
    var p := ctx.schema[ty].persisted[i];
    if i < j && ctx.schema[ty].IsPrimary(p) {
      DefaultStays(ctx, a, ty, v, place, i + 1, j, depth);
    } else if i < j && Chosen(ctx, ty, v, place, p).value.None? {
      DefaultStays(ctx, a, ty, v, place, i + 1, j, depth);
    } else {
      var c := Chosen(ctx, ty, v, place, p).value;
      if i == j {
        DefaultChosen(ctx, ty, v, place, j);
      }
      var a1 := SetProperty(ctx, a, ty, place.row, p, c.value.0, true, c.value.1, depth).db;
      SetKeepsRowKey(ctx, a, ty, place.row, p, c.value.0, c.value.1, depth);
      if i < j {
        DefaultStays(ctx, a1, ty, v, place, i + 1, j, depth);
      } else {
        ScalarIsStored(ctx, a, ty, place.row, p, c.value.0, true, depth);
        StaysFrom(ctx, a1, ty, v, place, j + 1, depth, p.name);
      }
    }
  }

  lemma DefaultChosen(ctx: Context, ty: string, v: Value, place: Place, j: nat)
    requires ty in ctx.schema && v.Dict? && j < |ctx.schema[ty].persisted| && LeftToDefault(ctx, ty, v, j)
    requires place.created
    requires Chosen(ctx, ty, v, place, ctx.schema[ty].persisted[j]).Ok?
    ensures var q := ctx.schema[ty].persisted[j];
            Chosen(ctx, ty, v, place, q) == Ok(Some((ctx.defaults[(ty, q.name)], true)))
  {
  }

  /** No property from the `i`-th on is given a value that writes down the object itself. */
  ghost predicate ElsewhereFrom(ctx: Context, ty: string, v: Value, i: nat)
    requires ty in ctx.schema && v.Dict?
  {
    forall k | i <= k < |ctx.schema[ty].persisted| && ctx.schema[ty].persisted[k].name in v.fields ::
        Elsewhere(ctx, ty, v, k)
  }

  lemma SetKeepsRowKey(
      ctx: Context, a: Db, ty: string, row: nat, p: Property, x: Value, isDefault: bool, depth: nat)
    requires Ready(ctx, a) && Column(ctx, a, ty, row, p) && !ctx.inMigration && !ctx.schema[ty].IsPrimary(p)
    requires RowKey(ctx, ty, a[ty][row]).Some?
    ensures var a1 := SetProperty(ctx, a, ty, row, p, x, true, isDefault, depth).db;
            && HasRow(a1, ty, row) && RowKey(ctx, ty, a1[ty][row]) == RowKey(ctx, ty, a[ty][row])
            && (KeysUnique(ctx, a) ==> KeysUnique(ctx, a1))
  {
    hide SchemaOk, Shape, KeyAt, SetProperty, KeysUnique;
    SetKeepsKeys(ctx, a, ty, row, p, x, true, isDefault, depth);
    var a1 := SetProperty(ctx, a, ty, row, p, x, true, isDefault, depth).db;
    KeyIsRowKey(ctx, a, ty, row);
    KeyIsRowKey(ctx, a1, ty, row);
  }

  /** From here on a property of the object is left alone. */
  lemma StaysFrom(ctx: Context, a: Db, ty: string, v: Value, place: Place, i: nat, depth: nat, name: string)
    requires Ready(ctx, a) && KeylessDefaults(ctx) && ty in ctx.schema && HasRow(a, ty, place.row) && place.skipPrimary
    requires v.Dict?
    requires i <= |ctx.schema[ty].persisted| && NodeKey(ctx, ty, v).Some?
    requires RowKey(ctx, ty, a[ty][place.row]) == NodeKey(ctx, ty, v)
    requires ElsewhereFrom(ctx, ty, v, i)
    requires (!place.created && name !in v.fields) || (i > 0 && name == ctx.schema[ty].persisted[i - 1].name)
    ensures CellOf(Populate(ctx, a, ty, v, true, place, i, depth).db, ty, place.row, name)
              == CellOf(a, ty, place.row, name)
  {
    hide SchemaOk, Shape, KeylessDefaults, Populate, PropAddresses, NotFrom;
    if i > 0 {
      NotFromNext(ctx, ty, i - 1);
    }
    KeylessSpare(ctx);
    ElsewhereSpares(ctx, ty, v, i, a[ty][place.row]);
    assert DefaultsSpare(ctx, ty, a[ty][place.row]);
    PopulateOwnRow(ctx, a, ty, v, true, place, i, depth, name);
  }

  lemma ElsewhereSpares(ctx: Context, ty: string, v: Value, i: nat, row: Row)
    requires ty in ctx.schema && v.Dict? && ElsewhereFrom(ctx, ty, v, i) && RowKey(ctx, ty, row) == NodeKey(ctx, ty, v)
    ensures FieldsSpare(ctx, ty, v, i, ty, row)
  {
    hide PropAddresses;
    forall j | i <= j < |ctx.schema[ty].persisted| && ctx.schema[ty].persisted[j].name in v.fields
      ensures PropSpares(ctx, ctx.schema[ty].persisted[j], v.fields[ctx.schema[ty].persisted[j].name], ty, row)
    {
      assert Elsewhere(ctx, ty, v, j);
    }
  }

  /** In the second run it ends with what the repeated object gives it. */
  lemma {:induction false} SelfStays(
      ctx: Context, b: Db, ty: string, v: Value, row: nat, k: nat, i: nat, j: nat, depth: nat)
    requires Ready(ctx, b) && KeysUnique(ctx, b) && ctx.inWrite && !ctx.inMigration && KeylessDefaults(ctx)
    requires ty in ctx.schema && HasRow(b, ty, row) && v.Dict? && k <= i < j < |ctx.schema[ty].persisted|
    requires NodeKey(ctx, ty, v).Some? && RowKey(ctx, ty, b[ty][row]) == NodeKey(ctx, ty, v)
    requires ctx.schema[ty].persisted[i].name in v.fields && NamesItself(ctx, ty, v, i)
    requires ElsewhereFrom(ctx, ty, v, i + 1)
    requires LeftToDefault(ctx, ty, v, j) && IsScalar(ctx.schema[ty].persisted[j])
    requires ctx.schema[ty].persisted[j].name in v.fields[ctx.schema[ty].persisted[i].name].fields
    requires Populate(ctx, b, ty, v, true, Place(row, false, true), k, depth).out.Ok?
    ensures var p, q := ctx.schema[ty].persisted[i], ctx.schema[ty].persisted[j];
            var y := v.fields[p.name].fields[q.name];
            && (y.Prim? || y.Empty?)
            && CellOf(Populate(ctx, b, ty, v, true, Place(row, false, true), k, depth).db, ty, row, q.name)
                 == Some(ScalarCell(y))
    decreases i - k
  {
    hide Ready, SchemaOk, KeysUnique, KeylessDefaults, SetProperty, Chosen, RowKey, ElsewhereFrom, NamesItself,
        PropAddresses;
    var p := ctx.schema[ty].persisted[k];
    var place := Place(row, false, true);
    if k < i && ctx.schema[ty].IsPrimary(p) {
      SelfStays(ctx, b, ty, v, row, k + 1, i, j, depth);
    } else {
      NotItsKey(ctx, ty, v, i);
      ChosenTwice(ctx, ty, v, place, p);
      if p.name !in v.fields {
        SelfStays(ctx, b, ty, v, row, k + 1, i, j, depth);
      } else {
        var b1 := SetProperty(ctx, b, ty, row, p, v.fields[p.name], true, false, depth).db;
        SetKeepsRowKey(ctx, b, ty, row, p, v.fields[p.name], false, depth);
        if k < i {
          SelfStays(ctx, b1, ty, v, row, k + 1, i, j, depth);
        } else {
          SelfWrites(ctx, b, ty, v, row, i, j, depth);
          StaysFrom(ctx, b1, ty, v, place, i + 1, depth, ctx.schema[ty].persisted[j].name);
        }
      }
    }
  }

  lemma NotItsKey(ctx: Context, ty: string, v: Value, i: nat)
    requires ty in ctx.schema && v.Dict? && i < |ctx.schema[ty].persisted|
    requires ctx.schema[ty].persisted[i].name in v.fields
    requires NamesItself(ctx, ty, v, i)
    ensures !ctx.schema[ty].IsPrimary(ctx.schema[ty].persisted[i])
  {
  }

  /**
   * A new object one of whose links is given the object itself once more: updating a second time
   * changes nothing if and only if that occurrence gives no other value to a later property which
   * is left to its default. Nothing else in the value names the object, and what the occurrence
   * gives to such properties is scalar.
   */
  lemma SelfNamingIff(ctx: Context, db: Db, ty: string, v: Value, i: nat, depth: nat)
    requires Ready(ctx, db) && ty in ctx.schema && !ctx.inMigration && KeylessDefaults(ctx) && KeysUnique(ctx, db)
    requires AllKeyed(ctx, ty, v) && Create(ctx, db, ty, v, true, depth).out.Ok?
    requires Locate(ctx, db, ty, v, true).out.value.created
    requires v.Dict? && i < |ctx.schema[ty].persisted| && ctx.schema[ty].persisted[i].name in v.fields
    requires NamesItself(ctx, ty, v, i)
    requires forall k | 0 <= k < |ctx.schema[ty].persisted| && k != i && ctx.schema[ty].persisted[k].name in v.fields ::
               Elsewhere(ctx, ty, v, k)
    requires forall p | p in ctx.schema[ty].persisted && p.name in v.fields ::
               PropDefaultsLast(ctx, p, v.fields[p.name])
    requires var w := v.fields[ctx.schema[ty].persisted[i].name];
             forall j | i < j < |ctx.schema[ty].persisted| && LeftToDefault(ctx, ty, v, j)
                 && ctx.schema[ty].persisted[j].name in w.fields ::
               IsScalar(ctx.schema[ty].persisted[j])
    ensures var w := v.fields[ctx.schema[ty].persisted[i].name];
            var s := Create(ctx, db, ty, v, true, depth);
            Create(ctx, s.db, ty, v, true, depth) == s
            <==> forall j | i < j < |ctx.schema[ty].persisted| && LeftToDefault(ctx, ty, v, j) :: Agrees(ctx, ty, w, j)
  {
    hide Ready, SchemaOk, KeysUnique, KeylessDefaults, Create, AllKeyed, Elsewhere, PropDefaultsLast, LeftToDefault,
        Locate;
    var ps := ctx.schema[ty].persisted;
    var w := v.fields[ps[i].name];
    var s := Create(ctx, db, ty, v, true, depth);
    if forall j | i < j < |ps| && LeftToDefault(ctx, ty, v, j) :: Agrees(ctx, ty, w, j) {
      forall k, j | 0 <= k < j < |ps| ensures SettledBefore(ctx, ty, v, k, j) {
        if k != i && ps[k].name in v.fields {
          assert Elsewhere(ctx, ty, v, k);
        }
      }
      UpsertIsIdempotent(ctx, db, ty, v, depth);
    } else {
      var j :| i < j < |ps| && LeftToDefault(ctx, ty, v, j) && !Agrees(ctx, ty, w, j);
      assert ps[j].name in w.fields && IsScalar(ps[j]);
      if Create(ctx, s.db, ty, v, true, depth) == s {
        TwoEndings(ctx, db, ty, v, i, j, depth);
        assert false;
      }
    }
  }

  /** If both runs end the same, the default and what the repeated object gives are the same. */
  lemma TwoEndings(ctx: Context, db: Db, ty: string, v: Value, i: nat, j: nat, depth: nat)
    requires Ready(ctx, db) && ty in ctx.schema && !ctx.inMigration && KeylessDefaults(ctx) && KeysUnique(ctx, db)
    requires AllKeyed(ctx, ty, v) && Create(ctx, db, ty, v, true, depth).out.Ok?
    requires Locate(ctx, db, ty, v, true).out.value.created
    requires v.Dict? && i < j < |ctx.schema[ty].persisted| && ctx.schema[ty].persisted[i].name in v.fields
    requires NamesItself(ctx, ty, v, i)
    requires ElsewhereFrom(ctx, ty, v, i + 1)
    requires LeftToDefault(ctx, ty, v, j) && IsScalar(ctx.schema[ty].persisted[j])
    requires ctx.schema[ty].persisted[j].name in v.fields[ctx.schema[ty].persisted[i].name].fields
    requires var s := Create(ctx, db, ty, v, true, depth); Create(ctx, s.db, ty, v, true, depth) == s
    ensures Agrees(ctx, ty, v.fields[ctx.schema[ty].persisted[i].name], j)
  {
    hide Ready, SchemaOk, KeysUnique, KeylessDefaults, Locate, Populate, AllKeyed, NoRepeat, Tracks, KeepsKeys, RowKey;
    assert ctx.inWrite;
    var s := Create(ctx, db, ty, v, true, depth);
    var l := Locate(ctx, db, ty, v, true);
    var row := l.out.value.row;
    KeyedHere(ctx, ty, v);
    FirstEnding(ctx, db, ty, v, depth);
    DefaultStays(ctx, l.db, ty, v, l.out.value, 0, j, depth);
    SelfStays(ctx, s.db, ty, v, row, 0, i, j, depth);
  }

  /** The object is new in the first run and found again in the second. */
  lemma FirstEnding(ctx: Context, db: Db, ty: string, v: Value, depth: nat)
    requires Ready(ctx, db) && ty in ctx.schema && !ctx.inMigration && KeylessDefaults(ctx) && KeysUnique(ctx, db)
    requires ctx.schema[ty].primary.Some? && Create(ctx, db, ty, v, true, depth).out.Ok?
    ensures var l := Locate(ctx, db, ty, v, true);
            var s := Create(ctx, db, ty, v, true, depth);
            && l.out.Ok? && l.out.value.skipPrimary && ctx.inWrite
            && s == Populate(ctx, l.db, ty, v, true, l.out.value, 0, depth)
            && RowKey(ctx, ty, l.db[ty][l.out.value.row]) == NodeKey(ctx, ty, v)
            && HasRow(s.db, ty, l.out.value.row) && RowKey(ctx, ty, s.db[ty][l.out.value.row]) == NodeKey(ctx, ty, v)
            && KeysUnique(ctx, s.db)
            && Create(ctx, s.db, ty, v, true, depth)
               == Populate(ctx, s.db, ty, v, true, Place(l.out.value.row, false, true), 0, depth)
  {
    hide Ready, KeysUnique, KeylessDefaults, Locate, Populate, KeepsKeys, CellOf, SchemaOk;
    var l := Locate(ctx, db, ty, v, true);
    var s := Create(ctx, db, ty, v, true, depth);
    LocateKeyedDict(ctx, db, ty, v);
    PopulateKeepsKeys(ctx, l.db, ty, v, true, l.out.value, 0, depth);
    CreateKeepsKeys(ctx, db, ty, v, true, depth);
    KeepsGrows(ctx, db, s.db);
    CreateKeepsUnique(ctx, db, ty, v, depth);
    LocateTwice(ctx, db, s.db, s.db, ty, v);
    FoundRowKey(ctx, db, ty, v);
  }

  lemma FoundRowKey(ctx: Context, db: Db, ty: string, v: Value)
    requires Ready(ctx, db) && ty in ctx.schema && !ctx.inMigration && ctx.schema[ty].primary.Some?
    requires Locate(ctx, db, ty, v, true).out.Ok?
    ensures var l := Locate(ctx, db, ty, v, true); RowKey(ctx, ty, l.db[ty][l.out.value.row]) == NodeKey(ctx, ty, v)
  {
    hide Shape, SchemaOk, KeyOf, Locate, KeyAt;
    ReadySchema(ctx, db, ty);
    LocateKey(ctx, db, ty, v, true);
    KeyIsRowKey(ctx, Locate(ctx, db, ty, v, true).db, ty, Locate(ctx, db, ty, v, true).out.value.row);
  }
}
