/** What a successful upsert leaves in the properties of new objects that the value does not give. */
module UpsertSettled {
  import opened Wrappers
  import opened Schemas
  import opened Tables
  import opened Upsert
  import opened UpsertKeys
  import opened UpsertFrame
  import opened UpsertGiven
  import opened UpsertHolds
  import opened UpsertRefines

  // ---- keys and rows that stay ----

  lemma KeyIsRowKey(ctx: Context, db: Db, t: string, r: nat)
    requires Ready(ctx, db) && t in ctx.schema && KeyName(ctx, t).Some? && HasRow(db, t, r)
    ensures RowKey(ctx, t, db[t][r]) == Some(KeyAt(ctx, db, t, r))
  {
    KeyStored(ctx, db, t, r);
  }

  lemma KeptRowKey(ctx: Context, a: Db, b: Db, t: string, r: nat)
    requires Ready(ctx, a) && Ready(ctx, b) && KeepsKeys(ctx, a, b) && HasRow(a, t, r)
    ensures HasRow(b, t, r) && RowKey(ctx, t, b[t][r]) == RowKey(ctx, t, a[t][r])
  {
    hide SchemaOk, KeysUnique, KeyAt;
    if t in ctx.schema && KeyName(ctx, t).Some? {
      KeyIsRowKey(ctx, a, t, r);
      KeyIsRowKey(ctx, b, t, r);
    }
  }

  lemma KeylessFieldsSpared(ctx: Context, ty: string, v: Value, i: nat, t: string, row: Row)
    requires ty in ctx.schema && RowKey(ctx, t, row).None?
    ensures FieldsSpare(ctx, ty, v, i, t, row) && DefaultsSpare(ctx, t, row)
    ensures forall p, x: Value :: PropSpares(ctx, p, x, t, row)
  {
  }

  lemma PopulateKeyless(
      ctx: Context, base: Db, db: Db, ty: string, v: Value, update: bool, place: Place, i: nat, depth: nat)
    requires Ready(ctx, db) && ty in ctx.schema && HasRow(db, ty, place.row) && i <= |ctx.schema[ty].persisted|
    requires HasRow(base, ty, place.row)
    ensures KeylessSame(ctx, base, db, Populate(ctx, db, ty, v, update, place, i, depth).db)
  {
    hide Ready, Populate, FieldsSpare, DefaultsSpare, RowKey;
    var db' := Populate(ctx, db, ty, v, update, place, i, depth).db;
    forall t: string, q: nat | HasRow(db, t, q) && RowKey(ctx, t, db[t][q]).None? && !HasRow(base, t, q)
      ensures SameRow(db, db', t, q)
    {
      KeylessFieldsSpared(ctx, ty, v, i, t, db[t][q]);
      PopulateSpares(ctx, db, ty, v, update, place, i, depth, t, q);
    }
  }

  lemma AppendAllKeyless(
      ctx: Context, base: Db, db: Db, ty: string, row: nat, p: Property, vs: seq<Value>, update: bool, depth: nat)
    requires Ready(ctx, db) && Column(ctx, db, ty, row, p) && p.kind.isArray && HasRow(base, ty, row)
    ensures KeylessSame(ctx, base, db, AppendAll(ctx, db, ty, row, p, vs, update, depth).db)
  {
    hide Ready, AppendAll, FieldsSpare, DefaultsSpare, RowKey, PropSpares;
    ColumnPersisted(ctx, db, ty, row, p);
    var db' := AppendAll(ctx, db, ty, row, p, vs, update, depth).db;
    forall t: string, q: nat | HasRow(db, t, q) && RowKey(ctx, t, db[t][q]).None? && !HasRow(base, t, q)
      ensures SameRow(db, db', t, q)
    {
      KeylessFieldsSpared(ctx, ty, Vec(vs), 0, t, db[t][q]);
      AppendAllSpares(ctx, db, ty, row, p, vs, update, depth, t, q);
    }
  }

  lemma PutKeyless(ctx: Context, base: Db, db: Db, ty: string, row: nat, p: Property, c: Cell)
    requires Ready(ctx, db) && Column(ctx, db, ty, row, p) && CellFits(p, c) && HasRow(base, ty, row)
    ensures KeylessSame(ctx, base, db, PutCell(ctx, db, ty, row, p, c))
  {
    hide Ready;
  }

  lemma PushKeyless(ctx: Context, base: Db, db: Db, ty: string, row: nat, p: Property, c: Cell)
    requires Ready(ctx, db) && Column(ctx, db, ty, row, p) && p.kind.isArray && ItemFits(p, c) && HasRow(base, ty, row)
    ensures KeylessSame(ctx, base, db, PushItem(ctx, db, ty, row, p, c))
  {
    assert RowFits(ctx.schema[ty], db[ty][row]);
    hide Ready, PutCell;
    PutKeyless(ctx, base, db, ty, row, p, Items(db[ty][row][p.name].items + [c]));
  }

  /** What is settled stays settled while its cell is kept. */
  lemma StaysSettled(ctx: Context, base: Db, db: Db, db': Db, t: string, q: nat, o: Property, n: nat)
    requires OwnDefaultStays(ctx, t, o) && t in ctx.schema && o in ctx.schema[t].persisted
    requires Grows(db, db') && Settled(ctx, base, db, t, q, o, n) && KeylessSame(ctx, base, db, db')
    requires KeepsCellAndKey(ctx, t, db[t][q], db'[t][q], o.name)
    ensures Settled(ctx, base, db', t, q, o, n)
  {
    hide OwnDefaultStays, CellHolds, KeylessSame, KeepsCellAndKey;
    KeptKey(ctx, t, db[t][q], db'[t][q], o.name);
    SettledStable(ctx, base, db, db', t, q, o, n);
  }

  // ---- new objects ----

  /** A property of a stored object with a key, which is not its key. */
  ghost predicate Keyed(ctx: Context, t: string, o: Property, f: Row) {
    t in ctx.schema && o in ctx.schema[t].persisted && !ctx.schema[t].IsPrimary(o) && RowKey(ctx, t, f).Some?
  }

  /** The row is there, with the key of `f`. */
  ghost predicate HasKey(ctx: Context, db: Db, t: string, q: nat, f: Row) {
    HasRow(db, t, q) && RowKey(ctx, t, db[t][q]) == RowKey(ctx, t, f)
  }

  /** No default gives the property to the object, and what its own default stores stays. */
  ghost predicate DefaultsAside(ctx: Context, t: string, o: Property, f: Row) {
    OwnDefaultStays(ctx, t, o) && DefaultsUngiven(ctx, t, f, o.name)
  }

  lemma KeylessAside(ctx: Context, t: string, o: Property, f: Row)
    requires KeylessDefaults(ctx)
    ensures DefaultsAside(ctx, t, o, f)
  {
    KeylessUngiven(ctx, t, f, o.name);
  }

  lemma AsideUngiven(ctx: Context, t: string, o: Property, f: Row)
    requires DefaultsAside(ctx, t, o, f)
    ensures OwnDefaultStays(ctx, t, o) && DefaultsUngiven(ctx, t, f, o.name)
  {
  }

  /**
   * A property of an object with a key that a successful call has created, if `v` does not give it
   * to any object with that type and key, holds its default or is empty without one.
   */
  lemma {:induction false} CreateSettles(
      ctx: Context, db: Db, ty: string, v: Value, update: bool, depth: nat, t: string, q: nat, o: Property, f: Row)
    requires Ready(ctx, db) && ty in ctx.schema && !ctx.inMigration
    requires DefaultsAside(ctx, t, o, f)
    requires Create(ctx, db, ty, v, update, depth).out.Ok?
    requires Keyed(ctx, t, o, f) && Ungiven(ctx, ty, v, t, f, o.name)
    requires !HasRow(db, t, q) && HasKey(ctx, Create(ctx, db, ty, v, update, depth).db, t, q, f)
    ensures Settled(ctx, db, Create(ctx, db, ty, v, update, depth).db, t, q, o, depth)
    decreases depth, 4, 0
  {
    hide Ready, Populate, Locate, DefaultsAside, FieldsUngiven, Ungiven, Settled, Fresh, RowKey, KeepsKeys, NodeKey;
    var l := Locate(ctx, db, ty, v, update);
    var place := l.out.value;
    var s := Populate(ctx, l.db, ty, v, update, place, 0, depth);
    RootUngiven(ctx, ty, v, t, f, o.name);
    LocateFresh(ctx, db, ty, v, update);
    if HasRow(l.db, t, q) {
      LocateNew(ctx, db, ty, v, update, t, q);
      PopulateKeepsKeys(ctx, l.db, ty, v, update, place, 0, depth);
      KeptRowKey(ctx, l.db, s.db, t, q);
      NewRoot(ctx, db, ty, v, update, o, f);
      OwnSettles(ctx, l.db, ty, v, update, place, 0, depth, o, f);
    } else {
      PopulateSettles(ctx, l.db, ty, v, update, place, 0, depth, t, q, o, f);
    }
    SettledWeaken(ctx, db, l.db, s.db, t, q, o, depth);
  }

  /** The only new row is the one that was appended. */
  lemma LocateNew(ctx: Context, db: Db, ty: string, v: Value, update: bool, t: string, q: nat)
    requires Ready(ctx, db) && ty in ctx.schema && !ctx.inMigration && Locate(ctx, db, ty, v, update).out.Ok?
    requires !HasRow(db, t, q) && HasRow(Locate(ctx, db, ty, v, update).db, t, q)
    ensures var place := Locate(ctx, db, ty, v, update).out.value; t == ty && q == place.row && place.created
  {
    hide Ready, Locate;
    LocateAppends(ctx, db, ty, v, update);
    LocateSizes(ctx, db, ty, v, update);
  }

  /** The appended row has the key of `v`, so `v` itself does not give it the property. */
  lemma NewRoot(ctx: Context, db: Db, ty: string, v: Value, update: bool, o: Property, f: Row)
    requires Ready(ctx, db) && ty in ctx.schema && !ctx.inMigration && Locate(ctx, db, ty, v, update).out.Ok?
    requires Locate(ctx, db, ty, v, update).out.value.created && Keyed(ctx, ty, o, f)
    requires HasKey(ctx, Locate(ctx, db, ty, v, update).db, ty, Locate(ctx, db, ty, v, update).out.value.row, f)
    requires Ungiven(ctx, ty, v, ty, f, o.name)
    ensures v.Dict? && o.name !in v.fields
    ensures var l := Locate(ctx, db, ty, v, update);
            o.name in l.db[ty][l.out.value.row] && l.db[ty][l.out.value.row][o.name] == EmptyCell(o)
  {
    hide SchemaOk, Shape, Locate, Gives;
    ReadySchema(ctx, db, ty);
    var l := Locate(ctx, db, ty, v, update);
    LocateEmpty(ctx, db, ty, v, update, o);
    LocateKey(ctx, db, ty, v, update);
    KeyIsRowKey(ctx, l.db, ty, l.out.value.row);
    RootUngiven(ctx, ty, v, ty, f, o.name);
  }

  /** A property of the row that is being filled, still empty, is left alone until its default is written. */
  lemma {:induction false} OwnSettles(
      ctx: Context, db: Db, ty: string, v: Value, update: bool, place: Place, i: nat, depth: nat, o: Property, f: Row)
    requires Ready(ctx, db) && ty in ctx.schema && !ctx.inMigration
    requires DefaultsAside(ctx, ty, o, f)
    requires HasRow(db, ty, place.row) && place.skipPrimary && place.created
    requires i <= |ctx.schema[ty].persisted| && o in ctx.schema[ty].persisted[i..]
    requires Populate(ctx, db, ty, v, update, place, i, depth).out.Ok?
    requires Keyed(ctx, ty, o, f) && HasKey(ctx, db, ty, place.row, f) && FieldsUngiven(ctx, ty, v, i, ty, f, o.name)
    requires v.Dict? && o.name !in v.fields
    requires o.name in db[ty][place.row] && db[ty][place.row][o.name] == EmptyCell(o)
    ensures Settled(ctx, db, Populate(ctx, db, ty, v, update, place, i, depth).db, ty, place.row, o, depth)
    decreases depth, 3, |ctx.schema[ty].persisted| - i
  {
    hide Ready, DefaultsAside, FieldsUngiven, Settled, SetProperty, Chosen, RowKey, PropUngiven, Populate, Distinct;
    ReadyDistinct(ctx, db, ty);
    var p := ctx.schema[ty].persisted[i];
    var db' := Populate(ctx, db, ty, v, update, place, i, depth).db;
    if p == o {
      DefaultSettles(ctx, db, ty, v, update, place, i, depth, f);
    } else {
      OtherName(ctx.schema[ty].persisted, i, o);
      AsideUngiven(ctx, ty, o, f);
      var db1 := OneOther(ctx, db, ty, v, update, place, i, depth, ty, place.row, o, f);
      OwnSettles(ctx, db1, ty, v, update, place, i + 1, depth, o, f);
      SettledWeaken(ctx, db, db1, db', ty, place.row, o, depth);
    }
  }

  lemma OtherName(ps: seq<Property>, i: nat, o: Property)
    requires Distinct(ps) && i < |ps| && o in ps[i..] && ps[i] != o
    ensures o in ps[i + 1..] && ps[i].name != o.name
  {
    var j :| i <= j < |ps| && ps[j] == o;
    assert ps[i + 1..][j - i - 1] == o;
  }

  /** The tables after the `i`-th property alone, which leaves the property `o` of a row as it is. */
  lemma OneOther(
      ctx: Context, db: Db, ty: string, v: Value, update: bool, place: Place, i: nat, depth: nat, t: string, q: nat,
      o: Property, f: Row)
    returns (db1: Db)
    requires Ready(ctx, db) && ty in ctx.schema && DefaultsUngiven(ctx, t, f, o.name) && HasRow(db, ty, place.row)
    requires place.skipPrimary && i < |ctx.schema[ty].persisted|
    requires Populate(ctx, db, ty, v, update, place, i, depth).out.Ok?
    requires HasKey(ctx, db, t, q, f) && FieldsUngiven(ctx, ty, v, i, t, f, o.name)
    requires t == ty && q == place.row ==> ctx.schema[ty].persisted[i].name != o.name
    ensures Ready(ctx, db1) && Grows(db, db1) && HasKey(ctx, db1, t, q, f)
    ensures SameCell(db[t][q], db1[t][q], o.name) && FieldsUngiven(ctx, ty, v, i + 1, t, f, o.name)
    ensures Populate(ctx, db1, ty, v, update, place, i + 1, depth) == Populate(ctx, db, ty, v, update, place, i, depth)
  {
    hide Ready, SetProperty, DefaultsUngiven, FieldsUngiven, PropUngiven, Chosen, RowKey;
    var p := ctx.schema[ty].persisted[i];
    db1 := db;
    ChosenUngiven(ctx, ty, v, place, i, t, f, o.name);
    if !ctx.schema[ty].IsPrimary(p) {
      var c := Chosen(ctx, ty, v, place, p).value;
      if c.Some? {
        db1 := SetProperty(ctx, db, ty, place.row, p, c.value.0, update, c.value.1, depth).db;
        SameKeyUngiven(ctx, t, f, db[t][q], o.name);
        SetKeeps(ctx, db, ty, place.row, p, c.value.0, update, c.value.1, depth, t, q, o.name);
      }
    }
  }

  /** The default of the `i`-th property is written, and nothing changes it afterwards. */
  lemma DefaultSettles(
      ctx: Context, db: Db, ty: string, v: Value, update: bool, place: Place, i: nat, depth: nat, f: Row)
    requires Ready(ctx, db) && ty in ctx.schema && !ctx.inMigration
    requires HasRow(db, ty, place.row) && place.skipPrimary && place.created && i < |ctx.schema[ty].persisted|
    requires Populate(ctx, db, ty, v, update, place, i, depth).out.Ok?
    requires var o := ctx.schema[ty].persisted[i];
             && Keyed(ctx, ty, o, f) && DefaultsAside(ctx, ty, o, f) && HasKey(ctx, db, ty, place.row, f)
             && FieldsUngiven(ctx, ty, v, i, ty, f, o.name)
             && v.Dict? && o.name !in v.fields
             && o.name in db[ty][place.row] && db[ty][place.row][o.name] == EmptyCell(o)
    ensures Settled(ctx, db, Populate(ctx, db, ty, v, update, place, i, depth).db, ty, place.row,
              ctx.schema[ty].persisted[i], depth)
  {
    hide Ready, DefaultsAside, FieldsUngiven, Settled, SetProperty, Chosen, RowKey, PropUngiven, Populate, NotFrom;
    var o := ctx.schema[ty].persisted[i];
    var row := place.row;
    var db1 := AfterDefault(ctx, db, ty, v, update, place, i, depth, f);
    var db' := Populate(ctx, db, ty, v, update, place, i, depth).db;
    ReadyDistinct(ctx, db, ty);
    LaterNames(ctx.schema[ty], i);
    AsideUngiven(ctx, ty, o, f);
    SameKeyUngiven(ctx, ty, f, db1[ty][row], o.name);
    PopulateKeeps(ctx, db1, ty, v, update, place, i + 1, depth, ty, row, o.name);
    PopulateKeyless(ctx, db, db1, ty, v, update, place, i + 1, depth);
    StaysSettled(ctx, db, db1, db', ty, row, o, depth);
  }

  lemma LaterNames(os: ObjectSchema, i: nat)
    requires Distinct(os.persisted) && i < |os.persisted|
    ensures NotFrom(os, i + 1, os.persisted[i].name)
  {
  }

  lemma AfterDefault(
      ctx: Context, db: Db, ty: string, v: Value, update: bool, place: Place, i: nat, depth: nat, f: Row)
    returns (db1: Db)
    requires Ready(ctx, db) && ty in ctx.schema && !ctx.inMigration
    requires HasRow(db, ty, place.row) && place.skipPrimary && place.created && i < |ctx.schema[ty].persisted|
    requires Populate(ctx, db, ty, v, update, place, i, depth).out.Ok?
    requires var o := ctx.schema[ty].persisted[i];
             && Keyed(ctx, ty, o, f) && DefaultsAside(ctx, ty, o, f) && HasKey(ctx, db, ty, place.row, f)
             && FieldsUngiven(ctx, ty, v, i, ty, f, o.name)
             && v.Dict? && o.name !in v.fields
             && o.name in db[ty][place.row] && db[ty][place.row][o.name] == EmptyCell(o)
    ensures Ready(ctx, db1) && Grows(db, db1) && HasKey(ctx, db1, ty, place.row, f)
    ensures FieldsUngiven(ctx, ty, v, i + 1, ty, f, ctx.schema[ty].persisted[i].name)
    ensures Populate(ctx, db1, ty, v, update, place, i + 1, depth) == Populate(ctx, db, ty, v, update, place, i, depth)
    ensures Settled(ctx, db, db1, ty, place.row, ctx.schema[ty].persisted[i], depth)
  {
    hide Ready, SetProperty, DefaultsAside, FieldsUngiven, PropUngiven, RowKey, CellHolds, PropAddresses,
        PropNoRepeat, KeepsKeys;
    var o := ctx.schema[ty].persisted[i];
    var row := place.row;
    db1 := db;
    AsideUngiven(ctx, ty, o, f);
    ChosenUngiven(ctx, ty, v, place, i, ty, f, o.name);
    if DefaultFor(ctx, ty, o.name).Some? {
      var x := DefaultFor(ctx, ty, o.name).value;
      db1 := SetProperty(ctx, db, ty, row, o, x, update, true, depth).db;
      if o.kind.base == Object {
        KeylessDefault(ctx, ty, o, db[ty][row]);
        SetHolds(ctx, db, ty, row, o, x, update, true, depth);
      } else {
        ScalarSetHolds(ctx, db, ty, row, o, x, update, true, depth);
      }
      SetKeepsKeys(ctx, db, ty, row, o, x, update, true, depth);
      KeptRowKey(ctx, db, db1, ty, row);
      if SkipsNull(o, x, true) {
        NullDefault(ctx, db, db1, ty, row, o, depth);
      }
    }
  }

  /** Scalars that were written are held, whatever the defaults are. */
  lemma ScalarSetHolds(
      ctx: Context, db: Db, ty: string, row: nat, p: Property, v: Value, update: bool, isDefault: bool, depth: nat)
    requires Ready(ctx, db) && Column(ctx, db, ty, row, p) && p.kind.base != Object
    requires SetProperty(ctx, db, ty, row, p, v, update, isDefault, depth).out.Ok?
    ensures CellHolds(
              ctx, db, SetProperty(ctx, db, ty, row, p, v, update, isDefault, depth).db, ty, row, p, v, depth)
  {
    hide Ready, Assign, AppendAll, CellHolds, UnboxScalar, PutCell, SchemaOk;
    ColumnPersisted(ctx, db, ty, row, p);
    if p.kind.isNullable && v.Empty? {
      NullHolds(ctx, db, ty, row, p, depth);
    } else if p.kind.isArray {
      ScalarListHolds(ctx, db, ty, row, p, v, update, depth);
    } else {
      ScalarHolds(ctx, db, ty, row, p, v, depth);
    }
  }

  lemma ScalarListHolds(ctx: Context, db: Db, ty: string, row: nat, p: Property, v: Value, update: bool, depth: nat)
    requires Ready(ctx, db) && Column(ctx, db, ty, row, p) && p.kind.isArray && p.kind.base != Object
    requires Assign(ctx, db, ty, row, p, v, update, depth).out.Ok? && (v.Empty? ==> !p.kind.isNullable)
    ensures CellHolds(ctx, db, Assign(ctx, db, ty, row, p, v, update, depth).db, ty, row, p, v, depth)
  {
    hide Ready, AppendAll, ItemHolds, PutCell;
    if v == ListOf(ty, row, p.name) {
      SameListHolds(ctx, db, ty, row, p, v, depth);
    } else if v.Empty? {
      NullListHolds(ctx, db, ty, row, p, v, depth);
    } else {
      var db1 := PutCell(ctx, db, ty, row, p, Items([]));
      PutStores(ctx, db, ty, row, p, Items([]));
      ScalarsAppended(ctx, db, db1, ty, row, p, v.elems, update, depth);
    }
  }

  lemma {:induction false} ScalarsAppended(
      ctx: Context, base: Db, db: Db, ty: string, row: nat, p: Property, vs: seq<Value>, update: bool, depth: nat)
    requires Ready(ctx, db) && Column(ctx, db, ty, row, p) && p.kind.isArray && p.kind.base != Object
    requires AppendAll(ctx, db, ty, row, p, vs, update, depth).out.Ok?
    ensures var s := AppendAll(ctx, db, ty, row, p, vs, update, depth);
            Column(ctx, s.db, ty, row, p) && Appended(ctx, base, s.db, p, ListAt(ctx, db, ty, row, p),
              ListAt(ctx, s.db, ty, row, p), vs, depth)
    decreases |vs|
  {
    hide Ready, AppendOne, PushItem, UnboxItem, ItemHolds, SchemaOk, Appended;
    if vs == [] {
      AppendedNone(ctx, base, db, p, ListAt(ctx, db, ty, row, p), depth);
    } else {
      var db1 := AppendOne(ctx, db, ty, row, p, vs[0], update, depth).db;
      var db' := AppendAll(ctx, db1, ty, row, p, vs[1..], update, depth).db;
      AppendScalarIs(ctx, db, ty, row, p, vs[0], update, depth);
      PushAppends(ctx, db, ty, row, p, UnboxItem(p, vs[0]).value);
      ScalarsAppended(ctx, base, db1, ty, row, p, vs[1..], update, depth);
      ScalarsCons(ctx, base, db', p, ListAt(ctx, db, ty, row, p), ListAt(ctx, db1, ty, row, p),
        ListAt(ctx, db', ty, row, p), vs, depth);
    }
  }

  lemma ScalarsCons(ctx: Context, base: Db, db: Db, p: Property, a: Cell, b: Cell, c: Cell, vs: seq<Value>, n: nat)
    requires p.kind.base != Object && vs != [] && UnboxItem(p, vs[0]).Ok? && a.Items?
    requires b == Items(a.items + [UnboxItem(p, vs[0]).value]) && Appended(ctx, base, db, p, b, c, vs[1..], n)
    ensures Appended(ctx, base, db, p, a, c, vs, n)
  {
    hide UnboxItem, ItemHolds;
    forall i | 0 <= i < |vs| ensures ItemHolds(ctx, base, db, p, c.items[|a.items| + i], vs[i], n) {
      if i == 0 {
        ScalarItemHolds(ctx, base, db, p, vs[0], n);
        assert c.items[|a.items|] == b.items[|a.items|];
      } else {
        assert ItemHolds(ctx, base, db, p, c.items[|b.items| + (i - 1)], vs[1..][i - 1], n);
      }
    }
  }

  lemma KeylessDefault(ctx: Context, ty: string, p: Property, row: Row)
    requires KeylessDefaults(ctx) && ty in ctx.schema && p in ctx.schema[ty].persisted && (ty, p.name) in ctx.defaults
    ensures PropNoRepeat(ctx, p, ctx.defaults[(ty, p.name)]) && PropSpares(ctx, p, ctx.defaults[(ty, p.name)], ty, row)
  {
    hide PropAddresses, PropNoRepeat;
    PropKeylessNoRepeat(ctx, p, ctx.defaults[(ty, p.name)]);
  }

  /** A link left empty holds a default of null. */
  lemma NullDefault(ctx: Context, db: Db, db1: Db, ty: string, row: nat, p: Property, n: nat)
    requires Ready(ctx, db) && Column(ctx, db, ty, row, p) && HasRow(db1, ty, row) && p.kind.base == Object
    requires !p.kind.isArray && (ty, p.name) in ctx.defaults && ctx.defaults[(ty, p.name)].Empty?
    requires p.name in db[ty][row] && db[ty][row][p.name] == EmptyCell(p)
    requires SameCell(db[ty][row], db1[ty][row], p.name)
    ensures Settled(ctx, db, db1, ty, row, p, n)
  {
    hide Ready;
    ColumnPersisted(ctx, db, ty, row, p);
    assert ItemHolds(ctx, db, db1, p, Nil, Empty, n);
  }

  lemma {:induction false} PopulateSettles(
      ctx: Context, db: Db, ty: string, v: Value, update: bool, place: Place, i: nat, depth: nat, t: string, q: nat,
      o: Property, f: Row)
    requires Ready(ctx, db) && ty in ctx.schema && !ctx.inMigration
    requires DefaultsAside(ctx, t, o, f)
    requires HasRow(db, ty, place.row) && place.skipPrimary && i <= |ctx.schema[ty].persisted|
    requires Populate(ctx, db, ty, v, update, place, i, depth).out.Ok?
    requires Keyed(ctx, t, o, f) && FieldsUngiven(ctx, ty, v, i, t, f, o.name)
    requires !HasRow(db, t, q) && HasKey(ctx, Populate(ctx, db, ty, v, update, place, i, depth).db, t, q, f)
    ensures Settled(ctx, db, Populate(ctx, db, ty, v, update, place, i, depth).db, t, q, o, depth)
    decreases depth, 3, |ctx.schema[ty].persisted| - i, 1
  {
    hide Ready, DefaultsAside, FieldsUngiven, Settled, SetProperty, Chosen, RowKey, PropUngiven, KeepsKeys, Keyed;
    var os := ctx.schema[ty];
    if i < |os.persisted| {
      var p := os.persisted[i];
      AsideUngiven(ctx, t, o, f);
      ChosenUngiven(ctx, ty, v, place, i, t, f, o.name);
      if os.IsPrimary(p) {
        PopulateSettles(ctx, db, ty, v, update, place, i + 1, depth, t, q, o, f);
      } else {
        match Chosen(ctx, ty, v, place, p)
        case Err(e) =>
        case Ok(None) => PopulateSettles(ctx, db, ty, v, update, place, i + 1, depth, t, q, o, f);
        case Ok(Some((x, isDefault))) =>
          var s := SetProperty(ctx, db, ty, place.row, p, x, update, isDefault, depth);
          if s.out.Ok? {
            PropertySettles(ctx, db, ty, v, update, place, i, depth, t, q, o, f, x, isDefault);
          }
      }
    }
  }

  /** The object is new in what the `i`-th property is given, or in what comes after it. */
  lemma {:induction false} PropertySettles(
      ctx: Context, db: Db, ty: string, v: Value, update: bool, place: Place, i: nat, depth: nat, t: string, q: nat,
      o: Property, f: Row, x: Value, isDefault: bool)
    requires Ready(ctx, db) && ty in ctx.schema && !ctx.inMigration
    requires DefaultsAside(ctx, t, o, f)
    requires HasRow(db, ty, place.row) && place.skipPrimary && i < |ctx.schema[ty].persisted|
    requires !ctx.schema[ty].IsPrimary(ctx.schema[ty].persisted[i])
    requires SetProperty(ctx, db, ty, place.row, ctx.schema[ty].persisted[i], x, update, isDefault, depth).out.Ok?
    requires var s := SetProperty(ctx, db, ty, place.row, ctx.schema[ty].persisted[i], x, update, isDefault, depth);
             && Populate(ctx, s.db, ty, v, update, place, i + 1, depth).out.Ok?
             && HasKey(ctx, Populate(ctx, s.db, ty, v, update, place, i + 1, depth).db, t, q, f)
    requires Keyed(ctx, t, o, f) && FieldsUngiven(ctx, ty, v, i + 1, t, f, o.name)
    requires PropUngiven(ctx, ctx.schema[ty].persisted[i], x, t, f, o.name) && !HasRow(db, t, q)
    ensures var s := SetProperty(ctx, db, ty, place.row, ctx.schema[ty].persisted[i], x, update, isDefault, depth);
            Settled(ctx, db, Populate(ctx, s.db, ty, v, update, place, i + 1, depth).db, t, q, o, depth)
    decreases depth, 3, |ctx.schema[ty].persisted| - i, 0
  {
    hide Ready, DefaultsAside, FieldsUngiven, Settled, SetProperty, RowKey, PropUngiven, KeepsKeys, Populate;
    var p := ctx.schema[ty].persisted[i];
    var db1 := SetProperty(ctx, db, ty, place.row, p, x, update, isDefault, depth).db;
    var db' := Populate(ctx, db1, ty, v, update, place, i + 1, depth).db;
    if HasRow(db1, t, q) {
      PopulateKeepsKeys(ctx, db1, ty, v, update, place, i + 1, depth);
      KeptRowKey(ctx, db1, db', t, q);
      SetSettles(ctx, db, ty, place.row, p, x, update, isDefault, depth, t, q, o, f);
      AsideUngiven(ctx, t, o, f);
      SameKeyUngiven(ctx, t, f, db1[t][q], o.name);
      PopulateKeeps(ctx, db1, ty, v, update, place, i + 1, depth, t, q, o.name);
      PopulateKeyless(ctx, db, db1, ty, v, update, place, i + 1, depth);
      StaysSettled(ctx, db, db1, db', t, q, o, depth);
    } else {
      PopulateSettles(ctx, db1, ty, v, update, place, i + 1, depth, t, q, o, f);
      SettledWeaken(ctx, db, db1, db', t, q, o, depth);
    }
  }

  lemma {:induction false} SetSettles(
      ctx: Context, db: Db, ty: string, row: nat, p: Property, v: Value, update: bool, isDefault: bool, depth: nat,
      t: string, q: nat, o: Property, f: Row)
    requires Ready(ctx, db) && Column(ctx, db, ty, row, p) && !ctx.inMigration
    requires DefaultsAside(ctx, t, o, f)
    requires SetProperty(ctx, db, ty, row, p, v, update, isDefault, depth).out.Ok? && !ctx.schema[ty].IsPrimary(p)
    requires Keyed(ctx, t, o, f) && PropUngiven(ctx, p, v, t, f, o.name)
    requires !HasRow(db, t, q)
    requires HasKey(ctx, SetProperty(ctx, db, ty, row, p, v, update, isDefault, depth).db, t, q, f)
    ensures Settled(ctx, db, SetProperty(ctx, db, ty, row, p, v, update, isDefault, depth).db, t, q, o, depth)
    decreases depth, 2, 0
  {
    hide Ready, DefaultsAside, Settled, Assign, Unbox, RowKey, PropUngiven, PutCell, SchemaOk, CellFits, Keyed,
        UnboxScalar;
    ColumnPersisted(ctx, db, ty, row, p);
    FitsHere(p);
    if p.kind.isNullable && v.Empty? {
      if !p.kind.isArray && !(p.kind.base == Object && isDefault) {
        PutNoRow(ctx, db, ty, row, p, Nil, t, q);
      }
    } else if p.kind.isArray {
      AssignSettles(ctx, db, ty, row, p, v, update, depth, t, q, o, f);
    } else if p.kind.base == Object {
      OneUngiven(ctx, p, v, t, f, o.name);
      var s := Unbox(ctx, db, p.target, v, update, depth);
      LinkSet(ctx, db, ty, row, p, v, update, isDefault, depth);
      PutNoRow(ctx, s.db, ty, row, p, Link(s.out.value.row), t, q);
      PutOtherRow(ctx, s.db, ty, row, p, Link(s.out.value.row), t, q, o.name);
      UnboxSettles(ctx, db, p.target, v, update, depth, t, q, o, f);
      PutKeyless(ctx, db, s.db, ty, row, p, Link(s.out.value.row));
      KnownProperty(ctx, t, o, f);
      AsideUngiven(ctx, t, o, f);
      StaysSettled(ctx, db, s.db, PutCell(ctx, s.db, ty, row, p, Link(s.out.value.row)), t, q, o, depth);
    } else {
      PutNoRow(ctx, db, ty, row, p, UnboxScalar(p.kind.base, v).value, t, q);
    }
  }

  lemma KnownProperty(ctx: Context, t: string, o: Property, f: Row)
    requires Keyed(ctx, t, o, f)
    ensures t in ctx.schema && o in ctx.schema[t].persisted
  {
  }

  lemma PutNoRow(ctx: Context, db: Db, ty: string, row: nat, p: Property, c: Cell, t: string, q: nat)
    requires Ready(ctx, db) && Column(ctx, db, ty, row, p) && CellFits(p, c)
    ensures HasRow(PutCell(ctx, db, ty, row, p, c), t, q) <==> HasRow(db, t, q)
  {
    hide Ready;
  }

  lemma PutOtherRow(ctx: Context, db: Db, ty: string, row: nat, p: Property, c: Cell, t: string, q: nat, name: string)
    requires Ready(ctx, db) && Column(ctx, db, ty, row, p) && CellFits(p, c)
    ensures HasRow(db, t, q) && (t != ty || q != row) ==>
              PutCell(ctx, db, ty, row, p, c)[t][q] == db[t][q]
              && KeepsCellAndKey(ctx, t, db[t][q], PutCell(ctx, db, ty, row, p, c)[t][q], name)
  {
    hide Ready;
  }

  lemma {:induction false} UnboxSettles(
      ctx: Context, db: Db, ty: string, v: Value, update: bool, depth: nat, t: string, q: nat, o: Property, f: Row)
    requires Ready(ctx, db) && ty in ctx.schema && !ctx.inMigration
    requires DefaultsAside(ctx, t, o, f)
    requires Unbox(ctx, db, ty, v, update, depth).out.Ok?
    requires Keyed(ctx, t, o, f) && Ungiven(ctx, ty, v, t, f, o.name)
    requires !HasRow(db, t, q) && HasKey(ctx, Unbox(ctx, db, ty, v, update, depth).db, t, q, f)
    ensures Settled(ctx, db, Unbox(ctx, db, ty, v, update, depth).db, t, q, o, depth)
    decreases depth, 0, 0
  {
    hide Ready, DefaultsAside, Settled, Create, RowKey, Ungiven, Keyed;
    if !v.RowOf? {
      CreateSettles(ctx, db, ty, v, update, depth - 1, t, q, o, f);
      SettledMore(ctx, db, Create(ctx, db, ty, v, update, depth - 1).db, t, q, o, depth - 1);
    }
  }

  lemma {:induction false} AssignSettles(
      ctx: Context, db: Db, ty: string, row: nat, p: Property, v: Value, update: bool, depth: nat, t: string, q: nat,
      o: Property, f: Row)
    requires Ready(ctx, db) && Column(ctx, db, ty, row, p) && p.kind.isArray && !ctx.inMigration
    requires DefaultsAside(ctx, t, o, f)
    requires Assign(ctx, db, ty, row, p, v, update, depth).out.Ok?
    requires Keyed(ctx, t, o, f) && PropUngiven(ctx, p, v, t, f, o.name)
    requires !HasRow(db, t, q) && HasKey(ctx, Assign(ctx, db, ty, row, p, v, update, depth).db, t, q, f)
    ensures Settled(ctx, db, Assign(ctx, db, ty, row, p, v, update, depth).db, t, q, o, depth)
    decreases depth, 1, if v.Vec? then |v.elems| + 1 else 0
  {
    hide Ready, DefaultsAside, Settled, AppendAll, RowKey, PropUngiven, PutCell, Keyed;
    var db1 := PutCell(ctx, db, ty, row, p, Items([]));
    PutNoRow(ctx, db, ty, row, p, Items([]), t, q);
    if v.Vec? {
      assert v == Vec(v.elems);
      AppendAllSettles(ctx, db1, ty, row, p, v.elems, update, depth, t, q, o, f);
      SettledWeaken(ctx, db, db1, AppendAll(ctx, db1, ty, row, p, v.elems, update, depth).db, t, q, o, depth);
    }
  }

  lemma {:induction false} AppendAllSettles(
      ctx: Context, db: Db, ty: string, row: nat, p: Property, vs: seq<Value>, update: bool, depth: nat, t: string,
      q: nat, o: Property, f: Row)
    requires Ready(ctx, db) && Column(ctx, db, ty, row, p) && p.kind.isArray && !ctx.inMigration
    requires DefaultsAside(ctx, t, o, f)
    requires AppendAll(ctx, db, ty, row, p, vs, update, depth).out.Ok?
    requires Keyed(ctx, t, o, f) && PropUngiven(ctx, p, Vec(vs), t, f, o.name)
    requires !HasRow(db, t, q) && HasKey(ctx, AppendAll(ctx, db, ty, row, p, vs, update, depth).db, t, q, f)
    ensures Settled(ctx, db, AppendAll(ctx, db, ty, row, p, vs, update, depth).db, t, q, o, depth)
    decreases depth, 1, |vs|
  {
    hide Ready, DefaultsAside, Settled, AppendOne, RowKey, PropUngiven, Ungiven, KeepsKeys, Keyed;
    if vs != [] {
      ColumnPersisted(ctx, db, ty, row, p);
      FirstUngiven(ctx, p, vs, t, f, o.name);
      var db1 := AppendOne(ctx, db, ty, row, p, vs[0], update, depth).db;
      var db' := AppendAll(ctx, db1, ty, row, p, vs[1..], update, depth).db;
      if HasRow(db1, t, q) {
        AppendAllKeepsKeys(ctx, db1, ty, row, p, vs[1..], update, depth);
        KeptRowKey(ctx, db1, db', t, q);
        AppendOneSettles(ctx, db, ty, row, p, vs[0], update, depth, t, q, o, f);
        AsideUngiven(ctx, t, o, f);
        SameKeyUngiven(ctx, t, f, db1[t][q], o.name);
        AppendAllKeeps(ctx, db1, ty, row, p, vs[1..], update, depth, t, q, o.name);
        AppendAllKeyless(ctx, db, db1, ty, row, p, vs[1..], update, depth);
        KnownProperty(ctx, t, o, f);
        StaysSettled(ctx, db, db1, db', t, q, o, depth);
      } else {
        AppendAllSettles(ctx, db1, ty, row, p, vs[1..], update, depth, t, q, o, f);
        SettledWeaken(ctx, db, db1, db', t, q, o, depth);
      }
    }
  }

  lemma {:induction false} AppendOneSettles(
      ctx: Context, db: Db, ty: string, row: nat, p: Property, v: Value, update: bool, depth: nat, t: string, q: nat,
      o: Property, f: Row)
    requires Ready(ctx, db) && Column(ctx, db, ty, row, p) && p.kind.isArray && !ctx.inMigration
    requires DefaultsAside(ctx, t, o, f)
    requires AppendOne(ctx, db, ty, row, p, v, update, depth).out.Ok?
    requires Keyed(ctx, t, o, f) && (p.kind.base == Object ==> Ungiven(ctx, p.target, v, t, f, o.name))
    requires !HasRow(db, t, q) && HasKey(ctx, AppendOne(ctx, db, ty, row, p, v, update, depth).db, t, q, f)
    ensures Settled(ctx, db, AppendOne(ctx, db, ty, row, p, v, update, depth).db, t, q, o, depth)
    decreases depth, 1, 0
  {
    hide Ready, DefaultsAside, Settled, Unbox, RowKey, Ungiven, PushItem, SchemaOk, CellFits, Keyed, AppendOne;
    TargetKnown(ctx, db, ty, row, p);
    if p.kind.base == Object {
      AppendOneIs(ctx, db, ty, row, p, v, update, depth);
      var s := Unbox(ctx, db, p.target, v, update, depth);
      var c := Link(s.out.value.row);
      PushOtherRow(ctx, s.db, ty, row, p, c, t, q, o.name);
      UnboxSettles(ctx, db, p.target, v, update, depth, t, q, o, f);
      PushKeyless(ctx, db, s.db, ty, row, p, c);
      KnownProperty(ctx, t, o, f);
      AsideUngiven(ctx, t, o, f);
      StaysSettled(ctx, db, s.db, PushItem(ctx, s.db, ty, row, p, c), t, q, o, depth);
    } else {
      AppendScalarIs(ctx, db, ty, row, p, v, update, depth);
      PushOtherRow(ctx, db, ty, row, p, UnboxItem(p, v).value, t, q, o.name);
    }
  }

  lemma PushOtherRow(ctx: Context, db: Db, ty: string, row: nat, p: Property, c: Cell, t: string, q: nat, name: string)
    requires Ready(ctx, db) && Column(ctx, db, ty, row, p) && p.kind.isArray && ItemFits(p, c)
    ensures HasRow(PushItem(ctx, db, ty, row, p, c), t, q) <==> HasRow(db, t, q)
    ensures HasRow(db, t, q) && (t != ty || q != row) ==>
              PushItem(ctx, db, ty, row, p, c)[t][q] == db[t][q]
              && KeepsCellAndKey(ctx, t, db[t][q], PushItem(ctx, db, ty, row, p, c)[t][q], name)
  {
    assert RowFits(ctx.schema[ty], db[ty][row]);
    hide Ready, PutCell, KeepsCellAndKey;
    var d := Items(db[ty][row][p.name].items + [c]);
    PutNoRow(ctx, db, ty, row, p, d, t, q);
    PutOtherRow(ctx, db, ty, row, p, d, t, q, name);
  }
}
