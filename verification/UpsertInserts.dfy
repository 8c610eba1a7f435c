/** The keys that are stored after a creation, and when creating without update succeeds. */
module UpsertInserts {
  import opened Wrappers
  import opened Schemas
  import opened Tables
  import opened Upsert
  import opened UpsertKeys
  import opened UpsertFrame
  import opened UpsertHolds
  import opened UpsertRefines
  import opened UpsertErrors
  import opened UpsertSetter
  import opened UpsertSucceeds
  import opened UpsertFailures

  /** Some stored row has the key. */
  ghost predicate HasKey(ctx: Context, db: Db, t: string, k: Cell) {
    t in db && exists r | 0 <= r < |db[t]| :: RowKey(ctx, t, db[t][r]) == Some(k)
  }

  lemma HasKeyIsStored(ctx: Context, db: Db, ty: string, pk: Property, k: Cell)
    requires ty in ctx.schema && PrimaryProp(ctx.schema[ty]) == Some(pk)
    ensures HasKey(ctx, db, ty, k) <==> Stored(ctx, db, ty, pk, k)
  {
    if Stored(ctx, db, ty, pk, k) {
      var r :| 0 <= r < |db[ty]| && pk.name in db[ty][r] && db[ty][r][pk.name] == k;
      assert RowKey(ctx, ty, db[ty][r]) == Some(k);
    }
  }

  lemma HasKeyStays(ctx: Context, db: Db, db': Db, t: string, k: Cell)
    requires Ready(ctx, db) && Ready(ctx, db') && KeepsKeys(ctx, db, db') && HasKey(ctx, db, t, k)
    ensures HasKey(ctx, db', t, k)
  {
    hide Ready, KeysUnique;
    var r :| 0 <= r < |db[t]| && RowKey(ctx, t, db[t][r]) == Some(k);
    assert HasRow(db', t, r);
    KeyStored(ctx, db', t, r);
    assert KeyAt(ctx, db', t, r) == KeyAt(ctx, db, t, r);
  }

  // ---- every object of the value gets stored ----

  /** What is required of a key that a value names: it is stored afterwards, and was not before unless updating. */
  ghost predicate Stores(ctx: Context, db: Db, db': Db, update: bool, t: string, k: Cell) {
    HasKey(ctx, db', t, k) && (update || !HasKey(ctx, db, t, k))
  }

  lemma StoresEarlier(ctx: Context, db: Db, db1: Db, db': Db, update: bool, t: string, k: Cell)
    requires Ready(ctx, db) && Ready(ctx, db1) && KeepsKeys(ctx, db, db1) && Stores(ctx, db1, db', update, t, k)
    ensures Stores(ctx, db, db', update, t, k)
  {
    hide Ready, HasKey, KeepsKeys;
    if HasKey(ctx, db, t, k) {
      HasKeyStays(ctx, db, db1, t, k);
    }
  }

  lemma StoresLater(ctx: Context, db: Db, db1: Db, db': Db, update: bool, t: string, k: Cell)
    requires Ready(ctx, db1) && Ready(ctx, db') && KeepsKeys(ctx, db1, db') && Stores(ctx, db, db1, update, t, k)
    ensures Stores(ctx, db, db', update, t, k)
  {
    hide Ready, HasKey, KeepsKeys;
    HasKeyStays(ctx, db1, db', t, k);
  }

  lemma {:induction false} CreateStores(
      ctx: Context, db: Db, ty: string, v: Value, update: bool, depth: nat, t: string, k: Cell)
    requires Ready(ctx, db) && ty in ctx.schema && !ctx.inMigration && Addresses(ctx, ty, v, t, k)
    requires Create(ctx, db, ty, v, update, depth).out.Ok?
    ensures Stores(ctx, db, Create(ctx, db, ty, v, update, depth).db, update, t, k)
    decreases depth, 4, 0
  {
    hide Ready, Locate, Populate, NodeKey, PropAddresses, Stores, KeepsKeys;
    var l := Locate(ctx, db, ty, v, update);
    var s := Create(ctx, db, ty, v, update, depth);
    var os := ctx.schema[ty];
    LocateKeepsKeys(ctx, db, ty, v, update);
    if ty == t && NodeKey(ctx, ty, v) == Some(k) {
      LocateStores(ctx, db, ty, v, update, k);
      PopulateKeepsKeys(ctx, l.db, ty, v, update, l.out.value, 0, depth);
      StoresLater(ctx, db, l.db, s.db, update, t, k);
    } else {
      var p :| p in os.persisted && p.name in v.fields && PropAddresses(ctx, p, v.fields[p.name], t, k);
      var j :| 0 <= j < |os.persisted| && os.persisted[j] == p;
      PopulateStores(ctx, l.db, ty, v, update, l.out.value, 0, depth, j, t, k);
      StoresEarlier(ctx, db, l.db, s.db, update, t, k);
    }
  }

  lemma LocateStores(ctx: Context, db: Db, ty: string, v: Value, update: bool, k: Cell)
    requires Ready(ctx, db) && ty in ctx.schema && !ctx.inMigration && NodeKey(ctx, ty, v) == Some(k)
    requires Locate(ctx, db, ty, v, update).out.Ok?
    ensures Stores(ctx, db, Locate(ctx, db, ty, v, update).db, update, ty, k)
  {
    hide Ready, Locate, KeyOf, Stored, HasKey;
    var l := Locate(ctx, db, ty, v, update);
    var pk := PrimaryProp(ctx.schema[ty]).value;
    LocateIs(ctx, db, ty, v, update);
    LocateKey(ctx, db, ty, v, update);
    HasKeyIsStored(ctx, db, ty, pk, k);
    HasKeyIsStored(ctx, l.db, ty, pk, k);
    KeyTypeOk(ctx, db, ty, pk);
    StoredAt(ctx, l.db, ty, pk, k, l.out.value.row);
  }

  lemma {:induction false} PopulateStores(
      ctx: Context, db: Db, ty: string, v: Value, update: bool, place: Place, i: nat, depth: nat, j: nat, t: string,
      k: Cell)
    requires Ready(ctx, db) && ty in ctx.schema && !ctx.inMigration && HasRow(db, ty, place.row) && place.skipPrimary
    requires v.Dict? && i <= j < |ctx.schema[ty].persisted|
    requires var p := ctx.schema[ty].persisted[j]; p.name in v.fields && PropAddresses(ctx, p, v.fields[p.name], t, k)
    requires Populate(ctx, db, ty, v, update, place, i, depth).out.Ok?
    ensures Stores(ctx, db, Populate(ctx, db, ty, v, update, place, i, depth).db, update, t, k)
    decreases depth, 3, |ctx.schema[ty].persisted| - i
  {
    hide Ready, SetProperty, Chosen, PropAddresses, Stores, KeepsKeys;
    var p := ctx.schema[ty].persisted[i];
    if i == j {
      AddressesObject(ctx, p, v.fields[p.name], t, k);
      LinkIsNoKey(ctx, db, ty, p);
      GivenIsChosen(ctx, ty, v, place, p);
      var s := SetProperty(ctx, db, ty, place.row, p, v.fields[p.name], update, false, depth);
      SetStores(ctx, db, ty, place.row, p, v.fields[p.name], update, false, depth, t, k);
      PopulateKeepsKeys(ctx, s.db, ty, v, update, place, i + 1, depth);
      StoresLater(ctx, db, s.db, Populate(ctx, s.db, ty, v, update, place, i + 1, depth).db, update, t, k);
    } else if ctx.schema[ty].IsPrimary(p) {
      PopulateStores(ctx, db, ty, v, update, place, i + 1, depth, j, t, k);
    } else {
      var c := Chosen(ctx, ty, v, place, p).value;
      if c.None? {
        PopulateStores(ctx, db, ty, v, update, place, i + 1, depth, j, t, k);
      } else {
        var s := SetProperty(ctx, db, ty, place.row, p, c.value.0, update, c.value.1, depth);
        SetKeepsKeys(ctx, db, ty, place.row, p, c.value.0, update, c.value.1, depth);
        PopulateStores(ctx, s.db, ty, v, update, place, i + 1, depth, j, t, k);
        StoresEarlier(ctx, db, s.db, Populate(ctx, s.db, ty, v, update, place, i + 1, depth).db, update, t, k);
      }
    }
  }

  lemma AddressesObject(ctx: Context, p: Property, x: Value, t: string, k: Cell)
    requires PropAddresses(ctx, p, x, t, k)
    ensures p.kind.base == Object && !x.Empty? && (if p.kind.isArray then x.Vec? else x.Dict?)
  {
  }

  lemma {:induction false} SetStores(
      ctx: Context, db: Db, ty: string, row: nat, p: Property, x: Value, update: bool, isDefault: bool, depth: nat,
      t: string, k: Cell)
    requires Ready(ctx, db) && Column(ctx, db, ty, row, p) && !ctx.inMigration && PropAddresses(ctx, p, x, t, k)
    requires SetProperty(ctx, db, ty, row, p, x, update, isDefault, depth).out.Ok?
    ensures Stores(ctx, db, SetProperty(ctx, db, ty, row, p, x, update, isDefault, depth).db, update, t, k)
    decreases depth, 2, 0
  {
    hide Ready, Create, Assign, PutCell, Addresses, Stores, KeepsKeys, SchemaOk, CellFits;
    AddressesObject(ctx, p, x, t, k);
    LinkIsNoKey(ctx, db, ty, p);
    FitsHere(p);
    if p.kind.isArray {
      AssignStores(ctx, db, ty, row, p, x, update, depth, t, k);
    } else {
      TargetKnown(ctx, db, ty, row, p);
      CreateStores(ctx, db, p.target, x, update, depth - 1, t, k);
      var c := Create(ctx, db, p.target, x, update, depth - 1);
      PutKeepsKeys(ctx, c.db, ty, row, p, Link(c.out.value));
      StoresLater(ctx, db, c.db, PutCell(ctx, c.db, ty, row, p, Link(c.out.value)), update, t, k);
    }
  }

  lemma {:induction false} AssignStores(
      ctx: Context, db: Db, ty: string, row: nat, p: Property, x: Value, update: bool, depth: nat, t: string, k: Cell)
    requires Ready(ctx, db) && Column(ctx, db, ty, row, p) && !ctx.inMigration && PropAddresses(ctx, p, x, t, k)
    requires p.kind.isArray && Assign(ctx, db, ty, row, p, x, update, depth).out.Ok?
    ensures Stores(ctx, db, Assign(ctx, db, ty, row, p, x, update, depth).db, update, t, k)
    decreases depth, 1, if x.Vec? then |x.elems| + 1 else 0
  {
    hide Ready, AppendAll, PutCell, Addresses, Stores, KeepsKeys;
    LinkIsNoKey(ctx, db, ty, p);
    var e :| 0 <= e < |x.elems| && Addresses(ctx, p.target, x.elems[e], t, k);
    var db1 := PutCell(ctx, db, ty, row, p, Items([]));
    assert x == Vec(x.elems);
    PutKeepsKeys(ctx, db, ty, row, p, Items([]));
    AppendAllStores(ctx, db1, ty, row, p, x.elems, update, depth, e, t, k);
    StoresEarlier(ctx, db, db1, AppendAll(ctx, db1, ty, row, p, x.elems, update, depth).db, update, t, k);
  }

  lemma {:induction false} AppendAllStores(
      ctx: Context, db: Db, ty: string, row: nat, p: Property, vs: seq<Value>, update: bool, depth: nat, e: nat,
      t: string, k: Cell)
    requires Ready(ctx, db) && Column(ctx, db, ty, row, p) && !ctx.inMigration && p.kind.isArray
    requires p.kind.base == Object && e < |vs| && Addresses(ctx, p.target, vs[e], t, k)
    requires AppendAll(ctx, db, ty, row, p, vs, update, depth).out.Ok?
    ensures Stores(ctx, db, AppendAll(ctx, db, ty, row, p, vs, update, depth).db, update, t, k)
    decreases depth, 1, |vs|
  {
    hide Ready, AppendOne, Addresses, Stores, KeepsKeys;
    LinkIsNoKey(ctx, db, ty, p);
    var s := AppendOne(ctx, db, ty, row, p, vs[0], update, depth);
    var s' := AppendAll(ctx, s.db, ty, row, p, vs[1..], update, depth);
    if e == 0 {
      AppendOneStores(ctx, db, ty, row, p, vs[0], update, depth, t, k);
      AppendAllKeepsKeys(ctx, s.db, ty, row, p, vs[1..], update, depth);
      StoresLater(ctx, db, s.db, s'.db, update, t, k);
    } else {
      AppendOneKeepsKeys(ctx, db, ty, row, p, vs[0], update, depth);
      AppendAllStores(ctx, s.db, ty, row, p, vs[1..], update, depth, e - 1, t, k);
      StoresEarlier(ctx, db, s.db, s'.db, update, t, k);
    }
  }

  lemma {:induction false} AppendOneStores(
      ctx: Context, db: Db, ty: string, row: nat, p: Property, x: Value, update: bool, depth: nat, t: string, k: Cell)
    requires Ready(ctx, db) && Column(ctx, db, ty, row, p) && !ctx.inMigration && p.kind.isArray
    requires p.kind.base == Object && Addresses(ctx, p.target, x, t, k)
    requires AppendOne(ctx, db, ty, row, p, x, update, depth).out.Ok?
    ensures Stores(ctx, db, AppendOne(ctx, db, ty, row, p, x, update, depth).db, update, t, k)
    decreases depth, 1, 0
  {
    hide Ready, Create, PushItem, Stores, KeepsKeys, NodeKey, PropAddresses;
    LinkIsNoKey(ctx, db, ty, p);
    TargetKnown(ctx, db, ty, row, p);
    CreateStores(ctx, db, p.target, x, update, depth - 1, t, k);
    var c := Create(ctx, db, p.target, x, update, depth - 1);
    PushKeepsKeys(ctx, c.db, ty, row, p, Link(c.out.value));
    StoresLater(ctx, db, c.db, PushItem(ctx, c.db, ty, row, p, Link(c.out.value)), update, t, k);
  }

  // ---- nothing else gets stored ----

  /** No object written down in a default has the key. */
  ghost predicate DefaultsMiss(ctx: Context, t: string, k: Cell) {
    forall ty, p | ty in ctx.schema && p in ctx.schema[ty].persisted && (ty, p.name) in ctx.defaults ::
      !PropAddresses(ctx, p, ctx.defaults[(ty, p.name)], t, k)
  }

  lemma {:induction false} CreateAddsNoKey(
      ctx: Context, db: Db, ty: string, v: Value, update: bool, depth: nat, t: string, k: Cell)
    requires Ready(ctx, db) && ty in ctx.schema && !ctx.inMigration && DefaultsMiss(ctx, t, k)
    requires !HasKey(ctx, db, t, k) && !Addresses(ctx, ty, v, t, k)
    ensures !HasKey(ctx, Create(ctx, db, ty, v, update, depth).db, t, k)
    decreases depth, 4, 0
  {
    hide Ready, Locate, Populate, NodeKey, PropAddresses, HasKey, DefaultsMiss;
    var l := Locate(ctx, db, ty, v, update);
    NoNodeKey(ctx, ty, v, t, k);
    LocateAddsNoKey(ctx, db, ty, v, update, t, k);
    if ctx.inWrite && l.out.Ok? {
      PopulateAddsNoKey(ctx, l.db, ty, v, update, l.out.value, 0, depth, t, k);
    }
  }

  lemma NoNodeKey(ctx: Context, ty: string, v: Value, t: string, k: Cell)
    requires ty in ctx.schema && !Addresses(ctx, ty, v, t, k)
    ensures ty == t ==> NodeKey(ctx, ty, v) != Some(k)
    ensures forall p | v.Dict? && p in ctx.schema[ty].persisted && p.name in v.fields ::
              !PropAddresses(ctx, p, v.fields[p.name], t, k)
  {
  }

  lemma LocateAddsNoKey(ctx: Context, db: Db, ty: string, v: Value, update: bool, t: string, k: Cell)
    requires Ready(ctx, db) && ty in ctx.schema && !ctx.inMigration
    requires !HasKey(ctx, db, t, k) && (ty == t ==> NodeKey(ctx, ty, v) != Some(k))
    ensures !HasKey(ctx, Locate(ctx, db, ty, v, update).db, t, k)
  {
    hide Ready, Locate, KeyOf, Stored;
    var db' := Locate(ctx, db, ty, v, update).db;
    ReadySchema(ctx, db, ty);
    LocateIs(ctx, db, ty, v, update);
    if t in db {
      forall r | 0 <= r < |db'[t]| ensures RowKey(ctx, t, db'[t][r]) != Some(k) {
        if r < |db[t]| {
          LocateSpares(ctx, db, ty, v, update, t, r);
          OtherKey(ctx, db, t, r, k);
        }
      }
    }
  }

  lemma OtherKey(ctx: Context, db: Db, t: string, r: nat, k: Cell)
    requires HasRow(db, t, r) && !HasKey(ctx, db, t, k)
    ensures RowKey(ctx, t, db[t][r]) != Some(k)
  {
  }

  lemma {:induction false} PopulateAddsNoKey(
      ctx: Context, db: Db, ty: string, v: Value, update: bool, place: Place, i: nat, depth: nat, t: string, k: Cell)
    requires Ready(ctx, db) && ty in ctx.schema && !ctx.inMigration && DefaultsMiss(ctx, t, k)
    requires HasRow(db, ty, place.row) && place.skipPrimary && i <= |ctx.schema[ty].persisted|
    requires forall p | v.Dict? && p in ctx.schema[ty].persisted && p.name in v.fields ::
               !PropAddresses(ctx, p, v.fields[p.name], t, k)
    requires !HasKey(ctx, db, t, k)
    ensures !HasKey(ctx, Populate(ctx, db, ty, v, update, place, i, depth).db, t, k)
    decreases depth, 3, |ctx.schema[ty].persisted| - i
  {
    hide Ready, SetProperty, Chosen, PropAddresses, HasKey, DefaultsMiss;
    var os := ctx.schema[ty];
    if i < |os.persisted| {
      var p := os.persisted[i];
      if os.IsPrimary(p) {
        PopulateAddsNoKey(ctx, db, ty, v, update, place, i + 1, depth, t, k);
      } else {
        match Chosen(ctx, ty, v, place, p)
        case Err(_) =>
        case Ok(None) => PopulateAddsNoKey(ctx, db, ty, v, update, place, i + 1, depth, t, k);
        case Ok(Some((x, isDefault))) =>
          ChosenMisses(ctx, ty, v, place, p, t, k);
          SetAddsNoKey(ctx, db, ty, place.row, p, x, update, isDefault, depth, t, k);
          var s := SetProperty(ctx, db, ty, place.row, p, x, update, isDefault, depth);
          if s.out.Ok? {
            PopulateAddsNoKey(ctx, s.db, ty, v, update, place, i + 1, depth, t, k);
          }
      }
    }
  }

  lemma ChosenMisses(ctx: Context, ty: string, v: Value, place: Place, p: Property, t: string, k: Cell)
    requires ty in ctx.schema && DefaultsMiss(ctx, t, k) && p in ctx.schema[ty].persisted
    requires v.Dict? && p.name in v.fields ==> !PropAddresses(ctx, p, v.fields[p.name], t, k)
    ensures var c := Chosen(ctx, ty, v, place, p);
            c.Ok? && c.value.Some? ==> !PropAddresses(ctx, p, c.value.value.0, t, k)
  {
    hide PropAddresses;
  }

  lemma PutAddsNoKey(ctx: Context, db: Db, ty: string, row: nat, p: Property, c: Cell, t: string, k: Cell)
    requires Ready(ctx, db) && Column(ctx, db, ty, row, p) && CellFits(p, c) && !ctx.schema[ty].IsPrimary(p)
    requires !HasKey(ctx, db, t, k)
    ensures !HasKey(ctx, PutCell(ctx, db, ty, row, p, c), t, k)
  {
    hide Ready, CellFits;
    var db' := PutCell(ctx, db, ty, row, p, c);
    if t in db {
      forall r | 0 <= r < |db'[t]| ensures RowKey(ctx, t, db'[t][r]) != Some(k) {
        assert HasRow(db, t, r);
        OtherKey(ctx, db, t, r, k);
      }
    }
  }

  lemma {:induction false} SetAddsNoKey(
      ctx: Context, db: Db, ty: string, row: nat, p: Property, x: Value, update: bool, isDefault: bool, depth: nat,
      t: string, k: Cell)
    requires Ready(ctx, db) && Column(ctx, db, ty, row, p) && !ctx.inMigration && !ctx.schema[ty].IsPrimary(p)
    requires DefaultsMiss(ctx, t, k) && !HasKey(ctx, db, t, k) && !PropAddresses(ctx, p, x, t, k)
    ensures !HasKey(ctx, SetProperty(ctx, db, ty, row, p, x, update, isDefault, depth).db, t, k)
    decreases depth, 2, 0
  {
    hide Ready, Assign, Unbox, PutCell, HasKey, DefaultsMiss, SchemaOk, CellFits, Addresses, UnboxScalar;
    ColumnPersisted(ctx, db, ty, row, p);
    FitsHere(p);
    if p.kind.isNullable && x.Empty? {
      if !p.kind.isArray {
        PutAddsNoKey(ctx, db, ty, row, p, Nil, t, k);
      }
    } else if p.kind.isArray {
      AssignAddsNoKey(ctx, db, ty, row, p, x, update, depth, t, k);
    } else if p.kind.base == Object {
      UnboxAddsNoKey(ctx, db, p.target, x, update, depth, t, k);
      var u := Unbox(ctx, db, p.target, x, update, depth);
      if u.out.Ok? {
        PutAddsNoKey(ctx, u.db, ty, row, p, Link(u.out.value.row), t, k);
      }
    } else if UnboxScalar(p.kind.base, x).Ok? {
      PutAddsNoKey(ctx, db, ty, row, p, UnboxScalar(p.kind.base, x).value, t, k);
    }
  }

  lemma {:induction false} UnboxAddsNoKey(
      ctx: Context, db: Db, ty: string, v: Value, update: bool, depth: nat, t: string, k: Cell)
    requires Ready(ctx, db) && ty in ctx.schema && !ctx.inMigration && DefaultsMiss(ctx, t, k)
    requires !HasKey(ctx, db, t, k) && !Addresses(ctx, ty, v, t, k)
    ensures !HasKey(ctx, Unbox(ctx, db, ty, v, update, depth).db, t, k)
    decreases depth, 0, 0
  {
    hide Ready, Create, HasKey, DefaultsMiss, Addresses;
    if !v.RowOf? && depth > 0 {
      CreateAddsNoKey(ctx, db, ty, v, update, depth - 1, t, k);
    }
  }

  lemma {:induction false} AssignAddsNoKey(
      ctx: Context, db: Db, ty: string, row: nat, p: Property, x: Value, update: bool, depth: nat, t: string, k: Cell)
    requires Ready(ctx, db) && Column(ctx, db, ty, row, p) && !ctx.inMigration && !ctx.schema[ty].IsPrimary(p)
    requires p.kind.isArray && DefaultsMiss(ctx, t, k) && !HasKey(ctx, db, t, k) && !PropAddresses(ctx, p, x, t, k)
    ensures !HasKey(ctx, Assign(ctx, db, ty, row, p, x, update, depth).db, t, k)
    decreases depth, 1, if x.Vec? then |x.elems| + 1 else 0
  {
    hide Ready, AppendAll, PutCell, HasKey, DefaultsMiss, Addresses;
    PutAddsNoKey(ctx, db, ty, row, p, Items([]), t, k);
    if x.Vec? {
      assert x == Vec(x.elems);
      AppendAllAddsNoKey(ctx, PutCell(ctx, db, ty, row, p, Items([])), ty, row, p, x.elems, update, depth, t, k);
    }
  }

  lemma {:induction false} AppendAllAddsNoKey(
      ctx: Context, db: Db, ty: string, row: nat, p: Property, vs: seq<Value>, update: bool, depth: nat, t: string,
      k: Cell)
    requires Ready(ctx, db) && Column(ctx, db, ty, row, p) && !ctx.inMigration && !ctx.schema[ty].IsPrimary(p)
    requires p.kind.isArray && DefaultsMiss(ctx, t, k) && !HasKey(ctx, db, t, k)
    requires p.kind.base == Object ==> forall e | 0 <= e < |vs| :: !Addresses(ctx, p.target, vs[e], t, k)
    ensures !HasKey(ctx, AppendAll(ctx, db, ty, row, p, vs, update, depth).db, t, k)
    decreases depth, 1, |vs|
  {
    hide Ready, AppendOne, HasKey, DefaultsMiss, Addresses;
    if vs != [] {
      AppendOneAddsNoKey(ctx, db, ty, row, p, vs[0], update, depth, t, k);
      var s := AppendOne(ctx, db, ty, row, p, vs[0], update, depth);
      if s.out.Ok? {
        AppendAllAddsNoKey(ctx, s.db, ty, row, p, vs[1..], update, depth, t, k);
      }
    }
  }

  lemma PushAddsNoKey(ctx: Context, db: Db, ty: string, row: nat, p: Property, c: Cell, t: string, k: Cell)
    requires Ready(ctx, db) && Column(ctx, db, ty, row, p) && p.kind.isArray && ItemFits(p, c)
    requires !ctx.schema[ty].IsPrimary(p) && !HasKey(ctx, db, t, k)
    ensures !HasKey(ctx, PushItem(ctx, db, ty, row, p, c), t, k)
  {
    var a := ListAt(ctx, db, ty, row, p);
    assert RowFits(ctx.schema[ty], db[ty][row]);
    hide HasKey, Shape, SchemaOk, PutCell;
    PutAddsNoKey(ctx, db, ty, row, p, Items(a.items + [c]), t, k);
  }

  lemma {:induction false} AppendOneAddsNoKey(
      ctx: Context, db: Db, ty: string, row: nat, p: Property, x: Value, update: bool, depth: nat, t: string, k: Cell)
    requires Ready(ctx, db) && Column(ctx, db, ty, row, p) && !ctx.inMigration && !ctx.schema[ty].IsPrimary(p)
    requires p.kind.isArray && DefaultsMiss(ctx, t, k) && !HasKey(ctx, db, t, k)
    requires p.kind.base == Object ==> !Addresses(ctx, p.target, x, t, k)
    ensures !HasKey(ctx, AppendOne(ctx, db, ty, row, p, x, update, depth).db, t, k)
    decreases depth, 1, 0
  {
    hide Ready, Unbox, PushItem, HasKey, DefaultsMiss, SchemaOk, Addresses, UnboxItem;
    ColumnPersisted(ctx, db, ty, row, p);
    if p.kind.base == Object {
      UnboxAddsNoKey(ctx, db, p.target, x, update, depth, t, k);
      var u := Unbox(ctx, db, p.target, x, update, depth);
      if u.out.Ok? {
        PushAddsNoKey(ctx, u.db, ty, row, p, Link(u.out.value.row), t, k);
      }
    } else if UnboxItem(p, x).Ok? {
      PushAddsNoKey(ctx, db, ty, row, p, UnboxItem(p, x).value, t, k);
    } else if UnboxItem(p, x) == Err(NullNotAllowed) {
      PushAddsNoKey(ctx, db, ty, row, p, Atom(ZeroScalar(p.kind.base)), t, k);
    }
  }

  /**
   * The keys stored after a creation that returns are those stored before and those of the objects
   * in the value, at any depth, and no others, when defaults hold no objects with keys.
   */
  lemma KeysAfter(ctx: Context, db: Db, ty: string, v: Value, update: bool, depth: nat, t: string, k: Cell)
    requires Ready(ctx, db) && ty in ctx.schema && !ctx.inMigration && KeylessDefaults(ctx)
    requires Create(ctx, db, ty, v, update, depth).out.Ok?
    ensures HasKey(ctx, Create(ctx, db, ty, v, update, depth).db, t, k) <==>
              HasKey(ctx, db, t, k) || Addresses(ctx, ty, v, t, k)
  {
    hide Ready, Create, HasKey, Addresses, KeepsKeys;
    KeylessMiss(ctx, t, k);
    if Addresses(ctx, ty, v, t, k) {
      CreateStores(ctx, db, ty, v, update, depth, t, k);
    } else if HasKey(ctx, db, t, k) {
      CreateKeepsKeys(ctx, db, ty, v, update, depth);
      HasKeyStays(ctx, db, Create(ctx, db, ty, v, update, depth).db, t, k);
    } else {
      CreateAddsNoKey(ctx, db, ty, v, update, depth, t, k);
    }
  }

  lemma KeylessMiss(ctx: Context, t: string, k: Cell)
    requires KeylessDefaults(ctx)
    ensures DefaultsMiss(ctx, t, k)
  {
    hide PropAddresses;
  }
}
