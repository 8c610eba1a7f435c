/** Creating without update: which values can be created as new objects. */
module UpsertInsertIff {
  import opened Wrappers
  import opened Schemas
  import opened Tables
  import opened Upsert
  import opened UpsertKeys
  import opened UpsertFrame
  import opened UpsertHolds
  import opened UpsertRefines
  import opened UpsertErrors
  import opened UpsertSetter
  import opened UpsertSucceeds
  import opened UpsertFailures
  import opened UpsertInserts

  /** No object in the value is stored yet. */
  ghost predicate Unstored(ctx: Context, db: Db, ty: string, v: Value) {
    forall t, k :: Addresses(ctx, ty, v, t, k) ==> !HasKey(ctx, db, t, k)
  }

  ghost predicate PropUnstored(ctx: Context, db: Db, p: Property, x: Value) {
    forall t, k :: PropAddresses(ctx, p, x, t, k) ==> !HasKey(ctx, db, t, k)
  }

  /** No object given to the properties from the `i`-th on is stored yet. */
  ghost predicate FieldsUnstored(ctx: Context, db: Db, ty: string, v: Value, i: nat)
    requires ty in ctx.schema
  {
    v.Dict? ==> forall j | i <= j < |ctx.schema[ty].persisted| && ctx.schema[ty].persisted[j].name in v.fields ::
      PropUnstored(ctx, db, ctx.schema[ty].persisted[j], v.fields[ctx.schema[ty].persisted[j].name])
  }

  // ---- new and different objects can be created ----

  /**
   * In a write transaction that is no migration, creating without update succeeds for every value
   * that fits its type, names no object twice, and names none that is stored.
   */
  lemma {:induction false} InsertSucceeds(ctx: Context, db: Db, ty: string, v: Value, depth: nat)
    requires Ready(ctx, db) && ctx.inWrite && !ctx.inMigration && KeylessDefaults(ctx)
    requires Conforms(ctx, db, ty, v, depth, true) && NoRepeat(ctx, ty, v) && Unstored(ctx, db, ty, v)
    ensures Create(ctx, db, ty, v, false, depth).out.Ok?
    decreases depth, 4, 0
  {
    hide Ready, Locate, Populate, KeyGiven, FieldConforms, Unstored, NoRepeat, KeylessDefaults, FieldsUnstored;
    LocateNewRoot(ctx, db, ty, v);
    var l := Locate(ctx, db, ty, v, false);
    FieldsAfterRoot(ctx, db, ty, v);
    ConformsCarries(ctx, db, l.db, ty, v, depth, true, true);
    PopulateInserts(ctx, l.db, ty, v, l.out.value, 0, depth);
  }

  lemma LocateNewRoot(ctx: Context, db: Db, ty: string, v: Value)
    requires Ready(ctx, db) && ty in ctx.schema && !ctx.inMigration && KeyGiven(ctx, ty, v)
    requires Unstored(ctx, db, ty, v)
    ensures Locate(ctx, db, ty, v, false).out.Ok? && Locate(ctx, db, ty, v, false).out.value.skipPrimary
  {
    hide Ready, Locate, KeyOf, Appends, Asks, ReadsAs, Stored, HasKey;
    LocateIs(ctx, db, ty, v, false);
    match PrimaryProp(ctx.schema[ty])
    case None =>
    case Some(pk) =>
      KeyTypeOk(ctx, db, ty, pk);
      KeyOfIs(ctx, ty, pk, v);
      var x, key :| Asks(ctx, ty, pk, v, x) && ReadsAs(pk, x, key);
      assert KeyOf(ctx, ty, pk, v) == Ok(key);
      RootAddressed(ctx, ty, v, key);
      HasKeyIsStored(ctx, db, ty, pk, key);
  }

  lemma RootAddressed(ctx: Context, ty: string, v: Value, key: Cell)
    requires ty in ctx.schema && PrimaryProp(ctx.schema[ty]).Some?
    requires KeyOf(ctx, ty, PrimaryProp(ctx.schema[ty]).value, v) == Ok(key)
    ensures Addresses(ctx, ty, v, ty, key)
  {
    hide PropAddresses;
  }

  lemma FieldsAfterRoot(ctx: Context, db: Db, ty: string, v: Value)
    requires Ready(ctx, db) && ty in ctx.schema && !ctx.inMigration && NoRepeat(ctx, ty, v) && Unstored(ctx, db, ty, v)
    ensures FieldsUnstored(ctx, Locate(ctx, db, ty, v, false).db, ty, v, 0)
  {
    hide Ready, Locate, HasKey, PropAddresses, NodeKey, PropNoRepeat, Apart;
    var l := Locate(ctx, db, ty, v, false);
    var ps := ctx.schema[ty].persisted;
    forall j, t, k | v.Dict? && 0 <= j < |ps| && ps[j].name in v.fields
                     && PropAddresses(ctx, ps[j], v.fields[ps[j].name], t, k)
      ensures !HasKey(ctx, l.db, t, k)
    {
      assert ps[j] in ps;
      assert Addresses(ctx, ty, v, t, k);
      LocateAddsNoKey(ctx, db, ty, v, false, t, k);
    }
  }

  lemma {:induction false} PopulateInserts(
      ctx: Context, db: Db, ty: string, v: Value, place: Place, i: nat, depth: nat)
    requires Ready(ctx, db) && ctx.inWrite && !ctx.inMigration && KeylessDefaults(ctx)
    requires Conforms(ctx, db, ty, v, depth, true) && NoRepeat(ctx, ty, v)
    requires ty in ctx.schema && HasRow(db, ty, place.row) && place.skipPrimary && i <= |ctx.schema[ty].persisted|
    requires FieldsUnstored(ctx, db, ty, v, i)
    ensures Populate(ctx, db, ty, v, false, place, i, depth).out.Ok?
    decreases depth, 3, |ctx.schema[ty].persisted| - i
  {
    hide Ready, SetProperty, Conforms, Chosen, PropConforms, FieldConforms, NoRepeat, KeylessDefaults, FieldsUnstored,
        PropUnstored, PropNoRepeat, ApartFrom;
    var os := ctx.schema[ty];
    if i < |os.persisted| {
      var p := os.persisted[i];
      FieldsLater(ctx, db, ty, v, i);
      if os.IsPrimary(p) {
        PopulateInserts(ctx, db, ty, v, place, i + 1, depth);
      } else {
        FieldOf(ctx, db, ty, v, p, depth);
        ChosenFits(ctx, db, ty, v, place, i, depth);
        var c := Chosen(ctx, ty, v, place, p).value;
        if c.None? {
          PopulateInserts(ctx, db, ty, v, place, i + 1, depth);
        } else {
          ChosenUnstored(ctx, db, ty, v, place, i);
          ChosenIsApart(ctx, ty, v, place, i);
          SetInserts(ctx, db, ty, place.row, p, c.value.0, c.value.1, depth);
          var s := SetProperty(ctx, db, ty, place.row, p, c.value.0, false, c.value.1, depth);
          ConformsCarries(ctx, db, s.db, ty, v, depth, true, true);
          FieldsAfterSet(ctx, db, ty, place.row, v, i, c.value.0, c.value.1, depth);
          PopulateInserts(ctx, s.db, ty, v, place, i + 1, depth);
        }
      }
    }
  }

  lemma FieldsLater(ctx: Context, db: Db, ty: string, v: Value, i: nat)
    requires ty in ctx.schema && FieldsUnstored(ctx, db, ty, v, i)
    ensures FieldsUnstored(ctx, db, ty, v, i + 1)
  {
    hide PropUnstored;
  }

  lemma ChosenUnstored(ctx: Context, db: Db, ty: string, v: Value, place: Place, i: nat)
    requires ty in ctx.schema && KeylessDefaults(ctx) && i < |ctx.schema[ty].persisted|
    requires FieldsUnstored(ctx, db, ty, v, i)
    ensures var p := ctx.schema[ty].persisted[i];
            var c := Chosen(ctx, ty, v, place, p);
            c.Ok? && c.value.Some? ==> PropUnstored(ctx, db, p, c.value.value.0)
  {
    hide PropAddresses, HasKey;
    assert ctx.schema[ty].persisted[i] in ctx.schema[ty].persisted;
  }

  /** What is given to the later properties is still not stored when one property was written. */
  lemma FieldsAfterSet(
      ctx: Context, db: Db, ty: string, row: nat, v: Value, i: nat, x: Value, isDefault: bool, depth: nat)
    requires Ready(ctx, db) && ty in ctx.schema && !ctx.inMigration && KeylessDefaults(ctx)
    requires i < |ctx.schema[ty].persisted| && Column(ctx, db, ty, row, ctx.schema[ty].persisted[i])
    requires !ctx.schema[ty].IsPrimary(ctx.schema[ty].persisted[i])
    requires FieldsUnstored(ctx, db, ty, v, i + 1) && ApartFrom(ctx, ty, v, i + 1, ctx.schema[ty].persisted[i], x)
    ensures FieldsUnstored(
              ctx, SetProperty(ctx, db, ty, row, ctx.schema[ty].persisted[i], x, false, isDefault, depth).db, ty, v,
              i + 1)
  {
    hide Ready, SetProperty, HasKey, PropAddresses, KeylessDefaults, DefaultsMiss;
    var ps := ctx.schema[ty].persisted;
    var s := SetProperty(ctx, db, ty, row, ps[i], x, false, isDefault, depth);
    forall j, t, k | v.Dict? && i + 1 <= j < |ps| && ps[j].name in v.fields
                     && PropAddresses(ctx, ps[j], v.fields[ps[j].name], t, k)
      ensures !HasKey(ctx, s.db, t, k)
    {
      KeylessMiss(ctx, t, k);
      assert Apart(ctx, ps[i], x, ps[j], v.fields[ps[j].name]);
      assert PropUnstored(ctx, db, ps[j], v.fields[ps[j].name]);
      SetAddsNoKey(ctx, db, ty, row, ps[i], x, false, isDefault, depth, t, k);
    }
  }

  lemma {:induction false} SetInserts(
      ctx: Context, db: Db, ty: string, row: nat, p: Property, x: Value, isDefault: bool, depth: nat)
    requires Ready(ctx, db) && ctx.inWrite && !ctx.inMigration && KeylessDefaults(ctx) && Column(ctx, db, ty, row, p)
    requires !ctx.schema[ty].IsPrimary(p)
    requires PropConforms(ctx, db, p, x, depth, true) && PropNoRepeat(ctx, p, x) && PropUnstored(ctx, db, p, x)
    ensures SetProperty(ctx, db, ty, row, p, x, false, isDefault, depth).out.Ok?
    decreases depth, 2, 0
  {
    hide Ready, Assign, Unbox, PutCell, ObjectConforms, CellFits, NoRepeat, KeylessDefaults, HasKey, Addresses;
    NullableObject(ctx, db, ty, p);
    if p.kind.isArray {
      AssignInserts(ctx, db, ty, row, p, x, depth);
    } else if p.kind.base == Object && !x.Empty? {
      OneUnstored(ctx, db, p, x);
      UnboxInserts(ctx, db, p.target, x, depth);
    }
  }

  lemma OneUnstored(ctx: Context, db: Db, p: Property, x: Value)
    requires p.kind.base == Object && !p.kind.isArray && PropUnstored(ctx, db, p, x)
    ensures Unstored(ctx, db, p.target, x)
  {
    hide HasKey, Addresses;
    forall t, k | Addresses(ctx, p.target, x, t, k) ensures !HasKey(ctx, db, t, k) {
      assert PropAddresses(ctx, p, x, t, k);
    }
  }

  lemma {:induction false} UnboxInserts(ctx: Context, db: Db, ty: string, v: Value, depth: nat)
    requires Ready(ctx, db) && ctx.inWrite && !ctx.inMigration && KeylessDefaults(ctx) && ty in ctx.schema
    requires ObjectConforms(ctx, db, ty, v, depth, true) && NoRepeat(ctx, ty, v) && Unstored(ctx, db, ty, v)
    ensures var s := Unbox(ctx, db, ty, v, false, depth);
            && s.out.Ok? && HasRow(s.db, ty, s.out.value.row)
            && s.out.value.table == if v.RowOf? then v.table else ty
    decreases depth, 0, 0
  {
    hide Ready, Create, Conforms, NoRepeat, Unstored, KeylessDefaults;
    if !v.RowOf? {
      InsertSucceeds(ctx, db, ty, v, depth - 1);
    }
  }

  /** Elements of a list that fit it, name no object twice, and none that is stored. */
  ghost predicate NewElements(ctx: Context, db: Db, p: Property, vs: seq<Value>, depth: nat) {
    && (forall i | 0 <= i < |vs| :: ElementConforms(ctx, db, p, vs[i], depth, true))
    && (p.kind.base == Object ==>
          && (forall i | 0 <= i < |vs| :: NoRepeat(ctx, p.target, vs[i]) && Unstored(ctx, db, p.target, vs[i]))
          && (forall i, j | 0 <= i < j < |vs| :: ElemsApart(ctx, p.target, vs[i], vs[j])))
  }

  lemma {:induction false} AssignInserts(
      ctx: Context, db: Db, ty: string, row: nat, p: Property, x: Value, depth: nat)
    requires Ready(ctx, db) && ctx.inWrite && !ctx.inMigration && KeylessDefaults(ctx) && Column(ctx, db, ty, row, p)
    requires p.kind.isArray && !ctx.schema[ty].IsPrimary(p)
    requires PropConforms(ctx, db, p, x, depth, true) && PropNoRepeat(ctx, p, x) && PropUnstored(ctx, db, p, x)
    ensures Assign(ctx, db, ty, row, p, x, false, depth).out.Ok?
    decreases depth, 1, if x.Vec? then |x.elems| + 1 else 0
  {
    hide Ready, AppendAll, PutCell, ElementConforms, NoRepeat, KeylessDefaults, NewElements;
    if x.Vec? {
      assert x == Vec(x.elems);
      NewAfterClear(ctx, db, ty, row, p, x, depth);
      AppendAllInserts(ctx, PutCell(ctx, db, ty, row, p, Items([])), ty, row, p, x.elems, depth);
    }
  }

  lemma NewAfterClear(ctx: Context, db: Db, ty: string, row: nat, p: Property, x: Value, depth: nat)
    requires Ready(ctx, db) && Column(ctx, db, ty, row, p) && p.kind.isArray && !ctx.schema[ty].IsPrimary(p) && x.Vec?
    requires PropConforms(ctx, db, p, x, depth, true) && PropNoRepeat(ctx, p, x) && PropUnstored(ctx, db, p, x)
    ensures NewElements(ctx, PutCell(ctx, db, ty, row, p, Items([])), p, x.elems, depth)
  {
    hide Ready, PutCell, ElementConforms, NoRepeat, HasKey, Addresses, ElemsApart;
    var db1 := PutCell(ctx, db, ty, row, p, Items([]));
    forall i | 0 <= i < |x.elems|
      ensures ElementConforms(ctx, db1, p, x.elems[i], depth, true)
      ensures p.kind.base == Object ==> Unstored(ctx, db1, p.target, x.elems[i])
    {
      ElementCarries(ctx, db, db1, p, x.elems[i], depth, true, true);
      forall t, k | p.kind.base == Object && Addresses(ctx, p.target, x.elems[i], t, k)
        ensures !HasKey(ctx, db1, t, k)
      {
        assert PropAddresses(ctx, p, x, t, k);
        PutAddsNoKey(ctx, db, ty, row, p, Items([]), t, k);
      }
    }
  }

  lemma {:induction false} AppendAllInserts(
      ctx: Context, db: Db, ty: string, row: nat, p: Property, vs: seq<Value>, depth: nat)
    requires Ready(ctx, db) && ctx.inWrite && !ctx.inMigration && KeylessDefaults(ctx) && Column(ctx, db, ty, row, p)
    requires p.kind.isArray && !ctx.schema[ty].IsPrimary(p) && NewElements(ctx, db, p, vs, depth)
    ensures AppendAll(ctx, db, ty, row, p, vs, false, depth).out.Ok?
    decreases depth, 1, |vs|
  {
    hide Ready, AppendOne, ElementConforms, NoRepeat, KeylessDefaults, Unstored, ElemsApart;
    if vs != [] {
      AppendOneInserts(ctx, db, ty, row, p, vs[0], depth);
      NewAfterOne(ctx, db, ty, row, p, vs, depth);
      AppendAllInserts(ctx, AppendOne(ctx, db, ty, row, p, vs[0], false, depth).db, ty, row, p, vs[1..], depth);
    }
  }

  lemma NewAfterOne(ctx: Context, db: Db, ty: string, row: nat, p: Property, vs: seq<Value>, depth: nat)
    requires Ready(ctx, db) && !ctx.inMigration && KeylessDefaults(ctx) && Column(ctx, db, ty, row, p)
    requires p.kind.isArray && !ctx.schema[ty].IsPrimary(p) && vs != [] && NewElements(ctx, db, p, vs, depth)
    ensures NewElements(ctx, AppendOne(ctx, db, ty, row, p, vs[0], false, depth).db, p, vs[1..], depth)
  {
    hide Ready, AppendOne, ElementConforms, NoRepeat, KeylessDefaults, HasKey, Addresses, DefaultsMiss;
    var s := AppendOne(ctx, db, ty, row, p, vs[0], false, depth);
    forall i | 0 < i < |vs|
      ensures ElementConforms(ctx, s.db, p, vs[i], depth, true)
      ensures p.kind.base == Object ==> Unstored(ctx, s.db, p.target, vs[i])
    {
      ElementCarries(ctx, db, s.db, p, vs[i], depth, true, true);
      forall t, k | p.kind.base == Object && Addresses(ctx, p.target, vs[i], t, k) ensures !HasKey(ctx, s.db, t, k) {
        KeylessMiss(ctx, t, k);
        assert ElemsApart(ctx, p.target, vs[0], vs[i]);
        AppendOneAddsNoKey(ctx, db, ty, row, p, vs[0], false, depth, t, k);
      }
    }
    assert forall i | 0 <= i < |vs[1..]| :: vs[1..][i] == vs[i + 1];
  }

  lemma {:induction false} AppendOneInserts(
      ctx: Context, db: Db, ty: string, row: nat, p: Property, x: Value, depth: nat)
    requires Ready(ctx, db) && ctx.inWrite && !ctx.inMigration && KeylessDefaults(ctx) && Column(ctx, db, ty, row, p)
    requires p.kind.isArray && ElementConforms(ctx, db, p, x, depth, true)
    requires p.kind.base == Object ==> NoRepeat(ctx, p.target, x) && Unstored(ctx, db, p.target, x)
    ensures AppendOne(ctx, db, ty, row, p, x, false, depth).out.Ok?
    decreases depth, 1, 0
  {
    hide Ready, Unbox, PushItem, ObjectConforms, NoRepeat, KeylessDefaults, Unstored;
    NullableObject(ctx, db, ty, p);
    if p.kind.base == Object {
      UnboxInserts(ctx, db, p.target, x, depth);
    }
  }

  // ---- what was created was new and different ----

  /** A value that was created without update names no object twice, and none that was stored before. */
  lemma {:induction false} InsertedIsNew(ctx: Context, db: Db, ty: string, v: Value, depth: nat)
    requires Ready(ctx, db) && ty in ctx.schema && !ctx.inMigration && Create(ctx, db, ty, v, false, depth).out.Ok?
    ensures NoRepeat(ctx, ty, v) && Unstored(ctx, db, ty, v)
    decreases depth, 4, 0
  {
    hide Ready, Locate, Populate, NodeKey, PropAddresses, HasKey, Addresses, FieldsApart;
    var l := Locate(ctx, db, ty, v, false);
    var ps := ctx.schema[ty].persisted;
    forall t, k | Addresses(ctx, ty, v, t, k) ensures !HasKey(ctx, db, t, k) {
      CreateStores(ctx, db, ty, v, false, depth, t, k);
    }
    if v.Dict? {
      PopulatedApart(ctx, l.db, ty, v, l.out.value, 0, depth);
      forall j | 0 <= j < |ps| && ps[j].name in v.fields && NodeKey(ctx, ty, v).Some?
        ensures !PropAddresses(ctx, ps[j], v.fields[ps[j].name], ty, NodeKey(ctx, ty, v).value)
      {
        LocateStores(ctx, db, ty, v, false, NodeKey(ctx, ty, v).value);
        if PropAddresses(ctx, ps[j], v.fields[ps[j].name], ty, NodeKey(ctx, ty, v).value) {
          PopulateStores(ctx, l.db, ty, v, false, l.out.value, 0, depth, j, ty, NodeKey(ctx, ty, v).value);
        }
      }
      RootNoRepeat(ctx, ty, v);
    }
  }

  /** The values given to the properties from the `i`-th on name no object twice. */
  ghost predicate FieldsApart(ctx: Context, ty: string, v: Value, i: nat)
    requires ty in ctx.schema && v.Dict?
  {
    var ps := ctx.schema[ty].persisted;
    && (forall j | i <= j < |ps| && ps[j].name in v.fields :: PropNoRepeat(ctx, ps[j], v.fields[ps[j].name]))
    && (forall j, m | i <= j < m < |ps| && ps[j].name in v.fields && ps[m].name in v.fields ::
          Apart(ctx, ps[j], v.fields[ps[j].name], ps[m], v.fields[ps[m].name]))
  }

  lemma RootNoRepeat(ctx: Context, ty: string, v: Value)
    requires ty in ctx.schema && v.Dict? && FieldsApart(ctx, ty, v, 0)
    requires var ps := ctx.schema[ty].persisted;
             forall j | 0 <= j < |ps| && ps[j].name in v.fields && NodeKey(ctx, ty, v).Some? ::
               !PropAddresses(ctx, ps[j], v.fields[ps[j].name], ty, NodeKey(ctx, ty, v).value)
    ensures NoRepeat(ctx, ty, v)
  {
    hide PropNoRepeat, Apart, PropAddresses, NodeKey;
  }

  lemma {:induction false} PopulatedApart(
      ctx: Context, db: Db, ty: string, v: Value, place: Place, i: nat, depth: nat)
    requires Ready(ctx, db) && ty in ctx.schema && !ctx.inMigration && HasRow(db, ty, place.row) && place.skipPrimary
    requires v.Dict? && i <= |ctx.schema[ty].persisted|
    requires Populate(ctx, db, ty, v, false, place, i, depth).out.Ok?
    ensures FieldsApart(ctx, ty, v, i)
    decreases depth, 3, |ctx.schema[ty].persisted| - i
  {
    hide Ready, SetProperty, Chosen, PropNoRepeat, Apart, FieldsApart;
    var os := ctx.schema[ty];
    if i == |os.persisted| {
      NothingApart(ctx, ty, v);
    } else {
      var p := os.persisted[i];
      var db1 := db;
      if !os.IsPrimary(p) {
        var c := Chosen(ctx, ty, v, place, p).value;
        if c.Some? {
          db1 := SetProperty(ctx, db, ty, place.row, p, c.value.0, false, c.value.1, depth).db;
        }
      }
      PopulatedApart(ctx, db1, ty, v, place, i + 1, depth);
      FirstApart(ctx, db, ty, v, place, i, depth);
      OneMoreApart(ctx, ty, v, i);
    }
  }

  lemma NothingApart(ctx: Context, ty: string, v: Value)
    requires ty in ctx.schema && v.Dict?
    ensures FieldsApart(ctx, ty, v, |ctx.schema[ty].persisted|)
  {
  }

  lemma OneMoreApart(ctx: Context, ty: string, v: Value, i: nat)
    requires ty in ctx.schema && v.Dict? && i < |ctx.schema[ty].persisted| && FieldsApart(ctx, ty, v, i + 1)
    requires var ps := ctx.schema[ty].persisted;
             ps[i].name in v.fields ==>
               && PropNoRepeat(ctx, ps[i], v.fields[ps[i].name])
               && forall m | i < m < |ps| && ps[m].name in v.fields ::
                    Apart(ctx, ps[i], v.fields[ps[i].name], ps[m], v.fields[ps[m].name])
    ensures FieldsApart(ctx, ty, v, i)
  {
    hide PropNoRepeat, Apart;
  }

  /** The first of the properties that are written is given no object that a later one is given. */
  lemma {:induction false} FirstApart(
      ctx: Context, db: Db, ty: string, v: Value, place: Place, i: nat, depth: nat)
    requires Ready(ctx, db) && ty in ctx.schema && !ctx.inMigration && HasRow(db, ty, place.row) && place.skipPrimary
    requires v.Dict? && i < |ctx.schema[ty].persisted|
    requires Populate(ctx, db, ty, v, false, place, i, depth).out.Ok?
    ensures var ps := ctx.schema[ty].persisted;
            ps[i].name in v.fields ==>
              && PropNoRepeat(ctx, ps[i], v.fields[ps[i].name])
              && forall m | i < m < |ps| && ps[m].name in v.fields ::
                   Apart(ctx, ps[i], v.fields[ps[i].name], ps[m], v.fields[ps[m].name])
    decreases depth, 2, 1
  {
    hide Ready, SetProperty, PropAddresses, PropNoRepeat, HasKey;
    var ps := ctx.schema[ty].persisted;
    var p := ps[i];
    if p.name in v.fields {
      var x := v.fields[p.name];
      if p.kind.base != Object || x.Empty? {
        NoObjects(ctx, p, x);
      } else {
        LinkIsNoKey(ctx, db, ty, p);
        GivenIsChosen(ctx, ty, v, place, p);
        var s := SetProperty(ctx, db, ty, place.row, p, x, false, false, depth);
        SetNoRepeat(ctx, db, ty, place.row, p, x, depth);
        forall m, t, k | i < m < |ps| && ps[m].name in v.fields && PropAddresses(ctx, p, x, t, k)
                         && PropAddresses(ctx, ps[m], v.fields[ps[m].name], t, k)
          ensures false
        {
          SetStores(ctx, db, ty, place.row, p, x, false, false, depth, t, k);
          PopulateStores(ctx, s.db, ty, v, false, place, i + 1, depth, m, t, k);
        }
      }
    }
  }

  lemma NoObjects(ctx: Context, p: Property, x: Value)
    requires p.kind.base != Object || x.Empty?
    ensures PropNoRepeat(ctx, p, x) && forall t, k :: !PropAddresses(ctx, p, x, t, k)
  {
  }

  lemma {:induction false} SetNoRepeat(
      ctx: Context, db: Db, ty: string, row: nat, p: Property, x: Value, depth: nat)
    requires Ready(ctx, db) && Column(ctx, db, ty, row, p) && !ctx.inMigration && p.kind.base == Object && !x.Empty?
    requires SetProperty(ctx, db, ty, row, p, x, false, false, depth).out.Ok?
    ensures PropNoRepeat(ctx, p, x)
    decreases depth, 2, 0
  {
    hide Ready, Assign, Create, PutCell, NoRepeat, SchemaOk;
    TargetKnown(ctx, db, ty, row, p);
    if p.kind.isArray {
      AssignNoRepeat(ctx, db, ty, row, p, x, depth);
    } else if x.Dict? {
      InsertedIsNew(ctx, db, p.target, x, depth - 1);
    } else {
      NoDictNoRepeat(ctx, p.target, x);
    }
  }

  lemma NoDictNoRepeat(ctx: Context, ty: string, x: Value)
    requires !x.Dict?
    ensures NoRepeat(ctx, ty, x) && forall t, k :: !Addresses(ctx, ty, x, t, k)
  {
  }

  lemma {:induction false} AssignNoRepeat(
      ctx: Context, db: Db, ty: string, row: nat, p: Property, x: Value, depth: nat)
    requires Ready(ctx, db) && Column(ctx, db, ty, row, p) && !ctx.inMigration && p.kind.base == Object
    requires p.kind.isArray && Assign(ctx, db, ty, row, p, x, false, depth).out.Ok?
    ensures PropNoRepeat(ctx, p, x)
    decreases depth, 1, if x.Vec? then |x.elems| + 1 else 0
  {
    hide Ready, AppendAll, PutCell, NoRepeat, ElemsApart;
    if x.Vec? {
      assert x == Vec(x.elems);
      AppendedNoRepeat(ctx, PutCell(ctx, db, ty, row, p, Items([])), ty, row, p, x.elems, depth);
    }
  }

  lemma {:induction false} AppendedNoRepeat(
      ctx: Context, db: Db, ty: string, row: nat, p: Property, vs: seq<Value>, depth: nat)
    requires Ready(ctx, db) && Column(ctx, db, ty, row, p) && !ctx.inMigration && p.kind.base == Object
    requires p.kind.isArray && AppendAll(ctx, db, ty, row, p, vs, false, depth).out.Ok?
    ensures forall i | 0 <= i < |vs| :: NoRepeat(ctx, p.target, vs[i])
    ensures forall i, j | 0 <= i < j < |vs| :: ElemsApart(ctx, p.target, vs[i], vs[j])
    decreases depth, 1, |vs|
  {
    hide Ready, AppendOne, NoRepeat, Addresses, HasKey;
    if vs != [] {
      var s := AppendOne(ctx, db, ty, row, p, vs[0], false, depth);
      AppendedOneNoRepeat(ctx, db, ty, row, p, vs[0], depth);
      AppendedNoRepeat(ctx, s.db, ty, row, p, vs[1..], depth);
      forall j, t, k | 0 < j < |vs| && Addresses(ctx, p.target, vs[0], t, k) && Addresses(ctx, p.target, vs[j], t, k)
        ensures false
      {
        AppendOneStores(ctx, db, ty, row, p, vs[0], false, depth, t, k);
        AppendAllStores(ctx, s.db, ty, row, p, vs[1..], false, depth, j - 1, t, k);
      }
      assert forall i | 0 <= i < |vs[1..]| :: vs[1..][i] == vs[i + 1];
    }
  }

  lemma {:induction false} AppendedOneNoRepeat(
      ctx: Context, db: Db, ty: string, row: nat, p: Property, x: Value, depth: nat)
    requires Ready(ctx, db) && Column(ctx, db, ty, row, p) && !ctx.inMigration && p.kind.base == Object
    requires p.kind.isArray && AppendOne(ctx, db, ty, row, p, x, false, depth).out.Ok?
    ensures NoRepeat(ctx, p.target, x)
    decreases depth, 1, 0
  {
    hide Ready, Create, PushItem, NoRepeat;
    TargetKnown(ctx, db, ty, row, p);
    if x.Dict? {
      InsertedIsNew(ctx, db, p.target, x, depth - 1);
    } else {
      NoDictNoRepeat(ctx, p.target, x);
    }
  }

  /**
   * Exactly when creating without update succeeds outside migrations, for values without managed
   * objects, when no default applies and properties may be missing: in a write transaction, for the
   * values that fit their types, name no object twice, and name none that is stored.
   */
  lemma InsertIff(ctx: Context, db: Db, ty: string, v: Value, depth: nat)
    requires Ready(ctx, db) && ty in ctx.schema && !ctx.inMigration && Plain(v) && NothingElse(ctx)
    ensures Create(ctx, db, ty, v, false, depth).out.Ok? <==>
              && ctx.inWrite && Conforms(ctx, db, ty, v, depth, true)
              && NoRepeat(ctx, ty, v) && Unstored(ctx, db, ty, v)
  {
    hide Ready, Create, Conforms, NoRepeat, Unstored;
    if Create(ctx, db, ty, v, false, depth).out.Ok? {
      CreatedConforms(ctx, db, ty, v, false, depth);
      ConformsCarries(ctx, db, db, ty, v, depth, false, true);
      InsertedIsNew(ctx, db, ty, v, depth);
    } else if ctx.inWrite && Conforms(ctx, db, ty, v, depth, true) && NoRepeat(ctx, ty, v) && Unstored(ctx, db, ty, v) {
      InsertSucceeds(ctx, db, ty, v, depth);
    }
  }
}
