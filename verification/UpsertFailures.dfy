/** What stays in the tables when writing a value stops with an error: nothing is taken back. */
module UpsertFailures {
  import opened Wrappers
  import opened Schemas
  import opened Tables
  import opened Upsert
  import opened UpsertKeys
  import opened UpsertFrame
  import opened UpsertHolds
  import opened UpsertRefines
  import opened UpsertErrors
  import opened UpsertSetter
  import opened UpsertSucceeds

  // ---- objects ----

  /**
   * After a creation with a key that can be read, in a write transaction that is no migration, the
   * object is stored, whether the creation returned or stopped on the way; so doing it again
   * without updating is refused.
   */
  lemma StoredAfterwards(ctx: Context, db: Db, ty: string, v: Value, update: bool, depth: nat, again: nat)
    requires Ready(ctx, db) && ty in ctx.schema && ctx.inWrite && !ctx.inMigration
    requires PrimaryProp(ctx.schema[ty]).Some? && KeyGiven(ctx, ty, v)
    ensures var s := Create(ctx, db, ty, v, update, depth);
            && Duplicate(ctx, s.db, ty, v)
            && Create(ctx, s.db, ty, v, false, again) == Step(s.db, Err(DuplicateKey(ty)))
  {
    hide Ready, Create, Locate, KeyOf, Asks, ReadsAs, Stored, Appends;
    var s := Create(ctx, db, ty, v, update, depth);
    var pk := PrimaryProp(ctx.schema[ty]).value;
    var x, key :| Asks(ctx, ty, pk, v, x) && ReadsAs(pk, x, key);
    KeyTypeOk(ctx, db, ty, pk);
    KeyOfIs(ctx, ty, pk, v);
    assert KeyOf(ctx, ty, pk, v) == Ok(key);
    var r := StoredRow(ctx, db, ty, v, update, depth);
    StoredAt(ctx, s.db, ty, pk, key, r);
    DuplicateKeyOf(ctx, s.db, ty, v);
    DuplicateIffRefused(ctx, s.db, ty, v, false, again);
  }

  lemma StoredAt(ctx: Context, db: Db, ty: string, pk: Property, key: Cell, r: nat)
    requires Ready(ctx, db) && ty in ctx.schema && PrimaryProp(ctx.schema[ty]) == Some(pk)
    requires HasRow(db, ty, r) && KeyAt(ctx, db, ty, r) == key
    ensures Stored(ctx, db, ty, pk, key)
  {
    KeyStored(ctx, db, ty, r);
  }

  /** The row that has the key after a creation. */
  lemma StoredRow(ctx: Context, db: Db, ty: string, v: Value, update: bool, depth: nat) returns (r: nat)
    requires Ready(ctx, db) && ty in ctx.schema && ctx.inWrite && !ctx.inMigration
    requires PrimaryProp(ctx.schema[ty]).Some? && KeyOf(ctx, ty, PrimaryProp(ctx.schema[ty]).value, v).Ok?
    ensures var s := Create(ctx, db, ty, v, update, depth);
            && HasRow(s.db, ty, r)
            && KeyAt(ctx, s.db, ty, r) == KeyOf(ctx, ty, PrimaryProp(ctx.schema[ty]).value, v).value
  {
    hide Ready, Populate, Locate, KeyOf, Stored, Appends, KeysUnique;
    var pk := PrimaryProp(ctx.schema[ty]).value;
    var key := KeyOf(ctx, ty, pk, v).value;
    var l := Locate(ctx, db, ty, v, update);
    LocateIs(ctx, db, ty, v, update);
    if l.out.Ok? {
      r := l.out.value.row;
      LocateKey(ctx, db, ty, v, update);
      PopulateKeepsKeys(ctx, l.db, ty, v, update, l.out.value, 0, depth);
    } else {
      KeyTypeOk(ctx, db, ty, pk);
      FindIffStored(ctx, db, ty, pk, key);
      r := FindKey(ctx, db, ty, pk, key).value;
      KeyStored(ctx, db, ty, r);
    }
  }

  /**
   * What the value gives to properties that are reached is held in the end, nested objects and
   * lists included, although a later property may have stopped the creation.
   */
  lemma ReachedHolds(ctx: Context, db: Db, ty: string, v: Value, update: bool, depth: nat, j: nat)
    requires Ready(ctx, db) && ty in ctx.schema && ctx.inWrite && !ctx.inMigration
    requires KeylessDefaults(ctx) && NoRepeat(ctx, ty, v) && Locate(ctx, db, ty, v, update).out.Ok?
    requires j < |ctx.schema[ty].persisted| && !ctx.schema[ty].IsPrimary(ctx.schema[ty].persisted[j])
    requires var l := Locate(ctx, db, ty, v, update);
             Reaches(ctx, l.db, ty, v, update, l.out.value, 0, depth, j)
    requires v.Dict? && ctx.schema[ty].persisted[j].name in v.fields
    ensures var p := ctx.schema[ty].persisted[j];
            var row := Locate(ctx, db, ty, v, update).out.value.row;
            CellHolds(ctx, db, Create(ctx, db, ty, v, update, depth).db, ty, row, p, v.fields[p.name], depth)
  {
    hide Ready, Populate, Locate, KeylessDefaults, NoRepeat, CellHolds, FieldsSpare, Reaches;
    var l := Locate(ctx, db, ty, v, update);
    var p := ctx.schema[ty].persisted[j];
    var s := Populate(ctx, l.db, ty, v, update, l.out.value, 0, depth);
    LocateRoot(ctx, db, ty, v, update);
    PopulateHolds(ctx, l.db, ty, v, update, l.out.value, 0, depth, j);
    CellHoldsWeaken(ctx, db, l.db, s.db, ty, l.out.value.row, p, v.fields[p.name], depth);
  }

  /** The properties up to the `j`-th fit their types. */
  ghost predicate FitUpTo(ctx: Context, db: Db, ty: string, v: Value, depth: nat, j: nat)
    requires ty in ctx.schema && v.Dict?
  {
    forall k | 0 <= k <= j && k < |ctx.schema[ty].persisted|
        && !ctx.schema[ty].IsPrimary(ctx.schema[ty].persisted[k]) ::
      FieldConforms(ctx, db, ty, v, ctx.schema[ty].persisted[k], depth, true)
  }

  lemma {:induction false} FittingReached(
      ctx: Context, db: Db, ty: string, v: Value, place: Place, i: nat, depth: nat, j: nat)
    requires Ready(ctx, db) && ctx.inWrite && ty in ctx.schema && HasRow(db, ty, place.row) && place.skipPrimary
    requires v.Dict? && FitUpTo(ctx, db, ty, v, depth, j) && i <= j < |ctx.schema[ty].persisted|
    ensures Reaches(ctx, db, ty, v, true, place, i, depth, j)
    decreases j - i
  {
    hide Ready, SetProperty, Chosen, FitUpTo, PropConforms;
    var p := ctx.schema[ty].persisted[i];
    if ctx.schema[ty].IsPrimary(p) {
      if i < j {
        FittingReached(ctx, db, ty, v, place, i + 1, depth, j);
      }
    } else {
      FitsAt(ctx, db, ty, v, depth, j, i);
      ChosenFits(ctx, db, ty, v, place, i, depth);
      var c := Chosen(ctx, ty, v, place, p).value;
      if c.Some? {
        SetSucceeds(ctx, db, ty, place.row, p, c.value.0, c.value.1, depth);
        var s := SetProperty(ctx, db, ty, place.row, p, c.value.0, true, c.value.1, depth);
        if i < j {
          FitLater(ctx, db, s.db, ty, v, depth, j);
          FittingReached(ctx, s.db, ty, v, place, i + 1, depth, j);
        }
      } else if i < j {
        FittingReached(ctx, db, ty, v, place, i + 1, depth, j);
      }
    }
  }

  lemma FitsAt(ctx: Context, db: Db, ty: string, v: Value, depth: nat, j: nat, k: nat)
    requires ty in ctx.schema && v.Dict? && FitUpTo(ctx, db, ty, v, depth, j)
    requires k <= j && k < |ctx.schema[ty].persisted| && !ctx.schema[ty].IsPrimary(ctx.schema[ty].persisted[k])
    ensures FieldConforms(ctx, db, ty, v, ctx.schema[ty].persisted[k], depth, true)
  {
  }

  lemma FitLater(ctx: Context, db: Db, db': Db, ty: string, v: Value, depth: nat, j: nat)
    requires ty in ctx.schema && v.Dict? && FitUpTo(ctx, db, ty, v, depth, j) && Grows(db, db')
    ensures FitUpTo(ctx, db', ty, v, depth, j)
  {
    hide FieldConforms;
    var ps := ctx.schema[ty].persisted;
    forall k | 0 <= k <= j && k < |ps| && !ctx.schema[ty].IsPrimary(ps[k])
      ensures FieldConforms(ctx, db', ty, v, ps[k], depth, true)
    {
      FieldCarries(ctx, db, db', ty, v, ps[k], depth, true, true);
    }
  }

  /**
   * Creating with update from a value whose properties fit their types up to some property: that
   * property holds its value afterwards, whatever becomes of the later ones.
   */
  lemma FittingHolds(ctx: Context, db: Db, ty: string, v: Value, depth: nat, j: nat)
    requires Ready(ctx, db) && ty in ctx.schema && ctx.inWrite && !ctx.inMigration
    requires KeylessDefaults(ctx) && NoRepeat(ctx, ty, v) && KeyGiven(ctx, ty, v)
    requires v.Dict? && j < |ctx.schema[ty].persisted| && FitUpTo(ctx, db, ty, v, depth, j)
    requires var p := ctx.schema[ty].persisted[j]; p.name in v.fields && !ctx.schema[ty].IsPrimary(p)
    ensures var p := ctx.schema[ty].persisted[j];
            var l := Locate(ctx, db, ty, v, true);
            && l.out.Ok? && HasRow(Create(ctx, db, ty, v, true, depth).db, ty, l.out.value.row)
            && CellHolds(ctx, db, Create(ctx, db, ty, v, true, depth).db, ty, l.out.value.row, p, v.fields[p.name],
                 depth)
  {
    hide Ready, Create, Locate, KeylessDefaults, NoRepeat, CellHolds, Reaches, FitUpTo, KeyGiven;
    LocateFitting(ctx, db, ty, v);
    var l := Locate(ctx, db, ty, v, true);
    FitLater(ctx, db, l.db, ty, v, depth, j);
    FittingReached(ctx, l.db, ty, v, l.out.value, 0, depth, j);
    ReachedHolds(ctx, db, ty, v, true, depth, j);
    StaysThere(ctx, db, ty, v, depth);
  }

  lemma StaysThere(ctx: Context, db: Db, ty: string, v: Value, depth: nat)
    requires Ready(ctx, db) && ty in ctx.schema && ctx.inWrite && Locate(ctx, db, ty, v, true).out.Ok?
    ensures Grows(Locate(ctx, db, ty, v, true).db, Create(ctx, db, ty, v, true, depth).db)
  {
    hide Ready, Locate, Populate;
  }

  // ---- nested objects ----

  /**
   * A nested object with a readable key is stored as soon as the property it is given to has its
   * turn, and stays stored although the nested object, or a later property, cannot be written.
   */
  lemma NestedStored(ctx: Context, db: Db, ty: string, v: Value, depth: nat, j: nat)
    requires Ready(ctx, db) && ty in ctx.schema && ctx.inWrite && !ctx.inMigration && KeyGiven(ctx, ty, v)
    requires v.Dict? && j < |ctx.schema[ty].persisted| && (j > 0 ==> FitUpTo(ctx, db, ty, v, depth, j - 1))
    requires GivesObject(ctx, ty, v, j) && depth > 0
    ensures var p := ctx.schema[ty].persisted[j];
            Duplicate(ctx, Create(ctx, db, ty, v, true, depth).db, p.target, v.fields[p.name])
  {
    hide Ready, Locate, Populate, KeyGiven, FitUpTo, Duplicate;
    LocateFitting(ctx, db, ty, v);
    var l := Locate(ctx, db, ty, v, true);
    if j > 0 {
      FitLater(ctx, db, l.db, ty, v, depth, j - 1);
    }
    ReachedStored(ctx, l.db, ty, v, l.out.value, 0, depth, j);
  }

  /** The `j`-th property is a link and is given an object whose key can be read. */
  ghost predicate GivesObject(ctx: Context, ty: string, v: Value, j: nat)
    requires ty in ctx.schema && v.Dict? && j < |ctx.schema[ty].persisted|
  {
    var p := ctx.schema[ty].persisted[j];
    && p.kind.base == Object && !p.kind.isArray && p.name in v.fields && v.fields[p.name].Dict?
    && p.target in ctx.schema && PrimaryProp(ctx.schema[p.target]).Some? && KeyGiven(ctx, p.target, v.fields[p.name])
  }

  lemma {:induction false} ReachedStored(
      ctx: Context, db: Db, ty: string, v: Value, place: Place, i: nat, depth: nat, j: nat)
    requires Ready(ctx, db) && ctx.inWrite && !ctx.inMigration && ty in ctx.schema
    requires HasRow(db, ty, place.row) && place.skipPrimary
    requires v.Dict? && i <= j < |ctx.schema[ty].persisted| && (j > 0 ==> FitUpTo(ctx, db, ty, v, depth, j - 1))
    requires GivesObject(ctx, ty, v, j) && depth > 0
    ensures var p := ctx.schema[ty].persisted[j];
            Duplicate(ctx, Populate(ctx, db, ty, v, true, place, i, depth).db, p.target, v.fields[p.name])
    decreases j - i
  {
    hide Ready, SetProperty, FitUpTo, PropConforms, FieldConforms, KeyGiven, Duplicate, Chosen;
    var p := ctx.schema[ty].persisted[i];
    if i == j {
      LinkIsNoKey(ctx, db, ty, p);
      GivenIsChosen(ctx, ty, v, place, p);
      var s := SetProperty(ctx, db, ty, place.row, p, v.fields[p.name], true, false, depth);
      LinkedStored(ctx, db, ty, place.row, p, v.fields[p.name], depth);
      if s.out.Ok? {
        PopulateKeepsKeys(ctx, s.db, ty, v, true, place, i + 1, depth);
        DuplicateStays(ctx, s.db, Populate(ctx, s.db, ty, v, true, place, i + 1, depth).db, p.target, v.fields[p.name]);
      }
    } else if ctx.schema[ty].IsPrimary(p) {
      ReachedStored(ctx, db, ty, v, place, i + 1, depth, j);
    } else {
      FitsAt(ctx, db, ty, v, depth, j - 1, i);
      ChosenFits(ctx, db, ty, v, place, i, depth);
      var c := Chosen(ctx, ty, v, place, p).value;
      if c.Some? {
        SetSucceeds(ctx, db, ty, place.row, p, c.value.0, c.value.1, depth);
        var s := SetProperty(ctx, db, ty, place.row, p, c.value.0, true, c.value.1, depth);
        FitLater(ctx, db, s.db, ty, v, depth, j - 1);
        ReachedStored(ctx, s.db, ty, v, place, i + 1, depth, j);
      } else {
        ReachedStored(ctx, db, ty, v, place, i + 1, depth, j);
      }
    }
  }

  lemma LinkIsNoKey(ctx: Context, db: Db, ty: string, p: Property)
    requires Ready(ctx, db) && ty in ctx.schema && p in ctx.schema[ty].persisted && p.kind.base == Object
    ensures !ctx.schema[ty].IsPrimary(p)
  {
    ReadySchema(ctx, db, ty);
  }

  lemma GivenIsChosen(ctx: Context, ty: string, v: Value, place: Place, p: Property)
    requires ty in ctx.schema && v.Dict? && p.name in v.fields && !v.fields[p.name].Empty?
    ensures Chosen(ctx, ty, v, place, p) == Ok(Some((v.fields[p.name], false)))
  {
  }

  lemma LinkedStored(ctx: Context, db: Db, ty: string, row: nat, p: Property, x: Value, depth: nat)
    requires Ready(ctx, db) && Column(ctx, db, ty, row, p) && ctx.inWrite && !ctx.inMigration
    requires p.kind.base == Object && !p.kind.isArray && x.Dict? && depth > 0 && p.target in ctx.schema
    requires PrimaryProp(ctx.schema[p.target]).Some? && KeyGiven(ctx, p.target, x)
    ensures Duplicate(ctx, SetProperty(ctx, db, ty, row, p, x, true, false, depth).db, p.target, x)
  {
    hide Ready, Create, KeyGiven, Duplicate, SchemaOk, PutCell, KeepsKeys;
    LinkIsNoKey(ctx, db, ty, p);
    StoredAfterwards(ctx, db, p.target, x, true, depth - 1, 0);
    var c := Create(ctx, db, p.target, x, true, depth - 1);
    if c.out.Ok? {
      FitsHere(p);
      PutKeepsKeys(ctx, c.db, ty, row, p, Link(c.out.value));
      DuplicateStays(ctx, c.db, PutCell(ctx, c.db, ty, row, p, Link(c.out.value)), p.target, x);
    }
  }

  /**
   * The same for an element of a list: it is stored, and stays stored, if the elements before it can
   * be written, also when it cannot be written itself or a later one cannot.
   */
  lemma ElementStored(ctx: Context, db: Db, ty: string, row: nat, p: Property, v: Value, depth: nat, k: nat)
    requires Ready(ctx, db) && Column(ctx, db, ty, row, p) && ctx.inWrite && !ctx.inMigration && v.Vec?
    requires p.kind.isArray && k < |v.elems| && KeyedElement(ctx, p, v.elems[k]) && depth > 0
    requires forall i | 0 <= i < k :: ElementConforms(ctx, db, p, v.elems[i], depth, true)
    ensures Duplicate(ctx, Assign(ctx, db, ty, row, p, v, true, depth).db, p.target, v.elems[k])
  {
    hide Ready, AppendAll, ElementConforms, PutCell, KeyGiven, Duplicate;
    var db1 := PutCell(ctx, db, ty, row, p, Items([]));
    assert v == Vec(v.elems);
    forall i | 0 <= i < k ensures ElementConforms(ctx, db1, p, v.elems[i], depth, true) {
      ElementCarries(ctx, db, db1, p, v.elems[i], depth, true, true);
    }
    AppendedStored(ctx, db1, ty, row, p, v.elems, depth, k);
  }

  /** An element of a list of objects, whose key can be read. */
  ghost predicate KeyedElement(ctx: Context, p: Property, x: Value) {
    && p.kind.base == Object && p.target in ctx.schema && PrimaryProp(ctx.schema[p.target]).Some?
    && x.Dict? && KeyGiven(ctx, p.target, x)
  }

  lemma {:induction false} AppendedStored(
      ctx: Context, db: Db, ty: string, row: nat, p: Property, vs: seq<Value>, depth: nat, k: nat)
    requires Ready(ctx, db) && Column(ctx, db, ty, row, p) && ctx.inWrite && !ctx.inMigration
    requires p.kind.isArray && k < |vs| && KeyedElement(ctx, p, vs[k]) && depth > 0
    requires forall i | 0 <= i < k :: ElementConforms(ctx, db, p, vs[i], depth, true)
    ensures Duplicate(ctx, AppendAll(ctx, db, ty, row, p, vs, true, depth).db, p.target, vs[k])
    decreases |vs|
  {
    hide Ready, AppendOne, ElementConforms, KeyGiven, Duplicate, KeepsKeys;
    LinkIsNoKey(ctx, db, ty, p);
    var s := AppendOne(ctx, db, ty, row, p, vs[0], true, depth);
    if k == 0 {
      AppendedOneStored(ctx, db, ty, row, p, vs[0], depth);
      if s.out.Ok? {
        AppendAllKeepsKeys(ctx, s.db, ty, row, p, vs[1..], true, depth);
        DuplicateStays(ctx, s.db, AppendAll(ctx, s.db, ty, row, p, vs[1..], true, depth).db, p.target, vs[0]);
      }
    } else {
      AppendOneSucceeds(ctx, db, ty, row, p, vs[0], depth);
      forall i | 0 <= i < k - 1 ensures ElementConforms(ctx, s.db, p, vs[1..][i], depth, true) {
        ElementCarries(ctx, db, s.db, p, vs[i + 1], depth, true, true);
      }
      AppendedStored(ctx, s.db, ty, row, p, vs[1..], depth, k - 1);
    }
  }

  lemma AppendedOneStored(ctx: Context, db: Db, ty: string, row: nat, p: Property, x: Value, depth: nat)
    requires Ready(ctx, db) && Column(ctx, db, ty, row, p) && ctx.inWrite && !ctx.inMigration
    requires p.kind.isArray && KeyedElement(ctx, p, x) && depth > 0
    ensures Duplicate(ctx, AppendOne(ctx, db, ty, row, p, x, true, depth).db, p.target, x)
  {
    hide Ready, Create, KeyGiven, Duplicate, SchemaOk, PushItem, KeepsKeys;
    LinkIsNoKey(ctx, db, ty, p);
    StoredAfterwards(ctx, db, p.target, x, true, depth - 1, 0);
    var c := Create(ctx, db, p.target, x, true, depth - 1);
    if c.out.Ok? {
      PushKeepsKeys(ctx, c.db, ty, row, p, Link(c.out.value));
      DuplicateStays(ctx, c.db, PushItem(ctx, c.db, ty, row, p, Link(c.out.value)), p.target, x);
    }
  }

  lemma DuplicateStays(ctx: Context, db: Db, db': Db, ty: string, v: Value)
    requires Ready(ctx, db) && Ready(ctx, db') && KeepsKeys(ctx, db, db') && ty in ctx.schema
    requires Duplicate(ctx, db, ty, v)
    ensures Duplicate(ctx, db', ty, v)
  {
    hide Ready, Asks, ReadsAs, KeysUnique;
    var pk := PrimaryProp(ctx.schema[ty]).value;
    var x, key :| Asks(ctx, ty, pk, v, x) && ReadsAs(pk, x, key) && Stored(ctx, db, ty, pk, key);
    var r :| 0 <= r < |db[ty]| && pk.name in db[ty][r] && db[ty][r][pk.name] == key;
    assert HasRow(db', ty, r);
    assert KeyAt(ctx, db', ty, r) == KeyAt(ctx, db, ty, r) == key;
    StoredAt(ctx, db', ty, pk, key, r);
  }

  // ---- lists ----

  /**
   * When assigning values to a list stops at one of them, the list holds the cells of the elements
   * before it, and behind them an empty one if that was a null that the core refused.
   */
  lemma StoppedListHolds(ctx: Context, db: Db, ty: string, row: nat, p: Property, v: Value, update: bool, depth: nat)
    requires Ready(ctx, db) && Column(ctx, db, ty, row, p) && p.kind.isArray && v.Vec?
    requires p.kind.base == Object ==> p.target in ctx.schema
    requires DefaultsSpare(ctx, ty, db[ty][row]) && PropSpares(ctx, p, v, ty, db[ty][row])
    requires Assign(ctx, db, ty, row, p, v, update, depth).out.Err?
    ensures var s := Assign(ctx, db, ty, row, p, v, update, depth);
            var cells := ElementCells(ctx, PutCell(ctx, db, ty, row, p, Items([])), ty, row, p, v.elems, update, depth);
            && Column(ctx, s.db, ty, row, p) && |cells| < |v.elems|
            && ListAt(ctx, s.db, ty, row, p) == Items(cells + LeftBehind(p, v.elems[|cells|]))
  {
    hide Ready, DefaultsSpare, PropSpares, AppendAll, ElementCells, SchemaOk, RowKey, LeftBehind;
    ColumnPersisted(ctx, db, ty, row, p);
    var db1 := PutCell(ctx, db, ty, row, p, Items([]));
    PutSameKey(ctx, db, ty, row, p, Items([]));
    PropSparesKey(ctx, p, v, ty, db[ty][row], db1[ty][row]);
    DefaultsSpareKey(ctx, ty, db[ty][row], db1[ty][row]);
    assert v == Vec(v.elems);
    StoppedExact(ctx, db1, ty, row, p, v.elems, update, depth);
    PutStores(ctx, db, ty, row, p, Items([]));
    assert ListAt(ctx, db1, ty, row, p) == Items([]);
  }

  /**
   * The element that a value leaves in a list when it is refused: a null in a list of texts or data
   * leaves an empty one.
   */
  function LeftBehind(p: Property, v: Value): seq<Cell> {
    if v.Empty? && !p.kind.isNullable && (p.kind.base == String || p.kind.base == Data) then [Atom(TextS(""))] else []
  }

  lemma {:induction false} StoppedExact(
      ctx: Context, db: Db, ty: string, row: nat, p: Property, vs: seq<Value>, update: bool, depth: nat)
    requires Ready(ctx, db) && Column(ctx, db, ty, row, p) && p.kind.isArray
    requires p.kind.base == Object ==> p.target in ctx.schema
    requires !ctx.schema[ty].IsPrimary(p) && DefaultsSpare(ctx, ty, db[ty][row])
    requires PropSpares(ctx, p, Vec(vs), ty, db[ty][row])
    requires AppendAll(ctx, db, ty, row, p, vs, update, depth).out.Err?
    ensures var s := AppendAll(ctx, db, ty, row, p, vs, update, depth);
            var cells := ElementCells(ctx, db, ty, row, p, vs, update, depth);
            && Column(ctx, s.db, ty, row, p) && |cells| < |vs|
            && ListAt(ctx, s.db, ty, row, p)
               == Items(ListAt(ctx, db, ty, row, p).items + (cells + LeftBehind(p, vs[|cells|])))
    decreases |vs|
  {
    hide Ready, DefaultsSpare, Spares, SchemaOk, CellFits, AppendOne, OnlyCell, PropSpares, ElementCell, LeftBehind;
    var s := AppendOne(ctx, db, ty, row, p, vs[0], update, depth);
    if s.out.Ok? {
      AppendOneExact(ctx, db, ty, row, p, vs, update, depth);
      StoppedExact(ctx, s.db, ty, row, p, vs[1..], update, depth);
      var rest := ElementCells(ctx, s.db, ty, row, p, vs[1..], update, depth);
      var first := ElementCell(ctx, db, p, vs[0], update, depth);
      Regroup(ListAt(ctx, db, ty, row, p).items, first, rest, LeftBehind(p, vs[1..][|rest|]));
    } else {
      FirstSpares(ctx, p, vs, ty, db[ty][row]);
      RefusedLeaves(ctx, db, ty, row, p, vs[0], update, depth);
    }
  }

  lemma Regroup<T>(a: seq<T>, x: T, b: seq<T>, c: seq<T>)
    ensures a + [x] + (b + c) == a + ([x] + b + c)
  {
  }

  lemma RefusedLeaves(ctx: Context, db: Db, ty: string, row: nat, p: Property, v: Value, update: bool, depth: nat)
    requires Ready(ctx, db) && Column(ctx, db, ty, row, p) && p.kind.isArray
    requires DefaultsSpare(ctx, ty, db[ty][row])
    requires p.kind.base == Object ==> p.target in ctx.schema && Spares(ctx, p.target, v, ty, db[ty][row])
    requires AppendOne(ctx, db, ty, row, p, v, update, depth).out.Err?
    ensures var s := AppendOne(ctx, db, ty, row, p, v, update, depth);
            && Column(ctx, s.db, ty, row, p)
            && ListAt(ctx, s.db, ty, row, p) == Items(ListAt(ctx, db, ty, row, p).items + LeftBehind(p, v))
  {
    hide Ready, DefaultsSpare, Spares, SchemaOk, CellFits, Unbox, PushItem;
    if p.kind.base == Object {
      UnboxSpares(ctx, db, p.target, v, update, depth, ty, row);
      SameList(ctx, db, Unbox(ctx, db, p.target, v, update, depth).db, ty, row, p);
    } else if UnboxItem(p, v) == Err(NullNotAllowed) {
      PushAppends(ctx, db, ty, row, p, Atom(ZeroScalar(p.kind.base)));
    }
  }
}
