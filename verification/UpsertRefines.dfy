/** A successful upsert refines the keyed-map upsert: it stores what was given and nothing else. */
module UpsertRefines {
  import opened Wrappers
  import opened Schemas
  import opened Tables
  import opened Upsert
  import opened UpsertFrame
  import opened UpsertHolds

  /** The list cell of a stored row. */
  function ListAt(ctx: Context, db: Db, ty: string, row: nat, p: Property): (c: Cell)
    requires Ready(ctx, db) && Column(ctx, db, ty, row, p) && p.kind.isArray
    ensures c.Items? && p.name in db[ty][row] && c == db[ty][row][p.name]
  {
    assert RowFits(ctx.schema[ty], db[ty][row]);
    db[ty][row][p.name]
  }

  /** What a list has become after some values were appended. */
  ghost predicate Appended(ctx: Context, base: Db, db: Db, p: Property, a: Cell, b: Cell, vs: seq<Value>, n: nat) {
    && a.Items? && b.Items?
    && |b.items| == |a.items| + |vs|
    && a.items <= b.items
    && forall i | 0 <= i < |vs| :: ItemHolds(ctx, base, db, p, b.items[|a.items| + i], vs[i], n)
  }

  lemma {:induction false} CreateHolds(ctx: Context, db: Db, ty: string, v: Value, update: bool, depth: nat)
    requires Ready(ctx, db) && ty in ctx.schema && !ctx.inMigration && KeylessDefaults(ctx) && NoRepeat(ctx, ty, v)
    requires Create(ctx, db, ty, v, update, depth).out.Ok?
    ensures var s := Create(ctx, db, ty, v, update, depth); Holds(ctx, db, s.db, ty, s.out.value, v, depth)
    decreases depth, 5, 0
  {
    assert SchemaOk(ctx.schema);
    hide Ready, Populate, Locate, KeylessDefaults, NoRepeat, Holds, CellHolds, FieldsSpare, SchemaOk, Fresh;
    var l := Locate(ctx, db, ty, v, update);
    var place := l.out.value;
    var s := Populate(ctx, l.db, ty, v, update, place, 0, depth);
    LocateRoot(ctx, db, ty, v, update);
    LocateFresh(ctx, db, ty, v, update);
    PopulateAllHold(ctx, l.db, ty, v, update, place, depth);
    RootHolds(ctx, db, l.db, s.db, ty, place, v, depth);
  }

  /** Where the root of `v` is found or put: a fresh row or the one with its key. */
  lemma LocateRoot(ctx: Context, db: Db, ty: string, v: Value, update: bool)
    requires Ready(ctx, db) && ty in ctx.schema && !ctx.inMigration && NoRepeat(ctx, ty, v)
    requires Locate(ctx, db, ty, v, update).out.Ok?
    ensures var l := Locate(ctx, db, ty, v, update);
            && RootKey(ctx, db, l.db, ty, l.out.value.row, v)
            && FieldsSpare(ctx, ty, v, 0, ty, l.db[ty][l.out.value.row])
  {
    hide SchemaOk, Shape, RowFits, FieldsSpare, NoRepeat;
    var l := Locate(ctx, db, ty, v, update);
    ReadySchema(ctx, db, ty);
    RowsHaveKey(ctx, l.db, ty);
    var row := l.db[ty][l.out.value.row];
    assert RootKey(ctx, db, l.db, ty, l.out.value.row, v);
    NoRepeatSparesRoot(ctx, ty, v, row);
  }

  ghost predicate RootKey(ctx: Context, base: Db, db: Db, ty: string, r: nat, v: Value)
    requires ty in ctx.schema && HasRow(db, ty, r)
  {
    if PrimaryProp(ctx.schema[ty]).Some? then NodeKey(ctx, ty, v).Some?
        && RowKey(ctx, ty, db[ty][r]) == NodeKey(ctx, ty, v)
    else RowKey(ctx, ty, db[ty][r]).None? && !HasRow(base, ty, r)
  }

  lemma NoRepeatSparesRoot(ctx: Context, ty: string, v: Value, row: Row)
    requires ty in ctx.schema && NoRepeat(ctx, ty, v)
    requires RowKey(ctx, ty, row).Some? ==> NodeKey(ctx, ty, v) == RowKey(ctx, ty, row)
    ensures FieldsSpare(ctx, ty, v, 0, ty, row)
  {
  }

  /** What has become of the `i`-th property: it holds the chosen value, or was left alone. */
  ghost predicate Done(ctx: Context, base: Db, db: Db, ty: string, v: Value, place: Place, i: nat, n: nat)
    requires ty in ctx.schema && i < |ctx.schema[ty].persisted|
    requires HasRow(base, ty, place.row) && HasRow(db, ty, place.row)
  {
    var p := ctx.schema[ty].persisted[i];
    match Chosen(ctx, ty, v, place, p)
    case Err(_) => false
    case Ok(None) => SameCell(base[ty][place.row], db[ty][place.row], p.name)
    case Ok(Some((x, isDefault))) =>
      if SkipsNull(p, x, isDefault) then SameCell(base[ty][place.row], db[ty][place.row], p.name)
      else CellHolds(ctx, base, db, ty, place.row, p, x, n)
  }

  /** A default of null for a link is not written. */
  predicate SkipsNull(p: Property, x: Value, isDefault: bool) {
    isDefault && x.Empty? && p.kind.base == Object && !p.kind.isArray
  }

  ghost predicate ApartFrom(ctx: Context, ty: string, v: Value, i: nat, p: Property, x: Value)
    requires ty in ctx.schema
  {
    v.Dict? ==> forall j | i <= j < |ctx.schema[ty].persisted| && ctx.schema[ty].persisted[j].name in v.fields ::
      Apart(ctx, p, x, ctx.schema[ty].persisted[j], v.fields[ctx.schema[ty].persisted[j].name])
  }

  /** A value that writes down no object with a key repeats none. */
  lemma {:induction false} KeylessNoRepeat(ctx: Context, ty: string, v: Value)
    requires forall t: string, k: Cell :: !Addresses(ctx, ty, v, t, k)
    ensures NoRepeat(ctx, ty, v)
    decreases v, 0
  {
    if v.Dict? && ty in ctx.schema {
      forall p | p in ctx.schema[ty].persisted && p.name in v.fields
        ensures PropNoRepeat(ctx, p, v.fields[p.name])
        ensures forall t: string, k: Cell :: !PropAddresses(ctx, p, v.fields[p.name], t, k)
      {
        forall t: string, k: Cell ensures !PropAddresses(ctx, p, v.fields[p.name], t, k) {
          assert !Addresses(ctx, ty, v, t, k);
        }
        PropKeylessNoRepeat(ctx, p, v.fields[p.name]);
      }
    }
  }

  lemma {:induction false} PropKeylessNoRepeat(ctx: Context, p: Property, x: Value)
    requires forall t: string, k: Cell :: !PropAddresses(ctx, p, x, t, k)
    ensures PropNoRepeat(ctx, p, x)
    decreases x, 1
  {
    if p.kind.base == Object {
      if p.kind.isArray && x.Vec? {
        forall i | 0 <= i < |x.elems|
          ensures NoRepeat(ctx, p.target, x.elems[i])
          ensures forall t: string, k: Cell :: !Addresses(ctx, p.target, x.elems[i], t, k)
        {
          forall t: string, k: Cell ensures !Addresses(ctx, p.target, x.elems[i], t, k) {
            assert !PropAddresses(ctx, p, x, t, k);
          }
          KeylessNoRepeat(ctx, p.target, x.elems[i]);
        }
      } else if !p.kind.isArray {
        forall t: string, k: Cell ensures !Addresses(ctx, p.target, x, t, k) {
          assert !PropAddresses(ctx, p, x, t, k);
        }
        KeylessNoRepeat(ctx, p.target, x);
      }
    }
  }

  lemma ChosenIsApart(ctx: Context, ty: string, v: Value, place: Place, i: nat)
    requires ty in ctx.schema && KeylessDefaults(ctx) && NoRepeat(ctx, ty, v) && i < |ctx.schema[ty].persisted|
    ensures var p := ctx.schema[ty].persisted[i];
            var c := Chosen(ctx, ty, v, place, p);
            c.Ok? && c.value.Some? ==>
              PropNoRepeat(ctx, p, c.value.value.0) && ApartFrom(ctx, ty, v, i + 1, p, c.value.value.0)
  {
    hide PropAddresses, PropNoRepeat;
    var p := ctx.schema[ty].persisted[i];
    assert p in ctx.schema[ty].persisted;
    if (ty, p.name) in ctx.defaults {
      PropKeylessNoRepeat(ctx, p, ctx.defaults[(ty, p.name)]);
    }
  }

  /** Nothing written after a property touches what that property's value relies on. */
  lemma LaterAgrees(
      ctx: Context, base: Db, db: Db, ty: string, v: Value, update: bool, place: Place, i: nat, depth: nat,
      p: Property, x: Value)
    requires Ready(ctx, db) && ty in ctx.schema && KeylessDefaults(ctx) && HasRow(db, ty, place.row)
    requires HasRow(base, ty, place.row)
    requires i <= |ctx.schema[ty].persisted| && ApartFrom(ctx, ty, v, i, p, x)
    requires PropSpares(ctx, p, x, ty, db[ty][place.row])
    ensures PropAgree(ctx, base, db, Populate(ctx, db, ty, v, update, place, i, depth).db, p, x)
  {
    hide Ready, KeylessDefaults, PropAddresses, Populate;
    KeylessSpare(ctx);
    var db' := Populate(ctx, db, ty, v, update, place, i, depth).db;
    forall t: string, q: nat | HasRow(db, t, q) && PropRelies(ctx, base, p, x, t, q, db[t][q])
      ensures SameRow(db, db', t, q)
    {
      PopulateSpares(ctx, db, ty, v, update, place, i, depth, t, q);
    }
  }

  lemma DoneBack(
      ctx: Context, db: Db, db1: Db, db2: Db, ty: string, v: Value, place: Place, i: nat, p: Property, n: nat)
    requires ty in ctx.schema && i < |ctx.schema[ty].persisted| && HasRow(db, ty, place.row)
    requires HasRow(db2, ty, place.row)
    requires Grows(db, db1) && OnlyCell(db, db1, ty, place.row, p, ty, place.row)
    requires p.name != ctx.schema[ty].persisted[i].name
    requires Done(ctx, db1, db2, ty, v, place, i, n)
    ensures Done(ctx, db, db2, ty, v, place, i, n)
  {
    hide CellHolds;
    var q := ctx.schema[ty].persisted[i];
    match Chosen(ctx, ty, v, place, q)
    case Ok(Some((x, isDefault))) =>
      if !SkipsNull(q, x, isDefault) {
        CellHoldsWeaken(ctx, db, db1, db2, ty, place.row, q, x, n);
      }
    case _ =>
  }

  /** Writing the properties from the `i`-th on gets past the `j`-th. */
  ghost predicate Reaches(
      ctx: Context, db: Db, ty: string, v: Value, update: bool, place: Place, i: nat, depth: nat, j: nat)
    requires Ready(ctx, db) && ty in ctx.schema && HasRow(db, ty, place.row)
    requires i <= j < |ctx.schema[ty].persisted|
    decreases j - i
  {
    var p := ctx.schema[ty].persisted[i];
    if place.skipPrimary && ctx.schema[ty].IsPrimary(p) then
      i < j ==> Reaches(ctx, db, ty, v, update, place, i + 1, depth, j)
    else
      match Chosen(ctx, ty, v, place, p)
      case Err(_) => false
      case Ok(None) => i < j ==> Reaches(ctx, db, ty, v, update, place, i + 1, depth, j)
      case Ok(Some((x, isDefault))) =>
        var s := SetProperty(ctx, db, ty, place.row, p, x, update, isDefault, depth);
        s.out.Ok? && (i < j ==> Reaches(ctx, s.db, ty, v, update, place, i + 1, depth, j))
  }

  /** If all properties are written, each one is reached. */
  lemma {:induction false} AllReached(
      ctx: Context, db: Db, ty: string, v: Value, update: bool, place: Place, i: nat, depth: nat, j: nat)
    requires Ready(ctx, db) && ty in ctx.schema && HasRow(db, ty, place.row)
    requires i <= j < |ctx.schema[ty].persisted|
    requires Populate(ctx, db, ty, v, update, place, i, depth).out.Ok?
    ensures Reaches(ctx, db, ty, v, update, place, i, depth, j)
    decreases j - i
  {
    hide Ready, SetProperty, Chosen;
    var p := ctx.schema[ty].persisted[i];
    if i < j {
      if place.skipPrimary && ctx.schema[ty].IsPrimary(p) {
        AllReached(ctx, db, ty, v, update, place, i + 1, depth, j);
      } else {
        var c := Chosen(ctx, ty, v, place, p).value;
        var db1 := if c.Some? then SetProperty(ctx, db, ty, place.row, p, c.value.0, update, c.value.1, depth).db
                   else db;
        AllReached(ctx, db1, ty, v, update, place, i + 1, depth, j);
      }
    }
  }

  /** A property that is reached holds what was chosen for it in the end, also if a later one fails. */
  lemma {:induction false} PopulateHolds(
      ctx: Context, db: Db, ty: string, v: Value, update: bool, place: Place, i: nat, depth: nat, j: nat)
    requires Ready(ctx, db) && ty in ctx.schema && !ctx.inMigration && KeylessDefaults(ctx) && NoRepeat(ctx, ty, v)
    requires HasRow(db, ty, place.row) && place.skipPrimary && i <= j < |ctx.schema[ty].persisted|
    requires FieldsSpare(ctx, ty, v, i, ty, db[ty][place.row])
    requires Reaches(ctx, db, ty, v, update, place, i, depth, j)
    requires !ctx.schema[ty].IsPrimary(ctx.schema[ty].persisted[j])
    ensures Done(ctx, db, Populate(ctx, db, ty, v, update, place, i, depth).db, ty, v, place, j, depth)
    decreases depth, 3, |ctx.schema[ty].persisted| - i
  {
    hide Ready, KeylessDefaults, NoRepeat, FieldsSpare, OnlyCell, Done, Distinct, Populate, Chosen, SetProperty;
    ReadyDistinct(ctx, db, ty);
    var s' := Populate(ctx, db, ty, v, update, place, i, depth);
    if i < j {
      var db1 := OneProperty(ctx, db, ty, v, update, place, i, depth, j);
      DistinctAt(ctx.schema[ty].persisted, i, j);
      PopulateHolds(ctx, db1, ty, v, update, place, i + 1, depth, j);
      DoneBack(ctx, db, db1, s'.db, ty, v, place, j, ctx.schema[ty].persisted[i], depth);
    } else if Chosen(ctx, ty, v, place, ctx.schema[ty].persisted[i]) == Ok(None) {
      LeftAlone(ctx, db, ty, v, update, place, i, depth);
    } else {
      WrittenHolds(ctx, db, ty, v, update, place, i, depth);
    }
  }

  /** The tables after the `i`-th property alone. */
  lemma OneProperty(
      ctx: Context, db: Db, ty: string, v: Value, update: bool, place: Place, i: nat, depth: nat, j: nat)
    returns (db1: Db)
    requires Ready(ctx, db) && ty in ctx.schema && KeylessDefaults(ctx) && HasRow(db, ty, place.row)
    requires place.skipPrimary
    requires i < j < |ctx.schema[ty].persisted| && FieldsSpare(ctx, ty, v, i, ty, db[ty][place.row])
    requires Reaches(ctx, db, ty, v, update, place, i, depth, j)
    ensures Ready(ctx, db1) && Grows(db, db1)
    ensures Reaches(ctx, db1, ty, v, update, place, i + 1, depth, j)
    ensures Populate(ctx, db1, ty, v, update, place, i + 1, depth) == Populate(ctx, db, ty, v, update, place, i, depth)
    ensures OnlyCell(db, db1, ty, place.row, ctx.schema[ty].persisted[i], ty, place.row)
    ensures FieldsSpare(ctx, ty, v, i + 1, ty, db1[ty][place.row])
  {
    hide Ready, SetProperty, KeylessDefaults, FieldsSpare, PropSpares, Chosen;
    KeylessSpare(ctx);
    var p := ctx.schema[ty].persisted[i];
    db1 := db;
    ChosenSpares(ctx, ty, v, place, i, ty, db[ty][place.row]);
    if !ctx.schema[ty].IsPrimary(p) {
      var c := Chosen(ctx, ty, v, place, p).value;
      if c.Some? {
        db1 := SetProperty(ctx, db, ty, place.row, p, c.value.0, update, c.value.1, depth).db;
        SetSpares(ctx, db, ty, place.row, p, c.value.0, update, c.value.1, depth, ty, place.row);
        FieldsSpareSet(ctx, db, db1, ty, v, i + 1, place.row, p);
      }
    }
  }

  lemma ReadyDistinct(ctx: Context, db: Db, ty: string)
    requires Ready(ctx, db) && ty in ctx.schema
    ensures Distinct(ctx.schema[ty].persisted)
  {
    assert ObjectSchemaOk(ctx.schema, ctx.schema[ty]);
  }

  lemma DistinctAt(ps: seq<Property>, i: nat, j: nat)
    requires Distinct(ps) && i < j < |ps|
    ensures ps[i].name != ps[j].name
  {
  }

  lemma FieldsSpareSet(ctx: Context, db: Db, db': Db, ty: string, v: Value, i: nat, r: nat, p: Property)
    requires ty in ctx.schema && OnlyCell(db, db', ty, r, p, ty, r) && !ctx.schema[ty].IsPrimary(p)
    requires FieldsSpare(ctx, ty, v, i, ty, db[ty][r])
    ensures FieldsSpare(ctx, ty, v, i, ty, db'[ty][r])
  {
    FieldsSpareKey(ctx, ty, v, i, ty, db[ty][r], db'[ty][r]);
  }

  lemma NotFromNext(ctx: Context, ty: string, i: nat)
    requires SchemaOk(ctx.schema) && ty in ctx.schema && i < |ctx.schema[ty].persisted|
    ensures NotFrom(ctx.schema[ty], i + 1, ctx.schema[ty].persisted[i].name)
  {
    assert ObjectSchemaOk(ctx.schema, ctx.schema[ty]);
  }

  /** A property for which nothing was chosen keeps its cell. */
  lemma LeftAlone(ctx: Context, db: Db, ty: string, v: Value, update: bool, place: Place, i: nat, depth: nat)
    requires Ready(ctx, db) && ty in ctx.schema && KeylessDefaults(ctx) && HasRow(db, ty, place.row)
    requires place.skipPrimary
    requires i < |ctx.schema[ty].persisted| && FieldsSpare(ctx, ty, v, i, ty, db[ty][place.row])
    requires !ctx.schema[ty].IsPrimary(ctx.schema[ty].persisted[i])
    requires Chosen(ctx, ty, v, place, ctx.schema[ty].persisted[i]) == Ok(None)
    ensures Done(ctx, db, Populate(ctx, db, ty, v, update, place, i, depth).db, ty, v, place, i, depth)
  {
    KeylessSpare(ctx);
    NotFromNext(ctx, ty, i);
    hide Ready, KeylessDefaults, FieldsSpare, PropSpares, NotFrom;
    ChosenSpares(ctx, ty, v, place, i, ty, db[ty][place.row]);
    PopulateOwnRow(ctx, db, ty, v, update, place, i + 1, depth, ctx.schema[ty].persisted[i].name);
  }

  lemma ChosenOk(ctx: Context, db: Db, ty: string, v: Value, update: bool, place: Place, i: nat, depth: nat, j: nat)
    requires Ready(ctx, db) && ty in ctx.schema && HasRow(db, ty, place.row) && place.skipPrimary
    requires i <= j < |ctx.schema[ty].persisted|
    requires !ctx.schema[ty].IsPrimary(ctx.schema[ty].persisted[i])
    requires Reaches(ctx, db, ty, v, update, place, i, depth, j)
    ensures var c := Chosen(ctx, ty, v, place, ctx.schema[ty].persisted[i]);
            && c.Ok?
            && (c.value.Some? ==>
                  var s := SetProperty(ctx, db, ty, place.row, ctx.schema[ty].persisted[i], c.value.value.0, update,
                      c.value.value.1, depth);
                  s.out.Ok? && Populate(ctx, s.db, ty, v, update, place, i + 1, depth)
                    == Populate(ctx, db, ty, v, update, place, i, depth))
  {
    hide Chosen, SetProperty, Ready;
  }

  /** A written property still holds its value when all the others have been written. */
  lemma {:induction false} WrittenHolds(
      ctx: Context, db: Db, ty: string, v: Value, update: bool, place: Place, i: nat, depth: nat)
    requires Ready(ctx, db) && ty in ctx.schema && !ctx.inMigration && KeylessDefaults(ctx) && NoRepeat(ctx, ty, v)
    requires HasRow(db, ty, place.row) && place.skipPrimary && i < |ctx.schema[ty].persisted|
    requires FieldsSpare(ctx, ty, v, i, ty, db[ty][place.row])
    requires Reaches(ctx, db, ty, v, update, place, i, depth, i)
    requires !ctx.schema[ty].IsPrimary(ctx.schema[ty].persisted[i])
    requires var c := Chosen(ctx, ty, v, place, ctx.schema[ty].persisted[i]); c.Ok? && c.value.Some?
    ensures Done(ctx, db, Populate(ctx, db, ty, v, update, place, i, depth).db, ty, v, place, i, depth)
    decreases depth, 2, 1
  {
    KeylessSpare(ctx);
    NotFromNext(ctx, ty, i);
    ChosenOk(ctx, db, ty, v, update, place, i, depth, i);
    hide Reaches, Populate, Ready, SetProperty, KeylessDefaults, NoRepeat, PropNoRepeat, CellHolds, FieldsSpare,
        PropSpares, ApartFrom, OnlyCell, Chosen, NotFrom, PropAgree, SameCell;
    var p := ctx.schema[ty].persisted[i];
    var row := place.row;
    var x := Chosen(ctx, ty, v, place, p).value.value.0;
    var isDefault := Chosen(ctx, ty, v, place, p).value.value.1;
    ChosenSpares(ctx, ty, v, place, i, ty, db[ty][row]);
    ChosenIsApart(ctx, ty, v, place, i);
    var s := SetProperty(ctx, db, ty, row, p, x, update, isDefault, depth);
    var s' := Populate(ctx, s.db, ty, v, update, place, i + 1, depth);
    SetSpares(ctx, db, ty, row, p, x, update, isDefault, depth, ty, row);
    SetHolds(ctx, db, ty, row, p, x, update, isDefault, depth);
    FieldsSpareSet(ctx, db, s.db, ty, v, i + 1, row, p);
    PopulateOwnRow(ctx, s.db, ty, v, update, place, i + 1, depth, p.name);
    if SkipsNull(p, x, isDefault) {
      SameCellTrans(db[ty][row], s.db[ty][row], s'.db[ty][row], p.name);
    } else {
      PropSparesSet(ctx, db, s.db, ty, row, p, x);
      LaterAgrees(ctx, db, s.db, ty, v, update, place, i + 1, depth, p, x);
      CellHoldsStable(ctx, db, s.db, s'.db, ty, row, p, x, depth);
    }
  }

  lemma SameCellTrans(a: Row, b: Row, c: Row, name: string)
    requires SameCell(a, b, name) && SameCell(b, c, name)
    ensures SameCell(a, c, name)
  {
  }

  lemma PropSparesSet(ctx: Context, db: Db, db': Db, ty: string, r: nat, p: Property, x: Value)
    requires ty in ctx.schema && OnlyCell(db, db', ty, r, p, ty, r) && !ctx.schema[ty].IsPrimary(p)
    requires PropSpares(ctx, p, x, ty, db[ty][r])
    ensures PropSpares(ctx, p, x, ty, db'[ty][r])
  {
    PropSparesKey(ctx, p, x, ty, db[ty][r], db'[ty][r]);
  }

  /** A property that was written holds the value it was given. */
  lemma {:induction false} SetHolds(
      ctx: Context, db: Db, ty: string, row: nat, p: Property, v: Value, update: bool, isDefault: bool, depth: nat)
    requires Ready(ctx, db) && Column(ctx, db, ty, row, p) && !ctx.inMigration && KeylessDefaults(ctx)
    requires PropNoRepeat(ctx, p, v)
    requires !ctx.schema[ty].IsPrimary(p) && PropSpares(ctx, p, v, ty, db[ty][row])
    requires SetProperty(ctx, db, ty, row, p, v, update, isDefault, depth).out.Ok?
    ensures var s := SetProperty(ctx, db, ty, row, p, v, update, isDefault, depth);
            if SkipsNull(p, v, isDefault) then SameCell(db[ty][row], s.db[ty][row], p.name)
            else CellHolds(ctx, db, s.db, ty, row, p, v, depth)
    decreases depth, 2, 0
  {
    assert PersistedOk(ctx.schema, p);
    hide Ready, Assign, Unbox, KeylessDefaults, NoRepeat, PropSpares, Holds, ItemHolds;
    if p.kind.isNullable && v.Empty? {
      NullHolds(ctx, db, ty, row, p, depth);
    } else if p.kind.isArray {
      AssignHolds(ctx, db, ty, row, p, v, update, depth);
    } else if p.kind.base == Object {
      LinkHolds(ctx, db, ty, row, p, v, update, isDefault, depth);
    } else {
      ScalarHolds(ctx, db, ty, row, p, v, depth);
    }
  }

  lemma NullHolds(ctx: Context, db: Db, ty: string, row: nat, p: Property, n: nat)
    requires Ready(ctx, db) && Column(ctx, db, ty, row, p) && p.kind.isNullable && !p.kind.isArray
    ensures CellHolds(ctx, db, PutCell(ctx, db, ty, row, p, Nil), ty, row, p, Empty, n)
  {
  }

  lemma ScalarHolds(ctx: Context, db: Db, ty: string, row: nat, p: Property, v: Value, n: nat)
    requires Ready(ctx, db) && Column(ctx, db, ty, row, p) && !p.kind.isArray && UnboxScalar(p.kind.base, v).Ok?
    ensures CellHolds(ctx, db, PutCell(ctx, db, ty, row, p, UnboxScalar(p.kind.base, v).value), ty, row, p, v, n)
  {
  }

  lemma {:induction false} LinkHolds(
      ctx: Context, db: Db, ty: string, row: nat, p: Property, v: Value, update: bool, isDefault: bool, depth: nat)
    requires Ready(ctx, db) && Column(ctx, db, ty, row, p) && !ctx.inMigration && KeylessDefaults(ctx)
    requires PropNoRepeat(ctx, p, v)
    requires !ctx.schema[ty].IsPrimary(p) && PropSpares(ctx, p, v, ty, db[ty][row])
    requires p.kind.base == Object && !p.kind.isArray && !v.Empty? && PersistedOk(ctx.schema, p)
    requires SetProperty(ctx, db, ty, row, p, v, update, isDefault, depth).out.Ok?
    ensures CellHolds(ctx, db, SetProperty(ctx, db, ty, row, p, v, update, isDefault, depth).db, ty, row, p, v, depth)
    decreases depth, 1, 0
  {
    hide Ready, Unbox, KeylessDefaults, NoRepeat, Spares, PropSpares, PropNoRepeat, Holds, ItemHolds, PutCell, CellFits,
        SetProperty;
    KeylessSpare(ctx);
    OneNoRepeat(ctx, p, v);
    OneSpares(ctx, p, v, ty, db[ty][row]);
    UnboxSpares(ctx, db, p.target, v, update, depth, ty, row);
    LinkSet(ctx, db, ty, row, p, v, update, isDefault, depth);
    var s := Unbox(ctx, db, p.target, v, update, depth);
    var db' := PutCell(ctx, s.db, ty, row, p, Link(s.out.value.row));
    UnboxHolds(ctx, db, p, v, update, depth);
    PutAgrees(ctx, db, s.db, ty, row, p, p.target, v, Link(s.out.value.row));
    ItemHoldsStable(ctx, db, s.db, db', p, Link(s.out.value.row), v, depth);
    PutStores(ctx, s.db, ty, row, p, Link(s.out.value.row));
  }

  lemma OneNoRepeat(ctx: Context, p: Property, v: Value)
    requires p.kind.base == Object && !p.kind.isArray && PropNoRepeat(ctx, p, v)
    ensures NoRepeat(ctx, p.target, v)
  {
  }

  lemma PutStores(ctx: Context, db: Db, ty: string, row: nat, p: Property, c: Cell)
    requires Ready(ctx, db) && Column(ctx, db, ty, row, p) && CellFits(p, c)
    ensures var db' := PutCell(ctx, db, ty, row, p, c);
            HasRow(db', ty, row) && p.name in db'[ty][row] && db'[ty][row][p.name] == c
  {
  }

  /** Writing a cell of a row that `v` does not rely on. */
  lemma PutAgrees(ctx: Context, base: Db, db: Db, ty: string, row: nat, p: Property, child: string, v: Value, c: Cell)
    requires Ready(ctx, db) && Column(ctx, db, ty, row, p) && CellFits(p, c)
    requires HasRow(base, ty, row) || RowKey(ctx, ty, db[ty][row]).Some?
    requires Spares(ctx, child, v, ty, db[ty][row])
    ensures Agree(ctx, base, db, PutCell(ctx, db, ty, row, p, c), child, v)
  {
    hide Ready;
    var db' := PutCell(ctx, db, ty, row, p, c);
    forall t: string, q: nat | HasRow(db, t, q) && Relies(ctx, base, child, v, t, q, db[t][q])
      ensures SameRow(db, db', t, q)
    {
      assert t != ty || q != row;
    }
  }

  /** The row a value was turned into holds it. */
  lemma {:induction false} UnboxHolds(ctx: Context, db: Db, p: Property, v: Value, update: bool, depth: nat)
    requires Ready(ctx, db) && p.target in ctx.schema && !ctx.inMigration && KeylessDefaults(ctx)
    requires NoRepeat(ctx, p.target, v)
    requires p.kind.base == Object && (v.Empty? ==> p.kind.isArray)
    requires Unbox(ctx, db, p.target, v, update, depth).out.Ok?
    ensures var s := Unbox(ctx, db, p.target, v, update, depth);
            && ((v.RowOf? ==> HasRow(s.db, p.target, v.row) && (p.kind.isArray ==> v.table == p.target)) ==>
                  ItemHolds(ctx, db, s.db, p, Link(s.out.value.row), v, depth))
            && (!v.RowOf? ==> s.out.value.table == p.target && HasRow(s.db, p.target, s.out.value.row))
    decreases depth, 0, 0
  {
    hide Ready, Create, KeylessDefaults, NoRepeat, Holds;
    if !v.RowOf? {
      CreateHolds(ctx, db, p.target, v, update, depth - 1);
    }
  }

  /** A list that was assigned is exactly the elements given, in order. */
  lemma {:induction false} AssignHolds(
      ctx: Context, db: Db, ty: string, row: nat, p: Property, v: Value, update: bool, depth: nat)
    requires Ready(ctx, db) && Column(ctx, db, ty, row, p) && p.kind.isArray && !ctx.inMigration && KeylessDefaults(ctx)
    requires PropNoRepeat(ctx, p, v)
    requires !ctx.schema[ty].IsPrimary(p) && PropSpares(ctx, p, v, ty, db[ty][row])
    requires Assign(ctx, db, ty, row, p, v, update, depth).out.Ok? && (v.Empty? ==> !p.kind.isNullable)
    ensures CellHolds(ctx, db, Assign(ctx, db, ty, row, p, v, update, depth).db, ty, row, p, v, depth)
    decreases depth, 1, if v.Vec? then |v.elems| + 2 else 0
  {
    hide Ready, AppendAll, KeylessDefaults, PropSpares, PropNoRepeat, CellHolds, PutCell;
    if v == ListOf(ty, row, p.name) {
      SameListHolds(ctx, db, ty, row, p, v, depth);
    } else if v.Empty? {
      NullListHolds(ctx, db, ty, row, p, v, depth);
    } else {
      VecHolds(ctx, db, ty, row, p, v, update, depth);
    }
  }

  lemma SameListHolds(ctx: Context, db: Db, ty: string, row: nat, p: Property, v: Value, n: nat)
    requires Ready(ctx, db) && Column(ctx, db, ty, row, p) && p.kind.isArray && v == ListOf(ty, row, p.name)
    ensures CellHolds(ctx, db, db, ty, row, p, v, n)
  {
    assert RowFits(ctx.schema[ty], db[ty][row]);
  }

  lemma NullListHolds(ctx: Context, db: Db, ty: string, row: nat, p: Property, v: Value, n: nat)
    requires Ready(ctx, db) && Column(ctx, db, ty, row, p) && p.kind.isArray && v.Empty? && !p.kind.isNullable
    ensures CellHolds(ctx, db, PutCell(ctx, db, ty, row, p, Items([])), ty, row, p, v, n)
  {
    hide Ready;
  }

  lemma {:induction false} VecHolds(
      ctx: Context, db: Db, ty: string, row: nat, p: Property, v: Value, update: bool, depth: nat)
    requires Ready(ctx, db) && Column(ctx, db, ty, row, p) && p.kind.isArray && !ctx.inMigration && KeylessDefaults(ctx)
    requires PropNoRepeat(ctx, p, v)
    requires !ctx.schema[ty].IsPrimary(p) && PropSpares(ctx, p, v, ty, db[ty][row]) && v.Vec?
    requires AppendAll(ctx, PutCell(ctx, db, ty, row, p, Items([])), ty, row, p, v.elems, update, depth).out.Ok?
    ensures CellHolds(ctx, db, AppendAll(ctx, PutCell(ctx, db, ty, row, p, Items([])), ty, row, p, v.elems, update,
              depth).db, ty, row, p, v, depth)
    decreases depth, 1, |v.elems| + 1
  {
    hide Ready, AppendAll, KeylessDefaults, PropSpares, ItemHolds, PropNoRepeat;
    var db1 := PutCell(ctx, db, ty, row, p, Items([]));
    PropSparesKey(ctx, p, v, ty, db[ty][row], db1[ty][row]);
    assert v == Vec(v.elems);
    AppendAllHolds(ctx, db1, ty, row, p, v.elems, update, depth);
    var db' := AppendAll(ctx, db1, ty, row, p, v.elems, update, depth).db;
    CellHoldsWeaken(ctx, db, db1, db', ty, row, p, v, depth);
  }

  lemma {:induction false} AppendAllHolds(
      ctx: Context, db: Db, ty: string, row: nat, p: Property, vs: seq<Value>, update: bool, depth: nat)
    requires Ready(ctx, db) && Column(ctx, db, ty, row, p) && p.kind.isArray && !ctx.inMigration && KeylessDefaults(ctx)
    requires PropNoRepeat(ctx, p, Vec(vs))
    requires !ctx.schema[ty].IsPrimary(p) && PropSpares(ctx, p, Vec(vs), ty, db[ty][row])
    requires AppendAll(ctx, db, ty, row, p, vs, update, depth).out.Ok?
    ensures var s := AppendAll(ctx, db, ty, row, p, vs, update, depth);
            Column(ctx, s.db, ty, row, p) && Appended(ctx, db, s.db, p, ListAt(ctx, db, ty, row, p),
              ListAt(ctx, s.db, ty, row, p), vs, depth)
    decreases depth, 1, |vs|
  {
    hide Ready, AppendOne, KeylessDefaults, NoRepeat, ItemHolds, PropSpares, PropNoRepeat, Spares, Appended, PropAgree;
    KeylessSpare(ctx);
    var s' := AppendAll(ctx, db, ty, row, p, vs, update, depth);
    if vs == [] {
      AppendedNone(ctx, db, db, p, ListAt(ctx, db, ty, row, p), depth);
    } else {
      var s := AppendOne(ctx, db, ty, row, p, vs[0], update, depth);
      VecParts(ctx, p, vs, ty, db[ty][row]);
      AppendOneHolds(ctx, db, ty, row, p, vs[0], update, depth);
      AppendOneSpares(ctx, db, ty, row, p, vs[0], update, depth, ty, row);
      PropSparesSet(ctx, db, s.db, ty, row, p, Vec(vs[1..]));
      AppendAllHolds(ctx, s.db, ty, row, p, vs[1..], update, depth);
      PropSparesSet(ctx, db, s.db, ty, row, p, Vec([vs[0]]));
      RestAgrees(ctx, db, s.db, ty, row, p, vs, update, depth);
      AppendedCons(ctx, db, s.db, s'.db, p, ListAt(ctx, db, ty, row, p), ListAt(ctx, s.db, ty, row, p),
        ListAt(ctx, s'.db, ty, row, p), vs, depth);
    }
  }

  lemma AppendedNone(ctx: Context, base: Db, db: Db, p: Property, a: Cell, n: nat)
    requires a.Items?
    ensures Appended(ctx, base, db, p, a, a, [], n)
  {
  }

  lemma AppendedCons(
      ctx: Context, db: Db, db1: Db, db2: Db, p: Property, a: Cell, b: Cell, c: Cell, vs: seq<Value>, n: nat)
    requires KeylessDefaults(ctx) && vs != [] && Grows(db, db1)
    requires Appended(ctx, db, db1, p, a, b, [vs[0]], n) && Appended(ctx, db1, db2, p, b, c, vs[1..], n)
    requires Grows(db1, db2)
    requires p.kind.base == Object ==> Agree(ctx, db, db1, db2, p.target, vs[0])
    ensures Appended(ctx, db, db2, p, a, c, vs, n)
  {
    hide ItemHolds, Agree, KeylessDefaults;
    var m := |a.items|;
    forall i | 0 <= i < |vs| ensures ItemHolds(ctx, db, db2, p, c.items[m + i], vs[i], n) {
      if i == 0 {
        assert ItemHolds(ctx, db, db1, p, b.items[m + 0], [vs[0]][0], n);
        ItemHoldsStable(ctx, db, db1, db2, p, b.items[m], vs[0], n);
      } else {
        assert ItemHolds(ctx, db1, db2, p, c.items[|b.items| + (i - 1)], vs[1..][i - 1], n);
        ItemHoldsWeaken(ctx, db, db1, db2, p, c.items[m + i], vs[i], n);
      }
    }
  }

  lemma VecParts(ctx: Context, p: Property, vs: seq<Value>, t: string, row: Row)
    requires p.kind.isArray && vs != [] && PropNoRepeat(ctx, p, Vec(vs)) && PropSpares(ctx, p, Vec(vs), t, row)
    ensures PropNoRepeat(ctx, p, Vec(vs[1..])) && PropSpares(ctx, p, Vec(vs[1..]), t, row)
    ensures PropSpares(ctx, p, Vec([vs[0]]), t, row)
    ensures p.kind.base == Object ==> NoRepeat(ctx, p.target, vs[0]) && Spares(ctx, p.target, vs[0], t, row)
    ensures p.kind.base == Object ==>
              forall t: string, k: Cell ::
                !(Addresses(ctx, p.target, vs[0], t, k) && PropAddresses(ctx, p, Vec(vs[1..]), t, k))
  {
    if p.kind.base == Object {
      forall t: string, k: Cell | Addresses(ctx, p.target, vs[0], t, k)
        ensures !PropAddresses(ctx, p, Vec(vs[1..]), t, k)
      {
        forall i | 0 <= i < |vs[1..]| ensures !Addresses(ctx, p.target, vs[1..][i], t, k) {
          assert ElemsApart(ctx, p.target, vs[0], vs[i + 1]);
        }
      }
    }
  }

  /** Appending the later elements touches nothing the first one relies on. */
  lemma RestAgrees(
      ctx: Context, base: Db, db: Db, ty: string, row: nat, p: Property, vs: seq<Value>, update: bool, depth: nat)
    requires Ready(ctx, db) && Column(ctx, db, ty, row, p) && HasRow(base, ty, row) && p.kind.isArray
    requires !ctx.schema[ty].IsPrimary(p) && KeylessDefaults(ctx)
    requires vs != [] && PropNoRepeat(ctx, p, Vec(vs)) && PropSpares(ctx, p, Vec([vs[0]]), ty, db[ty][row])
    ensures p.kind.base == Object ==>
              Agree(ctx, base, db, AppendAll(ctx, db, ty, row, p, vs[1..], update, depth).db, p.target, vs[0])
  {
    hide Ready, KeylessDefaults, AppendAll, PropNoRepeat, NoRepeat, Addresses;
    KeylessSpare(ctx);
    if p.kind.base == Object {
      var db' := AppendAll(ctx, db, ty, row, p, vs[1..], update, depth).db;
      OwnerNotRelied(ctx, base, p, vs[0], ty, row, db[ty][row]);
      forall t: string, q: nat | HasRow(db, t, q) && Relies(ctx, base, p.target, vs[0], t, q, db[t][q])
        ensures SameRow(db, db', t, q)
      {
        RestSpares(ctx, p, vs, t, db[t][q]);
        AppendAllSpares(ctx, db, ty, row, p, vs[1..], update, depth, t, q);
      }
    }
  }

  lemma OwnerNotRelied(ctx: Context, base: Db, p: Property, v: Value, ty: string, r: nat, row: Row)
    requires p.kind.base == Object && p.kind.isArray && HasRow(base, ty, r) && PropSpares(ctx, p, Vec([v]), ty, row)
    ensures !Relies(ctx, base, p.target, v, ty, r, row)
  {
    assert Vec([v]).elems[0] == v;
  }

  lemma RestSpares(ctx: Context, p: Property, vs: seq<Value>, t: string, row: Row)
    requires p.kind.isArray && p.kind.base == Object && vs != [] && PropNoRepeat(ctx, p, Vec(vs))
    requires RowKey(ctx, t, row).Some? ==> Addresses(ctx, p.target, vs[0], t, RowKey(ctx, t, row).value)
    ensures PropSpares(ctx, p, Vec(vs[1..]), t, row)
  {
    if RowKey(ctx, t, row).Some? {
      var k := RowKey(ctx, t, row).value;
      forall i | 0 <= i < |vs[1..]| ensures !Addresses(ctx, p.target, vs[1..][i], t, k) {
        assert ElemsApart(ctx, p.target, vs[0], vs[i + 1]);
      }
    }
  }

  /** One more element at the end of the list, holding the value that was added. */
  lemma {:induction false} AppendOneHolds(
      ctx: Context, db: Db, ty: string, row: nat, p: Property, v: Value, update: bool, depth: nat)
    requires Ready(ctx, db) && Column(ctx, db, ty, row, p) && p.kind.isArray && !ctx.inMigration && KeylessDefaults(ctx)
    requires p.kind.base == Object ==> NoRepeat(ctx, p.target, v) && Spares(ctx, p.target, v, ty, db[ty][row])
    requires !ctx.schema[ty].IsPrimary(p) && AppendOne(ctx, db, ty, row, p, v, update, depth).out.Ok?
    ensures var s := AppendOne(ctx, db, ty, row, p, v, update, depth);
            Column(ctx, s.db, ty, row, p) && Appended(ctx, db, s.db, p, ListAt(ctx, db, ty, row, p),
              ListAt(ctx, s.db, ty, row, p), [v], depth)
    decreases depth, 1, 0
  {
    hide Ready, Unbox, KeylessDefaults, NoRepeat, Spares, ItemHolds, PushItem, PropSpares, Agree, Appended, SchemaOk,
        CellFits;
    KeylessSpare(ctx);
    TargetKnown(ctx, db, ty, row, p);
    if p.kind.base == Object {
      var s := Unbox(ctx, db, p.target, v, update, depth);
      AppendOneIs(ctx, db, ty, row, p, v, update, depth);
      UnboxHolds(ctx, db, p, v, update, depth);
      UnboxSpares(ctx, db, p.target, v, update, depth, ty, row);
      SameList(ctx, db, s.db, ty, row, p);
      PushHolds(ctx, db, s.db, ty, row, p, Link(s.out.value.row), v, depth);
    } else {
      ScalarItemHolds(ctx, db, db, p, v, depth);
      PushHolds(ctx, db, db, ty, row, p, UnboxItem(p, v).value, v, depth);
    }
  }

  lemma TargetKnown(ctx: Context, db: Db, ty: string, row: nat, p: Property)
    requires Ready(ctx, db) && Column(ctx, db, ty, row, p)
    ensures p.kind.base == Object ==> p.target in ctx.schema && p.kind.isNullable == !p.kind.isArray
  {
    assert ObjectSchemaOk(ctx.schema, ctx.schema[ty]);
    assert PersistedOk(ctx.schema, p);
  }

  lemma SameList(ctx: Context, db: Db, db': Db, ty: string, row: nat, p: Property)
    requires Ready(ctx, db) && Ready(ctx, db') && Column(ctx, db, ty, row, p) && p.kind.isArray
    requires HasRow(db', ty, row) && db'[ty][row] == db[ty][row]
    ensures Column(ctx, db', ty, row, p) && ListAt(ctx, db', ty, row, p) == ListAt(ctx, db, ty, row, p)
  {
  }

  lemma PushHolds(ctx: Context, base: Db, db: Db, ty: string, row: nat, p: Property, c: Cell, v: Value, n: nat)
    requires Ready(ctx, db) && Column(ctx, db, ty, row, p) && p.kind.isArray && ItemFits(p, c) && HasRow(base, ty, row)
    requires KeylessDefaults(ctx)
    requires p.kind.base == Object ==> Spares(ctx, p.target, v, ty, db[ty][row])
    requires ItemHolds(ctx, base, db, p, c, v, n)
    ensures var db' := PushItem(ctx, db, ty, row, p, c);
            Column(ctx, db', ty, row, p) && Appended(ctx, base, db', p, ListAt(ctx, db, ty, row, p),
              ListAt(ctx, db', ty, row, p), [v], n)
  {
    hide Ready, Spares, ItemHolds, PushItem, Agree, KeylessDefaults;
    var db' := PushItem(ctx, db, ty, row, p, c);
    if p.kind.base == Object {
      PushAgrees(ctx, base, db, ty, row, p, p.target, v, c);
    }
    ItemHoldsStable(ctx, base, db, db', p, c, v, n);
    PushAppends(ctx, db, ty, row, p, c);
  }

  lemma ScalarItemHolds(ctx: Context, base: Db, db: Db, p: Property, v: Value, n: nat)
    requires p.kind.base != Object && UnboxItem(p, v).Ok?
    ensures ItemHolds(ctx, base, db, p, UnboxItem(p, v).value, v, n)
  {
  }

  lemma PushAppends(ctx: Context, db: Db, ty: string, row: nat, p: Property, c: Cell)
    requires Ready(ctx, db) && Column(ctx, db, ty, row, p) && p.kind.isArray && ItemFits(p, c)
    ensures var db' := PushItem(ctx, db, ty, row, p, c);
            Column(ctx, db', ty, row, p) && ListAt(ctx, db', ty, row, p)
              == Items(ListAt(ctx, db, ty, row, p).items + [c])
  {
  }

  lemma PushAgrees(ctx: Context, base: Db, db: Db, ty: string, row: nat, p: Property, child: string, v: Value, c: Cell)
    requires Ready(ctx, db) && Column(ctx, db, ty, row, p) && p.kind.isArray && ItemFits(p, c) && HasRow(base, ty, row)
    requires Spares(ctx, child, v, ty, db[ty][row])
    ensures Agree(ctx, base, db, PushItem(ctx, db, ty, row, p, c), child, v)
  {
    var a := ListAt(ctx, db, ty, row, p);
    assert RowFits(ctx.schema[ty], db[ty][row]);
    hide SchemaOk, Shape, Addresses;
    PutAgrees(ctx, base, db, ty, row, p, child, v, Items(a.items + [c]));
  }

  /** The cells a list is filled with, one for each element in order: its row, or its scalar or null. */
  ghost function ElementCells(
      ctx: Context, db: Db, ty: string, row: nat, p: Property, vs: seq<Value>, update: bool, depth: nat): seq<Cell>
    requires Ready(ctx, db) && Column(ctx, db, ty, row, p) && p.kind.isArray
    requires p.kind.base == Object ==> p.target in ctx.schema
    decreases |vs|
  {
    if vs == [] then []
    else
      var s := AppendOne(ctx, db, ty, row, p, vs[0], update, depth);
      if s.out.Err? then []
      else [ElementCell(ctx, db, p, vs[0], update, depth)] + ElementCells(ctx, s.db, ty, row, p, vs[1..], update, depth)
  }

  ghost function ElementCell(ctx: Context, db: Db, p: Property, v: Value, update: bool, depth: nat): Cell
    requires Ready(ctx, db) && (p.kind.base == Object ==> p.target in ctx.schema)
  {
    if p.kind.base == Object then
      var r := Unbox(ctx, db, p.target, v, update, depth);
      if r.out.Ok? then Link(r.out.value.row) else Nil
    else if UnboxItem(p, v).Ok? then UnboxItem(p, v).value
    else Nil
  }

  lemma {:induction false} AppendAllExact(
      ctx: Context, db: Db, ty: string, row: nat, p: Property, vs: seq<Value>, update: bool, depth: nat)
    requires Ready(ctx, db) && Column(ctx, db, ty, row, p) && p.kind.isArray
    requires p.kind.base == Object ==> p.target in ctx.schema
    requires !ctx.schema[ty].IsPrimary(p) && DefaultsSpare(ctx, ty, db[ty][row])
    requires PropSpares(ctx, p, Vec(vs), ty, db[ty][row])
    requires AppendAll(ctx, db, ty, row, p, vs, update, depth).out.Ok?
    ensures var s := AppendAll(ctx, db, ty, row, p, vs, update, depth);
            && Column(ctx, s.db, ty, row, p)
            && ListAt(ctx, s.db, ty, row, p)
               == Items(ListAt(ctx, db, ty, row, p).items + ElementCells(ctx, db, ty, row, p, vs, update, depth))
    decreases |vs|
  {
    hide Ready, DefaultsSpare, Spares, SchemaOk, CellFits, AppendOne, OnlyCell, PropSpares, ElementCell;
    if vs != [] {
      var s := AppendOne(ctx, db, ty, row, p, vs[0], update, depth);
      AppendOneExact(ctx, db, ty, row, p, vs, update, depth);
      AppendAllExact(ctx, s.db, ty, row, p, vs[1..], update, depth);
    }
  }

  /** The first of some elements is appended, and the conditions on the others still hold. */
  lemma AppendOneExact(
      ctx: Context, db: Db, ty: string, row: nat, p: Property, vs: seq<Value>, update: bool, depth: nat)
    requires Ready(ctx, db) && Column(ctx, db, ty, row, p) && p.kind.isArray
    requires p.kind.base == Object ==> p.target in ctx.schema
    requires !ctx.schema[ty].IsPrimary(p) && DefaultsSpare(ctx, ty, db[ty][row])
    requires PropSpares(ctx, p, Vec(vs), ty, db[ty][row])
    requires vs != [] && AppendOne(ctx, db, ty, row, p, vs[0], update, depth).out.Ok?
    ensures var s := AppendOne(ctx, db, ty, row, p, vs[0], update, depth);
            && Column(ctx, s.db, ty, row, p)
            && DefaultsSpare(ctx, ty, s.db[ty][row]) && PropSpares(ctx, p, Vec(vs[1..]), ty, s.db[ty][row])
            && ListAt(ctx, s.db, ty, row, p)
               == Items(ListAt(ctx, db, ty, row, p).items + [ElementCell(ctx, db, p, vs[0], update, depth)])
  {
    hide Ready, DefaultsSpare, Unbox, Spares, PushItem, SchemaOk, CellFits, AppendOne, OnlyCell, PropSpares, RowKey;
    var s := AppendOne(ctx, db, ty, row, p, vs[0], update, depth);
    FirstSpares(ctx, p, vs, ty, db[ty][row]);
    AppendOneSpares(ctx, db, ty, row, p, vs[0], update, depth, ty, row);
    PropSparesSet(ctx, db, s.db, ty, row, p, Vec(vs[1..]));
    SameKeyAfter(ctx, db, s.db, ty, row, p);
    DefaultsSpareKey(ctx, ty, db[ty][row], s.db[ty][row]);
    if p.kind.base == Object {
      AppendOneIs(ctx, db, ty, row, p, vs[0], update, depth);
      var r := Unbox(ctx, db, p.target, vs[0], update, depth);
      UnboxSpares(ctx, db, p.target, vs[0], update, depth, ty, row);
      SameList(ctx, db, r.db, ty, row, p);
      PushAppends(ctx, r.db, ty, row, p, Link(r.out.value.row));
    } else {
      AppendScalarIs(ctx, db, ty, row, p, vs[0], update, depth);
      PushAppends(ctx, db, ty, row, p, UnboxItem(p, vs[0]).value);
    }
  }

  lemma SameKeyAfter(ctx: Context, db: Db, db': Db, ty: string, r: nat, p: Property)
    requires OnlyCell(db, db', ty, r, p, ty, r) && ty in ctx.schema && !ctx.schema[ty].IsPrimary(p)
    ensures RowKey(ctx, ty, db'[ty][r]) == RowKey(ctx, ty, db[ty][r])
  {
  }

  lemma AppendScalarIs(ctx: Context, db: Db, ty: string, row: nat, p: Property, v: Value, update: bool, depth: nat)
    requires Ready(ctx, db) && Column(ctx, db, ty, row, p) && p.kind.isArray && p.kind.base != Object
    requires AppendOne(ctx, db, ty, row, p, v, update, depth).out.Ok?
    ensures UnboxItem(p, v).Ok?
    ensures AppendOne(ctx, db, ty, row, p, v, update, depth).db == PushItem(ctx, db, ty, row, p, UnboxItem(p, v).value)
  {
    hide Ready, PushItem, UnboxItem;
  }

  lemma AppendOneIs(ctx: Context, db: Db, ty: string, row: nat, p: Property, v: Value, update: bool, depth: nat)
    requires Ready(ctx, db) && Column(ctx, db, ty, row, p) && p.kind.isArray && p.kind.base == Object
    requires p.target in ctx.schema
    requires AppendOne(ctx, db, ty, row, p, v, update, depth).out.Ok?
    ensures var r := Unbox(ctx, db, p.target, v, update, depth);
            && r.out.Ok? && Column(ctx, r.db, ty, row, p) && ItemFits(p, Link(r.out.value.row))
            && AppendOne(ctx, db, ty, row, p, v, update, depth).db
                 == PushItem(ctx, r.db, ty, row, p, Link(r.out.value.row))
            && (v.RowOf? ==> v.table == p.target && HasRow(r.db, p.target, v.row))
  {
    hide Ready, Create, PushItem;
  }

  lemma FirstSpares(ctx: Context, p: Property, vs: seq<Value>, t: string, row: Row)
    requires p.kind.isArray && vs != [] && PropSpares(ctx, p, Vec(vs), t, row)
    ensures p.kind.base == Object ==> Spares(ctx, p.target, vs[0], t, row)
    ensures PropSpares(ctx, p, Vec(vs[1..]), t, row)
  {
  }

  /**
   * Assigning to a list, when neither an element nor a default writes down the owner of the list:
   * the list itself changes nothing, null empties the list, and otherwise it becomes exactly the
   * cells of the elements in order, whatever it held before and however often an element repeats.
   */
  lemma AssignIsExact(ctx: Context, db: Db, ty: string, row: nat, p: Property, v: Value, update: bool, depth: nat)
    requires Ready(ctx, db) && Column(ctx, db, ty, row, p) && p.kind.isArray
    requires p.kind.base == Object ==> p.target in ctx.schema
    requires DefaultsSpare(ctx, ty, db[ty][row]) && PropSpares(ctx, p, v, ty, db[ty][row])
    ensures var s := Assign(ctx, db, ty, row, p, v, update, depth);
            && Column(ctx, s.db, ty, row, p)
            && (v == ListOf(ty, row, p.name) ==> s == Step(db, Ok(())))
            && (v.Empty? ==> s == Step(SetCell(db, ty, row, p.name, Items([])), Ok(())))
            && (v.Vec? && s.out.Ok? ==>
                  var db1 := PutCell(ctx, db, ty, row, p, Items([]));
                  ListAt(ctx, s.db, ty, row, p) == Items(ElementCells(ctx, db1, ty, row, p, v.elems, update, depth)))
  {
    hide Ready, DefaultsSpare, PropSpares, AppendAll, ElementCells, SchemaOk, RowKey;
    ColumnPersisted(ctx, db, ty, row, p);
    var db1 := PutCell(ctx, db, ty, row, p, Items([]));
    if v.Vec? && Assign(ctx, db, ty, row, p, v, update, depth).out.Ok? {
      PutSameKey(ctx, db, ty, row, p, Items([]));
      PropSparesKey(ctx, p, v, ty, db[ty][row], db1[ty][row]);
      DefaultsSpareKey(ctx, ty, db[ty][row], db1[ty][row]);
      assert v == Vec(v.elems);
      AppendAllExact(ctx, db1, ty, row, p, v.elems, update, depth);
      PutStores(ctx, db, ty, row, p, Items([]));
      assert ListAt(ctx, db1, ty, row, p) == Items([]);
    }
  }

  lemma PutSameKey(ctx: Context, db: Db, ty: string, row: nat, p: Property, c: Cell)
    requires Ready(ctx, db) && Column(ctx, db, ty, row, p) && CellFits(p, c) && !ctx.schema[ty].IsPrimary(p)
    ensures RowKey(ctx, ty, PutCell(ctx, db, ty, row, p, c)[ty][row]) == RowKey(ctx, ty, db[ty][row])
  {
    hide Ready;
  }

  /** All properties of the written row. */
  lemma {:induction false} PopulateAllHold(
      ctx: Context, db: Db, ty: string, v: Value, update: bool, place: Place, depth: nat)
    requires Ready(ctx, db) && ty in ctx.schema && !ctx.inMigration && KeylessDefaults(ctx) && NoRepeat(ctx, ty, v)
    requires HasRow(db, ty, place.row) && place.skipPrimary
    requires FieldsSpare(ctx, ty, v, 0, ty, db[ty][place.row])
    requires Populate(ctx, db, ty, v, update, place, 0, depth).out.Ok?
    ensures AllDone(ctx, db, Populate(ctx, db, ty, v, update, place, 0, depth).db, ty, v, place, depth)
    ensures RowKey(ctx, ty, Populate(ctx, db, ty, v, update, place, 0, depth).db[ty][place.row])
              == RowKey(ctx, ty, db[ty][place.row])
    decreases depth, 4, 0
  {
    hide Ready, KeylessDefaults, NoRepeat, Done, FieldsSpare, Populate, PropSpares;
    KeylessSpare(ctx);
    var os := ctx.schema[ty];
    var db' := Populate(ctx, db, ty, v, update, place, 0, depth).db;
    forall j | 0 <= j < |os.persisted| && !os.IsPrimary(os.persisted[j])
      ensures Done(ctx, db, db', ty, v, place, j, depth)
    {
      AllReached(ctx, db, ty, v, update, place, 0, depth, j);
      PopulateHolds(ctx, db, ty, v, update, place, 0, depth, j);
    }
    if os.primary.Some? {
      PopulateOwnRow(ctx, db, ty, v, update, place, 0, depth, os.primary.value);
    }
  }

  ghost predicate AllDone(ctx: Context, base: Db, db: Db, ty: string, v: Value, place: Place, n: nat)
    requires ty in ctx.schema && HasRow(base, ty, place.row) && HasRow(db, ty, place.row)
  {
    forall j | 0 <= j < |ctx.schema[ty].persisted| && !ctx.schema[ty].IsPrimary(ctx.schema[ty].persisted[j]) ::
      Done(ctx, base, db, ty, v, place, j, n)
  }

  /** What a property that is not given must hold: as before in an old row, its default or nothing in a new one. */
  ghost predicate Rest(ctx: Context, db: Db, db': Db, ty: string, r: nat, p: Property, n: nat)
    requires HasRow(db', ty, r)
  {
    if HasRow(db, ty, r) then SameCell(db[ty][r], db'[ty][r], p.name) else Settled(ctx, db, db', ty, r, p, n)
  }

  /** A row that was appended has only empty cells so far, beside its key; otherwise nothing has changed yet. */
  ghost predicate Fresh(ctx: Context, base: Db, db: Db, ty: string, place: Place)
    requires ty in ctx.schema && HasRow(db, ty, place.row)
  {
    if place.created then
      && !HasRow(base, ty, place.row)
      && forall p | p in ctx.schema[ty].persisted && !ctx.schema[ty].IsPrimary(p) ::
           p.name in db[ty][place.row] && db[ty][place.row][p.name] == EmptyCell(p)
    else HasRow(base, ty, place.row) && db == base
  }

  lemma LocateFresh(ctx: Context, db: Db, ty: string, v: Value, update: bool)
    requires Ready(ctx, db) && ty in ctx.schema && !ctx.inMigration && Locate(ctx, db, ty, v, update).out.Ok?
    ensures var l := Locate(ctx, db, ty, v, update); Fresh(ctx, db, l.db, ty, l.out.value)
  {
    hide SchemaOk, Shape, Ready, Locate;
    var l := Locate(ctx, db, ty, v, update);
    LocateAppends(ctx, db, ty, v, update);
    if l.out.value.created {
      forall p | p in ctx.schema[ty].persisted && !ctx.schema[ty].IsPrimary(p)
        ensures p.name in l.db[ty][l.out.value.row] && l.db[ty][l.out.value.row][p.name] == EmptyCell(p)
      {
        LocateEmpty(ctx, db, ty, v, update, p);
      }
    }
  }

  lemma LocateAppends(ctx: Context, db: Db, ty: string, v: Value, update: bool)
    requires Ready(ctx, db) && ty in ctx.schema && !ctx.inMigration && Locate(ctx, db, ty, v, update).out.Ok?
    ensures var l := Locate(ctx, db, ty, v, update);
            if l.out.value.created then l.out.value.row == |db[ty]| else HasRow(db, ty, l.out.value.row) && l.db == db
  {
    hide Ready, SchemaOk, Shape, KeyOf, FindKey, AddEmptyRow, PutCell;
  }

  lemma LocateEmpty(ctx: Context, db: Db, ty: string, v: Value, update: bool, p: Property)
    requires Ready(ctx, db) && ty in ctx.schema && !ctx.inMigration && Locate(ctx, db, ty, v, update).out.Ok?
    requires Locate(ctx, db, ty, v, update).out.value.created
    requires p in ctx.schema[ty].persisted && !ctx.schema[ty].IsPrimary(p)
    ensures var l := Locate(ctx, db, ty, v, update);
            p.name in l.db[ty][l.out.value.row] && l.db[ty][l.out.value.row][p.name] == EmptyCell(p)
  {
    hide SchemaOk, Shape, Ready;
    ReadySchema(ctx, db, ty);
    NamedIsIt(ctx.schema[ty].persisted, p);
    assert p.name in EmptyRow(ctx.schema[ty]);
  }

  /** A default of null leaves the empty cell, which is null as well. */
  lemma RestDone(ctx: Context, base: Db, db: Db, db': Db, ty: string, v: Value, place: Place, i: nat, n: nat)
    requires SchemaOk(ctx.schema) && ty in ctx.schema && i < |ctx.schema[ty].persisted| && Grows(base, db)
    requires HasRow(db, ty, place.row) && HasRow(db', ty, place.row) && Done(ctx, db, db', ty, v, place, i, n)
    requires v.Dict? && ctx.schema[ty].persisted[i].name !in v.fields
    requires !ctx.schema[ty].IsPrimary(ctx.schema[ty].persisted[i]) && Fresh(ctx, base, db, ty, place)
    ensures Rest(ctx, base, db', ty, place.row, ctx.schema[ty].persisted[i], n)
  {
    var p := ctx.schema[ty].persisted[i];
    assert ObjectSchemaOk(ctx.schema, ctx.schema[ty]);
    assert PersistedOk(ctx.schema, p);
    hide SchemaOk, ObjectSchemaOk;
    if place.created && DefaultFor(ctx, ty, p.name).Some? {
      var x := DefaultFor(ctx, ty, p.name).value;
      if SkipsNull(p, x, true) {
        assert CellHolds(ctx, base, db', ty, place.row, p, x, n);
      } else {
        CellHoldsWeaken(ctx, base, db, db', ty, place.row, p, x, n);
      }
    }
  }

  /** A property of the root that was given is held, and another one is settled or as before. */
  lemma RootProperty(
      ctx: Context, base: Db, db: Db, db': Db, ty: string, place: Place, v: Value, n: nat, p: Property)
    requires ty in ctx.schema && HasRow(db, ty, place.row) && HasRow(db', ty, place.row) && Grows(base, db)
    requires SchemaOk(ctx.schema) && AllDone(ctx, db, db', ty, v, place, n) && Fresh(ctx, base, db, ty, place)
    requires p in ctx.schema[ty].persisted && !ctx.schema[ty].IsPrimary(p)
    ensures v.Dict?
    ensures p.name in v.fields ==> CellHolds(ctx, base, db', ty, place.row, p, v.fields[p.name], n)
    ensures p.name !in v.fields ==> Rest(ctx, base, db', ty, place.row, p, n)
  {
    hide CellHolds, SchemaOk, ObjectSchemaOk, Settled, Fresh, Rest;
    var j :| 0 <= j < |ctx.schema[ty].persisted| && ctx.schema[ty].persisted[j] == p;
    assert Done(ctx, db, db', ty, v, place, j, n);
    if p.name in v.fields {
      CellHoldsWeaken(ctx, base, db, db', ty, place.row, p, v.fields[p.name], n);
    } else {
      RestDone(ctx, base, db, db', ty, v, place, j, n);
    }
  }

  lemma RootHolds(ctx: Context, base: Db, db: Db, db': Db, ty: string, place: Place, v: Value, n: nat)
    requires ty in ctx.schema && HasRow(db, ty, place.row) && HasRow(db', ty, place.row) && Grows(base, db)
    requires RootKey(ctx, base, db, ty, place.row, v) && Fresh(ctx, base, db, ty, place)
    requires RowKey(ctx, ty, db'[ty][place.row]) == RowKey(ctx, ty, db[ty][place.row])
    requires SchemaOk(ctx.schema) && AllDone(ctx, db, db', ty, v, place, n)
    ensures Holds(ctx, base, db', ty, place.row, v, n)
  {
    hide CellHolds, SchemaOk, Settled, Fresh, Done, AllDone, RowKey, NodeKey;
    var os := ctx.schema[ty];
    KeyIsNotAll(ctx, ty);
    forall p | p in os.persisted && !os.IsPrimary(p)
      ensures v.Dict?
      ensures p.name in v.fields ==> CellHolds(ctx, base, db', ty, place.row, p, v.fields[p.name], n)
      ensures p.name !in v.fields ==> Rest(ctx, base, db', ty, place.row, p, n)
    {
      RootProperty(ctx, base, db, db', ty, place, v, n, p);
    }
    NodeIsDict(ctx, ty, v);
    assert os.persisted != [] ==> os.persisted[0] in os.persisted;
  }

  lemma NodeIsDict(ctx: Context, ty: string, v: Value)
    requires ty in ctx.schema
    ensures NodeKey(ctx, ty, v).Some? ==> v.Dict?
  {
  }

  /** A type without a key has no primary property. */
  lemma KeyIsNotAll(ctx: Context, ty: string)
    requires SchemaOk(ctx.schema) && ty in ctx.schema
    ensures PrimaryProp(ctx.schema[ty]).None? ==>
              forall p | p in ctx.schema[ty].persisted :: !ctx.schema[ty].IsPrimary(p)
  {
    assert ObjectSchemaOk(ctx.schema, ctx.schema[ty]);
  }
}
