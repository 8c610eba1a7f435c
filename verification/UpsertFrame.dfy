/** Which stored rows a nested value can touch, and that it touches no others. */
module UpsertFrame {
  import opened Wrappers
  import opened Schemas
  import opened Tables
  import opened Upsert

  /** The key of the node `v` itself, if it is a keyed object with a usable key. */
  function NodeKey(ctx: Context, ty: string, v: Value): Option<Cell>
    requires ty in ctx.schema
  {
    match PrimaryProp(ctx.schema[ty])
    case None => None
    case Some(pk) =>
      match KeyOf(ctx, ty, pk, v)
      case Ok(k) => Some(k)
      case Err(_) => None
  }

  /** Some object of type `t` with key `k` is written down in `v`, read as an object of type `ty`. */
  ghost predicate Addresses(ctx: Context, ty: string, v: Value, t: string, k: Cell)
    decreases v, 0
  {
    && v.Dict?
    && ty in ctx.schema
    && (|| (ty == t && NodeKey(ctx, ty, v) == Some(k))
        || exists p | p in ctx.schema[ty].persisted && p.name in v.fields ::
           PropAddresses(ctx, p, v.fields[p.name], t, k))
  }

  ghost predicate PropAddresses(ctx: Context, p: Property, v: Value, t: string, k: Cell)
    decreases v
  {
    && p.kind.base == Object
    && if p.kind.isArray then v.Vec? && exists i | 0 <= i < |v.elems| :: Addresses(ctx, p.target, v.elems[i], t, k)
       else Addresses(ctx, p.target, v, t, k)
  }

  /** The key of a stored row; none for a type without a primary key. */
  function RowKey(ctx: Context, t: string, row: Row): Option<Cell> {
    if t in ctx.schema && ctx.schema[t].primary.Some? && ctx.schema[t].primary.value in row
    then Some(row[ctx.schema[t].primary.value]) else None
  }

  /** `v` does not write down the object stored in the given row. */
  ghost predicate Spares(ctx: Context, ty: string, v: Value, t: string, row: Row) {
    RowKey(ctx, t, row).Some? ==> !Addresses(ctx, ty, v, t, RowKey(ctx, t, row).value)
  }

  ghost predicate PropSpares(ctx: Context, p: Property, v: Value, t: string, row: Row) {
    RowKey(ctx, t, row).Some? ==> !PropAddresses(ctx, p, v, t, RowKey(ctx, t, row).value)
  }

  /** No default writes down the object stored in the given row; trivially so for a row without a key. */
  ghost predicate DefaultsSpare(ctx: Context, t: string, row: Row) {
    forall ty, p | ty in ctx.schema && p in ctx.schema[ty].persisted && (ty, p.name) in ctx.defaults ::
      PropSpares(ctx, p, ctx.defaults[(ty, p.name)], t, row)
  }

  /** Every object written down in a default is of a type without a primary key. */
  ghost predicate KeylessDefaults(ctx: Context) {
    forall ty, p, t, k | ty in ctx.schema && p in ctx.schema[ty].persisted && (ty, p.name) in ctx.defaults ::
      !PropAddresses(ctx, p, ctx.defaults[(ty, p.name)], t, k)
  }

  lemma KeylessSpare(ctx: Context)
    requires KeylessDefaults(ctx)
    ensures forall t: string, row: Row :: DefaultsSpare(ctx, t, row)
  {
    hide PropAddresses;
  }

  lemma DefaultsSpareKey(ctx: Context, t: string, a: Row, b: Row)
    requires DefaultsSpare(ctx, t, a) && RowKey(ctx, t, a) == RowKey(ctx, t, b)
    ensures DefaultsSpare(ctx, t, b)
  {
  }

  lemma KeylessRowsSpared(ctx: Context, t: string, row: Row)
    requires RowKey(ctx, t, row).None?
    ensures DefaultsSpare(ctx, t, row) && forall ty: string, v: Value :: Spares(ctx, ty, v, t, row)
  {
  }

  /** No property of `v` from the `i`-th on writes down the object stored in the given row. */
  ghost predicate FieldsSpare(ctx: Context, ty: string, v: Value, i: nat, t: string, row: Row)
    requires ty in ctx.schema
  {
    v.Dict? ==> forall j | i <= j < |ctx.schema[ty].persisted| && ctx.schema[ty].persisted[j].name in v.fields ::
      PropSpares(ctx, ctx.schema[ty].persisted[j], v.fields[ctx.schema[ty].persisted[j].name], t, row)
  }

  lemma LocateAddressed(ctx: Context, db: Db, ty: string, v: Value, update: bool)
    requires Ready(ctx, db) && ty in ctx.schema
    requires Locate(ctx, db, ty, v, update).out.Ok?
    ensures var r := Locate(ctx, db, ty, v, update).out.value.row;
            r == |db[ty]| || (r < |db[ty]| && RowKey(ctx, ty, db[ty][r]).Some?
              && NodeKey(ctx, ty, v) == RowKey(ctx, ty, db[ty][r]))
  {
    assert ObjectSchemaOk(ctx.schema, ctx.schema[ty]);
    RowsHaveKey(ctx, db, ty);
  }

  lemma RowsHaveKey(ctx: Context, db: Db, ty: string)
    requires Ready(ctx, db) && ty in ctx.schema
    ensures ctx.schema[ty].primary.Some? ==> forall r | 0 <= r < |db[ty]| :: ctx.schema[ty].primary.value in db[ty][r]
  {
    assert ObjectSchemaOk(ctx.schema, ctx.schema[ty]);
    if ctx.schema[ty].primary.Some? {
      RowsHave(ctx.schema, db, ty, Named(ctx.schema[ty].persisted, ctx.schema[ty].primary.value).value);
    }
  }

  /**
   * Creating or updating from `v` leaves every stored row alone that `v` does not write down;
   * stored rows without a key are always left alone, and all stored rows are without updating.
   */
  lemma {:induction false} CreateSpares(
      ctx: Context, db: Db, ty: string, v: Value, update: bool, depth: nat, t: string, r: nat)
    requires Ready(ctx, db) && ty in ctx.schema
    requires HasRow(db, t, r)
    requires update ==> DefaultsSpare(ctx, t, db[t][r]) && Spares(ctx, ty, v, t, db[t][r])
    ensures Create(ctx, db, ty, v, update, depth).db[t][r] == db[t][r]
    decreases depth, 4, 0
  {
    hide Ready, Populate, Locate, DefaultsSpare;
    var l := Locate(ctx, db, ty, v, update);
    LocateSpares(ctx, db, ty, v, update, t, r);
    if ctx.inWrite && l.out.Ok? {
      var place := l.out.value;
      LocateAddressed(ctx, db, ty, v, update);
      if update {
        ChildrenSpare(ctx, ty, v, t, db[t][r]);
        if t == ty {
          RootSpared(ctx, ty, v, db[ty][r]);
        }
      } else {
        LocateInserts(ctx, db, ty, v);
      }
      PopulateSpares(ctx, l.db, ty, v, update, place, 0, depth, t, r);
    }
  }

  /** Without updating, the row that is written is always a new one. */
  lemma LocateInserts(ctx: Context, db: Db, ty: string, v: Value)
    requires Ready(ctx, db) && ty in ctx.schema && Locate(ctx, db, ty, v, false).out.Ok?
    ensures var place := Locate(ctx, db, ty, v, false).out.value; place.row == |db[ty]| && place.created
  {
    hide Ready, Shape, SchemaOk, KeyOf, FindKey, AddEmptyRow, PutCell;
  }

  lemma RootSpared(ctx: Context, ty: string, v: Value, row: Row)
    requires ty in ctx.schema && Spares(ctx, ty, v, ty, row)
    ensures RowKey(ctx, ty, row).Some? ==> NodeKey(ctx, ty, v) != RowKey(ctx, ty, row)
  {
  }

  lemma ChildrenSpare(ctx: Context, ty: string, v: Value, t: string, row: Row)
    requires ty in ctx.schema && Spares(ctx, ty, v, t, row)
    ensures FieldsSpare(ctx, ty, v, 0, t, row)
  {
    var ps := ctx.schema[ty].persisted;
    if v.Dict? && RowKey(ctx, t, row).Some? {
      forall j | 0 <= j < |ps| && ps[j].name in v.fields ensures PropSpares(ctx, ps[j], v.fields[ps[j].name], t, row) {
        assert ps[j] in ps;
      }
    }
  }

  lemma ChosenSpares(ctx: Context, ty: string, v: Value, place: Place, i: nat, t: string, row: Row)
    requires ty in ctx.schema && i < |ctx.schema[ty].persisted|
    requires DefaultsSpare(ctx, t, row) && FieldsSpare(ctx, ty, v, i, t, row)
    ensures var p := ctx.schema[ty].persisted[i];
            var c := Chosen(ctx, ty, v, place, p);
            c.Ok? && c.value.Some? ==> PropSpares(ctx, p, c.value.value.0, t, row)
    ensures FieldsSpare(ctx, ty, v, i + 1, t, row)
  {
    assert ctx.schema[ty].persisted[i] in ctx.schema[ty].persisted;
    hide PropSpares;
  }

  lemma {:induction false} PopulateSpares(
      ctx: Context, db: Db, ty: string, v: Value, update: bool, place: Place, i: nat, depth: nat, t: string, r: nat)
    requires Ready(ctx, db) && ty in ctx.schema && HasRow(db, ty, place.row)
    requires i <= |ctx.schema[ty].persisted|
    requires HasRow(db, t, r)
    requires update ==> DefaultsSpare(ctx, t, db[t][r]) && FieldsSpare(ctx, ty, v, i, t, db[t][r])
    requires t != ty || r != place.row
    ensures Populate(ctx, db, ty, v, update, place, i, depth).db[t][r] == db[t][r]
    decreases depth, 3, |ctx.schema[ty].persisted| - i
  {
    hide Ready, SetProperty, DefaultsSpare, Chosen, FieldsSpare, PropSpares;
    var os := ctx.schema[ty];
    if i < |os.persisted| {
      var p := os.persisted[i];
      if update {
        ChosenSpares(ctx, ty, v, place, i, t, db[t][r]);
      }
      if place.skipPrimary && os.IsPrimary(p) {
        PopulateSpares(ctx, db, ty, v, update, place, i + 1, depth, t, r);
      } else {
        match Chosen(ctx, ty, v, place, p)
        case Err(e) =>
        case Ok(None) => PopulateSpares(ctx, db, ty, v, update, place, i + 1, depth, t, r);
        case Ok(Some((x, isDefault))) =>
          var s := SetProperty(ctx, db, ty, place.row, p, x, update, isDefault, depth);
          SetSpares(ctx, db, ty, place.row, p, x, update, isDefault, depth, t, r);
          if s.out.Ok? {
            PopulateSpares(ctx, s.db, ty, v, update, place, i + 1, depth, t, r);
          }
      }
    }
  }

  /** The written row keeps its key, and every cell that is not written from the `i`-th property on. */
  lemma {:induction false} PopulateOwnRow(
      ctx: Context, db: Db, ty: string, v: Value, update: bool, place: Place, i: nat, depth: nat, name: string)
    requires Ready(ctx, db) && ty in ctx.schema && HasRow(db, ty, place.row) && place.skipPrimary
    requires i <= |ctx.schema[ty].persisted| && Unwritten(ctx.schema[ty], v, place, i, name)
    requires FieldsSpare(ctx, ty, v, i, ty, db[ty][place.row]) && DefaultsSpare(ctx, ty, db[ty][place.row])
    ensures KeepsCellAndKey(ctx, ty, db[ty][place.row], Populate(ctx, db, ty, v, update, place, i,
              depth).db[ty][place.row], name)
    decreases depth, 3, |ctx.schema[ty].persisted| - i
  {
    hide Ready, SetProperty, DefaultsSpare, Chosen, FieldsSpare, PropSpares, KeepsCellAndKey, RowKey, OnlyCell;
    var os := ctx.schema[ty];
    var r := place.row;
    KeepsRefl(ctx, ty, db[ty][r], name);
    if i < |os.persisted| {
      var p := os.persisted[i];
      ChosenSpares(ctx, ty, v, place, i, ty, db[ty][r]);
      NotChosen(ctx, ty, v, place, p, name);
      if os.IsPrimary(p) {
        PopulateOwnRow(ctx, db, ty, v, update, place, i + 1, depth, name);
      } else {
        match Chosen(ctx, ty, v, place, p)
        case Err(e) =>
        case Ok(None) => PopulateOwnRow(ctx, db, ty, v, update, place, i + 1, depth, name);
        case Ok(Some((x, isDefault))) =>
          var s := SetProperty(ctx, db, ty, r, p, x, update, isDefault, depth);
          SetSpares(ctx, db, ty, r, p, x, update, isDefault, depth, ty, r);
          OnlyCellKeeps(ctx, db, s.db, ty, r, p, name);
          KeepsThenSpares(ctx, ty, v, i + 1, db[ty][r], s.db[ty][r], name);
          if s.out.Ok? {
            var s' := Populate(ctx, s.db, ty, v, update, place, i + 1, depth);
            PopulateOwnRow(ctx, s.db, ty, v, update, place, i + 1, depth, name);
            KeepsTrans(ctx, ty, db[ty][r], s.db[ty][r], s'.db[ty][r], name);
          }
      }
    }
  }

  /** A property is not written any more: it is passed already, or an existing row is not given it. */
  ghost predicate Unwritten(os: ObjectSchema, v: Value, place: Place, i: nat, name: string) {
    NotFrom(os, i, name) || (v.Dict? && name !in v.fields && !place.created)
  }

  lemma NotChosen(ctx: Context, ty: string, v: Value, place: Place, p: Property, name: string)
    requires ty in ctx.schema
    ensures v.Dict? && name !in v.fields && !place.created && p.name == name ==>
              Chosen(ctx, ty, v, place, p) == Ok(None)
  {
  }

  ghost predicate NotFrom(os: ObjectSchema, i: nat, name: string) {
    forall k | i <= k < |os.persisted| && os.persisted[k].name == name :: os.IsPrimary(os.persisted[k])
  }

  ghost predicate KeepsCellAndKey(ctx: Context, ty: string, a: Row, b: Row, name: string) {
    SameCell(a, b, name) && RowKey(ctx, ty, a) == RowKey(ctx, ty, b)
  }

  lemma KeepsRefl(ctx: Context, ty: string, a: Row, name: string)
    ensures KeepsCellAndKey(ctx, ty, a, a, name)
  {
  }

  lemma KeepsTrans(ctx: Context, ty: string, a: Row, b: Row, c: Row, name: string)
    requires KeepsCellAndKey(ctx, ty, a, b, name) && KeepsCellAndKey(ctx, ty, b, c, name)
    ensures KeepsCellAndKey(ctx, ty, a, c, name)
  {
  }

  lemma KeepsThenSpares(ctx: Context, ty: string, v: Value, i: nat, a: Row, b: Row, name: string)
    requires ty in ctx.schema && FieldsSpare(ctx, ty, v, i, ty, a) && KeepsCellAndKey(ctx, ty, a, b, name)
    ensures FieldsSpare(ctx, ty, v, i, ty, b)
    ensures DefaultsSpare(ctx, ty, a) ==> DefaultsSpare(ctx, ty, b)
  {
    hide FieldsSpare;
    FieldsSpareKey(ctx, ty, v, i, ty, a, b);
  }

  lemma OnlyCellKeeps(ctx: Context, db: Db, db': Db, ty: string, r: nat, p: Property, name: string)
    requires OnlyCell(db, db', ty, r, p, ty, r) && ty in ctx.schema && !ctx.schema[ty].IsPrimary(p) && p.name != name
    ensures KeepsCellAndKey(ctx, ty, db[ty][r], db'[ty][r], name)
  {
  }

  predicate SameCell(a: Row, b: Row, name: string) {
    name in a <==> name in b && (name in a ==> a[name] == b[name])
  }

  lemma FieldsSpareKey(ctx: Context, ty: string, v: Value, i: nat, t: string, a: Row, b: Row)
    requires ty in ctx.schema && FieldsSpare(ctx, ty, v, i, t, a)
    ensures RowKey(ctx, t, a) == RowKey(ctx, t, b) ==> FieldsSpare(ctx, ty, v, i, t, b)
  {
  }

  /** Writing a property changes at most its own cell and the rows its value writes down. */
  lemma {:induction false} SetSpares(
      ctx: Context, db: Db, ty: string, row: nat, p: Property, v: Value, update: bool, isDefault: bool, depth: nat,
      t: string, r: nat)
    requires Ready(ctx, db) && Column(ctx, db, ty, row, p)
    requires HasRow(db, t, r) && (update ==> DefaultsSpare(ctx, t, db[t][r]) && PropSpares(ctx, p, v, t, db[t][r]))
    ensures var db' := SetProperty(ctx, db, ty, row, p, v, update, isDefault, depth).db;
            OnlyCell(db, db', ty, row, p, t, r)
    decreases depth, 2, 0
  {
    hide Ready, Assign, Unbox, DefaultsSpare, SchemaOk, PutCell, OnlyCell, UnboxScalar, PropSpares, CellFits;
    ColumnPersisted(ctx, db, ty, row, p);
    FitsHere(p);
    if p.kind.isNullable && v.Empty? {
      if !p.kind.isArray {
        PutOnly(ctx, db, db, ty, row, p, Nil, t, r);
      }
    } else if p.kind.isArray {
      AssignSpares(ctx, db, ty, row, p, v, update, depth, t, r);
    } else if p.kind.base == Object {
      if update {
        OneSpares(ctx, p, v, t, db[t][r]);
      }
      UnboxSpares(ctx, db, p.target, v, update, depth, t, r);
      var s := Unbox(ctx, db, p.target, v, update, depth);
      SameOnly(db, s.db, ty, row, p, t, r);
      if s.out.Ok? {
        PutOnly(ctx, db, s.db, ty, row, p, Link(s.out.value.row), t, r);
      }
    } else if UnboxScalar(p.kind.base, v).Ok? {
      PutOnly(ctx, db, db, ty, row, p, UnboxScalar(p.kind.base, v).value, t, r);
    }
    SameOnly(db, db, ty, row, p, t, r);
  }

  lemma FitsHere(p: Property)
    ensures !p.kind.isArray && p.kind.base == Object ==> forall r: nat :: CellFits(p, Link(r))
    ensures !p.kind.isArray && p.kind.isNullable ==> CellFits(p, Nil)
    ensures !p.kind.isArray ==>
              forall v: Value :: UnboxScalar(p.kind.base, v).Ok? ==> CellFits(p, UnboxScalar(p.kind.base, v).value)
  {
  }

  lemma OneSpares(ctx: Context, p: Property, v: Value, t: string, row: Row)
    requires p.kind.base == Object && !p.kind.isArray && PropSpares(ctx, p, v, t, row)
    ensures Spares(ctx, p.target, v, t, row)
  {
  }

  lemma SameOnly(db: Db, db': Db, ty: string, row: nat, p: Property, t: string, r: nat)
    requires HasRow(db, t, r) && HasRow(db', t, r) && db'[t][r] == db[t][r]
    ensures OnlyCell(db, db', ty, row, p, t, r)
  {
  }

  lemma PutOnly(ctx: Context, db: Db, db': Db, ty: string, row: nat, p: Property, c: Cell, t: string, r: nat)
    requires Ready(ctx, db') && Column(ctx, db', ty, row, p) && CellFits(p, c)
    requires HasRow(db, t, r) && HasRow(db', t, r) && db'[t][r] == db[t][r]
    ensures OnlyCell(db, PutCell(ctx, db', ty, row, p, c), ty, row, p, t, r)
  {
    hide Ready;
  }

  /** The row is as before, except that if it is the written one its cell `p` may differ. */
  ghost predicate OnlyCell(db: Db, db': Db, ty: string, row: nat, p: Property, t: string, r: nat) {
    && HasRow(db, t, r)
    && HasRow(db', t, r)
    && if t == ty && r == row then
         db'[t][r] == db[t][r] || (p.name in db'[t][r] && db'[t][r] == db[t][r][p.name := db'[t][r][p.name]])
       else db'[t][r] == db[t][r]
  }

  lemma {:induction false} UnboxSpares(
      ctx: Context, db: Db, ty: string, v: Value, update: bool, depth: nat, t: string, r: nat)
    requires Ready(ctx, db) && ty in ctx.schema
    requires HasRow(db, t, r)
    requires update ==> DefaultsSpare(ctx, t, db[t][r]) && Spares(ctx, ty, v, t, db[t][r])
    ensures Unbox(ctx, db, ty, v, update, depth).db[t][r] == db[t][r]
    decreases depth, 0, 0
  {
    hide Ready, Create, DefaultsSpare;
    if !v.RowOf? && depth > 0 {
      CreateSpares(ctx, db, ty, v, update, depth - 1, t, r);
    }
  }

  lemma {:induction false} AssignSpares(
      ctx: Context, db: Db, ty: string, row: nat, p: Property, v: Value, update: bool, depth: nat, t: string, r: nat)
    requires Ready(ctx, db) && Column(ctx, db, ty, row, p) && p.kind.isArray
    requires HasRow(db, t, r) && (update ==> DefaultsSpare(ctx, t, db[t][r]) && PropSpares(ctx, p, v, t, db[t][r]))
    requires !ctx.schema[ty].IsPrimary(p)
    ensures OnlyCell(db, Assign(ctx, db, ty, row, p, v, update, depth).db, ty, row, p, t, r)
    decreases depth, 1, if v.Vec? then |v.elems| + 1 else 0
  {
    hide Ready, AppendAll, DefaultsSpare;
    var db1 := PutCell(ctx, db, ty, row, p, Items([]));
    if v.Vec? {
      if update {
        PropSparesKey(ctx, p, v, t, db[t][r], db1[t][r]);
        DefaultsSpareKey(ctx, t, db[t][r], db1[t][r]);
      }
      AppendAllSpares(ctx, db1, ty, row, p, v.elems, update, depth, t, r);
    }
  }

  lemma PropSparesKey(ctx: Context, p: Property, v: Value, t: string, a: Row, b: Row)
    requires PropSpares(ctx, p, v, t, a) && RowKey(ctx, t, a) == RowKey(ctx, t, b)
    ensures PropSpares(ctx, p, v, t, b)
  {
  }

  lemma {:induction false} AppendAllSpares(
      ctx: Context, db: Db, ty: string, row: nat, p: Property, vs: seq<Value>, update: bool, depth: nat, t: string,
      r: nat)
    requires Ready(ctx, db) && Column(ctx, db, ty, row, p) && p.kind.isArray
    requires HasRow(db, t, r)
    requires update ==> DefaultsSpare(ctx, t, db[t][r]) && PropSpares(ctx, p, Vec(vs), t, db[t][r])
    requires !ctx.schema[ty].IsPrimary(p)
    ensures OnlyCell(db, AppendAll(ctx, db, ty, row, p, vs, update, depth).db, ty, row, p, t, r)
    decreases depth, 1, |vs|
  {
    hide Ready, AppendOne, DefaultsSpare;
    if vs != [] {
      var s := AppendOne(ctx, db, ty, row, p, vs[0], update, depth);
      AppendOneSpares(ctx, db, ty, row, p, vs[0], update, depth, t, r);
      if s.out.Ok? {
        if update {
          assert PropSpares(ctx, p, Vec(vs[1..]), t, db[t][r]);
          PropSparesKey(ctx, p, Vec(vs[1..]), t, db[t][r], s.db[t][r]);
          DefaultsSpareKey(ctx, t, db[t][r], s.db[t][r]);
        }
        AppendAllSpares(ctx, s.db, ty, row, p, vs[1..], update, depth, t, r);
      }
    }
  }

  lemma {:induction false} AppendOneSpares(
      ctx: Context, db: Db, ty: string, row: nat, p: Property, v: Value, update: bool, depth: nat, t: string, r: nat)
    requires Ready(ctx, db) && Column(ctx, db, ty, row, p) && p.kind.isArray
    requires HasRow(db, t, r) && (update ==> DefaultsSpare(ctx, t, db[t][r]))
    requires update && p.kind.base == Object ==> Spares(ctx, p.target, v, t, db[t][r])
    ensures OnlyCell(db, AppendOne(ctx, db, ty, row, p, v, update, depth).db, ty, row, p, t, r)
    decreases depth, 1, 0
  {
    hide Ready, Unbox, DefaultsSpare, Spares, Addresses, SchemaOk, PushItem, OnlyCell, CellFits;
    ColumnPersisted(ctx, db, ty, row, p);
    SameOnly(db, db, ty, row, p, t, r);
    if p.kind.base == Object {
      UnboxSpares(ctx, db, p.target, v, update, depth, t, r);
      var s := Unbox(ctx, db, p.target, v, update, depth);
      SameOnly(db, s.db, ty, row, p, t, r);
      if s.out.Ok? && HasRow(s.db, s.out.value.table, s.out.value.row) && s.out.value.table == p.target {
        PushOnly(ctx, db, s.db, ty, row, p, Link(s.out.value.row), t, r);
      }
    } else if UnboxItem(p, v).Ok? {
      PushOnly(ctx, db, db, ty, row, p, UnboxItem(p, v).value, t, r);
    } else if UnboxItem(p, v).error == NullNotAllowed {
      PushOnly(ctx, db, db, ty, row, p, Atom(ZeroScalar(p.kind.base)), t, r);
    }
  }

  lemma PushOnly(ctx: Context, db: Db, db': Db, ty: string, row: nat, p: Property, c: Cell, t: string, r: nat)
    requires Ready(ctx, db') && Column(ctx, db', ty, row, p) && p.kind.isArray && ItemFits(p, c)
    requires HasRow(db, t, r) && HasRow(db', t, r) && db'[t][r] == db[t][r]
    ensures OnlyCell(db, PushItem(ctx, db', ty, row, p, c), ty, row, p, t, r)
  {
    assert RowFits(ctx.schema[ty], db'[ty][row]);
    hide Ready, PutCell, OnlyCell;
    PutOnly(ctx, db, db', ty, row, p, Items(db'[ty][row][p.name].items + [c]), t, r);
  }
}
