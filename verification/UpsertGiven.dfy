/** Of the objects that a nested value names, only the properties that it gives can change. */
module UpsertGiven {
  import opened Wrappers
  import opened Schemas
  import opened Tables
  import opened Upsert
  import opened UpsertFrame

  /** Some object of type `t` with key `k` written down in `v` is given the property `name`. */
  ghost predicate Gives(ctx: Context, ty: string, v: Value, t: string, k: Cell, name: string)
    decreases v, 0
  {
    && v.Dict?
    && ty in ctx.schema
    && (|| (ty == t && NodeKey(ctx, ty, v) == Some(k) && name in v.fields)
        || exists p | p in ctx.schema[ty].persisted && p.name in v.fields ::
             PropGives(ctx, p, v.fields[p.name], t, k, name))
  }

  ghost predicate PropGives(ctx: Context, p: Property, v: Value, t: string, k: Cell, name: string)
    decreases v
  {
    && p.kind.base == Object
    && if p.kind.isArray then v.Vec? && exists i | 0 <= i < |v.elems| :: Gives(ctx, p.target, v.elems[i], t, k, name)
       else Gives(ctx, p.target, v, t, k, name)
  }

  /** `v` does not give the property `name` to the object stored in the given row. */
  ghost predicate Ungiven(ctx: Context, ty: string, v: Value, t: string, row: Row, name: string) {
    RowKey(ctx, t, row).Some? ==> !Gives(ctx, ty, v, t, RowKey(ctx, t, row).value, name)
  }

  ghost predicate PropUngiven(ctx: Context, p: Property, v: Value, t: string, row: Row, name: string) {
    RowKey(ctx, t, row).Some? ==> !PropGives(ctx, p, v, t, RowKey(ctx, t, row).value, name)
  }

  /** No default gives the property `name` to the object stored in the given row. */
  ghost predicate DefaultsUngiven(ctx: Context, t: string, row: Row, name: string) {
    forall ty, p | ty in ctx.schema && p in ctx.schema[ty].persisted && (ty, p.name) in ctx.defaults ::
      PropUngiven(ctx, p, ctx.defaults[(ty, p.name)], t, row, name)
  }

  /** No property of `v` from the `i`-th on gives `name` to the object stored in the given row. */
  ghost predicate FieldsUngiven(ctx: Context, ty: string, v: Value, i: nat, t: string, row: Row, name: string)
    requires ty in ctx.schema
  {
    v.Dict? ==> forall j | i <= j < |ctx.schema[ty].persisted| && ctx.schema[ty].persisted[j].name in v.fields ::
      PropUngiven(ctx, ctx.schema[ty].persisted[j], v.fields[ctx.schema[ty].persisted[j].name], t, row, name)
  }

  /** What gives a property to an object also writes the object down. */
  lemma {:induction false} GivesAddresses(ctx: Context, ty: string, v: Value, t: string, k: Cell, name: string)
    requires Gives(ctx, ty, v, t, k, name)
    ensures Addresses(ctx, ty, v, t, k)
    decreases v, 0
  {
    if !(ty == t && NodeKey(ctx, ty, v) == Some(k)) {
      var p :| p in ctx.schema[ty].persisted && p.name in v.fields && PropGives(ctx, p, v.fields[p.name], t, k, name);
      PropGivesAddresses(ctx, p, v.fields[p.name], t, k, name);
    }
  }

  lemma {:induction false} PropGivesAddresses(ctx: Context, p: Property, v: Value, t: string, k: Cell, name: string)
    requires PropGives(ctx, p, v, t, k, name)
    ensures PropAddresses(ctx, p, v, t, k)
    decreases v, 1
  {
    if p.kind.isArray {
      var i :| 0 <= i < |v.elems| && Gives(ctx, p.target, v.elems[i], t, k, name);
      GivesAddresses(ctx, p.target, v.elems[i], t, k, name);
    } else {
      GivesAddresses(ctx, p.target, v, t, k, name);
    }
  }

  /** Defaults that address no keyed object give nothing to one. */
  lemma KeylessUngiven(ctx: Context, t: string, row: Row, name: string)
    requires KeylessDefaults(ctx)
    ensures DefaultsUngiven(ctx, t, row, name)
  {
    forall ty, p | ty in ctx.schema && p in ctx.schema[ty].persisted && (ty, p.name) in ctx.defaults
      ensures PropUngiven(ctx, p, ctx.defaults[(ty, p.name)], t, row, name)
    {
      var x := ctx.defaults[(ty, p.name)];
      if RowKey(ctx, t, row).Some? && PropGives(ctx, p, x, t, RowKey(ctx, t, row).value, name) {
        PropGivesAddresses(ctx, p, x, t, RowKey(ctx, t, row).value, name);
      }
    }
  }

  // ---- conditions carried from step to step ----

  lemma RootUngiven(ctx: Context, ty: string, v: Value, t: string, row: Row, name: string)
    requires ty in ctx.schema && Ungiven(ctx, ty, v, t, row, name)
    ensures FieldsUngiven(ctx, ty, v, 0, t, row, name)
    ensures t == ty && RowKey(ctx, t, row).Some? && NodeKey(ctx, ty, v) == RowKey(ctx, t, row) ==>
              v.Dict? && name !in v.fields
  {
    var ps := ctx.schema[ty].persisted;
    if v.Dict? && RowKey(ctx, t, row).Some? {
      forall j | 0 <= j < |ps| && ps[j].name in v.fields
        ensures PropUngiven(ctx, ps[j], v.fields[ps[j].name], t, row, name)
      {
        assert ps[j] in ps;
      }
    }
  }

  lemma ChosenUngiven(ctx: Context, ty: string, v: Value, place: Place, i: nat, t: string, row: Row, name: string)
    requires ty in ctx.schema && i < |ctx.schema[ty].persisted|
    requires DefaultsUngiven(ctx, t, row, name) && FieldsUngiven(ctx, ty, v, i, t, row, name)
    ensures var p := ctx.schema[ty].persisted[i];
            var c := Chosen(ctx, ty, v, place, p);
            c.Ok? && c.value.Some? ==> PropUngiven(ctx, p, c.value.value.0, t, row, name)
    ensures FieldsUngiven(ctx, ty, v, i + 1, t, row, name)
  {
    assert ctx.schema[ty].persisted[i] in ctx.schema[ty].persisted;
    hide PropUngiven;
  }

  /** All of this depends on nothing but the key of the row. */
  lemma SameKeyUngiven(ctx: Context, t: string, a: Row, b: Row, name: string)
    requires RowKey(ctx, t, a) == RowKey(ctx, t, b)
    ensures DefaultsUngiven(ctx, t, a, name) ==> DefaultsUngiven(ctx, t, b, name)
    ensures forall p, v: Value :: PropUngiven(ctx, p, v, t, a, name) ==> PropUngiven(ctx, p, v, t, b, name)
    ensures forall ty, v: Value :: Ungiven(ctx, ty, v, t, a, name) ==> Ungiven(ctx, ty, v, t, b, name)
    ensures forall ty, v: Value, i: nat | ty in ctx.schema ::
              FieldsUngiven(ctx, ty, v, i, t, a, name) ==> FieldsUngiven(ctx, ty, v, i, t, b, name)
  {
    hide PropGives, Gives, RowKey;
  }

  lemma LocateFound(ctx: Context, db: Db, ty: string, v: Value, update: bool)
    requires Ready(ctx, db) && ty in ctx.schema && Locate(ctx, db, ty, v, update).out.Ok?
    ensures var place := Locate(ctx, db, ty, v, update).out.value;
            place.row < |db[ty]| ==> !place.created && place.skipPrimary
  {
  }

  // ---- what is kept ----

  /** A cell that is not written, or the cell of another row. */
  ghost predicate Elsewhere(os: ObjectSchema, ty: string, row: nat, p: Property, t: string, r: nat, name: string) {
    t == ty && r == row ==> p.name != name && !os.IsPrimary(p)
  }

  /**
   * Creating or updating from `v` changes no property of a stored object that neither `v` nor a
   * default gives to an object with its type and key, on every exit.
   */
  lemma {:induction false} CreateKeeps(
      ctx: Context, db: Db, ty: string, v: Value, update: bool, depth: nat, t: string, r: nat, name: string)
    requires Ready(ctx, db) && ty in ctx.schema && HasRow(db, t, r)
    requires DefaultsUngiven(ctx, t, db[t][r], name) && Ungiven(ctx, ty, v, t, db[t][r], name)
    ensures KeepsCellAndKey(ctx, t, db[t][r], Create(ctx, db, ty, v, update, depth).db[t][r], name)
    decreases depth, 4, 0
  {
    hide Ready, Populate, Locate, DefaultsUngiven, FieldsUngiven, Ungiven, KeepsCellAndKey;
    KeepsRefl(ctx, t, db[t][r], name);
    var l := Locate(ctx, db, ty, v, update);
    LocateSpares(ctx, db, ty, v, update, t, r);
    if ctx.inWrite && l.out.Ok? {
      LocateAddressed(ctx, db, ty, v, update);
      LocateFound(ctx, db, ty, v, update);
      RootUngiven(ctx, ty, v, t, db[t][r], name);
      PopulateKeeps(ctx, l.db, ty, v, update, l.out.value, 0, depth, t, r, name);
    }
  }

  lemma {:induction false} PopulateKeeps(
      ctx: Context, db: Db, ty: string, v: Value, update: bool, place: Place, i: nat, depth: nat, t: string, r: nat,
      name: string)
    requires Ready(ctx, db) && ty in ctx.schema && HasRow(db, ty, place.row)
    requires i <= |ctx.schema[ty].persisted| && HasRow(db, t, r)
    requires DefaultsUngiven(ctx, t, db[t][r], name) && FieldsUngiven(ctx, ty, v, i, t, db[t][r], name)
    requires t == ty && r == place.row ==> place.skipPrimary && Unwritten(ctx.schema[ty], v, place, i, name)
    ensures KeepsCellAndKey(
              ctx, t, db[t][r], Populate(ctx, db, ty, v, update, place, i, depth).db[t][r], name)
    decreases depth, 3, |ctx.schema[ty].persisted| - i, 1
  {
    hide Ready, SetProperty, DefaultsUngiven, Chosen, FieldsUngiven, PropUngiven, KeepsCellAndKey, RowKey;
    KeepsRefl(ctx, t, db[t][r], name);
    var os := ctx.schema[ty];
    if i < |os.persisted| {
      var p := os.persisted[i];
      ChosenUngiven(ctx, ty, v, place, i, t, db[t][r], name);
      NotChosen(ctx, ty, v, place, p, name);
      if place.skipPrimary && os.IsPrimary(p) {
        PopulateKeeps(ctx, db, ty, v, update, place, i + 1, depth, t, r, name);
      } else {
        match Chosen(ctx, ty, v, place, p)
        case Err(e) =>
        case Ok(None) => PopulateKeeps(ctx, db, ty, v, update, place, i + 1, depth, t, r, name);
        case Ok(Some((x, isDefault))) =>
          PropertyKeeps(ctx, db, ty, v, update, place, i, depth, t, r, name, x, isDefault);
      }
    }
  }

  /** The `i`-th property is written, and then the later ones. */
  lemma {:induction false} PropertyKeeps(
      ctx: Context, db: Db, ty: string, v: Value, update: bool, place: Place, i: nat, depth: nat, t: string, r: nat,
      name: string, x: Value, isDefault: bool)
    requires Ready(ctx, db) && ty in ctx.schema && HasRow(db, ty, place.row)
    requires i < |ctx.schema[ty].persisted| && HasRow(db, t, r)
    requires DefaultsUngiven(ctx, t, db[t][r], name) && FieldsUngiven(ctx, ty, v, i + 1, t, db[t][r], name)
    requires PropUngiven(ctx, ctx.schema[ty].persisted[i], x, t, db[t][r], name)
    requires t == ty && r == place.row ==> place.skipPrimary && Unwritten(ctx.schema[ty], v, place, i + 1, name)
    requires Elsewhere(ctx.schema[ty], ty, place.row, ctx.schema[ty].persisted[i], t, r, name)
    ensures var s := SetProperty(ctx, db, ty, place.row, ctx.schema[ty].persisted[i], x, update, isDefault, depth);
            && KeepsCellAndKey(ctx, t, db[t][r], s.db[t][r], name)
            && KeepsCellAndKey(
                 ctx, t, db[t][r], Populate(ctx, s.db, ty, v, update, place, i + 1, depth).db[t][r], name)
    decreases depth, 3, |ctx.schema[ty].persisted| - i, 0
  {
    hide Ready, SetProperty, Populate, DefaultsUngiven, FieldsUngiven, PropUngiven, KeepsCellAndKey, RowKey, Unwritten,
        Elsewhere;
    var p := ctx.schema[ty].persisted[i];
    var db1 := SetProperty(ctx, db, ty, place.row, p, x, update, isDefault, depth).db;
    SetKeeps(ctx, db, ty, place.row, p, x, update, isDefault, depth, t, r, name);
    NextUngiven(ctx, ty, v, i + 1, t, db[t][r], db1[t][r], name);
    PopulateKeeps(ctx, db1, ty, v, update, place, i + 1, depth, t, r, name);
    KeepsTrans(ctx, t, db[t][r], db1[t][r], Populate(ctx, db1, ty, v, update, place, i + 1, depth).db[t][r], name);
  }

  lemma NextUngiven(ctx: Context, ty: string, v: Value, i: nat, t: string, a: Row, b: Row, name: string)
    requires ty in ctx.schema && KeepsCellAndKey(ctx, t, a, b, name)
    requires DefaultsUngiven(ctx, t, a, name) && FieldsUngiven(ctx, ty, v, i, t, a, name)
    ensures DefaultsUngiven(ctx, t, b, name) && FieldsUngiven(ctx, ty, v, i, t, b, name)
  {
    hide DefaultsUngiven, FieldsUngiven, RowKey;
    SameKeyUngiven(ctx, t, a, b, name);
  }

  lemma KeptKey(ctx: Context, t: string, a: Row, b: Row, name: string)
    requires KeepsCellAndKey(ctx, t, a, b, name)
    ensures RowKey(ctx, t, a) == RowKey(ctx, t, b) && SameCell(a, b, name)
  {
  }

  lemma {:induction false} SetKeeps(
      ctx: Context, db: Db, ty: string, row: nat, p: Property, v: Value, update: bool, isDefault: bool, depth: nat,
      t: string, r: nat, name: string)
    requires Ready(ctx, db) && Column(ctx, db, ty, row, p) && HasRow(db, t, r)
    requires DefaultsUngiven(ctx, t, db[t][r], name) && PropUngiven(ctx, p, v, t, db[t][r], name)
    requires Elsewhere(ctx.schema[ty], ty, row, p, t, r, name)
    ensures KeepsCellAndKey(
              ctx, t, db[t][r], SetProperty(ctx, db, ty, row, p, v, update, isDefault, depth).db[t][r], name)
    decreases depth, 2, 0
  {
    hide Ready, Assign, Unbox, DefaultsUngiven, SchemaOk, PutCell, UnboxScalar, PropUngiven, CellFits, KeepsCellAndKey,
        Elsewhere;
    ColumnPersisted(ctx, db, ty, row, p);
    FitsHere(p);
    KeepsRefl(ctx, t, db[t][r], name);
    if p.kind.isNullable && v.Empty? {
      if !p.kind.isArray {
        PutKeeps(ctx, db, db, ty, row, p, Nil, t, r, name);
      }
    } else if p.kind.isArray {
      AssignKeeps(ctx, db, ty, row, p, v, update, depth, t, r, name);
    } else if p.kind.base == Object {
      OneUngiven(ctx, p, v, t, db[t][r], name);
      UnboxKeeps(ctx, db, p.target, v, update, depth, t, r, name);
      var s := Unbox(ctx, db, p.target, v, update, depth);
      if s.out.Ok? {
        PutKeeps(ctx, db, s.db, ty, row, p, Link(s.out.value.row), t, r, name);
      }
    } else if UnboxScalar(p.kind.base, v).Ok? {
      PutKeeps(ctx, db, db, ty, row, p, UnboxScalar(p.kind.base, v).value, t, r, name);
    }
  }

  lemma OneUngiven(ctx: Context, p: Property, v: Value, t: string, row: Row, name: string)
    requires p.kind.base == Object && !p.kind.isArray && PropUngiven(ctx, p, v, t, row, name)
    ensures Ungiven(ctx, p.target, v, t, row, name)
  {
  }

  lemma PutKeeps(
      ctx: Context, db: Db, db': Db, ty: string, row: nat, p: Property, c: Cell, t: string, r: nat, name: string)
    requires Ready(ctx, db') && Column(ctx, db', ty, row, p) && CellFits(p, c)
    requires HasRow(db, t, r) && HasRow(db', t, r) && KeepsCellAndKey(ctx, t, db[t][r], db'[t][r], name)
    requires Elsewhere(ctx.schema[ty], ty, row, p, t, r, name)
    ensures KeepsCellAndKey(ctx, t, db[t][r], PutCell(ctx, db', ty, row, p, c)[t][r], name)
  {
    hide Ready;
  }

  lemma {:induction false} UnboxKeeps(
      ctx: Context, db: Db, ty: string, v: Value, update: bool, depth: nat, t: string, r: nat, name: string)
    requires Ready(ctx, db) && ty in ctx.schema && HasRow(db, t, r)
    requires DefaultsUngiven(ctx, t, db[t][r], name) && Ungiven(ctx, ty, v, t, db[t][r], name)
    ensures KeepsCellAndKey(ctx, t, db[t][r], Unbox(ctx, db, ty, v, update, depth).db[t][r], name)
    decreases depth, 0, 0
  {
    hide Ready, Create, DefaultsUngiven, Ungiven, KeepsCellAndKey;
    KeepsRefl(ctx, t, db[t][r], name);
    if !v.RowOf? && depth > 0 {
      CreateKeeps(ctx, db, ty, v, update, depth - 1, t, r, name);
    }
  }

  lemma {:induction false} AssignKeeps(
      ctx: Context, db: Db, ty: string, row: nat, p: Property, v: Value, update: bool, depth: nat, t: string, r: nat,
      name: string)
    requires Ready(ctx, db) && Column(ctx, db, ty, row, p) && p.kind.isArray && HasRow(db, t, r)
    requires DefaultsUngiven(ctx, t, db[t][r], name) && PropUngiven(ctx, p, v, t, db[t][r], name)
    requires Elsewhere(ctx.schema[ty], ty, row, p, t, r, name)
    ensures KeepsCellAndKey(ctx, t, db[t][r], Assign(ctx, db, ty, row, p, v, update, depth).db[t][r], name)
    decreases depth, 1, if v.Vec? then |v.elems| + 1 else 0
  {
    hide Ready, AppendAll, DefaultsUngiven, PropUngiven, KeepsCellAndKey, PutCell, Elsewhere;
    KeepsRefl(ctx, t, db[t][r], name);
    var db1 := PutCell(ctx, db, ty, row, p, Items([]));
    PutKeeps(ctx, db, db, ty, row, p, Items([]), t, r, name);
    if v.Vec? {
      assert v == Vec(v.elems);
      KeptKey(ctx, t, db[t][r], db1[t][r], name);
      SameKeyUngiven(ctx, t, db[t][r], db1[t][r], name);
      AppendAllKeeps(ctx, db1, ty, row, p, v.elems, update, depth, t, r, name);
      KeepsTrans(ctx, t, db[t][r], db1[t][r], AppendAll(ctx, db1, ty, row, p, v.elems, update, depth).db[t][r], name);
    }
  }

  lemma {:induction false} AppendAllKeeps(
      ctx: Context, db: Db, ty: string, row: nat, p: Property, vs: seq<Value>, update: bool, depth: nat, t: string,
      r: nat, name: string)
    requires Ready(ctx, db) && Column(ctx, db, ty, row, p) && p.kind.isArray && HasRow(db, t, r)
    requires DefaultsUngiven(ctx, t, db[t][r], name) && PropUngiven(ctx, p, Vec(vs), t, db[t][r], name)
    requires Elsewhere(ctx.schema[ty], ty, row, p, t, r, name)
    ensures KeepsCellAndKey(ctx, t, db[t][r], AppendAll(ctx, db, ty, row, p, vs, update, depth).db[t][r], name)
    decreases depth, 1, |vs|
  {
    hide Ready, AppendOne, DefaultsUngiven, PropUngiven, KeepsCellAndKey, Elsewhere, Ungiven;
    KeepsRefl(ctx, t, db[t][r], name);
    if vs != [] {
      var s := AppendOne(ctx, db, ty, row, p, vs[0], update, depth);
      FirstUngiven(ctx, p, vs, t, db[t][r], name);
      AppendOneKeeps(ctx, db, ty, row, p, vs[0], update, depth, t, r, name);
      if s.out.Ok? {
        KeptKey(ctx, t, db[t][r], s.db[t][r], name);
        SameKeyUngiven(ctx, t, db[t][r], s.db[t][r], name);
        AppendAllKeeps(ctx, s.db, ty, row, p, vs[1..], update, depth, t, r, name);
        KeepsTrans(ctx, t, db[t][r], s.db[t][r],
          AppendAll(ctx, s.db, ty, row, p, vs[1..], update, depth).db[t][r], name);
      }
    }
  }

  lemma FirstUngiven(ctx: Context, p: Property, vs: seq<Value>, t: string, row: Row, name: string)
    requires p.kind.isArray && vs != [] && PropUngiven(ctx, p, Vec(vs), t, row, name)
    ensures p.kind.base == Object ==> Ungiven(ctx, p.target, vs[0], t, row, name)
    ensures PropUngiven(ctx, p, Vec(vs[1..]), t, row, name)
  {
  }

  lemma {:induction false} AppendOneKeeps(
      ctx: Context, db: Db, ty: string, row: nat, p: Property, v: Value, update: bool, depth: nat, t: string, r: nat,
      name: string)
    requires Ready(ctx, db) && Column(ctx, db, ty, row, p) && p.kind.isArray && HasRow(db, t, r)
    requires DefaultsUngiven(ctx, t, db[t][r], name)
    requires p.kind.base == Object ==> Ungiven(ctx, p.target, v, t, db[t][r], name)
    requires Elsewhere(ctx.schema[ty], ty, row, p, t, r, name)
    ensures KeepsCellAndKey(ctx, t, db[t][r], AppendOne(ctx, db, ty, row, p, v, update, depth).db[t][r], name)
    decreases depth, 1, 0
  {
    hide Ready, Unbox, DefaultsUngiven, Ungiven, SchemaOk, PushItem, CellFits, KeepsCellAndKey, Elsewhere;
    ColumnPersisted(ctx, db, ty, row, p);
    KeepsRefl(ctx, t, db[t][r], name);
    if p.kind.base == Object {
      UnboxKeeps(ctx, db, p.target, v, update, depth, t, r, name);
      var s := Unbox(ctx, db, p.target, v, update, depth);
      if s.out.Ok? && HasRow(s.db, s.out.value.table, s.out.value.row) && s.out.value.table == p.target {
        PushKeeps(ctx, db, s.db, ty, row, p, Link(s.out.value.row), t, r, name);
      }
    } else if UnboxItem(p, v).Ok? {
      PushKeeps(ctx, db, db, ty, row, p, UnboxItem(p, v).value, t, r, name);
    } else if UnboxItem(p, v).error == NullNotAllowed {
      PushKeeps(ctx, db, db, ty, row, p, Atom(ZeroScalar(p.kind.base)), t, r, name);
    }
  }

  lemma PushKeeps(
      ctx: Context, db: Db, db': Db, ty: string, row: nat, p: Property, c: Cell, t: string, r: nat, name: string)
    requires Ready(ctx, db') && Column(ctx, db', ty, row, p) && p.kind.isArray && ItemFits(p, c)
    requires HasRow(db, t, r) && HasRow(db', t, r) && KeepsCellAndKey(ctx, t, db[t][r], db'[t][r], name)
    requires Elsewhere(ctx.schema[ty], ty, row, p, t, r, name)
    ensures KeepsCellAndKey(ctx, t, db[t][r], PushItem(ctx, db', ty, row, p, c)[t][r], name)
  {
    assert RowFits(ctx.schema[ty], db'[ty][row]);
    hide Ready, PutCell, KeepsCellAndKey, Elsewhere;
    PutKeeps(ctx, db, db', ty, row, p, Items(db'[ty][row][p.name].items + [c]), t, r, name);
  }
}
