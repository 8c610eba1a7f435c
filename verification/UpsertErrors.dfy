/** Which errors the accessor raises, and exactly when. */
module UpsertErrors {
  import opened Wrappers
  import opened Schemas
  import opened Tables
  import opened Upsert
  import opened UpsertFrame

  // ---- the key that is asked for ----

  /** The value a nested value asks for as its key: its own, or else the default, or else null. */
  ghost predicate Asks(ctx: Context, ty: string, pk: Property, v: Value, x: Value) {
    && v.Dict?
    && (pk.name in v.fields ==> x == v.fields[pk.name])
    && (pk.name !in v.fields && (ty, pk.name) in ctx.defaults ==> x == ctx.defaults[(ty, pk.name)])
    && (pk.name !in v.fields && (ty, pk.name) !in ctx.defaults ==> pk.kind.isNullable && x.Empty?)
  }

  /** The key cell that a value is stored as: null if the key may be null, or a scalar of the key's type. */
  ghost predicate ReadsAs(pk: Property, x: Value, key: Cell) {
    if x.Empty? then pk.kind.isNullable && key == Nil
    else x.Prim? && ScalarFits(pk.kind.base, x.s) && key == Atom(x.s)
  }

  /** A stored row has the key cell. */
  predicate Stored(ctx: Context, db: Db, ty: string, pk: Property, key: Cell) {
    ty in db && exists r | 0 <= r < |db[ty]| :: pk.name in db[ty][r] && db[ty][r][pk.name] == key
  }

  lemma KeyCellIs(pk: Property, x: Value)
    requires KeyOk(pk)
    ensures forall key :: KeyCell(pk, x) == Ok(key) <==> ReadsAs(pk, x, key)
    ensures KeyCell(pk, x).Err? ==> KeyCell(pk, x).error == if x.Empty? then NullKey else BadCast
  {
  }

  /** The key is the value asked for, read as a cell; it cannot be had in four ways. */
  lemma KeyOfIs(ctx: Context, ty: string, pk: Property, v: Value)
    requires KeyOk(pk)
    ensures forall key :: KeyOf(ctx, ty, pk, v) == Ok(key) <==>
              exists x :: Asks(ctx, ty, pk, v, x) && ReadsAs(pk, x, key)
    ensures KeyOf(ctx, ty, pk, v).Err? ==>
              KeyOf(ctx, ty, pk, v).error ==
                if !v.Dict? then BadCast
                else if forall x :: !Asks(ctx, ty, pk, v, x) then MissingValue(ty, pk.name)
                else if Asks(ctx, ty, pk, v, Empty) then NullKey
                else BadCast
  {
    match KeyValue(ctx, ty, pk, v)
    case Ok(x) =>
      assert Asks(ctx, ty, pk, v, x);
      assert forall y | Asks(ctx, ty, pk, v, y) :: y == x;
      KeyCellIs(pk, x);
    case Err(_) =>
      assert forall y :: !Asks(ctx, ty, pk, v, y);
  }

  // ---- finding or appending the row ----

  /** One row is appended, empty but for its key, and nothing else changes. */
  ghost predicate Appends(ctx: Context, db: Db, db': Db, ty: string, key: Option<(string, Cell)>)
    requires ty in ctx.schema
  {
    && Grows(db, db') && ty in db
    && (forall t | t in db && t != ty :: db'[t] == db[t])
    && |db'[ty]| == |db[ty]| + 1 && db'[ty][..|db[ty]|] == db[ty]
    && var row := db'[ty][|db[ty]|];
       && (key.Some? ==> key.value.0 in row && row[key.value.0] == key.value.1)
       && forall p | p in ctx.schema[ty].persisted && (key.Some? ==> p.name != key.value.0) ::
            p.name in row && row[p.name] == EmptyCell(p)
  }

  lemma AddAppends(ctx: Context, db: Db, ty: string)
    requires Ready(ctx, db) && ty in ctx.schema
    ensures Appends(ctx, db, AddEmptyRow(ctx, db, ty), ty, None)
  {
    hide SchemaOk, Shape;
    ReadySchema(ctx, db, ty);
    forall p | p in ctx.schema[ty].persisted
      ensures p.name in EmptyRow(ctx.schema[ty]) && EmptyRow(ctx.schema[ty])[p.name] == EmptyCell(p)
    {
      NamedIsIt(ctx.schema[ty].persisted, p);
    }
  }

  lemma AddKeyedAppends(ctx: Context, db: Db, ty: string, pk: Property, key: Cell)
    requires Ready(ctx, db) && ty in ctx.schema && pk in ctx.schema[ty].persisted && CellFits(pk, key)
    ensures Appends(
              ctx, db, PutCell(ctx, AddEmptyRow(ctx, db, ty), ty, |db[ty]|, pk, key), ty, Some((pk.name, key)))
  {
    hide Ready, SchemaOk, Shape, AddEmptyRow, CellFits;
    AddAppends(ctx, db, ty);
  }

  /**
   * What looking for the row of an object of a type with a key comes to: an unreadable key is an
   * error, an absent one is appended with a new row, and a stored one is taken when updating,
   * duplicated in a migration, and refused otherwise.
   */
  lemma LocateIs(ctx: Context, db: Db, ty: string, v: Value, update: bool)
    requires Ready(ctx, db) && ty in ctx.schema
    ensures var l := Locate(ctx, db, ty, v, update);
            match PrimaryProp(ctx.schema[ty])
            case None => Appends(ctx, db, l.db, ty, None) && l.out == Ok(Place(|db[ty]|, true, true))
            case Some(pk) =>
              match KeyOf(ctx, ty, pk, v)
              case Err(e) => l == Step(db, Err(e))
              case Ok(key) =>
                if !Stored(ctx, db, ty, pk, key) then
                  Appends(ctx, db, l.db, ty, Some((pk.name, key))) && l.out == Ok(Place(|db[ty]|, true, true))
                else if update then
                  && l.db == db && l.out.Ok? && !l.out.value.created && l.out.value.skipPrimary
                  && HasRow(db, ty, l.out.value.row) && pk.name in db[ty][l.out.value.row]
                  && db[ty][l.out.value.row][pk.name] == key
                else if ctx.inMigration then
                  Appends(ctx, db, l.db, ty, None) && l.out == Ok(Place(|db[ty]|, true, false))
                else l == Step(db, Err(DuplicateKey(ty)))
  {
    hide SchemaOk, Shape, KeyOf, AddEmptyRow, PutCell, Appends, EmptyRow, CellFits;
    ReadySchema(ctx, db, ty);
    AddAppends(ctx, db, ty);
    match PrimaryProp(ctx.schema[ty])
    case None =>
    case Some(pk) =>
      KeyTypeOk(ctx, db, ty, pk);
      ReadyHas(ctx, db, ty, pk);
      match KeyOf(ctx, ty, pk, v)
      case Err(e) =>
      case Ok(key) =>
        KeyCellFits(pk, key);
        AddKeyedAppends(ctx, db, ty, pk, key);
        FindIffStored(ctx, db, ty, pk, key);
  }

  lemma KeyTypeOk(ctx: Context, db: Db, ty: string, pk: Property)
    requires Ready(ctx, db) && ty in ctx.schema && PrimaryProp(ctx.schema[ty]) == Some(pk)
    ensures pk in ctx.schema[ty].persisted && KeyOk(pk) && ctx.schema[ty].IsPrimary(pk)
  {
    assert ObjectSchemaOk(ctx.schema, ctx.schema[ty]);
  }

  lemma KeyCellFits(pk: Property, key: Cell)
    requires KeyOk(pk) && ItemFits(pk, key)
    ensures CellFits(pk, key)
  {
  }

  lemma FindIffStored(ctx: Context, db: Db, ty: string, pk: Property, key: Cell)
    requires Ready(ctx, db) && ty in ctx.schema && pk in ctx.schema[ty].persisted
    ensures FindKey(ctx, db, ty, pk, key).Some? <==> Stored(ctx, db, ty, pk, key)
  {
    ReadyHas(ctx, db, ty, pk);
    hide Ready;
    var r := FindKey(ctx, db, ty, pk, key);
    assert r.Some? ==> db[ty][r.value][pk.name] == key;
  }

  // ---- creating ----

  /** Nothing is created outside a write transaction. */
  lemma CreateOutside(ctx: Context, db: Db, ty: string, v: Value, update: bool, depth: nat)
    requires Ready(ctx, db) && ty in ctx.schema && !ctx.inWrite
    ensures Create(ctx, db, ty, v, update, depth) == Step(db, Err(NotInWrite))
  {
  }

  /** Without updating no stored row changes, on any exit. */
  lemma CreateInserts(ctx: Context, db: Db, ty: string, v: Value, depth: nat)
    requires Ready(ctx, db) && ty in ctx.schema
    ensures var s := Create(ctx, db, ty, v, false, depth);
            forall t: string, r: nat | HasRow(db, t, r) :: HasRow(s.db, t, r) && s.db[t][r] == db[t][r]
  {
    hide Ready, Create;
    var s := Create(ctx, db, ty, v, false, depth);
    forall t: string, r: nat | HasRow(db, t, r) ensures HasRow(s.db, t, r) && s.db[t][r] == db[t][r] {
      CreateSpares(ctx, db, ty, v, false, depth, t, r);
    }
  }

  /** A stored object has the key that `v` asks for. */
  ghost predicate Duplicate(ctx: Context, db: Db, ty: string, v: Value)
    requires ty in ctx.schema
  {
    match PrimaryProp(ctx.schema[ty])
    case None => false
    case Some(pk) => exists x, key :: Asks(ctx, ty, pk, v, x) && ReadsAs(pk, x, key) && Stored(ctx, db, ty, pk, key)
  }

  /**
   * Creating an object again is refused, and nothing is changed, exactly if it is done without
   * updating, in a write transaction that is no migration, for a stored key.
   */
  lemma DuplicateIffRefused(ctx: Context, db: Db, ty: string, v: Value, update: bool, depth: nat)
    requires Ready(ctx, db) && ty in ctx.schema
    ensures Create(ctx, db, ty, v, update, depth) == Step(db, Err(DuplicateKey(ty))) <==>
              ctx.inWrite && !update && !ctx.inMigration && Duplicate(ctx, db, ty, v)
  {
    hide Ready, Locate, Populate, KeyOf, Asks, ReadsAs, Stored, Appends;
    LocateIs(ctx, db, ty, v, update);
    DuplicateKeyOf(ctx, db, ty, v);
    CreateRaises(ctx, db, ty, v, update, depth, false);
    KeyErrors(ctx, ty, v);
    if ctx.inWrite && Locate(ctx, db, ty, v, update).out.Ok? && !update {
      LocateInserts(ctx, db, ty, v);
      LocateGrows(ctx, db, ty, v);
    }
  }

  lemma DuplicateKeyOf(ctx: Context, db: Db, ty: string, v: Value)
    requires Ready(ctx, db) && ty in ctx.schema
    ensures Duplicate(ctx, db, ty, v) <==>
              && PrimaryProp(ctx.schema[ty]).Some?
              && var key := KeyOf(ctx, ty, PrimaryProp(ctx.schema[ty]).value, v);
                 key.Ok? && Stored(ctx, db, ty, PrimaryProp(ctx.schema[ty]).value, key.value)
  {
    hide Ready, KeyOf, Asks, ReadsAs, Stored;
    match PrimaryProp(ctx.schema[ty])
    case None =>
    case Some(pk) =>
      KeyTypeOk(ctx, db, ty, pk);
      KeyOfIs(ctx, ty, pk, v);
      var key := KeyOf(ctx, ty, pk, v);
      if key.Ok? && Stored(ctx, db, ty, pk, key.value) {
        var x :| Asks(ctx, ty, pk, v, x) && ReadsAs(pk, x, key.value);
      }
      if Duplicate(ctx, db, ty, v) {
        var x, k :| Asks(ctx, ty, pk, v, x) && ReadsAs(pk, x, k) && Stored(ctx, db, ty, pk, k);
        assert KeyOf(ctx, ty, pk, v) == Ok(k);
      }
  }

  lemma KeyErrors(ctx: Context, ty: string, v: Value)
    requires ty in ctx.schema
    ensures PrimaryProp(ctx.schema[ty]).Some? ==>
              KeyOf(ctx, ty, PrimaryProp(ctx.schema[ty]).value, v) != Err(DuplicateKey(ty))
  {
  }

  /** The new row stays, so the tables are not those before. */
  lemma LocateGrows(ctx: Context, db: Db, ty: string, v: Value)
    requires Ready(ctx, db) && ty in ctx.schema && Locate(ctx, db, ty, v, false).out.Ok?
    ensures |Locate(ctx, db, ty, v, false).db[ty]| > |db[ty]|
  {
    hide Ready, Locate;
    LocateInserts(ctx, db, ty, v);
  }

  // ---- what nested values can raise ----

  /** No managed row occurs in the value. */
  predicate RowFree(v: Value) {
    match v
    case Dict(fields) => forall k | k in fields :: RowFree(fields[k])
    case Vec(elems) => forall i | 0 <= i < |elems| :: RowFree(elems[i])
    case RowOf(_, _) => false
    case _ => true
  }

  ghost predicate DefaultsRowFree(ctx: Context) {
    forall k | k in ctx.defaults :: RowFree(ctx.defaults[k])
  }

  /** Everything a value may say is allowed to be missing. */
  ghost predicate MayMiss(ctx: Context) {
    forall v :: ctx.allowMissing(v)
  }

  /**
   * The errors that writing a value can raise below a public call: those about transactions and
   * duplicates not in a write transaction, or when updating, those about managed rows not if none
   * occurs, and a missing value only for a key if all others may be missing.
   */
  ghost predicate Raises(ctx: Context, update: bool, free: bool, e: Error) {
    && !e.KeyImmutable? && !e.NoPrimaryKey? && !e.NoSuchProperty? && !e.ReadOnlyProperty?
    && (e.NotInWrite? ==> !ctx.inWrite)
    && (e.DuplicateKey? ==> !update && !ctx.inMigration)
    && (e.Detached? || e.WrongTable? || e.TargetOutOfRange? ==> !free)
    && (e.MissingValue? && MayMiss(ctx) ==> e.ty in ctx.schema && ctx.schema[e.ty].primary == Some(e.prop))
  }

  ghost predicate Free(ctx: Context, free: bool, v: Value) {
    free ==> RowFree(v) && DefaultsRowFree(ctx)
  }

  lemma {:induction false} CreateRaises(
      ctx: Context, db: Db, ty: string, v: Value, update: bool, depth: nat, free: bool)
    requires Ready(ctx, db) && ty in ctx.schema && Free(ctx, free, v)
    ensures var s := Create(ctx, db, ty, v, update, depth); s.out.Err? ==> Raises(ctx, update, free, s.out.error)
    decreases depth, 4, 0
  {
    hide Ready, Locate, Populate, Free, Raises;
    LocateRaises(ctx, db, ty, v, update, free);
    var l := Locate(ctx, db, ty, v, update);
    if !ctx.inWrite {
      NotWriting(ctx, update, free);
    } else if l.out.Ok? {
      PopulateRaises(ctx, l.db, ty, v, update, l.out.value, 0, depth, free);
    }
  }

  lemma NotWriting(ctx: Context, update: bool, free: bool)
    requires !ctx.inWrite
    ensures Raises(ctx, update, free, NotInWrite)
  {
  }

  lemma LocateRaises(ctx: Context, db: Db, ty: string, v: Value, update: bool, free: bool)
    requires Ready(ctx, db) && ty in ctx.schema
    ensures var l := Locate(ctx, db, ty, v, update); l.out.Err? ==> Raises(ctx, update, free, l.out.error)
  {
    hide Shape, SchemaOk, FindKey, AddEmptyRow, PutCell, MayMiss;
    ReadySchema(ctx, db, ty);
  }

  lemma ChosenRaises(ctx: Context, ty: string, v: Value, place: Place, p: Property, update: bool, free: bool)
    requires ty in ctx.schema && Free(ctx, free, v)
    ensures var c := Chosen(ctx, ty, v, place, p);
            && (c.Err? ==> Raises(ctx, update, free, c.error))
            && (c.Ok? && c.value.Some? ==> Free(ctx, free, c.value.value.0))
  {
  }

  lemma {:induction false} PopulateRaises(
      ctx: Context, db: Db, ty: string, v: Value, update: bool, place: Place, i: nat, depth: nat, free: bool)
    requires Ready(ctx, db) && ty in ctx.schema && HasRow(db, ty, place.row) && Free(ctx, free, v)
    requires i <= |ctx.schema[ty].persisted|
    ensures var s := Populate(ctx, db, ty, v, update, place, i, depth);
            s.out.Err? ==> Raises(ctx, update, free, s.out.error)
    decreases depth, 3, |ctx.schema[ty].persisted| - i
  {
    hide Ready, SetProperty, Chosen, Free, Raises;
    var os := ctx.schema[ty];
    if i < |os.persisted| {
      var p := os.persisted[i];
      ChosenRaises(ctx, ty, v, place, p, update, free);
      if place.skipPrimary && os.IsPrimary(p) {
        PopulateRaises(ctx, db, ty, v, update, place, i + 1, depth, free);
      } else {
        match Chosen(ctx, ty, v, place, p)
        case Err(e) =>
        case Ok(None) => PopulateRaises(ctx, db, ty, v, update, place, i + 1, depth, free);
        case Ok(Some((x, isDefault))) =>
          var s := SetProperty(ctx, db, ty, place.row, p, x, update, isDefault, depth);
          SetRaises(ctx, db, ty, place.row, p, x, update, isDefault, depth, free);
          if s.out.Ok? {
            PopulateRaises(ctx, s.db, ty, v, update, place, i + 1, depth, free);
          }
      }
    }
  }

  lemma {:induction false} SetRaises(
      ctx: Context, db: Db, ty: string, row: nat, p: Property, v: Value, update: bool, isDefault: bool, depth: nat,
      free: bool)
    requires Ready(ctx, db) && Column(ctx, db, ty, row, p) && Free(ctx, free, v)
    ensures var s := SetProperty(ctx, db, ty, row, p, v, update, isDefault, depth);
            s.out.Err? ==> Raises(ctx, update, free, s.out.error)
    decreases depth, 2, 0
  {
    hide Ready, Assign, Unbox, Free, Raises, SchemaOk, PutCell, UnboxScalar, CellFits;
    ColumnPersisted(ctx, db, ty, row, p);
    FitsHere(p);
    PlainRaises(ctx, update, free);
    ScalarRaises(ctx, p, v, update, free);
    if p.kind.isNullable && v.Empty? {
    } else if p.kind.isArray {
      AssignRaises(ctx, db, ty, row, p, v, update, depth, free);
    } else if p.kind.base == Object {
      UnboxRaises(ctx, db, p.target, v, update, depth, free);
      if v.RowOf? {
        ManagedRaises(ctx, update, free, v);
      }
    }
  }

  /** The errors that depend on nothing but the value given. */
  lemma PlainRaises(ctx: Context, update: bool, free: bool)
    ensures Raises(ctx, update, free, NullOnListColumn) && Raises(ctx, update, free, BadCast)
    ensures Raises(ctx, update, free, StackOverflow) && Raises(ctx, update, free, NullNotAllowed)
  {
  }

  lemma ScalarRaises(ctx: Context, p: Property, v: Value, update: bool, free: bool)
    ensures var c := UnboxScalar(p.kind.base, v); c.Err? ==> Raises(ctx, update, free, c.error)
    ensures var c := UnboxItem(p, v); c.Err? ==> Raises(ctx, update, free, c.error)
  {
  }

  lemma ManagedRaises(ctx: Context, update: bool, free: bool, v: Value)
    requires Free(ctx, free, v) && v.RowOf?
    ensures Raises(ctx, update, free, TargetOutOfRange) && Raises(ctx, update, free, Detached)
    ensures Raises(ctx, update, free, WrongTable)
  {
  }

  lemma {:induction false} UnboxRaises(
      ctx: Context, db: Db, ty: string, v: Value, update: bool, depth: nat, free: bool)
    requires Ready(ctx, db) && ty in ctx.schema && Free(ctx, free, v)
    ensures var s := Unbox(ctx, db, ty, v, update, depth);
            && (s.out.Err? ==> Raises(ctx, update, free, s.out.error))
            && (s.out.Ok? && !v.RowOf? ==> s.out.value.table == ty && HasRow(s.db, ty, s.out.value.row))
    decreases depth, 0, 0
  {
    hide Ready, Create, Free, Raises;
    PlainRaises(ctx, update, free);
    if !v.RowOf? && depth > 0 {
      CreateRaises(ctx, db, ty, v, update, depth - 1, free);
    }
  }

  lemma {:induction false} AssignRaises(
      ctx: Context, db: Db, ty: string, row: nat, p: Property, v: Value, update: bool, depth: nat, free: bool)
    requires Ready(ctx, db) && Column(ctx, db, ty, row, p) && p.kind.isArray && Free(ctx, free, v)
    ensures var s := Assign(ctx, db, ty, row, p, v, update, depth);
            s.out.Err? ==> Raises(ctx, update, free, s.out.error)
    decreases depth, 1, if v.Vec? then |v.elems| + 1 else 0
  {
    hide Ready, AppendAll, Free, Raises, PutCell;
    PlainRaises(ctx, update, free);
    if v.Vec? {
      assert v == Vec(v.elems);
      AppendAllRaises(ctx, PutCell(ctx, db, ty, row, p, Items([])), ty, row, p, v.elems, update, depth, free);
    }
  }

  lemma FreeParts(ctx: Context, free: bool, vs: seq<Value>)
    requires vs != [] && Free(ctx, free, Vec(vs))
    ensures Free(ctx, free, vs[0]) && Free(ctx, free, Vec(vs[1..]))
  {
  }

  lemma {:induction false} AppendAllRaises(
      ctx: Context, db: Db, ty: string, row: nat, p: Property, vs: seq<Value>, update: bool, depth: nat, free: bool)
    requires Ready(ctx, db) && Column(ctx, db, ty, row, p) && p.kind.isArray && Free(ctx, free, Vec(vs))
    ensures var s := AppendAll(ctx, db, ty, row, p, vs, update, depth);
            s.out.Err? ==> Raises(ctx, update, free, s.out.error)
    decreases depth, 1, |vs|
  {
    hide Ready, AppendOne, Free, Raises;
    if vs != [] {
      FreeParts(ctx, free, vs);
      AppendOneRaises(ctx, db, ty, row, p, vs[0], update, depth, free);
      var s := AppendOne(ctx, db, ty, row, p, vs[0], update, depth);
      if s.out.Ok? {
        AppendAllRaises(ctx, s.db, ty, row, p, vs[1..], update, depth, free);
      }
    }
  }

  lemma {:induction false} AppendOneRaises(
      ctx: Context, db: Db, ty: string, row: nat, p: Property, v: Value, update: bool, depth: nat, free: bool)
    requires Ready(ctx, db) && Column(ctx, db, ty, row, p) && p.kind.isArray && Free(ctx, free, v)
    ensures var s := AppendOne(ctx, db, ty, row, p, v, update, depth);
            s.out.Err? ==> Raises(ctx, update, free, s.out.error)
    decreases depth, 1, 0
  {
    hide Ready, Unbox, Free, Raises, SchemaOk, PushItem, UnboxItem, CellFits;
    ColumnPersisted(ctx, db, ty, row, p);
    ScalarRaises(ctx, p, v, update, free);
    PlainRaises(ctx, update, free);
    if p.kind.base == Object {
      UnboxRaises(ctx, db, p.target, v, update, depth, free);
      if v.RowOf? {
        ManagedRaises(ctx, update, free, v);
      }
    }
  }
}
