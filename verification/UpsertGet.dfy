/** Reading properties back, and finding an object by its primary key. */
module UpsertGet {
  import opened Wrappers
  import opened Schemas
  import opened Tables
  import opened Upsert
  import opened UpsertKeys
  import opened UpsertFrame
  import opened UpsertHolds
  import opened UpsertRefines

  /** The boxed value of a stored property. */
  function GetProperty(ctx: Context, db: Db, ty: string, row: nat, p: Property): Outcome<Value, Error>
    requires Ready(ctx, db) && ty in ctx.schema && p in ctx.schema[ty].persisted
  {
    if !HasRow(db, ty, row) then Err(Detached)
    else
      CellFitsHere(ctx, db, ty, row, p);
      var c := db[ty][row][p.name];
      if p.kind.isNullable && c.Nil? then Ok(Empty)
      else if p.kind.isArray then Ok(ListOf(ty, row, p.name))
      else
        match c
        case Atom(s) => Ok(Prim(s))
        case Link(r) => Ok(RowOf(p.target, r))
        case _ => Err(NotSupported)
  }

  lemma CellFitsHere(ctx: Context, db: Db, ty: string, row: nat, p: Property)
    requires Ready(ctx, db) && Column(ctx, db, ty, row, p)
    ensures p.name in db[ty][row] && CellFits(p, db[ty][row][p.name])
    ensures p.kind.base == Object ==> p.target in ctx.schema && p.kind.isNullable == !p.kind.isArray
  {
    assert RowFits(ctx.schema[ty], db[ty][row]);
    assert ObjectSchemaOk(ctx.schema, ctx.schema[ty]);
    assert PersistedOk(ctx.schema, p);
  }

  /** Null is accepted for a property that is no list exactly when its type is nullable. */
  lemma NullIffNullable(ctx: Context, db: Db, ty: string, row: nat, p: Property, update: bool, depth: nat)
    requires Ready(ctx, db) && Column(ctx, db, ty, row, p) && !p.kind.isArray
    ensures SetProperty(ctx, db, ty, row, p, Empty, update, false, depth).out.Ok? <==> p.kind.isNullable
  {
    CellFitsHere(ctx, db, ty, row, p);
    hide Ready, Unbox, Assign;
  }

  /**
   * Reading a property that is no list after writing it gives back what was written: the same
   * scalar or null, the same row, or the row an object was created or updated in. A row of
   * another table comes back as a row of the target table.
   */
  lemma GetAfterSet(ctx: Context, db: Db, ty: string, row: nat, p: Property, v: Value, update: bool, depth: nat)
    requires Ready(ctx, db) && Column(ctx, db, ty, row, p) && !p.kind.isArray
    requires SetProperty(ctx, db, ty, row, p, v, update, false, depth).out.Ok?
    ensures var s := SetProperty(ctx, db, ty, row, p, v, update, false, depth);
            GetProperty(ctx, s.db, ty, row, p) ==
              if v.Empty? || p.kind.base != Object then Ok(v)
              else Ok(RowOf(p.target, Unbox(ctx, db, p.target, v, update, depth).out.value.row))
    ensures v.RowOf? ==>
              (GetProperty(ctx, SetProperty(ctx, db, ty, row, p, v, update, false, depth).db, ty, row, p) == Ok(v) <==>
                v.table == p.target)
  {
    hide Ready, Create, Assign, CellFits, SchemaOk, Shape;
    CellFitsHere(ctx, db, ty, row, p);
    assert v.RowOf? ==> Unbox(ctx, db, p.target, v, update, depth) == Step(db, Ok(RowRef(v.table, v.row)));
    assert p.kind.base != Object && v.Empty? ==> p.kind.isNullable;
  }

  /** Every other property of every row reads as before, unless the value or a default names the row. */
  lemma OthersAfterSet(
      ctx: Context, db: Db, ty: string, row: nat, p: Property, v: Value, update: bool, depth: nat, t: string, r: nat,
      q: Property)
    requires Ready(ctx, db) && Column(ctx, db, ty, row, p) && Column(ctx, db, t, r, q)
    requires update ==> DefaultsSpare(ctx, t, db[t][r]) && PropSpares(ctx, p, v, t, db[t][r])
    requires t != ty || r != row || q.name != p.name
    ensures GetProperty(ctx, SetProperty(ctx, db, ty, row, p, v, update, false, depth).db, t, r, q)
              == GetProperty(ctx, db, t, r, q)
  {
    hide Ready, SetProperty, DefaultsSpare, PropSpares, CellFits;
    CellFitsHere(ctx, db, t, r, q);
    var db' := SetProperty(ctx, db, ty, row, p, v, update, false, depth).db;
    assert HasRow(db', t, r);
    CellFitsHere(ctx, db', t, r, q);
    SetSpares(ctx, db, ty, row, p, v, update, false, depth, t, r);
  }

  /** Find the row that has a primary key value. */
  function GetForPrimaryKey(ctx: Context, db: Db, ty: string, v: Value): Outcome<Option<nat>, Error>
    requires Ready(ctx, db) && ty in ctx.schema
  {
    match PrimaryProp(ctx.schema[ty])
    case None => Err(NoPrimaryKey(ty))
    case Some(pk) =>
      match KeyCell(pk, v)
      case Err(e) => Err(e)
      case Ok(key) => Ok(FindKey(ctx, db, ty, pk, key))
  }

  /**
   * An object that was created or updated is found by the key it was given, and only it, however
   * often the value or its defaults name the object again.
   */
  lemma FindAfterCreate(ctx: Context, db: Db, ty: string, v: Value, update: bool, depth: nat)
    requires Ready(ctx, db) && ty in ctx.schema && !ctx.inMigration && KeysUnique(ctx, db)
    requires Create(ctx, db, ty, v, update, depth).out.Ok? && PrimaryProp(ctx.schema[ty]).Some?
    ensures var s := Create(ctx, db, ty, v, update, depth);
            var k := KeyValue(ctx, ty, PrimaryProp(ctx.schema[ty]).value, v);
            k.Ok? && GetForPrimaryKey(ctx, s.db, ty, k.value) == Ok(Some(s.out.value))
  {
    hide Ready, Populate, Locate, KeysUnique, KeyAt, GetForPrimaryKey, SchemaOk;
    var l := Locate(ctx, db, ty, v, update);
    var place := l.out.value;
    var db' := Populate(ctx, l.db, ty, v, update, place, 0, depth).db;
    CreateKeepsKeys(ctx, db, ty, v, update, depth);
    LocateKey(ctx, db, ty, v, update);
    PopulateKeepsKeys(ctx, l.db, ty, v, update, place, 0, depth);
    FoundByKey(ctx, db', ty, place.row, v);
  }

  lemma FoundByKey(ctx: Context, db: Db, ty: string, r: nat, v: Value)
    requires Ready(ctx, db) && KeysUnique(ctx, db) && ty in ctx.schema && PrimaryProp(ctx.schema[ty]).Some?
    requires HasRow(db, ty, r)
    requires var key := KeyOf(ctx, ty, PrimaryProp(ctx.schema[ty]).value, v);
             key.Ok? && KeyName(ctx, ty).Some? && KeyAt(ctx, db, ty, r) == key.value
    ensures var k := KeyValue(ctx, ty, PrimaryProp(ctx.schema[ty]).value, v);
            k.Ok? && GetForPrimaryKey(ctx, db, ty, k.value) == Ok(Some(r))
  {
    hide SchemaOk, Shape, KeysUnique;
    ReadySchema(ctx, db, ty);
    var pk := PrimaryProp(ctx.schema[ty]).value;
    var key := KeyOf(ctx, ty, pk, v).value;
    RowsHaveKey(ctx, db, ty);
    var q := FindKey(ctx, db, ty, pk, key);
    assert q.Some?;
    assert KeyAt(ctx, db, ty, q.value) == key;
    SameKeySameRow(ctx, db, ty, q.value, r);
  }

  // ---- links to managed rows ----

  /**
   * A managed row given for a single link is stored by its index alone: an index that the target
   * table does not have is refused and changes nothing, any other is stored, and what is then read
   * is the row that was given if and only if that row is of the target table.
   */
  lemma LinkIsByIndex(ctx: Context, db: Db, ty: string, row: nat, p: Property, v: Value, update: bool, depth: nat)
    requires Ready(ctx, db) && Column(ctx, db, ty, row, p) && p.kind.base == Object && !p.kind.isArray && v.RowOf?
    ensures var s := SetProperty(ctx, db, ty, row, p, v, update, false, depth);
            if HasRow(db, p.target, v.row)
            then s.out.Ok? && GetProperty(ctx, s.db, ty, row, p) == Ok(RowOf(p.target, v.row))
                 && (GetProperty(ctx, s.db, ty, row, p) == Ok(v) <==> v.table == p.target)
            else s == Step(db, Err(TargetOutOfRange))
  {
    hide Ready, Create, Assign, CellFits, SchemaOk, Shape;
    CellFitsHere(ctx, db, ty, row, p);
    assert Unbox(ctx, db, p.target, v, update, depth) == Step(db, Ok(RowRef(v.table, v.row)));
  }

  const CHILD := Property("child", PropertyType(Object, true, false), "A")

  /** A type with a link to itself, and another type; both have one row. */
  function TwoTypes(allowMissing: Value -> bool): Context {
    Context(map["A" := ObjectSchema([CHILD], [], None), "B" := ObjectSchema([], [], None)], map[], true, false,
      allowMissing)
  }

  function TwoRows(): Db {
    var a: Row := map["child" := Nil];
    var b: Row := map[];
    map["A" := [a], "B" := [b]]
  }

  /** The row of the other type is taken, and a different object is linked to. */
  lemma WrongObjectIsLinked(allowMissing: Value -> bool)
    ensures var ctx := TwoTypes(allowMissing);
            var db := TwoRows();
            && Ready(ctx, db) && Column(ctx, db, "A", 0, CHILD)
            && var s := SetProperty(ctx, db, "A", 0, CHILD, RowOf("B", 0), true, false, 0);
               s.out.Ok? && GetProperty(ctx, s.db, "A", 0, CHILD) == Ok(RowOf("A", 0))
  {
    var ctx := TwoTypes(allowMissing);
    var db := TwoRows();
    assert ctx.schema["A"].persisted[0] == CHILD;
    assert ObjectSchemaOk(ctx.schema, ctx.schema["A"]) && ObjectSchemaOk(ctx.schema, ctx.schema["B"]);
    assert RowFits(ctx.schema["A"], db["A"][0]) && RowFits(ctx.schema["B"], db["B"][0]);
    LinkIsByIndex(ctx, db, "A", 0, CHILD, RowOf("B", 0), true, 0);
  }
}
