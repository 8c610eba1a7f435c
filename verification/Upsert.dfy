/**
 * What creating an object and writing a property mean, as functions from the stored tables to
 * the tables left behind and a result. The tables are given back on every exit, so that what an
 * exception leaves behind can be stated too.
 *
 * `depth` is the stack left for nested objects: the source recurses on the C++ stack, and a
 * default that holds an object of its own type makes it recurse without end.
 */
module Upsert {
  import opened Wrappers
  import opened Schemas
  import opened Tables

  datatype Error =
    | NotInWrite
    | StackOverflow
    | BadCast
    | MissingValue(ty: string, prop: string)
    | NullKey
    | DuplicateKey(ty: string)
    | KeyImmutable
    | NoPrimaryKey(ty: string)
    | NoSuchProperty(ty: string, prop: string)
    | ReadOnlyProperty(ty: string, prop: string)
    | NotSupported
    | NullNotAllowed
    | NullOnListColumn
    | Detached
    | WrongTable
    | TargetOutOfRange

  datatype Step<+T> = Step(db: Db, out: Outcome<T, Error>)

  /** What stays fixed while one value is written. */
  datatype Context = Context(
    schema: Schema,
    defaults: map<(string, string), Value>,
    inWrite: bool,
    inMigration: bool,
    allowMissing: Value -> bool)

  datatype Place = Place(row: nat, created: bool, skipPrimary: bool)

  datatype RowRef = RowRef(table: string, row: nat)

  function DefaultFor(ctx: Context, ty: string, name: string): Option<Value> {
    if (ty, name) in ctx.defaults then Some(ctx.defaults[(ty, name)]) else None
  }

  /** The value a dictionary gives for a property. */
  function ValueFor(v: Value, name: string): Outcome<Option<Value>, Error> {
    if !v.Dict? then Err(BadCast)
    else if name in v.fields then Ok(Some(v.fields[name]))
    else Ok(None)
  }

  function UnboxScalar(base: Base, v: Value): (c: Outcome<Cell, Error>)
    ensures c.Ok? ==> c.value.Atom? && ScalarFits(base, c.value.s) && v == Prim(c.value.s)
  {
    if base == Any then Err(NotSupported)
    else if (base == String || base == Data) && v.Empty? then Err(NullNotAllowed)
    else if v.Prim? && ScalarFits(base, v.s) then Ok(Atom(v.s))
    else Err(BadCast)
  }

  /** The value a list of scalars stores for one element. */
  function UnboxItem(p: Property, v: Value): (c: Outcome<Cell, Error>)
    ensures c.Ok? ==> ItemFits(p, c.value)
    ensures c.Ok? ==> (if v.Empty? then c.value == Nil else c.value.Atom? && v == Prim(c.value.s))
  {
    if v.Empty? && p.kind.isNullable && p.kind.base != Date && p.kind.base != Any && p.kind.base != Object
        && p.kind.base != LinkingObjects
    then Ok(Nil)
    else UnboxScalar(p.kind.base, v)
  }

  /** The primary key value a nested value asks for: its own, the default, or null. */
  function KeyValue(ctx: Context, ty: string, pk: Property, v: Value): Outcome<Value, Error> {
    match ValueFor(v, pk.name)
    case Err(e) => Err(e)
    case Ok(Some(x)) => Ok(x)
    case Ok(None) =>
      match DefaultFor(ctx, ty, pk.name)
      case Some(x) => Ok(x)
      case None => if pk.kind.isNullable then Ok(Empty) else Err(MissingValue(ty, pk.name))
  }

  /** The key cell that value is searched for and stored as. */
  function KeyCell(pk: Property, v: Value): (c: Outcome<Cell, Error>)
    ensures c.Ok? && (pk.kind.base == Int || pk.kind.base == String) ==> ItemFits(pk, c.value)
  {
    if v.Empty? then
      if pk.kind.isNullable then Ok(Nil) else Err(NullKey)
    else if pk.kind.base == String then
      if v.Prim? && v.s.TextS? then Ok(Atom(v.s)) else Err(BadCast)
    else
      if v.Prim? && v.s.IntS? then Ok(Atom(v.s)) else Err(BadCast)
  }

  function KeyOf(ctx: Context, ty: string, pk: Property, v: Value): (c: Outcome<Cell, Error>)
    ensures c.Ok? ==> v.Dict?
    ensures c.Ok? && (pk.kind.base == Int || pk.kind.base == String) ==> ItemFits(pk, c.value)
  {
    match KeyValue(ctx, ty, pk, v)
    case Err(e) => Err(e)
    case Ok(x) => KeyCell(pk, x)
  }

  function PrimaryProp(os: ObjectSchema): Option<Property> {
    match os.primary
    case None => None
    case Some(name) => Named(os.persisted, name)
  }

  ghost predicate Ready(ctx: Context, db: Db) {
    SchemaOk(ctx.schema) && Shape(ctx.schema, db)
  }

  /** A list column of a stored row. */
  ghost predicate Column(ctx: Context, db: Db, ty: string, row: nat, p: Property) {
    HasRow(db, ty, row) && ty in ctx.schema && p in ctx.schema[ty].persisted
  }

  function FindKey(ctx: Context, db: Db, ty: string, pk: Property, key: Cell): (r: Option<nat>)
    requires Ready(ctx, db) && ty in ctx.schema && pk in ctx.schema[ty].persisted
    ensures r.Some? ==> HasRow(db, ty, r.value) && db[ty][r.value][pk.name] == key
    ensures r.None? ==> forall q | 0 <= q < |db[ty]| :: db[ty][q][pk.name] != key
  {
    RowsHave(ctx.schema, db, ty, pk);
    FindFirst(db[ty], pk.name, key)
  }

  lemma RowsHave(schema: Schema, db: Db, ty: string, p: Property)
    requires Shape(schema, db) && ty in schema && p in schema[ty].persisted
    ensures forall q | 0 <= q < |db[ty]| :: p.name in db[ty][q]
  {
    forall q | 0 <= q < |db[ty]| ensures p.name in db[ty][q] {
      assert RowFits(schema[ty], db[ty][q]);
    }
  }

  lemma ColumnPersisted(ctx: Context, db: Db, ty: string, row: nat, p: Property)
    requires Ready(ctx, db) && Column(ctx, db, ty, row, p)
    ensures PersistedOk(ctx.schema, p) && (p.kind.isArray || p.kind.base == Object ==> !ctx.schema[ty].IsPrimary(p))
  {
    assert ObjectSchemaOk(ctx.schema, ctx.schema[ty]);
  }

  lemma ReadySchema(ctx: Context, db: Db, ty: string)
    requires Ready(ctx, db) && ty in ctx.schema
    ensures ObjectSchemaOk(ctx.schema, ctx.schema[ty])
  {
  }

  /** A link that was written names a row of the target table. */
  lemma LinkSet(
      ctx: Context, db: Db, ty: string, row: nat, p: Property, v: Value, update: bool, isDefault: bool, depth: nat)
    requires Ready(ctx, db) && Column(ctx, db, ty, row, p) && p.kind.base == Object && !p.kind.isArray
    requires PersistedOk(ctx.schema, p) && !v.Empty?
    requires SetProperty(ctx, db, ty, row, p, v, update, isDefault, depth).out.Ok?
    ensures var s := Unbox(ctx, db, p.target, v, update, depth);
            && s.out.Ok? && HasRow(s.db, p.target, s.out.value.row)
                 && (v.RowOf? ==> s.out.value == RowRef(v.table, v.row))
            && CellFits(p, Link(s.out.value.row)) && Column(ctx, s.db, ty, row, p)
            && SetProperty(ctx, db, ty, row, p, v, update, isDefault, depth)
               == Step(PutCell(ctx, s.db, ty, row, p, Link(s.out.value.row)), Ok(()))
  {
    hide Ready, Create, PutCell, SchemaOk;
  }

  lemma ReadyHas(ctx: Context, db: Db, ty: string, p: Property)
    requires Ready(ctx, db) && ty in ctx.schema && p in ctx.schema[ty].persisted
    ensures ty in db && forall q | 0 <= q < |db[ty]| :: p.name in db[ty][q]
  {
    RowsHave(ctx.schema, db, ty, p);
  }

  function AddEmptyRow(ctx: Context, db: Db, ty: string): (db': Db)
    requires Ready(ctx, db) && ty in ctx.schema
    ensures Ready(ctx, db') && Grows(db, db') && |db'[ty]| == |db[ty]| + 1
  {
    EmptyRowFits(ctx.schema, ctx.schema[ty]);
    AppendRowShape(ctx.schema, db, ty, EmptyRow(ctx.schema[ty]));
    AppendRow(db, ty, EmptyRow(ctx.schema[ty]))
  }

  function PutCell(ctx: Context, db: Db, ty: string, row: nat, p: Property, c: Cell): (db': Db)
    requires Ready(ctx, db) && Column(ctx, db, ty, row, p) && CellFits(p, c)
    ensures Ready(ctx, db') && Grows(db, db') && Grows(db', db)
  {
    SetCellShape(ctx.schema, db, ty, row, p, c);
    SetCell(db, ty, row, p.name, c)
  }

  /** Link to a row of the target table, which the table refuses if there is no such row. */
  function SetLink(ctx: Context, db: Db, ty: string, row: nat, p: Property, target: nat): (s: Step<()>)
    requires Ready(ctx, db) && Column(ctx, db, ty, row, p) && p.kind.base == Object && !p.kind.isArray
    ensures Ready(ctx, s.db) && Grows(db, s.db)
  {
    if HasRow(db, p.target, target) then Step(PutCell(ctx, db, ty, row, p, Link(target)), Ok(()))
    else Step(db, Err(TargetOutOfRange))
  }

  /** Find the row to write, or append it with its key set. */
  function Locate(ctx: Context, db: Db, ty: string, v: Value, update: bool): (s: Step<Place>)
    requires Ready(ctx, db) && ty in ctx.schema
    ensures Ready(ctx, s.db) && Grows(db, s.db)
    ensures s.out.Ok? ==> HasRow(s.db, ty, s.out.value.row)
    ensures s.out.Ok? && !ctx.inMigration ==> s.out.value.skipPrimary
  {
    var os := ctx.schema[ty];
    match PrimaryProp(os)
    case None => Step(AddEmptyRow(ctx, db, ty), Ok(Place(|db[ty]|, true, true)))
    case Some(pk) =>
      match KeyOf(ctx, ty, pk, v)
      case Err(e) => Step(db, Err(e))
      case Ok(key) =>
        match FindKey(ctx, db, ty, pk, key)
        case None =>
          var db1 := AddEmptyRow(ctx, db, ty);
          Step(PutCell(ctx, db1, ty, |db[ty]|, pk, key), Ok(Place(|db[ty]|, true, true)))
        case Some(r) =>
          if update then Step(db, Ok(Place(r, false, true)))
          else if ctx.inMigration then Step(AddEmptyRow(ctx, db, ty), Ok(Place(|db[ty]|, true, false)))
          else Step(db, Err(DuplicateKey(ty)))
  }

  /** Looking for the row changes no stored row and appends at most one, to its own table. */
  lemma LocateSpares(ctx: Context, db: Db, ty: string, v: Value, update: bool, t: string, r: nat)
    requires Ready(ctx, db) && ty in ctx.schema && HasRow(db, t, r)
    ensures Locate(ctx, db, ty, v, update).db[t][r] == db[t][r]
  {
    hide Ready, SchemaOk, Shape, KeyOf, FindKey;
  }

  lemma LocateSizes(ctx: Context, db: Db, ty: string, v: Value, update: bool)
    requires Ready(ctx, db) && ty in ctx.schema
    ensures |db[ty]| <= |Locate(ctx, db, ty, v, update).db[ty]| <= |db[ty]| + 1
    ensures forall t | t in db && t != ty :: |Locate(ctx, db, ty, v, update).db[t]| == |db[t]|
  {
  }

  /** Create an object of type `ty` from `v`, or update the one that has its key. */
  function Create(ctx: Context, db: Db, ty: string, v: Value, update: bool, depth: nat): (s: Step<nat>)
    requires Ready(ctx, db) && ty in ctx.schema
    ensures Ready(ctx, s.db) && Grows(db, s.db)
    ensures s.out.Ok? ==> HasRow(s.db, ty, s.out.value)
    decreases depth, 4, 0
  {
    if !ctx.inWrite then Step(db, Err(NotInWrite))
    else
      var l := Locate(ctx, db, ty, v, update);
      match l.out
      case Err(e) => Step(l.db, Err(e))
      case Ok(place) => Populate(ctx, l.db, ty, v, update, place, 0, depth)
  }

  /** The value a property is given, and whether it is a default; none when it is left alone. */
  function Chosen(ctx: Context, ty: string, v: Value, place: Place, p: Property): Outcome<Option<(Value, bool)>, Error>
    requires ty in ctx.schema
  {
    match ValueFor(v, p.name)
    case Err(e) => Err(e)
    case Ok(given) =>
      if !place.created && given.None? then Ok(None)
      else
        var x := if given.Some? then given else DefaultFor(ctx, ty, p.name);
        if (x.None? || x.value.Empty?) && !p.kind.isNullable && !p.kind.isArray
           && (ctx.schema[ty].IsPrimary(p) || !ctx.allowMissing(v))
           then Err(MissingValue(ty, p.name))
        else if x.None? then Ok(None)
        else Ok(Some((x.value, given.None?)))
  }

  /** Write the properties from the `i`-th on. */
  function Populate(
      ctx: Context, db: Db, ty: string, v: Value, update: bool, place: Place, i: nat, depth: nat): (s: Step<nat>)
    requires Ready(ctx, db) && ty in ctx.schema && HasRow(db, ty, place.row)
    requires i <= |ctx.schema[ty].persisted|
    ensures Ready(ctx, s.db) && Grows(db, s.db)
    ensures s.out.Ok? ==> s.out.value == place.row
    decreases depth, 3, |ctx.schema[ty].persisted| - i
  {
    var os := ctx.schema[ty];
    if i == |os.persisted| then Step(db, Ok(place.row))
    else
      var p := os.persisted[i];
      if place.skipPrimary && os.IsPrimary(p) then Populate(ctx, db, ty, v, update, place, i + 1, depth)
      else
        match Chosen(ctx, ty, v, place, p)
        case Err(e) => Step(db, Err(e))
        case Ok(None) => Populate(ctx, db, ty, v, update, place, i + 1, depth)
        case Ok(Some((x, isDefault))) =>
          var s := SetProperty(ctx, db, ty, place.row, p, x, update, isDefault, depth);
          if s.out.Err? then Step(s.db, Err(s.out.error))
          else Populate(ctx, s.db, ty, v, update, place, i + 1, depth)
  }

  function SetProperty(
      ctx: Context, db: Db, ty: string, row: nat, p: Property, v: Value, update: bool, isDefault: bool,
      depth: nat): (s: Step<()>)
    requires Ready(ctx, db) && Column(ctx, db, ty, row, p)
    ensures Ready(ctx, s.db) && Grows(db, s.db)
    decreases depth, 2, 0
  {
    assert PersistedOk(ctx.schema, p);
    if p.kind.isNullable && v.Empty? then
      if p.kind.isArray then Step(db, Err(NullOnListColumn))
      else if p.kind.base == Object && isDefault then Step(db, Ok(()))
      else Step(PutCell(ctx, db, ty, row, p, Nil), Ok(()))
    else if p.kind.isArray then
      Assign(ctx, db, ty, row, p, v, update, depth)
    else if p.kind.base == Object then
      var s := Unbox(ctx, db, p.target, v, update, depth);
      match s.out
      case Err(e) => Step(s.db, Err(e))
      case Ok(r) => SetLink(ctx, s.db, ty, row, p, r.row)
    else
      match UnboxScalar(p.kind.base, v)
      case Err(e) => Step(db, Err(e))
      case Ok(c) => Step(PutCell(ctx, db, ty, row, p, c), Ok(()))
  }

  /** The row a value stands for, created from it unless it is one already. */
  function Unbox(ctx: Context, db: Db, ty: string, v: Value, update: bool, depth: nat): (s: Step<RowRef>)
    requires Ready(ctx, db) && ty in ctx.schema
    ensures Ready(ctx, s.db) && Grows(db, s.db)
    decreases depth, 0, 0
  {
    if v.RowOf? then Step(db, Ok(RowRef(v.table, v.row)))
    else if depth == 0 then Step(db, Err(StackOverflow))
    else
      var s := Create(ctx, db, ty, v, update, depth - 1);
      match s.out
      case Err(e) => Step(s.db, Err(e))
      case Ok(r) => Step(s.db, Ok(RowRef(ty, r)))
  }

  /** Replace the contents of a list. */
  function Assign(
      ctx: Context, db: Db, ty: string, row: nat, p: Property, v: Value, update: bool, depth: nat): (s: Step<()>)
    requires Ready(ctx, db) && Column(ctx, db, ty, row, p) && p.kind.isArray
    ensures Ready(ctx, s.db) && Grows(db, s.db)
    decreases depth, 1, if v.Vec? then |v.elems| + 1 else 0
  {
    if v == ListOf(ty, row, p.name) then Step(db, Ok(()))
    else
      var db1 := PutCell(ctx, db, ty, row, p, Items([]));
      if v.Empty? then Step(db1, Ok(()))
      else if !v.Vec? then Step(db1, Err(BadCast))
      else AppendAll(ctx, db1, ty, row, p, v.elems, update, depth)
  }

  function AppendAll(
      ctx: Context, db: Db, ty: string, row: nat, p: Property, vs: seq<Value>, update: bool,
      depth: nat): (s: Step<()>)
    requires Ready(ctx, db) && Column(ctx, db, ty, row, p) && p.kind.isArray
    ensures Ready(ctx, s.db) && Grows(db, s.db)
    decreases depth, 1, |vs|
  {
    if vs == [] then Step(db, Ok(()))
    else
      var s := AppendOne(ctx, db, ty, row, p, vs[0], update, depth);
      if s.out.Err? then s
      else AppendAll(ctx, s.db, ty, row, p, vs[1..], update, depth)
  }

  function PushItem(ctx: Context, db: Db, ty: string, row: nat, p: Property, c: Cell): (db': Db)
    requires Ready(ctx, db) && Column(ctx, db, ty, row, p) && p.kind.isArray && ItemFits(p, c)
    ensures Ready(ctx, db') && Grows(db, db') && Grows(db', db)
  {
    assert RowFits(ctx.schema[ty], db[ty][row]);
    PutCell(ctx, db, ty, row, p, Items(db[ty][row][p.name].items + [c]))
  }

  /** Add one element at the end of a list. */
  function AppendOne(
      ctx: Context, db: Db, ty: string, row: nat, p: Property, v: Value, update: bool, depth: nat): (s: Step<()>)
    requires Ready(ctx, db) && Column(ctx, db, ty, row, p) && p.kind.isArray
    ensures Ready(ctx, s.db) && Grows(db, s.db)
    decreases depth, 1, 0
  {
    assert PersistedOk(ctx.schema, p);
    if p.kind.base == Object then
      var s := Unbox(ctx, db, p.target, v, update, depth);
      match s.out
      case Err(e) => Step(s.db, Err(e))
      case Ok(r) =>
        if !HasRow(s.db, r.table, r.row) then Step(s.db, Err(Detached))
        else if r.table != p.target then Step(s.db, Err(WrongTable))
        else Step(PushItem(ctx, s.db, ty, row, p, Link(r.row)), Ok(()))
    else
      match UnboxItem(p, v)
      case Ok(c) => Step(PushItem(ctx, db, ty, row, p, c), Ok(()))
      case Err(NullNotAllowed) =>
        // the new list row exists before the core refuses the null
        Step(PushItem(ctx, db, ty, row, p, Atom(ZeroScalar(p.kind.base))), Err(NullNotAllowed))
      case Err(e) => Step(db, Err(e))
  }

  /** The public setter: attached row, open transaction, known and changeable property. */
  function SetPropertyValue(
      ctx: Context, db: Db, ty: string, row: nat, name: string, v: Value, update: bool, depth: nat): (s: Step<()>)
    requires Ready(ctx, db) && ty in ctx.schema
    ensures Ready(ctx, s.db) && Grows(db, s.db)
  {
    var os := ctx.schema[ty];
    if !HasRow(db, ty, row) then Step(db, Err(Detached))
    else if !ctx.inWrite then Step(db, Err(NotInWrite))
    else
      match Named(os.persisted, name)
      case None =>
        // a computed property is a list of linking objects
        Step(db, Err(if Named(os.computed, name).Some? then ReadOnlyProperty(ty, name) else NoSuchProperty(ty, name)))
      case Some(p) =>
        if os.IsPrimary(p) && !ctx.inMigration then Step(db, Err(KeyImmutable))
        else SetProperty(ctx, db, ty, row, p, v, update, false, depth)
  }
}
