/** Boxed values, table cells and the few table primitives of the storage core. */
module Tables {
  import opened Wrappers
  import opened Schemas

  datatype Scalar =
    | IntS(i: int)
    | BoolS(b: bool)
    | TextS(s: string)
    | DateS(seconds: int, nanoseconds: int)
    | FloatS(f: real)
    | DoubleS(d: real)

  /** The type-erased value given to the accessor. */
  datatype Value =
    | Empty
    | Prim(s: Scalar)
    | Dict(fields: map<string, Value>)
    | Vec(elems: seq<Value>)
    | RowOf(table: string, row: nat)
    | ListOf(table: string, row: nat, prop: string)

  /** What a cell stores. */
  datatype Cell =
    | Nil
    | Atom(s: Scalar)
    | Link(row: nat)
    | Items(items: seq<Cell>)

  type Row = map<string, Cell>

  type Db = map<string, seq<Row>>

  predicate ScalarFits(base: Base, s: Scalar) {
    match base
    case Int => s.IntS?
    case Bool => s.BoolS?
    case String => s.TextS?
    case Data => s.TextS?
    case Date => s.DateS?
    case Float => s.FloatS?
    case Double => s.DoubleS?
    case Any => true
    case _ => false
  }

  predicate ItemFits(p: Property, c: Cell) {
    match c
    case Nil => p.kind.isNullable
    case Atom(s) => ScalarFits(p.kind.base, s)
    case Link(_) => p.kind.base == Object
    case Items(_) => false
  }

  predicate CellFits(p: Property, c: Cell) {
    if p.kind.isArray then
      c.Items? && forall i | 0 <= i < |c.items| :: ItemFits(p, c.items[i])
    else
      ItemFits(p, c)
  }

  function ZeroScalar(base: Base): Scalar {
    match base
    case Bool => BoolS(false)
    case String => TextS("")
    case Data => TextS("")
    case Date => DateS(0, 0)
    case Float => FloatS(0.0)
    case Double => DoubleS(0.0)
    case _ => IntS(0)
  }

  /** The cell `add_empty_row` leaves in a column. */
  function EmptyCell(p: Property): (c: Cell)
    ensures p.kind.base != LinkingObjects && (p.kind.base == Object ==> p.kind.isNullable == !p.kind.isArray) ==>
              CellFits(p, c)
  {
    if p.kind.isArray then Items([])
    else if p.kind.isNullable then Nil
    else Atom(ZeroScalar(p.kind.base))
  }

  function EmptyRow(os: ObjectSchema): Row {
    map n | n in Names(os.persisted) :: EmptyCell(Named(os.persisted, n).value)
  }

  ghost predicate RowFits(os: ObjectSchema, row: Row) {
    && row.Keys == Names(os.persisted)
    && forall p | p in os.persisted :: CellFits(p, row[p.name])
  }

  /** One table per object type, and every cell of its column's type. */
  ghost predicate Shape(schema: Schema, db: Db) {
    && schema.Keys == db.Keys
    && forall ty, r | ty in db && 0 <= r < |db[ty]| :: RowFits(schema[ty], db[ty][r])
  }

  predicate HasRow(db: Db, ty: string, r: nat) {
    ty in db && r < |db[ty]|
  }

  /** Rows are only ever appended. */
  ghost predicate Grows(db: Db, db': Db) {
    && db.Keys == db'.Keys
    && forall ty | ty in db :: |db[ty]| <= |db'[ty]|
  }

  function AppendRow(db: Db, ty: string, row: Row): (db': Db)
    requires ty in db
    ensures Grows(db, db')
    ensures |db'[ty]| == |db[ty]| + 1 && db'[ty][|db[ty]|] == row
    ensures forall t: string, r: nat :: HasRow(db, t, r) ==> db'[t][r] == db[t][r]
  {
    db[ty := db[ty] + [row]]
  }

  function SetCell(db: Db, ty: string, r: nat, name: string, c: Cell): (db': Db)
    requires HasRow(db, ty, r)
    ensures Grows(db, db') && Grows(db', db)
    ensures db'[ty][r] == db[ty][r][name := c]
    ensures forall t: string, q: nat :: HasRow(db, t, q) && (t != ty || q != r) ==> db'[t][q] == db[t][q]
  {
    db[ty := db[ty][r := db[ty][r][name := c]]]
  }

  lemma AppendRowShape(schema: Schema, db: Db, ty: string, row: Row)
    requires Shape(schema, db) && ty in schema && RowFits(schema[ty], row)
    ensures Shape(schema, AppendRow(db, ty, row))
  {
    var db' := AppendRow(db, ty, row);
    forall t, r | t in db' && 0 <= r < |db'[t]| ensures RowFits(schema[t], db'[t][r]) {
      if r < |db[t]| {
        assert HasRow(db, t, r);
      }
    }
  }

  lemma SetCellShape(schema: Schema, db: Db, ty: string, r: nat, p: Property, c: Cell)
    requires SchemaOk(schema) && Shape(schema, db) && HasRow(db, ty, r)
    requires p in schema[ty].persisted && CellFits(p, c)
    ensures Shape(schema, SetCell(db, ty, r, p.name, c))
  {
    var os := schema[ty];
    var db' := SetCell(db, ty, r, p.name, c);
    assert RowFits(os, db'[ty][r]) by {
      assert RowFits(os, db[ty][r]);
      NamedIsIt(os.persisted, p);
      forall q | q in os.persisted ensures CellFits(q, db'[ty][r][q.name]) {
        NamedIsIt(os.persisted, q);
      }
    }
    forall t, q | t in db' && 0 <= q < |db'[t]| ensures RowFits(schema[t], db'[t][q]) {
      if t != ty || q != r {
        assert HasRow(db, t, q);
      }
    }
  }

  lemma EmptyRowFits(schema: Schema, os: ObjectSchema)
    requires ObjectSchemaOk(schema, os)
    ensures RowFits(os, EmptyRow(os))
  {
    forall p | p in os.persisted ensures CellFits(p, EmptyRow(os)[p.name]) {
      NamedIsIt(os.persisted, p);
      assert PersistedOk(schema, p);
    }
  }

  /** The first row at or after `from` whose key cell is `key`. */
  function FindFirst(rows: seq<Row>, name: string, key: Cell, from: nat := 0): (r: Option<nat>)
    requires from <= |rows|
    requires forall q | 0 <= q < |rows| :: name in rows[q]
    ensures r.Some? ==> from <= r.value < |rows| && rows[r.value][name] == key
    ensures r.Some? ==> forall q | from <= q < r.value :: rows[q][name] != key
    ensures r.None? ==> forall q | from <= q < |rows| :: rows[q][name] != key
    decreases |rows| - from
  {
    if from == |rows| then None
    else if rows[from][name] == key then Some(from)
    else FindFirst(rows, name, key, from + 1)
  }

  lemma SetSameCell(db: Db, ty: string, r: nat, name: string)
    requires HasRow(db, ty, r) && name in db[ty][r]
    ensures SetCell(db, ty, r, name, db[ty][r][name]) == db
  {
    assert db[ty][r][name := db[ty][r][name]] == db[ty][r];
    assert db[ty][r := db[ty][r]] == db[ty];
  }

  lemma SetCellTwice(db: Db, ty: string, r: nat, name: string, c: Cell, d: Cell)
    requires HasRow(db, ty, r)
    ensures SetCell(SetCell(db, ty, r, name, c), ty, r, name, d) == SetCell(db, ty, r, name, d)
  {
    var db1 := SetCell(db, ty, r, name, c);
    assert db[ty][r][name := c][name := d] == db[ty][r][name := d];
    assert db1[ty][r := db1[ty][r][name := d]] == db[ty][r := db[ty][r][name := d]];
  }
}
