/** Outside a migration, no table with a primary key ever holds two rows with one key. */
module UpsertKeys {
  import opened Wrappers
  import opened Schemas
  import opened Tables
  import opened Upsert

  function KeyName(ctx: Context, ty: string): Option<string>
    requires ty in ctx.schema
  {
    ctx.schema[ty].primary
  }

  /** Null counts as a key like any other. */
  ghost predicate KeysUnique(ctx: Context, db: Db)
    requires Ready(ctx, db)
  {
    forall ty, i, j | ty in ctx.schema && KeyName(ctx, ty).Some? && 0 <= i < j < |db[ty]| ::
      KeyAt(ctx, db, ty, i) != KeyAt(ctx, db, ty, j)
  }

  ghost function KeyAt(ctx: Context, db: Db, ty: string, r: nat): Cell
    requires Ready(ctx, db) && ty in ctx.schema && KeyName(ctx, ty).Some? && HasRow(db, ty, r)
  {
    KeyStored(ctx, db, ty, r);
    db[ty][r][KeyName(ctx, ty).value]
  }

  lemma KeyStored(ctx: Context, db: Db, ty: string, r: nat)
    requires Ready(ctx, db) && ty in ctx.schema && KeyName(ctx, ty).Some? && HasRow(db, ty, r)
    ensures KeyName(ctx, ty).value in db[ty][r]
  {
    assert RowFits(ctx.schema[ty], db[ty][r]);
    assert ObjectSchemaOk(ctx.schema, ctx.schema[ty]);
    var pk := Named(ctx.schema[ty].persisted, KeyName(ctx, ty).value).value;
    assert CellFits(pk, db[ty][r][pk.name]);
  }

  lemma SameKeySameRow(ctx: Context, db: Db, ty: string, q: nat, r: nat)
    requires Ready(ctx, db) && KeysUnique(ctx, db) && ty in ctx.schema && KeyName(ctx, ty).Some? && HasRow(db, ty, q)
    requires HasRow(db, ty, r)
    requires KeyAt(ctx, db, ty, q) == KeyAt(ctx, db, ty, r)
    ensures q == r
  {
  }

  /** Keys stay unique and no stored row ever gets another key. */
  ghost predicate KeepsKeys(ctx: Context, db: Db, db': Db)
    requires Ready(ctx, db) && Ready(ctx, db')
  {
    && Grows(db, db')
    && (forall ty, r | ty in ctx.schema && KeyName(ctx, ty).Some? && 0 <= r < |db[ty]| ::
          KeyAt(ctx, db', ty, r) == KeyAt(ctx, db, ty, r))
    && (KeysUnique(ctx, db) ==> KeysUnique(ctx, db'))
  }

  lemma KeepsKeysTrans(ctx: Context, a: Db, b: Db, c: Db)
    requires Ready(ctx, a) && Ready(ctx, b) && Ready(ctx, c)
    requires KeepsKeys(ctx, a, b) && KeepsKeys(ctx, b, c)
    ensures KeepsKeys(ctx, a, c)
  {
    forall ty, r | ty in ctx.schema && KeyName(ctx, ty).Some? && 0 <= r < |a[ty]|
      ensures KeyAt(ctx, c, ty, r) == KeyAt(ctx, a, ty, r)
    {
      assert KeyAt(ctx, b, ty, r) == KeyAt(ctx, a, ty, r);
    }
  }

  lemma KeepsKeysRefl(ctx: Context, db: Db)
    requires Ready(ctx, db)
    ensures KeepsKeys(ctx, db, db)
  {
  }

  lemma PutKeepsKeys(ctx: Context, db: Db, ty: string, row: nat, p: Property, c: Cell)
    requires Ready(ctx, db) && Column(ctx, db, ty, row, p) && CellFits(p, c)
    requires !ctx.schema[ty].IsPrimary(p)
    ensures KeepsKeys(ctx, db, PutCell(ctx, db, ty, row, p, c))
  {
    var db' := PutCell(ctx, db, ty, row, p, c);
    forall t, r | t in ctx.schema && KeyName(ctx, t).Some? && 0 <= r < |db[t]|
      ensures KeyAt(ctx, db', t, r) == KeyAt(ctx, db, t, r)
    {
      KeyStored(ctx, db, t, r);
      assert HasRow(db, t, r);
    }
  }

  lemma LocateOldKeys(ctx: Context, db: Db, ty: string, v: Value, update: bool)
    requires Ready(ctx, db) && ty in ctx.schema
    ensures forall t, r | t in ctx.schema && KeyName(ctx, t).Some? && 0 <= r < |db[t]| ::
              KeyAt(ctx, Locate(ctx, db, ty, v, update).db, t, r) == KeyAt(ctx, db, t, r)
  {
    var db' := Locate(ctx, db, ty, v, update).db;
    forall t, r | t in ctx.schema && KeyName(ctx, t).Some? && 0 <= r < |db[t]|
      ensures KeyAt(ctx, db', t, r) == KeyAt(ctx, db, t, r)
    {
      KeyStored(ctx, db, t, r);
      LocateSpares(ctx, db, ty, v, update, t, r);
    }
  }

  lemma LocateKeepsKeys(ctx: Context, db: Db, ty: string, v: Value, update: bool)
    requires Ready(ctx, db) && ty in ctx.schema && !ctx.inMigration
    ensures KeepsKeys(ctx, db, Locate(ctx, db, ty, v, update).db)
  {
    hide Locate, SchemaOk, RowFits;
    var db' := Locate(ctx, db, ty, v, update).db;
    LocateOldKeys(ctx, db, ty, v, update);
    LocateSizes(ctx, db, ty, v, update);
    if KeysUnique(ctx, db) {
      forall t, i, j | t in ctx.schema && KeyName(ctx, t).Some? && 0 <= i < j < |db'[t]|
        ensures KeyAt(ctx, db', t, i) != KeyAt(ctx, db', t, j)
      {
        assert KeyAt(ctx, db', t, i) == KeyAt(ctx, db, t, i);
        if j == |db[t]| {
          NewKeyIsFresh(ctx, db, ty, v, update, i);
        } else {
          assert KeyAt(ctx, db', t, j) == KeyAt(ctx, db, t, j);
        }
      }
    }
  }

  lemma NewKeyIsFresh(ctx: Context, db: Db, ty: string, v: Value, update: bool, i: nat)
    requires Ready(ctx, db) && ty in ctx.schema && !ctx.inMigration && KeyName(ctx, ty).Some?
    requires i < |db[ty]| < |Locate(ctx, db, ty, v, update).db[ty]|
    ensures KeyAt(ctx, db, ty, i) != KeyAt(ctx, Locate(ctx, db, ty, v, update).db, ty, |db[ty]|)
  {
    assert ObjectSchemaOk(ctx.schema, ctx.schema[ty]);
    var pk := PrimaryProp(ctx.schema[ty]).value;
    var key := KeyOf(ctx, ty, pk, v).value;
    assert FindKey(ctx, db, ty, pk, key).None?;
    KeyStored(ctx, db, ty, i);
  }

  /** The row that was found or appended has the key asked for. */
  lemma LocateKey(ctx: Context, db: Db, ty: string, v: Value, update: bool)
    requires Ready(ctx, db) && ty in ctx.schema && PrimaryProp(ctx.schema[ty]).Some? && !ctx.inMigration
    requires Locate(ctx, db, ty, v, update).out.Ok?
    ensures var l := Locate(ctx, db, ty, v, update);
            var key := KeyOf(ctx, ty, PrimaryProp(ctx.schema[ty]).value, v);
            key.Ok? && KeyName(ctx, ty).Some? && KeyAt(ctx, l.db, ty, l.out.value.row) == key.value
  {
    hide Shape, SchemaOk, KeyOf;
    ReadySchema(ctx, db, ty);
  }

  lemma {:induction false} CreateKeepsKeys(ctx: Context, db: Db, ty: string, v: Value, update: bool, depth: nat)
    requires Ready(ctx, db) && ty in ctx.schema && !ctx.inMigration
    ensures KeepsKeys(ctx, db, Create(ctx, db, ty, v, update, depth).db)
    decreases depth, 4, 0
  {
    hide KeepsKeys, Ready, Populate, Locate;
    KeepsKeysRefl(ctx, db);
    var l := Locate(ctx, db, ty, v, update);
    LocateKeepsKeys(ctx, db, ty, v, update);
    if ctx.inWrite && l.out.Ok? {
      PopulateKeepsKeys(ctx, l.db, ty, v, update, l.out.value, 0, depth);
      KeepsKeysTrans(ctx, db, l.db, Populate(ctx, l.db, ty, v, update, l.out.value, 0, depth).db);
    }
  }

  lemma {:induction false} PopulateKeepsKeys(
      ctx: Context, db: Db, ty: string, v: Value, update: bool, place: Place, i: nat, depth: nat)
    requires Ready(ctx, db) && ty in ctx.schema && HasRow(db, ty, place.row) && !ctx.inMigration && place.skipPrimary
    requires i <= |ctx.schema[ty].persisted|
    ensures KeepsKeys(ctx, db, Populate(ctx, db, ty, v, update, place, i, depth).db)
    decreases depth, 3, |ctx.schema[ty].persisted| - i
  {
    hide KeepsKeys, Ready, SetProperty;
    KeepsKeysRefl(ctx, db);
    var os := ctx.schema[ty];
    if i < |os.persisted| {
      var p := os.persisted[i];
      if os.IsPrimary(p) {
        PopulateKeepsKeys(ctx, db, ty, v, update, place, i + 1, depth);
      } else {
        match Chosen(ctx, ty, v, place, p)
        case Err(e) =>
        case Ok(None) => PopulateKeepsKeys(ctx, db, ty, v, update, place, i + 1, depth);
        case Ok(Some((x, isDefault))) =>
          var s := SetProperty(ctx, db, ty, place.row, p, x, update, isDefault, depth);
          SetKeepsKeys(ctx, db, ty, place.row, p, x, update, isDefault, depth);
          if s.out.Ok? {
            PopulateKeepsKeys(ctx, s.db, ty, v, update, place, i + 1, depth);
            KeepsKeysTrans(ctx, db, s.db, Populate(ctx, s.db, ty, v, update, place, i + 1, depth).db);
          }
      }
    }
  }

  lemma {:induction false} SetKeepsKeys(
      ctx: Context, db: Db, ty: string, row: nat, p: Property, v: Value, update: bool, isDefault: bool, depth: nat)
    requires Ready(ctx, db) && Column(ctx, db, ty, row, p) && !ctx.inMigration && !ctx.schema[ty].IsPrimary(p)
    ensures KeepsKeys(ctx, db, SetProperty(ctx, db, ty, row, p, v, update, isDefault, depth).db)
    decreases depth, 2, 0
  {
    hide KeepsKeys, Ready, Assign, Unbox, PutCell, SchemaOk, UnboxScalar;
    ColumnPersisted(ctx, db, ty, row, p);
    KeepsKeysRefl(ctx, db);
    if p.kind.isNullable && v.Empty? {
      if !p.kind.isArray {
        PutKeepsKeys(ctx, db, ty, row, p, Nil);
      }
    } else if p.kind.isArray {
      AssignKeepsKeys(ctx, db, ty, row, p, v, update, depth);
    } else if p.kind.base == Object {
      UnboxKeepsKeys(ctx, db, p.target, v, update, depth);
      var s := Unbox(ctx, db, p.target, v, update, depth);
      if s.out.Ok? {
        PutKeepsKeys(ctx, s.db, ty, row, p, Link(s.out.value.row));
        KeepsKeysTrans(ctx, db, s.db, PutCell(ctx, s.db, ty, row, p, Link(s.out.value.row)));
      }
    } else if UnboxScalar(p.kind.base, v).Ok? {
      PutKeepsKeys(ctx, db, ty, row, p, UnboxScalar(p.kind.base, v).value);
    }
  }

  lemma {:induction false} UnboxKeepsKeys(ctx: Context, db: Db, ty: string, v: Value, update: bool, depth: nat)
    requires Ready(ctx, db) && ty in ctx.schema && !ctx.inMigration
    ensures KeepsKeys(ctx, db, Unbox(ctx, db, ty, v, update, depth).db)
    decreases depth, 0, 0
  {
    hide KeepsKeys, Ready, Create;
    KeepsKeysRefl(ctx, db);
    if !v.RowOf? && depth > 0 {
      CreateKeepsKeys(ctx, db, ty, v, update, depth - 1);
      assert Unbox(ctx, db, ty, v, update, depth).db == Create(ctx, db, ty, v, update, depth - 1).db;
    }
  }

  lemma {:induction false} AssignKeepsKeys(
      ctx: Context, db: Db, ty: string, row: nat, p: Property, v: Value, update: bool, depth: nat)
    requires Ready(ctx, db) && Column(ctx, db, ty, row, p) && p.kind.isArray && !ctx.inMigration
    requires !ctx.schema[ty].IsPrimary(p)
    ensures KeepsKeys(ctx, db, Assign(ctx, db, ty, row, p, v, update, depth).db)
    decreases depth, 1, if v.Vec? then |v.elems| + 1 else 0
  {
    hide KeepsKeys, Ready, AppendAll;
    KeepsKeysRefl(ctx, db);
    var db1 := PutCell(ctx, db, ty, row, p, Items([]));
    PutKeepsKeys(ctx, db, ty, row, p, Items([]));
    if v.Vec? {
      AppendAllKeepsKeys(ctx, db1, ty, row, p, v.elems, update, depth);
      KeepsKeysTrans(ctx, db, db1, AppendAll(ctx, db1, ty, row, p, v.elems, update, depth).db);
    }
  }

  lemma {:induction false} AppendAllKeepsKeys(
      ctx: Context, db: Db, ty: string, row: nat, p: Property, vs: seq<Value>, update: bool, depth: nat)
    requires Ready(ctx, db) && Column(ctx, db, ty, row, p) && p.kind.isArray && !ctx.inMigration
    requires !ctx.schema[ty].IsPrimary(p)
    ensures KeepsKeys(ctx, db, AppendAll(ctx, db, ty, row, p, vs, update, depth).db)
    decreases depth, 1, |vs|
  {
    hide KeepsKeys, Ready, AppendOne;
    KeepsKeysRefl(ctx, db);
    if vs != [] {
      AppendOneKeepsKeys(ctx, db, ty, row, p, vs[0], update, depth);
      var s := AppendOne(ctx, db, ty, row, p, vs[0], update, depth);
      if s.out.Ok? {
        AppendAllKeepsKeys(ctx, s.db, ty, row, p, vs[1..], update, depth);
        KeepsKeysTrans(ctx, db, s.db, AppendAll(ctx, s.db, ty, row, p, vs[1..], update, depth).db);
      }
    }
  }

  lemma PushKeepsKeys(ctx: Context, db: Db, ty: string, row: nat, p: Property, c: Cell)
    requires Ready(ctx, db) && Column(ctx, db, ty, row, p) && p.kind.isArray && ItemFits(p, c)
    requires !ctx.schema[ty].IsPrimary(p)
    ensures KeepsKeys(ctx, db, PushItem(ctx, db, ty, row, p, c))
  {
    assert RowFits(ctx.schema[ty], db[ty][row]);
    PutKeepsKeys(ctx, db, ty, row, p, Items(db[ty][row][p.name].items + [c]));
  }

  lemma {:induction false} AppendOneKeepsKeys(
      ctx: Context, db: Db, ty: string, row: nat, p: Property, v: Value, update: bool, depth: nat)
    requires Ready(ctx, db) && Column(ctx, db, ty, row, p) && p.kind.isArray && !ctx.inMigration
    requires !ctx.schema[ty].IsPrimary(p)
    ensures KeepsKeys(ctx, db, AppendOne(ctx, db, ty, row, p, v, update, depth).db)
    decreases depth, 1, 0
  {
    hide KeepsKeys, Ready, Unbox, PushItem, SchemaOk, CellFits;
    ColumnPersisted(ctx, db, ty, row, p);
    KeepsKeysRefl(ctx, db);
    if p.kind.base == Object {
      UnboxKeepsKeys(ctx, db, p.target, v, update, depth);
      var s := Unbox(ctx, db, p.target, v, update, depth);
      if s.out.Ok? && HasRow(s.db, s.out.value.table, s.out.value.row) && s.out.value.table == p.target {
        PushKeepsKeys(ctx, s.db, ty, row, p, Link(s.out.value.row));
        KeepsKeysTrans(ctx, db, s.db, PushItem(ctx, s.db, ty, row, p, Link(s.out.value.row)));
      }
    } else {
      match UnboxItem(p, v)
      case Ok(c) => PushKeepsKeys(ctx, db, ty, row, p, c);
      case Err(NullNotAllowed) => PushKeepsKeys(ctx, db, ty, row, p, Atom(ZeroScalar(p.kind.base)));
      case Err(e) =>
    }
  }

  /** One call of the accessor. */
  datatype Command =
    | CreateObject(ty: string, v: Value, update: bool, depth: nat)
    | SetValue(ty: string, row: nat, name: string, v: Value, update: bool, depth: nat)

  /** The tables a call leaves behind, whether it returned or threw. */
  function After(ctx: Context, db: Db, c: Command): (db': Db)
    requires Ready(ctx, db)
    ensures Ready(ctx, db') && Grows(db, db')
  {
    if c.ty !in ctx.schema then db
    else
      match c
      case CreateObject(ty, v, update, depth) => Create(ctx, db, ty, v, update, depth).db
      case SetValue(ty, row, name, v, update, depth) => SetPropertyValue(ctx, db, ty, row, name, v, update, depth).db
  }

  function Run(ctx: Context, db: Db, cs: seq<Command>): (db': Db)
    requires Ready(ctx, db)
    ensures Ready(ctx, db')
    decreases |cs|
  {
    if cs == [] then db else Run(ctx, After(ctx, db, cs[0]), cs[1..])
  }

  lemma AfterKeepsKeys(ctx: Context, db: Db, c: Command)
    requires Ready(ctx, db) && !ctx.inMigration
    ensures KeepsKeys(ctx, db, After(ctx, db, c))
  {
    hide KeepsKeys, Ready, Create, SetProperty;
    KeepsKeysRefl(ctx, db);
    if c.ty in ctx.schema {
      match c
      case CreateObject(ty, v, update, depth) => CreateKeepsKeys(ctx, db, ty, v, update, depth);
      case SetValue(ty, row, name, v, update, depth) =>
        var p := Named(ctx.schema[ty].persisted, name);
        if HasRow(db, ty, row) && p.Some? && !ctx.schema[ty].IsPrimary(p.value) {
          SetKeepsKeys(ctx, db, ty, row, p.value, v, update, false, depth);
        }
    }
  }

  /**
   * Over every run of creations and property writes outside a migration, with values nested in
   * any way and whether the calls return or throw, keys stay unique and no row changes its key.
   */
  lemma {:induction false} RunKeepsKeys(ctx: Context, db: Db, cs: seq<Command>)
    requires Ready(ctx, db) && !ctx.inMigration
    ensures KeepsKeys(ctx, db, Run(ctx, db, cs))
    decreases |cs|
  {
    hide KeepsKeys, Ready, After;
    if cs == [] {
      KeepsKeysRefl(ctx, db);
    } else {
      var db1 := After(ctx, db, cs[0]);
      AfterKeepsKeys(ctx, db, cs[0]);
      RunKeepsKeys(ctx, db1, cs[1..]);
      KeepsKeysTrans(ctx, db, db1, Run(ctx, db1, cs[1..]));
    }
  }
}
