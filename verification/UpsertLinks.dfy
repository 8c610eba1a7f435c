/** Every stored link and list entry names a row of the property's target table. */
module UpsertLinks {
  import opened Wrappers
  import opened Schemas
  import opened Tables
  import opened Upsert
  import opened UpsertKeys

  predicate Points(db: Db, p: Property, c: Cell) {
    c.Link? ==> HasRow(db, p.target, c.row)
  }

  ghost predicate CellPoints(db: Db, p: Property, c: Cell) {
    p.kind.base == Object ==>
      Points(db, p, c) && (c.Items? ==> forall i | 0 <= i < |c.items| :: Points(db, p, c.items[i]))
  }

  ghost predicate RowPoints(os: ObjectSchema, db: Db, row: Row)
    requires RowFits(os, row)
  {
    forall p | p in os.persisted :: CellPoints(db, p, row[p.name])
  }

  ghost predicate LinksOk(ctx: Context, db: Db)
    requires Ready(ctx, db)
  {
    forall ty, r | ty in db && 0 <= r < |db[ty]| :: RowPoints(ctx.schema[ty], db, db[ty][r])
  }

  lemma RowPointsGrows(os: ObjectSchema, db: Db, db': Db, row: Row)
    requires RowFits(os, row) && RowPoints(os, db, row) && Grows(db, db')
    ensures RowPoints(os, db', row)
  {
    forall p | p in os.persisted ensures CellPoints(db', p, row[p.name]) {
      assert CellPoints(db, p, row[p.name]);
    }
  }

  /** Writing a cell keeps the links in order exactly when the new cell's links do point at rows. */
  lemma PutLinks(ctx: Context, db: Db, ty: string, row: nat, p: Property, c: Cell)
    requires Ready(ctx, db) && Column(ctx, db, ty, row, p) && CellFits(p, c) && LinksOk(ctx, db)
    ensures LinksOk(ctx, PutCell(ctx, db, ty, row, p, c)) <==> CellPoints(db, p, c)
  {
    hide SchemaOk;
    var db' := PutCell(ctx, db, ty, row, p, c);
    assert RowFits(ctx.schema[ty], db'[ty][row]);
    if CellPoints(db, p, c) {
      PutRowPoints(ctx, db, ty, row, p, c);
      forall t, r | t in db' && 0 <= r < |db'[t]| ensures RowPoints(ctx.schema[t], db', db'[t][r]) {
        if t != ty || r != row {
          assert HasRow(db, t, r);
          RowPointsGrows(ctx.schema[t], db, db', db[t][r]);
        }
      }
    } else {
      assert !CellPoints(db', p, db'[ty][row][p.name]);
      assert !RowPoints(ctx.schema[ty], db', db'[ty][row]);
    }
  }

  lemma PutRowPoints(ctx: Context, db: Db, ty: string, row: nat, p: Property, c: Cell)
    requires Ready(ctx, db) && Column(ctx, db, ty, row, p) && CellFits(p, c) && LinksOk(ctx, db)
    requires CellPoints(db, p, c)
    ensures var db' := PutCell(ctx, db, ty, row, p, c);
            RowFits(ctx.schema[ty], db'[ty][row]) && RowPoints(ctx.schema[ty], db', db'[ty][row])
  {
    hide SchemaOk, CellFits, CellPoints;
    var os := ctx.schema[ty];
    var db' := PutCell(ctx, db, ty, row, p, c);
    assert RowPoints(os, db, db[ty][row]);
    assert RowFits(os, db'[ty][row]);
    ReadySchema(ctx, db, ty);
    forall q | q in os.persisted ensures CellPoints(db', q, db'[ty][row][q.name]) {
      if q.name == p.name {
        NamedIsIt(os.persisted, p);
        NamedIsIt(os.persisted, q);
      }
      assert CellPoints(db, q, if q == p then c else db[ty][row][q.name]);
      CellPointsGrows(db, db', q, db'[ty][row][q.name]);
    }
  }

  lemma CellPointsGrows(db: Db, db': Db, p: Property, c: Cell)
    requires CellPoints(db, p, c) && Grows(db, db')
    ensures CellPoints(db', p, c)
  {
  }

  lemma EmptyRowPoints(ctx: Context, ty: string, db: Db)
    requires SchemaOk(ctx.schema) && ty in ctx.schema
    ensures var os := ctx.schema[ty]; RowFits(os, EmptyRow(os)) && RowPoints(os, db, EmptyRow(os))
  {
    var os := ctx.schema[ty];
    EmptyRowFits(ctx.schema, os);
    forall p | p in os.persisted ensures CellPoints(db, p, EmptyRow(os)[p.name]) {
      NamedIsIt(os.persisted, p);
      assert PersistedOk(ctx.schema, p);
    }
  }

  lemma EmptyRowLinks(ctx: Context, db: Db, ty: string)
    requires Ready(ctx, db) && ty in ctx.schema && LinksOk(ctx, db)
    ensures LinksOk(ctx, AddEmptyRow(ctx, db, ty))
  {
    var db' := AddEmptyRow(ctx, db, ty);
    assert db' == AppendRow(db, ty, EmptyRow(ctx.schema[ty]));
    EmptyRowPoints(ctx, ty, db');
    hide SchemaOk, RowFits, RowPoints, EmptyRow, AddEmptyRow, AppendRow;
    forall t, r | t in db' && 0 <= r < |db'[t]| ensures RowPoints(ctx.schema[t], db', db'[t][r]) {
      if t != ty || r < |db[ty]| {
        assert db'[t][r]
            == db[t][r] by { assert HasRow(db, t, r) by { OnlyOneRowMore(db, ty, EmptyRow(ctx.schema[ty]), t); } }
        RowPointsGrows(ctx.schema[t], db, db', db[t][r]);
      }
    }
  }

  lemma OnlyOneRowMore(db: Db, ty: string, row: Row, t: string)
    requires ty in db && t in db
    ensures |AppendRow(db, ty, row)[t]| == |db[t]| + if t == ty then 1 else 0
  {
  }

  lemma LocateLinks(ctx: Context, db: Db, ty: string, v: Value, update: bool)
    requires Ready(ctx, db) && ty in ctx.schema && LinksOk(ctx, db)
    ensures LinksOk(ctx, Locate(ctx, db, ty, v, update).db)
  {
    hide LinksOk, SchemaOk, Shape, Ready;
    EmptyRowLinks(ctx, db, ty);
    ReadySchema(ctx, db, ty);
    var os := ctx.schema[ty];
    if PrimaryProp(os).Some? && KeyOf(ctx, ty, PrimaryProp(os).value, v).Ok? {
      var pk := PrimaryProp(os).value;
      PutLinks(ctx, AddEmptyRow(ctx, db, ty), ty, |db[ty]|, pk, KeyOf(ctx, ty, pk, v).value);
    }
  }

  /** Creating and updating keep every link pointing at a row, for every value and on every exit. */
  lemma {:induction false} CreateLinks(ctx: Context, db: Db, ty: string, v: Value, update: bool, depth: nat)
    requires Ready(ctx, db) && ty in ctx.schema && LinksOk(ctx, db)
    ensures LinksOk(ctx, Create(ctx, db, ty, v, update, depth).db)
    decreases depth, 4, 0
  {
    hide LinksOk, Ready, Populate, Locate;
    var l := Locate(ctx, db, ty, v, update);
    LocateLinks(ctx, db, ty, v, update);
    if ctx.inWrite && l.out.Ok? {
      PopulateLinks(ctx, l.db, ty, v, update, l.out.value, 0, depth);
    }
  }

  lemma {:induction false} PopulateLinks(
      ctx: Context, db: Db, ty: string, v: Value, update: bool, place: Place, i: nat, depth: nat)
    requires Ready(ctx, db) && ty in ctx.schema && HasRow(db, ty, place.row) && LinksOk(ctx, db)
    requires i <= |ctx.schema[ty].persisted|
    ensures LinksOk(ctx, Populate(ctx, db, ty, v, update, place, i, depth).db)
    decreases depth, 3, |ctx.schema[ty].persisted| - i
  {
    hide LinksOk, Ready, SetProperty, Chosen;
    var os := ctx.schema[ty];
    if i < |os.persisted| {
      var p := os.persisted[i];
      if place.skipPrimary && os.IsPrimary(p) {
        PopulateLinks(ctx, db, ty, v, update, place, i + 1, depth);
      } else {
        match Chosen(ctx, ty, v, place, p)
        case Err(e) =>
        case Ok(None) => PopulateLinks(ctx, db, ty, v, update, place, i + 1, depth);
        case Ok(Some((x, isDefault))) =>
          var s := SetProperty(ctx, db, ty, place.row, p, x, update, isDefault, depth);
          SetLinks(ctx, db, ty, place.row, p, x, update, isDefault, depth);
          if s.out.Ok? {
            PopulateLinks(ctx, s.db, ty, v, update, place, i + 1, depth);
          }
      }
    }
  }

  lemma {:induction false} SetLinks(
      ctx: Context, db: Db, ty: string, row: nat, p: Property, v: Value, update: bool, isDefault: bool, depth: nat)
    requires Ready(ctx, db) && Column(ctx, db, ty, row, p) && LinksOk(ctx, db)
    ensures LinksOk(ctx, SetProperty(ctx, db, ty, row, p, v, update, isDefault, depth).db)
    decreases depth, 2, 0
  {
    hide LinksOk, Ready, Assign, Unbox, SetLink, PutCell, SchemaOk, CellPoints;
    ColumnPersisted(ctx, db, ty, row, p);
    if p.kind.isNullable && v.Empty? {
      if !p.kind.isArray {
        PutNoLink(ctx, db, ty, row, p, Nil);
      }
    } else if p.kind.isArray {
      AssignLinks(ctx, db, ty, row, p, v, update, depth);
    } else if p.kind.base == Object {
      UnboxLinks(ctx, db, p.target, v, update, depth);
      var s := Unbox(ctx, db, p.target, v, update, depth);
      if s.out.Ok? {
        SetLinkLinks(ctx, s.db, ty, row, p, s.out.value.row);
      }
    } else if UnboxScalar(p.kind.base, v).Ok? {
      PutNoLink(ctx, db, ty, row, p, UnboxScalar(p.kind.base, v).value);
    }
  }

  lemma PutNoLink(ctx: Context, db: Db, ty: string, row: nat, p: Property, c: Cell)
    requires Ready(ctx, db) && Column(ctx, db, ty, row, p) && CellFits(p, c) && LinksOk(ctx, db)
    requires c.Nil? || c.Atom? || c == Items([])
    ensures LinksOk(ctx, PutCell(ctx, db, ty, row, p, c))
  {
    hide LinksOk, Ready, PutCell;
    PutLinks(ctx, db, ty, row, p, c);
  }

  /** A link is set only to a row that the target table has. */
  lemma SetLinkLinks(ctx: Context, db: Db, ty: string, row: nat, p: Property, target: nat)
    requires Ready(ctx, db) && Column(ctx, db, ty, row, p) && LinksOk(ctx, db) && p.kind.base == Object
    requires !p.kind.isArray
    ensures LinksOk(ctx, SetLink(ctx, db, ty, row, p, target).db)
  {
    hide LinksOk, Ready, PutCell;
    if HasRow(db, p.target, target) {
      PutLinks(ctx, db, ty, row, p, Link(target));
    }
  }

  lemma {:induction false} UnboxLinks(ctx: Context, db: Db, ty: string, v: Value, update: bool, depth: nat)
    requires Ready(ctx, db) && ty in ctx.schema && LinksOk(ctx, db)
    ensures LinksOk(ctx, Unbox(ctx, db, ty, v, update, depth).db)
    decreases depth, 0, 0
  {
    hide LinksOk, Ready, Create;
    if !v.RowOf? && depth > 0 {
      CreateLinks(ctx, db, ty, v, update, depth - 1);
    }
  }

  lemma {:induction false} AssignLinks(
      ctx: Context, db: Db, ty: string, row: nat, p: Property, v: Value, update: bool, depth: nat)
    requires Ready(ctx, db) && Column(ctx, db, ty, row, p) && p.kind.isArray && LinksOk(ctx, db)
    ensures LinksOk(ctx, Assign(ctx, db, ty, row, p, v, update, depth).db)
    decreases depth, 1, if v.Vec? then |v.elems| + 1 else 0
  {
    hide LinksOk, Ready, AppendAll, PutCell;
    PutNoLink(ctx, db, ty, row, p, Items([]));
    if v.Vec? {
      AppendAllLinks(ctx, PutCell(ctx, db, ty, row, p, Items([])), ty, row, p, v.elems, update, depth);
    }
  }

  lemma {:induction false} AppendAllLinks(
      ctx: Context, db: Db, ty: string, row: nat, p: Property, vs: seq<Value>, update: bool, depth: nat)
    requires Ready(ctx, db) && Column(ctx, db, ty, row, p) && p.kind.isArray && LinksOk(ctx, db)
    ensures LinksOk(ctx, AppendAll(ctx, db, ty, row, p, vs, update, depth).db)
    decreases depth, 1, |vs|
  {
    hide LinksOk, Ready, AppendOne;
    if vs != [] {
      var s := AppendOne(ctx, db, ty, row, p, vs[0], update, depth);
      AppendOneLinks(ctx, db, ty, row, p, vs[0], update, depth);
      if s.out.Ok? {
        AppendAllLinks(ctx, s.db, ty, row, p, vs[1..], update, depth);
      }
    }
  }

  lemma PushLinks(ctx: Context, db: Db, ty: string, row: nat, p: Property, c: Cell)
    requires Ready(ctx, db) && Column(ctx, db, ty, row, p) && p.kind.isArray && ItemFits(p, c) && LinksOk(ctx, db)
    requires p.kind.base == Object ==> Points(db, p, c)
    ensures LinksOk(ctx, PushItem(ctx, db, ty, row, p, c))
  {
    assert RowFits(ctx.schema[ty], db[ty][row]) && RowPoints(ctx.schema[ty], db, db[ty][row]);
    var was := db[ty][row][p.name];
    assert CellPoints(db, p, was);
    hide LinksOk, RowPoints, Shape, SchemaOk, RowFits;
    assert CellPoints(db, p, Items(was.items + [c]));
    PutLinks(ctx, db, ty, row, p, Items(was.items + [c]));
  }

  /** A row is only added to a list once it is known to be a row of the target table. */
  lemma {:induction false} AppendOneLinks(
      ctx: Context, db: Db, ty: string, row: nat, p: Property, v: Value, update: bool, depth: nat)
    requires Ready(ctx, db) && Column(ctx, db, ty, row, p) && p.kind.isArray && LinksOk(ctx, db)
    ensures LinksOk(ctx, AppendOne(ctx, db, ty, row, p, v, update, depth).db)
    decreases depth, 1, 0
  {
    hide LinksOk, Ready, Unbox, PushItem, SchemaOk;
    ColumnPersisted(ctx, db, ty, row, p);
    if p.kind.base == Object {
      UnboxLinks(ctx, db, p.target, v, update, depth);
      var s := Unbox(ctx, db, p.target, v, update, depth);
      if s.out.Ok? && HasRow(s.db, s.out.value.table, s.out.value.row) && s.out.value.table == p.target {
        PushLinks(ctx, s.db, ty, row, p, Link(s.out.value.row));
      }
    } else {
      match UnboxItem(p, v)
      case Ok(c) => PushLinks(ctx, db, ty, row, p, c);
      case Err(NullNotAllowed) => PushLinks(ctx, db, ty, row, p, Atom(ZeroScalar(p.kind.base)));
      case Err(e) =>
    }
  }

  /** Over every run of creations and property writes every link keeps pointing at a row. */
  lemma {:induction false} RunKeepsLinks(ctx: Context, db: Db, cs: seq<Command>)
    requires Ready(ctx, db) && LinksOk(ctx, db)
    ensures LinksOk(ctx, Run(ctx, db, cs))
    decreases |cs|
  {
    hide LinksOk, Ready, After;
    if cs != [] {
      AfterKeepsLinks(ctx, db, cs[0]);
      RunKeepsLinks(ctx, After(ctx, db, cs[0]), cs[1..]);
    }
  }

  lemma AfterKeepsLinks(ctx: Context, db: Db, c: Command)
    requires Ready(ctx, db) && LinksOk(ctx, db)
    ensures LinksOk(ctx, After(ctx, db, c))
  {
    hide LinksOk, Ready, Create, SetProperty;
    if c.ty in ctx.schema {
      match c
      case CreateObject(ty, v, update, depth) => CreateLinks(ctx, db, ty, v, update, depth);
      case SetValue(ty, row, name, v, update, depth) =>
        var p := Named(ctx.schema[ty].persisted, name);
        if HasRow(db, ty, row) && p.Some? {
          SetLinks(ctx, db, ty, row, p.value, v, update, false, depth);
        }
    }
  }
}
