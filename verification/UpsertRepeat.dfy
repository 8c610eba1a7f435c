/** A value that names one object twice: the upsert is not idempotent for it. */
module UpsertRepeat {
  import opened Wrappers
  import opened Schemas
  import opened Tables
  import opened Upsert
  import opened UpsertFrame

  const KEY := Property("id", PropertyType(Int, false, false), "")
  const CHILD := Property("child", PropertyType(Object, true, false), "A")
  const COUNT := Property("count", PropertyType(Int, false, false), "")

  /** A type with a key, a link to itself and, after it, a number that defaults to 7. */
  function RepeatContext(allowMissing: Value -> bool): Context {
    Context(map["A" := ObjectSchema([KEY, CHILD, COUNT], [], Some("id"))], map[("A", "count") := Prim(IntS(7))], true,
      false, allowMissing)
  }

  /** Object 1 with a child that is object 1 again, counted 5. */
  function Inner(): Value {
    Dict(map["id" := Prim(IntS(1)), "count" := Prim(IntS(5))])
  }

  function Outer(): Value {
    Dict(map["id" := Prim(IntS(1)), "child" := Inner()])
  }

  function RowWith(id: int, child: Cell, count: int): Row {
    map["id" := Atom(IntS(id)), "child" := child, "count" := Atom(IntS(count))]
  }

  function OneRow(id: int, child: Cell, count: int): Db {
    map["A" := [RowWith(id, child, count)]]
  }

  function NoRow(): Db {
    map["A" := []]
  }

  lemma Facts(am: Value -> bool)
    ensures var ctx := RepeatContext(am);
            && SchemaOk(ctx.schema) && "A" in ctx.schema && ctx.schema["A"].persisted == [KEY, CHILD, COUNT]
            && ctx.schema["A"].IsPrimary(KEY) && !ctx.schema["A"].IsPrimary(CHILD) && !ctx.schema["A"].IsPrimary(COUNT)
            && PrimaryProp(ctx.schema["A"]) == Some(KEY) && ctx.inWrite && KeylessDefaults(ctx)
  {
    var ctx := RepeatContext(am);
    assert ObjectSchemaOk(ctx.schema, ctx.schema["A"]);
  }

  lemma ThreeNames()
    ensures Names([KEY, CHILD, COUNT]) == {"id", "child", "count"}
  {
    assert [KEY, CHILD, COUNT][0].name == "id" && [KEY, CHILD, COUNT][1].name == "child"
        && [KEY, CHILD, COUNT][2].name == "count";
  }

  lemma OneRowReady(am: Value -> bool, id: int, child: Cell, count: int)
    requires child.Nil? || child.Link?
    ensures Ready(RepeatContext(am), OneRow(id, child, count)) && Ready(RepeatContext(am), NoRow())
    ensures Column(RepeatContext(am), OneRow(id, child, count), "A", 0, KEY)
    ensures Column(RepeatContext(am), OneRow(id, child, count), "A", 0, CHILD)
    ensures Column(RepeatContext(am), OneRow(id, child, count), "A", 0, COUNT)
  {
    hide SchemaOk, KeylessDefaults, RowFits, RowWith;
    var ctx := RepeatContext(am);
    Facts(am);
    assert ctx.schema["A"].persisted[0] == KEY;
    assert ctx.schema["A"].persisted[1] == CHILD && ctx.schema["A"].persisted[2] == COUNT;
    OneRowFits(am, id, child, count);
  }

  lemma OneRowFits(am: Value -> bool, id: int, child: Cell, count: int)
    requires child.Nil? || child.Link?
    ensures RowFits(RepeatContext(am).schema["A"], RowWith(id, child, count))
  {
    hide Names;
    ThreeNames();
  }

  /** Writing one cell of the only row. */
  lemma PutChild(id: int, child: Cell, count: int, c: Cell)
    ensures SetCell(OneRow(id, child, count), "A", 0, "child", c) == OneRow(id, c, count)
  {
    assert RowWith(id, child, count)["child" := c] == RowWith(id, c, count);
    assert [RowWith(id, child, count)][0 := RowWith(id, c, count)] == [RowWith(id, c, count)];
  }

  lemma PutCount(id: int, child: Cell, count: int, n: int)
    ensures SetCell(OneRow(id, child, count), "A", 0, "count", Atom(IntS(n))) == OneRow(id, child, n)
  {
    assert RowWith(id, child, count)["count" := Atom(IntS(n))] == RowWith(id, child, n);
    assert [RowWith(id, child, count)][0 := RowWith(id, child, n)] == [RowWith(id, child, n)];
  }

  lemma PutKey(id: int, child: Cell, count: int, n: int)
    ensures SetCell(OneRow(id, child, count), "A", 0, "id", Atom(IntS(n))) == OneRow(n, child, count)
  {
    assert RowWith(id, child, count)["id" := Atom(IntS(n))] == RowWith(n, child, count);
    assert [RowWith(id, child, count)][0 := RowWith(n, child, count)] == [RowWith(n, child, count)];
  }

  /** What is chosen for the two properties besides the key. */
  lemma Choices(am: Value -> bool, created: bool)
    ensures var ctx := RepeatContext(am);
            var place := Place(0, created, true);
            && "A" in ctx.schema
            && KeyOf(ctx, "A", KEY, Inner()) == Ok(Atom(IntS(1))) && KeyOf(ctx, "A", KEY, Outer()) == Ok(Atom(IntS(1)))
            && Chosen(ctx, "A", Inner(), Place(0, false, true), CHILD) == Ok(None)
            && Chosen(ctx, "A", Inner(), Place(0, false, true), COUNT) == Ok(Some((Prim(IntS(5)), false)))
            && Chosen(ctx, "A", Outer(), place, CHILD) == Ok(Some((Inner(), false)))
            && Chosen(ctx, "A", Outer(), place, COUNT) == if created then Ok(Some((Prim(IntS(7)), true))) else Ok(None)
  {
  }

  lemma LocateOne(am: Value -> bool, child: Cell, count: int, v: Value)
    requires (child.Nil? || child.Link?) && (v == Inner() || v == Outer())
    ensures Ready(RepeatContext(am), OneRow(1, child, count)) && "A" in RepeatContext(am).schema
    ensures Locate(RepeatContext(am), OneRow(1, child, count), "A", v, true)
              == Step(OneRow(1, child, count), Ok(Place(0, false, true)))
  {
    Facts(am);
    OneRowReady(am, 1, child, count);
    Choices(am, true);
    assert OneRow(1, child, count)["A"][0]["id"] == Atom(IntS(1)) && |OneRow(1, child, count)["A"]| == 1;
    hide Ready, RepeatContext, SchemaOk, KeylessDefaults, OneRow, Inner, Outer, KeyOf;
    assert FindKey(RepeatContext(am), OneRow(1, child, count), "A", KEY, Atom(IntS(1))) == Some(0);
  }

  /** The key is passed over, then the two other properties are dealt with in turn. */
  lemma ThreeSteps(am: Value -> bool, db: Db, db1: Db, db2: Db, v: Value, created: bool, depth: nat)
    requires var ctx := RepeatContext(am); Ready(ctx, db) && Ready(ctx, db1) && Ready(ctx, db2) && "A" in ctx.schema
    requires var ctx := RepeatContext(am);
             Column(ctx, db, "A", 0, CHILD) && Column(ctx, db1, "A", 0, COUNT) && HasRow(db2, "A", 0)
    requires After(RepeatContext(am), db, db1, v, created, CHILD, depth)
    requires After(RepeatContext(am), db1, db2, v, created, COUNT, depth)
    ensures Populate(RepeatContext(am), db, "A", v, true, Place(0, created, true), 0, depth) == Step(db2, Ok(0))
  {
    Facts(am);
    hide Ready, SetProperty, Chosen, RepeatContext, SchemaOk, KeylessDefaults;
    var ctx := RepeatContext(am);
    var place := Place(0, created, true);
    assert Populate(ctx, db2, "A", v, true, place, 3, depth) == Step(db2, Ok(0));
    assert Populate(ctx, db1, "A", v, true, place, 2, depth) == Step(db2, Ok(0));
    assert Populate(ctx, db, "A", v, true, place, 1, depth) == Step(db2, Ok(0));
  }

  /** Dealing with property `p` of the only row leads from `db` to `db1`. */
  ghost predicate After(ctx: Context, db: Db, db1: Db, v: Value, created: bool, p: Property, depth: nat)
    requires Ready(ctx, db) && "A" in ctx.schema && Column(ctx, db, "A", 0, p)
  {
    match Chosen(ctx, "A", v, Place(0, created, true), p)
    case Err(_) => false
    case Ok(None) => db1 == db
    case Ok(Some((x, isDefault))) => SetProperty(ctx, db, "A", 0, p, x, true, isDefault, depth) == Step(db1, Ok(()))
  }

  lemma CountSets(am: Value -> bool, child: Cell, count: int, n: int, isDefault: bool, depth: nat)
    requires child.Nil? || child.Link?
    ensures var ctx := RepeatContext(am);
            && Ready(ctx, OneRow(1, child, count)) && Column(ctx, OneRow(1, child, count), "A", 0, COUNT)
            && SetProperty(ctx, OneRow(1, child, count), "A", 0, COUNT, Prim(IntS(n)), true, isDefault, depth)
                 == Step(OneRow(1, child, n), Ok(()))
  {
    OneRowReady(am, 1, child, count);
    PutCount(1, child, count, n);
    hide Ready, RepeatContext, OneRow, Assign, Unbox;
    assert UnboxScalar(Int, Prim(IntS(n))) == Ok(Atom(IntS(n)));
    assert PutCell(RepeatContext(am), OneRow(1, child, count), "A", 0, COUNT, Atom(IntS(n))) == OneRow(1, child, n);
  }

  /** Updating from the inner value sets the count to 5. */
  lemma InnerSetsCount(am: Value -> bool, child: Cell, count: int, depth: nat)
    requires child.Nil? || child.Link?
    ensures Ready(RepeatContext(am), OneRow(1, child, count)) && "A" in RepeatContext(am).schema
    ensures Create(RepeatContext(am), OneRow(1, child, count), "A", Inner(), true, depth)
              == Step(OneRow(1, child, 5), Ok(0))
  {
    Facts(am);
    Choices(am, true);
    LocateOne(am, child, count, Inner());
    OneRowReady(am, 1, child, count);
    OneRowReady(am, 1, child, 5);
    CountSets(am, child, count, 5, false, depth);
    hide Ready, Locate, Populate, SetProperty, Chosen, RepeatContext, OneRow, Inner, Outer, SchemaOk, KeylessDefaults,
        KeyOf;
    ThreeSteps(am, OneRow(1, child, count), OneRow(1, child, count), OneRow(1, child, 5), Inner(), false, depth);
  }

  /** Writing a link to an object that creating or updating leaves in row `r`. */
  lemma LinkStep(ctx: Context, db: Db, ty: string, row: nat, p: Property, v: Value, depth: nat, db1: Db, r: nat)
    requires Ready(ctx, db) && Column(ctx, db, ty, row, p) && Ready(ctx, db1) && Column(ctx, db1, ty, row, p)
    requires p.target in ctx.schema
    requires p.kind.base == Object && !p.kind.isArray && v.Dict? && depth > 0
    requires Create(ctx, db, p.target, v, true, depth - 1) == Step(db1, Ok(r))
    ensures SetProperty(ctx, db, ty, row, p, v, true, false, depth)
              == Step(PutCell(ctx, db1, ty, row, p, Link(r)), Ok(()))
  {
    hide Ready, Create, Column, PutCell;
    assert Unbox(ctx, db, p.target, v, true, depth) == Step(db1, Ok(RowRef(p.target, r)));
  }

  lemma PutChildCell(am: Value -> bool, child: Cell)
    requires child.Nil? || child.Link?
    ensures var ctx := RepeatContext(am);
            && Ready(ctx, OneRow(1, child, 5)) && Column(ctx, OneRow(1, child, 5), "A", 0, CHILD)
            && PutCell(ctx, OneRow(1, child, 5), "A", 0, CHILD, Link(0)) == OneRow(1, Link(0), 5)
  {
    OneRowReady(am, 1, child, 5);
    PutChild(1, child, 5, Link(0));
    hide Ready, RepeatContext, OneRow;
  }

  lemma InnerIsDict()
    ensures Inner().Dict? && CHILD.target == "A" && CHILD.kind.base == Object && !CHILD.kind.isArray
  {
  }

  /** Writing the child link updates the row itself and links it to itself. */
  lemma ChildSetsCount(am: Value -> bool, child: Cell, count: int, depth: nat)
    requires (child.Nil? || child.Link?) && depth > 0
    ensures Ready(RepeatContext(am), OneRow(1, child, count))
    ensures Column(RepeatContext(am), OneRow(1, child, count), "A", 0, CHILD)
    ensures SetProperty(RepeatContext(am), OneRow(1, child, count), "A", 0, CHILD, Inner(), true, false, depth)
              == Step(OneRow(1, Link(0), 5), Ok(()))
  {
    hide *;
    OneRowReady(am, 1, child, count);
    OneRowReady(am, 1, child, 5);
    InnerSetsCount(am, child, count, depth - 1);
    PutChildCell(am, child);
    InnerIsDict();
    LinkStep(RepeatContext(am), OneRow(1, child, count), "A", 0, CHILD, Inner(), depth, OneRow(1, child, 5), 0);
  }

  lemma EmptyRowIs(am: Value -> bool)
    ensures "A" in RepeatContext(am).schema && EmptyRow(RepeatContext(am).schema["A"]) == RowWith(0, Nil, 0)
  {
    hide Names, Named;
    ThreeNames();
    ThreeNamed();
  }

  lemma ThreeNamed()
    ensures Named([KEY, CHILD, COUNT], "id") == Some(KEY)
    ensures Named([KEY, CHILD, COUNT], "child") == Some(CHILD)
    ensures Named([KEY, CHILD, COUNT], "count") == Some(COUNT)
  {
    assert Named([COUNT], "count") == Some(COUNT);
    assert [CHILD, COUNT][1..] == [COUNT];
    assert Named([CHILD, COUNT], "child") == Some(CHILD) && Named([CHILD, COUNT], "count") == Some(COUNT);
    assert [KEY, CHILD, COUNT][1..] == [CHILD, COUNT];
  }

  lemma OneRowAdded()
    ensures "A" in NoRow() && |NoRow()["A"]| == 0 && AppendRow(NoRow(), "A", RowWith(0, Nil, 0)) == OneRow(0, Nil, 0)
  {
    var row := RowWith(0, Nil, 0);
    var none: seq<Row> := [];
    assert none + [row] == [row];
    hide RowWith;
  }

  lemma LocateFirst(am: Value -> bool)
    ensures Ready(RepeatContext(am), NoRow()) && "A" in RepeatContext(am).schema
    ensures Locate(RepeatContext(am), NoRow(), "A", Outer(), true) == Step(OneRow(1, Nil, 0), Ok(Place(0, true, true)))
  {
    var ctx := RepeatContext(am);
    Facts(am);
    OneRowReady(am, 0, Nil, 0);
    Choices(am, true);
    EmptyRowIs(am);
    PutKey(0, Nil, 0, 1);
    OneRowAdded();
    hide Ready, RepeatContext, SchemaOk, KeylessDefaults, OneRow, NoRow, Inner, Outer, KeyOf, EmptyRow, RowWith;
    assert FindKey(ctx, NoRow(), "A", KEY, Atom(IntS(1))) == None;
    assert AddEmptyRow(ctx, NoRow(), "A") == OneRow(0, Nil, 0);
    hide AddEmptyRow, AppendRow;
    assert PutCell(ctx, OneRow(0, Nil, 0), "A", 0, KEY, Atom(IntS(1))) == OneRow(1, Nil, 0);
    hide PutCell, SetCell;
  }

  /** The first run ends with the default, which is written after the child. */
  lemma FirstRun(am: Value -> bool)
    ensures Ready(RepeatContext(am), NoRow()) && "A" in RepeatContext(am).schema
    ensures Create(RepeatContext(am), NoRow(), "A", Outer(), true, 2) == Step(OneRow(1, Link(0), 7), Ok(0))
  {
    Facts(am);
    LocateFirst(am);
    Choices(am, true);
    ChildSetsCount(am, Nil, 0, 2);
    CountSets(am, Link(0), 5, 7, true, 2);
    OneRowReady(am, 1, Link(0), 7);
    hide Ready, Locate, Populate, SetProperty, Chosen, RepeatContext, OneRow, NoRow, Inner, Outer, SchemaOk,
        KeylessDefaults, KeyOf;
    ThreeSteps(am, OneRow(1, Nil, 0), OneRow(1, Link(0), 5), OneRow(1, Link(0), 7), Outer(), true, 2);
  }

  /** The second run writes no default, so the child's count stays. */
  lemma SecondRun(am: Value -> bool)
    ensures Ready(RepeatContext(am), OneRow(1, Link(0), 7)) && "A" in RepeatContext(am).schema
    ensures Create(RepeatContext(am), OneRow(1, Link(0), 7), "A", Outer(), true, 2)
              == Step(OneRow(1, Link(0), 5), Ok(0))
  {
    Facts(am);
    LocateOne(am, Link(0), 7, Outer());
    Choices(am, false);
    ChildSetsCount(am, Link(0), 7, 2);
    OneRowReady(am, 1, Link(0), 5);
    hide Ready, Locate, Populate, SetProperty, Chosen, RepeatContext, OneRow, Inner, Outer, SchemaOk, KeylessDefaults,
        KeyOf;
    ThreeSteps(am, OneRow(1, Link(0), 7), OneRow(1, Link(0), 5), OneRow(1, Link(0), 5), Outer(), false, 2);
  }

  /**
   * A value that names one object twice can be changed by its second run: defaults are only
   * written when the object is created, so the two runs do not write the same cells last.
   */
  lemma RepeatIsNotIdempotent(am: Value -> bool)
    ensures var ctx := RepeatContext(am);
            && Ready(ctx, NoRow()) && KeylessDefaults(ctx) && "A" in ctx.schema
            && var s := Create(ctx, NoRow(), "A", Outer(), true, 2);
               var again := Create(ctx, s.db, "A", Outer(), true, 2);
               s.out == Ok(0) && again.out == Ok(0) && again.db != s.db
  {
    Facts(am);
    FirstRun(am);
    SecondRun(am);
    assert OneRow(1, Link(0), 7)["A"][0]["count"] != OneRow(1, Link(0), 5)["A"][0]["count"];
    hide Ready, Create, RepeatContext, OneRow;
  }
}
