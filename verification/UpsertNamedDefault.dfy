/** A default that holds an object with a key changes a stored object that the value does not name. */
module UpsertNamedDefault {
  import opened Wrappers
  import opened Schemas
  import opened Tables
  import opened Upsert
  import opened UpsertKeys
  import opened UpsertFrame
  import opened UpsertSettled

  const KEY := Property("id", PropertyType(Int, false, false), "")
  const COUNT := Property("count", PropertyType(Int, false, false), "")
  const LINK := Property("link", PropertyType(Object, true, false), "A")

  /** Object 1 of type `A`, counted 5. */
  function Named(): Value {
    Dict(map["id" := Prim(IntS(1)), "count" := Prim(IntS(5))])
  }

  /** Objects of type `B` have no key, and link to object 1 of type `A` by default. */
  function NamingContext(allowMissing: Value -> bool): Context {
    Context(map["A" := ObjectSchema([KEY, COUNT], [], Some("id")), "B" := ObjectSchema([LINK], [], None)],
            map[("B", "link") := Named()], true, false, allowMissing)
  }

  lemma Facts(am: Value -> bool)
    ensures var ctx := NamingContext(am);
            && SchemaOk(ctx.schema) && "A" in ctx.schema && "B" in ctx.schema
            && ctx.schema["A"].persisted == [KEY, COUNT] && ctx.schema["B"].persisted == [LINK]
            && ctx.schema["A"].IsPrimary(KEY) && !ctx.schema["A"].IsPrimary(COUNT) && !ctx.schema["B"].IsPrimary(LINK)
            && PrimaryProp(ctx.schema["A"]) == Some(KEY) && PrimaryProp(ctx.schema["B"]) == None
  {
    var ctx := NamingContext(am);
    assert ObjectSchemaOk(ctx.schema, ctx.schema["A"]);
    assert ObjectSchemaOk(ctx.schema, ctx.schema["B"]);
  }

  /** Object 1 is found by its key. */
  lemma NamedFound(am: Value -> bool, db: Db, r: nat)
    requires Ready(NamingContext(am), db) && KeysUnique(NamingContext(am), db) && HasRow(db, "A", r)
    requires RowKey(NamingContext(am), "A", db["A"][r]) == Some(Atom(IntS(1)))
    ensures Locate(NamingContext(am), db, "A", Named(), true) == Step(db, Ok(Place(r, false, true)))
  {
    hide Shape, SchemaOk;
    var ctx := NamingContext(am);
    Facts(am);
    KeyIsRowKey(ctx, db, "A", r);
    assert KeyOf(ctx, "A", KEY, Named()) == Ok(Atom(IntS(1)));
    var q := FindKey(ctx, db, "A", KEY, Atom(IntS(1)));
    KeyIsHere(am, db, r);
    assert q.Some?;
    KeyIsHere(am, db, q.value);
    SameKeySameRow(ctx, db, "A", q.value, r);
  }

  lemma KeyIsHere(am: Value -> bool, db: Db, r: nat)
    requires Ready(NamingContext(am), db) && HasRow(db, "A", r)
    ensures "A" in NamingContext(am).schema && KeyName(NamingContext(am), "A").Some? && "id" in db["A"][r]
    ensures KeyAt(NamingContext(am), db, "A", r) == db["A"][r]["id"]
  {
    hide Shape, SchemaOk;
    KeyStored(NamingContext(am), db, "A", r);
  }

  /** Its count is written. */
  lemma NamedWritten(am: Value -> bool, db: Db, r: nat, depth: nat)
    requires Ready(NamingContext(am), db) && KeysUnique(NamingContext(am), db) && HasRow(db, "A", r)
    requires RowKey(NamingContext(am), "A", db["A"][r]) == Some(Atom(IntS(1)))
    ensures var ctx := NamingContext(am);
            && "A" in ctx.schema && COUNT in ctx.schema["A"].persisted
            && Create(ctx, db, "A", Named(), true, depth)
               == Step(PutCell(ctx, db, "A", r, COUNT, Atom(IntS(5))), Ok(r))
  {
    hide Ready, Locate, KeysUnique, PutCell, SchemaOk;
    var ctx := NamingContext(am);
    Facts(am);
    NamedFound(am, db, r);
    var place := Place(r, false, true);
    assert ctx.schema["A"].persisted[1] == COUNT;
    var db1 := PutCell(ctx, db, "A", r, COUNT, Atom(IntS(5)));
    assert Populate(ctx, db1, "A", Named(), true, place, 2, depth) == Step(db1, Ok(r));
    assert Chosen(ctx, "A", Named(), place, COUNT) == Ok(Some((Prim(IntS(5)), false)));
    assert SetProperty(ctx, db, "A", r, COUNT, Prim(IntS(5)), true, false, depth) == Step(db1, Ok(()));
    assert Populate(ctx, db, "A", Named(), true, place, 1, depth) == Step(db1, Ok(r));
  }

  /** The new object of type `B` leaves the others as they are. */
  lemma RowAdded(am: Value -> bool, db: Db, r: nat)
    requires Ready(NamingContext(am), db) && KeysUnique(NamingContext(am), db) && HasRow(db, "A", r)
    requires RowKey(NamingContext(am), "A", db["A"][r]) == Some(Atom(IntS(1)))
    ensures var ctx := NamingContext(am);
            && "B" in ctx.schema && "B" in db
            && var l := Locate(ctx, db, "B", Dict(map[]), true);
               && l.out == Ok(Place(|db["B"]|, true, true)) && KeysUnique(ctx, l.db)
               && Column(ctx, l.db, "B", |db["B"]|, LINK) && HasRow(l.db, "A", r)
               && RowKey(ctx, "A", l.db["A"][r]) == Some(Atom(IntS(1)))
  {
    hide Shape, SchemaOk, KeysUnique, RowKey;
    var ctx := NamingContext(am);
    Facts(am);
    assert LINK in ctx.schema["B"].persisted;
    LocateSpares(ctx, db, "B", Dict(map[]), true, "A", r);
    LocateKeepsKeys(ctx, db, "B", Dict(map[]), true);
  }

  /** The default of the link writes the count of object 1. */
  lemma LinkWritten(am: Value -> bool, db: Db, b: nat, r: nat, depth: nat)
    requires Ready(NamingContext(am), db) && KeysUnique(NamingContext(am), db) && HasRow(db, "A", r) && depth > 0
    requires RowKey(NamingContext(am), "A", db["A"][r]) == Some(Atom(IntS(1)))
    requires Column(NamingContext(am), db, "B", b, LINK)
    ensures var s := SetProperty(NamingContext(am), db, "B", b, LINK, Named(), true, true, depth);
            s.out.Ok? && HasRow(s.db, "A", r) && "count" in s.db["A"][r] && s.db["A"][r]["count"] == Atom(IntS(5))
  {
    hide Ready, KeysUnique, SchemaOk, Create, RowKey, PutCell;
    var ctx := NamingContext(am);
    Facts(am);
    NamedWritten(am, db, r, depth - 1);
    var db1 := PutCell(ctx, db, "A", r, COUNT, Atom(IntS(5)));
    CountStored(am, db, r);
    assert Unbox(ctx, db, "A", Named(), true, depth) == Step(db1, Ok(RowRef("A", r)));
    assert SetProperty(ctx, db, "B", b, LINK, Named(), true, true, depth) == SetLink(ctx, db1, "B", b, LINK, r);
    LinkStored(am, db1, b, r);
  }

  lemma CountStored(am: Value -> bool, db: Db, r: nat)
    requires Ready(NamingContext(am), db) && Column(NamingContext(am), db, "A", r, COUNT)
    ensures var db1 := PutCell(NamingContext(am), db, "A", r, COUNT, Atom(IntS(5)));
            HasRow(db1, "A", r) && "count" in db1["A"][r] && db1["A"][r]["count"] == Atom(IntS(5))
  {
    hide Ready;
  }

  lemma LinkStored(am: Value -> bool, db: Db, b: nat, r: nat)
    requires Ready(NamingContext(am), db) && Column(NamingContext(am), db, "B", b, LINK) && HasRow(db, "A", r)
    ensures var s := SetLink(NamingContext(am), db, "B", b, LINK, r);
            s.out.Ok? && HasRow(s.db, "A", r) && s.db["A"][r] == db["A"][r]
  {
    hide Ready;
  }

  /**
   * Creating an object of type `B` from a value that names no object with a key sets the count of
   * object 1 to 5, whatever it was.
   */
  lemma DefaultChangesOther(am: Value -> bool, db: Db, r: nat, depth: nat)
    requires Ready(NamingContext(am), db) && KeysUnique(NamingContext(am), db) && HasRow(db, "A", r) && depth > 0
    requires RowKey(NamingContext(am), "A", db["A"][r]) == Some(Atom(IntS(1)))
    ensures var ctx := NamingContext(am);
            && "B" in ctx.schema && !KeylessDefaults(ctx)
            && (forall t: string, row: Row :: Spares(ctx, "B", Dict(map[]), t, row))
            && var s := Create(ctx, db, "B", Dict(map[]), true, depth);
               s.out.Ok? && "count" in s.db["A"][r] && s.db["A"][r]["count"] == Atom(IntS(5))
  {
    hide Ready, KeysUnique, SchemaOk, RowKey, KeylessDefaults, Populate, SetProperty, Locate;
    var ctx := NamingContext(am);
    Facts(am);
    NamesObject(am);
    NamesNothing(am);
    RowAdded(am, db, r);
    var l := Locate(ctx, db, "B", Dict(map[]), true);
    var b := l.out.value.row;
    LinkWritten(am, l.db, b, r, depth);
    Filled(am, l.db, b, depth);
  }

  lemma Filled(am: Value -> bool, db: Db, b: nat, depth: nat)
    requires Ready(NamingContext(am), db) && Column(NamingContext(am), db, "B", b, LINK)
    requires SetProperty(NamingContext(am), db, "B", b, LINK, Named(), true, true, depth).out.Ok?
    ensures Populate(NamingContext(am), db, "B", Dict(map[]), true, Place(b, true, true), 0, depth)
              == Step(SetProperty(NamingContext(am), db, "B", b, LINK, Named(), true, true, depth).db, Ok(b))
  {
    hide Ready, SetProperty, SchemaOk;
    var ctx := NamingContext(am);
    Facts(am);
    var place := Place(b, true, true);
    assert ctx.schema["B"].persisted[0] == LINK;
    assert Chosen(ctx, "B", Dict(map[]), place, LINK) == Ok(Some((Named(), true)));
    var s := SetProperty(ctx, db, "B", b, LINK, Named(), true, true, depth);
    assert Populate(ctx, s.db, "B", Dict(map[]), true, place, 1, depth) == Step(s.db, Ok(b));
  }

  lemma NamesNothing(am: Value -> bool)
    ensures forall t: string, row: Row :: Spares(NamingContext(am), "B", Dict(map[]), t, row)
  {
    Facts(am);
  }

  lemma NamesObject(am: Value -> bool)
    ensures !KeylessDefaults(NamingContext(am))
  {
    var ctx := NamingContext(am);
    Facts(am);
    assert LINK in ctx.schema["B"].persisted && ("B", LINK.name) in ctx.defaults;
    assert NodeKey(ctx, "A", Named()) == Some(Atom(IntS(1)));
    assert PropAddresses(ctx, LINK, ctx.defaults[("B", LINK.name)], "A", Atom(IntS(1)));
  }
}
