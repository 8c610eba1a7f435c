/** The public setter, the search by key, and the checks that writing goes through. */
module UpsertSetter {
  import opened Wrappers
  import opened Schemas
  import opened Tables
  import opened Upsert
  import opened UpsertKeys
  import opened UpsertFrame
  import opened UpsertHolds
  import opened UpsertRefines
  import opened UpsertGet
  import opened UpsertErrors

  // ---- the guards of the setter ----

  /** The property is stored and may be changed. */
  ghost predicate Settable(ctx: Context, db: Db, ty: string, row: nat, p: Property) {
    && ctx.inWrite && Column(ctx, db, ty, row, p)
    && (ctx.schema[ty].IsPrimary(p) ==> ctx.inMigration)
  }

  /** The setter of a property that may be changed writes it; `Column` determines the property by its name. */
  lemma SetterSets(
      ctx: Context, db: Db, ty: string, row: nat, p: Property, v: Value, update: bool, depth: nat)
    requires Ready(ctx, db) && Settable(ctx, db, ty, row, p)
    ensures SetPropertyValue(ctx, db, ty, row, p.name, v, update, depth)
              == SetProperty(ctx, db, ty, row, p, v, update, false, depth)
  {
    hide Shape, SetProperty;
    ReadySchema(ctx, db, ty);
    NamedIsIt(ctx.schema[ty].persisted, p);
  }

  lemma NamedNone(ps: seq<Property>, name: string)
    ensures Named(ps, name).None? <==> forall p | p in ps :: p.name != name
  {
    var r := Named(ps, name);
    if r.Some? {
      assert r.value in ps;
    } else {
      forall p | p in ps ensures p.name != name {
        var i :| 0 <= i < |ps| && ps[i] == p;
      }
    }
  }

  /**
   * The setter refuses, and then changes nothing: a detached row, a call outside a write
   * transaction, a name that no property has, a computed property, and the primary key outside a
   * migration, each with its own error and no other call with it. (That a row is detached may also
   * be said of a managed row inside the value.)
   */
  lemma SetterRefuses(
      ctx: Context, db: Db, ty: string, row: nat, name: string, v: Value, update: bool, depth: nat)
    requires Ready(ctx, db) && ty in ctx.schema
    ensures var s := SetPropertyValue(ctx, db, ty, row, name, v, update, depth);
            var stored := exists p :: p in ctx.schema[ty].persisted && p.name == name;
            var computed := exists p :: p in ctx.schema[ty].computed && p.name == name;
            var open := HasRow(db, ty, row) && ctx.inWrite;
            && (!HasRow(db, ty, row) ==> s == Step(db, Err(Detached)))
            && (RowFree(v) && DefaultsRowFree(ctx) && s.out == Err(Detached) ==> !HasRow(db, ty, row))
            && (s.out == Err(NotInWrite) <==> HasRow(db, ty, row) && !ctx.inWrite)
            && (s.out == Err(NoSuchProperty(ty, name)) <==> open && !stored && !computed)
            && (s.out == Err(ReadOnlyProperty(ty, name)) <==> open && !stored && computed)
            && (s.out == Err(KeyImmutable) <==>
                  open && stored && ctx.schema[ty].primary == Some(name) && !ctx.inMigration)
            && (!open || !stored || s.out == Err(KeyImmutable) ==> s.db == db)
  {
    hide Ready, SetProperty, Free, RowFree, DefaultsRowFree;
    NamedNone(ctx.schema[ty].persisted, name);
    NamedNone(ctx.schema[ty].computed, name);
    if HasRow(db, ty, row) && ctx.inWrite && Named(ctx.schema[ty].persisted, name).Some? {
      var p := Named(ctx.schema[ty].persisted, name).value;
      var free := RowFree(v) && DefaultsRowFree(ctx);
      IsFree(ctx, free, v);
      SetRaises(ctx, db, ty, row, p, v, update, false, depth, free);
    }
  }

  lemma IsFree(ctx: Context, free: bool, v: Value)
    requires free ==> RowFree(v) && DefaultsRowFree(ctx)
    ensures Free(ctx, free, v)
  {
  }

  // ---- what the setter writes ----

  /**
   * When the setter of a property that is no list returns, reading the property gives what was
   * set: the scalar or null, the row given, or the row the object given was created or updated in.
   */
  lemma GetAfterSetter(ctx: Context, db: Db, ty: string, row: nat, p: Property, v: Value, update: bool, depth: nat)
    requires Ready(ctx, db) && Column(ctx, db, ty, row, p) && !p.kind.isArray
    requires SetPropertyValue(ctx, db, ty, row, p.name, v, update, depth).out.Ok?
    ensures Settable(ctx, db, ty, row, p)
    ensures var s := SetPropertyValue(ctx, db, ty, row, p.name, v, update, depth);
            GetProperty(ctx, s.db, ty, row, p) ==
              if v.Empty? || p.kind.base != Object then Ok(v)
              else if v.RowOf? then Ok(RowOf(p.target, v.row))
              else Ok(RowOf(p.target, Unbox(ctx, db, p.target, v, update, depth).out.value.row))
  {
    hide Ready, SetProperty, GetProperty, Unbox;
    SetterGuards(ctx, db, ty, row, p, v, update, depth);
    SetterSets(ctx, db, ty, row, p, v, update, depth);
    GetAfterSet(ctx, db, ty, row, p, v, update, depth);
    if v.RowOf? && p.kind.base == Object {
      TargetKnown(ctx, db, ty, row, p);
      UnboxManaged(ctx, db, p.target, v, update, depth);
    }
  }

  lemma UnboxManaged(ctx: Context, db: Db, ty: string, v: Value, update: bool, depth: nat)
    requires Ready(ctx, db) && ty in ctx.schema && v.RowOf?
    ensures Unbox(ctx, db, ty, v, update, depth) == Step(db, Ok(RowRef(v.table, v.row)))
  {
  }

  lemma SetterGuards(ctx: Context, db: Db, ty: string, row: nat, p: Property, v: Value, update: bool, depth: nat)
    requires Ready(ctx, db) && Column(ctx, db, ty, row, p)
    requires SetPropertyValue(ctx, db, ty, row, p.name, v, update, depth).out.Ok?
    ensures Settable(ctx, db, ty, row, p)
  {
    hide Shape, SetProperty;
    ReadySchema(ctx, db, ty);
    NamedIsIt(ctx.schema[ty].persisted, p);
  }

  /** When the setter returns, the property holds the value set, nested objects and lists included. */
  lemma SetterHolds(ctx: Context, db: Db, ty: string, row: nat, p: Property, v: Value, update: bool, depth: nat)
    requires Ready(ctx, db) && Column(ctx, db, ty, row, p) && !ctx.inMigration && KeylessDefaults(ctx)
    requires PropNoRepeat(ctx, p, v) && PropSpares(ctx, p, v, ty, db[ty][row])
    requires SetPropertyValue(ctx, db, ty, row, p.name, v, update, depth).out.Ok?
    ensures CellHolds(
              ctx, db, SetPropertyValue(ctx, db, ty, row, p.name, v, update, depth).db, ty, row, p, v, depth)
  {
    hide Ready, SetProperty, CellHolds, PropNoRepeat, PropSpares, KeylessDefaults;
    SetterGuards(ctx, db, ty, row, p, v, update, depth);
    SetterSets(ctx, db, ty, row, p, v, update, depth);
    SetHolds(ctx, db, ty, row, p, v, update, false, depth);
  }

  /** The list given itself is as before, given null it is empty, given values it holds exactly their cells in order. */
  ghost predicate Assigned(
      ctx: Context, db: Db, now: Db, ty: string, row: nat, p: Property, v: Value, update: bool, depth: nat)
    requires Ready(ctx, db) && Column(ctx, db, ty, row, p) && Ready(ctx, now) && Column(ctx, now, ty, row, p)
    requires p.kind.isArray && (p.kind.base == Object ==> p.target in ctx.schema)
  {
    hide Ready;
    && (v == ListOf(ty, row, p.name) ==> now == db)
    && (v.Empty? ==> ListAt(ctx, now, ty, row, p) == Items([]))
    && (v.Vec? ==>
          var db1 := PutCell(ctx, db, ty, row, p, Items([]));
          ListAt(ctx, now, ty, row, p) == Items(ElementCells(ctx, db1, ty, row, p, v.elems, update, depth)))
  }

  /**
   * When the setter of a list returns, the list itself has changed nothing, null has emptied the
   * list, and other values have made it exactly the cells of their elements in order.
   */
  lemma SetterAssigns(ctx: Context, db: Db, ty: string, row: nat, p: Property, v: Value, update: bool, depth: nat)
    requires Ready(ctx, db) && Column(ctx, db, ty, row, p) && p.kind.isArray
    requires p.kind.base == Object ==> p.target in ctx.schema
    requires DefaultsSpare(ctx, ty, db[ty][row]) && PropSpares(ctx, p, v, ty, db[ty][row])
    requires SetPropertyValue(ctx, db, ty, row, p.name, v, update, depth).out.Ok?
    ensures v.Vec? || v.Empty? || v == ListOf(ty, row, p.name)
    ensures var s := SetPropertyValue(ctx, db, ty, row, p.name, v, update, depth);
            Ready(ctx, s.db) && Column(ctx, s.db, ty, row, p) && Assigned(ctx, db, s.db, ty, row, p, v, update, depth)
  {
    hide Ready, Assign, ElementCells, PropSpares, DefaultsSpare;
    SetterGuards(ctx, db, ty, row, p, v, update, depth);
    SetterSets(ctx, db, ty, row, p, v, update, depth);
    SetList(ctx, db, ty, row, p, v, update, depth);
    AssignIsExact(ctx, db, ty, row, p, v, update, depth);
  }

  lemma SetList(ctx: Context, db: Db, ty: string, row: nat, p: Property, v: Value, update: bool, depth: nat)
    requires Ready(ctx, db) && Column(ctx, db, ty, row, p) && p.kind.isArray
    requires SetProperty(ctx, db, ty, row, p, v, update, false, depth).out.Ok?
    ensures SetProperty(ctx, db, ty, row, p, v, update, false, depth) == Assign(ctx, db, ty, row, p, v, update, depth)
    ensures v.Vec? || v.Empty? || v == ListOf(ty, row, p.name)
  {
    hide Ready, AppendAll;
  }

  /** All other properties read as before, unless the value or a default names their object. */
  lemma OthersAfterSetter(
      ctx: Context, db: Db, ty: string, row: nat, p: Property, v: Value, update: bool, depth: nat, t: string, r: nat,
      q: Property)
    requires Ready(ctx, db) && Column(ctx, db, ty, row, p) && Column(ctx, db, t, r, q)
    requires update ==> DefaultsSpare(ctx, t, db[t][r]) && PropSpares(ctx, p, v, t, db[t][r])
    requires t != ty || r != row || q.name != p.name
    ensures GetProperty(ctx, SetPropertyValue(ctx, db, ty, row, p.name, v, update, depth).db, t, r, q)
              == GetProperty(ctx, db, t, r, q)
  {
    hide Ready, SetProperty, DefaultsSpare, PropSpares, GetProperty;
    if Settable(ctx, db, ty, row, p) {
      SetterSets(ctx, db, ty, row, p, v, update, depth);
      OthersAfterSet(ctx, db, ty, row, p, v, update, depth, t, r, q);
    } else {
      NotSettable(ctx, db, ty, row, p, v, update, depth);
    }
  }

  lemma NotSettable(ctx: Context, db: Db, ty: string, row: nat, p: Property, v: Value, update: bool, depth: nat)
    requires Ready(ctx, db) && Column(ctx, db, ty, row, p) && !Settable(ctx, db, ty, row, p)
    ensures SetPropertyValue(ctx, db, ty, row, p.name, v, update, depth).db == db
  {
    hide Shape, SetProperty;
    ReadySchema(ctx, db, ty);
    NamedIsIt(ctx.schema[ty].persisted, p);
  }

  /** The scalars a property accepts. */
  predicate Accepts(p: Property, v: Value) {
    if v.Empty? then p.kind.isNullable else v.Prim? && p.kind.base != Any && ScalarFits(p.kind.base, v.s)
  }

  /**
   * The setter of a scalar property succeeds exactly for an attached row in a write transaction, a
   * property that may be changed, and null where it may be null or a scalar of its type.
   */
  lemma ScalarSetterIff(
      ctx: Context, db: Db, ty: string, row: nat, p: Property, v: Value, update: bool, depth: nat)
    requires Ready(ctx, db) && ty in ctx.schema && p in ctx.schema[ty].persisted && !p.kind.isArray
    requires p.kind.base != Object
    ensures SetPropertyValue(ctx, db, ty, row, p.name, v, update, depth).out.Ok? <==>
              Settable(ctx, db, ty, row, p) && Accepts(p, v)
  {
    hide Shape, PutCell;
    ReadySchema(ctx, db, ty);
    NamedIsIt(ctx.schema[ty].persisted, p);
  }

  /**
   * A scalar that is refused changes nothing, and is refused for its property's mixed type, for being
   * null where the core does not take a null text, or else for its own type.
   */
  lemma ScalarErrorIs(
      ctx: Context, db: Db, ty: string, row: nat, p: Property, v: Value, update: bool, depth: nat)
    requires Ready(ctx, db) && Column(ctx, db, ty, row, p) && !p.kind.isArray && p.kind.base != Object
    requires SetProperty(ctx, db, ty, row, p, v, update, false, depth).out.Err?
    ensures var text := p.kind.base == String || p.kind.base == Data;
            SetProperty(ctx, db, ty, row, p, v, update, false, depth)
            == Step(db, Err(if p.kind.base == Any then NotSupported
                            else if v.Empty? && text then NullNotAllowed else BadCast))
  {
    hide Ready, PutCell;
  }

  // ---- finding an object by its key ----

  /**
   * The answer to a search by key: it is an error for a type without a key, for null where the key
   * may not be null, and for a value that is no scalar of the key's type; otherwise it is the first
   * row with the key, and none exactly if no row has it.
   */
  lemma LookupIs(ctx: Context, db: Db, ty: string, v: Value)
    requires Ready(ctx, db) && ty in ctx.schema
    ensures var found := GetForPrimaryKey(ctx, db, ty, v);
            && (found == Err(NoPrimaryKey(ty)) <==> ctx.schema[ty].primary.None?)
            && (ctx.schema[ty].primary.Some? ==>
                  PrimaryProp(ctx.schema[ty]).Some?
                  && var pk := PrimaryProp(ctx.schema[ty]).value;
                     && pk in ctx.schema[ty].persisted && ctx.schema[ty].IsPrimary(pk)
                     && (found.Err? <==> forall key :: !ReadsAs(pk, v, key))
                     && (found.Err? ==> found.error == if v.Empty? then NullKey else BadCast)
                     && (found == Ok(None) ==> forall key | ReadsAs(pk, v, key) :: !Stored(ctx, db, ty, pk, key))
                     && (found.Ok? && found.value.Some? ==> FirstWith(ctx, db, ty, pk, v, found.value.value)))
  {
    hide Ready, ReadsAs, FindKey;
    ReadySchema(ctx, db, ty);
    match PrimaryProp(ctx.schema[ty])
    case None =>
    case Some(pk) =>
      KeyTypeOk(ctx, db, ty, pk);
      KeyCellIs(pk, v);
      ReadyHas(ctx, db, ty, pk);
      match KeyCell(pk, v)
      case Err(_) =>
      case Ok(key) =>
        assert ReadsAs(pk, v, key);
        OneKey(pk, v);
        FindIffStored(ctx, db, ty, pk, key);
        FindIsFirst(ctx, db, ty, pk, key);
  }

  /** The row is the first one that has the key the value stands for. */
  ghost predicate FirstWith(ctx: Context, db: Db, ty: string, pk: Property, v: Value, r: nat) {
    && HasRow(db, ty, r)
    && (forall q | 0 <= q <= r :: pk.name in db[ty][q])
    && ReadsAs(pk, v, db[ty][r][pk.name])
    && forall q | 0 <= q < r :: db[ty][q][pk.name] != db[ty][r][pk.name]
  }

  lemma OneKey(pk: Property, v: Value)
    ensures forall k, l | ReadsAs(pk, v, k) && ReadsAs(pk, v, l) :: k == l
  {
  }

  lemma FindIsFirst(ctx: Context, db: Db, ty: string, pk: Property, key: Cell)
    requires Ready(ctx, db) && ty in ctx.schema && pk in ctx.schema[ty].persisted
    ensures ty in db && forall q | 0 <= q < |db[ty]| :: pk.name in db[ty][q]
    ensures var r := FindKey(ctx, db, ty, pk, key);
            r.Some? ==> HasRow(db, ty, r.value) && db[ty][r.value][pk.name] == key
                        && forall q | 0 <= q < r.value :: db[ty][q][pk.name] != key
  {
    ReadyHas(ctx, db, ty, pk);
    hide Ready;
  }

  // ---- elements and required properties ----

  /** The scalars a list accepts as elements. */
  predicate AcceptsItem(p: Property, v: Value) {
    if v.Empty? then p.kind.isNullable && p.kind.base != Date && p.kind.base != Any
    else v.Prim? && p.kind.base != Any && ScalarFits(p.kind.base, v.s)
  }

  /** A managed row is added to a list of objects exactly if it is attached and of the list's type. */
  lemma RowElementIff(ctx: Context, db: Db, ty: string, row: nat, p: Property, v: Value, update: bool, depth: nat)
    requires Ready(ctx, db) && Column(ctx, db, ty, row, p) && p.kind.isArray && p.kind.base == Object && v.RowOf?
    ensures var s := AppendOne(ctx, db, ty, row, p, v, update, depth);
            if !HasRow(db, v.table, v.row) then s == Step(db, Err(Detached))
            else if v.table != p.target then s == Step(db, Err(WrongTable))
            else
              && s.out.Ok? && Column(ctx, s.db, ty, row, p)
              && ListAt(ctx, s.db, ty, row, p) == Items(ListAt(ctx, db, ty, row, p).items + [Link(v.row)])
  {
    hide Ready, PushItem, SchemaOk, Create;
    TargetKnown(ctx, db, ty, row, p);
    UnboxManaged(ctx, db, p.target, v, update, depth);
    PushAppends(ctx, db, ty, row, p, Link(v.row));
  }

  /**
   * A scalar is added to a list exactly if it fits, or is null and may be. Other values change
   * nothing, but a null that is refused by the core leaves an element behind.
   */
  lemma ScalarElementIff(ctx: Context, db: Db, ty: string, row: nat, p: Property, v: Value, update: bool, depth: nat)
    requires Ready(ctx, db) && Column(ctx, db, ty, row, p) && p.kind.isArray && p.kind.base != Object
    ensures var s := AppendOne(ctx, db, ty, row, p, v, update, depth);
            && Column(ctx, s.db, ty, row, p)
            && (s.out.Ok? <==> AcceptsItem(p, v))
            && (s.out.Ok? ==>
                  var x := if v.Empty? then Nil else Atom(v.s);
                  ListAt(ctx, s.db, ty, row, p) == Items(ListAt(ctx, db, ty, row, p).items + [x]))
            && (s.out.Err? ==> s.db == db || s.out == Err(NullNotAllowed))
  {
    ColumnPersisted(ctx, db, ty, row, p);
    hide Ready, PushItem, SchemaOk;
    if UnboxItem(p, v).Ok? {
      PushAppends(ctx, db, ty, row, p, UnboxItem(p, v).value);
    }
  }

  /** A value that is no list and not null only empties the list. */
  lemma NoListIsRefused(ctx: Context, db: Db, ty: string, row: nat, p: Property, v: Value, update: bool, depth: nat)
    requires Ready(ctx, db) && Column(ctx, db, ty, row, p) && p.kind.isArray
    requires !v.Empty? && !v.Vec? && v != ListOf(ty, row, p.name)
    ensures SetProperty(ctx, db, ty, row, p, v, update, false, depth)
              == Step(PutCell(ctx, db, ty, row, p, Items([])), Err(BadCast))
  {
    hide Ready, PutCell;
  }

  /** Null for a list whose elements may be null is refused. */
  lemma NullListIsRefused(ctx: Context, db: Db, ty: string, row: nat, p: Property, update: bool, depth: nat)
    requires Ready(ctx, db) && Column(ctx, db, ty, row, p) && p.kind.isArray
    ensures SetProperty(ctx, db, ty, row, p, Empty, update, false, depth) ==
            if p.kind.isNullable then Step(db, Err(NullOnListColumn))
            else Step(PutCell(ctx, db, ty, row, p, Items([])), Ok(()))
  {
    hide Ready, PutCell;
  }

  /** A property that may not be left out or null is given neither a value nor, in a new object, a default. */
  predicate Missing(ctx: Context, ty: string, v: Value, created: bool, p: Property)
    requires v.Dict?
  {
    && !p.kind.isNullable && !p.kind.isArray
    && if p.name in v.fields then v.fields[p.name].Empty?
       else created && ((ty, p.name) in ctx.defaults ==> ctx.defaults[(ty, p.name)].Empty?)
  }

  lemma ChosenMissing(ctx: Context, ty: string, v: Value, place: Place, p: Property)
    requires ty in ctx.schema && v.Dict?
    ensures Chosen(ctx, ty, v, place, p) == Err(MissingValue(ty, p.name)) <==>
              Missing(ctx, ty, v, place.created, p) && (ctx.schema[ty].IsPrimary(p) || !ctx.allowMissing(v))
    ensures Chosen(ctx, ty, v, place, p).Err? ==> Chosen(ctx, ty, v, place, p) == Err(MissingValue(ty, p.name))
  {
  }

  /**
   * Nothing is created from a value that leaves out a required property, unless it may do so, and a
   * value that is no dictionary creates nothing of a type with a property.
   */
  lemma RequiredIsGiven(ctx: Context, db: Db, ty: string, v: Value, update: bool, depth: nat, p: Property)
    requires Ready(ctx, db) && ty in ctx.schema && !ctx.inMigration
    requires p in ctx.schema[ty].persisted && !ctx.schema[ty].IsPrimary(p)
    requires Create(ctx, db, ty, v, update, depth).out.Ok?
    ensures v.Dict?
    ensures !ctx.allowMissing(v) ==>
              !Missing(ctx, ty, v, !HasRow(db, ty, Create(ctx, db, ty, v, update, depth).out.value), p)
  {
    hide Ready, Populate, Locate, Fresh, Missing, SchemaOk;
    var l := Locate(ctx, db, ty, v, update);
    var place := l.out.value;
    LocateFresh(ctx, db, ty, v, update);
    FreshIff(ctx, db, l.db, ty, place);
    var j :| 0 <= j < |ctx.schema[ty].persisted| && ctx.schema[ty].persisted[j] == p;
    AllChosen(ctx, l.db, ty, v, update, place, 0, depth, j);
    if v.Dict? {
      ChosenMissing(ctx, ty, v, place, p);
    }
  }

  lemma FreshIff(ctx: Context, base: Db, db: Db, ty: string, place: Place)
    requires ty in ctx.schema && HasRow(db, ty, place.row) && Fresh(ctx, base, db, ty, place)
    ensures place.created <==> !HasRow(base, ty, place.row)
  {
  }

  /** When all properties have been written, a value was to be had for each. */
  lemma {:induction false} AllChosen(
      ctx: Context, db: Db, ty: string, v: Value, update: bool, place: Place, i: nat, depth: nat, j: nat)
    requires Ready(ctx, db) && ty in ctx.schema && HasRow(db, ty, place.row)
    requires i <= j < |ctx.schema[ty].persisted| && !ctx.schema[ty].IsPrimary(ctx.schema[ty].persisted[j])
    requires Populate(ctx, db, ty, v, update, place, i, depth).out.Ok?
    ensures v.Dict? && Chosen(ctx, ty, v, place, ctx.schema[ty].persisted[j]).Ok?
    decreases j - i
  {
    hide Ready, SetProperty;
    var p := ctx.schema[ty].persisted[i];
    if i < j {
      if place.skipPrimary && ctx.schema[ty].IsPrimary(p) {
        AllChosen(ctx, db, ty, v, update, place, i + 1, depth, j);
      } else {
        var c := Chosen(ctx, ty, v, place, p).value;
        var db1 := if c.Some? then SetProperty(ctx, db, ty, place.row, p, c.value.0, update, c.value.1, depth).db
                   else db;
        AllChosen(ctx, db1, ty, v, update, place, i + 1, depth, j);
      }
    }
  }

  // ---- duplicates in migrations ----

  /** Without updating, the cells of the row being filled change only with their own properties. */
  lemma {:induction false} FillKeeps(
      ctx: Context, db: Db, ty: string, v: Value, place: Place, i: nat, depth: nat, name: string)
    requires Ready(ctx, db) && ty in ctx.schema && HasRow(db, ty, place.row) && i <= |ctx.schema[ty].persisted|
    requires forall k | i <= k < |ctx.schema[ty].persisted| :: ctx.schema[ty].persisted[k].name != name
    ensures SameCell(db[ty][place.row], Populate(ctx, db, ty, v, false, place, i, depth).db[ty][place.row], name)
    decreases |ctx.schema[ty].persisted| - i
  {
    hide Ready, SetProperty, Chosen, DefaultsSpare, PropSpares;
    if i < |ctx.schema[ty].persisted| {
      var p := ctx.schema[ty].persisted[i];
      if place.skipPrimary && ctx.schema[ty].IsPrimary(p) {
        FillKeeps(ctx, db, ty, v, place, i + 1, depth, name);
      } else {
        match Chosen(ctx, ty, v, place, p)
        case Err(e) =>
        case Ok(None) => FillKeeps(ctx, db, ty, v, place, i + 1, depth, name);
        case Ok(Some((x, isDefault))) =>
          var s := SetProperty(ctx, db, ty, place.row, p, x, false, isDefault, depth);
          SetSpares(ctx, db, ty, place.row, p, x, false, isDefault, depth, ty, place.row);
          if s.out.Ok? {
            FillKeeps(ctx, s.db, ty, v, place, i + 1, depth, name);
          }
      }
    }
  }

  /** A new row whose key was not set yet gets the key that was asked for. */
  lemma {:induction false} FillKey(
      ctx: Context, db: Db, ty: string, v: Value, place: Place, i: nat, depth: nat, j: nat, key: Cell)
    requires Ready(ctx, db) && ty in ctx.schema && HasRow(db, ty, place.row) && place.created && !place.skipPrimary
    requires i <= j < |ctx.schema[ty].persisted| && PrimaryProp(ctx.schema[ty]) == Some(ctx.schema[ty].persisted[j])
    requires KeyOf(ctx, ty, ctx.schema[ty].persisted[j], v) == Ok(key)
    requires var pk := ctx.schema[ty].persisted[j];
             pk.name in db[ty][place.row] && db[ty][place.row][pk.name] == EmptyCell(pk)
    requires Populate(ctx, db, ty, v, false, place, i, depth).out.Ok?
    ensures var row := Populate(ctx, db, ty, v, false, place, i, depth).db[ty][place.row];
            var pk := ctx.schema[ty].persisted[j];
            pk.name in row && row[pk.name] == key
    decreases j - i
  {
    hide Ready, SetProperty, Chosen, KeyOf, DefaultsSpare, PropSpares, Distinct, EmptyCell;
    ReadyDistinct(ctx, db, ty);
    var p := ctx.schema[ty].persisted[i];
    var c := Chosen(ctx, ty, v, place, p).value;
    var s := if c.Some? then SetProperty(ctx, db, ty, place.row, p, c.value.0, false, c.value.1, depth)
             else Step(db, Ok(()));
    if i < j {
      DistinctAt(ctx.schema[ty].persisted, i, j);
      if c.Some? {
        SetSpares(ctx, db, ty, place.row, p, c.value.0, false, c.value.1, depth, ty, place.row);
      }
      FillKey(ctx, s.db, ty, v, place, i + 1, depth, j, key);
    } else {
      KeyIsWritten(ctx, db, ty, v, place, p, depth, key);
      LaterDiffer(ctx.schema[ty].persisted, j);
      FillKeeps(ctx, s.db, ty, v, place, i + 1, depth, p.name);
    }
  }

  lemma LaterDiffer(ps: seq<Property>, j: nat)
    requires Distinct(ps) && j < |ps|
    ensures forall k | j + 1 <= k < |ps| :: ps[k].name != ps[j].name
  {
  }

  lemma KeyIsWritten(ctx: Context, db: Db, ty: string, v: Value, place: Place, pk: Property, depth: nat, key: Cell)
    requires Ready(ctx, db) && Column(ctx, db, ty, place.row, pk) && place.created
    requires PrimaryProp(ctx.schema[ty]) == Some(pk) && KeyOf(ctx, ty, pk, v) == Ok(key)
    requires pk.name in db[ty][place.row] && db[ty][place.row][pk.name] == EmptyCell(pk)
    requires Chosen(ctx, ty, v, place, pk).Ok?
    ensures var c := Chosen(ctx, ty, v, place, pk).value;
            var db1 := if c.Some? then SetProperty(ctx, db, ty, place.row, pk, c.value.0, false, c.value.1, depth).db
                       else db;
            (c.Some? ==> SetProperty(ctx, db, ty, place.row, pk, c.value.0, false, c.value.1, depth).out.Ok?) ==>
              pk.name in db1[ty][place.row] && db1[ty][place.row][pk.name] == key
  {
    hide Shape, SchemaOk;
    KeyTypeOk(ctx, db, ty, pk);
  }

  /** In a migration, creating without updating an object whose key is stored appends another row with that key. */
  lemma DuplicateInMigration(ctx: Context, db: Db, ty: string, v: Value, depth: nat)
    requires Ready(ctx, db) && ty in ctx.schema && ctx.inMigration && Duplicate(ctx, db, ty, v)
    requires Create(ctx, db, ty, v, false, depth).out.Ok?
    ensures var s := Create(ctx, db, ty, v, false, depth);
            && s.out.value == |db[ty]| && PrimaryProp(ctx.schema[ty]).Some?
            && var pk := PrimaryProp(ctx.schema[ty]).value;
               pk.name in s.db[ty][s.out.value] && KeyOf(ctx, ty, pk, v) == Ok(s.db[ty][s.out.value][pk.name])
  {
    hide Ready, Locate, Populate, KeyOf, Stored, EmptyCell;
    LocateIs(ctx, db, ty, v, false);
    DuplicateKeyOf(ctx, db, ty, v);
    var pk := PrimaryProp(ctx.schema[ty]).value;
    var l := Locate(ctx, db, ty, v, false);
    KeyTypeOk(ctx, db, ty, pk);
    var j :| 0 <= j < |ctx.schema[ty].persisted| && ctx.schema[ty].persisted[j] == pk;
    FillKey(ctx, l.db, ty, v, l.out.value, 0, depth, j, KeyOf(ctx, ty, pk, v).value);
  }

  // ---- what is missing and what is empty ----

  /** The first required property that is left out stops the writing with its name. */
  lemma MissingStops(
      ctx: Context, db: Db, ty: string, v: Value, update: bool, place: Place, i: nat, depth: nat)
    requires Ready(ctx, db) && ty in ctx.schema && HasRow(db, ty, place.row) && i < |ctx.schema[ty].persisted|
    requires v.Dict? && !ctx.allowMissing(v) && !ctx.schema[ty].IsPrimary(ctx.schema[ty].persisted[i])
    requires Missing(ctx, ty, v, place.created, ctx.schema[ty].persisted[i])
    ensures Populate(ctx, db, ty, v, update, place, i, depth)
              == Step(db, Err(MissingValue(ty, ctx.schema[ty].persisted[i].name)))
  {
    hide Ready, SetProperty;
  }

  lemma NullableObject(ctx: Context, db: Db, ty: string, p: Property)
    requires Ready(ctx, db) && ty in ctx.schema && p in ctx.schema[ty].persisted
    ensures p.kind.base == Object ==> p.target in ctx.schema && p.kind.isNullable == !p.kind.isArray
    ensures p.kind.base != LinkingObjects
  {
    ReadySchema(ctx, db, ty);
    assert PersistedOk(ctx.schema, p);
  }

  /** Reading fails for a detached row and for no other. */
  lemma ReadFails(ctx: Context, db: Db, ty: string, row: nat, p: Property)
    requires Ready(ctx, db) && ty in ctx.schema && p in ctx.schema[ty].persisted
    ensures GetProperty(ctx, db, ty, row, p) == Err(Detached) <==> !HasRow(db, ty, row)
    ensures GetProperty(ctx, db, ty, row, p).Err? ==> GetProperty(ctx, db, ty, row, p) == Err(Detached)
  {
    NullableObject(ctx, db, ty, p);
    if HasRow(db, ty, row) {
      CellFitsHere(ctx, db, ty, row, p);
    }
    hide Ready;
  }

  /** What the properties of a new object read as that nothing was written to: null, an empty list, or zero. */
  lemma EmptyReads(ctx: Context, db: Db, ty: string, row: nat, p: Property)
    requires Ready(ctx, db) && Column(ctx, db, ty, row, p) && p.name in db[ty][row]
    requires db[ty][row][p.name] == EmptyCell(p)
    ensures p.kind.isArray ==>
              GetProperty(ctx, db, ty, row, p) == Ok(ListOf(ty, row, p.name))
                && ListAt(ctx, db, ty, row, p) == Items([])
    ensures !p.kind.isArray && p.kind.isNullable ==> GetProperty(ctx, db, ty, row, p) == Ok(Empty)
    ensures !p.kind.isArray && !p.kind.isNullable ==>
              var x := GetProperty(ctx, db, ty, row, p);
              && (p.kind.base == Int || p.kind.base == Any ==> x == Ok(Prim(IntS(0))))
              && (p.kind.base == Bool ==> x == Ok(Prim(BoolS(false))))
              && (p.kind.base == String || p.kind.base == Data ==> x == Ok(Prim(TextS(""))))
              && (p.kind.base == Date ==> x == Ok(Prim(DateS(0, 0))))
              && (p.kind.base == Float ==> x == Ok(Prim(FloatS(0.0))))
              && (p.kind.base == Double ==> x == Ok(Prim(DoubleS(0.0))))
  {
    CellFitsHere(ctx, db, ty, row, p);
    hide Ready;
  }
}
