/** Which values can be written. */
module UpsertSucceeds {
  import opened Wrappers
  import opened Schemas
  import opened Tables
  import opened Upsert
  import opened UpsertErrors
  import opened UpsertSetter

  // ---- values that fit their types ----

  /**
   * A value fits an object type: its key can be read, every property it gives fits with at most
   * `depth` objects nested in it, and, if `all` is set, so does each default, and nothing required
   * is missing.
   */
  ghost predicate Conforms(ctx: Context, db: Db, ty: string, v: Value, depth: nat, all: bool)
    decreases depth, 3
  {
    && ty in ctx.schema && KeyGiven(ctx, ty, v)
    && forall p | p in ctx.schema[ty].persisted && !ctx.schema[ty].IsPrimary(p) ::
         v.Dict? && FieldConforms(ctx, db, ty, v, p, depth, all)
  }

  ghost predicate KeyGiven(ctx: Context, ty: string, v: Value)
    requires ty in ctx.schema
  {
    match PrimaryProp(ctx.schema[ty])
    case None => true
    case Some(pk) => exists x, key :: Asks(ctx, ty, pk, v, x) && ReadsAs(pk, x, key)
  }

  ghost predicate FieldConforms(
      ctx: Context, db: Db, ty: string, v: Value, p: Property, depth: nat, all: bool)
    requires v.Dict?
    decreases depth, 2
  {
    if p.name in v.fields then PropConforms(ctx, db, p, v.fields[p.name], depth, all)
    else if !all then true
    else if (ty, p.name) in ctx.defaults then PropConforms(ctx, db, p, ctx.defaults[(ty, p.name)], depth, all)
    else p.kind.isNullable || p.kind.isArray || ctx.allowMissing(v)
  }

  ghost predicate PropConforms(ctx: Context, db: Db, p: Property, v: Value, depth: nat, all: bool)
    decreases depth, 1
  {
    if p.kind.isArray then
      || (v.Empty? && !p.kind.isNullable)
      || (v.Vec? && forall i | 0 <= i < |v.elems| :: ElementConforms(ctx, db, p, v.elems[i], depth, all))
    else if p.kind.base == Object then v.Empty? || ObjectConforms(ctx, db, p.target, v, depth, all)
    else Accepts(p, v)
  }

  ghost predicate ElementConforms(ctx: Context, db: Db, p: Property, v: Value, depth: nat, all: bool)
    decreases depth, 0, 1
  {
    if p.kind.base == Object then
      ObjectConforms(ctx, db, p.target, v, depth, all) && (v.RowOf? ==> v.table == p.target)
    else AcceptsItem(p, v)
  }

  /** An attached row, or a value that fits the object type. */
  ghost predicate ObjectConforms(ctx: Context, db: Db, ty: string, v: Value, depth: nat, all: bool)
    decreases depth, 0, 0
  {
    if v.RowOf? then HasRow(db, ty, v.row) else depth > 0 && Conforms(ctx, db, ty, v, depth - 1, all)
  }

  /** No managed object occurs in the value. */
  predicate Plain(v: Value) {
    match v
    case Dict(fields) => forall k | k in fields :: Plain(fields[k])
    case Vec(elems) => forall i | 0 <= i < |elems| :: Plain(elems[i])
    case RowOf(_, _) => false
    case ListOf(_, _, _) => false
    case _ => true
  }

  /** There are no defaults, and everything may be missing. */
  ghost predicate NothingElse(ctx: Context) {
    ctx.defaults == map[] && MayMiss(ctx)
  }

  // ---- other tables, and other demands ----

  /** What fits also fits later, and for values without managed objects in all tables. */
  ghost predicate Carries(ctx: Context, db: Db, db': Db, v: Value, all: bool, all': bool) {
    || (Grows(db, db') && (all' ==> all))
    || (Plain(v) && (all' ==> NothingElse(ctx)))
  }

  lemma {:induction false} ConformsCarries(
      ctx: Context, db: Db, db': Db, ty: string, v: Value, depth: nat, all: bool, all': bool)
    requires Conforms(ctx, db, ty, v, depth, all) && Carries(ctx, db, db', v, all, all')
    ensures Conforms(ctx, db', ty, v, depth, all')
    decreases depth, 3
  {
    hide KeyGiven, FieldConforms, Carries;
    forall p | p in ctx.schema[ty].persisted && !ctx.schema[ty].IsPrimary(p)
      ensures v.Dict? && FieldConforms(ctx, db', ty, v, p, depth, all')
    {
      FieldCarries(ctx, db, db', ty, v, p, depth, all, all');
    }
  }

  lemma {:induction false} FieldCarries(
      ctx: Context, db: Db, db': Db, ty: string, v: Value, p: Property, depth: nat, all: bool, all': bool)
    requires v.Dict? && FieldConforms(ctx, db, ty, v, p, depth, all) && Carries(ctx, db, db', v, all, all')
    ensures FieldConforms(ctx, db', ty, v, p, depth, all')
    decreases depth, 2
  {
    hide PropConforms;
    if p.name in v.fields {
      PropCarries(ctx, db, db', p, v.fields[p.name], depth, all, all');
    } else if all' && (ty, p.name) in ctx.defaults {
      PropCarries(ctx, db, db', p, ctx.defaults[(ty, p.name)], depth, all, all');
    }
  }

  lemma {:induction false} PropCarries(
      ctx: Context, db: Db, db': Db, p: Property, v: Value, depth: nat, all: bool, all': bool)
    requires PropConforms(ctx, db, p, v, depth, all) && Carries(ctx, db, db', v, all, all')
    ensures PropConforms(ctx, db', p, v, depth, all')
    decreases depth, 1
  {
    hide ObjectConforms, ElementConforms;
    if p.kind.isArray {
      if v.Vec? {
        forall i | 0 <= i < |v.elems| ensures ElementConforms(ctx, db', p, v.elems[i], depth, all') {
          ElementCarries(ctx, db, db', p, v.elems[i], depth, all, all');
        }
      }
    } else if p.kind.base == Object && !v.Empty? {
      ObjectCarries(ctx, db, db', p.target, v, depth, all, all');
    }
  }

  lemma {:induction false} ElementCarries(
      ctx: Context, db: Db, db': Db, p: Property, v: Value, depth: nat, all: bool, all': bool)
    requires ElementConforms(ctx, db, p, v, depth, all) && Carries(ctx, db, db', v, all, all')
    ensures ElementConforms(ctx, db', p, v, depth, all')
    decreases depth, 0, 1
  {
    hide ObjectConforms, Carries;
    if p.kind.base == Object {
      ObjectCarries(ctx, db, db', p.target, v, depth, all, all');
    }
  }

  lemma {:induction false} ObjectCarries(
      ctx: Context, db: Db, db': Db, ty: string, v: Value, depth: nat, all: bool, all': bool)
    requires ObjectConforms(ctx, db, ty, v, depth, all) && Carries(ctx, db, db', v, all, all')
    ensures ObjectConforms(ctx, db', ty, v, depth, all')
    decreases depth, 0, 0
  {
    hide Conforms;
    if !v.RowOf? {
      ConformsCarries(ctx, db, db', ty, v, depth - 1, all, all');
    }
  }

  // ---- what fits is written ----

  /**
   * In a write transaction, creating with update succeeds for every value that fits its type, its
   * nested objects and the defaults included, whether or not the objects are stored already.
   */
  lemma {:induction false} CreateSucceeds(ctx: Context, db: Db, ty: string, v: Value, depth: nat)
    requires Ready(ctx, db) && ctx.inWrite && Conforms(ctx, db, ty, v, depth, true)
    ensures Create(ctx, db, ty, v, true, depth).out.Ok?
    decreases depth, 4, 0
  {
    hide Ready, Locate, Populate, KeyGiven, FieldConforms;
    LocateFitting(ctx, db, ty, v);
    var l := Locate(ctx, db, ty, v, true);
    ConformsCarries(ctx, db, l.db, ty, v, depth, true, true);
    PopulateSucceeds(ctx, l.db, ty, v, l.out.value, 0, depth);
  }

  lemma LocateFitting(ctx: Context, db: Db, ty: string, v: Value)
    requires Ready(ctx, db) && ty in ctx.schema && KeyGiven(ctx, ty, v)
    ensures Locate(ctx, db, ty, v, true).out.Ok? && Locate(ctx, db, ty, v, true).out.value.skipPrimary
  {
    hide Ready, Locate, KeyOf, Appends, Asks, ReadsAs, Stored;
    LocateIs(ctx, db, ty, v, true);
    match PrimaryProp(ctx.schema[ty])
    case None =>
    case Some(pk) =>
      KeyTypeOk(ctx, db, ty, pk);
      KeyOfIs(ctx, ty, pk, v);
      var x, key :| Asks(ctx, ty, pk, v, x) && ReadsAs(pk, x, key);
      assert KeyOf(ctx, ty, pk, v) == Ok(key);
  }

  lemma {:induction false} PopulateSucceeds(
      ctx: Context, db: Db, ty: string, v: Value, place: Place, i: nat, depth: nat)
    requires Ready(ctx, db) && ctx.inWrite && Conforms(ctx, db, ty, v, depth, true)
    requires ty in ctx.schema && HasRow(db, ty, place.row) && place.skipPrimary && i <= |ctx.schema[ty].persisted|
    ensures Populate(ctx, db, ty, v, true, place, i, depth).out.Ok?
    decreases depth, 3, |ctx.schema[ty].persisted| - i
  {
    hide Ready, SetProperty, Conforms, Chosen, PropConforms, FieldConforms;
    var os := ctx.schema[ty];
    if i < |os.persisted| {
      var p := os.persisted[i];
      if os.IsPrimary(p) {
        PopulateSucceeds(ctx, db, ty, v, place, i + 1, depth);
      } else {
        FieldOf(ctx, db, ty, v, p, depth);
        ChosenFits(ctx, db, ty, v, place, i, depth);
        var c := Chosen(ctx, ty, v, place, p).value;
        if c.None? {
          PopulateSucceeds(ctx, db, ty, v, place, i + 1, depth);
        } else {
          SetSucceeds(ctx, db, ty, place.row, p, c.value.0, c.value.1, depth);
          var s := SetProperty(ctx, db, ty, place.row, p, c.value.0, true, c.value.1, depth);
          ConformsCarries(ctx, db, s.db, ty, v, depth, true, true);
          PopulateSucceeds(ctx, s.db, ty, v, place, i + 1, depth);
        }
      }
    }
  }

  lemma FieldOf(ctx: Context, db: Db, ty: string, v: Value, p: Property, depth: nat)
    requires Conforms(ctx, db, ty, v, depth, true) && p in ctx.schema[ty].persisted && !ctx.schema[ty].IsPrimary(p)
    ensures v.Dict? && FieldConforms(ctx, db, ty, v, p, depth, true)
  {
  }

  lemma ChosenFits(ctx: Context, db: Db, ty: string, v: Value, place: Place, i: nat, depth: nat)
    requires Ready(ctx, db) && ty in ctx.schema && i < |ctx.schema[ty].persisted|
    requires v.Dict? && FieldConforms(ctx, db, ty, v, ctx.schema[ty].persisted[i], depth, true)
    requires !ctx.schema[ty].IsPrimary(ctx.schema[ty].persisted[i])
    ensures var c := Chosen(ctx, ty, v, place, ctx.schema[ty].persisted[i]);
            c.Ok? && (c.value.Some? ==> PropConforms(ctx, db, ctx.schema[ty].persisted[i], c.value.value.0, depth,
              true))
  {
    hide Ready, PropConforms;
    var p := ctx.schema[ty].persisted[i];
    NullableObject(ctx, db, ty, p);
    if p.name in v.fields {
      NullConforms(ctx, db, p, v.fields[p.name], depth);
    } else if (ty, p.name) in ctx.defaults {
      NullConforms(ctx, db, p, ctx.defaults[(ty, p.name)], depth);
    }
  }

  lemma NullConforms(ctx: Context, db: Db, p: Property, v: Value, depth: nat)
    requires PropConforms(ctx, db, p, v, depth, true)
    requires p.kind.base == Object ==> p.kind.isNullable == !p.kind.isArray
    ensures v.Empty? ==> p.kind.isNullable || p.kind.isArray
  {
  }

  lemma {:induction false} SetSucceeds(
      ctx: Context, db: Db, ty: string, row: nat, p: Property, v: Value, isDefault: bool, depth: nat)
    requires Ready(ctx, db) && ctx.inWrite && Column(ctx, db, ty, row, p) && PropConforms(ctx, db, p, v, depth, true)
    ensures SetProperty(ctx, db, ty, row, p, v, true, isDefault, depth).out.Ok?
    decreases depth, 2, 0
  {
    hide Ready, Assign, Unbox, PutCell, ObjectConforms, CellFits;
    NullableObject(ctx, db, ty, p);
    if p.kind.isArray {
      AssignSucceeds(ctx, db, ty, row, p, v, depth);
    } else if p.kind.base == Object && !v.Empty? {
      UnboxSucceeds(ctx, db, p.target, v, depth);
    }
  }

  lemma {:induction false} UnboxSucceeds(ctx: Context, db: Db, ty: string, v: Value, depth: nat)
    requires Ready(ctx, db) && ctx.inWrite && ty in ctx.schema && ObjectConforms(ctx, db, ty, v, depth, true)
    ensures var s := Unbox(ctx, db, ty, v, true, depth);
            && s.out.Ok? && HasRow(s.db, ty, s.out.value.row)
            && s.out.value.table == if v.RowOf? then v.table else ty
    decreases depth, 0, 0
  {
    hide Ready, Create, Conforms;
    if !v.RowOf? {
      CreateSucceeds(ctx, db, ty, v, depth - 1);
    }
  }

  lemma {:induction false} AssignSucceeds(
      ctx: Context, db: Db, ty: string, row: nat, p: Property, v: Value, depth: nat)
    requires Ready(ctx, db) && ctx.inWrite && Column(ctx, db, ty, row, p) && p.kind.isArray
    requires PropConforms(ctx, db, p, v, depth, true)
    ensures Assign(ctx, db, ty, row, p, v, true, depth).out.Ok?
    decreases depth, 1, if v.Vec? then |v.elems| + 1 else 0
  {
    hide Ready, AppendAll, PutCell, ElementConforms;
    var db1 := PutCell(ctx, db, ty, row, p, Items([]));
    if v.Vec? {
      assert v == Vec(v.elems);
      PropCarries(ctx, db, db1, p, v, depth, true, true);
      AppendAllSucceeds(ctx, db1, ty, row, p, v.elems, depth);
    }
  }

  lemma {:induction false} AppendAllSucceeds(
      ctx: Context, db: Db, ty: string, row: nat, p: Property, vs: seq<Value>, depth: nat)
    requires Ready(ctx, db) && ctx.inWrite && Column(ctx, db, ty, row, p) && p.kind.isArray
    requires forall i | 0 <= i < |vs| :: ElementConforms(ctx, db, p, vs[i], depth, true)
    ensures AppendAll(ctx, db, ty, row, p, vs, true, depth).out.Ok?
    decreases depth, 1, |vs|
  {
    hide Ready, AppendOne, ElementConforms;
    if vs != [] {
      AppendOneSucceeds(ctx, db, ty, row, p, vs[0], depth);
      var s := AppendOne(ctx, db, ty, row, p, vs[0], true, depth);
      forall i | 0 <= i < |vs[1..]| ensures ElementConforms(ctx, s.db, p, vs[1..][i], depth, true) {
        ElementCarries(ctx, db, s.db, p, vs[i + 1], depth, true, true);
      }
      AppendAllSucceeds(ctx, s.db, ty, row, p, vs[1..], depth);
    }
  }

  lemma {:induction false} AppendOneSucceeds(
      ctx: Context, db: Db, ty: string, row: nat, p: Property, v: Value, depth: nat)
    requires Ready(ctx, db) && ctx.inWrite && Column(ctx, db, ty, row, p) && p.kind.isArray
    requires ElementConforms(ctx, db, p, v, depth, true)
    ensures AppendOne(ctx, db, ty, row, p, v, true, depth).out.Ok?
    decreases depth, 1, 0
  {
    hide Ready, Unbox, PushItem, ObjectConforms;
    NullableObject(ctx, db, ty, p);
    if p.kind.base == Object {
      UnboxSucceeds(ctx, db, p.target, v, depth);
    }
  }

  // ---- what is written fits ----

  /** A creation that returns was in a write transaction, and what the value gives fits its type. */
  lemma {:induction false} CreatedConforms(ctx: Context, db: Db, ty: string, v: Value, update: bool, depth: nat)
    requires Ready(ctx, db) && ty in ctx.schema && Plain(v) && Create(ctx, db, ty, v, update, depth).out.Ok?
    ensures ctx.inWrite && Conforms(ctx, db, ty, v, depth, false)
    decreases depth, 4, 0
  {
    hide Ready, Locate, Populate, KeyGiven, FieldConforms;
    LocatedKey(ctx, db, ty, v, update);
    var l := Locate(ctx, db, ty, v, update);
    PopulatedConforms(ctx, l.db, ty, v, update, l.out.value, 0, depth);
    FieldsFitAnywhere(ctx, l.db, db, ty, v, 0, depth);
  }

  lemma LocatedKey(ctx: Context, db: Db, ty: string, v: Value, update: bool)
    requires Ready(ctx, db) && ty in ctx.schema && Locate(ctx, db, ty, v, update).out.Ok?
    ensures KeyGiven(ctx, ty, v)
  {
    hide Ready, Locate, KeyOf, Appends, Asks, ReadsAs, Stored;
    LocateIs(ctx, db, ty, v, update);
    match PrimaryProp(ctx.schema[ty])
    case None =>
    case Some(pk) =>
      KeyTypeOk(ctx, db, ty, pk);
      KeyOfIs(ctx, ty, pk, v);
      assert KeyOf(ctx, ty, pk, v) == Ok(KeyOf(ctx, ty, pk, v).value);
  }

  /** What the value gives to the properties from the `i`-th on fits. */
  ghost predicate FieldsFit(ctx: Context, db: Db, ty: string, v: Value, i: nat, depth: nat)
    requires ty in ctx.schema
  {
    forall j | i <= j < |ctx.schema[ty].persisted| && !ctx.schema[ty].IsPrimary(ctx.schema[ty].persisted[j]) ::
      v.Dict? && FieldConforms(ctx, db, ty, v, ctx.schema[ty].persisted[j], depth, false)
  }

  lemma FieldsFitAnywhere(ctx: Context, db: Db, db': Db, ty: string, v: Value, i: nat, depth: nat)
    requires ty in ctx.schema && FieldsFit(ctx, db, ty, v, i, depth) && Plain(v)
    ensures FieldsFit(ctx, db', ty, v, i, depth)
  {
    hide FieldConforms, Plain;
    var ps := ctx.schema[ty].persisted;
    forall j | i <= j < |ps| && !ctx.schema[ty].IsPrimary(ps[j])
      ensures v.Dict? && FieldConforms(ctx, db', ty, v, ps[j], depth, false)
    {
      FieldCarries(ctx, db, db', ty, v, ps[j], depth, false, false);
    }
  }

  lemma FirstFits(ctx: Context, db: Db, ty: string, v: Value, i: nat, depth: nat)
    requires ty in ctx.schema && i < |ctx.schema[ty].persisted| && FieldsFit(ctx, db, ty, v, i + 1, depth)
    requires ctx.schema[ty].IsPrimary(ctx.schema[ty].persisted[i])
             || (v.Dict? && FieldConforms(ctx, db, ty, v, ctx.schema[ty].persisted[i], depth, false))
    ensures FieldsFit(ctx, db, ty, v, i, depth)
  {
    hide FieldConforms;
  }

  lemma {:induction false} PopulatedConforms(
      ctx: Context, db: Db, ty: string, v: Value, update: bool, place: Place, i: nat, depth: nat)
    requires Ready(ctx, db) && ty in ctx.schema && HasRow(db, ty, place.row) && Plain(v)
    requires i <= |ctx.schema[ty].persisted| && Populate(ctx, db, ty, v, update, place, i, depth).out.Ok?
    ensures FieldsFit(ctx, db, ty, v, i, depth)
    decreases depth, 3, |ctx.schema[ty].persisted| - i
  {
    hide Ready, SetProperty, FieldConforms, FieldsFit, Plain, Chosen;
    var os := ctx.schema[ty];
    if i == |os.persisted| {
      NoFieldsLeft(ctx, db, ty, v, depth);
    } else {
      var p := os.persisted[i];
      var db1 := db;
      if !(place.skipPrimary && os.IsPrimary(p)) {
        var c := Chosen(ctx, ty, v, place, p).value;
        if c.Some? {
          db1 := SetProperty(ctx, db, ty, place.row, p, c.value.0, update, c.value.1, depth).db;
        }
        WrittenFits(ctx, db, ty, v, update, place, p, depth);
      }
      PopulatedConforms(ctx, db1, ty, v, update, place, i + 1, depth);
      FieldsFitAnywhere(ctx, db1, db, ty, v, i + 1, depth);
      FirstFits(ctx, db, ty, v, i, depth);
    }
  }

  lemma {:induction false} WrittenFits(
      ctx: Context, db: Db, ty: string, v: Value, update: bool, place: Place, p: Property, depth: nat)
    requires Ready(ctx, db) && Column(ctx, db, ty, place.row, p) && Plain(v)
    requires var c := Chosen(ctx, ty, v, place, p);
             c.Ok? && (c.value.Some? ==>
               SetProperty(ctx, db, ty, place.row, p, c.value.value.0, update, c.value.value.1, depth).out.Ok?)
    ensures v.Dict? && FieldConforms(ctx, db, ty, v, p, depth, false)
    decreases depth, 2, 1
  {
    hide Ready, SetProperty, PropConforms;
    if p.name in v.fields {
      SetConforms(ctx, db, ty, place.row, p, v.fields[p.name], update, false, depth);
    }
  }

  lemma NoFieldsLeft(ctx: Context, db: Db, ty: string, v: Value, depth: nat)
    requires ty in ctx.schema
    ensures FieldsFit(ctx, db, ty, v, |ctx.schema[ty].persisted|, depth)
  {
  }

  lemma {:induction false} SetConforms(
      ctx: Context, db: Db, ty: string, row: nat, p: Property, v: Value, update: bool, isDefault: bool, depth: nat)
    requires Ready(ctx, db) && Column(ctx, db, ty, row, p) && Plain(v)
    requires SetProperty(ctx, db, ty, row, p, v, update, isDefault, depth).out.Ok?
    ensures PropConforms(ctx, db, p, v, depth, false)
    decreases depth, 2, 0
  {
    hide Ready, Assign, Unbox, PutCell, ObjectConforms, ElementConforms, CellFits;
    NullableObject(ctx, db, ty, p);
    if p.kind.isArray {
      AssignedConforms(ctx, db, ty, row, p, v, update, depth);
    } else if p.kind.base == Object && !v.Empty? {
      UnboxedConforms(ctx, db, p.target, v, update, depth);
    }
  }

  lemma {:induction false} UnboxedConforms(ctx: Context, db: Db, ty: string, v: Value, update: bool, depth: nat)
    requires Ready(ctx, db) && ty in ctx.schema && Plain(v) && Unbox(ctx, db, ty, v, update, depth).out.Ok?
    ensures ObjectConforms(ctx, db, ty, v, depth, false)
    decreases depth, 0, 0
  {
    hide Ready, Create, Conforms;
    CreatedConforms(ctx, db, ty, v, update, depth - 1);
  }

  lemma {:induction false} AssignedConforms(
      ctx: Context, db: Db, ty: string, row: nat, p: Property, v: Value, update: bool, depth: nat)
    requires Ready(ctx, db) && Column(ctx, db, ty, row, p) && p.kind.isArray && Plain(v)
    requires Assign(ctx, db, ty, row, p, v, update, depth).out.Ok?
    ensures v.Empty? || (v.Vec? && forall i | 0 <= i < |v.elems| ::
              ElementConforms(ctx, db, p, v.elems[i], depth, false))
    decreases depth, 1, if v.Vec? then |v.elems| + 1 else 0
  {
    hide Ready, AppendAll, PutCell, ElementConforms;
    if v.Vec? {
      assert v == Vec(v.elems);
      var db1 := PutCell(ctx, db, ty, row, p, Items([]));
      AppendedConform(ctx, db1, ty, row, p, v.elems, update, depth);
      forall i | 0 <= i < |v.elems| ensures ElementConforms(ctx, db, p, v.elems[i], depth, false) {
        ElementCarries(ctx, db1, db, p, v.elems[i], depth, false, false);
      }
    }
  }

  lemma {:induction false} AppendedConform(
      ctx: Context, db: Db, ty: string, row: nat, p: Property, vs: seq<Value>, update: bool, depth: nat)
    requires Ready(ctx, db) && Column(ctx, db, ty, row, p) && p.kind.isArray && Plain(Vec(vs))
    requires AppendAll(ctx, db, ty, row, p, vs, update, depth).out.Ok?
    ensures forall i | 0 <= i < |vs| :: ElementConforms(ctx, db, p, vs[i], depth, false)
    decreases depth, 1, |vs|
  {
    hide Ready, AppendOne, ElementConforms;
    if vs != [] {
      PlainParts(vs);
      AppendedOneConforms(ctx, db, ty, row, p, vs[0], update, depth);
      var s := AppendOne(ctx, db, ty, row, p, vs[0], update, depth);
      AppendedConform(ctx, s.db, ty, row, p, vs[1..], update, depth);
      forall i | 0 < i < |vs| ensures ElementConforms(ctx, db, p, vs[i], depth, false) {
        assert vs[i] == vs[1..][i - 1];
        ElementCarries(ctx, s.db, db, p, vs[i], depth, false, false);
      }
    }
  }

  lemma PlainParts(vs: seq<Value>)
    requires vs != [] && Plain(Vec(vs))
    ensures Plain(Vec(vs[1..])) && forall i | 0 <= i < |vs| :: Plain(vs[i])
  {
    assert forall i | 0 <= i < |Vec(vs).elems| :: Plain(Vec(vs).elems[i]);
  }

  lemma {:induction false} AppendedOneConforms(
      ctx: Context, db: Db, ty: string, row: nat, p: Property, v: Value, update: bool, depth: nat)
    requires Ready(ctx, db) && Column(ctx, db, ty, row, p) && p.kind.isArray && Plain(v)
    requires AppendOne(ctx, db, ty, row, p, v, update, depth).out.Ok?
    ensures ElementConforms(ctx, db, p, v, depth, false)
    decreases depth, 1, 0
  {
    hide Ready, Unbox, PushItem, ObjectConforms;
    NullableObject(ctx, db, ty, p);
    if p.kind.base == Object {
      UnboxedConforms(ctx, db, p.target, v, update, depth);
    }
  }

  /**
   * Exactly when creating with update succeeds, for values without managed objects, when no default
   * applies and properties may be missing: in a write transaction, for the values that fit their
   * types and nest no deeper than the stack.
   */
  lemma SucceedsIff(ctx: Context, db: Db, ty: string, v: Value, depth: nat)
    requires Ready(ctx, db) && ty in ctx.schema && Plain(v) && NothingElse(ctx)
    ensures Create(ctx, db, ty, v, true, depth).out.Ok? <==> ctx.inWrite && Conforms(ctx, db, ty, v, depth, true)
  {
    hide Ready, Create, Conforms;
    if Create(ctx, db, ty, v, true, depth).out.Ok? {
      CreatedConforms(ctx, db, ty, v, true, depth);
      ConformsCarries(ctx, db, db, ty, v, depth, false, true);
    } else if ctx.inWrite && Conforms(ctx, db, ty, v, depth, true) {
      CreateSucceeds(ctx, db, ty, v, depth);
    }
  }

  /** The same of the setter, with update, for a property that is known by its name. */
  lemma SetterSucceedsIff(ctx: Context, db: Db, ty: string, row: nat, p: Property, v: Value, depth: nat)
    requires Ready(ctx, db) && Column(ctx, db, ty, row, p) && Plain(v) && NothingElse(ctx)
    ensures SetPropertyValue(ctx, db, ty, row, p.name, v, true, depth).out.Ok? <==>
              Settable(ctx, db, ty, row, p) && PropConforms(ctx, db, p, v, depth, true)
  {
    hide Ready, SetProperty, SetPropertyValue, PropConforms;
    if SetPropertyValue(ctx, db, ty, row, p.name, v, true, depth).out.Ok? {
      SetterGuards(ctx, db, ty, row, p, v, true, depth);
      SetterSets(ctx, db, ty, row, p, v, true, depth);
      SetConforms(ctx, db, ty, row, p, v, true, false, depth);
      PropCarries(ctx, db, db, p, v, depth, false, true);
    } else if Settable(ctx, db, ty, row, p) && PropConforms(ctx, db, p, v, depth, true) {
      SetterSets(ctx, db, ty, row, p, v, true, depth);
      SetSucceeds(ctx, db, ty, row, p, v, false, depth);
    }
  }
}
