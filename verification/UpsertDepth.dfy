/** How deep a stack the recursion needs: what a value nests, together with the defaults it pulls in. */
module UpsertDepth {
  import opened Wrappers
  import opened Schemas
  import opened Tables
  import opened Upsert
  import opened UpsertFrame

  /** `v` nests objects at most `d` levels deep. */
  ghost predicate Within(v: Value, d: nat)
    decreases v
  {
    && d > 0
    && (v.Dict? ==> forall k | k in v.fields :: Within(v.fields[k], d - 1))
    && (v.Vec? ==> forall i | 0 <= i < |v.elems| :: Within(v.elems[i], d))
  }

  lemma {:induction false} WithinMore(v: Value, d: nat, e: nat)
    requires Within(v, d) && d <= e
    ensures Within(v, e)
    decreases v
  {
    if v.Dict? {
      forall k | k in v.fields ensures Within(v.fields[k], e - 1) {
        WithinMore(v.fields[k], d - 1, e - 1);
      }
    }
    if v.Vec? {
      forall i | 0 <= i < |v.elems| ensures Within(v.elems[i], e) {
        WithinMore(v.elems[i], d, e);
      }
    }
  }

  /** Every value is within some depth. */
  lemma {:induction false} EveryValueWithin(v: Value) returns (d: nat)
    ensures Within(v, d)
    decreases v, 1, 0
  {
    d := 1;
    if v.Dict? {
      d := KeysWithin(v, v.fields.Keys);
      d := d + 1;
    } else if v.Vec? {
      d := ElemsWithin(v, |v.elems|);
    }
  }

  lemma {:induction false} KeysWithin(v: Value, ks: set<string>) returns (d: nat)
    requires v.Dict? && ks <= v.fields.Keys
    ensures forall k | k in ks :: Within(v.fields[k], d)
    decreases v, 0, |ks|
  {
    d := 1;
    if ks != {} {
      var k :| k in ks;
      var d0 := KeysWithin(v, ks - {k});
      var d1 := EveryValueWithin(v.fields[k]);
      d := if d0 <= d1 then d1 else d0;
      forall j | j in ks ensures Within(v.fields[j], d) {
        WithinMore(v.fields[j], if j == k then d1 else d0, d);
      }
    }
  }

  lemma {:induction false} ElemsWithin(v: Value, n: nat) returns (d: nat)
    requires v.Vec? && n <= |v.elems|
    ensures d > 0 && forall i | 0 <= i < n :: Within(v.elems[i], d)
    decreases v, 0, n
  {
    d := 1;
    if n > 0 {
      var d0 := ElemsWithin(v, n - 1);
      var d1 := EveryValueWithin(v.elems[n - 1]);
      d := if d0 <= d1 then d1 else d0;
      forall i | 0 <= i < n ensures Within(v.elems[i], d) {
        WithinMore(v.elems[i], if i == n - 1 then d1 else d0, d);
      }
    }
  }

  type Defaults = map<(string, string), Value>

  /** The value and the defaults it pulls in nest objects at most `n` levels deep below it. */
  ghost predicate Fits(schema: Schema, defaults: Defaults, ty: string, v: Value, n: nat)
    decreases n, 2
  {
    v.Dict? && ty in schema ==>
      forall p | p in schema[ty].persisted && Pulled(defaults, ty, v, p).Some? ::
        PropFits(schema, defaults, p, Pulled(defaults, ty, v, p).value, n)
  }

  /** The value of a property of a new object: the one given, or its default. */
  function Pulled(defaults: Defaults, ty: string, v: Value, p: Property): Option<Value>
    requires v.Dict?
  {
    if p.name in v.fields then Some(v.fields[p.name])
    else if (ty, p.name) in defaults then Some(defaults[(ty, p.name)])
    else None
  }

  ghost predicate PropFits(schema: Schema, defaults: Defaults, p: Property, x: Value, n: nat)
    decreases n, 1
  {
    p.kind.base == Object ==>
      if p.kind.isArray then x.Vec? ==> forall i | 0 <= i < |x.elems| ::
          ElemFits(schema, defaults, p.target, x.elems[i], n)
      else x.Empty? || ElemFits(schema, defaults, p.target, x, n)
  }

  /** A managed row needs no stack, any other value is created one level deeper. */
  ghost predicate ElemFits(schema: Schema, defaults: Defaults, ty: string, x: Value, n: nat)
    decreases n, 0
  {
    x.RowOf? || (n > 0 && Fits(schema, defaults, ty, x, n - 1))
  }

  lemma {:induction false} FitsMore(schema: Schema, defaults: Defaults, ty: string, v: Value, n: nat, m: nat)
    requires Fits(schema, defaults, ty, v, n) && n <= m
    ensures Fits(schema, defaults, ty, v, m)
    decreases n, 2
  {
    if v.Dict? && ty in schema {
      forall p | p in schema[ty].persisted && Pulled(defaults, ty, v, p).Some?
        ensures PropFits(schema, defaults, p, Pulled(defaults, ty, v, p).value, m)
      {
        PropFitsMore(schema, defaults, p, Pulled(defaults, ty, v, p).value, n, m);
      }
    }
  }

  lemma {:induction false} PropFitsMore(schema: Schema, defaults: Defaults, p: Property, x: Value, n: nat, m: nat)
    requires PropFits(schema, defaults, p, x, n) && n <= m
    ensures PropFits(schema, defaults, p, x, m)
    decreases n, 1
  {
    if p.kind.base == Object {
      if p.kind.isArray {
        if x.Vec? {
          forall i | 0 <= i < |x.elems| ensures ElemFits(schema, defaults, p.target, x.elems[i], m) {
            ElemFitsMore(schema, defaults, p.target, x.elems[i], n, m);
          }
        }
      } else if !x.Empty? {
        ElemFitsMore(schema, defaults, p.target, x, n, m);
      }
    }
  }

  lemma {:induction false} ElemFitsMore(schema: Schema, defaults: Defaults, ty: string, x: Value, n: nat, m: nat)
    requires ElemFits(schema, defaults, ty, x, n) && n <= m
    ensures ElemFits(schema, defaults, ty, x, m)
    decreases n, 0
  {
    if !x.RowOf? {
      FitsMore(schema, defaults, ty, x, n - 1, m - 1);
    }
  }

  // ---- values without nested objects in defaults fit their own height ----

  /** No default holds an object to be created, alone or in a list. */
  ghost predicate FlatDefaults(defaults: Defaults) {
    forall k | k in defaults :: Flat(defaults[k])
  }

  predicate Flat(v: Value) {
    !v.Dict? && (v.Vec? ==> forall i | 0 <= i < |v.elems| :: !v.elems[i].Dict?)
  }

  lemma {:induction false} HeightFits(schema: Schema, defaults: Defaults, ty: string, v: Value, d: nat)
    requires FlatDefaults(defaults) && Within(v, d)
    ensures Fits(schema, defaults, ty, v, d)
    decreases d, 2
  {
    if v.Dict? && ty in schema {
      forall p | p in schema[ty].persisted && Pulled(defaults, ty, v, p).Some?
        ensures PropFits(schema, defaults, p, Pulled(defaults, ty, v, p).value, d)
      {
        PropHeightFits(schema, defaults, p, Pulled(defaults, ty, v, p).value, d);
      }
    }
  }

  lemma {:induction false} PropHeightFits(schema: Schema, defaults: Defaults, p: Property, x: Value, d: nat)
    requires FlatDefaults(defaults) && d > 0 && (Flat(x) || Within(x, d - 1))
    ensures PropFits(schema, defaults, p, x, d)
    decreases d, 1
  {
    if p.kind.base == Object && p.kind.isArray && x.Vec? {
      forall i | 0 <= i < |x.elems| ensures ElemFits(schema, defaults, p.target, x.elems[i], d) {
        if x.elems[i].Dict? {
          HeightFits(schema, defaults, p.target, x.elems[i], d - 1);
        }
      }
    } else if p.kind.base == Object && x.Dict? {
      HeightFits(schema, defaults, p.target, x, d - 1);
    }
  }

  // ---- what fits never overflows ----

  /** A stack as deep as a value with its defaults nests never overflows. */
  lemma {:induction false} CreateDeepEnough(ctx: Context, db: Db, ty: string, v: Value, update: bool, depth: nat)
    requires Ready(ctx, db) && ty in ctx.schema && Fits(ctx.schema, ctx.defaults, ty, v, depth)
    ensures Create(ctx, db, ty, v, update, depth).out != Err(StackOverflow)
    decreases depth, 5, 0
  {
    hide Ready, Populate, Locate, Fits;
    var l := Locate(ctx, db, ty, v, update);
    if !v.Dict? {
      NotADict(ctx, db, ty, v, update, depth);
    } else {
      LocateNoOverflow(ctx, db, ty, v, update);
      if ctx.inWrite && l.out.Ok? {
        PopulateDeepEnough(ctx, l.db, ty, v, update, l.out.value, 0, depth);
      }
    }
  }

  lemma LocateNoOverflow(ctx: Context, db: Db, ty: string, v: Value, update: bool)
    requires Ready(ctx, db) && ty in ctx.schema
    ensures Locate(ctx, db, ty, v, update).out != Err(StackOverflow)
  {
    hide SchemaOk, Shape;
  }

  lemma ChosenFits(ctx: Context, ty: string, v: Value, place: Place, p: Property, depth: nat)
    requires ty in ctx.schema && p in ctx.schema[ty].persisted && v.Dict?
    requires Fits(ctx.schema, ctx.defaults, ty, v, depth)
    ensures var c := Chosen(ctx, ty, v, place, p);
            c.Ok? && c.value.Some? ==> PropFits(ctx.schema, ctx.defaults, p, c.value.value.0, depth)
    ensures Chosen(ctx, ty, v, place, p) != Err(StackOverflow)
  {
    hide PropFits;
    assert Pulled(ctx.defaults, ty, v, p).Some? ==> PropFits(ctx.schema, ctx.defaults, p,
        Pulled(ctx.defaults, ty, v, p).value, depth);
  }

  lemma {:induction false} PopulateDeepEnough(
      ctx: Context, db: Db, ty: string, v: Value, update: bool, place: Place, i: nat, depth: nat)
    requires Ready(ctx, db) && ty in ctx.schema && HasRow(db, ty, place.row) && i <= |ctx.schema[ty].persisted|
    requires v.Dict? && Fits(ctx.schema, ctx.defaults, ty, v, depth)
    ensures Populate(ctx, db, ty, v, update, place, i, depth).out != Err(StackOverflow)
    decreases depth, 3, |ctx.schema[ty].persisted| - i
  {
    hide Ready, SetProperty, Fits, PropFits, Chosen;
    var os := ctx.schema[ty];
    if i < |os.persisted| {
      var p := os.persisted[i];
      ChosenFits(ctx, ty, v, place, p, depth);
      if place.skipPrimary && os.IsPrimary(p) {
        PopulateDeepEnough(ctx, db, ty, v, update, place, i + 1, depth);
      } else {
        match Chosen(ctx, ty, v, place, p)
        case Err(e) =>
        case Ok(None) => PopulateDeepEnough(ctx, db, ty, v, update, place, i + 1, depth);
        case Ok(Some((x, isDefault))) =>
          SetDeepEnough(ctx, db, ty, place.row, p, x, update, isDefault, depth);
          var s := SetProperty(ctx, db, ty, place.row, p, x, update, isDefault, depth);
          if s.out.Ok? {
            PopulateDeepEnough(ctx, s.db, ty, v, update, place, i + 1, depth);
          }
      }
    }
  }

  lemma {:induction false} SetDeepEnough(
      ctx: Context, db: Db, ty: string, row: nat, p: Property, v: Value, update: bool, isDefault: bool, depth: nat)
    requires Ready(ctx, db) && Column(ctx, db, ty, row, p) && PropFits(ctx.schema, ctx.defaults, p, v, depth)
    ensures SetProperty(ctx, db, ty, row, p, v, update, isDefault, depth).out != Err(StackOverflow)
    decreases depth, 2, 0
  {
    hide Ready, Assign, Unbox, ElemFits, PutCell, SchemaOk;
    ColumnPersisted(ctx, db, ty, row, p);
    if p.kind.isNullable && v.Empty? {
    } else if p.kind.isArray {
      AssignDeepEnough(ctx, db, ty, row, p, v, update, depth);
    } else if p.kind.base == Object {
      UnboxDeepEnough(ctx, db, p.target, v, update, depth);
    }
  }

  lemma {:induction false} AssignDeepEnough(
      ctx: Context, db: Db, ty: string, row: nat, p: Property, v: Value, update: bool, depth: nat)
    requires Ready(ctx, db) && Column(ctx, db, ty, row, p) && p.kind.isArray
    requires PropFits(ctx.schema, ctx.defaults, p, v, depth)
    ensures Assign(ctx, db, ty, row, p, v, update, depth).out != Err(StackOverflow)
    decreases depth, 1, if v.Vec? then |v.elems| + 1 else 0
  {
    hide Ready, AppendAll, PutCell, ElemFits;
    if v.Vec? {
      AppendAllDeepEnough(ctx, PutCell(ctx, db, ty, row, p, Items([])), ty, row, p, v.elems, update, depth);
    }
  }

  lemma {:induction false} UnboxDeepEnough(ctx: Context, db: Db, ty: string, v: Value, update: bool, depth: nat)
    requires Ready(ctx, db) && ty in ctx.schema && ElemFits(ctx.schema, ctx.defaults, ty, v, depth)
    ensures Unbox(ctx, db, ty, v, update, depth).out != Err(StackOverflow)
    decreases depth, 0, 0
  {
    hide Ready, Create, Fits;
    if !v.RowOf? {
      CreateDeepEnough(ctx, db, ty, v, update, depth - 1);
    }
  }

  /** A value that is no dictionary fails before any nested object is created. */
  lemma NotADict(ctx: Context, db: Db, ty: string, v: Value, update: bool, depth: nat)
    requires Ready(ctx, db) && ty in ctx.schema && !v.Dict?
    ensures Create(ctx, db, ty, v, update, depth).out != Err(StackOverflow)
  {
    var os := ctx.schema[ty];
    hide Ready, SetProperty;
    var l := Locate(ctx, db, ty, v, update);
    if ctx.inWrite && l.out.Ok? && |os.persisted| > 0 {
      assert PrimaryProp(os).None?;
      NotADictFrom(ctx, l.db, ty, v, update, l.out.value, 0, depth);
    }
  }

  lemma {:induction false} NotADictFrom(
      ctx: Context, db: Db, ty: string, v: Value, update: bool, place: Place, i: nat, depth: nat)
    requires Ready(ctx, db) && ty in ctx.schema && !v.Dict? && HasRow(db, ty, place.row)
    requires i <= |ctx.schema[ty].persisted|
    ensures Populate(ctx, db, ty, v, update, place, i, depth).out != Err(StackOverflow)
    decreases |ctx.schema[ty].persisted| - i
  {
    hide Ready, SetProperty;
    if i < |ctx.schema[ty].persisted| {
      if place.skipPrimary && ctx.schema[ty].IsPrimary(ctx.schema[ty].persisted[i]) {
        NotADictFrom(ctx, db, ty, v, update, place, i + 1, depth);
      }
    }
  }

  lemma {:induction false} AppendAllDeepEnough(
      ctx: Context, db: Db, ty: string, row: nat, p: Property, vs: seq<Value>, update: bool, depth: nat)
    requires Ready(ctx, db) && Column(ctx, db, ty, row, p) && p.kind.isArray
    requires p.kind.base == Object ==>
               forall i | 0 <= i < |vs| :: ElemFits(ctx.schema, ctx.defaults, p.target, vs[i], depth)
    ensures AppendAll(ctx, db, ty, row, p, vs, update, depth).out != Err(StackOverflow)
    decreases depth, 1, |vs|
  {
    hide Ready, Unbox, ElemFits, PushItem, SchemaOk;
    ColumnPersisted(ctx, db, ty, row, p);
    if vs != [] {
      if p.kind.base == Object {
        UnboxDeepEnough(ctx, db, p.target, vs[0], update, depth);
      }
      var s := AppendOne(ctx, db, ty, row, p, vs[0], update, depth);
      if s.out.Ok? {
        AppendAllDeepEnough(ctx, s.db, ty, row, p, vs[1..], update, depth);
      }
    }
  }

  // ---- what returns has fitted ----

  /** No type has a primary key, so that every object is new and takes its defaults. */
  predicate NoKeys(schema: Schema) {
    forall ty | ty in schema :: schema[ty].primary.None?
  }

  /** The defaults that a run is known to have pulled in. */
  ghost predicate AllPulled(ctx: Context, defaults: Defaults) {
    defaults == map[] || (defaults == ctx.defaults && NoKeys(ctx.schema))
  }

  /**
   * What was created has fitted the stack: the value itself for every schema, and the value
   * together with its defaults for schemas without keys.
   */
  lemma {:induction false} CreatedFits(
      ctx: Context, defaults: Defaults, db: Db, ty: string, v: Value, update: bool, depth: nat)
    requires Ready(ctx, db) && ty in ctx.schema && AllPulled(ctx, defaults)
    requires Create(ctx, db, ty, v, update, depth).out.Ok?
    ensures Fits(ctx.schema, defaults, ty, v, depth)
    decreases depth, 5, 0
  {
    hide Ready, Populate, Locate, PropFits, NoKeys, Pulled;
    if v.Dict? {
      var l := Locate(ctx, db, ty, v, update);
      if defaults != map[] {
        LocateCreates(ctx, db, ty, v, update);
      }
      forall p | p in ctx.schema[ty].persisted && Pulled(defaults, ty, v, p).Some?
        ensures PropFits(ctx.schema, defaults, p, Pulled(defaults, ty, v, p).value, depth)
      {
        var j :| 0 <= j < |ctx.schema[ty].persisted| && ctx.schema[ty].persisted[j] == p;
        PopulatedFits(ctx, defaults, l.db, ty, v, update, l.out.value, 0, depth, j);
      }
    }
  }

  lemma LocateCreates(ctx: Context, db: Db, ty: string, v: Value, update: bool)
    requires Ready(ctx, db) && ty in ctx.schema && NoKeys(ctx.schema)
    ensures Locate(ctx, db, ty, v, update).out == Ok(Place(|db[ty]|, true, true))
  {
    hide Ready;
  }

  lemma {:induction false} PopulatedFits(
      ctx: Context, defaults: Defaults, db: Db, ty: string, v: Value, update: bool, place: Place, i: nat, depth: nat,
      j: nat)
    requires Ready(ctx, db) && ty in ctx.schema && HasRow(db, ty, place.row) && i <= j < |ctx.schema[ty].persisted|
    requires v.Dict?
    requires AllPulled(ctx, defaults) && (defaults == map[] || place.created)
    requires Populate(ctx, db, ty, v, update, place, i, depth).out.Ok?
    requires Pulled(defaults, ty, v, ctx.schema[ty].persisted[j]).Some?
    ensures var p := ctx.schema[ty].persisted[j];
            PropFits(ctx.schema, defaults, p, Pulled(defaults, ty, v, p).value, depth)
    decreases depth, 3, |ctx.schema[ty].persisted| - i
  {
    hide Ready, SetProperty, PropFits, Chosen, AllPulled, Pulled, SchemaOk;
    var os := ctx.schema[ty];
    var p := os.persisted[i];
    ColumnPersisted(ctx, db, ty, place.row, p);
    if place.skipPrimary && os.IsPrimary(p) {
      if i == j {
        ScalarPropFits(ctx.schema, defaults, p, Pulled(defaults, ty, v, p).value, depth);
      } else {
        PopulatedFits(ctx, defaults, db, ty, v, update, place, i + 1, depth, j);
      }
    } else {
      ChosenIsPulled(ctx, defaults, ty, v, place, p);
      match Chosen(ctx, ty, v, place, p)
      case Ok(None) => PopulatedFits(ctx, defaults, db, ty, v, update, place, i + 1, depth, j);
      case Ok(Some((x, isDefault))) =>
        var s := SetProperty(ctx, db, ty, place.row, p, x, update, isDefault, depth);
        if i == j {
          SetFits(ctx, defaults, db, ty, place.row, p, x, update, isDefault, depth);
        } else {
          PopulatedFits(ctx, defaults, s.db, ty, v, update, place, i + 1, depth, j);
        }
    }
  }

  lemma ScalarPropFits(schema: Schema, defaults: Defaults, p: Property, x: Value, n: nat)
    requires p.kind.base != Object
    ensures PropFits(schema, defaults, p, x, n)
  {
  }

  lemma ChosenIsPulled(ctx: Context, defaults: Defaults, ty: string, v: Value, place: Place, p: Property)
    requires ty in ctx.schema && v.Dict? && AllPulled(ctx, defaults) && (defaults == map[] || place.created)
    ensures var c := Chosen(ctx, ty, v, place, p);
            c.Ok? && Pulled(defaults, ty, v, p).Some? ==>
              c.value.Some? && c.value.value.0 == Pulled(defaults, ty, v, p).value
  {
  }

  lemma {:induction false} SetFits(
      ctx: Context, defaults: Defaults, db: Db, ty: string, row: nat, p: Property, v: Value, update: bool,
      isDefault: bool, depth: nat)
    requires Ready(ctx, db) && Column(ctx, db, ty, row, p) && AllPulled(ctx, defaults)
    requires SetProperty(ctx, db, ty, row, p, v, update, isDefault, depth).out.Ok?
    ensures PropFits(ctx.schema, defaults, p, v, depth)
    decreases depth, 2, 0
  {
    hide Ready, AppendAll, Unbox, ElemFits, AllPulled, PutCell, SchemaOk;
    ColumnPersisted(ctx, db, ty, row, p);
    if p.kind.base == Object && !v.Empty? {
      if p.kind.isArray {
        if v.Vec? {
          AppendedFits(ctx, defaults, PutCell(ctx, db, ty, row, p, Items([])), ty, row, p, v.elems, update, depth);
        }
      } else {
        UnboxFits(ctx, defaults, db, p.target, v, update, depth);
      }
    }
  }

  lemma {:induction false} AppendedFits(
      ctx: Context, defaults: Defaults, db: Db, ty: string, row: nat, p: Property, vs: seq<Value>, update: bool,
      depth: nat)
    requires Ready(ctx, db) && Column(ctx, db, ty, row, p) && p.kind.isArray && p.kind.base == Object
    requires AllPulled(ctx, defaults)
    requires AppendAll(ctx, db, ty, row, p, vs, update, depth).out.Ok?
    ensures forall i | 0 <= i < |vs| :: ElemFits(ctx.schema, defaults, p.target, vs[i], depth)
    decreases depth, 1, |vs|
  {
    hide Ready, Unbox, ElemFits, AllPulled, PushItem, SchemaOk;
    ColumnPersisted(ctx, db, ty, row, p);
    if vs != [] {
      UnboxFits(ctx, defaults, db, p.target, vs[0], update, depth);
      AppendedFits(ctx, defaults, AppendOne(ctx, db, ty, row, p, vs[0], update, depth).db, ty, row, p, vs[1..], update,
        depth);
    }
  }

  lemma {:induction false} UnboxFits(
      ctx: Context, defaults: Defaults, db: Db, ty: string, v: Value, update: bool, depth: nat)
    requires Ready(ctx, db) && ty in ctx.schema && AllPulled(ctx, defaults)
    requires Unbox(ctx, db, ty, v, update, depth).out.Ok?
    ensures ElemFits(ctx.schema, defaults, ty, v, depth)
    decreases depth, 0, 0
  {
    hide Ready, Create, Fits, AllPulled;
    if !v.RowOf? {
      CreatedFits(ctx, defaults, db, ty, v, update, depth - 1);
    }
  }

  /** A type whose link to itself defaults to another object of the type. */
  function NestedDefault(allowMissing: Value -> bool): Context {
    Context(
      map["A" := ObjectSchema([Property("child", PropertyType(Object, true, false), "A")], [], None)],
      map[("A", "child") := Dict(map[])],
      true, false, allowMissing)
  }

  /** Its defaults make the shortest value fit no stack. */
  lemma {:induction false} NestedDefaultFitsNone(allowMissing: Value -> bool, n: nat)
    ensures var ctx := NestedDefault(allowMissing); !Fits(ctx.schema, ctx.defaults, "A", Dict(map[]), n)
    decreases n
  {
    var ctx := NestedDefault(allowMissing);
    var p := ctx.schema["A"].persisted[0];
    assert p in ctx.schema["A"].persisted && Pulled(ctx.defaults, "A", Dict(map[]), p) == Some(Dict(map[]));
    assert PropFits(ctx.schema, ctx.defaults, p, Dict(map[]), n) ==>
        ElemFits(ctx.schema, ctx.defaults, "A", Dict(map[]), n);
    if n > 0 {
      NestedDefaultFitsNone(allowMissing, n - 1);
    }
  }

  /** And creating it overflows every stack. */
  lemma {:induction false} NestedDefaultOverflows(allowMissing: Value -> bool, db: Db, depth: nat)
    requires Ready(NestedDefault(allowMissing), db)
    ensures Create(NestedDefault(allowMissing), db, "A", Dict(map[]), true, depth).out == Err(StackOverflow)
    decreases depth
  {
    hide Ready, Locate;
    var ctx := NestedDefault(allowMissing);
    var v := Dict(map[]);
    NestedDefaultLocates(allowMissing, db);
    var l := Locate(ctx, db, "A", v, true);
    var place := Place(|db["A"]|, true, true);
    var p := ctx.schema["A"].persisted[0];
    assert Chosen(ctx, "A", v, place, p) == Ok(Some((v, true)));
    if depth > 0 {
      NestedDefaultOverflows(allowMissing, l.db, depth - 1);
    }
    assert Unbox(ctx, l.db, "A", v, true, depth).out == Err(StackOverflow);
    assert SetProperty(ctx, l.db, "A", place.row, p, v, true, true, depth).out == Err(StackOverflow);
    assert Populate(ctx, l.db, "A", v, true, place, 0, depth).out == Err(StackOverflow);
  }

  lemma NestedDefaultLocates(allowMissing: Value -> bool, db: Db)
    requires Ready(NestedDefault(allowMissing), db)
    ensures "A" in db
    ensures Locate(NestedDefault(allowMissing), db, "A", Dict(map[]), true).out == Ok(Place(|db["A"]|, true, true))
  {
  }
}
