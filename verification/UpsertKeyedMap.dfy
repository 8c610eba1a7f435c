/** A successful upsert is an upsert into a keyed map, for every object that the value names. */
module UpsertKeyedMap {
  import opened Wrappers
  import opened Schemas
  import opened Tables
  import opened Upsert
  import opened UpsertKeys
  import opened UpsertFrame
  import opened UpsertGiven
  import opened UpsertHolds
  import opened UpsertRefines
  import opened UpsertSettled

  /** `w`, read as an object of type `t`, is written down in `v`. */
  ghost predicate Occurs(ctx: Context, ty: string, v: Value, t: string, w: Value)
    decreases v, 0
  {
    && v.Dict?
    && ty in ctx.schema
    && (|| (ty == t && v == w)
        || exists p | p in ctx.schema[ty].persisted && p.name in v.fields ::
             PropOccurs(ctx, p, v.fields[p.name], t, w))
  }

  ghost predicate PropOccurs(ctx: Context, p: Property, v: Value, t: string, w: Value)
    decreases v
  {
    && p.kind.base == Object
    && if p.kind.isArray then v.Vec? && exists i | 0 <= i < |v.elems| :: Occurs(ctx, p.target, v.elems[i], t, w)
       else Occurs(ctx, p.target, v, t, w)
  }

  /**
   * Row `r` is what upserting the object `w` makes of it: it holds `w`, and the properties that `w`
   * does not give are as before in an old row, and their default or empty in a new one.
   */
  ghost predicate Upserted(ctx: Context, base: Db, db: Db, ty: string, r: nat, w: Value, n: nat) {
    && Holds(ctx, base, db, ty, r, w, n)
    && (w.Dict? ==> forall p | p in ctx.schema[ty].persisted && !ctx.schema[ty].IsPrimary(p) && p.name !in w.fields ::
          Rest(ctx, base, db, ty, r, p, n))
  }

  // ---- an object that occurs once is given only what it says ----

  lemma {:induction false} OccursAddresses(ctx: Context, ty: string, v: Value, t: string, w: Value)
    requires Occurs(ctx, ty, v, t, w)
    ensures w.Dict? && t in ctx.schema
    ensures NodeKey(ctx, t, w).Some? ==> Addresses(ctx, ty, v, t, NodeKey(ctx, t, w).value)
    decreases v, 0
  {
    if !(ty == t && v == w) {
      var p :| p in ctx.schema[ty].persisted && p.name in v.fields && PropOccurs(ctx, p, v.fields[p.name], t, w);
      PropOccursAddresses(ctx, p, v.fields[p.name], t, w);
    }
  }

  lemma {:induction false} PropOccursAddresses(ctx: Context, p: Property, v: Value, t: string, w: Value)
    requires PropOccurs(ctx, p, v, t, w)
    ensures w.Dict? && t in ctx.schema
    ensures NodeKey(ctx, t, w).Some? ==> PropAddresses(ctx, p, v, t, NodeKey(ctx, t, w).value)
    decreases v, 1
  {
    if p.kind.isArray {
      var i :| 0 <= i < |v.elems| && Occurs(ctx, p.target, v.elems[i], t, w);
      OccursAddresses(ctx, p.target, v.elems[i], t, w);
    } else {
      OccursAddresses(ctx, p.target, v, t, w);
    }
  }

  /** Without repeats, a property given to the object is given by its one occurrence. */
  lemma {:induction false} GivesOnce(ctx: Context, ty: string, v: Value, t: string, w: Value, k: Cell, name: string)
    requires NoRepeat(ctx, ty, v) && Occurs(ctx, ty, v, t, w) && t in ctx.schema && NodeKey(ctx, t, w) == Some(k)
    requires Gives(ctx, ty, v, t, k, name)
    ensures w.Dict? && name in w.fields
    decreases v, 0
  {
    hide NodeKey;
    OccursAddresses(ctx, ty, v, t, w);
    if ty == t && NodeKey(ctx, ty, v) == Some(k) && name in v.fields {
      if v != w {
        var p :| p in ctx.schema[ty].persisted && p.name in v.fields && PropOccurs(ctx, p, v.fields[p.name], t, w);
        PropOccursAddresses(ctx, p, v.fields[p.name], t, w);
        assert false;
      }
    } else {
      var q :| q in ctx.schema[ty].persisted && q.name in v.fields && PropGives(ctx, q, v.fields[q.name], t, k, name);
      PropGivesAddresses(ctx, q, v.fields[q.name], t, k, name);
      if ty == t && v == w {
        assert false;
      } else {
        var p :| p in ctx.schema[ty].persisted && p.name in v.fields && PropOccurs(ctx, p, v.fields[p.name], t, w);
        PropOccursAddresses(ctx, p, v.fields[p.name], t, w);
        SameProperty(ctx, ty, v, p, q, t, k);
        PropGivesOnce(ctx, p, v.fields[p.name], t, w, k, name);
      }
    }
  }

  /** Without repeats, only one property writes down an object. */
  lemma SameProperty(ctx: Context, ty: string, v: Value, p: Property, q: Property, t: string, k: Cell)
    requires v.Dict? && ty in ctx.schema && NoRepeat(ctx, ty, v)
    requires p in ctx.schema[ty].persisted && p.name in v.fields && PropAddresses(ctx, p, v.fields[p.name], t, k)
    requires q in ctx.schema[ty].persisted && q.name in v.fields && PropAddresses(ctx, q, v.fields[q.name], t, k)
    ensures p == q
  {
    hide PropAddresses, PropNoRepeat;
    var ps := ctx.schema[ty].persisted;
    var i :| 0 <= i < |ps| && ps[i] == p;
    var j :| 0 <= j < |ps| && ps[j] == q;
    NotApart(ctx, ps[i], v.fields[ps[i].name], ps[j], v.fields[ps[j].name], t, k);
    NotApart(ctx, ps[j], v.fields[ps[j].name], ps[i], v.fields[ps[i].name], t, k);
  }

  lemma NotApart(ctx: Context, p: Property, x: Value, q: Property, y: Value, t: string, k: Cell)
    requires PropAddresses(ctx, p, x, t, k) && PropAddresses(ctx, q, y, t, k)
    ensures !Apart(ctx, p, x, q, y)
  {
  }

  lemma NotElemsApart(ctx: Context, ty: string, x: Value, y: Value, t: string, k: Cell)
    requires Addresses(ctx, ty, x, t, k) && Addresses(ctx, ty, y, t, k)
    ensures !ElemsApart(ctx, ty, x, y) && !ElemsApart(ctx, ty, y, x)
  {
  }

  lemma {:induction false} PropGivesOnce(
      ctx: Context, p: Property, v: Value, t: string, w: Value, k: Cell, name: string)
    requires PropNoRepeat(ctx, p, v) && PropOccurs(ctx, p, v, t, w)
    requires t in ctx.schema && NodeKey(ctx, t, w) == Some(k) && PropGives(ctx, p, v, t, k, name)
    ensures w.Dict? && name in w.fields
    decreases v, 1
  {
    hide NodeKey;
    if p.kind.isArray {
      var i :| 0 <= i < |v.elems| && Occurs(ctx, p.target, v.elems[i], t, w);
      var j :| 0 <= j < |v.elems| && Gives(ctx, p.target, v.elems[j], t, k, name);
      OccursAddresses(ctx, p.target, v.elems[i], t, w);
      GivesAddresses(ctx, p.target, v.elems[j], t, k, name);
      NotElemsApart(ctx, p.target, v.elems[i], v.elems[j], t, k);
      GivesOnce(ctx, p.target, v.elems[i], t, w, k, name);
    } else {
      GivesOnce(ctx, p.target, v, t, w, k, name);
    }
  }

  // ---- every object has its row ----

  /** If a row holds a value, some row holds each object in it. */
  lemma {:induction false} PartHeld(
      ctx: Context, base: Db, db: Db, ty: string, r: nat, v: Value, n: nat, t: string, w: Value) returns (q: nat)
    requires SchemaOk(ctx.schema) && Holds(ctx, base, db, ty, r, v, n) && Occurs(ctx, ty, v, t, w)
    ensures Holds(ctx, base, db, t, q, w, n)
    decreases n, 2
  {
    hide NodeKey, SchemaOk, OthersSettled;
    q := r;
    if !(ty == t && v == w) {
      var p :| p in ctx.schema[ty].persisted && p.name in v.fields && PropOccurs(ctx, p, v.fields[p.name], t, w);
      NoObjectKey(ctx, ty, p);
      q := CellPartHeld(ctx, base, db, ty, r, p, v.fields[p.name], n, t, w);
    }
  }

  lemma NoObjectKey(ctx: Context, ty: string, p: Property)
    requires SchemaOk(ctx.schema) && ty in ctx.schema && p in ctx.schema[ty].persisted && p.kind.base == Object
    ensures !ctx.schema[ty].IsPrimary(p)
  {
    assert ObjectSchemaOk(ctx.schema, ctx.schema[ty]);
  }

  lemma {:induction false} CellPartHeld(
      ctx: Context, base: Db, db: Db, ty: string, r: nat, p: Property, x: Value, n: nat, t: string, w: Value)
    returns (q: nat)
    requires SchemaOk(ctx.schema) && CellHolds(ctx, base, db, ty, r, p, x, n) && PropOccurs(ctx, p, x, t, w)
    ensures Holds(ctx, base, db, t, q, w, n)
    decreases n, 1
  {
    hide Holds, SchemaOk, Occurs;
    var y := x;
    var c := db[ty][r][p.name];
    if p.kind.isArray {
      var i :| 0 <= i < |x.elems| && Occurs(ctx, p.target, x.elems[i], t, w);
      y := x.elems[i];
      c := c.items[i];
    }
    OccursDict(ctx, p.target, y, t, w);
    assert ItemHolds(ctx, base, db, p, c, y, n);
    q := PartHeld(ctx, base, db, p.target, c.row, y, n - 1, t, w);
    HoldsMore(ctx, base, db, t, q, w, n - 1);
  }

  lemma OccursDict(ctx: Context, ty: string, v: Value, t: string, w: Value)
    requires Occurs(ctx, ty, v, t, w)
    ensures v.Dict?
  {
  }

  // ---- the refinement ----

  /**
   * In every stored object with a key, old or new, a property that the value does not give to an
   * object with its type and key is as before, or is its default or empty if the object is new.
   * Objects may occur in the value any number of times; no default may give the property either,
   * nor be the default of the property and hold objects with keys.
   */
  lemma UngivenRest(
      ctx: Context, db: Db, ty: string, v: Value, update: bool, depth: nat, t: string, q: nat, o: Property)
    requires Ready(ctx, db) && ty in ctx.schema && !ctx.inMigration
    requires Create(ctx, db, ty, v, update, depth).out.Ok?
    requires HasRow(Create(ctx, db, ty, v, update, depth).db, t, q)
    requires var row := Create(ctx, db, ty, v, update, depth).db[t][q];
             Keyed(ctx, t, o, row) && Ungiven(ctx, ty, v, t, row, o.name) && DefaultsAside(ctx, t, o, row)
    ensures Rest(ctx, db, Create(ctx, db, ty, v, update, depth).db, t, q, o, depth)
  {
    hide Ready, Create, DefaultsAside, Ungiven, Keyed, Settled, RowKey, KeepsKeys;
    var s := Create(ctx, db, ty, v, update, depth);
    if HasRow(db, t, q) {
      CreateKeepsKeys(ctx, db, ty, v, update, depth);
      KeptRowKey(ctx, db, s.db, t, q);
      AsideUngiven(ctx, t, o, s.db[t][q]);
      SameKeyUngiven(ctx, t, s.db[t][q], db[t][q], o.name);
      CreateKeeps(ctx, db, ty, v, update, depth, t, q, o.name);
    } else {
      CreateSettles(ctx, db, ty, v, update, depth, t, q, o, s.db[t][q]);
    }
  }

  /** Every object that the value names, at any depth, is upserted into a row of its type. */
  lemma EveryObjectUpserted(
      ctx: Context, db: Db, ty: string, v: Value, update: bool, depth: nat, t: string, w: Value) returns (q: nat)
    requires Ready(ctx, db) && ty in ctx.schema && !ctx.inMigration && KeylessDefaults(ctx) && NoRepeat(ctx, ty, v)
    requires Create(ctx, db, ty, v, update, depth).out.Ok? && Occurs(ctx, ty, v, t, w)
    ensures Upserted(ctx, db, Create(ctx, db, ty, v, update, depth).db, t, q, w, depth)
  {
    hide Create, KeylessDefaults, NoRepeat, Holds, Rest, Occurs, SchemaOk, Shape;
    var s := Create(ctx, db, ty, v, update, depth);
    CreateHolds(ctx, db, ty, v, update, depth);
    q := PartHeld(ctx, db, s.db, ty, s.out.value, v, depth, t, w);
    HeldIsUpserted(ctx, db, ty, v, update, depth, t, q, w);
  }

  lemma HeldIsUpserted(
      ctx: Context, db: Db, ty: string, v: Value, update: bool, depth: nat, t: string, q: nat, w: Value)
    requires Ready(ctx, db) && ty in ctx.schema && !ctx.inMigration && KeylessDefaults(ctx) && NoRepeat(ctx, ty, v)
    requires Create(ctx, db, ty, v, update, depth).out.Ok? && Occurs(ctx, ty, v, t, w)
    requires Holds(ctx, db, Create(ctx, db, ty, v, update, depth).db, t, q, w, depth)
    ensures Upserted(ctx, db, Create(ctx, db, ty, v, update, depth).db, t, q, w, depth)
  {
    hide Ready, Create, KeylessDefaults, NoRepeat, Occurs, CellHolds, Settled, Ungiven, NodeKey, RowKey;
    var s := Create(ctx, db, ty, v, update, depth);
    OccursAddresses(ctx, ty, v, t, w);
    forall p | p in ctx.schema[t].persisted && !ctx.schema[t].IsPrimary(p) && p.name !in w.fields
      ensures Rest(ctx, db, s.db, t, q, p, depth)
    {
      if PrimaryProp(ctx.schema[t]).Some? {
        OnlyItself(ctx, ty, v, t, w, s.db[t][q], p.name);
        KeylessAside(ctx, t, p, s.db[t][q]);
        UngivenRest(ctx, db, ty, v, update, depth, t, q, p);
      }
    }
  }

  lemma RootUpserted(ctx: Context, db: Db, ty: string, v: Value, update: bool, depth: nat)
    requires Ready(ctx, db) && ty in ctx.schema && !ctx.inMigration && KeylessDefaults(ctx) && NoRepeat(ctx, ty, v)
    requires Create(ctx, db, ty, v, update, depth).out.Ok?
    ensures var s := Create(ctx, db, ty, v, update, depth); Upserted(ctx, db, s.db, ty, s.out.value, v, depth)
  {
    hide Ready, Create, KeylessDefaults, NoRepeat, Holds, Rest;
    CreateHolds(ctx, db, ty, v, update, depth);
    if v.Dict? {
      HeldIsUpserted(ctx, db, ty, v, update, depth, ty, Create(ctx, db, ty, v, update, depth).out.value, v);
    }
  }

  lemma OnlyItself(ctx: Context, ty: string, v: Value, t: string, w: Value, row: Row, name: string)
    requires NoRepeat(ctx, ty, v) && Occurs(ctx, ty, v, t, w) && t in ctx.schema && w.Dict? && name !in w.fields
    requires NodeKey(ctx, t, w).Some? && RowKey(ctx, t, row) == NodeKey(ctx, t, w)
    ensures Ungiven(ctx, ty, v, t, row, name)
  {
    hide NoRepeat, Occurs, Gives, NodeKey;
    if Gives(ctx, ty, v, t, NodeKey(ctx, t, w).value, name) {
      GivesOnce(ctx, ty, v, t, w, NodeKey(ctx, t, w).value, name);
    }
  }

  /**
   * A successful create or update refines an upsert into a keyed map. For a value in which no
   * type and key occur twice: every object in the value, at any depth, has a row that holds it,
   * nested objects and lists included, and whose other properties are as before if the row
   * already had the key, and their default or empty if it is new; and no other stored object has
   * changed in any way, and none has been created with a property other than its default or empty.
   */
  lemma UpsertIsKeyedMapUpdate(ctx: Context, db: Db, ty: string, v: Value, update: bool, depth: nat)
    requires Ready(ctx, db) && ty in ctx.schema && !ctx.inMigration && KeylessDefaults(ctx) && NoRepeat(ctx, ty, v)
    requires Create(ctx, db, ty, v, update, depth).out.Ok?
    ensures var s := Create(ctx, db, ty, v, update, depth);
            && Upserted(ctx, db, s.db, ty, s.out.value, v, depth)
            && (forall t: string, w: Value | Occurs(ctx, ty, v, t, w) ::
                  exists q :: Upserted(ctx, db, s.db, t, q, w, depth))
            && (forall t: string, q: nat, o: Property | HasRow(s.db, t, q) && Keyed(ctx, t, o, s.db[t][q])
                  && Ungiven(ctx, ty, v, t, s.db[t][q], o.name) ::
                  Rest(ctx, db, s.db, t, q, o, depth))
            && (forall t: string, q: nat | HasRow(db, t, q) && Spares(ctx, ty, v, t, db[t][q]) ::
                  s.db[t][q] == db[t][q])
  {
    hide Ready, Create, KeylessDefaults, NoRepeat, Holds, Rest, Spares, Upserted, Ungiven, Keyed;
    KeylessSpare(ctx);
    var s := Create(ctx, db, ty, v, update, depth);
    RootUpserted(ctx, db, ty, v, update, depth);
    forall t: string, w: Value | Occurs(ctx, ty, v, t, w)
      ensures exists q :: Upserted(ctx, db, s.db, t, q, w, depth)
    {
      var q := EveryObjectUpserted(ctx, db, ty, v, update, depth, t, w);
    }
    forall t: string, q: nat, o: Property | HasRow(s.db, t, q) && Keyed(ctx, t, o, s.db[t][q])
        && Ungiven(ctx, ty, v, t, s.db[t][q], o.name)
      ensures Rest(ctx, db, s.db, t, q, o, depth)
    {
      KeylessAside(ctx, t, o, s.db[t][q]);
      UngivenRest(ctx, db, ty, v, update, depth, t, q, o);
    }
    forall t: string, q: nat | HasRow(db, t, q) && Spares(ctx, ty, v, t, db[t][q])
      ensures s.db[t][q] == db[t][q]
    {
      CreateSpares(ctx, db, ty, v, update, depth, t, q);
    }
  }
}
