/** After a successful upsert, the stored rows hold the value that was given. */
module UpsertHolds {
  import opened Wrappers
  import opened Schemas
  import opened Tables
  import opened Upsert
  import opened UpsertFrame

  /**
   * Row `r` of `ty` holds the object `v`: its key is the one `v` asks for, and every property
   * given in `v` is stored, nested objects included. A nested object without a key is always a
   * row that `base` did not have, so the properties that it is not given are settled too. (A type
   * without properties accepts any value.) Objects nest less than `n` deep.
   */
  ghost predicate Holds(ctx: Context, base: Db, db: Db, ty: string, r: nat, v: Value, n: nat)
    decreases n, 3
  {
    && ty in ctx.schema
    && HasRow(db, ty, r)
    && (v.Dict? || ctx.schema[ty].persisted == [])
    && (if PrimaryProp(ctx.schema[ty]).Some?
        then NodeKey(ctx, ty, v).Some? && RowKey(ctx, ty, db[ty][r]) == NodeKey(ctx, ty, v)
        else RowKey(ctx, ty, db[ty][r]).None? && !HasRow(base, ty, r) && OthersSettled(ctx, base, db, ty, r, v, n))
    && forall p | p in ctx.schema[ty].persisted && !ctx.schema[ty].IsPrimary(p) && v.Dict? && p.name in v.fields ::
         CellHolds(ctx, base, db, ty, r, p, v.fields[p.name], n)
  }

  /** The properties that `v` does not give are settled. */
  ghost predicate OthersSettled(ctx: Context, base: Db, db: Db, ty: string, r: nat, v: Value, n: nat)
    requires ty in ctx.schema
    decreases n, 2
  {
    v.Dict? ==> forall p | p in ctx.schema[ty].persisted && !ctx.schema[ty].IsPrimary(p) && p.name !in v.fields ::
      Settled(ctx, base, db, ty, r, p, n)
  }

  /** A property of a new row that was not given: it holds its default, or is empty without one. */
  ghost predicate Settled(ctx: Context, base: Db, db: Db, ty: string, r: nat, p: Property, n: nat)
    decreases n, 1, 1
  {
    && HasRow(db, ty, r)
    && match DefaultFor(ctx, ty, p.name)
       case None => p.name in db[ty][r] && db[ty][r][p.name] == EmptyCell(p)
       case Some(x) => CellHolds(ctx, base, db, ty, r, p, x, n)
  }

  /** The cell `p` of a row holds the value `x`. */
  ghost predicate CellHolds(ctx: Context, base: Db, db: Db, ty: string, r: nat, p: Property, x: Value, n: nat)
    decreases n, 1, 0
  {
    && HasRow(db, ty, r)
    && p.name in db[ty][r]
    && var c := db[ty][r][p.name];
       if p.kind.isArray then
         || x == ListOf(ty, r, p.name)
         || (x.Empty? && !p.kind.isNullable && c == Items([]))
         || (x.Vec? && c.Items? && |c.items| == |x.elems| && forall i | 0 <= i < |c.items| ::
            ItemHolds(ctx, base, db, p, c.items[i], x.elems[i], n))
       else ItemHolds(ctx, base, db, p, c, x, n)
  }

  ghost predicate ItemHolds(ctx: Context, base: Db, db: Db, p: Property, c: Cell, x: Value, n: nat)
    decreases n, 0
  {
    if p.kind.base != Object then
      if p.kind.isArray then UnboxItem(p, x) == Ok(c)
      else (x.Empty? && c == Nil) || UnboxScalar(p.kind.base, x) == Ok(c)
    else if x.RowOf? then
      c == Link(x.row) && HasRow(db, p.target, x.row) && (p.kind.isArray ==> x.table == p.target)
    else if x.Empty? && !p.kind.isArray then c == Nil
    else c.Link? && n > 0 && Holds(ctx, base, db, p.target, c.row, x, n - 1)
  }

  /** No two objects written down in `v` have the same type and key. */
  ghost predicate NoRepeat(ctx: Context, ty: string, v: Value)
    decreases v, 0
  {
    v.Dict? && ty in ctx.schema ==>
      var ps := ctx.schema[ty].persisted;
      && (forall p | p in ps && p.name in v.fields :: PropNoRepeat(ctx, p, v.fields[p.name]))
      && (forall p | p in ps && p.name in v.fields && NodeKey(ctx, ty, v).Some? ::
            !PropAddresses(ctx, p, v.fields[p.name], ty, NodeKey(ctx, ty, v).value))
      && (forall i, j | 0 <= i < j < |ps| && ps[i].name in v.fields && ps[j].name in v.fields ::
            Apart(ctx, ps[i], v.fields[ps[i].name], ps[j], v.fields[ps[j].name]))
  }

  ghost predicate PropNoRepeat(ctx: Context, p: Property, v: Value)
    decreases v, 1
  {
    p.kind.base == Object ==>
      if p.kind.isArray then
        v.Vec? ==>
          && (forall i | 0 <= i < |v.elems| :: NoRepeat(ctx, p.target, v.elems[i]))
          && (forall i, j | 0 <= i < j < |v.elems| :: ElemsApart(ctx, p.target, v.elems[i], v.elems[j]))
      else NoRepeat(ctx, p.target, v)
  }

  ghost predicate Apart(ctx: Context, p: Property, x: Value, q: Property, y: Value) {
    forall t: string, k: Cell :: !(PropAddresses(ctx, p, x, t, k) && PropAddresses(ctx, q, y, t, k))
  }

  ghost predicate ElemsApart(ctx: Context, ty: string, x: Value, y: Value) {
    forall t: string, k: Cell :: !(Addresses(ctx, ty, x, t, k) && Addresses(ctx, ty, y, t, k))
  }

  /** Every object written down in `v` is of a type with a primary key. */
  ghost predicate AllKeyed(ctx: Context, ty: string, v: Value)
    decreases v, 0
  {
    ty in ctx.schema ==>
      && ctx.schema[ty].primary.Some?
      && (v.Dict? ==>
            forall p | p in ctx.schema[ty].persisted && p.name in v.fields :: PropAllKeyed(ctx, p, v.fields[p.name]))
  }

  ghost predicate PropAllKeyed(ctx: Context, p: Property, v: Value)
    decreases v, 1
  {
    p.kind.base == Object ==>
      if p.kind.isArray then v.Vec? ==> forall i | 0 <= i < |v.elems| :: AllKeyed(ctx, p.target, v.elems[i])
      else AllKeyed(ctx, p.target, v)
  }

  /** Rows whose contents decide whether `v` is held. */
  ghost predicate Relies(ctx: Context, base: Db, ty: string, v: Value, t: string, q: nat, row: Row) {
    if RowKey(ctx, t, row).Some? then Addresses(ctx, ty, v, t, RowKey(ctx, t, row).value)
    else !HasRow(base, t, q)
  }

  ghost predicate PropRelies(ctx: Context, base: Db, p: Property, v: Value, t: string, q: nat, row: Row) {
    if RowKey(ctx, t, row).Some? then PropAddresses(ctx, p, v, t, RowKey(ctx, t, row).value)
    else !HasRow(base, t, q)
  }

  ghost predicate SameRow(db: Db, db': Db, t: string, q: nat) {
    HasRow(db, t, q) ==> HasRow(db', t, q) && db'[t][q] == db[t][q]
  }

  ghost predicate Agree(ctx: Context, base: Db, db: Db, db': Db, ty: string, v: Value) {
    forall t: string, q: nat | HasRow(db, t, q) && Relies(ctx, base, ty, v, t, q, db[t][q]) :: SameRow(db, db', t, q)
  }

  ghost predicate PropAgree(ctx: Context, base: Db, db: Db, db': Db, p: Property, v: Value) {
    forall t: string, q: nat | HasRow(db, t, q) && PropRelies(ctx, base, p, v, t, q, db[t][q]) :: SameRow(db, db', t, q)
  }

  /** Holding a value depends on nothing but the rows it writes down. */
  lemma {:induction false} HoldsStable(ctx: Context, base: Db, db: Db, db': Db, ty: string, r: nat, v: Value, n: nat)
    requires KeylessDefaults(ctx) || (SchemaOk(ctx.schema) && AllKeyed(ctx, ty, v))
    requires Grows(db, db') && Holds(ctx, base, db, ty, r, v, n) && Agree(ctx, base, db, db', ty, v)
    ensures Holds(ctx, base, db', ty, r, v, n)
    decreases n, 3
  {
    hide KeylessDefaults, SchemaOk;
    assert Relies(ctx, base, ty, v, ty, r, db[ty][r]);
    assert SameRow(db, db', ty, r);
    forall p | p in ctx.schema[ty].persisted && !ctx.schema[ty].IsPrimary(p) && v.Dict? && p.name in v.fields
      ensures CellHolds(ctx, base, db', ty, r, p, v.fields[p.name], n)
    {
      FieldAgrees(ctx, base, db, db', ty, v, p);
      CellHoldsStable(ctx, base, db, db', ty, r, p, v.fields[p.name], n);
    }
    if PrimaryProp(ctx.schema[ty]).None? {
      NotAllKeyed(ctx, ty, v);
      AgreeKeyless(ctx, base, db, db', ty, v);
      forall p | p in ctx.schema[ty].persisted && !ctx.schema[ty].IsPrimary(p) && v.Dict? && p.name !in v.fields
        ensures Settled(ctx, base, db', ty, r, p, n)
      {
        SettledStable(ctx, base, db, db', ty, r, p, n);
      }
    }
  }

  lemma NotAllKeyed(ctx: Context, ty: string, v: Value)
    requires ty in ctx.schema && PrimaryProp(ctx.schema[ty]).None?
    ensures !(SchemaOk(ctx.schema) && AllKeyed(ctx, ty, v))
  {
    if SchemaOk(ctx.schema) {
      assert ObjectSchemaOk(ctx.schema, ctx.schema[ty]);
    }
  }

  lemma FieldAgrees(ctx: Context, base: Db, db: Db, db': Db, ty: string, v: Value, p: Property)
    requires ty in ctx.schema && p in ctx.schema[ty].persisted && v.Dict? && p.name in v.fields
    requires Agree(ctx, base, db, db', ty, v)
    ensures PropAgree(ctx, base, db, db', p, v.fields[p.name])
  {
    forall t: string, q: nat | HasRow(db, t, q) && PropRelies(ctx, base, p, v.fields[p.name], t, q, db[t][q])
      ensures SameRow(db, db', t, q)
    {
      assert Relies(ctx, base, ty, v, t, q, db[t][q]);
    }
  }

  /** New rows without a key are the same. */
  ghost predicate KeylessSame(ctx: Context, base: Db, db: Db, db': Db) {
    forall t: string, q: nat | HasRow(db, t, q) && RowKey(ctx, t, db[t][q]).None? && !HasRow(base, t, q) ::
      SameRow(db, db', t, q)
  }

  lemma AgreeKeyless(ctx: Context, base: Db, db: Db, db': Db, ty: string, v: Value)
    requires Agree(ctx, base, db, db', ty, v)
    ensures KeylessSame(ctx, base, db, db')
  {
    forall t: string, q: nat | HasRow(db, t, q) && RowKey(ctx, t, db[t][q]).None? && !HasRow(base, t, q)
      ensures SameRow(db, db', t, q)
    {
      assert Relies(ctx, base, ty, v, t, q, db[t][q]);
    }
  }

  /** What the default of a property stores does not depend on rows with keys. */
  ghost predicate OwnDefaultStays(ctx: Context, ty: string, p: Property) {
    KeylessDefaults(ctx) || (p.kind.base == Object ==> DefaultFor(ctx, ty, p.name).None?)
  }

  /** What a default is held by are new rows without a key. */
  lemma DefaultAgrees(ctx: Context, base: Db, db: Db, db': Db, ty: string, p: Property)
    requires ty in ctx.schema && p in ctx.schema[ty].persisted && (ty, p.name) in ctx.defaults
    requires KeylessSame(ctx, base, db, db') && OwnDefaultStays(ctx, ty, p)
    ensures PropAgree(ctx, base, db, db', p, ctx.defaults[(ty, p.name)])
  {
    hide PropAddresses;
    ScalarAddresses(ctx, p, ctx.defaults[(ty, p.name)]);
  }

  lemma ScalarAddresses(ctx: Context, p: Property, x: Value)
    ensures p.kind.base != Object ==> forall t: string, k: Cell :: !PropAddresses(ctx, p, x, t, k)
  {
  }

  /** A settled property stays settled while its cell and the new rows without keys stay the same. */
  lemma {:induction false} SettledStable(
      ctx: Context, base: Db, db: Db, db': Db, ty: string, r: nat, p: Property, n: nat)
    requires OwnDefaultStays(ctx, ty, p) && ty in ctx.schema && p in ctx.schema[ty].persisted
    requires Grows(db, db') && Settled(ctx, base, db, ty, r, p, n) && KeylessSame(ctx, base, db, db')
    requires SameCell(db[ty][r], db'[ty][r], p.name)
    ensures Settled(ctx, base, db', ty, r, p, n)
    decreases n, 2
  {
    hide KeylessDefaults, KeylessSame, PropAgree, CellHolds;
    if DefaultFor(ctx, ty, p.name).Some? {
      DefaultAgrees(ctx, base, db, db', ty, p);
      CellHoldsStable(ctx, base, db, db', ty, r, p, DefaultFor(ctx, ty, p.name).value, n);
    }
  }

  lemma {:induction false} CellHoldsStable(
      ctx: Context, base: Db, db: Db, db': Db, ty: string, r: nat, p: Property, x: Value, n: nat)
    requires Grows(db, db') && CellHolds(ctx, base, db, ty, r, p, x, n) && PropAgree(ctx, base, db, db', p, x)
    requires p.kind.base == Object ==> KeylessDefaults(ctx) || (SchemaOk(ctx.schema) && PropAllKeyed(ctx, p, x))
    requires HasRow(db', ty, r) && SameCell(db[ty][r], db'[ty][r], p.name)
    ensures CellHolds(ctx, base, db', ty, r, p, x, n)
    decreases n, 1
  {
    hide Agree, PropAgree, KeylessDefaults, SchemaOk;
    var c := db[ty][r][p.name];
    if p.kind.isArray {
      if x.Vec? && c.Items? && |c.items| == |x.elems| {
        forall i | 0 <= i < |c.items| ensures ItemHolds(ctx, base, db', p, c.items[i], x.elems[i], n) {
          if p.kind.base == Object {
            ElemAgree(ctx, base, db, db', p, x, i);
          }
          ItemHoldsStable(ctx, base, db, db', p, c.items[i], x.elems[i], n);
        }
      }
    } else {
      if p.kind.base == Object {
        OnlyAgree(ctx, base, db, db', p, x);
      }
      ItemHoldsStable(ctx, base, db, db', p, c, x, n);
    }
  }

  lemma ElemAgree(ctx: Context, base: Db, db: Db, db': Db, p: Property, x: Value, i: nat)
    requires p.kind.base == Object && p.kind.isArray && x.Vec? && i < |x.elems| && PropAgree(ctx, base, db, db', p, x)
    ensures Agree(ctx, base, db, db', p.target, x.elems[i])
  {
    forall t: string, q: nat | HasRow(db, t, q) && Relies(ctx, base, p.target, x.elems[i], t, q, db[t][q])
      ensures SameRow(db, db', t, q)
    {
      assert PropRelies(ctx, base, p, x, t, q, db[t][q]);
    }
  }

  lemma OnlyAgree(ctx: Context, base: Db, db: Db, db': Db, p: Property, x: Value)
    requires p.kind.base == Object && !p.kind.isArray && PropAgree(ctx, base, db, db', p, x)
    ensures Agree(ctx, base, db, db', p.target, x)
  {
    forall t: string, q: nat | HasRow(db, t, q) && Relies(ctx, base, p.target, x, t, q, db[t][q])
      ensures SameRow(db, db', t, q)
    {
      assert PropRelies(ctx, base, p, x, t, q, db[t][q]);
    }
  }

  lemma {:induction false} ItemHoldsStable(
      ctx: Context, base: Db, db: Db, db': Db, p: Property, c: Cell, x: Value, n: nat)
    requires p.kind.base == Object ==> KeylessDefaults(ctx) || (SchemaOk(ctx.schema) && AllKeyed(ctx, p.target, x))
    requires Grows(db, db') && ItemHolds(ctx, base, db, p, c, x, n)
    requires p.kind.base == Object ==> Agree(ctx, base, db, db', p.target, x)
    ensures ItemHolds(ctx, base, db', p, c, x, n)
    decreases n, 0
  {
    hide Agree, Holds, KeylessDefaults, SchemaOk;
    if p.kind.base == Object && c.Link? && !x.RowOf? {
      HoldsStable(ctx, base, db, db', p.target, c.row, x, n - 1);
    }
  }

  /** A later `base` says more. */
  lemma {:induction false} HoldsWeaken(ctx: Context, base: Db, base': Db, db: Db, ty: string, r: nat, v: Value, n: nat)
    requires Grows(base, base') && Holds(ctx, base', db, ty, r, v, n)
    ensures Holds(ctx, base, db, ty, r, v, n)
    decreases n, 3
  {
    hide CellHolds, Settled;
    forall p | p in ctx.schema[ty].persisted && !ctx.schema[ty].IsPrimary(p) && v.Dict?
      ensures p.name in v.fields ==> CellHolds(ctx, base, db, ty, r, p, v.fields[p.name], n)
      ensures Settled(ctx, base', db, ty, r, p, n) ==> Settled(ctx, base, db, ty, r, p, n)
    {
      if p.name in v.fields {
        CellHoldsWeaken(ctx, base, base', db, ty, r, p, v.fields[p.name], n);
      }
      if Settled(ctx, base', db, ty, r, p, n) {
        SettledWeaken(ctx, base, base', db, ty, r, p, n);
      }
    }
  }

  lemma {:induction false} SettledWeaken(
      ctx: Context, base: Db, base': Db, db: Db, ty: string, r: nat, p: Property, n: nat)
    requires Grows(base, base') && Settled(ctx, base', db, ty, r, p, n)
    ensures Settled(ctx, base, db, ty, r, p, n)
    decreases n, 2
  {
    hide CellHolds;
    if DefaultFor(ctx, ty, p.name).Some? {
      CellHoldsWeaken(ctx, base, base', db, ty, r, p, DefaultFor(ctx, ty, p.name).value, n);
    }
  }

  lemma {:induction false} CellHoldsWeaken(
      ctx: Context, base: Db, base': Db, db: Db, ty: string, r: nat, p: Property, x: Value, n: nat)
    requires Grows(base, base') && CellHolds(ctx, base', db, ty, r, p, x, n)
    ensures CellHolds(ctx, base, db, ty, r, p, x, n)
    decreases n, 1
  {
    hide Holds;
    var c := db[ty][r][p.name];
    if p.kind.isArray {
      if x.Vec? && c.Items? && |c.items| == |x.elems| {
        forall i | 0 <= i < |c.items| ensures ItemHolds(ctx, base, db, p, c.items[i], x.elems[i], n) {
          ItemHoldsWeaken(ctx, base, base', db, p, c.items[i], x.elems[i], n);
        }
      }
    } else {
      ItemHoldsWeaken(ctx, base, base', db, p, c, x, n);
    }
  }

  lemma {:induction false} ItemHoldsWeaken(
      ctx: Context, base: Db, base': Db, db: Db, p: Property, c: Cell, x: Value, n: nat)
    requires Grows(base, base') && ItemHolds(ctx, base', db, p, c, x, n)
    ensures ItemHolds(ctx, base, db, p, c, x, n)
    decreases n, 0
  {
    hide Holds;
    if p.kind.base == Object && c.Link? && !x.RowOf? {
      HoldsWeaken(ctx, base, base', db, p.target, c.row, x, n - 1);
    }
  }

  /** A larger bound on nesting says less. */
  lemma {:induction false} HoldsMore(ctx: Context, base: Db, db: Db, ty: string, r: nat, v: Value, n: nat)
    requires Holds(ctx, base, db, ty, r, v, n)
    ensures Holds(ctx, base, db, ty, r, v, n + 1)
    decreases n, 3
  {
    hide CellHolds, Settled;
    forall p | p in ctx.schema[ty].persisted && !ctx.schema[ty].IsPrimary(p) && v.Dict?
      ensures p.name in v.fields ==> CellHolds(ctx, base, db, ty, r, p, v.fields[p.name], n + 1)
      ensures Settled(ctx, base, db, ty, r, p, n) ==> Settled(ctx, base, db, ty, r, p, n + 1)
    {
      if p.name in v.fields {
        CellHoldsMore(ctx, base, db, ty, r, p, v.fields[p.name], n);
      }
      if Settled(ctx, base, db, ty, r, p, n) {
        SettledMore(ctx, base, db, ty, r, p, n);
      }
    }
  }

  lemma {:induction false} SettledMore(ctx: Context, base: Db, db: Db, ty: string, r: nat, p: Property, n: nat)
    requires Settled(ctx, base, db, ty, r, p, n)
    ensures Settled(ctx, base, db, ty, r, p, n + 1)
    decreases n, 2
  {
    hide CellHolds;
    if DefaultFor(ctx, ty, p.name).Some? {
      CellHoldsMore(ctx, base, db, ty, r, p, DefaultFor(ctx, ty, p.name).value, n);
    }
  }

  lemma {:induction false} CellHoldsMore(
      ctx: Context, base: Db, db: Db, ty: string, r: nat, p: Property, x: Value, n: nat)
    requires CellHolds(ctx, base, db, ty, r, p, x, n)
    ensures CellHolds(ctx, base, db, ty, r, p, x, n + 1)
    decreases n, 1
  {
    hide Holds;
    var c := db[ty][r][p.name];
    if p.kind.isArray {
      if x.Vec? && c.Items? && |c.items| == |x.elems| {
        forall i | 0 <= i < |c.items| && ItemHolds(ctx, base, db, p, c.items[i], x.elems[i], n)
          ensures ItemHolds(ctx, base, db, p, c.items[i], x.elems[i], n + 1)
        {
          ItemHoldsMore(ctx, base, db, p, c.items[i], x.elems[i], n);
        }
      }
    } else {
      ItemHoldsMore(ctx, base, db, p, c, x, n);
    }
  }

  lemma {:induction false} ItemHoldsMore(ctx: Context, base: Db, db: Db, p: Property, c: Cell, x: Value, n: nat)
    requires ItemHolds(ctx, base, db, p, c, x, n)
    ensures ItemHolds(ctx, base, db, p, c, x, n + 1)
    decreases n, 0
  {
    hide Holds;
    if p.kind.base == Object && c.Link? && !x.RowOf? && n > 0 {
      if Holds(ctx, base, db, p.target, c.row, x, n - 1) {
        HoldsMore(ctx, base, db, p.target, c.row, x, n - 1);
      }
    }
  }
}
