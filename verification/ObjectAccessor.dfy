/**
 * The object accessor as it runs: tables changed in place, a loop over the properties, a loop
 * over list elements, and early exits. Each method is tied to the function it refines.
 */
module ObjectAccessor {
  import opened Wrappers
  import opened Schemas
  import opened Tables
  import opened Upsert
  import opened UpsertGet

  class Realm {
    var db: Db

    constructor (schema: Schema)
      ensures db == map ty | ty in schema :: []
    {
      db := map ty | ty in schema :: [];
    }

    /** Search a key column from the first row on. */
    method FindRow(ctx: Context, ty: string, pk: Property, key: Cell) returns (r: Option<nat>)
      requires Ready(ctx, db) && ty in ctx.schema && pk in ctx.schema[ty].persisted
      ensures r == FindKey(ctx, db, ty, pk, key)
    {
      hide Ready, SchemaOk, Shape;
      ReadyHas(ctx, db, ty, pk);
      var i := 0;
      while i < |db[ty]|
        invariant i <= |db[ty]|
        invariant FindKey(ctx, db, ty, pk, key) == FindFirst(db[ty], pk.name, key, i)
      {
        if db[ty][i][pk.name] == key {
          return Some(i);
        }
        i := i + 1;
      }
      return None;
    }

    /** Find the row to write, or append it. */
    method GetOrCreateRow(ctx: Context, ty: string, v: Value, update: bool) returns (out: Outcome<Place, Error>)
      requires Ready(ctx, db) && ty in ctx.schema
      modifies this
      ensures Step(db, out) == Locate(ctx, old(db), ty, v, update)
    {
      var os := ctx.schema[ty];
      var created := false;
      var skipPrimary := true;
      var rowIndex := |db[ty]|;
      var primary := PrimaryProp(os);
      if primary.Some? {
        var key := KeyOf(ctx, ty, primary.value, v);
        if key.Err? {
          return Err(key.error);
        }
        var found := FindRow(ctx, ty, primary.value, key.value);
        if found.None? {
          created := true;
          db := AddEmptyRow(ctx, db, ty);
          db := PutCell(ctx, db, ty, rowIndex, primary.value, key.value);
        } else {
          rowIndex := found.value;
          if !update {
            if !ctx.inMigration {
              return Err(DuplicateKey(ty));
            }
            rowIndex := |db[ty]|;
            db := AddEmptyRow(ctx, db, ty);
            created := true;
            skipPrimary := false;
          }
        }
      } else {
        db := AddEmptyRow(ctx, db, ty);
        created := true;
      }
      return Ok(Place(rowIndex, created, skipPrimary));
    }

    method CreateObject(ctx: Context, ty: string, v: Value, update: bool, depth: nat) returns (out: Outcome<nat, Error>)
      requires Ready(ctx, db) && ty in ctx.schema
      modifies this
      ensures Step(db, out) == Create(ctx, old(db), ty, v, update, depth)
      decreases depth, 4, 0
    {
      hide Ready, Locate, SetProperty, Chosen;
      if !ctx.inWrite {
        return Err(NotInWrite);
      }
      var located := GetOrCreateRow(ctx, ty, v, update);
      if located.Err? {
        return Err(located.error);
      }
      var place := located.value;
      ghost var db0 := db;
      var os := ctx.schema[ty];
      var i := 0;
      while i < |os.persisted|
        invariant i <= |os.persisted| && Ready(ctx, db) && Grows(db0, db)
        invariant Populate(ctx, db, ty, v, update, place, i, depth)
                    == Populate(ctx, db0, ty, v, update, place, 0, depth)
      {
        var written := WriteProperty(ctx, ty, v, update, place, i, depth);
        if written.Err? {
          return Err(written.error);
        }
        i := i + 1;
      }
      return Ok(place.row);
    }

    /** One turn of the loop over the properties. */
    method WriteProperty(ctx: Context, ty: string, v: Value, update: bool, place: Place, i: nat, depth: nat)
      returns (out: Outcome<(), Error>)
      requires Ready(ctx, db) && ty in ctx.schema && i < |ctx.schema[ty].persisted| && HasRow(db, ty, place.row)
      modifies this
      ensures Ready(ctx, db) && Grows(old(db), db)
      ensures Populate(ctx, old(db), ty, v, update, place, i, depth)
           == if out.Err? then Step(db, Err(out.error)) else Populate(ctx, db, ty, v, update, place, i + 1, depth)
      decreases depth, 3, 0
    {
      hide Ready, SetProperty, Chosen;
      var os := ctx.schema[ty];
      var p := os.persisted[i];
      if !(place.skipPrimary && os.IsPrimary(p)) {
        var chosen := Chosen(ctx, ty, v, place, p);
        if chosen.Err? {
          return Err(chosen.error);
        }
        if chosen.value.Some? {
          out := SetPropertyImpl(ctx, ty, place.row, p, chosen.value.value.0, update, chosen.value.value.1, depth);
          return;
        }
      }
      return Ok(());
    }

    method SetPropertyImpl(
        ctx: Context, ty: string, row: nat, p: Property, v: Value, update: bool, isDefault: bool, depth: nat)
      returns (out: Outcome<(), Error>)
      requires Ready(ctx, db) && Column(ctx, db, ty, row, p)
      modifies this
      ensures Step(db, out) == SetProperty(ctx, old(db), ty, row, p, v, update, isDefault, depth)
      decreases depth, 2, 0
    {
      hide Ready, Assign, Unbox, PutCell, UnboxScalar, SchemaOk;
      CellFitsHere(ctx, db, ty, row, p);
      if p.kind.isNullable && v.Empty? {
        if p.kind.isArray {
          return Err(NullOnListColumn);
        }
        if p.kind.base == Object {
          if !isDefault {
            db := PutCell(ctx, db, ty, row, p, Nil);
          }
        } else {
          db := PutCell(ctx, db, ty, row, p, Nil);
        }
        return Ok(());
      }
      if p.kind.isArray {
        out := AssignList(ctx, ty, row, p, v, update, depth);
        return;
      }
      if p.kind.base == Object {
        var link := UnboxRow(ctx, p.target, v, update, depth);
        if link.Err? {
          return Err(link.error);
        }
        if !HasRow(db, p.target, link.value.row) {
          return Err(TargetOutOfRange);
        }
        db := PutCell(ctx, db, ty, row, p, Link(link.value.row));
        return Ok(());
      }
      var c := UnboxScalar(p.kind.base, v);
      if c.Err? {
        return Err(c.error);
      }
      db := PutCell(ctx, db, ty, row, p, c.value);
      return Ok(());
    }

    method UnboxRow(ctx: Context, ty: string, v: Value, update: bool, depth: nat) returns (out: Outcome<RowRef, Error>)
      requires Ready(ctx, db) && ty in ctx.schema
      modifies this
      ensures Step(db, out) == Unbox(ctx, old(db), ty, v, update, depth)
      decreases depth, 0, 0
    {
      hide Ready, Create;
      if v.RowOf? {
        return Ok(RowRef(v.table, v.row));
      }
      if depth == 0 {
        return Err(StackOverflow);
      }
      var row := CreateObject(ctx, ty, v, update, depth - 1);
      if row.Err? {
        return Err(row.error);
      }
      return Ok(RowRef(ty, row.value));
    }

    method AssignList(ctx: Context, ty: string, row: nat, p: Property, v: Value, update: bool, depth: nat)
      returns (out: Outcome<(), Error>)
      requires Ready(ctx, db) && Column(ctx, db, ty, row, p) && p.kind.isArray
      modifies this
      ensures Step(db, out) == Assign(ctx, old(db), ty, row, p, v, update, depth)
      decreases depth, 1, if v.Vec? then |v.elems| + 1 else 0
    {
      hide Ready, AppendOne;
      if v == ListOf(ty, row, p.name) {
        return Ok(());
      }
      db := PutCell(ctx, db, ty, row, p, Items([]));
      if v.Empty? {
        return Ok(());
      }
      if !v.Vec? {
        return Err(BadCast);
      }
      ghost var db1 := db;
      assert v.elems[0..] == v.elems;
      var i := 0;
      while i < |v.elems|
        invariant i <= |v.elems| && Ready(ctx, db) && Column(ctx, db, ty, row, p)
        invariant AppendAll(ctx, db, ty, row, p, v.elems[i..], update, depth)
                    == AppendAll(ctx, db1, ty, row, p, v.elems, update, depth)
      {
        assert v.elems[i..][0] == v.elems[i] && v.elems[i..][1..] == v.elems[i + 1..];
        out := AddElement(ctx, ty, row, p, v.elems[i], update, depth);
        if out.Err? {
          return;
        }
        i := i + 1;
      }
      return Ok(());
    }

    method AddElement(ctx: Context, ty: string, row: nat, p: Property, v: Value, update: bool, depth: nat)
      returns (out: Outcome<(), Error>)
      requires Ready(ctx, db) && Column(ctx, db, ty, row, p) && p.kind.isArray
      modifies this
      ensures Step(db, out) == AppendOne(ctx, old(db), ty, row, p, v, update, depth)
      decreases depth, 1, 0
    {
      hide Ready, Unbox, PushItem, SchemaOk, CellFits;
      CellFitsHere(ctx, db, ty, row, p);
      if p.kind.base == Object {
        var r := UnboxRow(ctx, p.target, v, update, depth);
        if r.Err? {
          return Err(r.error);
        }
        if !HasRow(db, r.value.table, r.value.row) {
          return Err(Detached);
        }
        if r.value.table != p.target {
          return Err(WrongTable);
        }
        db := PushItem(ctx, db, ty, row, p, Link(r.value.row));
        return Ok(());
      }
      var c := UnboxItem(p, v);
      if c.Ok? {
        db := PushItem(ctx, db, ty, row, p, c.value);
        return Ok(());
      }
      if c.error == NullNotAllowed {
        db := PushItem(ctx, db, ty, row, p, Atom(ZeroScalar(p.kind.base)));
      }
      return Err(c.error);
    }

    /** The public setter. */
    method SetValue(ctx: Context, ty: string, row: nat, name: string, v: Value, update: bool, depth: nat)
      returns (out: Outcome<(), Error>)
      requires Ready(ctx, db) && ty in ctx.schema
      modifies this
      ensures Step(db, out) == SetPropertyValue(ctx, old(db), ty, row, name, v, update, depth)
    {
      hide Ready, SetProperty;
      if !HasRow(db, ty, row) {
        return Err(Detached);
      }
      if !ctx.inWrite {
        return Err(NotInWrite);
      }
      var p := Named(ctx.schema[ty].persisted, name);
      if p.None? {
        if Named(ctx.schema[ty].computed, name).Some? {
          return Err(ReadOnlyProperty(ty, name));
        }
        return Err(NoSuchProperty(ty, name));
      }
      if ctx.schema[ty].IsPrimary(p.value) && !ctx.inMigration {
        return Err(KeyImmutable);
      }
      out := SetPropertyImpl(ctx, ty, row, p.value, v, update, false, depth);
    }
  }
}
