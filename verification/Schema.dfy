/** Property types, object schemas and the accessor context of the object store. */
module Wrappers {
  datatype Option<+T> = None | Some(value: T)

  datatype Outcome<+T, +E> = Ok(value: T) | Err(error: E)
}

module Schemas {
  import opened Wrappers

  /** The base of a property type; the two flags are kept beside it. */
  datatype Base = Int | Bool | String | Data | Date | Float | Double | Object | LinkingObjects | Any

  datatype PropertyType = PropertyType(base: Base, isNullable: bool, isArray: bool)

  datatype Property = Property(name: string, kind: PropertyType, target: string)

  /** `primary` names the primary key property, if there is one. */
  datatype ObjectSchema = ObjectSchema(persisted: seq<Property>, computed: seq<Property>, primary: Option<string>)
  {
    predicate IsPrimary(p: Property) {
      primary == Some(p.name)
    }
  }

  type Schema = map<string, ObjectSchema>

  /** The first property of the given name. */
  function Named(ps: seq<Property>, name: string): (r: Option<Property>)
    ensures r.Some? ==> r.value in ps && r.value.name == name
    ensures r.None? ==> forall i | 0 <= i < |ps| :: ps[i].name != name
  {
    if ps == [] then None
    else if ps[0].name == name then Some(ps[0])
    else Named(ps[1..], name)
  }

  function Names(ps: seq<Property>): set<string> {
    set i | 0 <= i < |ps| :: ps[i].name
  }

  ghost predicate Distinct(ps: seq<Property>) {
    forall i, j | 0 <= i < j < |ps| :: ps[i].name != ps[j].name
  }

  /** What schema validation lets through for one stored property. */
  predicate PersistedOk(schema: Schema, p: Property) {
    && p.kind.base != LinkingObjects
    && (p.kind.base == Object ==> p.target in schema && p.kind.isNullable == !p.kind.isArray)
  }

  predicate ComputedOk(p: Property) {
    p.kind == PropertyType(LinkingObjects, false, true)
  }

  predicate KeyOk(p: Property) {
    (p.kind.base == Int || p.kind.base == String) && !p.kind.isArray
  }

  ghost predicate ObjectSchemaOk(schema: Schema, os: ObjectSchema) {
    && Distinct(os.persisted)
    && (forall p | p in os.persisted :: PersistedOk(schema, p))
    && (forall p | p in os.computed :: ComputedOk(p))
    && (os.primary.Some? ==> Named(os.persisted, os.primary.value).Some?)
    && (forall p | p in os.persisted && os.IsPrimary(p) :: KeyOk(p))
  }

  ghost predicate SchemaOk(schema: Schema) {
    forall ty | ty in schema :: ObjectSchemaOk(schema, schema[ty])
  }

  lemma NamedIsIt(ps: seq<Property>, p: Property)
    requires Distinct(ps) && p in ps
    ensures Named(ps, p.name) == Some(p)
  {
  }
}
