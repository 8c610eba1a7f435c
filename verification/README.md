# Realm object store in a to-do application: model and proofs

The application keeps to-do lists and their items in a Realm database. The logic that can go wrong
is in the database's object layer, which the repository carries as source. This project models
these parts of it and proves what they promise.

**Creating and updating objects** (`Schema`, `Tables`, `Upsert*`, `ObjectAccessor`). `Object::create`
turns a nested value into table rows, links and lists: it looks for the primary key, appends a row
or takes the one found, and writes each property, which may create or update further objects. The
functions of `Upsert` are the specification; the class `ObjectAccessor.Realm` runs the loops and
early exits in place and is proved to do the same to every table. On the specification: uniqueness
of keys over every run and every exit, integrity of links, what is left alone, the refinement of a
keyed-map upsert, idempotence, reading after writing; exactly which values can be written, with update
(`UpsertSucceeds`) and without (`UpsertInserts`, `UpsertInsertIff`), which error each refusal is
(`UpsertErrors`, `UpsertSetter`), and what stays in the tables when writing stops half way
(`UpsertFailures`).

**Index sets** (`Ranges`, `Chunks`, `RangeVector`, `RangeEdits`, `IndexSetSteps`, `IndexIterators`,
`IndexMerges`, `IndexGains`, `RangeBuilder`, `IndexSet`, `IndexSetRuns`, `IndexSetFailures`). A set
of indices is a list of coalesced ranges in bounded chunks that cache their begin, end and count. `Ranges` gives
the meaning as a set of naturals and the theory of shifting and unshifting; the classes are the
imperative code, each operation proved against the set it should give, with the layout kept.

**Dates** (`Dates`), **range editing on lists** (`ListEditing`), **handles of notifiers** (`Handles`),
**write transactions** (`Transactions`), **observation records** (`Observation`), and **the two screens
of the application** as runs over those transactions (`ToDo`, `ToDoEffects`).

## Where the code does not do what it promises

For each of these the project proves for all inputs when the code does what it promises. The
conditions are exact, with two exceptions marked (*) where only one direction holds in general.

- Counting the members of an interval (index_set.cpp:289-302) returns early and leaves out part of
  the first range of the next chunk.
- A chunk that the range builder starts beyond the planned ones gets the count one whatever the
  length of its first range (index_set.cpp:244); merging shifted indices can reach this.
- Removing zero indices inside a range splits the range (index_set.cpp:617-639).
- The lower clamp of dates subtracts the epoch shift (RLMUtil.hpp:151), so about sixty years of
  representable dates are moved to the earliest one; the comment promises clamping only for dates
  that cannot be represented. The upper clamp also takes the last representable second.
- A managed row given for a single link is stored by its index without a look at its table
  (object_accessor.hpp:99-104), so a row of another table becomes a link to a different object; an
  index out of range is refused by the core (exceptions.hpp:175-179). List entries are checked.
- (*) Updating twice from one value is not idempotent when the value names one object twice and a
  property that is left to its default is also given a value by the other occurrence. The condition
  is exact for an object one of whose links is given the object itself, and sufficient in general.
- (*) A default that is an object of its own type makes creation recurse without end. How deep the
  recursion goes is exact for types without keys; with keys a default is only pulled in for a new
  object, so it is an upper bound.
- Inserting a slice of a list into the list itself inserts items read while the list changes
  (List.swift:588-594).
- Deleting an item of one list can change the order in which another list shows its items, as
  deletion moves the last row into the gap.
- If its own commit fails, `write` throws with the transaction still open (Realm.swift:160), and the
  next `write` raises an exception. That the transaction stays open, and that only a rollback is
  allowed in it, is what the core's header documents (group_shared.hpp:110-146, and rolling back
  demands an open transaction, :1002-1005); the code of a failing commit is not part of this model.

## Model

| member | source | states |
|---|---|---|
| `Upsert.Create` | To Do List Realm/Pods/Realm/include/object_accessor.hpp:180-284 | Creating from any nested value ends at every stack depth, keeps every cell of its column's type, only appends rows, and returns a row that exists; that a stored key is refused without update is `DuplicateIffRefused` |
| `Upsert.Assign` | To Do List Realm/Pods/Realm/include/list.hpp:207-220 | Replacing a list keeps every cell of its column's type and only appends rows, on success and on error |
| `Upsert.FindKey` | To Do List Realm/Pods/Realm/include/object_accessor.hpp:313-329 | A row with the key, or none exactly if no row has it |
| `UpsertKeys.CreateKeepsKeys` | To Do List Realm/Pods/Realm/include/object_accessor.hpp:180-284 | Outside a migration, creating or updating keeps keys unique (null is a key) and changes no row's key, on normal return and on every error exit |
| `UpsertKeys.AfterKeepsKeys` | To Do List Realm/Pods/Realm/include/object_accessor.hpp:43-57 | The same for one call of either public entry, the setter included |
| `UpsertKeys.RunKeepsKeys` | To Do List Realm/Pods/Realm/include/object_accessor.hpp:43-284 | The same over every run of creations and property writes with arbitrarily nested values |
| `UpsertLinks.PutLinks` | To Do List Realm/Pods/Realm/include/object_accessor.hpp:98-104 | As a write into the raw table, storing a cell keeps all links pointing at rows of their target tables if and only if the new cell's links do |
| `UpsertLinks.CreateLinks` | To Do List Realm/Pods/Realm/include/object_accessor.hpp:180-284 | Creating keeps every stored link and list entry pointing at an existing row of the property's target table, for every value, on success and on every error exit |
| `UpsertLinks.SetLinks` | To Do List Realm/Pods/Realm/include/object_accessor.hpp:65-132 | The same for writing one property, for every value |
| `UpsertLinks.SetLinkLinks` | To Do List Realm/Pods/Realm/include/core/realm/exceptions.hpp:175-179 | Setting a link to a row outside the target table is refused, so whatever the index links stay in order |
| `UpsertLinks.RunKeepsLinks` | To Do List Realm/Pods/Realm/include/object_accessor.hpp:43-284 | Over every run of creations and property writes all links and list entries point at rows of their target tables |
| `UpsertGet.LinkIsByIndex` | To Do List Realm/Pods/Realm/include/object_accessor.hpp:99-104 | A managed row given for a single link is taken by its index: out of range it is an error that changes nothing; in range the link names the row given if and only if that row is of the target table |
| `UpsertGet.WrongObjectIsLinked` | To Do List Realm/Pods/Realm/include/object_accessor.hpp:99-104 | A row of another table given for a link is stored as a link to a different object |
| `UpsertFrame.CreateSpares` | To Do List Realm/Pods/Realm/include/object_accessor.hpp:180-284 | A stored row that neither the value tree nor an object written in a default addresses by type and key is left as it is, and without update every stored row is |
| `UpsertFrame.SetSpares` | To Do List Realm/Pods/Realm/include/object_accessor.hpp:65-132 | Writing a property changes at most its own cell and the rows that its value or an object written in a default addresses |
| `UpsertFrame.KeylessRowsSpared` | To Do List Realm/Pods/Realm/include/object_accessor.hpp:194-260 | A row without a key is addressed by no value and by no default, so it is always left as it is |
| `UpsertRefines.CreateHolds` | To Do List Realm/Pods/Realm/include/object_accessor.hpp:194-283 | If no type and key occur twice in the value and the objects written in defaults have no keys, the row returned holds all of the value: scalars, links to rows that hold the nested values, lists in order; an object without a key is always a new row, whose other properties hold their default, nested objects included, or are empty |
| `UpsertKeyedMap.UpsertIsKeyedMapUpdate` | To Do List Realm/Pods/Realm/include/object_accessor.hpp:194-283 | For such values and defaults create with update refines an upsert into a keyed map, for every object in the value at any depth: some row of its type holds what it gives, and its other properties keep their cell in an old row and take the default or stay empty in a new one; the same holds of every stored object with a key for what the value does not give it, and rows that the value does not address do not change |
| `UpsertKeyedMap.EveryObjectUpserted` | To Do List Realm/Pods/Realm/include/object_accessor.hpp:194-283 | Each object in such a value, nested in links and lists to any depth, has a row that holds it, with the other properties as before if it is old and as defaulted or empty if it is new |
| `UpsertKeyedMap.UngivenRest` | To Do List Realm/Pods/Realm/include/object_accessor.hpp:262-282 | For values that name objects any number of times: a property of a stored object with a key that no occurrence and no default gives is as before in an old row, and its default or empty in a new one |
| `UpsertGiven.CreateKeeps` | To Do List Realm/Pods/Realm/include/object_accessor.hpp:180-284 | On success and on every error exit, and for all defaults, a property of a stored object changes only if the value or a default gives it to an object with its type and key |
| `UpsertGiven.SetKeeps` | To Do List Realm/Pods/Realm/include/object_accessor.hpp:65-132 | The same for writing one property, beside the cell written |
| `UpsertSettled.CreateSettles` | To Do List Realm/Pods/Realm/include/object_accessor.hpp:271-282 | A property of a new object with a key that nothing gives holds its default or is empty when creation has returned, whatever was written afterwards |
| `UpsertNamedDefault.DefaultChangesOther` | To Do List Realm/Pods/Realm/include/object_accessor.hpp:271-282 | A default that holds an object with a key sets a property of that stored object, in all tables that have it, although the value given names no object with a key |
| `UpsertRefines.AssignIsExact` | To Do List Realm/Pods/Realm/include/list.hpp:207-220 | A list given itself does not change, given null is emptied, and otherwise becomes exactly the cells of its elements in order, rows or scalars, if neither an element nor a default addresses the list's owner |
| `UpsertRefines.SetHolds` | To Do List Realm/Pods/Realm/include/object_accessor.hpp:65-132 | A property other than the key holds its value after it was written, nested objects included, if the value repeats no type and key and does not name the owner of the property, and the objects written in defaults have no keys |
| `UpsertIdempotent.CreateNoOp` | To Do List Realm/Pods/Realm/include/object_accessor.hpp:262-282 | Writing a value without repeats, all of whose objects have keys, that is already held changes nothing and returns the same row |
| `UpsertIdempotent.UpsertIsIdempotent` | To Do List Realm/Pods/Realm/include/object_accessor.hpp:180-284 | If creating with update returns, doing it again leaves every table, link and list the same, for values whose objects all have keys and in which nothing said about an object before one of its defaults is written disagrees with that default; objects may occur several times |
| `UpsertIdempotent.SelfNamingIff` | To Do List Realm/Pods/Realm/include/object_accessor.hpp:262-282 | For a new object one of whose links is given the object itself once more: the second run changes nothing if and only if that occurrence gives no other value to a later property that is left to its default |
| `UpsertIdempotent.RepeatsAreIdempotent` | To Do List Realm/Pods/Realm/include/object_accessor.hpp:262-282 | Objects may repeat anywhere if no default applies to the types written |
| `UpsertIdempotent.DefaultsAreLast` | To Do List Realm/Pods/Realm/include/object_accessor.hpp:262-282 | The condition on defaults holds of every value in which no type and key occur twice, and of every value to whose types no default applies |
| `UpsertRerun.CreateTwice` | To Do List Realm/Pods/Realm/include/object_accessor.hpp:180-284 | Two runs from tables that agree but for cells the first one still settles end with the same result and agree in the same way, through every nested object, link and list |
| `UpsertRepeat.RepeatIsNotIdempotent` | To Do List Realm/Pods/Realm/include/object_accessor.hpp:262-282 | A value that names one object twice, on which the second run changes the data: defaults are written on first creation only |
| `UpsertDepth.EveryValueWithin` | To Do List Realm/Pods/Realm/include/object_accessor.hpp:180-284 | Every value tree has a finite depth |
| `UpsertDepth.CreateDeepEnough` | To Do List Realm/Pods/Realm/include/impl/object_accessor_impl.hpp:175-187 | The mutual recursion through nested values never needs more stack than the objects nest in the value together with the defaults it pulls in, for every schema and all defaults |
| `UpsertDepth.CreatedFits` | To Do List Realm/Pods/Realm/include/impl/object_accessor_impl.hpp:175-187 | And no less: a creation that returns had that much stack, counting defaults for schemas without keys and the value alone for every schema |
| `UpsertDepth.HeightFits` | To Do List Realm/Pods/Realm/include/impl/object_accessor_impl.hpp:175-187 | When defaults hold no objects that is the depth of the value |
| `UpsertDepth.NestedDefaultFitsNone` | To Do List Realm/Pods/Realm/include/object_accessor.hpp:271-282 | With a default that is an object of its own type no stack is deep enough |
| `UpsertDepth.NestedDefaultOverflows` | To Do List Realm/Pods/Realm/include/object_accessor.hpp:271-282 | With a default that is an object of its own type the recursion exceeds every stack depth |
| `UpsertGet.NullIffNullable` | To Do List Realm/Pods/Realm/include/object_accessor.hpp:74-85 | Null is accepted for a property that is no list exactly if its type is nullable |
| `UpsertGet.GetAfterSet` | To Do List Realm/Pods/Realm/include/object_accessor.hpp:134-168 | Reading a property that is no list after writing it gives what was written: the scalar, null, the same row, or the row of the nested object |
| `UpsertGet.OthersAfterSet` | To Do List Realm/Pods/Realm/include/object_accessor.hpp:65-168 | Every other property of every row reads as before, without update always, with update unless the value or a default addresses the row |
| `UpsertGet.FindAfterCreate` | To Do List Realm/Pods/Realm/include/object_accessor.hpp:295-329 | An object that was created or updated is found by its key, and it is the row returned, also when keys repeat in the value or in defaults |
| `ObjectAccessor.Realm.FindRow` | To Do List Realm/Pods/Realm/include/object_accessor.hpp:313-329 | The search loop finds what the specification finds |
| `ObjectAccessor.Realm.GetOrCreateRow` | To Do List Realm/Pods/Realm/include/object_accessor.hpp:187-256 | The imperative search, append and key write refine their specification, which `LocateIs` states case by case |
| `ObjectAccessor.Realm.CreateObject` | To Do List Realm/Pods/Realm/include/object_accessor.hpp:180-284 | The property loop with early exits refines the specification of create in result, error and every table |
| `ObjectAccessor.Realm.SetPropertyImpl` | To Do List Realm/Pods/Realm/include/object_accessor.hpp:65-132 | Null, list, link and scalar writes in place refine the specification of a property write |
| `ObjectAccessor.Realm.AssignList` | To Do List Realm/Pods/Realm/include/list.hpp:207-220 | Clearing and then appending element by element refines the specification of a list assignment, also when an element fails half way |
| `ObjectAccessor.Realm.AddElement` | To Do List Realm/Pods/Realm/include/list.hpp:188-193 | Appending one element refines its specification, with its checks on the row's table |
| `ObjectAccessor.Realm.UnboxRow` | To Do List Realm/Pods/Realm/include/impl/object_accessor_impl.hpp:175-187 | A value is taken as a row, or recursively created, as specified |
| `ObjectAccessor.Realm.SetValue` | To Do List Realm/Pods/Realm/include/object_accessor.hpp:43-57 | The public setter refines its specification, of which `SetterRefuses` and `GetAfterSetter` say what it does |
| `UpsertKeys.SetKeepsKeys` | To Do List Realm/Pods/Realm/include/object_accessor.hpp:65-132 | Writing a property that is not the key keeps all keys, whatever objects its value creates or updates |
| `UpsertErrors.LocateIs` | To Do List Realm/Pods/Realm/include/object_accessor.hpp:187-256 | What finding the row comes to in every case: an unreadable key is an error that changes nothing; an absent key, or no key at all, appends one row that is empty but for the key; a stored key takes its row when updating, appends a second row in a migration, and is refused as a duplicate otherwise |
| `UpsertErrors.KeyOfIs` | To Do List Realm/Pods/Realm/include/object_accessor.hpp:196-206 | The key is the value given, else the default, else null where it may be null, read as a scalar of the key's type; when it cannot be had, which of the four errors it is |
| `UpsertErrors.DuplicateIffRefused` | To Do List Realm/Pods/Realm/include/object_accessor.hpp:234-246 | Creating is refused as a duplicate, with nothing changed, exactly in a write transaction that is no migration, without update, when some stored row has the key asked for |
| `UpsertErrors.CreateInserts` | To Do List Realm/Pods/Realm/include/object_accessor.hpp:180-284 | Without update no stored row of any table changes, on success and on every error exit, nested objects included |
| `UpsertErrors.CreateOutside` | To Do List Realm/Pods/Realm/include/object_accessor.hpp:185-185 | Outside a write transaction nothing is created and the error says so |
| `UpsertErrors.CreateRaises` | To Do List Realm/Pods/Realm/include/object_accessor.hpp:180-284 | Which errors a nested value of any depth can raise: those of the setter never, duplicates only without update and outside migrations, those about managed rows only if one occurs, a missing value only where it may not be missing |
| `UpsertSucceeds.CreateSucceeds` | To Do List Realm/Pods/Realm/include/object_accessor.hpp:180-284 | In a write transaction, creating with update succeeds for every value that fits its type at every level, defaults included, whatever is stored already |
| `UpsertSucceeds.CreatedConforms` | To Do List Realm/Pods/Realm/include/object_accessor.hpp:180-284 | And only then: when a creation returns, the value fits its type at every level, in keys, scalars, nulls, lists and depth |
| `UpsertSucceeds.SucceedsIff` | To Do List Realm/Pods/Realm/include/object_accessor.hpp:180-284 | Without defaults and where properties may be missing this is exact: creating with update returns if and only if a transaction is open and the value fits |
| `UpsertSucceeds.SetterSucceedsIff` | To Do List Realm/Pods/Realm/include/object_accessor.hpp:43-57 | The same for the setter: it returns if and only if the property may be set and the value fits it |
| `UpsertFailures.StoredAfterwards` | To Do List Realm/Pods/Realm/include/object_accessor.hpp:206-246 | A creation with a readable key leaves the object stored on every exit, as nothing is taken back, so creating it again without update is refused and changes nothing |
| `UpsertFailures.FittingHolds` | To Do List Realm/Pods/Realm/include/object_accessor.hpp:262-282 | If the properties of a value fit up to some point, they hold their values afterwards, nested objects and lists included, whatever error a later property raises |
| `UpsertFailures.StoppedListHolds` | To Do List Realm/Pods/Realm/include/list.hpp:207-220 | An assignment that stops at an element leaves exactly the cells of the elements before it, and an empty one if the core refused a null |
| `UpsertSetter.SetterRefuses` | To Do List Realm/Pods/Realm/include/object_accessor.hpp:43-57 | Exactly when the setter fails because of a detached row, no transaction, an unknown name, a computed property, or a key outside a migration, and that it then changes nothing |
| `UpsertSetter.GetAfterSetter` | To Do List Realm/Pods/Realm/include/object_accessor.hpp:43-63 | When the public setter returns, reading the property gives the scalar, null, row, or row of the nested object that was set |
| `UpsertSetter.SetterHolds` | To Do List Realm/Pods/Realm/include/object_accessor.hpp:43-57 | The property then holds the value set, nested objects and lists included |
| `UpsertSetter.SetterAssigns` | To Do List Realm/Pods/Realm/include/object_accessor.hpp:43-57 | A list set to itself is unchanged, set to null is empty, set to values has exactly their cells in order; nothing else is accepted |
| `UpsertSetter.OthersAfterSetter` | To Do List Realm/Pods/Realm/include/object_accessor.hpp:43-57 | Every other property of every row reads as before, without update always, with update unless the value or a default names the row |
| `UpsertSetter.ScalarSetterIff` | To Do List Realm/Pods/Realm/include/object_accessor.hpp:43-57 | A scalar property is set exactly for an attached row in a transaction, a changeable property, and a scalar of its type or an allowed null |
| `UpsertSetter.LookupIs` | To Do List Realm/Pods/Realm/include/object_accessor.hpp:295-329 | The search by key is an error exactly without a key, for null where the key may not be null, and for a value of another type; it finds nothing exactly if no row has the key, and otherwise the first row that has it |
| `UpsertSetter.RowElementIff` | To Do List Realm/Pods/Realm/include/list.hpp:188-193 | A managed row is appended exactly if it is attached and of the list's type, detached rows being told from wrong tables |
| `UpsertSetter.ScalarElementIff` | To Do List Realm/Pods/Realm/include/list.hpp:188-193 | A scalar is appended exactly if it fits the element type, or is a null that may be stored |
| `UpsertSetter.NoListIsRefused` | To Do List Realm/Pods/Realm/include/list.hpp:207-220 | A value that is no list is refused after the list was emptied |
| `UpsertSetter.RequiredIsGiven` | To Do List Realm/Pods/Realm/include/object_accessor.hpp:274-278 | What was created gave every required property of a new object, or a default for it, where nothing may be missing |
| `UpsertSetter.MissingStops` | To Do List Realm/Pods/Realm/include/object_accessor.hpp:276-278 | The first required property that is missing stops the writing with its own name |
| `UpsertSetter.DuplicateInMigration` | To Do List Realm/Pods/Realm/include/object_accessor.hpp:234-242 | In a migration creating a stored key without update appends another row that gets the same key |
| `UpsertSetter.EmptyReads` | To Do List Realm/Pods/Realm/include/object_accessor.hpp:214-226 | What the properties of a new object that nothing was written to read as: null, an empty list, or zero of their type |
| `UpsertSetter.ReadFails` | To Do List Realm/Pods/Realm/include/object_accessor.hpp:134-168 | Reading fails exactly for detached rows |
| `UpsertInsertIff.InsertIff` | To Do List Realm/Pods/Realm/include/object_accessor.hpp:180-284 | Creating without update, outside migrations, where no default applies and properties may be missing: it returns if and only if a transaction is open, the value fits its type at every level, names no object twice, and names none that is stored |
| `UpsertInsertIff.InsertSucceeds` | To Do List Realm/Pods/Realm/include/object_accessor.hpp:180-284 | With defaults that hold no objects with keys, such values are always created |
| `UpsertInsertIff.InsertedIsNew` | To Do List Realm/Pods/Realm/include/object_accessor.hpp:234-246 | What was created without update, whatever the defaults, named no object twice and none that was stored before |
| `UpsertInserts.KeysAfter` | To Do List Realm/Pods/Realm/include/object_accessor.hpp:194-260 | The keys stored after a creation that returns, with update or without, are those stored before and those of the objects at any depth of the value, and no others |
| `UpsertInserts.CreateStores` | To Do List Realm/Pods/Realm/include/object_accessor.hpp:180-284 | Every object at any depth of a value is stored when its creation returns, and without update it was not stored before |
| `UpsertFailures.NestedStored` | To Do List Realm/Pods/Realm/include/object_accessor.hpp:262-282 | A nested object is stored as soon as its property has its turn, and stays stored whatever cannot be written after |
| `UpsertFailures.ElementStored` | To Do List Realm/Pods/Realm/include/list.hpp:207-220 | The same for an element of a list, if those before it can be written |
| `UpsertSetter.NullListIsRefused` | To Do List Realm/Pods/Realm/include/object_accessor.hpp:74-85 | Null for a list empties it, or is refused if its elements may be null |
| `UpsertSetter.ScalarErrorIs` | To Do List Realm/Pods/Realm/include/object_accessor.hpp:98-130 | A scalar that is refused changes nothing, and which of the three errors it is |
| `Ranges.CanonicalUnique` | To Do List Realm/Pods/Realm/include/index_set.hpp:88-123 | A set of naturals has at most one list of nonempty, sorted, coalesced ranges |
| `RangeEdits.RangesExist` | To Do List Realm/Pods/Realm/include/index_set.hpp:88-123 | And every finite set has one |
| `Ranges.BelowCounts` | To Do List Realm/Pods/Realm/include/index_set.hpp:144-145 | The running sum of clipped ranges is the number of members below a bound |
| `Ranges.ShiftBijection` | To Do List Realm/Pods/Realm/include/index_set.hpp:183-186 | Shifting is a strictly increasing bijection from the naturals onto the complement of the set, and unshifting is its inverse there |
| `Chunks.PrevNext` | To Do List Realm/Pods/Realm/include/index_set.hpp:277-320 | Stepping back undoes stepping forward across chunk borders and from the end, and the other way round |
| `Chunks.IndexAt` | To Do List Realm/Pods/Realm/include/index_set.hpp:62-92 | A position in the chunks is an index into the flattened ranges, and the end position is their number |
| `RangeVector.ChunkedRangeVector.Set` | To Do List Realm/Pods/Realm/Realm/ObjectStore/src/index_set.cpp:30-43 | Setting a range changes only that range and keeps cached begin, end and count right |
| `RangeVector.ChunkedRangeVector.Adjust` | To Do List Realm/Pods/Realm/Realm/ObjectStore/src/index_set.cpp:45-57 | Moving the ends of a range keeps the caches right |
| `RangeVector.ChunkedRangeVector.Shift` | To Do List Realm/Pods/Realm/Realm/ObjectStore/src/index_set.cpp:59-70 | Moving a range keeps the caches right |
| `RangeVector.ChunkedRangeVector.PushBack` | To Do List Realm/Pods/Realm/Realm/ObjectStore/src/index_set.cpp:72-86 | Appending a range opens a chunk exactly when there is none or the last is full, and keeps the layout |
| `RangeVector.ChunkedRangeVector.Insert` | To Do List Realm/Pods/Realm/Realm/ObjectStore/src/index_set.cpp:88-104 | Inserting a range at a position gives the flattened ranges with it inserted, the layout kept, and its position |
| `RangeVector.ChunkedRangeVector.EnsureSpace` | To Do List Realm/Pods/Realm/Realm/ObjectStore/src/index_set.cpp:106-142 | Splitting a full chunk changes no range, keeps the layout, and the position given back is of the same range in a chunk with room |
| `RangeVector.ChunkedRangeVector.Erase` | To Do List Realm/Pods/Realm/Realm/ObjectStore/src/index_set.cpp:144-170 | Removing a range drops an emptied chunk, keeps the layout, and gives the position of the next range |
| `IndexSets.IndexSet.FindFrom` | To Do List Realm/Pods/Realm/Realm/ObjectStore/src/index_set.cpp:328-344 | Linear search over chunks and binary search inside one find the range that holds the index or the first one after it |
| `IndexSets.IndexSet.Contains` | To Do List Realm/Pods/Realm/Realm/ObjectStore/src/index_set.cpp:273-277 | True exactly for members |
| `IndexSets.IndexSet.Count` | To Do List Realm/Pods/Realm/Realm/ObjectStore/src/index_set.cpp:279-321 | The number of members in a half-open interval is right exactly unless the start lies strictly inside a chunk and the end in the first range of the next one, and then it falls short by the part of that range; with the end before the start it is the negative distance if one range holds both, and zero otherwise |
| `IndexSetFailures.CountFallsShort` | To Do List Realm/Pods/Realm/Realm/ObjectStore/src/index_set.cpp:289-302 | A concrete layout on which five members are counted as three |
| `IndexSets.IndexSet.DoAdd` | To Do List Realm/Pods/Realm/Realm/ObjectStore/src/index_set.cpp:678-708 | Adding one index joins the range before, after, both or none, and gives the range that holds it |
| `RangeEdits.AddedSpec` | To Do List Realm/Pods/Realm/Realm/ObjectStore/src/index_set.cpp:678-708 | What adding does to the list of ranges: one more member, still coalesced, and the index is in the range given back |
| `IndexSets.IndexSet.Add` | To Do List Realm/Pods/Realm/Realm/ObjectStore/src/index_set.cpp:346-349 | The set afterwards has the index as its one additional member and is canonical with right caches |
| `IndexSets.IndexSet.AddAll` | To Do List Realm/Pods/Realm/Realm/ObjectStore/src/index_set.cpp:351-357 | The union of both sets |
| `IndexSets.IndexSet.AddShifted` | To Do List Realm/Pods/Realm/Realm/ObjectStore/src/index_set.cpp:359-373 | Adds exactly the shifted index, which was no member; gives it back; unshifting it by the old set gives the argument |
| `IndexSets.IndexSet.AddShiftedBy` | To Do List Realm/Pods/Realm/Realm/ObjectStore/src/index_set.cpp:375-420 | Adds exactly the places where the values outside the other set land; a cached count ends up wrong exactly on the inputs for which a chunk beyond the planned ones starts with a copied range of several indices |
| `IndexGains.CountsStayRightFor` | To Do List Realm/Pods/Realm/Realm/ObjectStore/src/index_set.cpp:375-420 | Which inputs those are can be told from the three sets alone, through the one list of ranges that the result can have |
| `IndexGains.TargetIsGained` | To Do List Realm/Pods/Realm/include/index_set.hpp:154-156 | A value lands outside the old set, at a place from which it can be found again |
| `IndexGains.TargetsAscend` | To Do List Realm/Pods/Realm/include/index_set.hpp:154-156 | Different values land at different places in the same order |
| `IndexSetFailures.CopyIsMiscounted` | To Do List Realm/Pods/Realm/Realm/ObjectStore/src/index_set.cpp:241-244 | A concrete set for which the copied range is counted as one |
| `RangeBuilder.ChunkedRangeVectorBuilder.PushRange` | To Do List Realm/Pods/Realm/Realm/ObjectStore/src/index_set.cpp:224-252 | Pushing joins or appends one range, and makes exactly the count of a chunk beyond the planned ones fall short by the length less one |
| `RangeBuilder.ChunkedRangeVectorBuilder.Finalize` | To Do List Realm/Pods/Realm/Realm/ObjectStore/src/index_set.cpp:254-265 | The chunks given hold the pushed ranges; their layout and caches are right exactly if no count falls short |
| `IndexSets.IndexSet.SetTo` | To Do List Realm/Pods/Realm/Realm/ObjectStore/src/index_set.cpp:422-428 | The indices below a length |
| `IndexSets.IndexSet.InsertAt` | To Do List Realm/Pods/Realm/Realm/ObjectStore/src/index_set.cpp:430-454 | Opens up new members at an index; members from there on move up |
| `IndexSets.IndexSet.InsertAtAll` | To Do List Realm/Pods/Realm/Realm/ObjectStore/src/index_set.cpp:456-485 | Opens up the members of another set as new members, whatever the order of the merge |
| `IndexSets.IndexSet.ShiftForInsertAt` | To Do List Realm/Pods/Realm/Realm/ObjectStore/src/index_set.cpp:487-506 | Opens up indices that are no members, splitting a range that reaches over them |
| `IndexSets.IndexSet.ShiftForInsertAtAll` | To Do List Realm/Pods/Realm/Realm/ObjectStore/src/index_set.cpp:508-533 | The same for a whole set of positions, with its early exits |
| `IndexSets.IndexSet.EraseAt` | To Do List Realm/Pods/Realm/Realm/ObjectStore/src/index_set.cpp:535-540 | Deletes one index; later members move down and touching ranges are joined |
| `IndexSets.IndexSet.EraseAtAll` | To Do List Realm/Pods/Realm/Realm/ObjectStore/src/index_set.cpp:542-571 | Deletes a set of positions: an index is a member afterwards exactly if the index it comes from was |
| `IndexMerges.CloseUndoesOpen` | To Do List Realm/Pods/Realm/include/index_set.hpp:158-172 | Deleting a set of positions undoes inserting it, filled or not |
| `IndexMerges.OpenUndoesClose` | To Do List Realm/Pods/Realm/include/index_set.hpp:158-172 | Opening up deleted positions again gives the old set without the members that were deleted |
| `IndexSets.IndexSet.EraseOrUnshift` | To Do List Realm/Pods/Realm/Realm/ObjectStore/src/index_set.cpp:573-595 | Nothing for a member, the unshifted index otherwise, and in both cases the index is deleted |
| `IndexSets.IndexSet.DoRemove` | To Do List Realm/Pods/Realm/Realm/ObjectStore/src/index_set.cpp:617-639 | Removes the members of an interval; the ranges stay coalesced exactly unless the interval is empty and lies inside a range |
| `IndexSets.IndexSet.Remove` | To Do List Realm/Pods/Realm/Realm/ObjectStore/src/index_set.cpp:641-644 | The same from an index and a count |
| `IndexSetFailures.RemovingNothingSplits` | To Do List Realm/Pods/Realm/Realm/ObjectStore/src/index_set.cpp:617-639 | Removing no index between two members splits their range |
| `IndexSets.IndexSet.RemoveAll` | To Do List Realm/Pods/Realm/Realm/ObjectStore/src/index_set.cpp:646-654 | The difference of both sets, also when it returns early |
| `IndexSets.IndexSet.ShiftIndex` | To Do List Realm/Pods/Realm/Realm/ObjectStore/src/index_set.cpp:656-665 | Where an index lands when all members are inserted |
| `IndexSets.IndexSet.UnshiftIndex` | To Do List Realm/Pods/Realm/Realm/ObjectStore/src/index_set.cpp:667-671 | Where an index outside the set lands when all members are deleted |
| `IndexIterators.VisitRanges` | To Do List Realm/Pods/Realm/include/index_set.hpp:108-113 | Stepping from begin to end visits exactly the flattened ranges |
| `IndexIterators.VisitRangesBackwards` | To Do List Realm/Pods/Realm/include/index_set.hpp:294-305 | Stepping back from the end visits them in reverse |
| `IndexIterators.AsIndexes` | To Do List Realm/Pods/Realm/include/index_set.hpp:192-235 | The index iterator yields every member exactly once in ascending order |
| `IndexIterators.SamePlaceIsNoGap` | To Do List Realm/Pods/Realm/include/index_set.hpp:195-197 | Two index iterators compare equal exactly if all indices between theirs are members; the offset does not matter |
| `IndexSets.IndexSet.Find` | To Do List Realm/Pods/Realm/Realm/ObjectStore/src/index_set.cpp:323-326 | The range that holds an index, or the first one after it, searched from the start |
| `IndexSets.IndexSet.DoErase` | To Do List Realm/Pods/Realm/Realm/ObjectStore/src/index_set.cpp:597-615 | Deleting at a known place shrinks, removes or joins ranges and moves the later ones down |
| `IndexSets.IndexSet.Clear` | To Do List Realm/Pods/Realm/Realm/ObjectStore/src/index_set.cpp:673-676 | No members |
| `RangeBuilder.ChunkedRangeVectorBuilder.constructor` | To Do List Realm/Pods/Realm/Realm/ObjectStore/src/index_set.cpp:209-217 | Plans one chunk for every full load of the expected ranges and one more, with nothing built |
| `RangeBuilder.ChunkedRangeVectorBuilder.PushIndex` | To Do List Realm/Pods/Realm/Realm/ObjectStore/src/index_set.cpp:219-222 | Pushing one index adds it as a member, stays coalesced, and keeps right counts right |
| `IndexGains.GainedIsTarget` | To Do List Realm/Pods/Realm/include/index_set.hpp:154-156 | What is added is the place of exactly one value outside the other set |
| `RangeEdits.ClosedSpec` | To Do List Realm/Pods/Realm/Realm/ObjectStore/src/index_set.cpp:597-615 | What deleting an index does to the list of ranges: members above it move down, and it stays coalesced |
| `RangeEdits.CutCanonical` | To Do List Realm/Pods/Realm/Realm/ObjectStore/src/index_set.cpp:617-639 | Cutting an interval out of a range keeps the ranges coalesced exactly if the interval is not empty |
| `IndexSetRuns.Perform` | To Do List Realm/Pods/Realm/include/index_set.hpp:138-181 | One edit of an index set, by an index or by other sets, does to its members what it does to a plain set of naturals, with shifts given by counting members below |
| `IndexSetRuns.Execute` | To Do List Realm/Pods/Realm/include/index_set.hpp:138-181 | Over every run of edits, the other sets being built by runs themselves, the members are those of the plain set, and the chunks stay canonical with right caches; adding shifted values is among the edits where it counts them right |
| `IndexSetRuns.ExecuteTwice` | To Do List Realm/Pods/Realm/include/index_set.hpp:102-106 | The chunk size, which differs between debug and release builds, never shows in the ranges, over runs that count right in both |
| `Dates.ConvertDate` | To Do List Realm/Pods/Realm/include/RLMUtil.hpp:140-163 | Split, shift, borrow and clamps give the date truncated to nanoseconds as the one timestamp whose parts agree in sign; no intermediate step leaves its integer width |
| `Dates.RoundTrip` | To Do List Realm/Pods/Realm/include/RLMUtil.hpp:133-163 | A timestamp survives the way to a date and back exactly if its date is not clamped or it is one of the two clamp values |
| `Dates.EarlyDateIsLost` | To Do List Realm/Pods/Realm/include/RLMUtil.hpp:151-152 | A representable early time that the lower clamp loses, because it subtracts the epoch shift where it should add it |
| `Dates.WithinOneNanosecond` | To Do List Realm/Pods/Realm/include/RLMUtil.hpp:154-163 | A date that is not clamped is truncated towards the start of 2001 by less than a nanosecond |
| `Dates.DatesKeepOrder` | To Do List Realm/Pods/Realm/include/RLMUtil.hpp:140-163 | Later dates never give earlier timestamps, across both clamps |
| `Dates.SplitSpec` | To Do List Realm/Pods/Realm/include/RLMUtil.hpp:157-162 | The split has the given number of nanoseconds, less than a second of them apart, and signs that agree |
| `Dates.StartOf2001` | To Do List Realm/Pods/Realm/include/RLMUtil.hpp:133-163 | The start of 2001 by the calendar, leap years counted, is the date zero, in both directions |
| `Dates.SpecialDates` | To Do List Realm/Pods/Realm/include/RLMUtil.hpp:133-153 | No date, not-a-number and the infinities |
| `ListEditing.List.RemoveSubrange` | To Do List Realm/Pods/RealmSwift/RealmSwift/List.swift:611-615 | Removing at the lower bound in a loop removes the range, with the exact list left behind when the range is out of bounds |
| `ListEditing.List.InsertAll` | To Do List Realm/Pods/RealmSwift/RealmSwift/List.swift:588-594 | Inserting one by one at a growing index inserts the items in order, or raises and changes nothing |
| `ListEditing.List.ReplaceSubrangeReversed` | To Do List Realm/Pods/RealmSwift/RealmSwift/List.swift:490-498 | Removing and inserting from the last item on gives the list with the range replaced, for every range and list, errors included |
| `ListEditing.List.ReplaceSubrange` | To Do List Realm/Pods/RealmSwift/RealmSwift/List.swift:637-641 | Removing and inserting forwards gives the same list and outcome, so the two loops agree |
| `ListEditing.List.RemoveFirst` | To Do List Realm/Pods/RealmSwift/RealmSwift/List.swift:553-563 | Removes a prefix; too many is an error that changes nothing |
| `ListEditing.List.RemoveLast` | To Do List Realm/Pods/RealmSwift/RealmSwift/List.swift:571-581 | Removes a suffix; too many is an error that changes nothing |
| `ListEditing.List.InsertOwnSlice` | To Do List Realm/Pods/RealmSwift/RealmSwift/List.swift:588-594 | What inserting a slice of the list into the list itself really inserts, as the slice is read while the list changes; outside the list a slice that is not empty raises and changes nothing |
| `ListEditing.OwnSliceIff` | To Do List Realm/Pods/RealmSwift/RealmSwift/List.swift:588-594 | That is what the slice held before exactly if the slice repeats itself at the distance to the index, in particular if it ends before it |
| `ListEditing.SplicedBack` | To Do List Realm/Pods/RealmSwift/RealmSwift/List.swift:490-498 | A replacement is undone by replacing the new items with the old ones |
| `ListEditing.SplicedFails` | To Do List Realm/Pods/RealmSwift/RealmSwift/List.swift:490-498 | A replacement raises exactly if there is something to do out of bounds, and then changes the list exactly if the range starts inside and ends behind it |
| `ListEditing.List.Insert` | To Do List Realm/Pods/RealmSwift/RealmSwift/List.swift:302-305 | Inserts at an index, or raises out of bounds and changes nothing |
| `ListEditing.List.Remove` | To Do List Realm/Pods/RealmSwift/RealmSwift/List.swift:316-319 | Removes at an index, or raises out of bounds and changes nothing |
| `ListEditing.SplicedAt` | To Do List Realm/Pods/RealmSwift/RealmSwift/List.swift:490-498 | Item by item what a replacement leaves, and what is left of the list if it fails |
| `Handles.RunIsLinear` | To Do List Realm/Pods/Realm/include/impl/collection_notifier.hpp:254-296 | Over every run of handle operations, self-assignment included, a notifier is held at most once, and has been unregistered once if no handle holds it and never otherwise |
| `Handles.AllUnregisteredAtEnd` | To Do List Realm/Pods/Realm/include/impl/collection_notifier.hpp:262-262 | When all handles are gone every notifier has been unregistered exactly once |
| `Handles.Handle.AssignMove` | To Do List Realm/Pods/Realm/include/impl/collection_notifier.hpp:275-280 | Lets go of what was held, takes over what the other held; moved to itself it ends up empty and unregistered once |
| `Handles.Handle.AssignCopy` | To Do List Realm/Pods/Realm/include/impl/collection_notifier.hpp:266-272 | Only lets go of what was held, and does nothing on itself |
| `Handles.World.Perform` | To Do List Realm/Pods/Realm/include/impl/collection_notifier.hpp:254-296 | Handles and notifiers as objects do what the numbered state machine says |
| `Handles.Execute` | To Do List Realm/Pods/Realm/include/impl/collection_notifier.hpp:254-296 | Any sequence of operations run on the objects ends in a linear state |
| `Handles.Handle.Reset` | To Do List Realm/Pods/Realm/include/impl/collection_notifier.hpp:289-295 | Unregisters what is held exactly once and holds nothing |
| `Handles.Handle.CopyOf` | To Do List Realm/Pods/Realm/include/impl/collection_notifier.hpp:264-265 | A copy holds nothing |
| `Handles.Handle.MovedFrom` | To Do List Realm/Pods/Realm/include/impl/collection_notifier.hpp:274-274 | Takes over what the other handle held, which then holds nothing |
| `Handles.Handle.AssignShared` | To Do List Realm/Pods/Realm/include/impl/collection_notifier.hpp:282-287 | Lets go of what was held and holds the pointer given, null and the notifier already held included |
| `Handles.AdoptingBreaks` | To Do List Realm/Pods/Realm/include/impl/collection_notifier.hpp:282-287 | Assigning a notifier that has entered a handle before, held or not, always breaks linear ownership, so pointers from outside have to be new |
| `Handles.StepLinear` | To Do List Realm/Pods/Realm/include/impl/collection_notifier.hpp:254-296 | Every single operation keeps notifiers held at most once and unregistered exactly when let go of |
| `Handles.StepDoes` | To Do List Realm/Pods/Realm/include/impl/collection_notifier.hpp:254-296 | What each handle holds after every operation, and which notifier is unregistered by it, once |
| `Transactions.Realm.WriteBlock` | To Do List Realm/Pods/RealmSwift/RealmSwift/Realm.swift:152-161 | Begin, run, and cancel or commit what is still open refine the specification of the block form |
| `Transactions.RanFollows` | To Do List Realm/Pods/RealmSwift/RealmSwift/Realm.swift:152-161 | Every block, with nested begin, commit, cancel and write, keeps live and committed data equal outside transactions, committed data unchanged without a commit, and everything unchanged after a failed commit until it cancels |
| `Transactions.WriteEndsOutside` | To Do List Realm/Pods/RealmSwift/RealmSwift/Realm.swift:152-161 | Started outside a transaction it ends outside one with live data equal to committed data, exactly unless its transaction is open at the end of the block and the block neither throws nor can be committed |
| `Transactions.ThrowingLeavesData` | To Do List Realm/Pods/RealmSwift/RealmSwift/Realm.swift:154-159 | A block that throws without having committed leaves live and committed data as they were |
| `Transactions.ReturningCommitsAll` | To Do List Realm/Pods/RealmSwift/RealmSwift/Realm.swift:160-160 | A block that returns without having committed or cancelled has all its effects committed, as one transaction, exactly unless a commit tried inside it failed |
| `Transactions.FailedCommitStaysOpen` | To Do List Realm/Pods/Realm/include/core/realm/group_shared.hpp:110-146 | If the commit of the block form fails nothing is committed and its transaction stays open: every later use of the block form raises, a block changes nothing unless it cancels, and cancelling brings back the data last committed |
| `Transactions.NestedWriteRaises` | To Do List Realm/Pods/Realm/Realm/ObjectStore/src/shared_realm.cpp:593-600 | Writing inside an open transaction raises an exception that nothing catches, and the transaction stays open |
| `Transactions.Realm.BeginWrite` | To Do List Realm/Pods/Realm/Realm/ObjectStore/src/shared_realm.cpp:593-624 | Starts a transaction, or raises inside one |
| `Transactions.Realm.CommitWrite` | To Do List Realm/Pods/Realm/Realm/RLMRealm.mm:594-610 | Makes the live data the committed data, or throws and leaves the transaction open and failed; after a failure it is not allowed again |
| `Transactions.Realm.CancelWrite` | To Do List Realm/Pods/Realm/Realm/ObjectStore/src/shared_realm.cpp:639-649 | Makes the committed data the live data, also after a failed commit, or raises outside a transaction |
| `Transactions.Realm.Perform` | To Do List Realm/Pods/RealmSwift/RealmSwift/Realm.swift:152-161 | One action of a block does what its specification says, which `PutDoes` to `CatchDoes` state for each action |
| `Transactions.CommitInside` | To Do List Realm/Pods/RealmSwift/RealmSwift/Realm.swift:152-161 | A block of stores that commits by itself returns with the last value stored live and committed, in one commit, with nothing left to do at the end |
| `Transactions.CancelInside` | To Do List Realm/Pods/RealmSwift/RealmSwift/Realm.swift:152-161 | A block of stores that cancels by itself leaves the data as it was |
| `Transactions.ThrowInside` | To Do List Realm/Pods/RealmSwift/RealmSwift/Realm.swift:154-159 | A block of stores that throws leaves the data as it was, with one cancellation |
| `Transactions.StoresAreCommitted` | To Do List Realm/Pods/RealmSwift/RealmSwift/Realm.swift:160-160 | A block of stores has its last value committed, or, if the commit fails, nothing committed and the transaction left open |
| `Transactions.PutDoes` | To Do List Realm/Pods/Realm/Realm/ObjectStore/src/shared_realm.cpp:593-649 | A store takes effect in an open transaction only, and raises outside one |
| `Transactions.BeginDoes` | To Do List Realm/Pods/Realm/Realm/ObjectStore/src/shared_realm.cpp:593-624 | A transaction begins exactly where none is open, changing no data |
| `Transactions.CommitDoes` | To Do List Realm/Pods/Realm/Realm/RLMRealm.mm:594-610 | A commit makes the live data the committed data and ends the transaction; outside one, or if it fails, it throws |
| `Transactions.CancelDoes` | To Do List Realm/Pods/Realm/Realm/ObjectStore/src/shared_realm.cpp:639-649 | A cancellation brings back the committed data and ends the transaction, a failed one too |
| `Transactions.CatchDoes` | To Do List Realm/Pods/RealmSwift/RealmSwift/Realm.swift:152-161 | Throwing changes nothing; catching keeps the effects of its block and stops thrown errors only |
| `Transactions.BlockDoes` | To Do List Realm/Pods/RealmSwift/RealmSwift/Realm.swift:152-161 | Actions are done in order, and the first that does not return ends the block |
| `Observation.ObservationInfo.ForEach` | To Do List Realm/Pods/Realm/include/RLMObservation.hpp:115-130 | From any record of a chain of any length: the records before it, nearest first, then itself and those after it |
| `Observation.VisitsOnce` | To Do List Realm/Pods/Realm/include/RLMObservation.hpp:115-130 | That is every record of the chain exactly once |
| `Observation.ClassInfo.SetRow` | To Do List Realm/Pods/Realm/Realm/RLMObservation.mm:140-155 | A record joins the chain of its row behind the first one, or starts one; all chains stay well linked |
| `Observation.ClassInfo.Destroy` | To Do List Realm/Pods/Realm/Realm/RLMObservation.mm:66-93 | A record leaves its chain, and if it was the first one the next takes its place in the class's list; all chains stay well linked |
| `Observation.ClassInfo.Notify` | To Do List Realm/Pods/Realm/Realm/RLMObservation.mm:107-118 | A change of a row calls back every record of that row exactly once, whichever record it starts from |
| `Observation.NewestBehindFirst` | To Do List Realm/Pods/Realm/Realm/RLMObservation.mm:140-155 | Records that join one after the other are chained as the first and then the newest first |
| `Observation.ObservationInfo.LinkBehind` | To Do List Realm/Pods/Realm/Realm/RLMObservation.mm:144-152 | Linking behind the first record keeps the chain linked both ways |
| `Observation.ObservationInfo.Unlink` | To Do List Realm/Pods/Realm/Realm/RLMObservation.mm:66-83 | Unlinking a record links its neighbours to each other |
| `ToDo.RunCounts` | To Do List Realm/To Do List Realm/ToDoListItems.swift:71-113 | Over every run the committed items of a list are its committed adds minus its committed deletes, for each list and in total |
| `ToDo.RunKeepsOthers` | To Do List Realm/To Do List Realm/ToDoListItems.swift:88-107 | As long as a list's screen is not open its committed items stay the same |
| `ToDo.RunConserves` | To Do List Realm/To Do List Realm/ToDoLists.swift:88-108 | With fresh list ids, the items of existing lists and those that deleted lists leave behind add up to committed adds minus committed deletes |
| `ToDo.NewListIsEmpty` | To Do List Realm/To Do List Realm/ToDoLists.swift:88-92 | A new list shows no items, also none of a deleted list |
| `ToDo.OthersKeepOrder` | To Do List Realm/Pods/Realm/Realm/RLMObjectStore.mm:178-193 | Deleting an item keeps the order another list shows exactly if the last row is not that list's or all its items behind the deleted row are equal to it |
| `ToDo.DeletingReorders` | To Do List Realm/Pods/Realm/Realm/RLMObjectStore.mm:186-189 | Three items for which deleting the one of a list swaps the two that another list shows |
| `ToDo.StepEffect` | To Do List Realm/To Do List Realm/ToDoLists.swift:94-108 | An event either commits exactly what it saves or leaves the committed data alone |
| `ToDo.Screens.AddToDoListItem` | To Do List Realm/To Do List Realm/ToDoListItems.swift:71-107 | The handler refines its step: guards, filter by list id, one transaction |
| `ToDo.Screens.EditToDoListItem` | To Do List Realm/To Do List Realm/ToDoListItems.swift:171-204 | The handler refines its step |
| `ToDo.Screens.DeleteToDoListItem` | To Do List Realm/To Do List Realm/ToDoListItems.swift:220-253 | The handler refines its step |
| `ToDo.Screens.RenameToDoList` | To Do List Realm/To Do List Realm/ToDoListItems.swift:294-329 | The handler refines its step |
| `ToDo.Screens.AddToDoList` | To Do List Realm/To Do List Realm/ToDoLists.swift:71-108 | The handler refines its step |
| `ToDo.Screens.DeleteToDoList` | To Do List Realm/To Do List Realm/ToDoLists.swift:157-190 | The handler refines its step, so it deletes the list that `DeleteListDoes` names |
| `ToDo.ChangeCounts` | To Do List Realm/To Do List Realm/ToDoListItems.swift:88-107 | One event changes the number of committed items of a list by one add or one delete on its own screen, and not otherwise |
| `ToDo.OthersKeep` | To Do List Realm/To Do List Realm/ToDoListItems.swift:88-107 | One event on another screen leaves the committed items of a list the same |
| `ToDo.ListedAndOrphans` | To Do List Realm/To Do List Realm/ToDoLists.swift:157-190 | Every item belongs to exactly one existing list or was left behind by a deleted one |
| `ToDo.Screens.SelectToDoList` | To Do List Realm/To Do List Realm/ToDoLists.swift:145-155 | Opening a list's screen fixes the list id its items are filtered by |
| `ToDoEffects.AddListDoes` | To Do List Realm/To Do List Realm/ToDoLists.swift:71-108 | With a name and an open realm exactly that list is added behind the others, committed at once or left uncommitted if the commit fails; otherwise nothing happens |
| `ToDoEffects.DeleteListDoes` | To Do List Realm/To Do List Realm/ToDoLists.swift:157-190 | Exactly the list at the row goes, the last one takes its place, and no item goes |
| `ToDoEffects.OpenListDoes` | To Do List Realm/To Do List Realm/ToDoLists.swift:145-155 | The screen opened is that of the list at the row |
| `ToDoEffects.RenameListDoes` | To Do List Realm/To Do List Realm/ToDoListItems.swift:294-329 | The open list gets the new name and keeps its id and place, all other lists and the items stay |
| `ToDoEffects.AddItemDoes` | To Do List Realm/To Do List Realm/ToDoListItems.swift:71-107 | The open list shows the new item behind the others; other lists show the same |
| `ToDoEffects.EditItemDoes` | To Do List Realm/To Do List Realm/ToDoListItems.swift:171-204 | The item shown at the row is renamed in place, and nothing else that any list shows changes |
| `ToDoEffects.DeleteItemDoes` | To Do List Realm/To Do List Realm/ToDoListItems.swift:220-253 | The item shown at the row goes, and every list keeps its other items |

## Left out

- UpsertIdempotent.UpsertIsIdempotent: one direction in general; the exact condition is given for values in which one link names the object itself (`SelfNamingIff`). Objects without keys are created anew each time and are left out.
- UpsertIdempotent.SelfNamingIff: what the repeated object gives to properties left to a default is scalar.
- UpsertKeyedMap.UpsertIsKeyedMapUpdate: for values in which no type and key occur twice, and defaults whose objects have no keys, as a default that holds one changes an object that the value does not name (`UpsertNamedDefault.DefaultChangesOther`). What holds without these conditions is stated by `UngivenRest` and `CreateKeeps`.
- UpsertDepth.CreatedFits: with keys only for the value itself, as a default is not pulled in for an object that exists.
- Handles.Execute: a pointer taken over by assignment from outside is always a new notifier, as each enters through one handle.
- Stack: the recursion of creation carries a depth that models the call stack; a value deeper than it ends in an overflow error.
- Columns are addressed by property name, not by column number, so the layout of a row is a map.
- Setting null on a list of nullable values goes to a core call on a list column whose effect is not part of this model; it is an error that changes nothing.
- Computed linking-objects properties are not read; writing one is a read-only error.
- The synchronised variants of creation, the change hooks, thread checks and file opening.
- Migrations: a flag that only lifts the checks it lifts in the code. That duplicates are gone at the end of a migration is checked elsewhere and not part of this model.
- UpsertSucceeds.SucceedsIff: exact without defaults and where properties may be missing, as accessors for dictionaries allow; with defaults `CreateSucceeds` and `CreatedConforms` are its two halves. Managed objects are left out of the second half, as a row that is out of range at first can come into range while the value is written.
- UpsertInsertIff.InsertIff: the same, and outside migrations; with defaults its halves are `InsertSucceeds`, and `CreatedConforms` with `InsertedIsNew`.
- UpsertFailures.NestedStored: for creation with update.
- Bit layout of property types: a type is a base with an array and a nullable flag.
- Sizes: `size_t` is a natural number without wrap-around, and the chunk size an even constant of at least two, as both configurations have it.
- Iterators of index sets are values, a chunk number and an offset; invalidated ones are not modelled.
- IndexSets.IndexSet.RemoveAll: the set removed is not the set itself, as the code then steps an iterator over chunks it changes; the other operations on two sets allow it.
- IndexSets.IndexSet.Count: with the end before the start the code returns the negative distance as an unsigned number; the model returns the distance itself.
- The initializer-list constructor of index sets, which adds one index after the other.
- Dates are exact reals; rounding of floating-point numbers is not modelled, infinities and not-a-number are.
- Type errors of list elements, and the closed-range and all-indices forms of the range edits, which forward to the half-open one.
- Calling `removeFirst` or `removeLast` with a negative number stops the process; the model ends the call there.
- What the core does when a commit fails is not part of this model; it is taken as its header documents it, and a call the header rules out afterwards ends the block with nothing said of what follows. The screens still read the data they wrote.
- Notifications, refresh and other threads around a write transaction.
- Observation: moving row numbers when rows are deleted, cached objects, and an observer that releases records during a callback.
- The screens: table views, alerts and titles; a list open on screen is not deleted meanwhile.
- Schema comparison, queries, sorting, aggregates, results and all sync and permission code: declarations or forwards.
