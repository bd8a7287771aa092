# MyMongoDb: filter construction and upsert reconciliation

A Dafny model of `MyMongoDb`, the generic document-store layer of MongoDBTesting.
It models the layer's own decisions. These are:

- how `GetFilter` turns an object of any record type into a query filter, in
  its identity-only and full-equality modes;
- the guards, exception handling and result selection of `Create`,
  `CreateMany`, `Read`, `Update` and `Delete`;
- how `Update` writes an upserted id back into the caller's object.

Reflection is replaced by an explicit record type: an ordered list of named,
typed properties (`Records.RecordType`). The identity trait is still found by
name. It is the name of the first property of `MongoIdentity` (`MongoId`), and
any property with that name counts, whatever its type.

The MongoDB driver is not modelled. Each operation returns the request it
sends (`InsertOne`, `InsertMany`, `Find`, `ReplaceOne`, `DeleteOne`), or
`None` when it fails before any round trip. It takes the driver's reply as a
parameter. That reply is an acknowledgement, an optional upserted id, a
document list, or "threw".

`Filters.Matches` gives filters a meaning: equality on the document's top-level
fields. It is used to state that a match-all filter selects every document, and
to restate the by-id and by-name lookups that the repository's tests expect.

Files: `wrappers.dfy` (Option, Result), `bson.dfy` (ObjectId, values),
`records.dfy` (record types, the identity trait, caller objects), `filters.dfy`
(the two filter modes and their properties), `store.dfy` (the `MyMongoDb`
class).

The model follows the code:

- The operations return `bool` or a nullable list, not typed errors. Create
  with a null item is a plain `false`.
- The identity trait is a name check only; a property named `MongoId` of any type passes it.
- Only a property whose type is exactly `ObjectId` has `ObjectId.Empty`
  skipped. An `ObjectId?` property holding `ObjectId.Empty` does enter the
  filter (`NullableEmptyObjectIdFiltered`).
- `Update` also returns `false`, after the write, when the upserted id is not
  an ObjectId or the `MongoId` property cannot hold one.
- `Delete` has no identity check of its own. `GetFilter` throws instead, with
  the same outcome.

## Model

| member | source | states |
|---|---|---|
| `Records.IndexOfName` | MongoDBTesting/MyMongoDb.cs:65-66 | a property with the name exists iff the lookup finds one; what it finds has that name and is the first such |
| `Records.IndexOfOwnName` | MongoDBTesting/MyMongoDb.cs:122-123 | with distinct property names, GetProperty(name) finds exactly the property of that name |
| `Records.HasIdentity` | MongoDBTesting/MyMongoDb.cs:119-120 | the type has the identity trait iff looking up the name MongoId among its properties finds one |
| `Records.IdentityIndex` | MongoDBTesting/MyMongoDb.cs:75-76 | for a type with the identity trait, the MongoId property's position is in range and carries the name MongoId |
| `Records.DefaultValue` | MongoDBTesting/MongoIdentity.cs:9 | a fresh object's property value is admitted by its type, and is null exactly when the type is not a plain value type (ObjectId defaults to ObjectId.Empty) |
| `Records.DefaultInstance` | MongoDBTestingTests/MyMongoDbTests.cs:122 | `new T()` conforms to T and holds each property's default value |
| `Filters.Contributes` | MongoDBTesting/MyMongoDb.cs:128-131 | the per-property test; a property left at its default value contributes iff it is a plain int or DateTime |
| `Filters.Predicates` | MongoDBTesting/MyMongoDb.cs:125-134 | filterList has at most one entry per property and never an equality on null |
| `Filters.Contributing` | MongoDBTesting/MyMongoDb.cs:126-133 | the contributing positions are in range, strictly ascending (declaration order), contain every non-null property value that is not an empty ObjectId, and nothing else |
| `Filters.PredicatesFollowContributing` | MongoDBTesting/MyMongoDb.cs:125-134 | filterList has one entry per contributing property, in order, and each entry is Eq(that property's name, its value) |
| `Filters.PredicateMembership` | MongoDBTesting/MyMongoDb.cs:128-132 | Eq(name, v) is in filterList iff some property named `name` holds `v`, which is non-null and not an empty ObjectId |
| `Filters.FullFilter` | MongoDBTesting/MyMongoDb.cs:135 | the full-equality filter is Empty or an And of at least one predicate, never an And of nothing |
| `Filters.FullFilterEmptyIff` | MongoDBTesting/MyMongoDb.cs:125-135 | the full filter is match-all Empty iff no property contributes (both directions) |
| `Filters.IdentityFilter` | MongoDBTesting/MyMongoDb.cs:117-124 | identity-only mode fails with a missing-identity error naming the type iff the type has no MongoId property; otherwise it is _id == that property's value, even when that value is ObjectId.Empty |
| `Filters.FullFilterMatches` | MongoDBTesting/MyMongoDb.cs:125-135 | a document matches the filter built from a probe iff it agrees with the probe on every contributing property |
| `Filters.AllNullMatchesEverything` | MongoDBTesting/MyMongoDb.cs:135 | an all-null probe yields Empty, the same filter Read uses with no probe, and it matches every document |
| `Filters.ObjectIdFieldFiltered` | MongoDBTesting/MyMongoDb.cs:130-132 | an ObjectId-typed property holding an id puts a predicate on its name iff the id is not ObjectId.Empty |
| `Filters.NullableEmptyObjectIdFiltered` | MongoDBTesting/MyMongoDb.cs:130-132 | an ObjectId? property holding ObjectId.Empty is not skipped, because its type is not typeof(ObjectId) |
| `Filters.DefaultProbeMatchesAllIff` | MongoDBTesting/MyMongoDb.cs:128-135 | `new T()` as a filter is match-all iff T has no plain int or DateTime property, since boxed non-nullable values are never null |
| `Filters.SingleFieldProbeMatches` | MongoDBTestingTests/MyMongoDbTests.cs:144-148 | a fresh object with one property set selects exactly the documents holding that value there |
| `Filters.ByIdSelectsOne` | MongoDBTestingTests/MyMongoDbTests.cs:122-125 | filtering with `new T { MongoId = id }` over documents with distinct ids selects exactly the one with that id |
| `Store.AfterReplace` | MongoDBTesting/MyMongoDb.cs:73-78 | Update succeeds iff the write is acknowledged and any UpsertedId is an ObjectId the MongoId property can hold; on such a success MongoId is set to the upserted id; nothing else ever changes, nothing changes on failure, and the object stays well-typed |
| `Store.UpsertBackfillsIdentity` | MongoDBTesting/MyMongoDb.cs:74-77 | after an acknowledged upsert of any id the MongoId property can hold (ObjectId.Empty and ObjectId? included), the update succeeds and the object's identity filter targets that id; for a plain ObjectId MongoId and a non-empty id, a full-equality Read with it constrains MongoId to that id |
| `Store.MyMongoDb.constructor` | MongoDBTesting/MyMongoDb.cs:11-14 | the store keeps the database handle it is given |
| `Store.MyMongoDb.CollectionOf` | MongoDBTesting/MyMongoDb.cs:20 | every operation's collection is on the store's own database, named by the record type's name |
| `Store.MyMongoDb.CollectionPerTypeName` | MongoDBTesting/MyMongoDb.cs:20 | two record types share a collection iff they have the same name |
| `Store.MyMongoDb.GetFilter` | MongoDBTesting/MyMongoDb.cs:115-136 | identity-only mode gives IdentityFilter (and fails for a null object); full-equality mode gives FullFilter of the object's values, built by the foreach loop |
| `Store.MyMongoDb.Create` | MongoDBTesting/MyMongoDb.cs:16-28 | one InsertOne into the type's collection; true iff the item is non-null and the driver does not throw |
| `Store.MyMongoDb.CreateMany` | MongoDBTesting/MyMongoDb.cs:30-44 | a null element means false and no insert; otherwise one InsertMany of all items, true iff the driver does not throw |
| `Store.MyMongoDb.Read` | MongoDBTesting/MyMongoDb.cs:46-59 | Find with Empty for a null filter, else with the full-equality filter; null iff the driver throws, else the driver's documents |
| `Store.MyMongoDb.Update` | MongoDBTesting/MyMongoDb.cs:61-85 | no MongoId property or a null item means false and no round trip; otherwise an upserting ReplaceOne on _id == the old MongoId, and the result and new values are AfterReplace's |
| `Store.MyMongoDb.Delete` | MongoDBTesting/MyMongoDb.cs:87-100 | DeleteOne on _id == the item's MongoId (none for a null item or a type without MongoId); true iff acknowledged, whatever the deleted count |

## Left out

- `GetDatabase` and `GetClient` (MyMongoDb.cs:102-113): connection setup and I/O.
- `Debug.WriteLine`: logging output only.
- The driver's own behaviour is not modelled: upserts, id generation, duplicate-key rejection, batch atomicity, and the driver writing a generated id into the object during `InsertOne`/`InsertMany`. Replies are parameters, so `Create` and `CreateMany` leave the item's values unchanged in the model.
- Store.MyMongoDb.Create: a null item is modelled as failing before any round trip. In the code it is the driver's argument check inside `InsertOne` that throws; the repository's test `CreateTest_CreatingNullPersonReturnsFalse` (MyMongoDbTests.cs:43-48) expects `false`.
- Store.MyMongoDb.CreateMany: a null `items` collection itself (not a null element) is not modelled. In the code the `Contains` call throws and the result is `false`.
- Reflection details are not modelled: property getters and setters are taken to exist and not to throw, except that a setter throws on a value its property's type cannot hold (modelled in `Store.AfterReplace`), and `GetProperties` order is the order of the property list. Names are assumed distinct, so `GetProperty` is never ambiguous (a property hidden with `new` would make it throw).
- Records.DefaultInstance: `new T()` is modelled as every property at its type's default; property initialisers and constructor bodies are not modelled (PersonTest, OrgTest and MongoIdentity have none). `DefaultProbeMatchesAllIff`, `SingleFieldProbeMatches` and `ByIdSelectsOne` hold for types without them.
- Store.MyMongoDb.Update: a `MongoId` property without a setter is not modelled. In the code `SetValue` then throws after the write and `Update` returns `false`; the model returns `true` and writes the id.
- BSON values are a subset: ObjectId, 32-bit int, string, DateTime ticks, and arrays. Nested record properties and other property types are not modelled.
- Filters.Matches: the driver's matching is modelled only as plain equality of top-level values. MongoDB equality on an array field also matches a stored array that merely contains the probe value as an element, so for list properties the "only if" half of `FullFilterMatches` and `SingleFieldProbeMatches` is stronger than what the server does.
- Filters.Matches: `_id` is read as the `MongoId` property. That holds for types deriving from `MongoIdentity`, where `[BsonId]` marks it. A type with a `MongoId` property but no `[BsonId]` maps `_id` elsewhere; this is not modelled.
- Concurrency and timeouts: each operation is one sequential round trip.
