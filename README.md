# arm (Odin ORM) — a Dafny model of its core

This project models the core of a TypeScript ORM for MongoDB. Models declare a
schema of type validators and relations to other models. A fluent query builder
collects filters, joins and aggregation stages. A driver turns them into the
commands it sends to a MongoDB collection. The model covers:

- **Type validators** (`types.dfy`, module `Types`):
  - `TypeAny` and the array type are a builder class with casts, tests, `required` and a default;
  - `validate` is a pure function, plus a loop method that is proved equal to it;
  - `of(type)` together with `min`/`max`/`length`.
- **Model validation** (`model.dfy`, module `Models`):
  - the schema a model class validates against: `id`, the user schema, timestamps, soft delete;
  - the recursive check of a document against nested schemas;
  - the dotted error keys;
  - the pruning of "Must be provided" errors on update;
  - the update stamp;
  - the model constructor's `isNew`, and `getAttribute` over a dotted path.
- **Filters** (`filter.dfy`, module `Filtering`): the `$and`/`$or` tree that `where`,
  `orWhere`, the group forms and the `whereXxx` helpers build; its read-back view.
- **Identifiers and documents** (`ids.dfy`, `documents.dfy`):
  - `prepareKey`/`prepareValue` and the operator table;
  - the recursive `_prepareToRead`/`_prepareToStore` rewriting between `id` and `_id`, with round trips.
- **The MongoDB driver** (`driver.dfy`, module `MongoDriver`):
  - the `Driver` class with its filter, pipeline and mapper lists;
  - the `$lookup` stage built by `join`;
  - the commands built by `get`, `first`, `max`/`min`/`avg`, `count`, `exists`, `insert`,
    `insertGetId`, `update`, `increment` and `delete`.
- **Query routing** (`query_builder.dfy`, module `QueryRouting`; `relation_paths.dfy`, module `RelationPaths`):
  - `generateRelations` and `with`;
  - `findBy`/`find`/`destroy`/`create`;
  - the instance `save`/`delete`/`restore`.
- **Relations** (`relations.dfy`, module `Relations`; `strict_one.dfy`, module `StrictOne`):
  - key defaults;
  - how `hasMany`/`embedMany` `load` and `loadCount` rewrite a query into nested joins;
  - the MongoDB `hasOne` join;
  - the morph discriminator;
  - the `hasOne`/`morphOne` guards.

JavaScript values are one datatype, `Json.Value`. Objects are ordered association
lists with JavaScript assignment semantics (`Assoc.Put` overwrites a key in place or
appends it).

The store is not modelled. What it answers (rows, counts, the inserted id) is a
parameter of the operation that reads the answer. The clock is a parameter `now`.

### Where the code and the intended design differ (the model follows the code)

- **Defaults on update.** A validator substitutes its default for an `undefined` value on update as well. `Model.validate` passes `updating` to `validate`, which ignores it.
- **`skip`, `limit` and `orderBy` accumulate.** Each one appends a pipeline stage rather than replacing an earlier one.
- **Array casts run first.** `of(type)` registers its test before its cast, but every cast runs before every test. The test therefore validates the already cast items (`Types.OfValidatesItems`).
- **`whereNotBetween` is not two `orWhere` calls.** It is an `_where` followed by an `_or_where`. On a fresh builder that nests the `lt` leaf in an `$and`, whereas two `orWhere` calls keep the empty `$and` (`Filtering.NotBetweenFresh`, `Filtering.NotBetweenIsNotTwoOrWheres`).
- **Pivot detection in `join`.** The pattern is `^<table>..+`, so its first `.` matches any character, and only the text after the first split dot becomes the pivot key. The default join query compares with the literal `"<table>.id"`.
- **Ids read back in lower case.** An id string in upper-case hex becomes an ObjectId when stored and is read back in lower case.
- **Other valid ids come back changed.** bson accepts any number and any 12-character string as an ObjectId. A 12-character id under an id key is stored as the ObjectId of its bytes and read back as their 24-digit hex text (`Documents.TwelveCharacterIdChanges`).
- **Regular expressions in documents become `{}`.** The rewriting walks into every non-`Date` object. A regular expression has no enumerable property of its own, so it is stored and read as an empty object (`Documents.PatternBecomesEmptyObject`).
- **`loadCount` and empty segments.** An empty path segment ends the descent (`if (subRelation)`).
- **Positional arguments shift.** `hasMany.load` hands `withTrashed` to each child as its first extra argument, which an `embedMany` child reads as its filter (`Relations.TrashFlagLandsInEmbedFilter`, `Relations.CountThroughEmbedShiftsArguments`).
- **Callback-form `save` of `hasOne`/`morphOne`.** It reads `id` of the answer without checking that a row exists (`StrictOne.SaveWithCallback`).

## Model

| member | source | states |
|---|---|---|
| Types.Validate | src/types/Any.ts:62-101 | any error list it reports is non-empty (`errors: null` otherwise) |
| Types.ValidItems | src/types/Array.ts:26 | the cast of `of(type)` keeps the number of items |
| Types.Base | src/types/Array.ts:11-15 | no contract of its own: `_base` of each kind. `BaseChecks` and `BaseErrorStops` state its messages and their effect |
| Types.Compact | src/types/Any.ts:89 | no contract of its own: `compact` of the test results. `CompactSpec` states that it keeps exactly the raised messages |
| Types.CastAll | src/types/Any.ts:72 | no contract of its own: the casts applied in turn. `ErrorsAreRaisedTests` and `AddedCastRunsLast` state the cast value |
| Types.ApplyCast | src/types/Array.ts:26 | no contract of its own: one cast. `ValidItemsAt` and `OfValidatesItems` state the element cast |
| Types.TestResult | src/types/Array.ts:23-50 | no contract of its own: one test. `ArrayBounds`, `ItemErrorsFirst` and `ResultsAt` state its message |
| Types.ItemErrors | src/types/Array.ts:24 | no contract of its own: the flattened element errors. `ItemErrorsEmpty`, `ItemErrorsFirst` and `ItemErrorsNonEmpty` state them |
| Types.TypeAny.constructor | src/types/Any.ts:10-18 | a fresh type: no casts, no tests, not required, no default |
| Types.TypeAny.Required | src/types/Any.ts:38-42 | sets `required`, nothing else changes |
| Types.TypeAny.AddCast | src/types/Any.ts:26-30 | appends the cast, nothing else changes |
| Types.TypeAny.AddTest | src/types/Any.ts:32-36 | appends the test, nothing else changes |
| Types.TypeAny.DefaultBy | src/types/Any.ts:44-49 | a function value becomes the default producer |
| Types.TypeAny.DefaultTo | src/types/Any.ts:44-56 | a value the base check refuses is rejected with `The given value must be of "<Class>" type` and the default is unchanged; any other value becomes the constant default |
| Types.TypeAny.Of | src/types/Array.ts:17-27 | records the element type and appends one element test and one element cast |
| Types.TypeAny.BoundError | src/types/Array.ts:30-32 | no error iff `n` is a number `>= 0`; otherwise the two messages, in that order |
| Types.TypeAny.Bound | src/types/Array.ts:29-51 | a bad `n` throws and adds no test; a good one appends exactly that test |
| Types.TypeAny.Min | src/types/Array.ts:29-35 | a bad `n` throws; otherwise appends the minimum-items test |
| Types.TypeAny.Max | src/types/Array.ts:37-43 | a bad `n` throws; otherwise appends the maximum-items test |
| Types.TypeAny.Length | src/types/Array.ts:45-51 | a bad `n` throws; otherwise appends the exact-items test |
| Types.TypeAny.ValidateValue | src/types/Any.ts:62-101 | the step-by-step validation (cast loop, test loop, compaction) equals `Validate` of the builder's current state |
| Types.CompactResults | src/types/Any.ts:89 | the loop equals `Compact` of the test results |
| Types.DefaultOnlyForUndefined | src/types/Any.ts:62 | `undefined` is replaced by the default, `null` is not |
| Types.AbsentIsOnlyRequired | src/types/Any.ts:63-67 | an absent value gives exactly `["Must be provided"]` when required and no error otherwise |
| Types.BaseErrorStops | src/types/Any.ts:69-70 | a base error is the only error and no cast runs |
| Types.BaseChecks | src/types/Array.ts:11-15 | a function fails the any-type base check with "Invalid type"; a non-array fails the array base check with "Must be an array" |
| Types.CompactSpec | src/types/Any.ts:89 | compaction keeps exactly the raised messages, and none is empty |
| Types.ResultsAt | src/types/Any.ts:74-93 | every test runs on the cast value, in order |
| Types.ErrorsAreRaisedTests | src/types/Any.ts:72-100 | the value is the cast value, and a message is reported iff some test raised it |
| Types.PassesIffNoTestRaises | src/types/Any.ts:95 | no errors iff no test raised |
| Types.AddedCastRunsLast | src/types/Any.ts:26-30 | a cast added later applies to the result of the earlier casts |
| Types.AddedTestReportsLast | src/types/Any.ts:32-36 | a test added later sees the same cast value, and its message comes after the earlier ones |
| Types.ArrayBounds | src/types/Array.ts:29-51 | `min`/`max`/`length` report their exact message iff the array is too short, too long or of a different length |
| Types.ValidItemsAt | src/types/Array.ts:26 | each item of the cast is the element type's validated value of that item |
| Types.ItemErrorsEmpty | src/types/Array.ts:24 | the element messages are empty iff every item validates |
| Types.ItemErrorsFirst | src/types/Array.ts:24 | the first element message is the first error of the first failing item |
| Types.OfValidatesItems | src/types/Array.ts:17-27 | `of(type)` maps the items through the element type, and then validates the cast items and reports at most one message |
| Types.ItemErrorsNonEmpty | src/types/Array.ts:24 | no element message is empty |
| Types.ValidateErrorsRaised | src/types/Any.ts:89-100 | no reported message is empty |
| Types.OfReportsFirstFailure | src/types/Array.ts:23-26 | the one message of `of(type)` is the first error of the first failing cast item |
| Models.SpreadFirst | src/Model.ts:45-47 | spreading the user schema over `{ id }` keeps `id` as the first key |
| Models.SpreadGet | src/Model.ts:47 | a spread key reads the user's entry when the user declared it, else the base entry |
| Models.SchemaStartsWithId | src/Model.ts:45-48 | the schema begins with `id` |
| Models.SchemaEntry | src/Model.ts:43-59 | `deleted_at` and `updated_at` get the date type and `created_at` the date type defaulting to now, with later assignments winning; other declared keys keep their types; an undeclared `id` has the id type |
| Models.FullSchema | src/Model.ts:43-59 | its keys are exactly `id`, the class's own keys, `created_at` and `updated_at` when timestamps are on, and `deleted_at` when soft deletes are on |
| Models.SpreadKeys | src/Model.ts:45-48 | the keys of `{ id, ...schema }` are `id` and the schema's keys |
| Models.Check | src/Model.ts:78-113 | no contract of its own: the inner `validator` over a whole schema. `FieldResult`, `NestedResult`, `CheckDistinct` and `CheckOwners` state what it returns |
| Models.CheckFirst | src/Model.ts:82-105 | no contract of its own: the `for…in` loop after its first `k` keys. `FieldAt`, `NestedFirst` and `NestedAt` state what each key adds |
| Models.Prefixed | src/Model.ts:99-101 | no contract of its own: the nested errors copied under dotted keys. `PrefixedDistinct`, `PrefixedOwners`, `PrefixedOther` and `PrefixedOwn` state its keys and values |
| Models.ValidateSchema | src/Model.ts:78-113 | the loop over the schema (with its recursive call for nested objects) equals `Check` |
| Models.PrefixErrors | src/Model.ts:99-101 | the loop equals `Prefixed` |
| Models.Prune | src/Model.ts:117-124 | the loop equals `Pruned` |
| Models.PrefixedDistinct | src/Model.ts:99-101 | prefixing keeps the error keys distinct |
| Models.PrefixedOwners | src/Model.ts:99-101 | after prefixing, every key is an old one or belongs to the nested key |
| Models.PrefixedOther | src/Model.ts:99-101 | keys of other fields are untouched |
| Models.PrefixedOwn | src/Model.ts:99-101 | the nested error of `x` appears under `key.x` |
| Models.CheckDistinct | src/Model.ts:82-105 | the value and error maps have distinct keys |
| Models.CheckOwners | src/Model.ts:82-105 | every value key is a schema key, and every error key belongs to a schema key |
| Models.FieldAt | src/Model.ts:86-92 | after the first `k` fields, a leaf's errors are its validator's errors, and its value is kept iff truthy |
| Models.FieldResult | src/Model.ts:86-92 | the same for the whole schema |
| Models.NestedFirst | src/Model.ts:93-104 | when the nested field is processed, its errors go under dotted keys and its value is kept iff non-empty |
| Models.NestedAt | src/Model.ts:93-104 | the same after any later fields |
| Models.NestedResult | src/Model.ts:93-104 | the same for the whole schema; a missing object is checked as `{}` |
| Models.MissingObjectReportsRequiredChild | src/Model.ts:95 | a missing nested object reports its required child as `parent.child: ["Must be provided"]` |
| Models.PrunedGet | src/Model.ts:117-124 | on update a key keeps its errors iff they are not just `["Must be provided"]`; keys stay distinct and old |
| Models.PrunedOnlyMissing | src/Model.ts:117-124 | when every error is only "Must be provided", nothing is left |
| Models.Pruned | src/Model.ts:117-124 | an entry stays iff its errors are not just `["Must be provided"]`; nothing is added |
| Models.ValidateDocument | src/Model.ts:77-133 | a null or undefined document throws `Cannot read property 'id' of null` (or `of undefined`); any other document throws iff the (pruned, on update) error map is non-empty, and then throws exactly that map; otherwise it returns the value, with `updated_at` set to now on update of a timestamped model and every other key unchanged |
| Models.ValidateModel | src/Model.ts:77-133 | the step-by-step version equals `ValidateDocument` |
| Models.UpdateToleratesMissing | src/Model.ts:117-126 | a present document missing only required values passes on update and is refused with all its errors on insert |
| Models.UpdateReportsOtherErrors | src/Model.ts:117-126 | for a present document on update, any other error still throws under its key |
| Models.Model.constructor | src/Model.ts:139-145 | the attributes are the document, and the model is new iff its `id` is falsy |
| Models.Model.GetAttribute | src/Model.ts:186-188 | a dot-free attribute is that property of the attributes |
| Models.Walk | src/Model.ts:187 | a failing read names a segment of the path and the `null` or `undefined` it was read from |
| Models.WalkConcat | src/Model.ts:187 | walking a concatenated path walks its parts in turn |
| Models.GetAttributeFollowsPath | src/Model.ts:186-188 | a dotted path reads each part in turn |
| Models.GetAttributeTwoLevels | src/Model.ts:186-188 | `a.b` reads `b` of `a`, and throws `Cannot read property 'b' of undefined/null` when `a` is absent |
| MongoIds.PrepareKey | src/drivers/MongoDB/Driver.ts:11 | only `id` changes, to `_id`; whether a key is an id key is kept |
| MongoIds.NewObjectId | src/drivers/MongoDB/Driver.ts:20 | an ObjectId built from an ObjectId is the same id |
| MongoIds.IsValidObjectId | src/drivers/MongoDB/Driver.ts:18 | no contract of its own: bson's `ObjectId.isValid`, which accepts an ObjectId, a number, a 12-character string or 24 hex digits in either case. `PrepareValue`, `StoreId` and `TwelveCharacterIdChanges` state its consequences |
| MongoIds.PrepareValue | src/drivers/MongoDB/Driver.ts:13-21 | non-id fields and invalid ids are unchanged; arrays are converted item by item; a valid id becomes an ObjectId |
| MongoIds.PrepareValueIdempotent | src/drivers/MongoDB/Driver.ts:13-21 | preparing twice is preparing once |
| MongoIds.OperatorName | src/drivers/MongoDB/Driver.ts:23-30 | the six operators map to their Mongo names; anything else to `undefined` |
| MongoIds.Arguments | src/drivers/MongoDB/Driver.ts:317-324 | with no value, the operator is the value and the comparison is equality |
| MongoIds.TwoArgumentWhereIsEquality | src/drivers/MongoDB/Driver.ts:317-324 | `where(f, v)` is `where(f, "=", v)` |
| Documents.IdText | src/drivers/MongoDB/Driver.ts:157-158 | a truthy id is read as its text; a falsy one is kept |
| Documents.PrepareToRead | src/drivers/MongoDB/Driver.ts:146-161 | leaves falsy values, scalars, dates and functions unchanged, keeps an array's length, and reads a regular expression as `{}` |
| Documents.StoreId | src/drivers/MongoDB/Driver.ts:174-178 | a valid id becomes an ObjectId; anything else is prepared recursively |
| Documents.ReadValue | src/drivers/MongoDB/Driver.ts:157-159 | no contract of its own: the value callback of `_prepareToRead`. `ReadObjectFields` states that it maps every field after the rename |
| Documents.StoreValue | src/drivers/MongoDB/Driver.ts:174-180 | no contract of its own: the value callback of `_prepareToStore`. `StoreObjectFields` states that it maps every field after the rename |
| Documents.PrepareToStore | src/drivers/MongoDB/Driver.ts:163-182 | leaves falsy values, scalars, dates and functions unchanged, keeps an array's length, and stores a regular expression as `{}` |
| Documents.ArraysElementwise | src/drivers/MongoDB/Driver.ts:153 | arrays are rewritten item by item in both directions |
| Documents.StoreObjectFields | src/drivers/MongoDB/Driver.ts:172-181 | an object's fields are mapped, then `id` is renamed to `_id` |
| Documents.ReadObjectFields | src/drivers/MongoDB/Driver.ts:155-160 | an object's fields are mapped, then `_id` is renamed to `id` |
| Documents.ReadRenamesThenMaps | src/drivers/MongoDB/Driver.ts:155-160 | the source's order is renaming first, then mapping under the new keys |
| Documents.StoreRenamesThenMaps | src/drivers/MongoDB/Driver.ts:172-181 | the same for storing |
| Documents.ReadLeavesNoUnderscoreId | src/drivers/MongoDB/Driver.ts:146-161 | a read document has no `_id` key at any depth |
| Documents.StoreLeavesNoId | src/drivers/MongoDB/Driver.ts:163-182 | a stored document has no `id` key at any depth |
| Documents.ReadAfterStoreObject | src/drivers/MongoDB/Driver.ts:146-182 | one object level: read after store gives back the object |
| Documents.StoreAfterReadObject | src/drivers/MongoDB/Driver.ts:146-182 | one object level: store after read gives back the object |
| Documents.AppIdRoundTrip | src/drivers/MongoDB/Driver.ts:157-177 | an id that is not a number, not 12 characters long and in lower case if it is 24 hex digits survives being stored and read back |
| Documents.TwelveCharacterIdChanges | src/drivers/MongoDB/Driver.ts:157-177 | a 12-character id is valid, is stored as an ObjectId and is read back as the 24-digit hex of its bytes, never as itself |
| Documents.PatternBecomesEmptyObject | src/drivers/MongoDB/Driver.ts:146-182 | a regular expression under an ordinary key is stored and read as `{}` |
| Documents.StoredIdRoundTrip | src/drivers/MongoDB/Driver.ts:157-177 | a falsy id other than `0`, text that is not a valid id, or an ObjectId of 24 lower-case digits read and stored again is the same |
| Documents.ReadAfterStore | src/drivers/MongoDB/Driver.ts:146-182 | a document with distinct keys, no `_id`, ids that come back as they were, and no regular expression or ObjectId outside an id key survives storing and reading back |
| Documents.StoreAfterRead | src/drivers/MongoDB/Driver.ts:146-182 | a stored document with distinct keys, no `id`, ids that go back as they were, and no regular expression or ObjectId outside an id key survives reading and storing back |
| Filtering.Push | src/drivers/MongoDB/Driver/Filter.ts:32-48 | the same combinator appends the child; the other one wraps the old tree as the first child; exactly one combinator remains |
| Filtering.View | src/drivers/MongoDB/Driver/Filter.ts:19-28 | the read-back tree drops an empty combinator and is otherwise the tree itself |
| Filtering.DriverView | src/drivers/MongoDB/Driver.ts:130-138 | the driver's view drops only an empty `$and` |
| Filtering.ViewsAgree | src/drivers/MongoDB/Driver/Filter.ts:19-28 | on a tree the builders keep, both views agree |
| Filtering.Condition | src/drivers/MongoDB/Driver/Filter.ts:50-59 | a leaf on the prepared key with `$op` and the prepared value |
| Filtering.LikePattern | src/drivers/MongoDB/Driver/Filter.ts:110-120 | the pattern is a regular expression; a given one is kept |
| Filtering.Apply | src/drivers/MongoDB/Driver/Filter.ts:74-146 | every call leaves exactly one combinator |
| Filtering.ApplyAll | src/drivers/MongoDB/Driver/Filter.ts:74-146 | the same for any non-empty chain of calls |
| Filtering.CallsKeepOneCombinator | src/drivers/MongoDB/Driver/Filter.ts:32-48 | a builder always has exactly one of `$and`/`$or` |
| Filtering.AndCallsKeepChildren | src/drivers/MongoDB/Driver/Filter.ts:50-59 | an and-form call on an `$and` tree only appends |
| Filtering.GroupIsOneChild | src/drivers/MongoDB/Driver/Filter.ts:77-100 | a sub-builder's tree becomes one child; under `$or`, `where(fn)` wraps the old tree |
| Filtering.BetweenIsTwoWheres | src/drivers/MongoDB/Driver/Filter.ts:130-133 | `whereBetween` is `where(">=")` then `where("<=")` |
| Filtering.NotBetweenFresh | src/drivers/MongoDB/Driver/Filter.ts:135-138 | on a fresh builder it gives `$or: [{ $and: [lt] }, gt]` |
| Filtering.NotBetweenIsNotTwoOrWheres | src/drivers/MongoDB/Driver/Filter.ts:135-138 | that tree differs from two `orWhere` calls |
| Filtering.FirstOrWhere | src/drivers/MongoDB/Driver/Filter.ts:95-108 | the first `orWhere` keeps the empty `$and` as its first alternative |
| Filtering.Filter.constructor | src/drivers/MongoDB/Driver/Filter.ts:15-17 | starts with an empty `$and` |
| Filtering.Filter.Current | src/drivers/MongoDB/Driver/Filter.ts:19-28 | the getter never returns an empty combinator |
| Filtering.Filter.Where | src/drivers/MongoDB/Driver/Filter.ts:84-89 | the tree becomes `Apply` of the call |
| Filtering.Filter.OrWhere | src/drivers/MongoDB/Driver/Filter.ts:102-107 | the tree becomes `Apply` of the call |
| Filtering.Filter.WhereGroup | src/drivers/MongoDB/Driver/Filter.ts:78-82 | pushes the sub-builder's view under `$and` |
| Filtering.Filter.OrWhereGroup | src/drivers/MongoDB/Driver/Filter.ts:96-100 | pushes the sub-builder's view under `$or` |
| Filtering.Filter.WhereLike | src/drivers/MongoDB/Driver/Filter.ts:110-114 | a `$regex` leaf |
| Filtering.Filter.WhereNotLike | src/drivers/MongoDB/Driver/Filter.ts:116-120 | a `$not` leaf |
| Filtering.Filter.WhereIn | src/drivers/MongoDB/Driver/Filter.ts:122-124 | an `$in` leaf |
| Filtering.Filter.WhereNotIn | src/drivers/MongoDB/Driver/Filter.ts:126-128 | a `$nin` leaf |
| Filtering.Filter.WhereBetween | src/drivers/MongoDB/Driver/Filter.ts:130-133 | two `$and` leaves |
| Filtering.Filter.WhereNotBetween | src/drivers/MongoDB/Driver/Filter.ts:135-138 | an `$and` leaf, then an `$or` leaf |
| Filtering.Filter.WhereNull | src/drivers/MongoDB/Driver/Filter.ts:140-142 | an `$eq: null` leaf |
| Filtering.Filter.WhereNotNull | src/drivers/MongoDB/Driver/Filter.ts:144-146 | an `$ne: null` leaf |
| Filtering.Filter.PushFilter | src/drivers/MongoDB/Driver/Filter.ts:32-48 | the tree becomes `Push` of the child |
| MongoDriver.Aggregation | src/drivers/MongoDB/Driver.ts:426-438 | the pipeline sent is the match on the filter, then the stages in order |
| MongoDriver.SortOrder | src/drivers/MongoDB/Driver.ts:412-414 | `-1` iff the order is `"desc"`, else `1` |
| MongoDriver.Projection | src/drivers/MongoDB/Driver.ts:459-464 | no contract of its own: the `$project` document. `ProjectionContents` states its keys and values |
| MongoDriver.ProjectionContents | src/drivers/MongoDB/Driver.ts:459-464 | the projection hides `_id` first and shows exactly the prepared requested fields |
| MongoDriver.ProjectStages | src/drivers/MongoDB/Driver.ts:459-464 | a projection stage iff fields are given |
| MongoDriver.FirstLimitsBeforeProjecting | src/drivers/MongoDB/Driver.ts:479-486 | `first` limits to one row before projecting |
| MongoDriver.IncrementAmount | src/drivers/MongoDB/Driver.ts:610-614 | a missing count or a callback in its place counts as 1 |
| MongoDriver.AccumulatorName | src/drivers/MongoDB/Driver.ts:513-553 | no contract of its own: the result field of `max`, `min` and `avg`. `GroupStage` states that the accumulator is `$` and that name |
| MongoDriver.InsertCommand | src/drivers/MongoDB/Driver.ts:557-571 | an array goes to `insertMany` item by item, anything else to `insertOne`, both prepared for storing |
| MongoDriver.GroupStage | src/drivers/MongoDB/Driver.ts:513-553 | `$group` over all rows with the accumulator named after the operation |
| MongoDriver.GroupResult | src/drivers/MongoDB/Driver.ts:524 | no rows throws; otherwise the accumulator of the first row |
| MongoDriver.LookupStage | src/drivers/MongoDB/Driver.ts:205-273 | the `$lookup` is from the table, under the alias, with the pivots as `let` |
| MongoDriver.OnStep | src/drivers/MongoDB/Driver.ts:215-249 | no contract of its own: one `on` call. `OnStepLet` states what it does to `let`, and `PartsCount` that it adds one condition |
| MongoDriver.Parts | src/drivers/MongoDB/Driver.ts:210-252 | no contract of its own: `let`, `$expr` and `$match` after all the `on` calls. `PartsCount` and `PartsLet` state them |
| MongoDriver.PartsCount | src/drivers/MongoDB/Driver.ts:214-268 | every `on` adds exactly one condition; `let` keys are distinct and no more than the pivot conditions |
| MongoDriver.OnStepLet | src/drivers/MongoDB/Driver.ts:223-237 | a non-pivot `on` leaves `let` alone; a pivot sets `pivot_<key>` to `$<key>` |
| MongoDriver.PartsLet | src/drivers/MongoDB/Driver.ts:223-237 | `let` holds exactly the pivot variables, each bound to its path |
| MongoDriver.LookupPipeline | src/drivers/MongoDB/Driver.ts:254-272 | the pivot match comes before the plain match, each only when non-empty |
| MongoDriver.OwnerColumn | src/drivers/MongoDB/Driver.ts:223-231 | `<owner>.<column>` is a pivot whose path is the prepared column |
| MongoDriver.RelationJoin | src/drivers/MongoDB/Driver.ts:215-246 | a relation's join compares the prepared foreign key with the pivot of the owner's key |
| MongoDriver.PrefixOfExtension | src/drivers/MongoDB/Driver.ts:223 | a prefix of an extended text is a prefix of the text, or it reaches into the extension |
| MongoDriver.DefaultJoinIsPlainMatch | src/drivers/MongoDB/Driver.ts:207 | the default `on(tableId, "<from>.id")` is a plain match on a literal, not a pivot |
| MongoDriver.Driver.constructor | src/drivers/MongoDB/Driver.ts:122-144 | empty `$and`, no stages, one read mapper |
| MongoDriver.Driver.Call | src/drivers/MongoDB/Driver.ts:277-371 | the filter becomes `Apply` of the call; nothing else changes |
| MongoDriver.Driver.Pipeline | src/drivers/MongoDB/Driver.ts:197-201 | appends the stages |
| MongoDriver.Driver.Map | src/drivers/MongoDB/Driver.ts:375-379 | appends the mapper |
| MongoDriver.Driver.OrderBy | src/drivers/MongoDB/Driver.ts:412-414 | appends a sort stage |
| MongoDriver.Driver.SkipRows | src/drivers/MongoDB/Driver.ts:416-418 | appends a skip stage |
| MongoDriver.Driver.LimitRows | src/drivers/MongoDB/Driver.ts:420-422 | appends a limit stage |
| MongoDriver.Driver.BuildLookup | src/drivers/MongoDB/Driver.ts:205-273 | the stage built is `LookupStage`: `$match` on `$expr` first, then the plain `$match`, each only when non-empty |
| MongoDriver.Driver.CollectParts | src/drivers/MongoDB/Driver.ts:214-268 | the loop over the `on` calls fills `let`, `$expr` and `$match` as `Parts` does |
| MongoDriver.Driver.JoinTable | src/drivers/MongoDB/Driver.ts:205-273 | appends the lookup, with the default `on` and alias when none is given |
| MongoDriver.Driver.Rows | src/drivers/MongoDB/Driver.ts:428-429 | each row is passed through every mapper in order |
| MongoDriver.Driver.Get | src/drivers/MongoDB/Driver.ts:450-468 | appends the projection, sends the aggregation, and maps every row |
| MongoDriver.Driver.First | src/drivers/MongoDB/Driver.ts:470-494 | appends limit 1 and the projection; the first mapped row, or `undefined` |
| MongoDriver.Driver.Accumulate | src/drivers/MongoDB/Driver.ts:513-553 | appends the `$group` stage; the result is read from the first row |
| MongoDriver.Driver.Count | src/drivers/MongoDB/Driver.ts:446-448 | counts under the driver's view of the filter |
| MongoDriver.Driver.Exists | src/drivers/MongoDB/Driver.ts:440-444 | true iff the count is not 0 |
| MongoDriver.Driver.Insert | src/drivers/MongoDB/Driver.ts:557-571 | the insert command for the prepared item |
| MongoDriver.Driver.InsertGetId | src/drivers/MongoDB/Driver.ts:573-580 | `insertOne` of the prepared item |
| MongoDriver.Driver.Update | src/drivers/MongoDB/Driver.ts:594-603 | `updateMany` with `$set` of the prepared item, which holds no `id` key |
| MongoDriver.Driver.Increment | src/drivers/MongoDB/Driver.ts:605-626 | `updateMany` with `$inc` of the field |
| MongoDriver.Driver.Delete | src/drivers/MongoDB/Driver.ts:630-638 | `deleteMany` under the filter |
| MongoDriver.ReadRowHasNoUnderscoreId | src/drivers/MongoDB/Driver.ts:143 | every row read through the constructor's mapper has no `_id` at any depth |
| RelationPaths.FindEntry | src/base/QueryBuilder.ts:22 | the index of the first entry with the name, or -1 iff there is none |
| RelationPaths.Find | src/base/QueryBuilder.ts:22 | the search loop equals `FindEntry` |
| RelationPaths.AddPath | src/base/QueryBuilder.ts:20-33 | no contract of its own: one `forEach` step. `AddPathEffect` states what it does to the names and the collected tails |
| RelationPaths.Entries | src/base/QueryBuilder.ts:20-33 | no contract of its own: the whole `forEach`. `EntriesSpec` and `EntriesDistinct` state the names and each entry's tails |
| RelationPaths.EntriesDistinct | src/base/QueryBuilder.ts:20-33 | no two entries share a name |
| RelationPaths.Generate | src/base/QueryBuilder.ts:17-39 | no contract of its own: `generateRelations`. `GenerateSpec` and `GenerateUnique` state the tree it builds |
| RelationPaths.CollectEntries | src/base/QueryBuilder.ts:20-33 | the grouping loop equals `Entries` |
| RelationPaths.GenerateRelations | src/base/QueryBuilder.ts:17-39 | the recursive method equals `Generate` |
| RelationPaths.AddPathEffect | src/base/QueryBuilder.ts:20-33 | one path adds a new entry for an unseen name, or its tail to the existing entry |
| RelationPaths.EntryNamesSpec | src/base/QueryBuilder.ts:20-33 | the entry names are the first occurrences of the heads |
| RelationPaths.EntriesSpec | src/base/QueryBuilder.ts:20-33 | each entry holds the non-empty tails of the paths with its name, in order |
| RelationPaths.TailsAbsent | src/base/QueryBuilder.ts:24-25 | an unknown name has no tails |
| RelationPaths.NamesOfNodes | src/base/QueryBuilder.ts:35-38 | the tree's names are the entry names |
| RelationPaths.GenerateSpec | src/base/QueryBuilder.ts:17-39 | the top names are the first occurrences of the heads, and each node's children are the tree of its tails |
| RelationPaths.GenerateUnique | src/base/QueryBuilder.ts:17-39 | no two siblings share a name at any depth |
| RelationPaths.RepeatedNameAddsNothing | src/base/QueryBuilder.ts:24-26 | repeating a known name alone changes nothing |
| RelationPaths.KnownHeadIsFound | src/base/QueryBuilder.ts:22 | every head is found among the entries |
| RelationPaths.PrefixMerges | src/base/QueryBuilder.ts:17-39 | `with("chats", "chats.messages")` and `with("chats.messages")` build the same tree |
| RelationPaths.ChatsEntries | src/base/QueryBuilder.ts:20-33 | the entries of that example |
| RelationPaths.LeafTree | src/base/QueryBuilder.ts:29-32 | a single name is a leaf |
| RelationPaths.FirstUndeclared | src/base/QueryBuilder.ts:110-113 | none iff every top name is declared; otherwise the first undeclared one |
| RelationPaths.SplitPaths | src/base/QueryBuilder.ts:108 | every path is split at its dots |
| RelationPaths.With | src/base/QueryBuilder.ts:106-122 | succeeds iff every top name is declared, with the tree; otherwise throws for the first undeclared name in tree order |
| QueryRouting.Select | src/base/QueryBuilder.ts:329-336 | `whereIn` for an array, `where(field, value)` otherwise |
| QueryRouting.FindBy | src/base/QueryBuilder.ts:324-337 | one selection call and `first`; `whereIn` iff the value is an array |
| QueryRouting.Find | src/base/QueryBuilder.ts:311-313 | one selection call and `first` |
| QueryRouting.Destroy | src/base/QueryBuilder.ts:428-439 | one selection call and `delete(force)` |
| QueryRouting.Create | src/base/QueryBuilder.ts:378-387 | an unfiltered `insertGetId`, then `find` of the answered id |
| QueryRouting.Save | src/base/QueryBuilder.ts:393-411 | a new model is created; a saved one is updated and found again |
| QueryRouting.Delete | src/base/QueryBuilder.ts:444-459 | 0 iff the model is new; otherwise `destroy` with `force` |
| QueryRouting.Restore | src/base/QueryBuilder.ts:465-477 | 0 iff the model is new; otherwise `restore` |
| QueryRouting.SelectOnFresh | src/base/QueryBuilder.ts:329-336 | the selection leaves one `$in` or `$eq` leaf |
| QueryRouting.FindBySelection | src/base/QueryBuilder.ts:324-337 | that leaf is on the prepared key with the prepared value |
| QueryRouting.FindSelectsObjectId | src/base/QueryBuilder.ts:311-313 | `find` of a valid id matches `_id` with an ObjectId |
| QueryRouting.DestroySelection | src/base/QueryBuilder.ts:428-439 | `destroy` deletes exactly the rows `find` of the same ids reads |
| QueryRouting.CreateReadsInsertedRow | src/base/QueryBuilder.ts:378-387 | the insert has no filter; the read selects the inserted id |
| QueryRouting.SaveUpdatesWhatItReads | src/base/QueryBuilder.ts:399-410 | the update and the read after it select the same rows |
| QueryRouting.SavedDeleteAndRestore | src/base/QueryBuilder.ts:448-476 | a saved model's `delete` is `destroy` of its id, and `restore` selects the same rows |
| Relations.Make | src/Relation/HasMany.ts:9-18 | a given key is kept; the relation belongs to the owner's table and class |
| Relations.MorphFactory | src/base/Relational.ts:40-45 | the morph factories never pass a foreign key |
| Relations.Defaults | src/Relation/HasMany.ts:12-13 | the default keys of each kind |
| Relations.DefaultLocalKey | src/Relation/EmbedMany.ts:13 | no contract of its own: the default `localKey` of each kind. `Defaults` states them |
| Relations.DefaultForeignKey | src/Relation/HasMany.ts:13 | no contract of its own: the default `foreignKey` of each kind. `Defaults` and `MorphForeignKeyIgnoresType` state them |
| Relations.MorphForeignKeyIgnoresType | src/drivers/Relation/MorphBase.ts:9-13 | the default foreign key follows the target, not a given `type` |
| Relations.CallerFilter | src/Relation/HasMany.ts:34 | a function is applied, a falsy value skipped, and `true` throws "filter is not a function" |
| Relations.DeclaredFilters | src/Relation/HasMany.ts:27-32 | the soft-delete exclusion iff the target soft-deletes and trashed rows are not wanted; then the declared filter |
| Relations.LoadStart | src/Relation/HasMany.ts:26-34 | no contract of its own: the join predicate and the filters `load` starts from. `HasManyFilterOrder`, `EmbedManyFilterOrder` and `CallerFilter` state them |
| Relations.Load | src/Relation/HasMany.ts:20-62 | a successful load only appends to the query |
| Relations.LoadChildren | src/Relation/HasMany.ts:39-51 | children only append; an undeclared child throws the unknown-relation error |
| Relations.LoadCount | src/Relation/HasMany.ts:64-126 | one join on the target's table under the alias `relation` |
| Relations.MorphQuery | src/drivers/Relation/MorphBase.ts:18-21 | the morph query adds one discriminator condition |
| Relations.HasManyFilterOrder | src/Relation/HasMany.ts:26-58 | the join predicate, then the soft-delete exclusion, declared filter and caller filter, in that order |
| Relations.EmbedManyFilterOrder | src/Relation/EmbedMany.ts:21-47 | membership predicate, declared filter, caller filter; never a soft-delete exclusion |
| Relations.LoadJoin | src/Relation/HasMany.ts:36-61 | one join whose sub-query starts with the filters; every child is declared |
| Relations.UndeclaredChildFails | src/Relation/HasMany.ts:43-46 | `Relation '<child>' does not exist on '<Target>' Model` |
| Relations.HasOneLoad | src/drivers/MongoDB/Relation/HasOne.ts:6-16 | an equality join and `$unwind` that keeps unmatched owners; children and extra arguments are ignored |
| Relations.HasOneLookupStage | src/drivers/MongoDB/Relation/HasOne.ts:9-11 | the driver's stage for that join compares the foreign key with the owner's pivot |
| Relations.TrashFlagLandsInEmbedFilter | src/Relation/HasMany.ts:50 | `withTrashed = true` under `hasMany` makes an `embedMany` child throw |
| Relations.EmbedChildExcludesTrashed | src/Relation/EmbedMany.ts:38 | a `hasMany` child under `embedMany` always excludes trashed rows |
| Relations.CountTerminal | src/Relation/HasMany.ts:112-125 | the last segment joins on `<Owner>.relation.<key>` with the caller's filter last |
| Relations.EmptySegmentIsTerminal | src/Relation/HasMany.ts:79 | an empty segment ends the descent |
| Relations.CountUndeclaredSegment | src/Relation/HasMany.ts:80-83 | an undeclared segment throws the unknown-relation error |
| Relations.NestedCount | src/Relation/HasMany.ts:79-110 | two levels: the outer join projects `$$ROOT` and the caller's filter reaches the inner join |
| Relations.CountThroughEmbedShiftsArguments | src/Relation/HasMany.ts:104-106 | through `embedMany` the caller's `withTrashed` becomes the filter, and the caller's filter is lost |
| Relations.MorphDiscriminator | src/drivers/Relation/MorphBase.ts:9-21 | the discriminator and the foreign key share the target's morph type |
| StrictOne.Insert | src/drivers/Relation/HasOne.ts:17-26 | insert always refuses with the fixed message |
| StrictOne.Create | src/drivers/Relation/HasOne.ts:30-46 | a store error is passed on; refuses iff a row exists, otherwise delegates |
| StrictOne.Save | src/drivers/Relation/HasOne.ts:63-67 | refuses iff a row exists with another id; otherwise delegates |
| StrictOne.SaveWithCallback | src/drivers/Relation/HasOne.ts:54-61 | a missing row crashes reading `id` of `undefined` |
| StrictOne.InsertNeverDelegates | src/drivers/Relation/MorphOne.ts:8-15 | `morphOne`'s message names the relation class; `hasOne`'s is fixed |
| StrictOne.SaveAllowsOnlyTheSameRow | src/drivers/Relation/HasOne.ts:63-67 | saving the related row, or saving when none exists, goes through |
| StrictOne.SaveFormsAgreeExceptOnNoRow | src/drivers/Relation/HasOne.ts:50-68 | the two forms decide alike unless no row exists |
| StrictOne.SameRefusal | src/drivers/Relation/HasOne.ts:31 | `create` and `save` refuse with the same message |
| Strings.Split | src/base/QueryBuilder.ts:108 | `split`: at least one piece, and no piece holds the separator |
| Strings.JoinSplit | src/drivers/MongoDB/Driver.ts:224-228 | joining the pieces of a split gives back the text |
| Strings.SplitJoin | src/drivers/MongoDB/Driver.ts:224-228 | splitting a join of separator-free pieces gives back the pieces |
| Strings.Digits | src/types/Array.ts:34 | decimal digits only, no leading zero, and they read back as the number |
| Strings.Decimal | src/types/Array.ts:34 | `${n}`: a minus sign iff `n` is negative, then digits that read back as its magnitude |

## Left out

- I/O and the store: connecting, collections, cursors, callbacks and promises. What the store answers is a parameter. The `table()` collection switch is not modelled.
- Query execution in the driver and `QueryBuilder`: the answer is a parameter of `Get`, `First`, `Accumulate` and `Exists`. Hydration of rows into models and the `lean` flag are not modelled.
- `value`/`pluck`: the projection with `$ifNull` and the key walk are not modelled. `groupBy` is commented out in the source.
- Attribute getters, setters and virtual attributes (`_setAttributes`), `setAttribute`, `toJSON`, `inspect`, events (`on`) and GraphQL. The model assumes identity setters, so the attributes are the document as given.
- The `Relation` base class, `Query`, `DB`, `Join` and the `Relational` dispatch are not part of this model. A join is an `Op` list, and declared filters and caller filters are named.
- `load`/`loadCount` of the morph relations and `loadCount` of `hasOne` (`Relations.Load` requires `Loadable`; `Relations.LoadCount` requires `Countable`), because their execution code is not part of this model. The morph relations are modelled as far as the key defaults, the discriminator and the `morphOne` guards.
- The library helpers `makeTableId`, `makeCollectionId`, `makeMorphType` and the `Types.ObjectId`/`Types.Date` validators are parameters (`Naming`, `idType`, `dateType`).
- The clock is the parameter `now`. The "now" default of `created_at` is `Date(now)`.
- bson is not part of this model. `ObjectId.isValid` is modelled by its rule: an ObjectId, any number, a string of 12 characters, or 24 hexadecimal digits in either case. An ObjectId's text is the lower-case form of its 24 digits, or two hex digits per character of its 12 characters. Regular expressions are an uninterpreted pattern with flags. JavaScript numbers are integers.
- Documents.ToText: the text of an ObjectId made from a number is a stand-in. bson fills 8 of its 12 bytes from the process and a counter. For a 12-character id, each character is taken as one byte (its code modulo 256); bson versions differ for characters beyond ASCII.
- Documents.PrepareToRead, Documents.PrepareToStore: an ObjectId under a key that `isID` does not accept (such as an `embedMany` key `chat_ids`) is returned as it is. The source walks into it with `mapKeys`/`mapValues` and returns a plain object of its enumerable own properties. Those properties belong to bson.
- Documents.ReadAfterStore: holds for documents without ObjectIds or regular expressions outside id keys, and without `0`, other numbers or 12-character texts under id keys. The source changes a regular expression into `{}` and a 12-character or number id into other text (`Documents.PatternBecomesEmptyObject`, `Documents.TwelveCharacterIdChanges`). What it makes of an ObjectId outside an id key depends on bson.
- Documents.StoreAfterRead: holds for stored documents with the same exclusions. Under id keys it also excludes 12-character texts and ObjectIds that are not of 24 lower-case digits, which come back as different ids.
- Documents.AppIdRoundTrip: holds for ids other than numbers and 12-character texts, which bson turns into ObjectIds whose text differs.
- JavaScript's ordering of integer-like object keys is not modelled: objects keep insertion order.
- `Json.Member` gives `undefined` for properties of strings, arrays and numbers (e.g. `length`).
- Types.TypeAny.DefaultTo: requires a non-function value. A function value is a producer and goes to `DefaultBy`, as the source's first branch does.
- Types.TypeAny.Of: requires the array kind, because `of` exists only on the array type. The source's `instanceof TypeAny` check is ruled out by the argument's type. The element type is taken as a snapshot of its validator, so later builder calls on the element type do not reach the array type.
- Types.TypeAny.Bound: requires the array kind (`min`, `max` and `length` exist only on the array type). The `number.isNumber` test is modelled as "is a `Num`". Non-integer bounds are not modelled.
- Types.ApplyCast: the element cast of `of(type)` applied to a non-array value is the identity, and so is the element test (no message). The source would throw from `v.map` there. These cases are unreachable through `Validate`, because the array base check stops earlier.
- MongoIds.PrepareValue: an array under an id field converts every item. BSON would throw on an invalid item.
- MongoDriver.Driver.Call: requires a call the driver offers (`DriverCall`). The driver has no sub-builder form of `where`.
- StrictOne.Save: the `!==` comparison of ids is value inequality, since ObjectIds are values here.
- The builders' `return this` chaining is sequential calls on the same object.
- Regular-expression metacharacters in a table name (the pivot test in `join`) are not modelled. The pivot test is modelled as a literal table name followed by two characters that are not line terminators.
