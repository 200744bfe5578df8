# SubstanceSafe CRUD rules in Dafny

SubstanceSafe is a substance-usage tracker. It stores three tables: categories, substance
types (each in one category) and usage records (each of one type). It exposes them through
three ASP.NET controllers. This project models the check-then-write rules of those
controllers. Every create, update and delete runs a fixed sequence of checks, and the first
failing check decides the response. The model proves that these checks keep the schema's
integrity rules: unique category names, unique (CategoryId, Name) pairs among types, every
type pointing at a stored category, and every usage pointing at a stored type. Request
bodies are taken as their scalar fields; nested objects in a body are not modelled (see
"## Left out").

Layout, one module per file:

- `common.dfy` (`Common`): `Option`, the response tags (`Ok`, `Created(id)`, `NoContent`,
  `BadRequest`, `Conflict`, `NotFound`, `ServerError`), and DateTime as ticks. `DayTicks` is
  one day for `AddDays(1)`, `DefaultDate` = tick 0 is `default(DateTime)`, and `MaxTicks` is
  `DateTime.MaxValue`.
- `text.dfy` (`Text`): `String.IsNullOrWhiteSpace` over the fixed character set of
  `Char.IsWhiteSpace`, and the ordinal order used to sort names, proved to be a total order.
- `query.dfy` (`Query`): a table scan in key order (`Rows`), `Where` (`Filter`) and
  `OrderBy` (`SortBy`, a stable insertion sort), proved to filter exactly and to sort into a
  permutation.
- `schema.dfy` (`Schema`): the three record types, the database `Db` (one map per table,
  keyed by `Id`), and the invariant `Valid`, which combines the two unique indexes, the
  references and the field checks.
- `categories.dfy`, `types.dfy`, `usages.dfy`: one pure transition function per endpoint on
  a `Db` value, plus lemmas: each write preserves `Valid`, create/get round trips, and the
  edge cases the controllers handle.
- `store.dfy` (`Store.SubstanceStore`): the endpoints as methods of a class whose fields are
  the three tables and their identity counters, updated in place. Each write method
  (Put, Post, Delete) `requires` and `ensures` `Valid()`, and its `ensures` equates its
  response and new tables with the transition function. Each read method (the Get
  methods) modifies nothing, and its result equals the matching query function.

Three points where the controllers' behaviour is easy to misread:

- Deleting a category or type that is still in use answers 400 (`BadRequest`), not 409.
  The status is set at Controllers/SubstanceCategoriesController.cs:153 and at
  Controllers/SubstanceTypesController.cs:175, each beside a comment naming 409 as an
  alternative.
- `Amount` is an `int` (Models/SubstanceUsage.cs:11), and both usage writes require it to be `> 0`.
- A usage record has `SubstanceTypeId`, `UsageDate`, `Notes`, `Amount` and `Unit`, as the
  usage controller reads and writes it. `Models/SubstanceUsage.cs` declares `Substance` and
  `Category` strings instead, which the controller never uses.

Environment inputs: `DateTime.UtcNow` is the `now` parameter of the usage create. The id
the database assigns is the `freshId` parameter of each create transition (any id not in the
table). In the class it is the table's identity counter.

## Model

| member | source | states |
|---|---|---|
| `Text.NameLeIsTotalOrder` | Controllers/SubstanceCategoriesController.cs:24 | the order on names is total, antisymmetric and transitive, so `OrderBy(Name)` is well defined |
| `Query.Rows` | Controllers/SubstanceCategoriesController.cs:24 | reading a table yields one entry per stored key, in ascending key order, and exactly the stored records |
| `Query.Filter` | Controllers/SubstanceTypesController.cs:28-31 | `Where` keeps exactly the elements satisfying the predicate, each as often as it occurs in the input |
| `Query.SortBy` | Controllers/SubstanceCategoriesController.cs:24 | `OrderBy` returns a permutation of its input |
| `Query.SortBySorted` | Controllers/SubstanceTypesController.cs:33 | under any total preorder, `OrderBy`'s result is ordered |
| `Schema.EmptyIsValid` | Services/SubstancesDbContext.cs:23-30 | the empty database satisfies both unique indexes and the reference and field rules |
| `Categories.Exists` | Controllers/SubstanceCategoriesController.cs:173-176 | the key lookup holds exactly when some row's Id equals `id` (given rows are stored under their Id) |
| `Categories.List` | Controllers/SubstanceCategoriesController.cs:21-25 | returns exactly the stored categories (same multiplicities as the table) ordered by Name ascending |
| `Categories.Get` | Controllers/SubstanceCategoriesController.cs:29-41 | answers `Ok` with a stored category whose Id is `id` exactly when one exists, otherwise `NotFound` |
| `Categories.ListedAreGettable` | Controllers/SubstanceCategoriesController.cs:32-40 | every category in the listing can be fetched again by its Id |
| `Categories.Put` | Controllers/SubstanceCategoriesController.cs:45-96 | the response is decided by the first failing check: `BadRequest` exactly on id mismatch or a blank name; then `Conflict` exactly when another row holds the name; then `NotFound` exactly when the id is absent; `NoContent` exactly when every check passes; any failure leaves the database unchanged; success replaces only that row, with the new name; other tables are never touched |
| `Categories.PutPreservesValid` | Controllers/SubstanceCategoriesController.cs:47-69 | an update keeps name uniqueness, references and field rules |
| `Categories.PutOwnName` | Controllers/SubstanceCategoriesController.cs:57-60 | saving a category under its current name is `NoContent` and changes nothing, since the duplicate check skips the row's own Id |
| `Categories.Post` | Controllers/SubstanceCategoriesController.cs:100-135 | a blank name is `BadRequest`, then a name held by any category is `Conflict`, both leaving the store unchanged; otherwise exactly one row with the fresh id and the given name is added |
| `Categories.PostPreservesValid` | Controllers/SubstanceCategoriesController.cs:102-118 | a create keeps category-name uniqueness and every other invariant |
| `Categories.PostThenGet` | Controllers/SubstanceCategoriesController.cs:118-134 | after a successful create, getting the returned id yields the submitted name with that id; every other id reads as before |
| `Categories.SecondPostConflicts` | Controllers/SubstanceCategoriesController.cs:107-116 | creating a second category with the same name is `Conflict` and changes nothing |
| `Categories.Delete` | Controllers/SubstanceCategoriesController.cs:139-171 | the answer is one of 404/400/204: `NotFound` exactly when the id is absent; `BadRequest` exactly when some type has that CategoryId; otherwise `NoContent`, removing just that row, after which no type refers to it |
| `Categories.DeletePreservesValid` | Controllers/SubstanceCategoriesController.cs:147-157 | a delete never leaves a type pointing at a missing category |
| `SubstanceTypes.Exists` | Controllers/SubstanceTypesController.cs:195-198 | the key lookup holds exactly when some row's Id equals `id` |
| `SubstanceTypes.CategoryOf` | Controllers/SubstanceTypesController.cs:40-42 | the loaded parent is present exactly when the CategoryId is stored, and it is that stored category row (so it has that Id) |
| `SubstanceTypes.BeforeIsTotalPreorder` | Controllers/SubstanceTypesController.cs:33 | ordering by (category Name, then type Name) is total and transitive |
| `SubstanceTypes.List` | Controllers/SubstanceTypesController.cs:24-34 | keeps exactly the types whose CategoryId equals the filter, or all types without one, with table multiplicities, ordered by category name and then type name |
| `SubstanceTypes.Ordered` | Controllers/SubstanceTypesController.cs:33 | `OrderBy(Category.Name).ThenBy(Name)` returns a permutation of its input, ordered by category name and then type name |
| `SubstanceTypes.Get` | Controllers/SubstanceTypesController.cs:38-50 | answers `Ok` with the stored type whose Id is `id` exactly when it exists, otherwise `NotFound` |
| `SubstanceTypes.ListedAreGettable` | Controllers/SubstanceTypesController.cs:40-49 | every listed type can be fetched by its Id and has its category loaded |
| `SubstanceTypes.CategoryAlwaysLoaded` | Controllers/SubstanceTypesController.cs:40-42 | under the invariants every stored type's category is loaded, and it is the stored row of its CategoryId |
| `SubstanceTypes.Put` | Controllers/SubstanceTypesController.cs:54-111 | the response is decided by the first failing check: `BadRequest` exactly on id mismatch, a blank name or an unknown CategoryId; then `Conflict` exactly when another row holds the (Name, CategoryId) pair; then `NotFound` exactly when the id is absent; `NoContent` exactly when every check passes; failures change nothing; success replaces the whole row of that id |
| `SubstanceTypes.PutPreservesValid` | Controllers/SubstanceTypesController.cs:56-85 | an update keeps (CategoryId, Name) uniqueness, references and field rules |
| `SubstanceTypes.Post` | Controllers/SubstanceTypesController.cs:115-157 | blank name, then unknown CategoryId, give `BadRequest`; then an existing (Name, CategoryId) gives `Conflict`; each leaves the store unchanged; otherwise exactly the submitted type with the fresh id is added |
| `SubstanceTypes.PostPreservesValid` | Controllers/SubstanceTypesController.cs:117-140 | a create keeps referential integrity and (CategoryId, Name) uniqueness |
| `SubstanceTypes.PostThenGet` | Controllers/SubstanceTypesController.cs:140-156 | after a successful create, the returned id reads back the submitted fields, its category exists, other ids read as before |
| `SubstanceTypes.SecondPostConflicts` | Controllers/SubstanceTypesController.cs:129-138 | a second type with the same (CategoryId, Name) is `Conflict` and changes nothing |
| `SubstanceTypes.SameNameInOtherCategory` | Controllers/SubstanceTypesController.cs:130-131 | the same name under a different existing category is accepted, since the duplicate check compares CategoryId too |
| `SubstanceTypes.Delete` | Controllers/SubstanceTypesController.cs:161-193 | the answer is one of 404/400/204: `NotFound` exactly when absent; `BadRequest` exactly when some usage has that SubstanceTypeId; otherwise `NoContent`, removing only that type, after which no usage refers to it |
| `SubstanceTypes.DeletePreservesValid` | Controllers/SubstanceTypesController.cs:169-179 | a delete never leaves a usage pointing at a missing type |
| `SubstanceTypes.CategoryDeleteKeepsTypesAttached` | Controllers/SubstanceCategoriesController.cs:147-155 | deleting the category of any stored type is refused with the store unchanged |
| `Usages.Exists` | Controllers/SubstanceUsagesController.cs:207-210 | the key lookup holds exactly when some row's Id equals `id` |
| `Usages.TypeOf` | Controllers/SubstanceUsagesController.cs:63-65 | the loaded type is present exactly when the SubstanceTypeId is stored, and it is that stored type row (so it has that Id) |
| `Usages.Where` | Controllers/SubstanceUsagesController.cs:37-40 | an optional Where step keeps just the records satisfying its predicate when its parameter is given, and everything otherwise |
| `Usages.Narrowed` | Controllers/SubstanceUsagesController.cs:31-53 | the four optional Where steps, applied in turn, keep exactly the records passing their conjunction |
| `Usages.NarrowedMembers` | Controllers/SubstanceUsagesController.cs:31-53 | a record survives the filters exactly when it is stored and passes every supplied filter |
| `Usages.NewestFirst` | Controllers/SubstanceUsagesController.cs:56 | `OrderByDescending(UsageDate)` returns a permutation of its input with UsageDate non-increasing |
| `Usages.List` | Controllers/SubstanceUsagesController.cs:25-57 | `ServerError` exactly when `endDate` is within a day of `MaxValue`; otherwise exactly the stored records passing every supplied filter (start inclusive, end + 1 day exclusive, type, category through the type), with table multiplicities, newest first |
| `Usages.SingleDayListing` | Controllers/SubstanceUsagesController.cs:41-45 | with start = end = D the listing is exactly the records with D <= UsageDate < D + 1 day |
| `Usages.EndOfDayBoundary` | Controllers/SubstanceUsagesController.cs:43-44 | a record at 23:59 on the end date is listed, one at 00:00 the next day is not |
| `Usages.CategoryFilterThroughType` | Controllers/SubstanceUsagesController.cs:50-53 | under the invariants the category filter keeps exactly the records whose type is in that category |
| `Usages.Get` | Controllers/SubstanceUsagesController.cs:61-74 | answers `Ok` with the stored record whose Id is `id` exactly when it exists, otherwise `NotFound` |
| `Usages.ParentsAlwaysLoaded` | Controllers/SubstanceUsagesController.cs:63-66 | under the invariants every stored record has its type loaded, and that type's category, each being the stored row its foreign key names |
| `Usages.Put` | Controllers/SubstanceUsagesController.cs:78-128 | `BadRequest` exactly on id mismatch or a failed value check (type exists, Amount > 0, Unit not blank); then `NotFound` exactly when the id is absent; `NoContent` exactly when the checks pass and the id is stored; failures change nothing; success replaces only that row, as sent |
| `Usages.PutPreservesValid` | Controllers/SubstanceUsagesController.cs:85-102 | an update keeps references and the Amount/Unit rules |
| `Usages.Post` | Controllers/SubstanceUsagesController.cs:132-179 | a failed value check is `BadRequest` with the store unchanged; otherwise one row is added under the fresh id: the submitted record with that id, and UsageDate replaced by `now` when it was the default; every other row and table is unchanged |
| `Usages.PostPreservesValid` | Controllers/SubstanceUsagesController.cs:134-157 | a create keeps references and the Amount/Unit rules |
| `Usages.PostThenGet` | Controllers/SubstanceUsagesController.cs:150-157 | the created record reads back with the submitted fields, the assigned id, and UsageDate = now when the submitted date was the default, otherwise the submitted date |
| `Usages.ZeroAmountRejected` | Controllers/SubstanceUsagesController.cs:141-144 | a zero amount is `BadRequest` and changes nothing |
| `Usages.Delete` | Controllers/SubstanceUsagesController.cs:183-205 | `NotFound` exactly when absent; otherwise `NoContent`, removing only that record with no in-use check |
| `Usages.DeletePreservesValid` | Controllers/SubstanceUsagesController.cs:185-191 | removing a usage never breaks an invariant |
| `Usages.TypeDeleteKeepsUsagesAttached` | Controllers/SubstanceTypesController.cs:169-177 | deleting the type of any stored usage is refused with the store unchanged |
| `Store.SubstanceStore.constructor` | Services/SubstancesDbContext.cs:13-15 | a new store has three empty tables, satisfies the invariant, and seeds each identity at 1 |
| `Store.SubstanceStore.GetSubstanceCategories` | Controllers/SubstanceCategoriesController.cs:21-25 | answers `Categories.List` of the current tables |
| `Store.SubstanceStore.GetSubstanceCategory` | Controllers/SubstanceCategoriesController.cs:29-41 | answers `Categories.Get` of the current tables |
| `Store.SubstanceStore.PutSubstanceCategory` | Controllers/SubstanceCategoriesController.cs:45-96 | keeps `Valid()`; response and new tables are those of `Categories.Put`; identities unchanged |
| `Store.SubstanceStore.PostSubstanceCategory` | Controllers/SubstanceCategoriesController.cs:100-135 | keeps `Valid()`; response and new tables are those of `Categories.Post` with the next identity, which advances only on success |
| `Store.SubstanceStore.DeleteSubstanceCategory` | Controllers/SubstanceCategoriesController.cs:139-171 | keeps `Valid()`; response and new tables are those of `Categories.Delete` |
| `Store.SubstanceStore.GetSubstanceTypes` | Controllers/SubstanceTypesController.cs:24-34 | answers `SubstanceTypes.List` of the current tables |
| `Store.SubstanceStore.GetSubstanceType` | Controllers/SubstanceTypesController.cs:38-50 | answers `SubstanceTypes.Get` of the current tables |
| `Store.SubstanceStore.PutSubstanceType` | Controllers/SubstanceTypesController.cs:54-111 | keeps `Valid()`; response and new tables are those of `SubstanceTypes.Put` |
| `Store.SubstanceStore.PostSubstanceType` | Controllers/SubstanceTypesController.cs:115-157 | keeps `Valid()`; response and new tables are those of `SubstanceTypes.Post` with the next identity |
| `Store.SubstanceStore.DeleteSubstanceType` | Controllers/SubstanceTypesController.cs:161-193 | keeps `Valid()`; response and new tables are those of `SubstanceTypes.Delete` |
| `Store.SubstanceStore.GetSubstanceUsages` | Controllers/SubstanceUsagesController.cs:25-57 | answers `Usages.List` of the current tables |
| `Store.SubstanceStore.GetSubstanceUsage` | Controllers/SubstanceUsagesController.cs:61-74 | answers `Usages.Get` of the current tables |
| `Store.SubstanceStore.PutSubstanceUsage` | Controllers/SubstanceUsagesController.cs:78-128 | keeps `Valid()`; response and new tables are those of `Usages.Put` |
| `Store.SubstanceStore.PostSubstanceUsage` | Controllers/SubstanceUsagesController.cs:132-179 | keeps `Valid()`; overwrites a default UsageDate with `now` before adding; response and new tables are those of `Usages.Post` |
| `Store.SubstanceStore.DeleteSubstanceUsage` | Controllers/SubstanceUsagesController.cs:183-205 | keeps `Valid()`; response and new tables are those of `Usages.Delete` |

## Left out

- Storage failures (`DbUpdateException` answered with 500) are not modelled. They are decided by the database, not by the controllers' checks, and a failed write would leave the tables unchanged.
- The concurrency branches (`DbUpdateConcurrencyException` with rethrow) are not modelled. Only their sequential outcome is kept: an update of an absent id answers `NotFound`. Races between a check and its write need concurrent requests, which a sequential model cannot express.
- `Categories.Post`, `SubstanceTypes.Post`, `Usages.Post`: the body's own `Id` is ignored and the identity value is used. A client-supplied non-zero Id makes the database reject the insert, which is one of the storage failures above.
- Navigation loading (`Include`, `ThenInclude`, `Reference(...).LoadAsync`) is modelled only as the parent lookups `SubstanceTypes.CategoryOf` and `Usages.TypeOf`. `Ok` responses carry the record and `Created` carries the new id; neither carries the parents. The inner-join behaviour for rows whose parent is missing is left out, because `Valid` rules such rows out.
- Categories.Post, SubstanceTypes.Post, Usages.Post: a request body is read as its scalar fields only. EF Core's `Add` would also insert entities reachable from the body's navigation properties (a nested `SubstanceTypes` list, `Category` or `SubstanceType` object), and such rows bypass the controller's name, uniqueness and parent checks. The model ignores those nested objects, and its integrity rules and "exactly one row added" promise hold only for bodies without them.
- `SubstanceTypes.List` sorts a type whose category is missing under the name "" (this case cannot occur under `Valid`).
- String comparison and ordering use plain equality and ordinal order, not the database collation. A case-insensitive collation would treat "Foo" and "foo" as duplicates; this model does not.
- A null `Name` or `Unit` is represented by the empty string. `IsNullOrWhiteSpace` gives the same answer for both. ASP.NET model binding and validation that run before an action are not modelled.
- Ids and `Amount` are unbounded integers, not 32-bit. No arithmetic is done on them except the identity counter, and exhausting the identity range is not modelled.
- `async`/`Task`, HTTP routing, the `Location` header of `CreatedAtAction`, the text of error messages and the ProblemDetails body are not modelled.
- Ordering among records with equal sort keys is not specified by the source. The model sorts stably from key order, and no contract relies on that tie order.
- Host, dependency-injection, Swagger and database-provider wiring (`Program.cs`) are framework glue and are not part of this model.
