# NexusDB core in Dafny

A model of the core of NexusDB, an embeddable in-memory document database written in
TypeScript. The model covers:

- the **document store**: named collections of schema-less documents, kept in insertion
  order, with create/get/update/delete/list and collection drop/clear;
- the **storage engine**: the facade over the store, which calls the index manager's
  hooks only when `enableIndexing` is set and never reads `enableTransactions`;
- the **query planner**: `createPlan` builds the operation sequence
  Scan, Filter*, Projection?, Sort?, Limit? with its advisory cost. `createPredicate`
  compiles a filter (`eq ne gt gte lt lte in contains`) into a predicate.
  `optimizePlan` returns its input;
- the **query executor**: `execute` folds the plan's operations over a document list that
  starts empty, dispatching on the operation kind;
- the **index manager** and the **transaction manager**: placeholders whose only
  working parts are index creation/dropping and the transaction records' state moves.

Every operation is a pure function from the old state to the new one. A Dafny module
corresponds to each source class:

| module | file | models |
|---|---|---|
| `Maybe` | maybe.dfy | `Option`, standing for `null`/`undefined` results |
| `Json` | json.dfy | field values, `doc[field]`, `===`, `<`/`<=` on numbers and strings, `String(v)`, `includes` |
| `OrderedMap` | ordered_map.dfy | JavaScript `Map`: keys in insertion order, `set` keeps an existing key's position |
| `DocumentStore` | document_store.dfy | `src/storage/documentStore.ts` |
| `IndexManager` | index_manager.dfy | `src/storage/indexManager.ts` |
| `TransactionManager` | transaction_manager.dfy | `src/storage/transactionManager.ts` |
| `StorageEngine` | storage_engine.dfy | `src/storage/engine.ts` |
| `QueryPlanner` | query_planner.dfy | `src/query/planner.ts` |
| `DocSort` | doc_sort.dfy | the comparator and sort of `executeSort` |
| `QueryExecutor` | query_executor.dfy | `src/query/executor.ts` |

Modelling choices:

- `randomUUID()` becomes an `id` parameter of `DocumentStore.Create`,
  `StorageEngine.CreateDocument` and `TransactionManager.BeginTransaction`.
  The functions accept any id and overwrite on collision, as `Map.set` would.
  Lemmas that need a fresh id require one.
- A missing field reads as `None`, JavaScript's `undefined`.
- A Filter operation carries the `QueryFilter` its predicate was compiled from, and
  `QueryPlanner.Matches` is that predicate. This replaces the closure `createPredicate` returns.
- The plan's cost is kept in tenths as an integer: 10 at the start, 5 per filter,
  2 for a projection and 10 for a sort. The source's 1, 0.5, 0.2 and 1 become
  these values.
- An engine call returns the list of index-manager calls it made. This lets the
  `enableIndexing` gating be stated. The index state is those calls applied in order.
- `Array.prototype.sort` becomes a stable insertion sort driven by `executeSort`'s
  comparator. ECMAScript requires the host sort to be stable, so on a consistent
  comparator both give the same sequence.
- `slice(0, n)` is modelled exactly, including a negative `n`.

Three behaviours of the code are easy to misread, and the model keeps them as written:

- `slice(0, n)` with a negative `n` drops the last `|n|` documents. `ExecuteLimit`
  slices exactly that way.
- `dropCollectionIndexes` really deletes every index whose key starts with
  `collection:`. So dropping `c` also drops the indexes of a collection named `c:x`,
  which `IndexManager.DropAlsoRemovesColonNamedCollections` states.
- `commit` and `rollback` set the state of any known record, whatever its current
  state. `TransactionManager.CommitAfterRollback` states this.

## Model

| member | source | states |
|---|---|---|
| DocumentStore.NewStore | src/storage/documentStore.ts:7-10 | a new store has no collections |
| DocumentStore.WithId | src/storage/documentStore.ts:20 | the stored document has `_id` equal to the new id and every other field as the caller gave it |
| DocumentStore.Create | src/storage/documentStore.ts:12-26 | a missing collection is created last in creation order holding just the new document; the returned document is then found by `get`; every other document and collection is unchanged; stored documents keep carrying their own ids |
| DocumentStore.CreateAppendsToList | src/storage/documentStore.ts:12-26 | a document created under a fresh id is listed last, after the earlier documents in their order |
| DocumentStore.Get | src/storage/documentStore.ts:28-44 | a document is returned exactly when both the collection and the id exist, and it is the stored one |
| DocumentStore.Merge | src/storage/documentStore.ts:61 | the merged document takes each updated field from the updates, every other field from the stored document, and `_id` is always the stored id |
| DocumentStore.Update | src/storage/documentStore.ts:46-66 | a missing collection or id gives `None` and an unchanged store; otherwise the merged document is stored under the same id and returned; no other document or collection changes and key order is kept |
| DocumentStore.UpdateKeepsListPosition | src/storage/documentStore.ts:61-62 | updating the i-th document replaces exactly position i of the listing |
| DocumentStore.Delete | src/storage/documentStore.ts:68-80 | the result is true exactly when the document existed; afterwards it is absent, the collection remains and nothing else changes |
| DocumentStore.DeleteRemovesFromList | src/storage/documentStore.ts:76 | deleting the i-th document cuts exactly position i out of the listing |
| DocumentStore.DeleteThenGet | src/storage/documentStore.ts:68-80 | after `delete`, `get` of that id finds nothing, and the collection exists exactly when it did before |
| DocumentStore.List | src/storage/documentStore.ts:82-94 | a missing collection lists `[]`; otherwise the documents are listed in the collection's insertion order |
| DocumentStore.GetCollections | src/storage/documentStore.ts:100-102 | the names listed are exactly the existing collections, without repeats |
| DocumentStore.CollectionsInCreationOrder | src/storage/documentStore.ts:100-102 | names are listed in creation order: a create in a new collection appends its name, an existing collection keeps its place, update and delete leave the listing alone, and a drop takes out only that name |
| DocumentStore.HasCollection | src/storage/documentStore.ts:96-98 | a collection exists exactly when its name is among the listed collection names |
| DocumentStore.DropCollection | src/storage/documentStore.ts:104-108 | the result is true exactly when the collection existed; afterwards it is gone and the other collections keep their contents and order |
| DocumentStore.DropThenCreate | src/storage/documentStore.ts:104-108 | a dropped collection that receives a new document comes back last in creation order, holding only that document |
| DocumentStore.Clear | src/storage/documentStore.ts:110-113 | no collection remains |
| StorageEngine.NewEngine | src/storage/engine.ts:21-28 | a new engine keeps its configuration and starts with an empty store, an index manager with no indexes, and a transaction manager with no records and no active id; so it meets the all-indexes-empty and ids-consistent invariants |
| StorageEngine.GetDocument | src/storage/engine.ts:42-45 | a document comes back exactly when the collection and the id exist, and it is the stored one; nothing changes |
| StorageEngine.ListDocuments | src/storage/engine.ts:71-74 | `[]` for a missing collection, otherwise every stored document in insertion order |
| StorageEngine.CollectionExists | src/storage/engine.ts:76-78 | true exactly when the name is among the engine's collections |
| StorageEngine.GetCollections | src/storage/engine.ts:80-82 | the store's own listing, so the names come in creation order as `DocumentStore.CollectionsInCreationOrder` states; exactly the existing collections, without repeats |
| StorageEngine.CreateDocument | src/storage/engine.ts:30-40 | the store's `create` result, followed by `indexDocument` with the new document exactly when indexing is enabled; indexes, configuration and transactions are unchanged |
| StorageEngine.UpdateDocument | src/storage/engine.ts:47-57 | the store's `update` result; `reindexDocument` is called only when a document was updated and indexing is enabled |
| StorageEngine.DeleteDocument | src/storage/engine.ts:59-69 | the store's `delete` result; `removeDocument` is called only when a document was removed and indexing is enabled |
| StorageEngine.DropCollection | src/storage/engine.ts:84-92 | when indexing is enabled, the collection's indexes are dropped whether or not the collection exists; the result is the store's `dropCollection` |
| StorageEngine.IndexingOffMeansNoCalls | src/storage/engine.ts:35-37 | with indexing disabled, no request calls the index manager or changes the index state |
| StorageEngine.TransactionsFlagIsInert | src/storage/engine.ts:10-13 | for any request sequence, `enableTransactions` changes no reply and no state except itself |
| StorageEngine.TransactionsNeverTouched | src/storage/engine.ts:15-28 | no request sequence changes the transaction manager or the configuration |
| StorageEngine.StoredDocumentsCarryTheirIds | src/storage/engine.ts:30-92 | if every stored document carries its own id, that stays true after any request sequence |
| StorageEngine.IndexesStayEmpty | src/storage/engine.ts:30-92 | indexes that hold no entries hold none after any request sequence |
| IndexManager.NewIndexState | src/storage/indexManager.ts:12-15 | a new manager has no indexes |
| IndexManager.IndexKey | src/storage/indexManager.ts:65-67 | the key is the collection name, a colon, then the field name |
| IndexManager.CreateIndex | src/storage/indexManager.ts:17-24 | afterwards the key exists; an existing index is kept as it was, and a new one starts empty |
| IndexManager.CreateIndexIdempotent | src/storage/indexManager.ts:17-24 | creating the same index twice is the same as creating it once |
| IndexManager.CreateIndexKeepsExisting | src/storage/indexManager.ts:20-23 | creating an index whose key exists changes nothing |
| IndexManager.HooksAreInert | src/storage/indexManager.ts:26-37 | `indexDocument`, `removeDocument` and `reindexDocument` leave the index state unchanged |
| IndexManager.DropCollectionIndexes | src/storage/indexManager.ts:39-50 | exactly the keys starting with `collection:` are removed; the other indexes keep their contents |
| IndexManager.DropRemovesOwnIndexes | src/storage/indexManager.ts:39-50 | every index of the dropped collection is gone afterwards |
| IndexManager.DropAlsoRemovesColonNamedCollections | src/storage/indexManager.ts:43 | dropping `c` also removes the indexes of a collection named `c:x` |
| IndexManager.DropKeepsOtherCollections | src/storage/indexManager.ts:43 | the index of a collection whose name differs from `c`, is at least as long and does not start with `c:` survives dropping `c` |
| IndexManager.FindByIndex | src/storage/indexManager.ts:52-63 | a missing index gives `[]`; when the index holds an entry under `String(value)` that id list is returned, and when it holds none the answer is `[]` |
| IndexManager.IndexDocument | src/storage/indexManager.ts:26-28 | the placeholder leaves the index state unchanged |
| IndexManager.RemoveDocument | src/storage/indexManager.ts:35-37 | the placeholder leaves the index state unchanged |
| IndexManager.ReindexDocument | src/storage/indexManager.ts:30-33 | remove followed by index leaves the index state unchanged |
| IndexManager.OperationsKeepIndexesEmpty | src/storage/indexManager.ts:17-50 | creating and dropping indexes keeps every index empty |
| IndexManager.FindByIndexAlwaysEmpty | src/storage/indexManager.ts:52-63 | over empty indexes every lookup returns `[]` |
| TransactionManager.NewManager | src/storage/transactionManager.ts:28-32 | a new manager has no transactions and none active |
| TransactionManager.GetTransaction | src/storage/transactionManager.ts:103-105 | a record is returned exactly when the id is known, and it is the stored one |
| TransactionManager.GetActiveTransaction | src/storage/transactionManager.ts:107-109 | the active pointer: absent exactly when no transaction is active, and under the manager invariant a present one names a stored record |
| TransactionManager.BeginTransaction | src/storage/transactionManager.ts:34-49 | the new id is recorded as a pending transaction with no operations and becomes active; other records are unchanged |
| TransactionManager.BeginLeavesPreviousActive | src/storage/transactionManager.ts:34-49 | the previously active transaction is left exactly as it was |
| TransactionManager.AddOperation | src/storage/transactionManager.ts:51-63 | with no active id (or the empty one) nothing changes; otherwise the operation is appended to the active record only |
| TransactionManager.AddOperationsInOrder | src/storage/transactionManager.ts:51-63 | successive `addOperation` calls record their operations in call order |
| TransactionManager.Commit | src/storage/transactionManager.ts:65-82 | an unknown id gives false and no change; otherwise the record becomes COMMITTED whatever its state, its operations are kept, and the active pointer is cleared only if it named this record |
| TransactionManager.Rollback | src/storage/transactionManager.ts:84-101 | an unknown id gives false and no change; otherwise the record becomes ABORTED and nothing is undone; the active pointer is cleared only if it named this record |
| TransactionManager.CommitAfterRollback | src/storage/transactionManager.ts:65-101 | a rolled-back transaction can still be committed, and ends COMMITTED |
| TransactionManager.AddAfterCommitIsIgnored | src/storage/transactionManager.ts:51-82 | once the active transaction is committed, `addOperation` records nothing |
| Json.Lookup | src/query/planner.ts:104 | the field's value when present, `undefined` otherwise |
| Json.LessTransitive | src/query/planner.ts:111-118 | the relational operators' order is transitive on comparable values |
| Json.LessTotal | src/query/planner.ts:111-118 | of two comparable values, one is below the other or they are equal |
| Json.IncludesAt | src/query/planner.ts:122 | `includes` holds exactly when the needle occurs at some position of the string |
| QueryPlanner.CreatePlan | src/query/planner.ts:41-100 | the operations pushed one by one and the cost accumulated in the loop equal the plan whose layout `PlanLayout` fixes |
| QueryPlanner.ScanAndFilters | src/query/planner.ts:48-67 | the loop pushes a Scan and then one compiled Filter per filter in order, and the cost grows by 5 tenths per filter; absent or empty filters push nothing |
| QueryPlanner.PlanLayout | src/query/planner.ts:41-100 | a Scan of the collection comes first and only there; then one Filter per filter in order; then a Projection only for a non-empty field list, a Sort only when asked, and a Limit only for a non-zero count, in that order; no IndexLookup |
| QueryPlanner.BarePlanIsOneScan | src/query/planner.ts:41-100 | with no filters, projection, sort or limit, the plan is the single Scan |
| QueryPlanner.LimitZeroMeansNoLimit | src/query/planner.ts:86-91 | limit 0 is treated as no limit: the plan has no Limit operation |
| QueryPlanner.FilterOperations | src/query/planner.ts:57-67 | one Filter per filter, in the filters' order, each compiled from its filter |
| QueryPlanner.Matches | src/query/planner.ts:102-126 | the compiled predicate of one filter: `===` and its negation, `<`/`<=`/`>`/`>=` on comparable values, `in` as array membership, `contains` as a substring test of string forms, and true for any other operator; its contract states the unknown-operator and non-array `in` cases, and the lemmas below state every other operator |
| QueryPlanner.EqIsScalarEquality | src/query/planner.ts:107-108 | `eq` holds exactly when the field is present, the filter value is a scalar, and the two are equal; an array or object filter value matches nothing |
| QueryPlanner.RelationalOnNumbers | src/query/planner.ts:111-118 | against a number, `lt`, `lte`, `gt` and `gte` hold exactly when the field holds a number that is `<`, `<=`, `>` or `>=` the filter value |
| QueryPlanner.RelationalOnStrings | src/query/planner.ts:111-118 | against a string, the same four operators compare a string field lexicographically, the field on the left |
| QueryPlanner.NeIsNotEq | src/query/planner.ts:107-110 | `ne` accepts exactly the documents `eq` rejects |
| QueryPlanner.OrderOperatorsSplit | src/query/planner.ts:111-118 | on comparable values `gte` is `gt` or `eq`, and `lte` is `lt` or `eq` |
| QueryPlanner.InNeedsArray | src/query/planner.ts:119-120 | `in` with a value that is not an array matches nothing |
| QueryPlanner.InIsMembership | src/query/planner.ts:119-120 | `in` with an array matches exactly when the field holds a scalar that is among the array's elements |
| QueryPlanner.ContainsIsSubstring | src/query/planner.ts:121-122 | `contains` matches exactly when the filter value's string form occurs in the field value's string form |
| QueryPlanner.ContainsComparesStringForms | src/query/planner.ts:121-122 | the number 42 contains the number 4, because the string "42" contains "4" |
| QueryPlanner.UnknownOperatorMatchesAll | src/query/planner.ts:123-124 | an operator outside the known eight matches every document |
| QueryPlanner.OptimizePlan | src/query/planner.ts:129-132 | the plan is returned unchanged |
| QueryExecutor.Execute | src/query/executor.ts:18-37 | the loop's result is the left fold of the operations from no documents, and the count is the number of operations |
| QueryExecutor.FoldAppend | src/query/executor.ts:24-26 | executing two operation lists one after the other is executing their concatenation |
| QueryExecutor.ExecuteOperation | src/query/executor.ts:39-66 | a Scan depends only on the engine and its collection, IndexLookup yields `[]`, an unknown kind returns its input, and no operation other than Scan lengthens the list |
| QueryExecutor.ExecuteScan | src/query/executor.ts:68-75 | a missing or empty collection name, or a collection that does not exist, gives `[]`; otherwise every stored document of the collection in insertion order |
| QueryExecutor.ScanDiscardsEarlierWork | src/query/executor.ts:68-75 | a Scan discards the documents produced before it |
| QueryExecutor.ScanIgnoresInput | src/query/executor.ts:68-75 | Scan ignores its input, and a missing or empty collection name gives `[]` |
| QueryExecutor.FilterDocs | src/query/executor.ts:77-87 | the result is the subsequence of matching documents, each kept exactly as often as in the input |
| QueryExecutor.ExecuteFilter | src/query/executor.ts:77-87 | without a predicate the input passes through; with one, the result is `FilterDocs` of the input: an order-preserving subsequence holding each matching document as often as the input does, and nothing else |
| QueryExecutor.FiltersConjoin | src/query/executor.ts:77-87 | a run of Filter operations keeps exactly the documents that satisfy every one of its filters, in order |
| QueryExecutor.SelectAfterFilter | src/query/executor.ts:86 | filtering by one filter and then by the rest is filtering by all of them at once |
| QueryExecutor.ProjectDoc | src/query/executor.ts:99-109 | a projected document has `_id` and the listed fields the document has, with their values, and no other field |
| QueryExecutor.ExecuteProjection | src/query/executor.ts:89-110 | a missing or empty field list passes the input through; otherwise each document is projected and the length is kept |
| QueryExecutor.ProjectionKeepsId | src/query/executor.ts:100 | a projected document has the identifier of its source |
| QueryExecutor.ProjectionIdempotent | src/query/executor.ts:99-109 | projecting twice with the same fields is projecting once |
| QueryExecutor.ProjectionOnMissingField | src/query/executor.ts:103-105 | for every document and field list, a field the document lacks is not added by projection; e.g. projecting `age` from `{_id: "a"}` gives `{_id: "a"}` |
| QueryExecutor.SortIsStablePermutation | src/query/executor.ts:112-135 | sorting returns a permutation of its input; when the field values are comparable it is ordered by them, descending exactly for "desc", and documents with equal values keep their order |
| QueryExecutor.ExecuteSort | src/query/executor.ts:112-135 | a missing or empty sort field passes the input through; in every case the result is a permutation of the input |
| QueryExecutor.ExecuteLimit | src/query/executor.ts:137-147 | a missing or zero count passes the input through; otherwise the result is a prefix of the input whose length is `n` capped by the input length for positive `n`, and the input length reduced by `-n` (at least 0) for negative `n` |
| QueryExecutor.PlaceholderOperations | src/query/executor.ts:59-64 | IndexLookup yields no documents, and an unknown operation passes its input through |
| QueryExecutor.PlannedQuery | src/query/executor.ts:18-37 | executing a created plan lists the collection, keeps the documents matching every filter, then projects, sorts and limits, each only when requested |
| QueryExecutor.AgeQueryExample | src/query/executor.ts:18-37 | with ages 30, 20 and 25 stored under ids a, b and c, "age gte 21, sort by age ascending, limit 2" returns c and then a |
| DocSort.Insert | src/query/executor.ts:122-132 | insertion keeps every document and adds exactly the new one |
| DocSort.SortBy | src/query/executor.ts:122-132 | the sorted list is a permutation of the input |
| DocSort.PrecedesIsStrictOrder | src/query/executor.ts:123-131 | the comparator is negative exactly when the first value is below the second (ascending) or above it (descending) |
| DocSort.SortByInOrder | src/query/executor.ts:125-132 | with pairwise comparable values the result is in ascending, or descending, order |
| DocSort.SortByStable | src/query/executor.ts:125-132 | with pairwise comparable values, documents sharing a value keep their relative order |
| DocSort.TiesKeepOrder | src/query/executor.ts:125-132 | when no two field values are comparable, the comparator returns 0 for every pair and the sort returns the input unchanged |

## Left out

- Logging (`console.log`), `Date`/execution time and `async`/`Promise` are left out. No operation's result depends on them. `ExecutionResult` keeps `documents` and `operationsExecuted` only.
- Timestamps (`startedAt`, `completedAt`) of transaction records are left out. Nothing reads them.
- `randomUUID()` is a parameter; see above.
- Numbers are integers. `Json.Num(n)` and `Json.ValueString` agree with JavaScript numbers only for |n| ≤ 2^53; beyond that a JavaScript number loses precision, and `String(n)` switches to exponent form from 10^21 on. JavaScript's fractional numbers, `NaN` and their string forms are not modelled. The same goes for the floating-point rounding of the cost sum: `QueryPlanner.Plan` keeps the cost exactly, in tenths.
- Json.Less: `<`, `>`, `<=` and `>=` are modelled for two numbers or two strings; every other pairing is false. JavaScript would coerce (`null < 1`, `"10" > 9`, `true > false`). The sort comparator returns 0 for such pairs.
- Json.StrLess: compares Dafny characters (code points), where JavaScript compares UTF-16 code units. The two differ only above U+FFFF.
- Json.StrictEquals: arrays and objects are never strictly equal. Filter values are fresh objects, so they never share a reference with a stored document. Equality of two references to the same container is not expressible here.
- DocSort.SortBy: the model's comparator orders two numbers or two strings and calls every other pair a tie, which keeps the input order (`DocSort.TiesKeepOrder`). JavaScript agrees on keys that are all `null`, all missing, all objects, or `null` against missing: `<` and `>` are both false there, so those are ties in both. Keys that are all booleans or all arrays sort differently: JavaScript puts `false` before `true` and orders arrays by their string forms, while the model keeps the input order. Keys mixing numbers, strings, booleans and `null` are coerced by JavaScript (`null < 1`, `"10" > 9`). That comparator need not be consistent, and then the host sort's order is implementation-defined. Sortedness and stability are proved only for pairwise comparable values.
- QueryExecutor.ProjectDoc: reads fields with `in` on the document's own fields. Names inherited from `Object.prototype` (`constructor`, `toString`) are not modelled. A document without `_id` would get `_id: undefined` in `executeProjection` but no `_id` here. Stored documents always have `_id`.
- Json.Lookup: `doc[field]` for inherited property names is not modelled; a missing field is `undefined`.
- IndexManager.DropKeepsOtherCollections: requires the surviving collection's name to be at least as long as the dropped one. With a shorter name the index can be dropped, e.g. `d = "a"` with field `"b:z"` when dropping `c = "a:b"`. `IndexManager.DropCollectionIndexes` states the exact rule.
- The `unique` flag of an index definition is carried but never read, as in the TypeScript code.
- Copies (`{ ...doc }`) that `get`, `update` and `list` return are values here, so aliasing between caller and store cannot arise.
- The GraphQL schema and resolvers, the logger module and `main` are not part of this model.
