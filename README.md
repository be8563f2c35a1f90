# feathers-pinia service store, in Dafny

This project models the normalised record store behind every feathers-pinia
service store, plus the helpers, the live-event queue and the `LIKE`
operators that feed it. It proves what these parts promise.

- **Values** (`values.dfy`). JavaScript values are the datatype `Value`:
  - `Undefined`, `Null`, `Bool`, `Num`, `Str`, `Arr` and `Obj`;
  - `ObjectId`, for objects such as BSON ids that print as a hex string.

  A record is a map from property names to values. A key of a store table is
  the property key an id converts to (`ToString`). `Batch` is the "one record
  or an array of them" input that `getArray` normalises.
- **Helpers** (`utils.dfy`, `query_info.dfy`).
  - Identity: `getId`, `getTempId` and `getAnyId`.
  - Record cleaning: `cleanData` and `restoreTempIds`, plus `keyBy`.
  - Query fingerprints: `getQueryInfo`, and the shape of the pagination cache
    with `getItemsFromQueryInfo`.
- **Record tables** (`store_model.dfy`). What each synchronous store action
  does to `itemsById` and `tempsById`, as functions on values:
  - upsert, promotion of a temp record and removal;
  - the pending flags and the event locks;
  - the clone, commit and reset records.
- **Pagination** (`pagination.dfy`). `updatePaginationForQuery` and
  `unflagSsr` as functions on the pagination cache.
- **The store** (`service_store.dfy`).
  - The class `ServiceStore` holds the store's state as fields: the tables,
    the clones, the pending flags, the event locks and the pagination cache.
  - Its methods are the actions of `makeActions`, each proved against the
    functions above.
  - The network-backed actions `find`, `count`, `get`, `create`, `update`,
    `patch` and `remove` take the server's outcome as a parameter.
- **Live events** (`events.dfy`). `EventQueue` holds the add/update and
  removal queues. They cross-cancel per id and flush into a store. `Route` is
  the rule by which `handleEvent` applies or queues an event.
- **`LIKE`** (`like.dfy`). `like` rewrites its search string into a regular
  expression. The model writes the three rewrites out and reads the
  expression back into tokens. A recursive matcher then runs the tokens, and
  `RegexReadsAsPattern` proves that the rewrites mean the pattern's direct
  reading. The operator table `$like`, `$notLike`, `$ilike`, `$iLike` and
  `$notILike` is built on it.

Inputs a pure model cannot produce are parameters:
- the ids `new ObjectID()` would draw: `ServiceStore.newTempId`, counted by
  `tempIdsIssued`;
- the clock reading: `queriedAt`;
- the outcome of each service call: `Settled`;
- the store's `getFromStore` getter, whose body is not shown: a function
  parameter of `find` and `get`;
- the result of a `handleEvents` handler.

Synchronous exceptions of the source are results:
- copying an undefined record, writing through an undefined page, an
  unknown event's lock table, or a response longer than the request all
  become `Rejected(TypeError)` or `Some(TypeError)`;
- every other part of the state stays as the source leaves it at the throw.

Where the model follows the code rather than the description of the store:
- `markAsClone` and `hasOwn` are not shown. `markAsClone` is taken to set the
  ordinary field `__isClone` to true, and `hasOwn` to be
  `Object.prototype.hasOwnProperty.call`.
- With that reading, `commit` copies `__isClone` into the canonical record.
  tests/model-instance-clone-and-commit.test.ts:42 expects it to be absent,
  which needs a marker `commit` does not copy.
- `handleFindResponse` defaults `qid` to `'default'` only when it is
  undefined, via a destructuring default. `getQueryInfo` uses `||`, so an
  empty `qid` is kept by one and replaced by the other (`HandlerQid` and
  `QidOf`).
- `addOrMergeToStore` keys live records by `getAnyId(item)`, which probes
  `id`/`_id` but not `idField`. It chooses the table with
  `getId(item, idField)`, and `handleFindResponse` reads records back by
  `getId(item, idField)`. The model keeps the keys as written.
- `eventLocksById` starts with the four event names, each with an empty
  lock table.

## Model

| member | source | states |
|---|---|---|
| Values.GetArray | src/utils.ts:168-173 | an array gives its items and `isArray`; a single value gives a one-item list |
| Values.InShape | src/service-store/make-actions.ts:310 | `isArray ? results : results[0]`: the answer has the input's shape and holds the results |
| Utils.StringifyIfObject | src/utils.ts:8-13 | the result is never an object, has the same property key as the input, and equals non-objects |
| Utils.GetId | src/utils.ts:23-37 | undefined for a falsy item; else the first own property of `idField` (or "undefined"), `id`, `_id`, passed through `toString` if it is an object; undefined when none is present; never an object |
| Utils.GetTempId | src/utils.ts:38-43 | reads `__tempId` and nothing else |
| Utils.GetAnyId | src/utils.ts:44-47 | `getId` without an `idField` when that is not nullish, else the temp id |
| Utils.IdentityStable | src/utils.ts:23-37 | merging fields other than the three probed ones leaves `getId` unchanged |
| Utils.TempIdReadsOnlyTempField | src/utils.ts:38-43 | two records that agree on `__tempId` have the same temp id |
| Utils.AssignTempId | src/utils.ts:106-110 | adds exactly `__tempId`, set to the fresh id, and keeps every other field |
| Utils.Clean | src/utils.ts:117-122 | removes exactly `__isClone` and `__tempId` and keeps every other field's value |
| Utils.CleanData | src/utils.ts:117-122 | keeps the array/single shape and the length, and cleans every item |
| Utils.CleanDataIdempotent | src/utils.ts:117-122 | cleaning twice is cleaning once |
| Utils.RestoreTempIds | src/utils.ts:136-148 | response item `i` gets source item `i`'s truthy `__tempId`; the shape follows the source; a single source with an empty response gives undefined (`None`) |
| Utils.Restored | src/utils.ts:141-145 | with a truthy source temp id, the response gains exactly `__tempId` with that value; otherwise it is unchanged |
| Utils.KeyBy | src/utils.ts:93-99 | a non-empty list always has its last item's key in the result |
| Utils.KeyByContents | src/utils.ts:93-99 | every item's key is present, every key comes from an item, and the last item with a key is its value |
| QueryInfo.Stringify | src/utils.ts:59-60 | the fingerprint is determined by the JSON value |
| QueryInfo.StringifyInjective | src/utils.ts:59-60 | two values share a fingerprint exactly when their JSON values agree |
| QueryInfo.GetQueryInfo | src/utils.ts:49-74 | `qid` is `params.qid` or 'default'; `queryParams` is the query without `$limit`/`$skip`, and `queryId` is its fingerprint; the effective limit/skip prefer non-null response values; `pageParams`/`pageId` exist exactly when the effective limit is defined |
| QueryInfo.QueryIdIgnoresPaging | src/utils.ts:59-60 | queries that differ only in `$limit`/`$skip` share a `queryId` |
| QueryInfo.PagingOnlyQueryHasEmptyId | src/utils.ts:59-60 | a paging-only query has the empty query's fingerprint |
| QueryInfo.DifferentWindowsDifferentPages | src/utils.ts:61-62 | different `{ $limit, $skip }` pairs give different page ids; stated for numeric windows only |
| QueryInfo.SkipAloneHasNoPage | src/utils.ts:61-62 | `$skip` without a limit gives neither `pageParams` nor `pageId` |
| QueryInfo.PageOf | src/utils.ts:80-82 | the page exists exactly when the query level and the page level exist |
| QueryInfo.GetItemsFromQueryInfo | src/utils.ts:76-91 | `[]` when the page is missing; else one entry per stored id, in order, looked up in the table |
| StoreModel.Merge | src/service-store/make-actions.ts:527-530 | the item's fields override the existing record's, and the existing record's other fields are kept |
| StoreModel.MergeTwice | src/service-store/make-actions.ts:529 | merging the same fields twice is merging once |
| StoreModel.WithTempId | src/service-store/make-actions.ts:522-523 | an item bound for `tempsById` without a truthy temp id gets the fresh one; other items are unchanged |
| StoreModel.MergeInto | src/service-store/make-actions.ts:526-537 | only the chosen table changes, and only at the key; the key then holds the merged record |
| StoreModel.AddOrMerge | src/service-store/make-actions.ts:520-538 | the table is chosen by `getId(item, idField)`; the record goes in under `getAnyId` of the item with its temp id; the merged record is returned |
| StoreModel.MoveTemp | src/service-store/make-actions.ts:313-325 | an existing temp moves to `itemsById[id]`, merged with the data and without the temp field; without one both tables are unchanged; the data always loses the temp field; the result is `itemsById[id]` |
| StoreModel.UpsertOne | src/service-store/make-actions.ts:302-308 | defined as: a record with both ids goes through `MoveTemp`, any other through `AddOrMerge`; its properties are the lemmas below |
| StoreModel.UpsertAll | src/service-store/make-actions.ts:298-311 | one result per item, in order, each item applied to the tables the previous ones left |
| StoreModel.UpsertAllStep | src/service-store/make-actions.ts:302-308 | the first `i + 1` items are the first `i` items followed by item `i` |
| StoreModel.UpsertAllInOrder | src/service-store/make-actions.ts:302-308 | result `i` is what upserting item `i` into the tables left by the items before it gives |
| StoreModel.UpsertOthersUntouched | src/service-store/make-actions.ts:520-538 | upserting a record leaves every other key of both tables as it was |
| StoreModel.UpsertWithoutIdGoesToTemps | src/service-store/make-actions.ts:522-530 | a record without a permanent id leaves `itemsById` alone and lands in `tempsById` carrying a truthy temp id |
| StoreModel.UpsertIdempotent | src/service-store/make-actions.ts:520-538 | adding a record that is not a promotion, then the record as the caller holds it afterwards, equals adding it once |
| StoreModel.PromotionIdempotent | src/service-store/make-actions.ts:302-325 | re-adding a promoted record as the caller holds it afterwards changes nothing, when its temp entry existed and `getAnyId` files it under the permanent id's key |
| StoreModel.WithTempIdSettles | src/service-store/make-actions.ts:522-523 | a record that has a temp id keeps its table and gets no second one |
| StoreModel.CustomTempIdFieldRedraws | src/service-store/make-actions.ts:522-524 | with a `tempIdField` other than `__tempId`, adding a record without ids twice draws a second temp id: the guard reads `tempIdField`, `assignTempId` (src/utils.ts:106-109) writes `__tempId` |
| StoreModel.PromotionMovesTemp | src/service-store/make-actions.ts:313-325 | when the temp exists, it leaves `tempsById`, and `itemsById[id]` holds the data's fields without `__tempId` |
| StoreModel.RemovalKey | src/service-store/make-actions.ts:277-279 | an item's permanent id, else its temp id; nothing when both are nullish |
| StoreModel.RemovalKeys | src/service-store/make-actions.ts:275-279 | exactly the keys the items resolve to |
| StoreModel.SetPending | src/service-store/make-actions.ts:454-459 | a nullish id changes nothing; otherwise only `pendingById[id][method]` is set to the value |
| StoreModel.SetPendingLastWins | src/service-store/make-actions.ts:454-459 | setting a flag twice keeps the second value |
| StoreModel.Toggle | src/service-store/make-actions.ts:510-517 | flips one id's lock and leaves every other id alone |
| StoreModel.ToggleAll | src/service-store/make-actions.ts:508-518 | defined as `Toggle` applied to each id in order; its properties are `ToggleAllParity` and `ToggleAllLocks` |
| StoreModel.ToggleAllStep | src/service-store/make-actions.ts:510-517 | the ids are toggled in order |
| StoreModel.ToggleAllParity | src/service-store/make-actions.ts:508-518 | after a list of toggles an id is locked iff it was locked XOR it occurs an odd number of times; only `true` is stored |
| StoreModel.ToggleAllLocks | src/service-store/make-actions.ts:508-518 | the parity law for every id at once, and only `true` is stored |
| StoreModel.ToggleTwiceRestores | src/service-store/make-actions.ts:508-518 | toggling an id twice restores the locks |
| StoreModel.CloneOf | src/service-store/make-actions.ts:346-351 | the canonical record's fields, then `__isClone: true`, then `data` |
| StoreModel.ResetClone | src/service-store/make-actions.ts:383-391 | keys are exactly the canonical keys plus `__isClone`; values come from `data` where it overrides a canonical key, else from the canonical record |
| StoreModel.ResetForgetsScratch | src/service-store/make-actions.ts:383-390 | the clone's previous content does not affect the result |
| StoreModel.CommitOf | src/service-store/make-actions.ts:365-366 | the clone's fields overridden by `data` |
| StoreModel.CommitThenResetAgrees | tests/model-instance-clone-and-commit.test.ts:33-54 | an edit committed from a clone is in the canonical record, and a reset gives back a clone with the canonical keys |
| Pagination.StoredPage | src/service-store/make-actions.ts:428 | the page exists exactly when the qid, the query and the page levels exist |
| Pagination.AfterQuery | src/service-store/make-actions.ts:399-452 | `mostRecent` is overwritten; the query's `total` and `queryParams` are overwritten; the page holds `pageParams`, the data's ids in order, `queriedAt` and the ssr flag (`preserveSsr` ? the old page's flag : the `ssr` option); other pages, queries and qids are kept; `defaultLimit`/`defaultSkip` change only when the query lacks the key and the response has it |
| Pagination.ReadBackAfterQuery | src/service-store/make-actions.ts:399-452 | reading the stored page back gives the response's records in order |
| Pagination.SsrPreservedOnRefetch | src/service-store/make-actions.ts:441 | with `preserveSsr`, refetching an SSR page keeps its flag |
| Pagination.Unflagged | src/service-store/make-actions.ts:466-472 | no result when the page is not cached; else only that page's `ssr` becomes false |
| ServiceStores.ServerPage.Normalized | src/service-store/make-actions.ts:113 | a bare array becomes `{ data }` |
| ServiceStores.FoundPrefix | src/service-store/make-actions.ts:82 | the getter's records for the ids, in order, up to the first id it does not find |
| ServiceStores.SsrResponseAsWritten | src/service-store/make-actions.ts:81-87 | fails exactly when the page has no `pageParams` |
| ServiceStores.SsrFastPathThrowsOnUnpaginatedPage | src/service-store/make-actions.ts:62-87 | a `find` without `$limit` whose response has no `limit` either (a bare array, or a service without pagination) stores, under SSR, an ssr-flagged page without `pageParams`; the fast path as written fails on it |
| ServiceStores.SsrResponse | src/service-store/make-actions.ts:81-87 | the corrected response agrees with the written one on every paginated page |
| ServiceStores.SsrFastPathAnswersUnpaginatedPage | src/service-store/make-actions.ts:62-87 | on that same page the corrected fast path answers with the cached records, the query's total and an undefined `limit` and `skip` |
| ServiceStores.CreatePendingKey | src/service-store/make-actions.ts:190-192 | `getId(data, idField)` when truthy, else `data[tempIdField]` |
| ServiceStores.StoreRecords | src/service-store/make-actions.ts:123 | one store lookup per response record, by `getId(i, idField)` |
| ServiceStores.HandleFind | src/service-store/make-actions.ts:109-130 | the tables are `UpsertAll` of the records; the page filed is the records as `addOrUpdate` left them (temp ids assigned or removed); the answer has one entry per record: the store's version by `getId(i, idField)` when the first one is stored, else the changed response record; `total`, `limit`, `skip` and `fromSsr` are passed through |
| ServiceStores.HandledAnswerIsStoredPage | src/service-store/make-actions.ts:122-125 | when the store's records answer, the answer is what reading the filed page back from `itemsById` gives, position by position |
| ServiceStores.RestoredBatch | src/utils.ts:136-148 | what `restoreTempIds` returns when it does not throw |
| ServiceStores.ServiceStore.constructor | src/service-store/types.ts:108-126 | empty tables, one empty lock table per event name, no temp id drawn yet; asks that the temp ids drawn be non-empty and pairwise distinct, as `ObjectID` hex strings are (src/utils.ts:106-109) |
| ServiceStores.ServiceStore.AddOrMergeToStore | src/service-store/make-actions.ts:520-538 | the new tables are `AddOrMerge` of the old; the stored record is returned |
| ServiceStores.ServiceStore.MoveTempToItems | src/service-store/make-actions.ts:313-325 | the new tables and the result are `MoveTemp` of the old |
| ServiceStores.ServiceStore.UpsertItem | src/service-store/make-actions.ts:302-308 | a record with both ids is promoted; any other is added or merged |
| ServiceStores.ServiceStore.AddOrUpdate | src/service-store/make-actions.ts:298-311 | the new tables are `UpsertAll` of the old with the next temp ids; the result has the input's shape; nothing else changes |
| ServiceStores.ServiceStore.RemoveFromStore | src/service-store/make-actions.ts:274-288 | every resolved key leaves `itemsById`, `tempsById`, `clonesById` and `pendingById`; the event locks are unchanged; the input is returned |
| ServiceStores.ServiceStore.ClearAll | src/service-store/make-actions.ts:327-331 | the three record tables are empty; nothing else changes |
| ServiceStores.ServiceStore.CreateClone | src/service-store/make-actions.ts:344-356 | stores and returns `CloneOf` the canonical record; a TypeError without one |
| ServiceStores.ServiceStore.ResetExisting | src/service-store/make-actions.ts:379-392 | the clone becomes `ResetClone`; without a canonical record, the TypeError `hasOwn(undefined, key)` raises |
| ServiceStores.ServiceStore.Clone | src/service-store/make-actions.ts:333-357 | with an existing clone: `useExisting` returns it unchanged, otherwise it is reset with all three outcomes of `ResetExisting`; else a new clone or a TypeError; the canonical tables are unchanged |
| ServiceStores.ServiceStore.Reset | src/service-store/make-actions.ts:375-393 | without a clone, as `clone`; with one, `ResetClone` in place, or without a canonical record `{ __isClone: true }` for an empty clone and data, else the clone merged with `data` and a TypeError; the canonical tables are unchanged |
| ServiceStores.ServiceStore.Commit | src/service-store/make-actions.ts:359-373 | `CommitOf` the clone is written to `tempsById` (temp item) or `itemsById` at the id and returned; the clone stays; without an id, nothing changes and the result is undefined |
| ServiceStores.ServiceStore.UpdatePaginationForQuery | src/service-store/make-actions.ts:399-452 | the new cache is `AfterQuery` of the old; nothing else changes |
| ServiceStores.ServiceStore.UnflagSsr | src/service-store/make-actions.ts:466-472 | the new cache is `Unflagged` of the old; a TypeError when the page is missing |
| ServiceStores.ServiceStore.SetPendingById | src/service-store/make-actions.ts:454-459 | the new flags are `SetPending` of the old; for a non-null id the flag reads back as the value |
| ServiceStores.ServiceStore.ToggleEventLock | src/service-store/make-actions.ts:463-465 | the event's locks become `ToggleAll` of the ids, with the parity law; an unknown event with ids is a TypeError |
| ServiceStores.ServiceStore.HandleFindResponse | src/service-store/make-actions.ts:109-130 | the tables, the pagination cache and the answer are exactly `HandleFind` of the old state with the next temp ids; pending flags, clones and locks are unchanged |
| ServiceStores.ServiceStore.AnswerFromCache | src/service-store/make-actions.ts:80-95 | the cache is unflagged first unless `preserveSsr`; when the getter finds every cached id, the answer, tables and cache are `HandleFind` of the records with the cached page's `limit`/`skip` and total, `fromSsr`; otherwise the records found are upserted and the answer is a TypeError |
| ServiceStores.ServiceStore.AnswerFromServer | src/service-store/make-actions.ts:94-96 | a failure passes through with the tables, cache and temp-id count unchanged; an answer gives the tables, cache and answer of `HandleFind` on the normalised response, not `fromSsr` |
| ServiceStores.ServiceStore.Find | src/service-store/make-actions.ts:60-100 | an ssr-flagged cached page is answered as `AnswerFromCache` states, without a request; otherwise the request is marked paginated exactly when the params say so, and the outcome is handled as `AnswerFromServer` states; the `find` flag ends cleared |
| ServiceStores.ServiceStore.Count | src/service-store/make-actions.ts:139-152 | the query is sent with `$limit` 0; the outcome passes through; the `count` flag ends cleared |
| ServiceStores.ServiceStore.Get | src/service-store/make-actions.ts:157-183 | with `skipRequestIfExists` a record already there answers and no request is made; else the fetched record is upserted and `itemsById[id]` answers; the `get` flag ends cleared |
| ServiceStores.ServiceStore.Create | src/service-store/make-actions.ts:185-208 | sends the cleaned data; the answer with restored temp ids is upserted; a too-long or empty-for-single answer is a TypeError; a single record's `create` flag ends cleared |
| ServiceStores.ServiceStore.Update | src/service-store/make-actions.ts:209-226 | sends the cleaned record; the answer is upserted; the `update` flag ends cleared |
| ServiceStores.ServiceStore.Patch | src/service-store/make-actions.ts:227-247 | `params.data` replaces `data`; sends it cleaned; the answer is upserted; the `patch` flag ends cleared |
| ServiceStores.ServiceStore.Remove | src/service-store/make-actions.ts:256-273 | on success the answer's records are purged after the flag clears; on failure only the flag clears |
| Events.MutationOf | src/service-store/events.ts:89-104 | the `removed` listener names `removeFromStore`, and only it does |
| Events.HandlerResult.Payload | src/service-store/events.ts:74-76 | the pair's `modified`, defaulting to the event's item |
| Events.Route | src/service-store/events.ts:71-86 | defined as: nothing without `affectsStore`; undebounced, `removed` or the remove mutation applies the payload as a removal and the rest as an add-or-update; debounced, the event's own item is queued; its properties are the two lemmas below |
| Events.UnconfirmedIsIgnored | src/service-store/events.ts:77 | an event is ignored exactly when the handler does not confirm it |
| Events.EventKindRouting | src/service-store/events.ts:77-84 | `removed` goes to removal and the rest to add-or-update; debounced, the event's own item is queued; otherwise `modified` is applied |
| Events.Without | src/service-store/events.ts:37 | the key order after `delete`: exactly the other keys, still distinct |
| Events.Queue.Put | src/service-store/events.ts:35 | sets the id's item and keeps the queue well formed |
| Events.Queue.Delete | src/service-store/events.ts:37 | drops the id and keeps the queue well formed |
| Events.LastEnqueueWins | src/service-store/events.ts:35 | queuing an id twice keeps only the second item |
| Events.PutThenDeleteForgets | src/service-store/events.ts:35-37 | putting a new id and deleting it restores the queue |
| Events.EventQueue.constructor | src/service-store/events.ts:30-32 | both queues start empty |
| Events.EventQueue.EnqueueAddOrUpdate | src/service-store/events.ts:33-40 | `addOrUpdateById[id] = item`; `id` leaves `removeItemById`; the queues stay disjoint |
| Events.EventQueue.EnqueueRemoval | src/service-store/events.ts:41-48 | `removeItemById[id] = item`; `id` leaves `addOrUpdateById`; the queues stay disjoint |
| Events.EventQueue.FlushAddOrUpdateQueue | src/service-store/events.ts:49-58 | an empty queue does nothing; otherwise the store upserts the queued records in key order, and the queue empties |
| Events.EventQueue.FlushRemoveItemQueue | src/service-store/events.ts:59-68 | an empty queue does nothing; otherwise the store removes the queued records, and the queue empties |
| Events.EventQueue.HandleEvent | src/service-store/events.ts:71-86 | `Performed` of the action `Route` names: for each action, the new store tables, clones, pending flags, temp-id count and both queues; locks and pagination are unchanged |
| Events.EventQueue.OnEvent | src/service-store/events.ts:89-104 | the same full effect, `Performed` of `Route` with the mutation the event's listener names |
| Like.Fold | src/utils-custom-operators.ts:16-18 | ASCII lower-case letters map to upper case; every other character is unchanged |
| Like.RegexSource | src/utils-custom-operators.ts:6-10 | defined as the three rewrites in order, each character by character; what it means is `RegexReadsAsPattern` |
| Like.RewriteOfChar | src/utils-custom-operators.ts:8-10 | after the three rewrites, a special becomes `\c`, `%` becomes `.*`, `_` becomes `.`, and every other character stays itself |
| Like.RegexSourceNoLeadingStar | src/utils-custom-operators.ts:6-10 | no rewritten search starts with a bare `*` |
| Like.ParseRegex | src/utils-custom-operators.ts:12 | the reading of the regular expression's source into tokens (`\c` a literal, `.*` a run, `.` one character, `^`/`$` anchors); a bare special reads as nothing; any other character, `%` and `_` included, reads as itself |
| Like.RegexCharToken | src/utils-custom-operators.ts:12 | an unescaped `^` is the start anchor, `$` the end anchor, anything else a literal |
| Like.UnrewrittenWildcardsAreLiterals | src/utils-custom-operators.ts:10-12 | only the rewrites make `%`/`_` wildcards: read straight from the regex source they match themselves, unlike the SQL reading of the search |
| Like.Matches | src/utils-custom-operators.ts:12 | how `RegExp(...).test` runs the tokens: literals compared (folded with `i`), `.` and `.*` over non-line-terminators, anchors at the ends |
| Like.RegexReadsAsPattern | src/utils-custom-operators.ts:5-13 | the escaped and replaced search reads back as the pattern's direct reading, for every search |
| Like.ReadCharRegex | src/utils-custom-operators.ts:8-10 | one character's rewrite, in front of any readable rest that does not start with `*`, reads back as that character's token |
| Like.LikeWith | src/utils-custom-operators.ts:5-13 | defined as the matcher run on the reading of the rewritten search; `false` when it does not read |
| Like.Like | src/utils-custom-operators.ts:5 | `LikeWith` with the default options `g` |
| Like.ILike | src/utils-custom-operators.ts:16-18 | `LikeWith` with the options `ig` |
| Like.LikeMeansPattern | src/utils-custom-operators.ts:5-13 | `like` is the anchored matcher applied to that reading |
| Like.RunMatchesRest | src/utils-custom-operators.ts:10 | `%` matches any run up to the end that contains no line terminator |
| Like.PercentMatchesAnything | src/utils-custom-operators.ts:10-12 | `like(v, '%')` holds exactly for values without line terminators |
| Like.UnderscoreMatchesOneChar | src/utils-custom-operators.ts:10-12 | `like(v, '_')` holds exactly for one character that is not a line terminator |
| Like.LiteralMatchesItself | src/utils-custom-operators.ts:6-12 | a literal pattern matches exactly its own characters, to the end |
| Like.LiteralSearchMatchesOnlyItself | src/utils-custom-operators.ts:6-12 | anchored literals: a search without `%`, `_`, `^`, `$` matches only the equal value, specials included |
| Like.PrefixMatches | src/utils-custom-operators.ts:10-12 | a literal followed by `%` matches from `i` exactly when the literal comes next |
| Like.StartsWithSearch | src/utils-custom-operators.ts:10-12 | `like(v, s + '%')` is a prefix test |
| Like.FoldedMatch | src/utils-custom-operators.ts:16-18 | matching with the `i` flag is matching the folded pattern on the folded value |
| Like.ILikeIsFoldedLike | src/utils-custom-operators.ts:16-18 | `iLike(v, s)` is `like` of both folded |
| Like.LikeImpliesILike | src/utils-custom-operators.ts:16-18 | what matches case-sensitively also matches ignoring case |
| Like.LikeThenILike | src/utils-custom-operators.ts:16-18 | `like` implies `iLike` |
| Like.Test | src/utils-custom-operators.ts:20-34 | defined as what each operator applies to the value's string: `like`, its negation, `iLike`, its negation |
| Like.OperatorTable | src/utils-custom-operators.ts:20-42 | the five operator names; `$notLike`/`$notILike` negate `$like`/`$ilike`; `$iLike` is `$ilike` |

## Left out

- Promise plumbing and the transport: each service call's outcome is a parameter. Overlapping requests, and their interleaving, are not modelled.
- The `await` gap in `flushAddOrUpdateQueue`, the debounce timer with its `maxWait`, and listener registration with `Model.emit`: a flush is an explicit method.
- UpsertWithoutIdGoesToTemps: stated only for a `tempIdField` of `__tempId` (`Conventional`). The guard tests `item[tempIdField]` but `assignTempId` always writes `__tempId`, so with any other field a record whose `tempIdField` is already set gets no `__tempId` at all, and one whose `tempIdField` is empty gets a fresh `__tempId` on every add (`CustomTempIdFieldRedraws`).
- UpsertIdempotent: stated only for a `tempIdField` of `__tempId` (`Conventional`); with any other field the second add draws a fresh temp id, as `CustomTempIdFieldRedraws` proves.
- PromotionIdempotent: stated only for a `tempIdField` of `__tempId` (`Conventional`), for the same reason as `UpsertIdempotent`.
- WithTempIdSettles: stated only for a `tempIdField` of `__tempId` (`Conventional`); with any other field a record carrying `__tempId` is given a new one (`CustomTempIdFieldRedraws`).
- UpsertIdempotent: not stated for a promotion (a record with both ids). `PromotionIdempotent` covers the promotion whose temp entry exists, when `getAnyId` and `getId(item, idField)` give the same key. A promotion whose temp entry is gone is not idempotent: the first call stores nothing, the second stores the record.
- Find: when the ssr-flagged page has no `pageParams`, the model takes the corrected response (see Findings). The source's synchronous throw, which leaves the `find` flag set, is exhibited only by `SsrFastPathThrowsOnUnpaginatedPage`.
- Find, Get: `getFromStore` is a parameter because its body is not shown. `find`'s `params.paginate = { default: true }` rewrite is reported as `requested`.
- Find: the result of the `afterFind` hook is its identity. Errors go to `handleFindError`, which rethrows.
- Events.EventQueue.FlushAddOrUpdateQueue: the queue's key order is insertion order. JavaScript enumerates integer-like keys first, in ascending order; that order is not modelled.
- Events.EventQueue.HandleEvent: `affectsStore` and the debounce time are taken as a boolean and an integer. Their JavaScript truthiness for other values is not modelled.
- Like.ILike: case folding covers ASCII letters only. JavaScript's `i` flag also folds other letters that `toUpperCase` maps.
- Like: characters are Unicode scalar values, not UTF-16 code units, so `_` matches one astral character where JavaScript's `.` matches half of one.
- Like.Test: sift's `createEqualsOperation` (array values, nested queries) is not modelled. The value is converted to a string, as `RegExp.prototype.test` does.
- Like: a non-string search (`search.replace` throws) is not modelled.
- `fast-copy` is a value copy. `fast-json-stable-stringify` is represented by the JSON value it serialises.
- Model constructors, `instanceof`/`isSsr` reconstruction and `copyAssociations`: a constructed record carries the same fields, and associations are left out.
- `getSaveParams`, `unref` and `set`: the parameters are taken as given, and the setters are updates.
- `hydrateAll`, the alias `addToStore`, and the Vue `useFind`/`useGet`/`useGetOnce` wrappers: they are aliases or UI over code not shown.
- `useCleanData`: its `forEach` returns undefined, so it never yields a copy. It is out of the model.
- Number ids: ids are integers, so the text of non-integer numbers is not modelled.
- Aliasing: as the source merges with `Object.assign`, stored records become caller objects. The model stores values, and returns any change to the caller's record, such as temp ids assigned or deleted, as an explicit result.

## Findings

| source | as written | input that shows it | evidently intended | confidence | as-written member | corrected member |
|---|---|---|---|---|---|---|
| src/service-store/make-actions.ts:81-87 | the SSR fast path of `find` reads `pageData.pageParams.$limit` | in a store with `ssr: true`, `find({ query: {} })` on a service whose response has no `limit` (a bare array, or pagination off) stores its page with `pageParams` undefined; the same `find` again then throws a TypeError before any promise, and the `find` flag stays set | answer from the cache with an undefined `limit` and `skip` | not executed | ServiceStores.SsrResponseAsWritten | ServiceStores.SsrResponse |
