/** The state of one service store and its actions
    (src/service-store/make-actions.ts). Each method is specified by the
    value-level functions of StoreModel and Pagination. */
module ServiceStores {
  import opened Wrappers
  import opened Values
  import opened Utils
  import opened QueryInfo
  import opened StoreModel
  import opened Pagination

  /** The key the model-level pending flags (`find`, `count`, `get`) live under. */
  const ModelKey: Value := Str("Model")

  /** The event names `eventLocksById` starts with. */
  const EventNames: set<string> := {"created", "updated", "patched", "removed"}

  /** What `service.find` resolves with: a paginated page, or a bare array. */
  datatype ServerPage = Paginated(page: FindResponse) | Plain(items: seq<Record>)
  {
    /** `if (Array.isArray(response)) response = { data: response }` */
    function Normalized(): (r: FindResponse)
      ensures Plain? ==> r == FindResponse(items, None, None, None)
      ensures Paginated? ==> r == page
    {
      match this
      case Paginated(p) => p
      case Plain(xs) => FindResponse(xs, None, None, None)
    }
  }

  /** What `find` resolves with: the normalised response whose `data` holds
      the store's records (`Undefined` for one it lacks) or the response's own
      records, and whether it was served from the SSR cache (`fromSsr`). */
  datatype FoundPage = FoundPage(data: seq<Value>, total: Option<Value>, limit: Option<Value>, skip: Option<Value>, fromSsr: bool)

  /** The records as the values an array of them holds. */
  function AsValues(records: seq<Record>): (vs: seq<Value>)
    ensures |vs| == |records| && forall i :: 0 <= i < |records| ==> vs[i] == Obj(records[i])
  {
    seq(|records|, i requires 0 <= i < |records| => Obj(records[i]))
  }

  /** `itemsById[getId(i, idField)]` as a value: the record, or `Undefined`. */
  function LookupValue(table: map<string, Record>, id: Value): (v: Value)
    ensures ToString(id) in table ==> v == Obj(table[ToString(id)])
    ensures ToString(id) !in table ==> v == Undefined
  {
    if ToString(id) in table then Obj(table[ToString(id)]) else Undefined
  }

  /** The records retrieved through the store's getter for the ids of an SSR
      page, in order, up to the first id the getter does not find. */
  function FoundPrefix(ids: seq<Value>, getFromStore: Value -> Option<Record>): (r: seq<Record>)
    ensures |r| <= |ids|
    ensures forall i :: 0 <= i < |r| ==> getFromStore(ids[i]) == Some(r[i])
    ensures |r| < |ids| ==> getFromStore(ids[|r|]).None?
    decreases |ids|
  {
    if |ids| == 0 then []
    else match getFromStore(ids[0])
      case None => []
      case Some(rec) => [rec] + FoundPrefix(ids[1..], getFromStore)
  }

  /** The response the SSR fast path of `find` builds from a cached page, as
      written: reading `pageParams.$limit` throws (here `None`) when the page
      was stored without `pageParams`. */
  function SsrResponseAsWritten(page: PageData, total: Value, data: seq<Record>): (r: Option<FindResponse>)
    ensures r.None? <==> page.pageParams.None?
    ensures r.Some? ==> r.value == FindResponse(data, Some(total), Some(page.pageParams.value.limit), Some(page.pageParams.value.skip))
  {
    match page.pageParams
    case None => None
    case Some(pp) => Some(FindResponse(data, Some(total), Some(pp.limit), Some(pp.skip)))
  }

  /** The SSR response with `pageParams` read optionally: an unpaginated page
      gives an undefined `limit` and `skip`. */
  function SsrResponse(page: PageData, total: Value, data: seq<Record>): (r: FindResponse)
    ensures r.data == data && r.total == Some(total)
    ensures page.pageParams.Some? ==> Some(r) == SsrResponseAsWritten(page, total, data)
    ensures page.pageParams.None? ==> r.limit == Some(Undefined) && r.skip == Some(Undefined)
  {
    match page.pageParams
    case None => FindResponse(data, Some(total), Some(Undefined), Some(Undefined))
    case Some(pp) => FindResponse(data, Some(total), Some(pp.limit), Some(pp.skip))
  }

  /** The fast path as written throws on a cached page of an unpaginated
      query: a `find` without `$limit` whose response carries no `limit`
      either (a bare array, or a service without pagination) stores its page
      during SSR under the undefined `pageId` with no `pageParams`, and the
      same `find` afterwards reads `pageParams.$limit` from it. */
  lemma SsrFastPathThrowsOnUnpaginatedPage(query: Query, total: Value, data: seq<Record>, t: int)
    requires "$limit" !in query
    ensures var params := Params(Some(query), None, false, false);
      var info := GetQueryInfo(params, NoWindow);
      var stored := AfterQuery(EmptyPagination, "id", true, "default", query, false, FindResponse(data, None, None, None), t);
      && StoredPage(stored, info.qid, info).Some?
      && StoredPage(stored, info.qid, info).value.ssr
      && SsrResponseAsWritten(StoredPage(stored, info.qid, info).value, total, data).None?
  {
    var params := Params(Some(query), None, false, false);
    var info := GetQueryInfo(params, NoWindow);
    assert info == InfoFor("default", query, FindResponse(data, None, None, None));
  }

  /** On the same cached page the corrected fast path answers with the
      page's records, the query's total, and an undefined `limit` and `skip`. */
  lemma SsrFastPathAnswersUnpaginatedPage(query: Query, total: Value, data: seq<Record>, t: int)
    requires "$limit" !in query
    ensures var params := Params(Some(query), None, false, false);
      var info := GetQueryInfo(params, NoWindow);
      var stored := AfterQuery(EmptyPagination, "id", true, "default", query, false, FindResponse(data, None, None, None), t);
      && StoredPage(stored, info.qid, info).Some?
      && SsrResponse(StoredPage(stored, info.qid, info).value, total, data) ==
           FindResponse(data, Some(total), Some(Undefined), Some(Undefined))
  {
    var params := Params(Some(query), None, false, false);
    var info := GetQueryInfo(params, NoWindow);
    assert info == InfoFor("default", query, FindResponse(data, None, None, None));
  }

  /** `getId(data, idField) || data[tempIdField]`: the key `create` flags. */
  function CreatePendingKey(cfg: Config, item: Record): (k: Value)
    ensures Truthy(GetId(Obj(item), Some(cfg.idField))) ==> k == GetId(Obj(item), Some(cfg.idField))
    ensures !Truthy(GetId(Obj(item), Some(cfg.idField))) ==> k == Get(item, cfg.tempIdField)
  {
    var id := GetId(Obj(item), Some(cfg.idField));
    if Truthy(id) then id else Get(item, cfg.tempIdField)
  }

  /** The property keys a list of ids indexes a lock table with. */
  function LockKeys(ids: seq<Value>): (keys: seq<string>)
    ensures |keys| == |ids| && forall i :: 0 <= i < |ids| ==> keys[i] == ToString(ids[i])
  {
    seq(|ids|, i requires 0 <= i < |ids| => ToString(ids[i]))
  }

  /** The `qid` `handleFindResponse` files under: `params.qid`, or `'default'`
      when it is undefined (an empty `qid` is kept, unlike in `getQueryInfo`). */
  function HandlerQid(params: Params): string
  {
    if params.qid.Some? then params.qid.value else "default"
  }

  function QueryOrEmpty(query: Option<Query>): Query
  {
    if query.Some? then query.value else map[]
  }

  /** `params.paginate === true || hasOwn(query, '$limit') || hasOwn(query, '$skip')`. */
  predicate IsPaginated(params: Params)
  {
    params.paginate || "$limit" in QueryOrEmpty(params.query) || "$skip" in QueryOrEmpty(params.query)
  }

  /** `data.map(i => itemsById[getId(i, idField)])`. */
  function StoreRecords(table: map<string, Record>, data: seq<Record>, idField: string): (vs: seq<Value>)
    ensures |vs| == |data|
    ensures forall i :: 0 <= i < |data| ==> vs[i] == LookupValue(table, GetId(Obj(data[i]), Some(idField)))
  {
    seq(|data|, i requires 0 <= i < |data| => LookupValue(table, GetId(Obj(data[i]), Some(idField))))
  }

  /** Whether `handleFindResponse` answers with the store's records:
      `mappedFromState[0] !== undefined`. */
  predicate AnswersFromStore(items: map<string, Record>, data: seq<Record>, idField: string)
  {
    |data| > 0 && ToString(GetId(Obj(data[0]), Some(idField))) in items
  }

  /** What `handleFindResponse` leaves behind and answers with. */
  datatype FindHandled = FindHandled(tables: Tables, pagination: PaginationState, answer: FoundPage)

  /** `handleFindResponse` on the normalised response `page`, item `i`
      drawing `freshIds[i]` should it need a temp id. `addOrUpdate` changes
      the response's own records as it stores them (a temp id is assigned, a
      promoted record loses it); the page of those records is filed, and the
      answer holds them, or the store's versions when the first is stored. */
  function HandleFind(cfg: Config, ssrOption: bool, t: Tables, p: PaginationState, params: Params,
                      page: FindResponse, freshIds: seq<string>, fromSsr: bool, queriedAt: int): (h: FindHandled)
    requires |freshIds| == |page.data|
    ensures var u := UpsertAll(cfg, t, page.data, freshIds);
      && h.tables == u.tables
      && h.pagination == AfterQuery(p, cfg.idField, ssrOption, HandlerQid(params), QueryOrEmpty(params.query),
                                    params.preserveSsr, page.(data := u.inputs), queriedAt)
      && |h.answer.data| == |page.data|
      && forall i :: 0 <= i < |page.data| ==>
           h.answer.data[i] == if AnswersFromStore(u.tables.items, u.inputs, cfg.idField)
                               then LookupValue(u.tables.items, GetId(Obj(u.inputs[i]), Some(cfg.idField)))
                               else Obj(u.inputs[i])
    ensures h.answer.total == page.total && h.answer.limit == page.limit && h.answer.skip == page.skip
    ensures h.answer.fromSsr == fromSsr
  {
    var u := UpsertAll(cfg, t, page.data, freshIds);
    var filed := AfterQuery(p, cfg.idField, ssrOption, HandlerQid(params), QueryOrEmpty(params.query),
                            params.preserveSsr, page.(data := u.inputs), queriedAt);
    var data := if AnswersFromStore(u.tables.items, u.inputs, cfg.idField)
                then StoreRecords(u.tables.items, u.inputs, cfg.idField)
                else AsValues(u.inputs);
    FindHandled(u.tables, filed, FoundPage(data, page.total, page.limit, page.skip, fromSsr))
  }

  /** When `find` answers with the store's records, it answers with what
      reading the filed page back from `itemsById` gives (the view `useFind`
      builds): the same record at every position, or nothing where the
      store lacks one. */
  lemma HandledAnswerIsStoredPage(cfg: Config, ssrOption: bool, t: Tables, p: PaginationState, params: Params,
                                  page: FindResponse, freshIds: seq<string>, fromSsr: bool, queriedAt: int)
    requires |freshIds| == |page.data|
    ensures var h := HandleFind(cfg, ssrOption, t, p, params, page, freshIds, fromSsr, queriedAt);
      var u := UpsertAll(cfg, t, page.data, freshIds);
      var qid := HandlerQid(params);
      var info := InfoFor(qid, QueryOrEmpty(params.query), page.(data := u.inputs));
      var read := GetItemsFromQueryInfo(h.pagination.byQid[qid], info, h.tables.items);
      AnswersFromStore(h.tables.items, u.inputs, cfg.idField) ==>
        && |read| == |h.answer.data|
        && forall i :: 0 <= i < |read| ==>
             (read[i].Some? ==> h.answer.data[i] == Obj(read[i].value)) && (read[i].None? ==> h.answer.data[i].Undefined?)
  {
    var h := HandleFind(cfg, ssrOption, t, p, params, page, freshIds, fromSsr, queriedAt);
    var u := UpsertAll(cfg, t, page.data, freshIds);
    var qid := HandlerQid(params);
    var filed := page.(data := u.inputs);
    var info := InfoFor(qid, QueryOrEmpty(params.query), filed);
    var stored := h.pagination.byQid[qid].queries[info.queryId].pages[info.pageId];
    assert stored.ids == PageIds(u.inputs, cfg.idField);
    assert PageOf(h.pagination.byQid[qid], info) == Some(stored);
  }

  /** What `restoreTempIds(data, response)` returns when it does not throw. */
  function RestoredBatch(data: Batch<Record>, response: Batch<Record>): (r: Batch<Record>)
    requires |response.Items()| <= |data.Items()|
    requires data.IsArray() || |response.Items()| > 0
    ensures r.IsArray() == data.IsArray()
    ensures data.IsArray() ==> |r.Items()| == |response.Items()|
    ensures forall i :: 0 <= i < |r.Items()| ==> r.Items()[i] == Restored(data.Items()[i], response.Items()[i])
  {
    var restored := seq(|response.Items()|, i requires 0 <= i < |response.Items()| =>
      Restored(data.Items()[i], response.Items()[i]));
    if data.IsArray() then Multiple(restored) else Single(restored[0])
  }

  /** `state.pendingById[id][request]`, false when unset. */
  function PendingFlag(p: Pending, id: Value, request: RequestType): bool
  {
    ToString(id) in p && request in p[ToString(id)] && p[ToString(id)][request]
  }

  class ServiceStore {
    const idField: string
    const tempIdField: string
    /** The store's `ssr` option, unwrapped. */
    const ssr: bool
    const skipRequestIfExists: bool
    /** The ids `new ObjectID().toHexString()` produces, in the order they are drawn. */
    const newTempId: nat -> string
    /** How many temp ids have been drawn. */
    var tempIdsIssued: nat

    var itemsById: map<string, Record>
    var tempsById: map<string, Record>
    var clonesById: map<string, Record>
    var pendingById: Pending
    var eventLocksById: map<string, Locks>
    var pagination: PaginationState

    function Cfg(): Config
    {
      Config(idField, tempIdField)
    }

    /** `itemsById` and `tempsById` as a value. */
    function Records(): Tables
      reads this
    {
      Tables(itemsById, tempsById)
    }

    /** Event locks only ever hold `true`, and the temp ids drawn are
        non-empty and never repeat (`ObjectID` hex strings). */
    ghost predicate Valid()
      reads this
    {
      && (forall e :: e in eventLocksById ==> AllSet(eventLocksById[e]))
      && (forall n :: newTempId(n) != "")
      && (forall m, n :: m != n ==> newTempId(m) != newTempId(n))
    }

    constructor (idField: string, tempIdField: string, ssr: bool, skipRequestIfExists: bool, newTempId: nat -> string)
      requires forall n :: newTempId(n) != ""
      requires forall m, n :: m != n ==> newTempId(m) != newTempId(n)
      ensures Valid()
      ensures this.idField == idField && this.tempIdField == tempIdField
      ensures this.ssr == ssr && this.skipRequestIfExists == skipRequestIfExists && this.newTempId == newTempId
      ensures tempIdsIssued == 0
      ensures itemsById == map[] && tempsById == map[] && clonesById == map[] && pendingById == map[]
      ensures eventLocksById == map e | e in EventNames :: map[]
      ensures pagination == EmptyPagination
    {
      this.idField := idField;
      this.tempIdField := tempIdField;
      this.ssr := ssr;
      this.skipRequestIfExists := skipRequestIfExists;
      this.newTempId := newTempId;
      tempIdsIssued := 0;
      itemsById, tempsById, clonesById, pendingById := map[], map[], map[], map[];
      eventLocksById := map e | e in EventNames :: map[];
      pagination := EmptyPagination;
    }

    /** `addOrMergeToStore(item, store)`, with `freshId` the id a new
      `ObjectID` would give. */
    method AddOrMergeToStore(item: Record, freshId: string) returns (stored: Record, input: Record)
      modifies this
      ensures var u := AddOrMerge(Cfg(), old(Records()), item, freshId);
        Records() == u.tables && u.stored == Some(stored) && input == u.input
      ensures clonesById == old(clonesById) && pendingById == old(pendingById)
      ensures eventLocksById == old(eventLocksById) && pagination == old(pagination)
      ensures tempIdsIssued == old(tempIdsIssued)
    {
      var toItems := !IsNullish(GetId(Obj(item), Some(idField)));
      input := item;
      if !toItems && !Truthy(Values.Get(item, tempIdField)) {
        input := AssignTempId(item, freshId);
      }
      var key := ToString(GetAnyId(Obj(input)));
      var table := if toItems then itemsById else tempsById;
      stored := if key in table then table[key] + input else input;
      if toItems {
        itemsById := itemsById[key := stored];
      } else {
        tempsById := tempsById[key := stored];
      }
    }

    /** `moveTempToItems(data)`; `input` is the caller's record afterwards. */
    method MoveTempToItems(data: Record) returns (stored: Option<Record>, input: Record)
      modifies this
      ensures var u := MoveTemp(Cfg(), old(Records()), data);
        Records() == u.tables && stored == u.stored && input == u.input
      ensures clonesById == old(clonesById) && pendingById == old(pendingById)
      ensures eventLocksById == old(eventLocksById) && pagination == old(pagination)
      ensures tempIdsIssued == old(tempIdsIssued)
    {
      var idKey := ToString(GetId(Obj(data), Some(idField)));
      var tempKey := ToString(GetTempId(Obj(data)));
      if tempKey in tempsById {
        var promoted := (tempsById[tempKey] + data) - {tempIdField};
        itemsById := itemsById[idKey := promoted];
        tempsById := tempsById - {tempKey};
      }
      input := data - {tempIdField};
      stored := Lookup(itemsById, idKey);
    }

    /** The next `n` temp ids the store would draw, from draw number `start` on. */
    function DrawnIds(start: nat, n: nat): (ids: seq<string>)
      ensures |ids| == n && forall j :: 0 <= j < n ==> ids[j] == newTempId(start + j)
    {
      seq(n, j requires 0 <= j < n => newTempId(start + j))
    }

    /** One item of `addOrUpdate`: a promotion when it carries both ids,
        else an add-or-merge that may use `freshId`. */
    method UpsertItem(item: Record, freshId: string) returns (u: Upserted)
      modifies this
      ensures u == UpsertOne(Cfg(), old(Records()), item, freshId)
      ensures Records() == u.tables
      ensures clonesById == old(clonesById) && pendingById == old(pendingById)
      ensures eventLocksById == old(eventLocksById) && pagination == old(pagination)
      ensures tempIdsIssued == old(tempIdsIssued)
    {
      if !IsNullish(GetId(Obj(item), Some(idField))) && !IsNullish(GetTempId(Obj(item))) {
        var stored, input := MoveTempToItems(item);
        u := Upserted(Records(), stored, input);
      } else {
        var stored, input := AddOrMergeToStore(item, freshId);
        u := Upserted(Records(), Some(stored), input);
      }
    }

    /** `addOrUpdate(data)`: the stored records, in the shape of `data`, and
        the caller's records afterwards. Item `i` may use the `i`-th temp id
        drawn by this call. */
    method AddOrUpdate(data: Batch<Record>) returns (r: Batch<Option<Record>>, inputs: seq<Record>)
      modifies this
      ensures var u := UpsertAll(Cfg(), old(Records()), data.Items(), DrawnIds(old(tempIdsIssued), |data.Items()|));
        Records() == u.tables && r == InShape(data, u.stored) && inputs == u.inputs
      ensures clonesById == old(clonesById) && pendingById == old(pendingById)
      ensures eventLocksById == old(eventLocksById) && pagination == old(pagination)
      ensures tempIdsIssued == old(tempIdsIssued) + |data.Items()|
    {
      var items := data.Items();
      var freshIds := DrawnIds(tempIdsIssued, |items|);
      ghost var t0 := Records();
      var stored: seq<Option<Record>> := [];
      inputs := [];
      for i := 0 to |items|
        invariant Records() == UpsertAll(Cfg(), t0, items[..i], freshIds[..i]).tables
        invariant stored == UpsertAll(Cfg(), t0, items[..i], freshIds[..i]).stored
        invariant inputs == UpsertAll(Cfg(), t0, items[..i], freshIds[..i]).inputs
        invariant clonesById == old(clonesById) && pendingById == old(pendingById)
        invariant eventLocksById == old(eventLocksById) && pagination == old(pagination)
        invariant tempIdsIssued == old(tempIdsIssued)
      {
        var one := UpsertItem(items[i], freshIds[i]);
        UpsertAllStep(Cfg(), t0, items, freshIds, i, one);
        stored := stored + [one.stored];
        inputs := inputs + [one.input];
      }
      assert items[..|items|] == items && freshIds[..|items|] == freshIds;
      tempIdsIssued := tempIdsIssued + |items|;
      r := InShape(data, stored);
    }

    /** `removeFromStore(data)`: every key an item resolves to leaves the
        record tables and the pending flags; `data` is returned as it is. */
    method RemoveFromStore(data: Batch<Value>) returns (r: Batch<Value>)
      modifies this
      ensures r == data
      ensures var keys := RemovalKeys(Cfg(), data.Items());
        && itemsById == old(itemsById) - keys
        && tempsById == old(tempsById) - keys
        && clonesById == old(clonesById) - keys
        && pendingById == old(pendingById) - keys
      ensures eventLocksById == old(eventLocksById) && pagination == old(pagination)
      ensures tempIdsIssued == old(tempIdsIssued)
    {
      var idsToRemove := RemovalKeys(Cfg(), data.Items());
      itemsById := itemsById - idsToRemove;
      clonesById := clonesById - idsToRemove;
      pendingById := pendingById - idsToRemove;
      tempsById := tempsById - idsToRemove;
      r := data;
    }

    /** `clearAll()`: empties the three record tables. */
    method ClearAll()
      modifies this
      ensures itemsById == map[] && tempsById == map[] && clonesById == map[]
      ensures pendingById == old(pendingById) && eventLocksById == old(eventLocksById)
      ensures pagination == old(pagination) && tempIdsIssued == old(tempIdsIssued)
    {
      itemsById, tempsById, clonesById := map[], map[], map[];
    }

    /** The table `clone`, `commit` and `reset` read for `item`. */
    function HomeTable(item: Record): map<string, Record>
      reads this
    {
      if UsesTemps(item) then tempsById else itemsById
    }

    /** The clone branch of `clone` when there is no clone yet. Copying an
        undefined canonical record throws a TypeError before anything is
        stored. */
    method CreateClone(item: Record, data: Record) returns (r: Settled<Record>)
      requires EditKey(item) !in clonesById
      modifies this
      ensures var original := Lookup(HomeTable(item), EditKey(item));
        && (original.None? ==> r == Rejected(TypeError) && clonesById == old(clonesById))
        && (original.Some? ==>
              && clonesById == old(clonesById)[EditKey(item) := CloneOf(original.value, data)]
              && r == Resolved(clonesById[EditKey(item)]))
      ensures itemsById == old(itemsById) && tempsById == old(tempsById)
      ensures pendingById == old(pendingById) && eventLocksById == old(eventLocksById)
      ensures pagination == old(pagination) && tempIdsIssued == old(tempIdsIssued)
    {
      var id := EditKey(item);
      var placeToStore := HomeTable(item);
      if id !in placeToStore {
        r := Rejected(TypeError);
        return;
      }
      var clone := placeToStore[id][CloneField := Bool(true)];
      clone := clone + data;
      clonesById := clonesById[id := clone];
      r := Resolved(clonesById[id]);
    }

    /** The branch of `reset` with an existing clone: the clone takes the
        canonical record's fields, then `data`'s, loses every key the
        canonical record lacks, and is marked again. Without a canonical
        record, `hasOwn(undefined, key)` throws a TypeError as soon as the
        clone has a key, after the clone has taken `data`'s fields. */
    method ResetExisting(item: Record, data: Record) returns (r: Settled<Record>)
      requires EditKey(item) in clonesById
      modifies this
      ensures var id := EditKey(item);
        var original := Lookup(HomeTable(item), id);
        var existing := old(clonesById)[id];
        && (original.Some? ==>
              && clonesById == old(clonesById)[id := ResetClone(existing, original.value, data)]
              && r == Resolved(clonesById[id]))
        && (original.None? && existing + data == map[] ==>
              && clonesById == old(clonesById)[id := map[CloneField := Bool(true)]]
              && r == Resolved(clonesById[id]))
        && (original.None? && existing + data != map[] ==>
              && clonesById == old(clonesById)[id := existing + data]
              && r == Rejected(TypeError))
      ensures itemsById == old(itemsById) && tempsById == old(tempsById)
      ensures pendingById == old(pendingById) && eventLocksById == old(eventLocksById)
      ensures pagination == old(pagination) && tempIdsIssued == old(tempIdsIssued)
    {
      var id := EditKey(item);
      var placeToStore := HomeTable(item);
      var existingClone := clonesById[id];
      if id in placeToStore {
        var cloneReset := ResetClone(existingClone, placeToStore[id], data);
        clonesById := clonesById[id := cloneReset];
        r := Resolved(cloneReset);
      } else if existingClone + data == map[] {
        var cloneReset := map[CloneField := Bool(true)];
        clonesById := clonesById[id := cloneReset];
        r := Resolved(cloneReset);
      } else {
        clonesById := clonesById[id := existingClone + data];
        r := Rejected(TypeError);
      }
    }

    /** `clone(item, data, { useExisting })`. */
    method Clone(item: Record, data: Record, useExisting: bool) returns (r: Settled<Record>)
      modifies this
      ensures EditKey(item) in old(clonesById) && useExisting ==>
        r == Resolved(old(clonesById)[EditKey(item)]) && clonesById == old(clonesById)
      ensures EditKey(item) !in old(clonesById) ==>
        var original := Lookup(HomeTable(item), EditKey(item));
        && (original.None? ==> r == Rejected(TypeError) && clonesById == old(clonesById))
        && (original.Some? ==>
              && clonesById == old(clonesById)[EditKey(item) := CloneOf(original.value, data)]
              && r == Resolved(clonesById[EditKey(item)]))
      ensures (EditKey(item) in old(clonesById) && !useExisting && Lookup(HomeTable(item), EditKey(item)).Some?) ==>
          && clonesById == old(clonesById)[EditKey(item) :=
               ResetClone(old(clonesById)[EditKey(item)], HomeTable(item)[EditKey(item)], data)]
          && r == Resolved(clonesById[EditKey(item)])
      ensures (EditKey(item) in old(clonesById) && !useExisting && Lookup(HomeTable(item), EditKey(item)).None?) ==>
          var existing := old(clonesById)[EditKey(item)];
          && (existing + data == map[] ==>
                clonesById == old(clonesById)[EditKey(item) := map[CloneField := Bool(true)]] && r == Resolved(clonesById[EditKey(item)]))
          && (existing + data != map[] ==>
                clonesById == old(clonesById)[EditKey(item) := existing + data] && r == Rejected(TypeError))
      ensures itemsById == old(itemsById) && tempsById == old(tempsById)
      ensures pendingById == old(pendingById) && eventLocksById == old(eventLocksById)
      ensures pagination == old(pagination) && tempIdsIssued == old(tempIdsIssued)
    {
      var id := EditKey(item);
      if id in clonesById {
        if useExisting {
          r := Resolved(clonesById[id]);
        } else {
          r := ResetExisting(item, data);
        }
      } else {
        r := CreateClone(item, data);
      }
    }

    /** `reset(item, data)`. */
    method Reset(item: Record, data: Record) returns (r: Settled<Record>)
      modifies this
      ensures EditKey(item) !in old(clonesById) ==>
        var original := Lookup(HomeTable(item), EditKey(item));
        && (original.None? ==> r == Rejected(TypeError) && clonesById == old(clonesById))
        && (original.Some? ==>
              && clonesById == old(clonesById)[EditKey(item) := CloneOf(original.value, data)]
              && r == Resolved(clonesById[EditKey(item)]))
      ensures EditKey(item) in old(clonesById) && Lookup(HomeTable(item), EditKey(item)).Some? ==>
        && clonesById == old(clonesById)[EditKey(item) :=
             ResetClone(old(clonesById)[EditKey(item)], HomeTable(item)[EditKey(item)], data)]
        && r == Resolved(clonesById[EditKey(item)])
      ensures EditKey(item) in old(clonesById) && Lookup(HomeTable(item), EditKey(item)).None? ==>
        var existing := old(clonesById)[EditKey(item)];
        && (existing + data == map[] ==>
              clonesById == old(clonesById)[EditKey(item) := map[CloneField := Bool(true)]] && r == Resolved(clonesById[EditKey(item)]))
        && (existing + data != map[] ==>
              clonesById == old(clonesById)[EditKey(item) := existing + data] && r == Rejected(TypeError))
      ensures itemsById == old(itemsById) && tempsById == old(tempsById)
      ensures pendingById == old(pendingById) && eventLocksById == old(eventLocksById)
      ensures pagination == old(pagination) && tempIdsIssued == old(tempIdsIssued)
    {
      var id := EditKey(item);
      if id !in clonesById {
        r := CreateClone(item, data);
      } else {
        r := ResetExisting(item, data);
      }
    }

    /** `commit(item, data)`: the clone, overridden by `data`, becomes the
        canonical record; nothing happens without an id (`Resolved(None)`),
        and copying a missing clone throws a TypeError. */
    method Commit(item: Record, data: Record) returns (r: Settled<Option<Record>>)
      modifies this
      ensures IsNullish(GetAnyId(Obj(item))) ==> r == Resolved(None) && Records() == old(Records())
      ensures !IsNullish(GetAnyId(Obj(item))) && EditKey(item) !in clonesById ==>
        r == Rejected(TypeError) && Records() == old(Records())
      ensures !IsNullish(GetAnyId(Obj(item))) && EditKey(item) in clonesById ==>
        var committed := CommitOf(clonesById[EditKey(item)], data);
        && r == Resolved(Some(committed))
        && (UsesTemps(item) ==> tempsById == old(tempsById)[EditKey(item) := committed] && itemsById == old(itemsById))
        && (!UsesTemps(item) ==> itemsById == old(itemsById)[EditKey(item) := committed] && tempsById == old(tempsById))
      ensures clonesById == old(clonesById)
      ensures pendingById == old(pendingById) && eventLocksById == old(eventLocksById)
      ensures pagination == old(pagination) && tempIdsIssued == old(tempIdsIssued)
    {
      var anyId := GetAnyId(Obj(item));
      if IsNullish(anyId) {
        r := Resolved(None);
        return;
      }
      var id := ToString(anyId);
      if id !in clonesById {
        r := Rejected(TypeError);
        return;
      }
      var newOriginal := clonesById[id] + data;
      if UsesTemps(item) {
        tempsById := tempsById[id := newOriginal];
        r := Resolved(Some(tempsById[id]));
      } else {
        itemsById := itemsById[id := newOriginal];
        r := Resolved(Some(itemsById[id]));
      }
    }

    /** `updatePaginationForQuery({ qid, response, query, preserveSsr })`;
        `queriedAt` is the clock reading. */
    method UpdatePaginationForQuery(qid: string, response: FindResponse, query: Option<Query>, preserveSsr: bool, queriedAt: int)
      modifies this
      ensures pagination == AfterQuery(old(pagination), idField, ssr, qid, if query.Some? then query.value else map[],
                                       preserveSsr, response, queriedAt)
      ensures Records() == old(Records()) && clonesById == old(clonesById)
      ensures pendingById == old(pendingById) && eventLocksById == old(eventLocksById)
      ensures tempIdsIssued == old(tempIdsIssued)
    {
      var q := if query.Some? then query.value else map[];
      pagination := AfterQuery(pagination, idField, ssr, qid, q, preserveSsr, response, queriedAt);
    }

    /** `unflagSsr(params)`; a TypeError when the page is not cached. */
    method UnflagSsr(params: Params) returns (error: Option<Reason>)
      modifies this
      ensures Unflagged(old(pagination), params).None? ==> error == Some(TypeError) && pagination == old(pagination)
      ensures Unflagged(old(pagination), params).Some? ==> error == None && pagination == Unflagged(old(pagination), params).value
      ensures Records() == old(Records()) && clonesById == old(clonesById)
      ensures pendingById == old(pendingById) && eventLocksById == old(eventLocksById)
      ensures tempIdsIssued == old(tempIdsIssued)
    {
      match Unflagged(pagination, params)
      case None =>
        error := Some(TypeError);
      case Some(p) =>
        pagination := p;
        error := None;
    }

    /** `setPendingById(id, method, val)`. */
    method SetPendingById(id: Value, request: RequestType, val: bool)
      modifies this
      ensures pendingById == SetPending(old(pendingById), id, request, val)
      ensures !IsNullish(id) ==> PendingFlag(pendingById, id, request) == val
      ensures Records() == old(Records()) && clonesById == old(clonesById)
      ensures eventLocksById == old(eventLocksById) && pagination == old(pagination)
      ensures tempIdsIssued == old(tempIdsIssued)
    {
      pendingById := SetPending(pendingById, id, request, val);
    }

    /** `toggleEventLock(idOrIds, event)`: each id's lock flips, in order.
        For an event without a lock table the first id throws a TypeError. */
    method ToggleEventLock(ids: Batch<Value>, event: string) returns (error: Option<Reason>)
      requires Valid()
      modifies this
      ensures Valid()
      ensures var keys := LockKeys(ids.Items());
        && (event !in old(eventLocksById) && |keys| > 0 ==> error == Some(TypeError) && eventLocksById == old(eventLocksById))
        && (event !in old(eventLocksById) && |keys| == 0 ==> error == None && eventLocksById == old(eventLocksById))
        && (event in old(eventLocksById) ==>
              && error == None
              && eventLocksById == old(eventLocksById)[event := ToggleAll(old(eventLocksById)[event], keys)]
              && forall k :: k in eventLocksById[event] <==>
                   ((k in old(eventLocksById)[event]) != (Occurrences(keys, k) % 2 == 1)))
      ensures Records() == old(Records()) && clonesById == old(clonesById)
      ensures pendingById == old(pendingById) && pagination == old(pagination)
      ensures tempIdsIssued == old(tempIdsIssued)
    {
      var items := ids.Items();
      ghost var keys := LockKeys(items);
      if event !in eventLocksById {
        error := if |items| > 0 then Some(TypeError) else None;
        return;
      }
      ghost var before := eventLocksById[event];
      var locks := eventLocksById[event];
      for i := 0 to |items|
        invariant locks == ToggleAll(before, keys[..i])
        modifies {}
      {
        ToggleAllStep(before, keys, i);
        locks := Toggle(locks, ToString(items[i]));
      }
      assert keys[..|items|] == keys;
      ToggleAllLocks(before, keys);
      eventLocksById := eventLocksById[event := locks];
      error := None;
    }

    /** `handleFindResponse({ params, response })`: stores the records and the
        page, then answers with the store's records when the first one is
        there, else with the response's own records as `addOrUpdate` left
        them. */
    method HandleFindResponse(params: Params, response: ServerPage, fromSsr: bool, queriedAt: int) returns (r: FoundPage)
      modifies this
      ensures var page := response.Normalized();
        var h := HandleFind(Cfg(), ssr, old(Records()), old(pagination), params, page,
                            DrawnIds(old(tempIdsIssued), |page.data|), fromSsr, queriedAt);
        Records() == h.tables && pagination == h.pagination && r == h.answer
      ensures tempIdsIssued == old(tempIdsIssued) + |response.Normalized().data|
      ensures clonesById == old(clonesById) && pendingById == old(pendingById)
      ensures eventLocksById == old(eventLocksById)
    {
      var page := response.Normalized();
      var _, inputs := AddOrUpdate(Multiple(page.data));
      UpdatePaginationForQuery(HandlerQid(params), page.(data := inputs), params.query, params.preserveSsr, queriedAt);
      var mappedFromState := StoreRecords(itemsById, inputs, idField);
      var data := AsValues(inputs);
      if |mappedFromState| > 0 && !mappedFromState[0].Undefined? {
        data := mappedFromState;
      }
      r := FoundPage(data, page.total, page.limit, page.skip, fromSsr);
    }

    /** The SSR fast path of `find`: the cached page's records through the
        store's getter, its flag cleared unless `preserveSsr`, then
        `handleFindResponse` with `fromSsr`. A cached id the getter cannot
        find fails the answer with a TypeError, after the records before it
        were stored. */
    method AnswerFromCache(params: Params, getFromStore: Value -> Option<Record>, queriedAt: int)
      returns (r: Settled<FoundPage>)
      requires var info := GetQueryInfo(params, NoWindow);
        StoredPage(pagination, info.qid, info).Some? && StoredPage(pagination, info.qid, info).value.ssr
      modifies this
      ensures var info := GetQueryInfo(params, NoWindow);
        var cached := StoredPage(old(pagination), info.qid, info).value;
        var records := FoundPrefix(cached.ids, getFromStore);
        var start := if params.preserveSsr then old(pagination) else Unflagged(old(pagination), params).value;
        && tempIdsIssued == old(tempIdsIssued) + |records|
        && (|records| < |cached.ids| ==>
              && r == Rejected(TypeError)
              && Records() == UpsertAll(Cfg(), old(Records()), records, DrawnIds(old(tempIdsIssued), |records|)).tables
              && pagination == start)
        && (|records| == |cached.ids| ==>
              var total := old(pagination).byQid[info.qid].queries[info.queryId].total;
              var h := HandleFind(Cfg(), ssr, old(Records()), start, params, SsrResponse(cached, total, records),
                                  DrawnIds(old(tempIdsIssued), |records|), true, queriedAt);
              r == Resolved(h.answer) && Records() == h.tables && pagination == h.pagination)
      ensures pendingById == old(pendingById) && clonesById == old(clonesById) && eventLocksById == old(eventLocksById)
    {
      var info := GetQueryInfo(params, NoWindow);
      var page := StoredPage(pagination, info.qid, info).value;
      var total := pagination.byQid[info.qid].queries[info.queryId].total;
      var records := FoundPrefix(page.ids, getFromStore);
      if !params.preserveSsr {
        var _ := UnflagSsr(params);
      }
      if |records| < |page.ids| {
        var _, _ := AddOrUpdate(Multiple(records));
        r := Rejected(TypeError);
      } else {
        var found := HandleFindResponse(params, Paginated(SsrResponse(page, total, records)), true, queriedAt);
        r := Resolved(found);
      }
    }

    /** `find` when it asks the server: a failure passes through untouched,
        an answer goes to `handleFindResponse`. */
    method AnswerFromServer(params: Params, network: Settled<ServerPage>, queriedAt: int) returns (r: Settled<FoundPage>)
      modifies this
      ensures network.Rejected? ==>
        && r == Rejected(network.reason) && Records() == old(Records()) && pagination == old(pagination)
        && tempIdsIssued == old(tempIdsIssued)
      ensures network.Resolved? ==>
        var page := network.value.Normalized();
        var h := HandleFind(Cfg(), ssr, old(Records()), old(pagination), params, page,
                            DrawnIds(old(tempIdsIssued), |page.data|), false, queriedAt);
        && r == Resolved(h.answer) && Records() == h.tables && pagination == h.pagination
        && tempIdsIssued == old(tempIdsIssued) + |page.data|
      ensures pendingById == old(pendingById) && clonesById == old(clonesById) && eventLocksById == old(eventLocksById)
    {
      match network
      case Rejected(reason) =>
        r := Rejected(reason);
      case Resolved(response) =>
        var found := HandleFindResponse(params, response, false, queriedAt);
        r := Resolved(found);
    }

    /** `find(params)`: answers from the SSR cache when the page is cached
        with its `ssr` flag (`requested` is then `None`); otherwise asks the
        server with the given outcome (`requested` says whether the request
        was marked paginated). The `find` pending flag is cleared on every
        path. */
    method Find(params: Params, getFromStore: Value -> Option<Record>, network: Settled<ServerPage>, queriedAt: int)
      returns (r: Settled<FoundPage>, requested: Option<bool>)
      modifies this
      ensures var info := GetQueryInfo(params, NoWindow);
        var cached := StoredPage(old(pagination), info.qid, info);
        && (requested.None? <==> cached.Some? && cached.value.ssr)
        && (requested.Some? ==> requested.value == IsPaginated(params))
        && (requested.Some? && network.Rejected? ==>
              && r == Rejected(network.reason) && Records() == old(Records()) && pagination == old(pagination)
              && tempIdsIssued == old(tempIdsIssued))
        && (requested.Some? && network.Resolved? ==>
              var page := network.value.Normalized();
              var h := HandleFind(Cfg(), ssr, old(Records()), old(pagination), params, page,
                                  DrawnIds(old(tempIdsIssued), |page.data|), false, queriedAt);
              && r == Resolved(h.answer) && Records() == h.tables && pagination == h.pagination
              && tempIdsIssued == old(tempIdsIssued) + |page.data|)
        && (requested.None? ==>
              var records := FoundPrefix(cached.value.ids, getFromStore);
              var start := if params.preserveSsr then old(pagination) else Unflagged(old(pagination), params).value;
              && tempIdsIssued == old(tempIdsIssued) + |records|
              && (|records| < |cached.value.ids| ==>
                    && r == Rejected(TypeError)
                    && Records() == UpsertAll(Cfg(), old(Records()), records, DrawnIds(old(tempIdsIssued), |records|)).tables
                    && pagination == start)
              && (|records| == |cached.value.ids| ==>
                    var total := old(pagination).byQid[info.qid].queries[info.queryId].total;
                    var h := HandleFind(Cfg(), ssr, old(Records()), start, params, SsrResponse(cached.value, total, records),
                                        DrawnIds(old(tempIdsIssued), |records|), true, queriedAt);
                    r == Resolved(h.answer) && Records() == h.tables && pagination == h.pagination))
      ensures pendingById == SetPending(old(pendingById), ModelKey, RequestType.Find, false)
      ensures clonesById == old(clonesById) && eventLocksById == old(eventLocksById)
    {
      SetPendingById(ModelKey, RequestType.Find, true);
      var info := GetQueryInfo(params, NoWindow);
      var cached := StoredPage(pagination, info.qid, info);
      if cached.Some? && cached.value.ssr {
        requested := None;
        r := AnswerFromCache(params, getFromStore, queriedAt);
      } else {
        requested := Some(IsPaginated(params));
        r := AnswerFromServer(params, network, queriedAt);
      }
      assert pendingById == SetPending(old(pendingById), ModelKey, RequestType.Find, true);
      SetPendingLastWins(old(pendingById), ModelKey, RequestType.Find, true, false);
      SetPendingById(ModelKey, RequestType.Find, false);
    }

    /** `count(params)`: asks the server for the query with `$limit` 0 and
        passes its outcome through; the `count` flag is cleared. */
    method Count(params: Params, network: Settled<ServerPage>) returns (r: Settled<ServerPage>, sentQuery: Query)
      modifies this
      ensures sentQuery == QueryOrEmpty(params.query)["$limit" := Num(0)]
      ensures r == network
      ensures pendingById == SetPending(old(pendingById), ModelKey, RequestType.Count, false)
      ensures Records() == old(Records()) && clonesById == old(clonesById)
      ensures eventLocksById == old(eventLocksById) && pagination == old(pagination)
      ensures tempIdsIssued == old(tempIdsIssued)
    {
      sentQuery := QueryOrEmpty(params.query)["$limit" := Num(0)];
      SetPendingById(ModelKey, RequestType.Count, true);
      r := network;
      SetPendingLastWins(old(pendingById), ModelKey, RequestType.Count, true, false);
      SetPendingById(ModelKey, RequestType.Count, false);
    }

    /** `get(id, params)`: with `skipRequestIfExists` (the call's or the
        store's) a record the store's getter finds is the answer and no
        request is made; otherwise the fetched record is stored and the
        answer is `itemsById[id]`. */
    method Get(id: Value, skipParam: bool, getFromStore: Value -> Option<Record>, network: Settled<Record>)
      returns (r: Settled<Option<Record>>, requested: bool)
      modifies this
      ensures var skip := skipParam || skipRequestIfExists;
        && (requested <==> !(getFromStore(id).Some? && skip))
        && (!requested ==>
              r == Resolved(getFromStore(id)) && pendingById == old(pendingById)
              && Records() == old(Records()) && tempIdsIssued == old(tempIdsIssued))
        && (requested ==> pendingById == SetPending(old(pendingById), ModelKey, RequestType.GetOne, false))
        && (requested && network.Rejected? ==>
              r == Rejected(network.reason) && Records() == old(Records()) && tempIdsIssued == old(tempIdsIssued))
        && (requested && network.Resolved? ==>
              && Records() == UpsertAll(Cfg(), old(Records()), [network.value], DrawnIds(old(tempIdsIssued), 1)).tables
              && tempIdsIssued == old(tempIdsIssued) + 1
              && r == Resolved(Lookup(itemsById, ToString(id))))
      ensures clonesById == old(clonesById) && eventLocksById == old(eventLocksById) && pagination == old(pagination)
    {
      var skip := skipParam || skipRequestIfExists;
      var existingItem := getFromStore(id);
      if existingItem.Some? && skip {
        r := Resolved(existingItem);
        requested := false;
        return;
      }
      requested := true;
      SetPendingById(ModelKey, RequestType.GetOne, true);
      SetPendingLastWins(old(pendingById), ModelKey, RequestType.GetOne, true, false);
      match network
      case Resolved(data) =>
        var _, _ := AddOrUpdate(Single(data));
        SetPendingById(ModelKey, RequestType.GetOne, false);
        r := Resolved(Lookup(itemsById, ToString(id)));
      case Rejected(reason) =>
        SetPendingById(ModelKey, RequestType.GetOne, false);
        r := Rejected(reason);
    }

    /** `create(data)`: sends the cleaned data; the server's answer, with the
        request's temp ids put back, is stored (a temp record is promoted
        that way). An answer with more records than the request, or an empty
        answer to a single record, fails with a TypeError. A single record's
        `create` flag is cleared on every path. */
    method Create(data: Batch<Record>, network: Settled<Batch<Record>>) returns (r: Settled<Batch<Option<Record>>>, sent: Batch<Record>)
      modifies this
      ensures sent == CleanData(data)
      ensures !data.IsArray() ==> pendingById == SetPending(old(pendingById), CreatePendingKey(Cfg(), data.item), RequestType.Create, false)
      ensures data.IsArray() ==> pendingById == old(pendingById)
      ensures network.Rejected? ==>
        r == Rejected(network.reason) && Records() == old(Records()) && tempIdsIssued == old(tempIdsIssued)
      ensures network.Resolved? && |network.value.Items()| > |data.Items()| ==>
        r == Rejected(TypeError) && Records() == old(Records()) && tempIdsIssued == old(tempIdsIssued)
      ensures network.Resolved? && !data.IsArray() && |network.value.Items()| == 0 ==>
        r == Rejected(TypeError) && Records() == old(Records()) && tempIdsIssued == old(tempIdsIssued)
      ensures network.Resolved? && |network.value.Items()| <= |data.Items()| && (data.IsArray() || |network.value.Items()| > 0) ==>
        var restored := RestoredBatch(data, network.value);
        var u := UpsertAll(Cfg(), old(Records()), restored.Items(), DrawnIds(old(tempIdsIssued), |restored.Items()|));
        && Records() == u.tables
        && tempIdsIssued == old(tempIdsIssued) + |restored.Items()|
        && r == Resolved(InShape(restored, u.stored))
      ensures clonesById == old(clonesById) && eventLocksById == old(eventLocksById) && pagination == old(pagination)
    {
      sent := CleanData(data);
      if !data.IsArray() {
        SetPendingById(CreatePendingKey(Cfg(), data.item), RequestType.Create, true);
      }
      match network {
      case Rejected(reason) =>
        r := Rejected(reason);
      case Resolved(response) =>
        if |response.Items()| > |data.Items()| {
          r := Rejected(TypeError);
        } else {
          var restored := RestoreTempIds(data, response);
          if restored.None? {
            r := Rejected(TypeError);
          } else {
            assert restored.value == RestoredBatch(data, response);
            var stored, _ := AddOrUpdate(restored.value);
            r := Resolved(stored);
          }
        }
      }
      if !data.IsArray() {
        SetPendingLastWins(old(pendingById), CreatePendingKey(Cfg(), data.item), RequestType.Create, true, false);
        SetPendingById(CreatePendingKey(Cfg(), data.item), RequestType.Create, false);
      }
    }

    /** `update(id, data)`: sends the cleaned record and stores the answer;
        the `update` flag of `id` is cleared on every path. */
    method Update(id: Value, data: Record, network: Settled<Batch<Record>>) returns (r: Settled<Batch<Option<Record>>>, sent: Record)
      modifies this
      ensures sent == Clean(data)
      ensures pendingById == SetPending(old(pendingById), id, RequestType.Update, false)
      ensures network.Rejected? ==>
        r == Rejected(network.reason) && Records() == old(Records()) && tempIdsIssued == old(tempIdsIssued)
      ensures network.Resolved? ==>
        var u := UpsertAll(Cfg(), old(Records()), network.value.Items(), DrawnIds(old(tempIdsIssued), |network.value.Items()|));
        && Records() == u.tables && r == Resolved(InShape(network.value, u.stored))
        && tempIdsIssued == old(tempIdsIssued) + |network.value.Items()|
      ensures clonesById == old(clonesById) && eventLocksById == old(eventLocksById) && pagination == old(pagination)
    {
      SetPendingById(id, RequestType.Update, true);
      sent := Clean(data);
      match network {
      case Rejected(reason) =>
        r := Rejected(reason);
      case Resolved(response) =>
        var stored, _ := AddOrUpdate(response);
        r := Resolved(stored);
      }
      SetPendingLastWins(old(pendingById), id, RequestType.Update, true, false);
      SetPendingById(id, RequestType.Update, false);
    }

    /** `patch(id, data, params)`: `params.data`, when given, replaces
        `data`; sends it cleaned and stores the answer; the `patch` flag of
        `id` is cleared on every path. */
    method Patch(id: Value, data: Batch<Record>, paramsData: Option<Batch<Record>>, network: Settled<Batch<Record>>)
      returns (r: Settled<Batch<Option<Record>>>, sent: Batch<Record>)
      modifies this
      ensures sent == CleanData(if paramsData.Some? then paramsData.value else data)
      ensures pendingById == SetPending(old(pendingById), id, RequestType.Patch, false)
      ensures network.Rejected? ==>
        r == Rejected(network.reason) && Records() == old(Records()) && tempIdsIssued == old(tempIdsIssued)
      ensures network.Resolved? ==>
        var u := UpsertAll(Cfg(), old(Records()), network.value.Items(), DrawnIds(old(tempIdsIssued), |network.value.Items()|));
        && Records() == u.tables && r == Resolved(InShape(network.value, u.stored))
        && tempIdsIssued == old(tempIdsIssued) + |network.value.Items()|
      ensures clonesById == old(clonesById) && eventLocksById == old(eventLocksById) && pagination == old(pagination)
    {
      var body := if paramsData.Some? then paramsData.value else data;
      SetPendingById(id, RequestType.Patch, true);
      sent := CleanData(body);
      match network {
      case Rejected(reason) =>
        r := Rejected(reason);
      case Resolved(response) =>
        var stored, _ := AddOrUpdate(response);
        r := Resolved(stored);
      }
      SetPendingLastWins(old(pendingById), id, RequestType.Patch, true, false);
      SetPendingById(id, RequestType.Patch, false);
    }

    /** `remove(id)`: on success clears the `remove` flag of `id`, then
        purges the records the answer names (not `id` itself) and answers
        with it; on failure only clears the flag. */
    method Remove(id: Value, network: Settled<Batch<Value>>) returns (r: Settled<Batch<Value>>)
      modifies this
      ensures r == network
      ensures network.Rejected? ==>
        pendingById == SetPending(old(pendingById), id, RequestType.Remove, false) && Records() == old(Records()) &&
        clonesById == old(clonesById)
      ensures network.Resolved? ==>
        var keys := RemovalKeys(Cfg(), network.value.Items());
        && pendingById == SetPending(old(pendingById), id, RequestType.Remove, false) - keys
        && itemsById == old(itemsById) - keys && tempsById == old(tempsById) - keys
        && clonesById == old(clonesById) - keys
      ensures eventLocksById == old(eventLocksById) && pagination == old(pagination)
      ensures tempIdsIssued == old(tempIdsIssued)
    {
      SetPendingById(id, RequestType.Remove, true);
      SetPendingLastWins(old(pendingById), id, RequestType.Remove, true, false);
      match network
      case Resolved(data) =>
        SetPendingById(id, RequestType.Remove, false);
        var _ := RemoveFromStore(data);
        r := Resolved(data);
      case Rejected(reason) =>
        SetPendingById(id, RequestType.Remove, false);
        r := Rejected(reason);
    }
  }
}
