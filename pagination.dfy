/** The pagination cache and what `updatePaginationForQuery` and `unflagSsr`
    (src/service-store/make-actions.ts) do to it. */
module Pagination {
  import opened Wrappers
  import opened Values
  import opened Utils
  import opened QueryInfo

  /** `store.pagination`: one state per `qid`, plus the `defaultLimit` and
      `defaultSkip` the source keeps next to them (`None` until first set). */
  datatype PaginationState = PaginationState(
    byQid: map<string, QidState>,
    defaultLimit: Option<Value>,
    defaultSkip: Option<Value>)

  const EmptyPagination: PaginationState := PaginationState(map[], None, None)

  /** A find response in its normalised form `{ data, total, limit, skip }`;
      `None` is a property the response does not have. */
  datatype FindResponse = FindResponse(data: seq<Record>, total: Option<Value>, limit: Option<Value>, skip: Option<Value>)

  /** Reading a property that may be absent. */
  function Prop(o: Option<Value>): (v: Value)
    ensures o.None? ==> v == Undefined
    ensures o.Some? ==> v == o.value
  {
    if o.Some? then o.value else Undefined
  }

  /** The `limit` and `skip` that `getQueryInfo` reads from a response. */
  function WindowOf(response: FindResponse): Window
  {
    Window(Prop(response.limit), Prop(response.skip))
  }

  /** `data.map(i => getId(i, idField))`. */
  function PageIds(data: seq<Record>, idField: string): (ids: seq<Value>)
    ensures |ids| == |data|
    ensures forall i :: 0 <= i < |data| ==> ids[i] == GetId(Obj(data[i]), Some(idField))
  {
    seq(|data|, i requires 0 <= i < |data| => GetId(Obj(data[i]), Some(idField)))
  }

  /** The query info `updatePaginationForQuery` computes: `getQueryInfo({ qid, query }, response)`. */
  function InfoFor(qid: string, query: Query, response: FindResponse): QueryInfo
  {
    GetQueryInfo(Params(Some(query), Some(qid), false, false), WindowOf(response))
  }

  /** `pagination[qid]?.[queryId]?.[pageId]`. */
  function StoredPage(p: PaginationState, qid: string, info: QueryInfo): (r: Option<PageData>)
    ensures r.Some? <==> qid in p.byQid && PageOf(p.byQid[qid], info).Some?
    ensures r.Some? ==> r == PageOf(p.byQid[qid], info)
  {
    if qid in p.byQid then PageOf(p.byQid[qid], info) else None
  }

  /** The queries of one `qid` (none when the `qid` is new). */
  function QueriesOf(p: PaginationState, qid: string): map<Fingerprint, QueryState>
  {
    if qid in p.byQid then p.byQid[qid].queries else map[]
  }

  /** The pages of one query (none when the query is new). */
  function PagesOf(p: PaginationState, qid: string, queryId: Fingerprint): map<Option<Fingerprint>, PageData>
  {
    var queries := QueriesOf(p, qid);
    if queryId in queries then queries[queryId].pages else map[]
  }

  /** The `ssr` flag a new page gets: with `preserveSsr` the old page's flag
      (false when there is none), else the store's `ssr` option. */
  function SsrFlag(existing: Option<PageData>, preserveSsr: bool, ssrOption: bool): bool
  {
    if preserveSsr then existing.Some? && existing.value.ssr else ssrOption
  }

  /** `updatePaginationForQuery({ qid, response, query, preserveSsr })` at
      time `queriedAt`, with the store's `idField` and `ssr` option. */
  function AfterQuery(p: PaginationState, idField: string, ssrOption: bool, qid: string, query: Query,
                      preserveSsr: bool, response: FindResponse, queriedAt: int): (r: PaginationState)
    // Every other qid is untouched; this one gains or keeps its entry.
    ensures r.byQid.Keys == p.byQid.Keys + {qid}
    ensures forall q :: q in p.byQid && q != qid ==> r.byQid[q] == p.byQid[q]
    ensures var info := InfoFor(qid, query, response);
      && r.byQid[qid].mostRecent ==
           MostRecent(query, info.queryId, info.queryParams, info.pageId, info.pageParams, queriedAt, Prop(response.total))
      // Other queries of the qid are untouched.
      && r.byQid[qid].queries.Keys == QueriesOf(p, qid).Keys + {info.queryId}
      && (forall id :: id in QueriesOf(p, qid) && id != info.queryId ==> r.byQid[qid].queries[id] == QueriesOf(p, qid)[id])
      // The query's total and parameters are overwritten; its other pages are kept.
      && var q := r.byQid[qid].queries[info.queryId];
      && q.total == Prop(response.total)
      && q.queryParams == info.queryParams
      && q.pages.Keys == PagesOf(p, qid, info.queryId).Keys + {info.pageId}
      && (forall pg :: pg in PagesOf(p, qid, info.queryId) && pg != info.pageId ==> q.pages[pg] == PagesOf(p, qid, info.queryId)[pg])
      // The page holds the ids of the data in order.
      && q.pages[info.pageId] ==
           PageData(info.pageParams, PageIds(response.data, idField), queriedAt,
                    SsrFlag(StoredPage(p, qid, info), preserveSsr, ssrOption))
    // The defaults follow the response only when the query does not fix them.
    ensures r.defaultLimit == if "$limit" !in query && response.limit.Some? then response.limit else p.defaultLimit
    ensures r.defaultSkip == if "$skip" !in query && response.skip.Some? then response.skip else p.defaultSkip
  {
    var info := InfoFor(qid, query, response);
    var total := Prop(response.total);
    var ids := PageIds(response.data, idField);
    var existingPage := StoredPage(p, qid, info);
    var defaultLimit := if "$limit" !in query && response.limit.Some? then response.limit else p.defaultLimit;
    var defaultSkip := if "$skip" !in query && response.skip.Some? then response.skip else p.defaultSkip;
    var mostRecent := MostRecent(query, info.queryId, info.queryParams, info.pageId, info.pageParams, queriedAt, total);
    var ssr := SsrFlag(existingPage, preserveSsr, ssrOption);
    var pages := PagesOf(p, qid, info.queryId)[info.pageId := PageData(info.pageParams, ids, queriedAt, ssr)];
    var queries := QueriesOf(p, qid)[info.queryId := QueryState(total, info.queryParams, pages)];
    PaginationState(p.byQid[qid := QidState(mostRecent, queries)], defaultLimit, defaultSkip)
  }

  /** After a query is stored, reading its page back with the same query
      info yields the response's records, in order, from any table that holds
      them under their ids; this is what `useFind` relies on. */
  lemma ReadBackAfterQuery(p: PaginationState, idField: string, ssrOption: bool, qid: string, query: Query,
                           preserveSsr: bool, response: FindResponse, queriedAt: int, keyedById: map<string, Record>)
    requires forall i :: 0 <= i < |response.data| ==>
      var key := ToString(GetId(Obj(response.data[i]), Some(idField)));
      key in keyedById && keyedById[key] == response.data[i]
    ensures var r := AfterQuery(p, idField, ssrOption, qid, query, preserveSsr, response, queriedAt);
      GetItemsFromQueryInfo(r.byQid[qid], InfoFor(qid, query, response), keyedById) ==
        seq(|response.data|, i requires 0 <= i < |response.data| => Some(response.data[i]))
  {
    var r := AfterQuery(p, idField, ssrOption, qid, query, preserveSsr, response, queriedAt);
    var info := InfoFor(qid, query, response);
    var got := GetItemsFromQueryInfo(r.byQid[qid], info, keyedById);
    assert PageOf(r.byQid[qid], info).Some?;
    assert |got| == |response.data|;
    forall i | 0 <= i < |response.data|
      ensures got[i] == Some(response.data[i])
    {
      assert PageOf(r.byQid[qid], info).value.ids[i] == GetId(Obj(response.data[i]), Some(idField));
    }
  }

  /** With `preserveSsr`, refetching an SSR page keeps it flagged; without it
      the flag follows the store's option. */
  lemma SsrPreservedOnRefetch(p: PaginationState, idField: string, ssrOption: bool, qid: string, query: Query,
                              response: FindResponse, t1: int, t2: int)
    ensures var once := AfterQuery(p, idField, true, qid, query, false, response, t1);
      var info := InfoFor(qid, query, response);
      var twice := AfterQuery(once, idField, ssrOption, qid, query, true, response, t2);
      twice.byQid[qid].queries[info.queryId].pages[info.pageId].ssr
  {
    var info := InfoFor(qid, query, response);
    var once := AfterQuery(p, idField, true, qid, query, false, response, t1);
    assert StoredPage(once, qid, info).Some?;
  }

  /** `unflagSsr(params)`: clears the `ssr` flag of the page `params` names.
      The source writes through an undefined page when there is none, which
      throws a TypeError (`None` here). */
  function Unflagged(p: PaginationState, params: Params): (r: Option<PaginationState>)
    ensures var info := GetQueryInfo(params, NoWindow);
      && (StoredPage(p, info.qid, info).None? <==> r.None?)
      && (r.Some? ==>
            && r.value.defaultLimit == p.defaultLimit && r.value.defaultSkip == p.defaultSkip
            && r.value.byQid.Keys == p.byQid.Keys
            && (forall q :: q in p.byQid && q != info.qid ==> r.value.byQid[q] == p.byQid[q])
            && StoredPage(r.value, info.qid, info) == Some(StoredPage(p, info.qid, info).value.(ssr := false))
            && r.value.byQid[info.qid].mostRecent == p.byQid[info.qid].mostRecent
            && r.value.byQid[info.qid].queries.Keys == p.byQid[info.qid].queries.Keys
            && (forall id :: id in p.byQid[info.qid].queries && id != info.queryId ==>
                  r.value.byQid[info.qid].queries[id] == p.byQid[info.qid].queries[id])
            && var before := p.byQid[info.qid].queries[info.queryId];
            && var after := r.value.byQid[info.qid].queries[info.queryId];
            && after.total == before.total && after.queryParams == before.queryParams
            && after.pages.Keys == before.pages.Keys
            && (forall pg :: pg in before.pages && pg != info.pageId ==> after.pages[pg] == before.pages[pg]))
  {
    var info := GetQueryInfo(params, NoWindow);
    match StoredPage(p, info.qid, info)
    case None => None
    case Some(page) =>
      var qidState := p.byQid[info.qid];
      var queryState := qidState.queries[info.queryId];
      var queries := qidState.queries[info.queryId := queryState.(pages := queryState.pages[info.pageId := page.(ssr := false)])];
      Some(p.(byQid := p.byQid[info.qid := qidState.(queries := queries)]))
  }
}
