/** Query fingerprints and the pagination cache's shape (src/utils.ts,
    src/service-store/types.ts). */
module QueryInfo {
  import opened Wrappers
  import opened Values

  /** The value JSON serialisation keeps: undefined properties are dropped,
      undefined array elements become null, and an `ObjectId` becomes its hex
      string (its `toJSON`). */
  function JsonValue(v: Value): Value
  {
    match v
    case Arr(elems) =>
      Arr(seq(|elems|, i requires 0 <= i < |elems| =>
        if elems[i].Undefined? then Null else JsonValue(elems[i])))
    case Obj(fields) => Obj(map k | k in fields && !fields[k].Undefined? :: JsonValue(fields[k]))
    case ObjectId(hex) => Str(hex)
    case _ => v
  }

  /** The text `fast-json-stable-stringify` produces. That text sorts object
      keys, so it depends on the JSON value alone and differs for different
      JSON values; it is represented here by that JSON value. */
  datatype Fingerprint = Fingerprint(json: Value)

  /** `stringify(v)`. */
  function Stringify(v: Value): (f: Fingerprint)
    ensures f.json == JsonValue(v)
  {
    Fingerprint(JsonValue(v))
  }

  /** Stringify is canonical and injective: two values share a fingerprint
      exactly when their JSON values agree. */
  lemma StringifyInjective(a: Value, b: Value)
    ensures Stringify(a) == Stringify(b) <==> JsonValue(a) == JsonValue(b)
  {
  }

  /** The request parameters the store reads. `paginate` is `params.paginate === true`. */
  datatype Params = Params(query: Option<Query>, qid: Option<string>, preserveSsr: bool, paginate: bool)

  /** The `limit` and `skip` of a response (`Undefined` when absent). */
  datatype Window = Window(limit: Value, skip: Value)

  const NoWindow: Window := Window(Undefined, Undefined)

  /** `{ $limit, $skip }`. */
  datatype PageParams = PageParams(limit: Value, skip: Value)
  {
    function AsValue(): Value
    {
      Obj(map["$limit" := limit, "$skip" := skip])
    }
  }

  /** What `getQueryInfo` returns (its always-undefined `response` and
      `isOutdated` are left out). A `pageId` of `None` is undefined. */
  datatype QueryInfo = QueryInfo(
    qid: string,
    query: Query,
    queryId: Fingerprint,
    queryParams: Query,
    pageParams: Option<PageParams>,
    pageId: Option<Fingerprint>)

  const PagingKeys: set<string> := {"$limit", "$skip"}

  /** `params.qid || 'default'`. */
  function QidOf(params: Params): string
  {
    if params.qid.Some? && params.qid.value != "" then params.qid.value else "default"
  }

  /** A response value wins over the query's unless it is null or undefined. */
  function Prefer(fromResponse: Value, fromQuery: Value): Value
  {
    if !IsNullish(fromResponse) then fromResponse else fromQuery
  }

  /** `getQueryInfo(params, response)`. */
  function GetQueryInfo(params: Params, response: Window): (info: QueryInfo)
    ensures info.qid == QidOf(params)
    ensures info.query == (if params.query.Some? then params.query.value else map[])
    ensures info.queryParams.Keys == info.query.Keys - PagingKeys
    ensures forall k :: k in info.queryParams ==> info.queryParams[k] == info.query[k]
    ensures info.queryId == Stringify(Obj(info.queryParams))
    ensures var limit := Prefer(response.limit, Get(info.query, "$limit"));
      info.pageParams == if limit.Undefined? then None
                         else Some(PageParams(limit, Prefer(response.skip, Get(info.query, "$skip"))))
    ensures info.pageParams.None? ==> info.pageId.None?
    ensures info.pageParams.Some? ==> info.pageId == Some(Stringify(info.pageParams.value.AsValue()))
  {
    var query := if params.query.Some? then params.query.value else map[];
    var limit := if !IsNullish(response.limit) then response.limit else Get(query, "$limit");
    var skip := if !IsNullish(response.skip) then response.skip else Get(query, "$skip");
    var queryParams := query - PagingKeys;
    var pageParams := if limit != Undefined then Some(PageParams(limit, skip)) else None;
    QueryInfo(
      QidOf(params),
      query,
      Stringify(Obj(queryParams)),
      queryParams,
      pageParams,
      if pageParams.Some? then Some(Stringify(pageParams.value.AsValue())) else None)
  }

  /** Queries that differ only in `$limit` and `$skip` share a `queryId`. */
  lemma QueryIdIgnoresPaging(p1: Params, p2: Params, w1: Window, w2: Window)
    requires p1.query.Some? && p2.query.Some?
    requires p1.query.value - PagingKeys == p2.query.value - PagingKeys
    ensures GetQueryInfo(p1, w1).queryId == GetQueryInfo(p2, w2).queryId
  {
  }

  /** A query that holds only paging keys has the empty query's fingerprint, `'{}'`. */
  lemma PagingOnlyQueryHasEmptyId(p: Params, w: Window)
    requires p.query.Some? && p.query.value.Keys <= PagingKeys
    ensures GetQueryInfo(p, w).queryId == Stringify(Obj(map[]))
  {
    assert p.query.value - PagingKeys == map[];
  }

  /** With numeric windows, different `{ $limit, $skip }` pairs give different pages. */
  lemma DifferentWindowsDifferentPages(p1: Params, p2: Params, l1: int, s1: int, l2: int, s2: int)
    requires (l1, s1) != (l2, s2)
    ensures GetQueryInfo(p1, Window(Num(l1), Num(s1))).pageId.Some?
    ensures GetQueryInfo(p2, Window(Num(l2), Num(s2))).pageId.Some?
    ensures GetQueryInfo(p1, Window(Num(l1), Num(s1))).pageId != GetQueryInfo(p2, Window(Num(l2), Num(s2))).pageId
  {
    var a := PageParams(Num(l1), Num(s1)).AsValue();
    var b := PageParams(Num(l2), Num(s2)).AsValue();
    assert JsonValue(a).fields["$limit"] == Num(l1) && JsonValue(a).fields["$skip"] == Num(s1);
    assert JsonValue(b).fields["$limit"] == Num(l2) && JsonValue(b).fields["$skip"] == Num(s2);
  }

  /** `$skip` alone does not make a page: without a limit, `pageId` is undefined. */
  lemma SkipAloneHasNoPage(p: Params, w: Window)
    requires IsNullish(w.limit)
    requires p.query.Some? && "$limit" !in p.query.value
    ensures GetQueryInfo(p, w).pageParams.None? && GetQueryInfo(p, w).pageId.None?
  {
  }

  /** A page entry: `{ pageParams, ids, queriedAt, ssr }`. */
  datatype PageData = PageData(pageParams: Option<PageParams>, ids: seq<Value>, queriedAt: int, ssr: bool)

  /** A `queryId` entry: `total`, `queryParams` and the pages, keyed by
      `pageId`. The key `None` is the property "undefined" that an undefined
      `pageId` indexes. */
  datatype QueryState = QueryState(total: Value, queryParams: Query, pages: map<Option<Fingerprint>, PageData>)

  /** `mostRecent` of a `qid`. */
  datatype MostRecent = MostRecent(
    query: Query,
    queryId: Fingerprint,
    queryParams: Query,
    pageId: Option<Fingerprint>,
    pageParams: Option<PageParams>,
    queriedAt: int,
    total: Value)

  /** The state of one `qid`: `mostRecent` and one entry per `queryId`. */
  datatype QidState = QidState(mostRecent: MostRecent, queries: map<Fingerprint, QueryState>)

  /** The page a query info names in one `qid`'s state, if it is stored. */
  function PageOf(qidState: QidState, info: QueryInfo): (r: Option<PageData>)
    ensures r.Some? <==> info.queryId in qidState.queries && info.pageId in qidState.queries[info.queryId].pages
    ensures r.Some? ==> r.value == qidState.queries[info.queryId].pages[info.pageId]
  {
    if info.queryId in qidState.queries && info.pageId in qidState.queries[info.queryId].pages
    then Some(qidState.queries[info.queryId].pages[info.pageId])
    else None
  }

  /** `getItemsFromQueryInfo(pagination, queryInfo, keyedById)`: the records
      of the stored page, in order, looked up in `keyedById` (`None` for an
      id that is not there); empty when the page is missing or has no ids. */
  function GetItemsFromQueryInfo(qidState: QidState, info: QueryInfo, keyedById: map<string, Record>)
    : (r: seq<Option<Record>>)
    ensures PageOf(qidState, info).None? ==> r == []
    ensures PageOf(qidState, info).Some? ==> |r| == |PageOf(qidState, info).value.ids|
    ensures PageOf(qidState, info).Some? ==> forall i :: 0 <= i < |r| ==>
      var key := ToString(PageOf(qidState, info).value.ids[i]);
      r[i] == if key in keyedById then Some(keyedById[key]) else None
  {
    match PageOf(qidState, info)
    case None => []
    case Some(page) =>
      var ids := page.ids;
      seq(|ids|, i requires 0 <= i < |ids| =>
        var key := ToString(ids[i]);
        if key in keyedById then Some(keyedById[key]) else None)
  }
}
