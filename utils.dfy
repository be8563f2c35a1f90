/** Identity helpers and record cleaning of src/utils.ts. */
module Utils {
  import opened Wrappers
  import opened Values

  /** The field that `getTempId`, `assignTempId` and `cleanData` hard-code. */
  const TempIdField: string := "__tempId"

  /** The field `markAsClone` sets. */
  const CloneField: string := "__isClone"

  /** `stringifyIfObject`: objects are replaced by their `toString()`. */
  function StringifyIfObject(v: Value): (r: Value)
    ensures !IsObject(r)
    ensures ToString(r) == ToString(v)
    ensures !IsObject(v) ==> r == v
  {
    if IsObject(v) then Str(ToString(v)) else v
  }

  /** The first of `names` that is an own property of `fields`. */
  function FirstPresent(fields: Record, names: seq<string>): (r: Option<nat>)
    ensures r.Some? ==> r.value < |names| && names[r.value] in fields
    ensures r.Some? ==> forall j :: 0 <= j < r.value ==> names[j] !in fields
    ensures r.None? ==> forall j :: 0 <= j < |names| ==> names[j] !in fields
  {
    if |names| == 0 then None
    else if names[0] in fields then Some(0)
    else match FirstPresent(fields, names[1..])
      case None => None
      case Some(j) => Some(j + 1)
  }

  lemma FirstPresentOfThree(fields: Record, a: string, b: string, c: string)
    ensures FirstPresent(fields, [a, b, c]) ==
      if a in fields then Some(0) else if b in fields then Some(1) else if c in fields then Some(2) else None
  {
    assert [a, b, c][1..] == [b, c];
    assert [b, c][1..] == [c];
    assert [c][1..] == [];
    assert FirstPresent(fields, [c]) == if c in fields then Some(0) else None;
    assert FirstPresent(fields, [b, c]) == if b in fields then Some(0) else if c in fields then Some(1) else None;
  }

  /** The name `getId` probes first: `idField`, or for a missing `idField` the
      key "undefined", which is what `item.hasOwnProperty(undefined)` tests. */
  function FirstIdName(idField: Option<string>): string
  {
    if idField.Some? then idField.value else "undefined"
  }

  /** The fields `getId` probes, in order. */
  function IdCandidates(idField: Option<string>): seq<string>
  {
    [FirstIdName(idField), "id", "_id"]
  }

  /** `getId(item, idField)`. For plain records `item[f] != null` implies that
      `f` is an own property, so each probe reduces to "is `f` an own property".
      A property that is present with value null or undefined is found and
      returned as it is. */
  function GetId(item: Value, idField: Option<string>): (id: Value)
    ensures !Truthy(item) ==> id == Undefined
    ensures Truthy(item) ==>
      match FirstPresent(OwnFields(item), IdCandidates(idField))
      case None => id == Undefined
      case Some(j) => id == StringifyIfObject(OwnFields(item)[IdCandidates(idField)[j]])
    ensures !IsObject(id)
  {
    if !Truthy(item) then Undefined
    else
      var fields := OwnFields(item);
      var first := FirstIdName(idField);
      FirstPresentOfThree(fields, first, "id", "_id");
      if first in fields then StringifyIfObject(fields[first])
      else if "id" in fields then StringifyIfObject(fields["id"])
      else if "_id" in fields then StringifyIfObject(fields["_id"])
      else Undefined
  }

  /** `getTempId(item)`: reads `__tempId` only, whatever the store's
      `tempIdField` is. */
  function GetTempId(item: Value): (id: Value)
    ensures TempIdField !in OwnFields(item) ==> id == Undefined
    ensures TempIdField in OwnFields(item) ==> id == StringifyIfObject(OwnFields(item)[TempIdField])
  {
    var fields := OwnFields(item);
    if TempIdField in fields then StringifyIfObject(fields[TempIdField]) else Undefined
  }

  /** `getAnyId(item)`: `getId` without an `idField`, falling back to the temp id. */
  function GetAnyId(item: Value): (id: Value)
    ensures !IsNullish(GetId(item, None)) ==> id == GetId(item, None)
    ensures IsNullish(GetId(item, None)) ==> id == GetTempId(item)
  {
    var permanent := GetId(item, None);
    if !IsNullish(permanent) then permanent else GetTempId(item)
  }

  /** The id of a record depends only on the fields it probes: merging fields
      that are none of them leaves it unchanged. */
  lemma IdentityStable(r: Record, update: Record, idField: Option<string>)
    requires forall j :: 0 <= j < 3 ==> IdCandidates(idField)[j] !in update
    ensures GetId(Obj(r + update), idField) == GetId(Obj(r), idField)
  {
    var c := IdCandidates(idField);
    assert c[0] !in update && c[1] !in update && c[2] !in update;
  }

  /** The temp id depends only on the `__tempId` field. */
  lemma TempIdReadsOnlyTempField(a: Record, b: Record)
    requires (TempIdField in a) == (TempIdField in b)
    requires TempIdField in a ==> a[TempIdField] == b[TempIdField]
    ensures GetTempId(Obj(a)) == GetTempId(Obj(b))
  {
  }

  /** `assignTempId(item)`: writes a freshly generated id (given here) to `__tempId`. */
  function AssignTempId(item: Record, freshId: string): (r: Record)
    ensures r.Keys == item.Keys + {TempIdField}
    ensures forall k :: k in item && k != TempIdField ==> r[k] == item[k]
    ensures GetTempId(Obj(r)) == Str(freshId)
  {
    item[TempIdField := Str(freshId)]
  }

  /** The bookkeeping fields `cleanData` strips. */
  const PrivateFields: set<string> := {CloneField, TempIdField}

  /** One record without `__isClone` and `__tempId` (`_.omit`). */
  function Clean(item: Record): (r: Record)
    ensures r.Keys == item.Keys - PrivateFields
    ensures forall k :: k in r ==> r[k] == item[k]
  {
    item - PrivateFields
  }

  /** `cleanData(data)`. */
  function CleanData(data: Batch<Record>): (r: Batch<Record>)
    ensures r.IsArray() == data.IsArray()
    ensures |r.Items()| == |data.Items()|
    ensures forall i :: 0 <= i < |r.Items()| ==>
      r.Items()[i].Keys == data.Items()[i].Keys - PrivateFields &&
      forall k :: k in r.Items()[i] ==> r.Items()[i][k] == data.Items()[i][k]
  {
    var items := data.Items();
    InShape(data, seq(|items|, i requires 0 <= i < |items| => Clean(items[i])))
  }

  /** Cleaning twice is cleaning once. */
  lemma {:induction false} CleanDataIdempotent(data: Batch<Record>)
    ensures CleanData(CleanData(data)) == CleanData(data)
  {
    var once := CleanData(data);
    var twice := CleanData(once);
    assert twice.Items() == once.Items() by {
      forall i | 0 <= i < |once.Items()|
        ensures twice.Items()[i] == once.Items()[i]
      {
        assert twice.Items()[i].Keys == once.Items()[i].Keys;
      }
    }
  }

  /** `restoreTempIds(data, resData)`: response item `i` receives the
      `__tempId` of source item `i` when that value is truthy. The source
      throws a TypeError when the response has more items than the request,
      so callers must not pass one. The shape follows `data`; a single
      source with an empty response gives undefined (`None`). */
  method RestoreTempIds(data: Batch<Record>, resData: Batch<Record>) returns (r: Option<Batch<Record>>)
    requires |resData.Items()| <= |data.Items()|
    ensures data.IsArray() || |resData.Items()| >= 1 <==> r.Some?
    ensures r.Some? ==> r.value.IsArray() == data.IsArray()
    ensures r.Some? && data.IsArray() ==> |r.value.Items()| == |resData.Items()|
    ensures r.Some? ==> forall i :: 0 <= i < |r.value.Items()| ==>
      r.value.Items()[i] == Restored(data.Items()[i], resData.Items()[i])
  {
    var sources := data.Items();
    var responses := resData.Items();
    var restored: seq<Record> := [];
    var i := 0;
    while i < |responses|
      invariant 0 <= i <= |responses|
      invariant |restored| == i
      invariant forall j :: 0 <= j < i ==> restored[j] == Restored(sources[j], responses[j])
    {
      var item := responses[i];
      var tempId := Get(sources[i], TempIdField);
      if Truthy(tempId) {
        item := item[TempIdField := tempId];
      }
      restored := restored + [item];
      i := i + 1;
    }
    if data.IsArray() {
      r := Some(Multiple(restored));
    } else if |restored| >= 1 {
      r := Some(Single(restored[0]));
    } else {
      r := None;
    }
  }

  /** A response item with its request item's temp id put back. */
  function Restored(source: Record, response: Record): (r: Record)
    ensures Truthy(Get(source, TempIdField)) ==>
      r.Keys == response.Keys + {TempIdField} && r[TempIdField] == source[TempIdField]
    ensures !Truthy(Get(source, TempIdField)) ==> r == response
    ensures forall k :: k in response && k != TempIdField ==> r[k] == response[k]
  {
    var tempId := Get(source, TempIdField);
    if Truthy(tempId) then response[TempIdField := tempId] else response
  }

  /** `items[j]` is the last of `items` with its key. */
  ghost predicate LastWithKey<T>(items: seq<T>, key: T -> string, j: nat)
    requires j < |items|
  {
    forall m :: j < m < |items| ==> key(items[m]) != key(items[j])
  }

  /** `keyBy(items, fn)`: folds the items into an object keyed by the property
      key of `fn(item)` (`key` here); a later item overwrites an earlier one
      with the same key. */
  function KeyBy<T>(items: seq<T>, key: T -> string): (r: map<string, T>)
    ensures |items| > 0 ==> key(items[|items| - 1]) in r
    decreases |items|
  {
    if |items| == 0 then map[]
    else
      var n := |items| - 1;
      KeyBy(items[..n], key)[key(items[n]) := items[n]]
  }

  /** The object `keyBy` builds has a key for every item and no other, and
      each key holds the last item with that key. */
  lemma {:induction false} KeyByContents<T>(items: seq<T>, key: T -> string)
    ensures forall j :: 0 <= j < |items| ==> key(items[j]) in KeyBy(items, key)
    ensures forall k :: k in KeyBy(items, key) ==> exists j :: 0 <= j < |items| && key(items[j]) == k
    ensures forall j :: 0 <= j < |items| && LastWithKey(items, key, j) ==> KeyBy(items, key)[key(items[j])] == items[j]
    decreases |items|
  {
    if |items| > 0 {
      var n := |items| - 1;
      var prefix := items[..n];
      KeyByContents(prefix, key);
      var before := KeyBy(prefix, key);
      var r := KeyBy(items, key);
      assert r == before[key(items[n]) := items[n]];
      forall j | 0 <= j < |items|
        ensures key(items[j]) in r
      {
        if j < n {
          assert prefix[j] == items[j];
        }
      }
      forall k | k in r
        ensures exists j :: 0 <= j < |items| && key(items[j]) == k
      {
        if k != key(items[n]) {
          var j :| 0 <= j < n && key(prefix[j]) == k;
          assert key(items[j]) == k;
        }
      }
      forall j | 0 <= j < |items| && LastWithKey(items, key, j)
        ensures r[key(items[j])] == items[j]
      {
        if j < n {
          assert prefix[j] == items[j];
          assert LastWithKey(prefix, key, j);
        }
      }
    }
  }

  /** `keyBy`'s default `fn`, `getId(item)`, as a property key. */
  function DefaultKey(item: Value): string
  {
    ToString(GetId(item, None))
  }
}
