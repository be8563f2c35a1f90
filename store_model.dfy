/** The record tables of a service store as values, and what each of the
    synchronous actions of src/service-store/make-actions.ts does to them.
    The store class (module ServiceStores) is specified by these functions. */
module StoreModel {
  import opened Wrappers
  import opened Values
  import opened Utils

  /** The store options the record tables read. */
  datatype Config = Config(idField: string, tempIdField: string)

  /** `tempIdField` is the `__tempId` that the helpers hard-code, and `idField`
      is some other field. */
  predicate Conventional(cfg: Config)
  {
    cfg.tempIdField == TempIdField && cfg.idField != TempIdField
  }

  function Lookup(m: map<string, Record>, key: string): (r: Option<Record>)
    ensures r.Some? <==> key in m
    ensures r.Some? ==> r.value == m[key]
  {
    if key in m then Some(m[key]) else None
  }

  /** `Object.assign(existing, item)` when there is an existing record, else a
      new record carrying the item's fields. */
  function Merge(existing: Option<Record>, item: Record): (r: Record)
    ensures r.Keys == item.Keys + (if existing.Some? then existing.value.Keys else {})
    ensures forall k :: k in item ==> r[k] == item[k]
    ensures existing.Some? ==> forall k :: k in existing.value && k !in item ==> r[k] == existing.value[k]
  {
    if existing.Some? then existing.value + item else item
  }

  /** Merging the same fields a second time changes nothing. */
  lemma MergeTwice(existing: Option<Record>, item: Record)
    ensures Merge(Some(Merge(existing, item)), item) == Merge(existing, item)
  {
  }

  /** `itemsById` and `tempsById`. */
  datatype Tables = Tables(items: map<string, Record>, temps: map<string, Record>)
  {
    /** `store[key]` for key `'itemsById'` or `'tempsById'`. */
    function Table(toItems: bool): map<string, Record>
    {
      if toItems then items else temps
    }

    function WithTable(toItems: bool, m: map<string, Record>): (t: Tables)
      ensures t.Table(toItems) == m && t.Table(!toItems) == Table(!toItems)
    {
      if toItems then this.(items := m) else this.(temps := m)
    }
  }

  /** What upserting one record gives: the new tables, what `addOrUpdate`
      returns for it, and the caller's record afterwards (the source assigns
      and deletes temp ids on the caller's object). */
  datatype Upserted = Upserted(tables: Tables, stored: Option<Record>, input: Record)

  /** Whether `addOrMergeToStore` files `item` under `itemsById`. */
  predicate GoesToItems(cfg: Config, item: Record)
  {
    !IsNullish(GetId(Obj(item), Some(cfg.idField)))
  }

  /** The record `addOrMergeToStore` files: one bound for `tempsById` whose
      `tempIdField` is falsy first receives a `__tempId` (`freshId`). */
  function WithTempId(cfg: Config, item: Record, freshId: string): (r: Record)
    ensures GoesToItems(cfg, item) || Truthy(Get(item, cfg.tempIdField)) ==> r == item
    ensures !GoesToItems(cfg, item) && !Truthy(Get(item, cfg.tempIdField)) ==> r == AssignTempId(item, freshId)
  {
    if !GoesToItems(cfg, item) && !Truthy(Get(item, cfg.tempIdField)) then AssignTempId(item, freshId) else item
  }

  /** `store[table][key] = existing ? Object.assign(existing, input) : new Model(input)`. */
  function MergeInto(t: Tables, toItems: bool, key: string, input: Record): (r: Tables)
    ensures r.Table(!toItems) == t.Table(!toItems)
    ensures key in r.Table(toItems)
    ensures r.Table(toItems)[key] == Merge(Lookup(t.Table(toItems), key), input)
    ensures forall k :: k != key ==> Lookup(r.Table(toItems), k) == Lookup(t.Table(toItems), k)
  {
    var table := t.Table(toItems);
    t.WithTable(toItems, table[key := Merge(Lookup(table, key), input)])
  }

  /** Merging the same record under the same key twice is merging it once. */
  lemma MergeIntoTwice(t: Tables, toItems: bool, key: string, input: Record)
    ensures MergeInto(MergeInto(t, toItems, key, input), toItems, key, input) == MergeInto(t, toItems, key, input)
  {
    var once := MergeInto(t, toItems, key, input);
    MergeTwice(Lookup(t.Table(toItems), key), input);
    assert once.Table(toItems)[key := Merge(Lookup(once.Table(toItems), key), input)] == once.Table(toItems);
  }

  /** `addOrMergeToStore(item, store)`: a record without a non-null
      `getId(item, idField)` goes to `tempsById`, first receiving a temp id
      when it has none; it is filed under `getAnyId` of the record, merged
      into the record already there, and that record is the result. */
  function AddOrMerge(cfg: Config, t: Tables, item: Record, freshId: string): (u: Upserted)
    ensures u.input == WithTempId(cfg, item, freshId)
    ensures u.tables == MergeInto(t, GoesToItems(cfg, item), ToString(GetAnyId(Obj(u.input))), u.input)
    ensures u.stored == Some(u.tables.Table(GoesToItems(cfg, item))[ToString(GetAnyId(Obj(u.input)))])
  {
    var toItems := GoesToItems(cfg, item);
    var input := WithTempId(cfg, item, freshId);
    var key := ToString(GetAnyId(Obj(input)));
    var tables := MergeInto(t, toItems, key, input);
    Upserted(tables, Some(tables.Table(toItems)[key]), input)
  }

  /** `moveTempToItems(data)`: when `tempsById` holds the record's temp id,
      that temp record, overridden by `data` and without `tempIdField`, moves
      to `itemsById` under the permanent id; otherwise both tables stay as
      they are. Either way the result is what `itemsById` then holds at the
      permanent id, and the caller's record loses `tempIdField`. */
  function MoveTemp(cfg: Config, t: Tables, data: Record): (u: Upserted)
    ensures var idKey := ToString(GetId(Obj(data), Some(cfg.idField)));
      var tempKey := ToString(GetTempId(Obj(data)));
      && (tempKey in t.temps ==>
            && u.tables.temps == t.temps - {tempKey}
            && u.tables.items == t.items[idKey := (t.temps[tempKey] + data) - {cfg.tempIdField}])
      && (tempKey !in t.temps ==> u.tables == t)
      && u.stored == Lookup(u.tables.items, idKey)
      && u.input == data - {cfg.tempIdField}
  {
    var idKey := ToString(GetId(Obj(data), Some(cfg.idField)));
    var tempKey := ToString(GetTempId(Obj(data)));
    var tables :=
      if tempKey in t.temps
      then Tables(t.items[idKey := (t.temps[tempKey] + data) - {cfg.tempIdField}], t.temps - {tempKey})
      else t;
    Upserted(tables, Lookup(tables.items, idKey), data - {cfg.tempIdField})
  }

  /** Whether `addOrUpdate` promotes `item`: it has both a permanent and a temp id. */
  predicate IsPromotion(cfg: Config, item: Record)
  {
    GoesToItems(cfg, item) && !IsNullish(GetTempId(Obj(item)))
  }

  /** One item of `addOrUpdate`. */
  function UpsertOne(cfg: Config, t: Tables, item: Record, freshId: string): Upserted
  {
    if IsPromotion(cfg, item) then MoveTemp(cfg, t, item) else AddOrMerge(cfg, t, item, freshId)
  }

  /** What `addOrUpdate` does to a sequence of items, in order. */
  datatype Upserts = Upserts(tables: Tables, stored: seq<Option<Record>>, inputs: seq<Record>)

  /** `addOrUpdate` over `items`; item `i` draws temp id `freshIds[i]`
      should it need one. */
  function UpsertAll(cfg: Config, t: Tables, items: seq<Record>, freshIds: seq<string>): (u: Upserts)
    requires |freshIds| == |items|
    ensures |u.stored| == |items| && |u.inputs| == |items|
    decreases |items|
  {
    if |items| == 0 then Upserts(t, [], [])
    else
      var n := |items| - 1;
      var before := UpsertAll(cfg, t, items[..n], freshIds[..n]);
      var last := UpsertOne(cfg, before.tables, items[n], freshIds[n]);
      Upserts(last.tables, before.stored + [last.stored], before.inputs + [last.input])
  }

  /** What upserting item `i` of `items` into the tables left by the items
      before it gives. */
  function StepAt(cfg: Config, t: Tables, items: seq<Record>, freshIds: seq<string>, i: nat): Upserted
    requires |freshIds| == |items| && i < |items|
  {
    UpsertOne(cfg, UpsertAll(cfg, t, items[..i], freshIds[..i]).tables, items[i], freshIds[i])
  }

  /** `addOrUpdate` of a sequence extends what it does to the sequence without its last item. */
  lemma UpsertAllSnoc(cfg: Config, t: Tables, items: seq<Record>, freshIds: seq<string>)
    requires |freshIds| == |items| && |items| > 0
    ensures var n := |items| - 1;
      var all := UpsertAll(cfg, t, items, freshIds);
      var before := UpsertAll(cfg, t, items[..n], freshIds[..n]);
      && all.stored == before.stored + [StepAt(cfg, t, items, freshIds, n).stored]
      && all.inputs == before.inputs + [StepAt(cfg, t, items, freshIds, n).input]
      && all.tables == StepAt(cfg, t, items, freshIds, n).tables
  {
  }

  /** One more item: `addOrUpdate` of the first `i + 1` items is that of the
      first `i` followed by upserting item `i`. */
  lemma UpsertAllStep(cfg: Config, t: Tables, items: seq<Record>, freshIds: seq<string>, i: nat, u: Upserted)
    requires |freshIds| == |items| && i < |items|
    requires u == StepAt(cfg, t, items, freshIds, i)
    ensures var before := UpsertAll(cfg, t, items[..i], freshIds[..i]);
      var after := UpsertAll(cfg, t, items[..i + 1], freshIds[..i + 1]);
      after.tables == u.tables && after.stored == before.stored + [u.stored] && after.inputs == before.inputs + [u.input]
  {
    var prefix, ids := items[..i + 1], freshIds[..i + 1];
    assert prefix[..i] == items[..i] && prefix[i] == items[i];
    assert ids[..i] == freshIds[..i] && ids[i] == freshIds[i];
    UpsertAllSnoc(cfg, t, prefix, ids);
  }

  /** Each result of `addOrUpdate` is what upserting that item into the
      tables left by the items before it gives. */
  lemma {:induction false} UpsertAllInOrder(cfg: Config, t: Tables, items: seq<Record>, freshIds: seq<string>, i: nat)
    requires |freshIds| == |items| && i < |items|
    ensures UpsertAll(cfg, t, items, freshIds).stored[i] == StepAt(cfg, t, items, freshIds, i).stored
    ensures UpsertAll(cfg, t, items, freshIds).inputs[i] == StepAt(cfg, t, items, freshIds, i).input
    decreases |items|
  {
    var n := |items| - 1;
    UpsertAllSnoc(cfg, t, items, freshIds);
    if i < n {
      assert items[..n][..i] == items[..i] && items[..n][i] == items[i];
      assert freshIds[..n][..i] == freshIds[..i] && freshIds[..n][i] == freshIds[i];
      UpsertAllInOrder(cfg, t, items[..n], freshIds[..n], i);
    }
  }

  /** Upserting a record leaves every other key of both tables as it was. */
  lemma UpsertOthersUntouched(cfg: Config, t: Tables, item: Record, freshId: string, key: string)
    requires !IsPromotion(cfg, item)
    requires key != ToString(GetAnyId(Obj(UpsertOne(cfg, t, item, freshId).input)))
    ensures Lookup(UpsertOne(cfg, t, item, freshId).tables.items, key) == Lookup(t.items, key)
    ensures Lookup(UpsertOne(cfg, t, item, freshId).tables.temps, key) == Lookup(t.temps, key)
  {
  }

  /** A record without a permanent id lands in `tempsById`, carrying a temp id. */
  lemma UpsertWithoutIdGoesToTemps(cfg: Config, t: Tables, item: Record, freshId: string)
    requires Conventional(cfg)
    requires !GoesToItems(cfg, item)
    requires freshId != ""
    ensures var u := UpsertOne(cfg, t, item, freshId);
      && u.tables.items == t.items
      && Truthy(Get(u.input, TempIdField))
      && ToString(GetAnyId(Obj(u.input))) in u.tables.temps
  {
    var u := UpsertOne(cfg, t, item, freshId);
    if !Truthy(Get(item, TempIdField)) {
      assert Get(u.input, TempIdField) == Str(freshId);
    }
  }

  /** Adding the same record object twice equals adding it once: the second
      call finds the temp id the first one merged and merges the same
      fields again. (Not for a promotion: a promoted record has lost its temp
      id, and a promotion whose temp entry is gone drops the record the first
      time but stores it the second.) */
  lemma UpsertIdempotent(cfg: Config, t: Tables, item: Record, f1: string, f2: string)
    requires Conventional(cfg)
    requires !IsPromotion(cfg, item)
    requires f1 != ""
    ensures var once := UpsertOne(cfg, t, item, f1);
      UpsertOne(cfg, once.tables, once.input, f2) == once
  {
    var input := WithTempId(cfg, item, f1);
    WithTempIdSettles(cfg, item, f1, f2);
    MergeIntoTwice(t, GoesToItems(cfg, item), ToString(GetAnyId(Obj(input))), input);
  }

  /** Re-adding a promoted record as the caller holds it afterwards (without
      its temp id) changes nothing, provided the temp entry was there to
      promote and `getAnyId` files the record under the same key as the
      permanent id `moveTempToItems` uses. */
  lemma PromotionIdempotent(cfg: Config, t: Tables, item: Record, f1: string, f2: string)
    requires Conventional(cfg)
    requires IsPromotion(cfg, item)
    requires ToString(GetTempId(Obj(item))) in t.temps
    requires EditKey(item - {TempIdField}) == ToString(GetId(Obj(item), Some(cfg.idField)))
    ensures var once := UpsertOne(cfg, t, item, f1);
      UpsertOne(cfg, once.tables, once.input, f2) == once
  {
    var once := UpsertOne(cfg, t, item, f1);
    var input := item - {TempIdField};
    var idKey := ToString(GetId(Obj(item), Some(cfg.idField)));
    assert once.input == input;
    assert item == input + map[TempIdField := item[TempIdField]];
    IdentityStable(input, map[TempIdField := item[TempIdField]], Some(cfg.idField));
    assert GoesToItems(cfg, input) && !IsPromotion(cfg, input);
    var promoted := once.tables.items[idKey];
    assert promoted + input == promoted;
    assert once.tables.items[idKey := promoted + input] == once.tables.items;
  }

  /** With a custom `tempIdField` the add is not idempotent: the source tests
      `item[tempIdField]`, but `assignTempId` writes `__tempId`, so adding the
      record again finds no temp id and files it under a second one. */
  lemma CustomTempIdFieldRedraws(f1: string, f2: string)
    requires f1 != f2
    ensures var cfg := Config("id", "tid");
      var once := UpsertOne(cfg, Tables(map[], map[]), map[], f1);
      var twice := UpsertOne(cfg, once.tables, once.input, f2);
      && once.input == map[TempIdField := Str(f1)]
      && twice.input == map[TempIdField := Str(f2)]
      && twice != once
  {
    var cfg := Config("id", "tid");
    var once := UpsertOne(cfg, Tables(map[], map[]), map[], f1);
    assert !GoesToItems(cfg, map[]);
    assert once.input == map[TempIdField := Str(f1)];
    assert Get(once.input, "tid") == Undefined;
    assert !GoesToItems(cfg, once.input);
    assert !IsPromotion(cfg, once.input);
  }

  /** A record that has been through `WithTempId` keeps its bucket and gets
      no second temp id. */
  lemma WithTempIdSettles(cfg: Config, item: Record, f1: string, f2: string)
    requires Conventional(cfg)
    requires !IsPromotion(cfg, item)
    requires f1 != ""
    ensures var r := WithTempId(cfg, item, f1);
      && GoesToItems(cfg, r) == GoesToItems(cfg, item)
      && !IsPromotion(cfg, r)
      && WithTempId(cfg, r, f2) == r
  {
    var r := WithTempId(cfg, item, f1);
    if r != item {
      IdentityStable(item, map[TempIdField := Str(f1)], Some(cfg.idField));
      assert r == item + map[TempIdField := Str(f1)];
      assert Truthy(Get(r, TempIdField));
      assert GetTempId(Obj(r)) == Str(f1);
    }
  }

  /** The scenario of a record created without an id: once the server's
      answer carries the permanent id next to the temp id, the temp entry is
      gone and `itemsById` holds the merged record without a temp id. */
  lemma PromotionMovesTemp(cfg: Config, t: Tables, data: Record, freshId: string)
    requires cfg.tempIdField == TempIdField
    requires IsPromotion(cfg, data)
    requires ToString(GetTempId(Obj(data))) in t.temps
    ensures var u := UpsertOne(cfg, t, data, freshId);
      var idKey := ToString(GetId(Obj(data), Some(cfg.idField)));
      && ToString(GetTempId(Obj(data))) !in u.tables.temps
      && idKey in u.tables.items
      && TempIdField !in u.tables.items[idKey]
      && TempIdField !in u.input
      && u.stored == Some(u.tables.items[idKey])
      && forall k :: k in data && k != TempIdField ==> u.tables.items[idKey][k] == data[k]
  {
  }

  /** The key `removeFromStore` removes for one item: its permanent id, else
      its temp id; `None` when both are null or undefined. */
  function RemovalKey(cfg: Config, item: Value): (r: Option<string>)
    ensures !IsNullish(GetId(item, Some(cfg.idField))) ==> r == Some(ToString(GetId(item, Some(cfg.idField))))
    ensures IsNullish(GetId(item, Some(cfg.idField))) && !IsNullish(GetTempId(item)) ==>
      r == Some(ToString(GetTempId(item)))
    ensures IsNullish(GetId(item, Some(cfg.idField))) && IsNullish(GetTempId(item)) ==> r.None?
  {
    var id := GetId(item, Some(cfg.idField));
    var chosen := if !IsNullish(id) then id else GetTempId(item);
    if IsNullish(chosen) then None else Some(ToString(chosen))
  }

  /** All keys `removeFromStore` removes for the items of `data`. */
  function RemovalKeys(cfg: Config, items: seq<Value>): (keys: set<string>)
    ensures forall i :: 0 <= i < |items| && RemovalKey(cfg, items[i]).Some? ==> RemovalKey(cfg, items[i]).value in keys
    ensures forall k :: k in keys ==> exists i :: 0 <= i < |items| && RemovalKey(cfg, items[i]) == Some(k)
  {
    set i | 0 <= i < |items| && RemovalKey(cfg, items[i]).Some? :: RemovalKey(cfg, items[i]).value
  }

  /** The kinds of request the pending flags track. */
  datatype RequestType = Find | Count | GetOne | Create | Update | Patch | Remove

  type Pending = map<string, map<RequestType, bool>>

  /** `setPendingById(id, method, val)`. */
  function SetPending(p: Pending, id: Value, request: RequestType, val: bool): (r: Pending)
    ensures IsNullish(id) ==> r == p
    ensures !IsNullish(id) ==>
      && r.Keys == p.Keys + {ToString(id)}
      && r[ToString(id)].Keys == (if ToString(id) in p then p[ToString(id)].Keys else {}) + {request}
      && r[ToString(id)][request] == val
      && (forall m :: ToString(id) in p && m in p[ToString(id)] && m != request ==> r[ToString(id)][m] == p[ToString(id)][m])
      && (forall k :: k in p && k != ToString(id) ==> r[k] == p[k])
  {
    if IsNullish(id) then p
    else
      // The fallback `{ [method]: val }` is overwritten with the same flag
      // at once, so starting from an empty entry gives the same map.
      var key := ToString(id);
      var entry := if key in p then p[key] else map[];
      p[key := entry[request := val]]
  }

  /** Setting a flag twice keeps only the second value. */
  lemma SetPendingLastWins(p: Pending, id: Value, request: RequestType, v1: bool, v2: bool)
    ensures SetPending(SetPending(p, id, request, v1), id, request, v2) == SetPending(p, id, request, v2)
  {
    if !IsNullish(id) {
      var key := ToString(id);
      FlagOverwritten(p, key, if key in p then p[key] else map[], request, v1, v2);
    }
  }

  /** The map step of `SetPendingLastWins`: the second write replaces the
      first write's entry, and in it the first write's flag. */
  lemma FlagOverwritten(p: Pending, key: string, entry: map<RequestType, bool>, request: RequestType, v1: bool, v2: bool)
    ensures var once := p[key := entry[request := v1]];
      once[key := once[key][request := v2]] == p[key := entry[request := v2]]
  {
    assert entry[request := v1][request := v2] == entry[request := v2];
  }

  /** One event's locks. Only `true` is ever written. */
  type Locks = map<string, bool>

  /** The toggle `setEventLockState` applies to one id. */
  function Toggle(locks: Locks, key: string): (r: Locks)
    ensures (key in r && r[key]) <==> !(key in locks && locks[key])
    ensures forall k :: k != key ==> (k in r <==> k in locks) && (k in r ==> r[k] == locks[k])
  {
    if key in locks && locks[key] then locks - {key} else locks[key := true]
  }

  /** The toggles of a whole list of ids, applied in order. */
  function ToggleAll(locks: Locks, keys: seq<string>): Locks
    decreases |keys|
  {
    if |keys| == 0 then locks else Toggle(ToggleAll(locks, keys[..|keys| - 1]), keys[|keys| - 1])
  }

  /** One more id: toggling the first `i + 1` ids is toggling the first `i`, then id `i`. */
  lemma ToggleAllStep(locks: Locks, keys: seq<string>, i: nat)
    requires i < |keys|
    ensures ToggleAll(locks, keys[..i + 1]) == Toggle(ToggleAll(locks, keys[..i]), keys[i])
  {
    assert keys[..i + 1][..i] == keys[..i];
  }

  predicate AllSet(locks: Locks)
  {
    forall k :: k in locks ==> locks[k]
  }

  function Occurrences(keys: seq<string>, key: string): nat
    decreases |keys|
  {
    if |keys| == 0 then 0
    else Occurrences(keys[..|keys| - 1], key) + (if keys[|keys| - 1] == key then 1 else 0)
  }

  /** After toggling a list of ids, an id is locked exactly when it was
      locked before and occurs an even number of times, or was not and occurs
      an odd number of times. So two toggles of one id cancel. */
  lemma {:induction false} ToggleAllParity(locks: Locks, keys: seq<string>, key: string)
    requires AllSet(locks)
    ensures AllSet(ToggleAll(locks, keys))
    ensures (key in ToggleAll(locks, keys)) <==> ((key in locks) != (Occurrences(keys, key) % 2 == 1))
    decreases |keys|
  {
    if |keys| > 0 {
      var n := |keys| - 1;
      ToggleAllParity(locks, keys[..n], key);
      ToggleAllParity(locks, keys[..n], keys[n]);
    }
  }

  /** The parity law for every id at once. */
  lemma ToggleAllLocks(locks: Locks, keys: seq<string>)
    requires AllSet(locks)
    ensures AllSet(ToggleAll(locks, keys))
    ensures forall k :: k in ToggleAll(locks, keys) <==> ((k in locks) != (Occurrences(keys, k) % 2 == 1))
  {
    if |keys| > 0 {
      ToggleAllParity(locks, keys, keys[0]);
    }
    forall k
      ensures k in ToggleAll(locks, keys) <==> ((k in locks) != (Occurrences(keys, k) % 2 == 1))
    {
      ToggleAllParity(locks, keys, k);
    }
  }

  /** Toggling an id twice restores the locks. */
  lemma ToggleTwiceRestores(locks: Locks, key: string)
    requires AllSet(locks)
    ensures Toggle(Toggle(locks, key), key) == locks
  {
  }

  /** What `clone` stores when there is no clone yet: a copy of the canonical
      record marked `__isClone`, overridden by `data`. */
  function CloneOf(original: Record, data: Record): (r: Record)
    ensures r.Keys == original.Keys + data.Keys + {CloneField}
    ensures forall k :: k in data ==> r[k] == data[k]
    ensures CloneField !in data ==> r[CloneField] == Bool(true)
    ensures forall k :: k in original && k !in data && k != CloneField ==> r[k] == original[k]
  {
    original[CloneField := Bool(true)] + data
  }

  /** What `reset` turns an existing clone into: `Object.assign(existing,
      original, data)`, then every key the canonical record lacks removed, then
      marked `__isClone`. */
  function ResetClone(existing: Record, original: Record, data: Record): (r: Record)
    ensures r.Keys == original.Keys + {CloneField}
    ensures r[CloneField] == Bool(true)
    ensures forall k :: k in original && k != CloneField ==> r[k] == if k in data then data[k] else original[k]
  {
    var merged := existing + original + data;
    var kept := map k | k in merged && k in original :: merged[k];
    kept[CloneField := Bool(true)]
  }

  /** A reset keeps nothing of what the clone held before. */
  lemma ResetForgetsScratch(e1: Record, e2: Record, original: Record, data: Record)
    ensures ResetClone(e1, original, data) == ResetClone(e2, original, data)
  {
    var r1 := ResetClone(e1, original, data);
    var r2 := ResetClone(e2, original, data);
    assert forall k :: k in r1 ==> r1[k] == r2[k];
  }

  /** What `commit` stores: a copy of the clone overridden by `data`. */
  function CommitOf(clone: Record, data: Record): (r: Record)
    ensures r.Keys == clone.Keys + data.Keys
    ensures forall k :: k in data ==> r[k] == data[k]
    ensures forall k :: k in clone && k !in data ==> r[k] == clone[k]
  {
    clone + data
  }

  /** Whether `clone`, `commit` and `reset` treat the record as a temp:
      `getTempId(item) != null`. */
  predicate UsesTemps(item: Record)
  {
    !IsNullish(GetTempId(Obj(item)))
  }

  /** The key `clone`, `commit` and `reset` use: `getAnyId(item)`. */
  function EditKey(item: Record): string
  {
    ToString(GetAnyId(Obj(item)))
  }

  /** Editing scenario: after cloning, editing the clone and committing, the
      canonical record holds the edit, and a reset gives back a clone that
      agrees with the new canonical record on all its fields. */
  lemma CommitThenResetAgrees(original: Record, edit: Record, field: string, v: Value)
    requires field != CloneField
    ensures var clone := CloneOf(original, edit)[field := v];
      var committed := CommitOf(clone, map[]);
      && committed[field] == v
      && var again := ResetClone(clone, committed, map[]);
      && again.Keys == committed.Keys
      && forall k :: k in committed && k != CloneField ==> again[k] == committed[k]
  {
  }
}
