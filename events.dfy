/** The live-event queue and the routing of service events into the store
    (src/service-store/events.ts). */
module Events {
  import opened Wrappers
  import opened Values
  import opened Utils
  import opened StoreModel
  import opened ServiceStores

  /** The four service events the store listens to. */
  datatype EventName = Created | Updated | Patched | Removed

  /** The store action a listener names for its event. */
  datatype Mutation = AddOrUpdate | RemoveFromStore

  /** The mutation each listener passes: `removeFromStore` for `removed`,
      `addOrUpdate` for the others. */
  function MutationOf(e: EventName): (m: Mutation)
    ensures m == RemoveFromStore <==> e == Removed
  {
    if e == Removed then RemoveFromStore else AddOrUpdate
  }

  /** What a `handleEvents` handler returns: a bare confirmation, or the
      pair `[affectsStore, modified]` whose second element may be missing. */
  datatype HandlerResult = Confirm(affectsStore: bool) | Pair(affectsStore: bool, modified: Option<Record>)
  {
    /** `modified = item`: the payload defaults to the event's item. */
    function Payload(item: Record): (p: Record)
      ensures (Pair? && modified.Some?) ==> p == modified.value
      ensures !(Pair? && modified.Some?) ==> p == item
    {
      if Pair? && modified.Some? then modified.value else item
    }
  }

  /** What `handleEvent` does with one event. */
  datatype Action =
    | Ignore
    | ApplyRemoval(payload: Record)
    | ApplyAddOrUpdate(payload: Record)
    | QueueRemoval(item: Record)
    | QueueAddOrUpdate(item: Record)

  /** The routing of `handleEvent(eventName, item, mutationName)` for a
      handler result, with or without debouncing. */
  function Route(e: EventName, item: Record, mutation: Mutation, result: HandlerResult, debounced: bool): Action
  {
    if !result.affectsStore then Ignore
    else if !debounced then
      if e == Removed then ApplyRemoval(result.Payload(item))
      else if mutation == AddOrUpdate then ApplyAddOrUpdate(result.Payload(item))
      else ApplyRemoval(result.Payload(item))
    else if e == Removed then QueueRemoval(item)
    else QueueAddOrUpdate(item)
  }

  /** A handler that does not confirm leaves the store and the queue alone. */
  lemma UnconfirmedIsIgnored(e: EventName, item: Record, mutation: Mutation, result: HandlerResult, debounced: bool)
    ensures Route(e, item, mutation, result, debounced) == Ignore <==> !result.affectsStore
  {
  }

  /** With the listeners' mutations, `removed` events are removals and every
      other event is an add-or-update; debounced, the event's own item is
      queued and the handler's `modified` is dropped. */
  lemma EventKindRouting(e: EventName, item: Record, result: HandlerResult, debounced: bool)
    requires result.affectsStore
    ensures var a := Route(e, item, MutationOf(e), result, debounced);
      && (a.ApplyRemoval? || a.QueueRemoval? <==> e == Removed)
      && (a.ApplyAddOrUpdate? || a.QueueAddOrUpdate? <==> e != Removed)
      && (debounced <==> a.QueueRemoval? || a.QueueAddOrUpdate?)
      && (debounced ==> a.item == item)
      && (!debounced ==> a.payload == result.Payload(item))
  {
  }

  /** `keys` with `k` appended unless it is already there: the order of an
      object's own string keys after `obj[k] = v`. */
  function Appended(keys: seq<string>, k: string): (r: seq<string>)
    ensures k in keys ==> r == keys
    ensures k !in keys ==> r == keys + [k]
  {
    if k in keys then keys else keys + [k]
  }

  /** `keys` without `k`: the key order after `delete obj[k]`. */
  function Without(keys: seq<string>, k: string): (r: seq<string>)
    ensures forall x :: x in r <==> x in keys && x != k
    ensures Distinct(keys) ==> Distinct(r)
    ensures k !in keys ==> r == keys
  {
    if |keys| == 0 then []
    else if keys[0] == k then Without(keys[1..], k)
    else
      var rest := Without(keys[1..], k);
      assert Distinct(keys) ==> Distinct(keys[1..]) && keys[0] !in rest;
      [keys[0]] + rest
  }

  predicate Distinct(keys: seq<string>)
  {
    forall i, j :: 0 <= i < j < |keys| ==> keys[i] != keys[j]
  }

  /** `Object.values(queue)` for a queue whose keys come in the order `keys`. */
  function QueuedValues(queue: map<string, Record>, keys: seq<string>): (vs: seq<Record>)
    requires forall i :: 0 <= i < |keys| ==> keys[i] in queue
    ensures |vs| == |keys|
    ensures forall i :: 0 <= i < |keys| ==> vs[i] == queue[keys[i]]
  {
    seq(|keys|, i requires 0 <= i < |keys| => queue[keys[i]])
  }

  /** The records as the array of values `removeFromStore` receives. */
  function AsObjects(items: seq<Record>): (vs: seq<Value>)
    ensures |vs| == |items|
    ensures forall i :: 0 <= i < |items| ==> vs[i] == Obj(items[i])
  {
    seq(|items|, i requires 0 <= i < |items| => Obj(items[i]))
  }

  /** A value-level queue, as `Object.values` sees it: the map and its key order. */
  datatype Queue = Queue(byId: map<string, Record>, order: seq<string>)
  {
    ghost predicate Valid()
    {
      Distinct(order) && (forall k :: k in byId <==> k in order)
    }

    function Put(k: string, item: Record): (q: Queue)
      ensures q.byId == byId[k := item] && q.order == Appended(order, k)
      ensures Valid() ==> q.Valid()
    {
      Queue(byId[k := item], Appended(order, k))
    }

    function Delete(k: string): (q: Queue)
      ensures q.byId == byId - {k} && q.order == Without(order, k)
      ensures Valid() ==> q.Valid()
    {
      Queue(byId - {k}, Without(order, k))
    }
  }

  /** Enqueuing the same id twice in a row keeps only the second item, in
      the position the first one took. */
  lemma LastEnqueueWins(q: Queue, k: string, a: Record, b: Record)
    ensures q.Put(k, a).Put(k, b) == q.Put(k, b)
  {
  }

  /** Deleting an id that was just put back removes every trace of it. */
  lemma PutThenDeleteForgets(q: Queue, k: string, item: Record)
    requires q.Valid() && k !in q.byId
    ensures q.Put(k, item).Delete(k) == q
  {
    WithoutAppended(q.order, k);
  }

  lemma {:induction false} WithoutAppended(keys: seq<string>, k: string)
    requires k !in keys
    ensures Without(keys + [k], k) == keys
  {
    if |keys| == 0 {
      assert [k][1..] == [];
    } else {
      assert (keys + [k])[1..] == keys[1..] + [k];
      WithoutAppended(keys[1..], k);
    }
  }

  /** The debounced queue of one service (`enableServiceEvents`'s
      `debouncedQueue`) over the store it flushes into. */
  class EventQueue {
    const store: ServiceStore
    const idField: string
    /** `options.debounceEventsTime`; 0 switches the queue off. */
    const debounceEventsTime: int
    var addOrUpdateById: Queue
    var removeItemById: Queue

    /** Both queues are well formed and no id is queued in both. */
    ghost predicate Valid()
      reads this
    {
      && addOrUpdateById.Valid() && removeItemById.Valid()
      && addOrUpdateById.byId.Keys !! removeItemById.byId.Keys
    }

    constructor (store: ServiceStore, idField: string, debounceEventsTime: int)
      ensures Valid()
      ensures this.store == store && this.idField == idField && this.debounceEventsTime == debounceEventsTime
      ensures addOrUpdateById == Queue(map[], []) && removeItemById == Queue(map[], [])
    {
      this.store := store;
      this.idField := idField;
      this.debounceEventsTime := debounceEventsTime;
      addOrUpdateById := Queue(map[], []);
      removeItemById := Queue(map[], []);
    }

    /** The property key an item is queued under: `getId(item, idField)`. */
    function QueueKey(item: Record): string
    {
      ToString(GetId(Obj(item), Some(idField)))
    }

    /** `enqueueAddOrUpdate(item)`: queues the item for add-or-update and
        cancels a queued removal of its id. The flush it schedules is the
        separate `FlushAddOrUpdateQueue`. */
    method EnqueueAddOrUpdate(item: Record)
      requires Valid()
      modifies this
      ensures Valid()
      ensures addOrUpdateById == old(addOrUpdateById).Put(QueueKey(item), item)
      ensures removeItemById == old(removeItemById).Delete(QueueKey(item))
    {
      var id := QueueKey(item);
      addOrUpdateById := addOrUpdateById.Put(id, item);
      if id in removeItemById.byId {
        removeItemById := removeItemById.Delete(id);
      }
    }

    /** `enqueueRemoval(item)`: queues the item for removal and cancels a
        queued add-or-update of its id. */
    method EnqueueRemoval(item: Record)
      requires Valid()
      modifies this
      ensures Valid()
      ensures removeItemById == old(removeItemById).Put(QueueKey(item), item)
      ensures addOrUpdateById == old(addOrUpdateById).Delete(QueueKey(item))
    {
      var id := QueueKey(item);
      removeItemById := removeItemById.Put(id, item);
      if id in addOrUpdateById.byId {
        addOrUpdateById := addOrUpdateById.Delete(id);
      }
    }

    /** `flushAddOrUpdateQueue()`: nothing for an empty queue; otherwise the
        queued records go to `store.addOrUpdate` as one array and the queue
        is emptied. */
    method FlushAddOrUpdateQueue()
      requires Valid()
      modifies this, store
      ensures Valid()
      ensures old(addOrUpdateById.byId) == map[] ==>
        addOrUpdateById == old(addOrUpdateById) && store.Records() == old(store.Records()) &&
        store.tempIdsIssued == old(store.tempIdsIssued)
      ensures old(addOrUpdateById.byId) != map[] ==>
        var values := QueuedValues(old(addOrUpdateById.byId), old(addOrUpdateById.order));
        && addOrUpdateById == Queue(map[], [])
        && store.Records() ==
             UpsertAll(store.Cfg(), old(store.Records()), values, store.DrawnIds(old(store.tempIdsIssued), |values|)).tables
        && store.tempIdsIssued == old(store.tempIdsIssued) + |values|
      ensures removeItemById == old(removeItemById)
      ensures store.clonesById == old(store.clonesById) && store.pendingById == old(store.pendingById)
      ensures store.eventLocksById == old(store.eventLocksById) && store.pagination == old(store.pagination)
    {
      if addOrUpdateById.byId == map[] {
        return;
      }
      var values := QueuedValues(addOrUpdateById.byId, addOrUpdateById.order);
      var _, _ := store.AddOrUpdate(Multiple(values));
      addOrUpdateById := Queue(map[], []);
    }

    /** `flushRemoveItemQueue()`: nothing for an empty queue; otherwise the
        queued records go to `store.removeFromStore` as one array and the
        queue is emptied. */
    method FlushRemoveItemQueue()
      requires Valid()
      modifies this, store
      ensures Valid()
      ensures old(removeItemById.byId) == map[] ==>
        removeItemById == old(removeItemById) && store.Records() == old(store.Records()) &&
        store.clonesById == old(store.clonesById) && store.pendingById == old(store.pendingById)
      ensures old(removeItemById.byId) != map[] ==>
        var keys := RemovalKeys(store.Cfg(), AsObjects(QueuedValues(old(removeItemById.byId), old(removeItemById.order))));
        && removeItemById == Queue(map[], [])
        && store.itemsById == old(store.itemsById) - keys && store.tempsById == old(store.tempsById) - keys
        && store.clonesById == old(store.clonesById) - keys && store.pendingById == old(store.pendingById) - keys
      ensures addOrUpdateById == old(addOrUpdateById)
      ensures store.tempIdsIssued == old(store.tempIdsIssued)
      ensures store.eventLocksById == old(store.eventLocksById) && store.pagination == old(store.pagination)
    {
      if removeItemById.byId == map[] {
        return;
      }
      var values := QueuedValues(removeItemById.byId, removeItemById.order);
      var _ := store.RemoveFromStore(Multiple(AsObjects(values)));
      removeItemById := Queue(map[], []);
    }

    /** The effect of performing action `a`, from the state before to the
        state after: what the store and both queues become. */
    twostate predicate Performed(a: Action)
      reads this, store
    {
      match a
      case Ignore =>
        addOrUpdateById == old(addOrUpdateById) && removeItemById == old(removeItemById) &&
        store.Records() == old(store.Records()) && store.clonesById == old(store.clonesById) &&
        store.pendingById == old(store.pendingById) && store.tempIdsIssued == old(store.tempIdsIssued)
      case ApplyRemoval(payload) =>
        var keys := RemovalKeys(store.Cfg(), [Obj(payload)]);
        && addOrUpdateById == old(addOrUpdateById) && removeItemById == old(removeItemById)
        && store.itemsById == old(store.itemsById) - keys && store.tempsById == old(store.tempsById) - keys
        && store.clonesById == old(store.clonesById) - keys && store.pendingById == old(store.pendingById) - keys
        && store.tempIdsIssued == old(store.tempIdsIssued)
      case ApplyAddOrUpdate(payload) =>
        && addOrUpdateById == old(addOrUpdateById) && removeItemById == old(removeItemById)
        && store.Records() == UpsertAll(store.Cfg(), old(store.Records()), [payload], store.DrawnIds(old(store.tempIdsIssued), 1)).tables
        && store.clonesById == old(store.clonesById) && store.pendingById == old(store.pendingById)
        && store.tempIdsIssued == old(store.tempIdsIssued) + 1
      case QueueRemoval(queued) =>
        && removeItemById == old(removeItemById).Put(QueueKey(queued), queued)
        && addOrUpdateById == old(addOrUpdateById).Delete(QueueKey(queued))
        && store.Records() == old(store.Records()) && store.clonesById == old(store.clonesById)
        && store.pendingById == old(store.pendingById) && store.tempIdsIssued == old(store.tempIdsIssued)
      case QueueAddOrUpdate(queued) =>
        && addOrUpdateById == old(addOrUpdateById).Put(QueueKey(queued), queued)
        && removeItemById == old(removeItemById).Delete(QueueKey(queued))
        && store.Records() == old(store.Records()) && store.clonesById == old(store.clonesById)
        && store.pendingById == old(store.pendingById) && store.tempIdsIssued == old(store.tempIdsIssued)
    }

    /** `handleEvent(eventName, item, mutationName)` with the handler's
        result given: performs the action `Route` names. */
    method HandleEvent(e: EventName, item: Record, mutation: Mutation, result: HandlerResult)
      requires Valid()
      modifies this, store
      ensures Valid()
      ensures Performed(Route(e, item, mutation, result, debounceEventsTime != 0))
      ensures store.eventLocksById == old(store.eventLocksById) && store.pagination == old(store.pagination)
    {
      if !result.affectsStore {
        return;
      }
      var modified := result.Payload(item);
      if debounceEventsTime == 0 {
        if e == Removed || mutation == RemoveFromStore {
          var _ := store.RemoveFromStore(Single(Obj(modified)));
        } else {
          var _, _ := store.AddOrUpdate(Single(modified));
        }
      } else if e == Removed {
        EnqueueRemoval(item);
      } else {
        EnqueueAddOrUpdate(item);
      }
    }

    /** The listener registered for `e`: `handleEvent(e, item, mutation)`
        with the mutation that event's listener names. */
    method OnEvent(e: EventName, item: Record, result: HandlerResult)
      requires Valid()
      modifies this, store
      ensures Valid()
      ensures Performed(Route(e, item, MutationOf(e), result, debounceEventsTime != 0))
      ensures store.eventLocksById == old(store.eventLocksById) && store.pagination == old(store.pagination)
    {
      HandleEvent(e, item, MutationOf(e), result);
    }
  }
}
