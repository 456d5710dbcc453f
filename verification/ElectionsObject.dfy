/** The objects of pkg/ielections: the TTL store and the elections of one node, updated in place.
    The methods of `NodeElections` are steps of module Elections; the goroutine that maintains a
    leadership is cut where it waits for a timer. */
module ElectionsObject {
  import opened Elections

  /** ttlStorageMock; `fault` stands for errorTrigger and for an answer lost on the way. */
  class TtlStorage {
    var now: int
    var data: Store

    constructor (now: int)
      ensures this.now == now && data == map[]
    {
      this.now, data := now, map[];
    }

    method PruneExpired()
      modifies this`data
      ensures data == Pruned(old(data), now)
    {
      var todo := data.Keys;
      while todo != {}
        invariant data == map k | k in old(data) && (k in todo || now <= old(data)[k].expiresAt) :: old(data)[k]
        decreases todo
      {
        var k :| k in todo;
        if k in data && now > data[k].expiresAt {
          data := data - {k};
        }
        todo := todo - {k};
      }
    }

    method InsertIfNotExist(key: Key, value: Value, ttlSeconds: int, fault: Fault, owner: Id) returns (inserted: bool, err: bool)
      modifies this`data
      ensures err == !fault.NoFault?
      ensures inserted == (fault.NoFault? && key !in Pruned(old(data), now))
      ensures data == if fault.Lost? then Pruned(old(data), now)
                      else Inserted(old(data), now, key, Rec(value, now + Dur(ttlSeconds), owner))
    {
      PruneExpired();
      if fault.Lost? {
        return false, true;
      }
      if key in data {
        return false, fault.Unacked?;
      }
      data := data[key := Rec(value, now + Dur(ttlSeconds), owner)];
      return fault.NoFault?, fault.Unacked?;
    }

    method CompareAndSwap(key: Key, oldVal: Value, newVal: Value, ttlSeconds: int, fault: Fault, owner: Id)
      returns (swapped: bool, err: bool)
      modifies this`data
      ensures err == !fault.NoFault?
      ensures swapped == (fault.NoFault? && Holds(old(data), now, key, oldVal))
      ensures data == if fault.Lost? then Pruned(old(data), now)
                      else Swapped(old(data), now, key, oldVal, Rec(newVal, now + Dur(ttlSeconds), owner))
    {
      PruneExpired();
      if fault.Lost? {
        return false, true;
      }
      if key !in data || data[key].value != oldVal {
        return false, fault.Unacked?;
      }
      data := data[key := Rec(newVal, now + Dur(ttlSeconds), owner)];
      return fault.NoFault?, fault.Unacked?;
    }

    method CompareAndDelete(key: Key, value: Value, fault: Fault) returns (deleted: bool, err: bool)
      modifies this`data
      ensures err == !fault.NoFault?
      ensures deleted == (fault.NoFault? && Holds(old(data), now, key, value))
      ensures data == if fault.Lost? then Pruned(old(data), now) else Deleted(old(data), now, key, value)
    {
      PruneExpired();
      if fault.Lost? {
        return false, true;
      }
      if key !in data {
        return false, fault.Unacked?;
      }
      if data[key].value != value {
        return false, fault.Unacked?;
      }
      data := data - {key};
      return fault.NoFault?, fault.Unacked?;
    }
  }

  /** The store after cleanup deleted the records of the leaders in `swept`. */
  ghost function Swept(store: Store, now: int, leaders: map<Key, Leader>, swept: set<Key>, fault: map<Key, Fault>): Store {
    map k | k in store
            && (swept == {} || now <= store[k].expiresAt)
            && !(k in swept && k in leaders && !(k in fault && fault[k].Lost?) && store[k].value == leaders[k].value)
      :: store[k]
  }

  lemma SweepNone(store: Store, now: int, leaders: map<Key, Leader>, fault: map<Key, Fault>)
    ensures Swept(store, now, leaders, {}, fault) == store
  {
  }

  lemma SweepOne(store: Store, now: int, leaders: map<Key, Leader>, swept: set<Key>, fault: map<Key, Fault>, key: Key)
    requires key in leaders && key !in swept
    ensures Swept(store, now, leaders, swept + {key}, fault)
      == (var st := Swept(store, now, leaders, swept, fault);
          if key in fault && fault[key].Lost? then Pruned(st, now) else Deleted(st, now, key, leaders[key].value))
  {
  }

  class NodeElections {
    const id: Id
    const storage: TtlStorage
    var leadership: map<Key, Leader>
    var isFinalized: bool
    /** AcquireLeadership calls between the check and the insertion. */
    ghost var calls: multiset<Call>

    constructor (id: Id, storage: TtlStorage)
      ensures this.id == id && this.storage == storage
      ensures View() == Node(map[], multiset{}, false)
    {
      this.id, this.storage := id, storage;
      leadership, isFinalized, calls := map[], false, multiset{};
    }

    ghost function View(): Node
      reads this
    {
      Node(leadership, calls, isFinalized)
    }

    ghost predicate Can(a: NodeAction)
      reads this, storage
    {
      NodeEnabled(storage.now, View(), a)
    }

    /** First part of AcquireLeadership. */
    method CheckFinalized(ghost c: Call) returns (ok: bool)
      modifies this`calls
      ensures (storage.data, View()) == NodeStep(id, storage.now, old(storage.data), old(View()), Check(c))
      ensures ok == !isFinalized
    {
      if isFinalized {
        return false;
      }
      calls := calls + multiset{c};
      return true;
    }

    /** Second part of AcquireLeadership. */
    method InsertRecord(key: Key, value: Value, dur: int, fault: Fault) returns (acquired: bool)
      requires Can(Insert(Call(key, value, dur), fault))
      modifies this, storage`data
      ensures (storage.data, View())
        == NodeStep(id, storage.now, old(storage.data), old(View()), Insert(Call(key, value, dur), fault))
      ensures acquired == (fault.NoFault? && key !in Pruned(old(storage.data), storage.now))
    {
      calls := calls - multiset{Call(key, value, dur)};
      var inserted, err := storage.InsertIfNotExist(key, value, dur, fault, id);
      if err {
        return false;
      }
      if !inserted {
        return false;
      }
      leadership := leadership[key := NewLeader(storage.now, value, dur)];
      return true;
    }

    /** Without interference: acquired exactly if not finalized, the key is free and the storage answers. */
    method AcquireLeadership(key: Key, value: Value, dur: int, fault: Fault) returns (acquired: bool)
      modifies this, storage`data
      ensures acquired == (!old(isFinalized) && fault.NoFault? && key !in Pruned(old(storage.data), storage.now))
      ensures leadership == if acquired then old(leadership)[key := NewLeader(storage.now, value, dur)] else old(leadership)
      ensures acquired ==>
        storage.data == Pruned(old(storage.data), storage.now)[key := Rec(value, storage.now + Dur(dur), id)]
      ensures isFinalized == old(isFinalized) && calls == old(calls)
    {
      var ok := CheckFinalized(Call(key, value, dur));
      if !ok {
        return false;
      }
      acquired := InsertRecord(key, value, dur, fault);
      assert old(calls) + multiset{Call(key, value, dur)} - multiset{Call(key, value, dur)} == old(calls);
    }

    /** maintainLeadership receives from the ticker and enters renewWithRetry. */
    method OnTicker(key: Key)
      requires Can(Tick(key))
      modifies this`leadership
      ensures (storage.data, View()) == NodeStep(id, storage.now, storage.data, old(View()), Tick(key))
    {
      var l := leadership[key];
      var tickerInterval := TickerInterval(l.dur);
      leadership := leadership[key := l.(nextTick := storage.now + tickerInterval, phase := Renewing(storage.now + tickerInterval))];
    }

    /** One turn of the loop of renewWithRetry, up to its wait. */
    method TryRenew(key: Key, fault: Fault, releaseFault: Fault) returns (renewed: bool, released: bool)
      requires Can(Attempt(key, fault, releaseFault))
      modifies this`leadership, storage`data
      ensures (storage.data, View())
        == NodeStep(id, storage.now, old(storage.data), old(View()), Attempt(key, fault, releaseFault))
      ensures renewed ==> fault.NoFault?
      ensures released <==> key !in leadership
    {
      var l := leadership[key];
      var ok, err := storage.CompareAndSwap(key, l.value, l.value, l.dur, fault, id);
      if !err {
        if ok {
          leadership := leadership[key := l.(lastOk := storage.now, phase := Waiting)];
          return true, false;
        }
        var found := ReleaseLeadership(key, releaseFault);
        return false, true;
      }
      leadership := leadership[key := l.(phase := Sleeping(l.phase.deadline, storage.now + SECOND))];
      return false, false;
    }

    method OnRetryTimer(key: Key)
      requires Can(Retry(key))
      modifies this`leadership
      ensures (storage.data, View()) == NodeStep(id, storage.now, storage.data, old(View()), Retry(key))
    {
      var l := leadership[key];
      leadership := leadership[key := l.(phase := Renewing(l.phase.deadline))];
    }

    method OnDeadline(key: Key, fault: Fault)
      requires Can(Deadline(key, fault))
      modifies this`leadership, storage`data
      ensures (storage.data, View()) == NodeStep(id, storage.now, old(storage.data), old(View()), Deadline(key, fault))
    {
      var found := ReleaseLeadership(key, fault);
    }

    method ReleaseLeadership(key: Key, fault: Fault) returns (found: bool)
      modifies this`leadership, storage`data
      ensures (storage.data, View()) == NodeStep(id, storage.now, old(storage.data), old(View()), Release(key, fault))
      ensures found == (key in old(leadership))
    {
      if key !in leadership {
        return false;
      }
      var l := leadership[key];
      leadership := leadership - {key};
      var deleted, err := storage.CompareAndDelete(key, l.value, fault);
      return true;
    }

    /** cleanup with no other node running meanwhile: a failed deletion leaves its record. */
    method Cleanup(fault: map<Key, Fault>)
      modifies this, storage`data
      ensures View() == Node(map[], old(calls), true)
      ensures storage.data == Swept(old(storage.data), storage.now, old(leadership), old(leadership).Keys, fault)
    {
      hide Swept, Pruned, Deleted;
      SweepNone(storage.data, storage.now, leadership, fault);
      isFinalized := true;
      var todo := leadership.Keys;
      ghost var swept: set<Key> := {};
      while todo != {}
        invariant todo == leadership.Keys && todo + swept == old(leadership).Keys
        invariant leadership == old(leadership) - swept
        invariant isFinalized && calls == old(calls)
        invariant storage.data == Swept(old(storage.data), storage.now, old(leadership), swept, fault)
        decreases todo
      {
        var key :| key in todo;
        var deleted, err := storage.CompareAndDelete(key, leadership[key].value, if key in fault then fault[key] else NoFault);
        SweepOne(old(storage.data), storage.now, old(leadership), swept, fault, key);
        swept := swept + {key};
        leadership := leadership - {key};
        todo := todo - {key};
      }
      assert swept == old(leadership).Keys;
    }
  }
}
