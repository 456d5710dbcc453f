/** cachedAppStorage of pkg/istoragecache and the storage under it, updated in place.  Every method is one
    step of module StorageCache; it sees one clock reading. */
module StorageCacheObject {
  import opened Options
  import opened Bytes
  import opened StorageCache

  /** IAppStorage, as the memory driver implements it. */
  class AppStorage {
    var data: Store
    var now: int

    constructor (now: int)
      ensures data == map[] && this.now == now
    {
      data, this.now := map[], now;
    }

    /** A call that fails may have taken effect. */
    method Call(op: Op, fault: Fault) returns (answer: Output)
      requires CallsStorage(op)
      modifies this`data
      ensures (data, answer) == StorageStep(old(data), now, op, fault)
    {
      var effect := Effect(data, now, op);
      if fault.Lost? {
        return Failed;
      }
      data := effect.0;
      answer := if fault.NoFault? then effect.1 else Failed;
    }
  }

  class CachedAppStorage {
    const storage: AppStorage
    var cache: Cache

    constructor (storage: AppStorage)
      ensures this.storage == storage && cache == map[]
    {
      this.storage, cache := storage, map[];
    }

    ghost function View(): State
      reads this, storage
    {
      State(storage.now, storage.data, cache)
    }

    /** Set of the cache library. */
    method Set(key: Bytes, entry: Bytes)
      modifies this`cache
      ensures cache == CacheSet(old(cache), key, entry)
    {
      if KV_LEN_SIZE + |key| + |entry| >= CHUNK_SIZE { return; }
      cache := cache[key := entry];
    }

    method SetEntry(k: Key, value: Bytes, expireAt: int)
      requires IsInt64(expireAt)
      modifies this`cache
      ensures cache == CacheSet(old(cache), MakeKey(k), Entry(value, expireAt))
    {
      Set(k.pKey + k.cCols, BigEndian(ToUint64(expireAt), UINT64_SIZE) + value);
    }

    method Put(k: Key, value: Bytes, fault: Fault) returns (answer: Output)
      modifies this`cache, storage`data
      ensures (View(), answer) == Step(old(View()), Op.Put(k, value), fault)
    {
      answer := storage.Call(Op.Put(k, value), fault);
      if !answer.Failed? {
        SetEntry(k, value, 0);
      }
    }

    method PutBatch(items: seq<(Key, Bytes)>, fault: Fault) returns (answer: Output)
      modifies this`cache, storage`data
      ensures (View(), answer) == Step(old(View()), Op.PutBatch(items), fault)
    {
      answer := storage.Call(Op.PutBatch(items), fault);
      if !answer.Failed? {
        SetEntries(items);
      }
    }

    /** The loop of PutBatch. */
    method SetEntries(items: seq<(Key, Bytes)>)
      modifies this`cache
      ensures cache == CachedAll(old(cache), items)
    {
      for i := 0 to |items|
        invariant cache == CachedAll(old(cache), items[..i])
      {
        SetEntry(items[i].0, items[i].1, 0);
        assert items[..i + 1][..i] == items[..i];
      }
      assert items[..|items|] == items;
    }

    method Get(k: Key, fault: Fault) returns (answer: Output)
      modifies this`cache, storage`data
      ensures (View(), answer) == Step(old(View()), Op.Get(k), fault)
    {
      var key := MakeKey(k);
      if key in cache {
        var cachedData := cache[key];
        if |cachedData| < UINT64_SIZE {
          return Found(None);
        }
        return Found(Some(cachedData[UINT64_SIZE..]));
      }
      answer := storage.Call(Op.Get(k), fault);
      if answer.Failed? {
        return;
      }
      if answer.record.Some? {
        SetEntry(k, answer.record.value, 0);
      } else if key !in cache {
        Set(key, []);
      }
    }

    /** The answers from the cache, if it has them all. */
    method GetBatchFromCache(pKey: Bytes, cCols: seq<Bytes>) returns (ok: bool, found: seq<Option<Bytes>>)
      ensures ok == AllCached(cache, pKey, cCols)
      ensures ok ==> found == FromCache(cache, pKey, cCols)
    {
      found := [];
      for i := 0 to |cCols|
        invariant |found| == i
        invariant forall j | 0 <= j < i ::
          var key := MakeKey(Key(pKey, cCols[j]));
          key in cache && found[j] == FromEntry(cache[key])
      {
        var key := MakeKey(Key(pKey, cCols[i]));
        if key !in cache {
          return false, found;
        }
        found := found + [if |cache[key]| < UINT64_SIZE then None else Some(cache[key][UINT64_SIZE..])];
      }
      return true, found;
    }

    method GetBatchFromStorage(pKey: Bytes, cCols: seq<Bytes>, fault: Fault) returns (answer: Output)
      requires !AllCached(cache, pKey, cCols)
      modifies this`cache, storage`data
      ensures (View(), answer) == Step(old(View()), Op.GetBatch(pKey, cCols), fault)
    {
      answer := storage.Call(Op.GetBatch(pKey, cCols), fault);
      if answer.Failed? {
        return;
      }
      RememberItems(pKey, cCols, answer.records);
    }

    /** The loop of getBatchFromStorage. */
    method RememberItems(pKey: Bytes, cCols: seq<Bytes>, found: seq<Option<Bytes>>)
      requires |cCols| == |found|
      modifies this`cache
      ensures cache == RememberedAll(old(cache), pKey, cCols, found)
    {
      for i := 0 to |cCols|
        invariant cache == RememberedAll(old(cache), pKey, cCols[..i], found[..i])
      {
        var key := Key(pKey, cCols[i]);
        if found[i].Some? {
          SetEntry(key, found[i].value, 0);
        } else if MakeKey(key) !in cache {
          Set(MakeKey(key), []);
        }
        assert cCols[..i + 1][..i] == cCols[..i] && found[..i + 1][..i] == found[..i];
      }
      assert cCols[..|cCols|] == cCols && found[..|cCols|] == found;
    }

    method GetBatch(pKey: Bytes, cCols: seq<Bytes>, fault: Fault) returns (answer: Output)
      modifies this`cache, storage`data
      ensures (View(), answer) == Step(old(View()), Op.GetBatch(pKey, cCols), fault)
    {
      var ok, found := GetBatchFromCache(pKey, cCols);
      if !ok {
        answer := GetBatchFromStorage(pKey, cCols, fault);
        return;
      }
      answer := FoundAll(found);
    }

    method TTLGet(k: Key, fault: Fault) returns (answer: Output)
      modifies this`cache, storage`data
      ensures (View(), answer) == Step(old(View()), Op.TTLGet(k), fault)
    {
      var key := MakeKey(k);
      if key in cache {
        if |cache[key]| < UINT64_SIZE {
          return Found(None);
        }
        var d := ReadWithExpiration(cache[key]);
        if IsExpired(d, storage.now) {
          cache := cache - {key};
          return Found(None);
        }
        return Found(Some(d.data));
      }
      answer := storage.Call(Op.TTLGet(k), fault);
      if answer.Found? && answer.record.None? && key !in cache {
        Set(key, []);
      }
    }

    method InsertIfNotExists(k: Key, value: Bytes, ttlSeconds: int, fault: Fault) returns (answer: Output)
      requires Fits(Op.InsertIfNotExists(k, value, ttlSeconds), storage.now)
      modifies this`cache, storage`data
      ensures (View(), answer) == Step(old(View()), Op.InsertIfNotExists(k, value, ttlSeconds), fault)
    {
      answer := storage.Call(Op.InsertIfNotExists(k, value, ttlSeconds), fault);
      if answer == Answer(true) {
        var expireAt := 0;
        if ttlSeconds > 0 {
          expireAt := (storage.now + ttlSeconds * SECOND) / MILLISECOND;
        }
        SetEntry(k, value, expireAt);
      }
    }

    method CompareAndSwap(k: Key, oldValue: Bytes, newValue: Bytes, ttlSeconds: int, fault: Fault) returns (answer: Output)
      requires Fits(Op.CompareAndSwap(k, oldValue, newValue, ttlSeconds), storage.now)
      modifies this`cache, storage`data
      ensures (View(), answer) == Step(old(View()), Op.CompareAndSwap(k, oldValue, newValue, ttlSeconds), fault)
    {
      answer := storage.Call(Op.CompareAndSwap(k, oldValue, newValue, ttlSeconds), fault);
      if answer == Answer(true) {
        var expireAt := 0;
        if ttlSeconds > 0 {
          expireAt := (storage.now + ttlSeconds * SECOND) / MILLISECOND;
        }
        SetEntry(k, newValue, expireAt);
      }
    }

    method CompareAndDelete(k: Key, expectedValue: Bytes, fault: Fault) returns (answer: Output)
      modifies this`cache, storage`data
      ensures (View(), answer) == Step(old(View()), Op.CompareAndDelete(k, expectedValue), fault)
    {
      answer := storage.Call(Op.CompareAndDelete(k, expectedValue), fault);
      if answer == Answer(true) {
        cache := cache - {MakeKey(k)};
      }
    }
  }
}
