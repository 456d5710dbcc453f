/** Main results about the storage cache: on safe keys a sequential history gives the answers of the storage
    without a cache, whatever is evicted; and a usage with a key that is not safe has a history that does
    not. */
module StorageCacheTheorems {
  import opened Options
  import opened Bytes
  import opened StorageCache

  /** What a class of histories does: the keys it uses, those that may hold records with a time to live,
      those that are read by Get or GetBatch, the longest data it writes, and whether a write may take
      effect without an acknowledgement. */
  datatype Usage = Usage(keys: set<Key>, ttlKeys: set<Key>, getKeys: set<Key>, maxData: nat, unacked: bool)

  predicate Writes(u: Usage, k: Key, data: Bytes, ttlSeconds: int) {
    k in u.keys && |data| <= u.maxData && (ttlSeconds > 0 ==> k in u.ttlKeys)
  }

  predicate Uses(u: Usage, op: Op) {
    match op
    case Put(k, v) => Writes(u, k, v, 0)
    case PutBatch(items) => forall i | 0 <= i < |items| :: Writes(u, items[i].0, items[i].1, 0)
    case Get(k) => k in u.keys && k in u.getKeys
    case GetBatch(p, cs) => forall i | 0 <= i < |cs| :: Key(p, cs[i]) in u.keys && Key(p, cs[i]) in u.getKeys
    case TTLGet(k) => k in u.keys
    case InsertIfNotExists(k, v, ttl) => Writes(u, k, v, ttl)
    case CompareAndSwap(k, _, v, ttl) => Writes(u, k, v, ttl)
    case CompareAndDelete(k, _) => k in u.keys
    case Evict(_) => true
    case Advance(_) => true
  }

  /** The cache may hold an entry for the key, be it that there is no record. */
  predicate Cacheable(k: Key) {
    FitsChunk(MakeKey(k), [])
  }

  /** The condition for one key: unless the cache can hold nothing for it, whatever is written to it fits,
      it is not read by Get if it may hold a time to live, no other key has its concatenation, and its
      writes are acknowledged. */
  predicate SafeKey(u: Usage, k: Key) {
    Cacheable(k) ==>
      && KV_LEN_SIZE + |MakeKey(k)| + UINT64_SIZE + u.maxData < CHUNK_SIZE
      && (k in u.ttlKeys ==> k !in u.getKeys)
      && (forall l | l in u.keys && l != k :: MakeKey(l) != MakeKey(k))
      && !u.unacked
  }

  predicate Safe(u: Usage) {
    forall k | k in u.keys :: SafeKey(u, k)
  }

  /* ---------- what the cache keeps ---------- */

  /** An entry is the stored record, or says rightly that there is no live one. */
  predicate EntryOk(st: Store, now: int, k: Key, entry: Bytes) {
    if entry == [] then !Live(st, now, k)
    else k in st && IsInt64(st[k].expireAt) && entry == ToBytes(st[k])
  }

  ghost predicate CacheOk(u: Usage, st: Store, now: int, cache: Cache) {
    && (forall ck | ck in cache :: FitsChunk(ck, []))
    && (forall k | k in u.keys && MakeKey(k) in cache :: EntryOk(st, now, k, cache[MakeKey(k)]))
  }

  ghost predicate PlainKept(u: Usage, st: Store) {
    forall k | k in u.keys && k !in u.ttlKeys && k in st :: st[k].expireAt == 0
  }

  ghost predicate Inv(u: Usage, s: State) {
    Safe(u) && CacheOk(u, s.store, s.now, s.cache) && PlainKept(u, s.store)
  }

  /** Two keys of a safe usage do not share an entry. */
  lemma Apart(u: Usage, st: Store, now: int, cache: Cache, k: Key, l: Key)
    requires Safe(u) && CacheOk(u, st, now, cache) && k in u.keys && l in u.keys && k != l
    requires MakeKey(l) in cache || FitsChunk(MakeKey(l), [])
    ensures MakeKey(l) != MakeKey(k)
  {
    assert SafeKey(u, l);
  }

  /** In a safe usage with unacknowledged writes no key can be cached. */
  lemma NothingCached(u: Usage, st: Store, now: int, cache: Cache)
    requires Safe(u) && CacheOk(u, st, now, cache) && u.unacked
    ensures forall k | k in u.keys :: MakeKey(k) !in cache
  {
    forall k | k in u.keys ensures MakeKey(k) !in cache {
      assert SafeKey(u, k);
    }
  }

  /** A record written under its key and cached; without the acknowledgement only if nothing is cached. */
  lemma WriteOk(u: Usage, st: Store, now: int, cache: Cache, k: Key, data: Bytes, expireAt: int)
    requires Safe(u) && CacheOk(u, st, now, cache) && PlainKept(u, st)
    requires k in u.keys && |data| <= u.maxData && IsInt64(expireAt) && (k !in u.ttlKeys ==> expireAt == 0)
    ensures
      var st' := st[k := Record(data, expireAt)];
      && CacheOk(u, st', now, CacheSet(cache, MakeKey(k), Entry(data, expireAt))) && PlainKept(u, st')
      && (u.unacked ==> CacheOk(u, st', now, cache))
  {
    EntryReadsBack(Record(data, expireAt));
    EntryLength(data, expireAt);
    var st' := st[k := Record(data, expireAt)];
    var cache' := CacheSet(cache, MakeKey(k), Entry(data, expireAt));
    assert SafeKey(u, k);
    forall l | l in u.keys && MakeKey(l) in cache'
      ensures EntryOk(st', now, l, cache'[MakeKey(l)])
    {
      if l != k {
        assert FitsChunk(MakeKey(l), []);
        Apart(u, st, now, cache, k, l);
        assert EntryOk(st, now, l, cache[MakeKey(l)]);
      }
    }
    if u.unacked {
      NothingCached(u, st, now, cache);
    }
  }

  lemma EntryLength(data: Bytes, expireAt: int)
    requires IsInt64(expireAt)
    ensures |Entry(data, expireAt)| == UINT64_SIZE + |data|
  {
  }

  lemma {:induction false} BatchOk(u: Usage, st: Store, now: int, cache: Cache, items: seq<(Key, Bytes)>)
    requires Safe(u) && CacheOk(u, st, now, cache) && PlainKept(u, st)
    requires forall i | 0 <= i < |items| :: Writes(u, items[i].0, items[i].1, 0)
    ensures CacheOk(u, Stored(st, items), now, CachedAll(cache, items)) && PlainKept(u, Stored(st, items))
    ensures u.unacked ==> CacheOk(u, Stored(st, items), now, cache)
  {
    if items != [] {
      var n := |items| - 1;
      BatchOk(u, st, now, cache, items[..n]);
      WriteOk(u, Stored(st, items[..n]), now, CachedAll(cache, items[..n]), items[n].0, items[n].1, 0);
      if u.unacked {
        WriteOk(u, Stored(st, items[..n]), now, cache, items[n].0, items[n].1, 0);
      }
    }
  }

  lemma DeleteOk(u: Usage, st: Store, now: int, cache: Cache, k: Key)
    requires Safe(u) && CacheOk(u, st, now, cache) && PlainKept(u, st) && k in u.keys
    ensures CacheOk(u, st - {k}, now, cache - {MakeKey(k)}) && PlainKept(u, st - {k})
    ensures u.unacked ==> CacheOk(u, st - {k}, now, cache)
  {
    forall l | l in u.keys && MakeKey(l) in cache - {MakeKey(k)}
      ensures EntryOk(st - {k}, now, l, cache[MakeKey(l)])
    {
      assert EntryOk(st, now, l, cache[MakeKey(l)]);
    }
    if u.unacked {
      NothingCached(u, st, now, cache);
    }
  }

  /** What a read remembers agrees with the storage. */
  lemma RememberOk(u: Usage, st: Store, now: int, cache: Cache, k: Key, found: Option<Bytes>)
    requires Safe(u) && CacheOk(u, st, now, cache) && PlainKept(u, st)
    requires k in u.keys && found == Lookup(st, now, k) && (found.Some? ==> k in u.getKeys)
    ensures CacheOk(u, st, now, Remembered(cache, MakeKey(k), found))
  {
    if found.Some? {
      EntryReadsBack(Record(found.value, 0));
      EntryLength(found.value, 0);
      assert SafeKey(u, k);
      assert Cacheable(k) ==> st[k] == Record(found.value, 0);
    }
    var cache' := Remembered(cache, MakeKey(k), found);
    forall l | l in u.keys && MakeKey(l) in cache'
      ensures EntryOk(st, now, l, cache'[MakeKey(l)])
    {
      if l != k {
        assert FitsChunk(MakeKey(l), []);
        Apart(u, st, now, cache, k, l);
        assert EntryOk(st, now, l, cache[MakeKey(l)]);
      }
    }
  }

  lemma {:induction false} RememberAllOk(u: Usage, st: Store, now: int, cache: Cache, p: Bytes, cs: seq<Bytes>)
    requires Safe(u) && CacheOk(u, st, now, cache) && PlainKept(u, st)
    requires forall i | 0 <= i < |cs| :: Key(p, cs[i]) in u.keys && Key(p, cs[i]) in u.getKeys
    ensures CacheOk(u, st, now, RememberedAll(cache, p, cs, LookupAll(st, now, p, cs)))
  {
    if cs != [] {
      var n := |cs| - 1;
      RememberAllOk(u, st, now, cache, p, cs[..n]);
      assert LookupAll(st, now, p, cs)[..n] == LookupAll(st, now, p, cs[..n]);
      RememberOk(u, st, now, RememberedAll(cache, p, cs[..n], LookupAll(st, now, p, cs[..n])), Key(p, cs[n]), Lookup(st, now, Key(p, cs[n])));
    }
  }

  /** A cached answer of Get is the storage's. */
  lemma EntryAnswers(u: Usage, st: Store, now: int, cache: Cache, k: Key)
    requires Safe(u) && CacheOk(u, st, now, cache) && PlainKept(u, st)
    requires k in u.keys && k in u.getKeys && MakeKey(k) in cache
    ensures FromEntry(cache[MakeKey(k)]) == Lookup(st, now, k)
  {
    assert SafeKey(u, k);
    assert EntryOk(st, now, k, cache[MakeKey(k)]);
    if cache[MakeKey(k)] != [] {
      EntryReadsBack(st[k]);
    }
  }

  lemma {:induction false} LookupAllAt(st: Store, now: int, p: Bytes, cs: seq<Bytes>, i: nat)
    requires i < |cs|
    ensures LookupAll(st, now, p, cs)[i] == Lookup(st, now, Key(p, cs[i]))
  {
    if i < |cs| - 1 {
      LookupAllAt(st, now, p, cs[..|cs| - 1], i);
    }
  }

  lemma EntriesAnswer(u: Usage, st: Store, now: int, cache: Cache, p: Bytes, cs: seq<Bytes>)
    requires Safe(u) && CacheOk(u, st, now, cache) && PlainKept(u, st) && AllCached(cache, p, cs)
    requires forall i | 0 <= i < |cs| :: Key(p, cs[i]) in u.keys && Key(p, cs[i]) in u.getKeys
    ensures FromCache(cache, p, cs) == LookupAll(st, now, p, cs)
  {
    forall i | 0 <= i < |cs|
      ensures FromCache(cache, p, cs)[i] == LookupAll(st, now, p, cs)[i]
    {
      EntryAnswers(u, st, now, cache, Key(p, cs[i]));
      LookupAllAt(st, now, p, cs, i);
    }
  }

  /* ---------- one step ---------- */

  predicate IsRead(op: Op) {
    op.Get? || op.GetBatch? || op.TTLGet?
  }

  /** The cached answer is the storage's; when the storage fails to read, the cache may still answer, and
      then as the storage would have. */
  predicate SameAnswer(st: Store, now: int, op: Op, f: Fault, answer: Output) {
    || answer == StorageStep(st, now, op, f).1
    || (IsRead(op) && !f.NoFault? && answer == StorageStep(st, now, op, NoFault).1)
  }

  lemma GetStepAgrees(u: Usage, s: State, op: Op, f: Fault)
    requires Inv(u, s) && Uses(u, op) && IsRead(op)
    ensures var (s', answer) := Step(s, op, f);
      Inv(u, s') && s'.store == s.store && s'.now == s.now && SameAnswer(s.store, s.now, op, f, answer)
  {
    match op
    case Get(k) =>
      if MakeKey(k) in s.cache {
        EntryAnswers(u, s.store, s.now, s.cache, k);
      } else {
        RememberOk(u, s.store, s.now, s.cache, k, Lookup(s.store, s.now, k));
      }
    case GetBatch(p, cs) =>
      if AllCached(s.cache, p, cs) {
        EntriesAnswer(u, s.store, s.now, s.cache, p, cs);
      } else {
        RememberAllOk(u, s.store, s.now, s.cache, p, cs);
      }
    case TTLGet(k) =>
      if MakeKey(k) in s.cache {
        assert EntryOk(s.store, s.now, k, s.cache[MakeKey(k)]);
        if s.cache[MakeKey(k)] != [] {
          EntryReadsBack(s.store[k]);
        }
      } else if Lookup(s.store, s.now, k).None? {
        RememberOk(u, s.store, s.now, s.cache, k, None);
      }
  }

  lemma WriteStepAgrees(u: Usage, s: State, op: Op, f: Fault)
    requires Inv(u, s) && Uses(u, op) && Fits(op, s.now) && !IsRead(op) && CallsStorage(op) && (f.Unacked? ==> u.unacked)
    ensures var (s', answer) := Step(s, op, f);
      Inv(u, s') && (s'.store, answer) == StorageStep(s.store, s.now, op, f) && s'.now == s.now
  {
    match op
    case Put(k, v) => WriteOk(u, s.store, s.now, s.cache, k, v, 0);
    case PutBatch(items) => BatchOk(u, s.store, s.now, s.cache, items);
    case InsertIfNotExists(k, v, ttl) => WriteOk(u, s.store, s.now, s.cache, k, v, ExpireAt(s.now, ttl));
    case CompareAndSwap(k, _, v, ttl) => WriteOk(u, s.store, s.now, s.cache, k, v, ExpireAt(s.now, ttl));
    case CompareAndDelete(k, _) => DeleteOk(u, s.store, s.now, s.cache, k);
  }

  lemma StepAgrees(u: Usage, s: State, op: Op, f: Fault)
    requires Inv(u, s) && Uses(u, op) && Fits(op, s.now) && (f.Unacked? ==> u.unacked)
    ensures
      var (s', answer) := Step(s, op, f);
      && Inv(u, s') && s'.store == StorageStep(s.store, s.now, op, f).0
      && SameAnswer(s.store, s.now, op, f, answer)
      && s'.now == if op.Advance? then op.to else s.now
  {
    if IsRead(op) {
      GetStepAgrees(u, s, op, f);
      hide Inv;
    } else if CallsStorage(op) {
      WriteStepAgrees(u, s, op, f);
      hide Inv, Uses;
    } else {
      var s' := Step(s, op, f).0;
      forall k | k in u.keys && MakeKey(k) in s'.cache
        ensures EntryOk(s'.store, s'.now, k, s'.cache[MakeKey(k)])
      {
        assert EntryOk(s.store, s.now, k, s.cache[MakeKey(k)]);
      }
    }
  }

  /* ---------- histories ---------- */

  datatype Call = Call(op: Op, fault: Fault)

  function NowAfter(now: int, op: Op): int {
    if op.Advance? then op.to else now
  }

  /** The clock does not go back and expiration times fit. */
  predicate Runs(now: int, run: seq<Call>)
    decreases |run|
  {
    run == [] || (Fits(run[0].op, now) && Runs(NowAfter(now, run[0].op), run[1..]))
  }

  /** The answers with the cache, and without it. */
  function Cached(s: State, run: seq<Call>): (r: seq<Output>)
    requires Runs(s.now, run)
    ensures |r| == |run|
    decreases |run|
  {
    if run == [] then []
    else
      var (s', answer) := Step(s, run[0].op, run[0].fault);
      assert s'.now == NowAfter(s.now, run[0].op);
      [answer] + Cached(s', run[1..])
  }

  function Uncached(st: Store, now: int, run: seq<Call>): (r: seq<Output>)
    ensures |r| == |run|
    decreases |run|
  {
    if run == [] then []
    else
      var (st', answer) := StorageStep(st, now, run[0].op, run[0].fault);
      [answer] + Uncached(st', NowAfter(now, run[0].op), run[1..])
  }

  ghost predicate Allowed(u: Usage, run: seq<Call>) {
    forall call | call in run :: Uses(u, call.op) && (call.fault.Unacked? ==> u.unacked)
  }

  lemma {:induction false} RunAgrees(u: Usage, s: State, run: seq<Call>)
    requires Inv(u, s) && Runs(s.now, run) && Allowed(u, run)
    ensures forall i | 0 <= i < |run| ::
      Cached(s, run)[i] == Uncached(s.store, s.now, run)[i] || (IsRead(run[i].op) && !run[i].fault.NoFault?)
    decreases |run|
  {
    if run != [] {
      assert run[0] in run;
      StepAgrees(u, s, run[0].op, run[0].fault);
      var (s', answer) := Step(s, run[0].op, run[0].fault);
      assert forall call | call in run[1..] :: call in run;
      RunAgrees(u, s', run[1..]);
      forall i | 0 <= i < |run|
        ensures Cached(s, run)[i] == Uncached(s.store, s.now, run)[i] || (IsRead(run[i].op) && !run[i].fault.NoFault?)
      {
        if i > 0 {
          assert run[1..][i - 1] == run[i];
          assert Cached(s, run)[i] == Cached(s', run[1..])[i - 1];
          assert Uncached(s.store, s.now, run)[i] == Uncached(s'.store, s'.now, run[1..])[i - 1];
        }
      }
    }
  }

  /** From an empty cache every history on such keys, with evictions anywhere, gives call by call the
      answers of the storage without a cache, except that a read that the storage fails may still be
      answered from the cache. */
  lemma CacheIsInvisible(u: Usage, st: Store, now: int, run: seq<Call>)
    requires Safe(u) && PlainKept(u, st) && Runs(now, run) && Allowed(u, run)
    ensures forall i | 0 <= i < |run| ::
      Cached(State(now, st, map[]), run)[i] == Uncached(st, now, run)[i] || (IsRead(run[i].op) && !run[i].fault.NoFault?)
  {
    RunAgrees(u, State(now, st, map[]), run);
  }

  /* ---------- how long a record is found ---------- */

  /** A write of a record with a time to live, for a key that has none or holds another value. */
  predicate WritesFor(op: Op, k: Key, value: Bytes, ttl: int) {
    op == InsertIfNotExists(k, value, ttl) || (op.CompareAndSwap? && op == CompareAndSwap(k, op.oldValue, value, ttl))
  }

  /** A record that was written is found, by the cache and by the storage alone, exactly until its seconds have
      passed, counted from the last whole millisecond before the write; for ever if it has none. */
  lemma TtlRecordIsFoundUntil(s: State, op: Op, k: Key, value: Bytes, ttl: int, later: int, f: Fault)
    requires WritesFor(op, k, value, ttl) && Fits(op, s.now) && 0 <= s.now <= later
    requires Step(s, op, NoFault).1 == Answer(true) && FitsChunk(MakeKey(k), Entry(value, ExpireAt(s.now, ttl)))
    ensures
      var written := Step(s, op, NoFault).0;
      var found := if ttl <= 0 || later < s.now - s.now % 1_000_000 + ttl * 1_000_000_000 then Some(value) else None;
      && Step(written.(now := later), TTLGet(k), f).1 == Found(found)
      && StorageStep(written.store, later, TTLGet(k), NoFault).1 == Found(found)
  {
    var at := ExpireAt(s.now, ttl);
    EntryReadsBack(Record(value, at));
    ExpiresAfter(s.now, ttl, later);
    hide ToBytes, ReadWithExpiration, ExpireAt, IsExpired, IsInt64;
  }

  lemma ExpiresAfter(now: int, ttl: int, later: int)
    requires now >= 0
    ensures forall data ::
      IsExpired(Record(data, ExpireAt(now, ttl)), later) <==> !(ttl <= 0 || later < now - now % 1_000_000 + ttl * 1_000_000_000)
  {
    if ttl > 0 {
      assert ExpireAt(now, ttl) == now / 1_000_000 + ttl * 1000;
      assert now - now % 1_000_000 == now / 1_000_000 * 1_000_000;
    }
  }

  /** A read with expiration drops what has expired: after it found nothing, and the storage has nothing either,
      a Get does not find the record any more. */
  lemma ExpiredEntryIsDropped(s: State, k: Key)
    requires Lookup(s.store, s.now, k) == None && Step(s, TTLGet(k), NoFault).1 == Found(None)
    ensures Step(Step(s, TTLGet(k), NoFault).0, Get(k), NoFault).1 == Found(None)
  {
    hide ToBytes, ReadWithExpiration, IsExpired, MakeKey, Live;
  }

  /* ---------- what conditional writes answer ---------- */

  function ReadOf(st: Store, now: int, k: Key): Option<Bytes> {
    var answer := StorageStep(st, now, TTLGet(k), NoFault).1;
    if answer.Found? then answer.record else None
  }

  /** A conditional write is done exactly if a read at the same time finds no record, or the expected one; then a
      read finds what was written, or nothing after a removal.  Otherwise, and for other keys, all stays. */
  lemma ConditionalWritesDecideByReads(st: Store, now: int, op: Op, k: Key, l: Key)
    requires (op.InsertIfNotExists? || op.CompareAndSwap? || op.CompareAndDelete?) && op.key == k && l != k
    ensures
      var (st', answer) := StorageStep(st, now, op, NoFault);
      var done := if op.InsertIfNotExists? then ReadOf(st, now, k) == None
                  else if op.CompareAndSwap? then ReadOf(st, now, k) == Some(op.oldValue)
                  else ReadOf(st, now, k) == Some(op.expected);
      && answer == Answer(done)
      && (done ==>
            ReadOf(st', now, k) == if op.CompareAndDelete? then None else Some(if op.CompareAndSwap? then op.newValue else op.value))
      && (!done ==> st' == st)
      && ReadOf(st', now, l) == ReadOf(st, now, l)
  {
    if !op.CompareAndDelete? {
      LivesOn(now, op.ttlSeconds);
    }
    hide ExpireAt;
  }

  lemma LivesOn(now: int, ttl: int)
    ensures forall data :: !IsExpired(Record(data, ExpireAt(now, ttl)), now)
  {
  }

  /* ---------- what a batch leaves in the cache ---------- */

  /** The cache has these answers for the keys, and nothing else. */
  ghost predicate Remembers(cache: Cache, p: Bytes, cs: seq<Bytes>, found: seq<Option<Bytes>>) {
    && |found| == |cs|
    && (forall i | 0 <= i < |cs| :: MakeKey(Key(p, cs[i])) in cache && FromEntry(cache[MakeKey(Key(p, cs[i]))]) == found[i])
    && (forall ck | ck in cache :: exists i :: 0 <= i < |cs| && ck == MakeKey(Key(p, cs[i])))
  }

  predicate BatchFits(st: Store, now: int, p: Bytes, cs: seq<Bytes>) {
    forall i | 0 <= i < |cs| ::
      FitsChunk(MakeKey(Key(p, cs[i])), match Lookup(st, now, Key(p, cs[i])) case Some(data) => Entry(data, 0) case None => [])
  }

  lemma SameColumn(p: Bytes, a: Bytes, b: Bytes)
    requires MakeKey(Key(p, a)) == MakeKey(Key(p, b))
    ensures a == b
  {
    assert (p + a)[|p|..] == a && (p + b)[|p|..] == b;
  }

  /** The entry of one key after it was looked up; an entry that says no is kept. */
  lemma RememberedEntry(cache: Cache, ck: Bytes, one: Option<Bytes>)
    requires FitsChunk(ck, match one case Some(data) => Entry(data, 0) case None => [])
    requires ck in cache ==> FromEntry(cache[ck]) == one
    ensures var after := Remembered(cache, ck, one);
      && after.Keys == cache.Keys + {ck} && FromEntry(after[ck]) == one
      && forall k | k in cache && k != ck :: after[k] == cache[k]
  {
    EntryReadsBack(Record(if one.Some? then one.value else [], 0));
    hide ToBytes, ReadWithExpiration;
  }

  lemma FoundIs(st: Store, now: int, p: Bytes, cs: seq<Bytes>, cache: Cache, c: Bytes)
    requires Remembers(cache, p, cs, LookupAll(st, now, p, cs)) && MakeKey(Key(p, c)) in cache
    ensures FromEntry(cache[MakeKey(Key(p, c))]) == Lookup(st, now, Key(p, c))
  {
    hide MakeKey, Lookup, LookupAll, FromEntry;
    var i :| 0 <= i < |cs| && MakeKey(Key(p, c)) == MakeKey(Key(p, cs[i]));
    SameColumn(p, cs[i], c);
    LookupAllAt(st, now, p, cs, i);
  }

  lemma RememberOne(cache: Cache, st: Store, now: int, p: Bytes, cs: seq<Bytes>, c: Bytes)
    requires Remembers(cache, p, cs, LookupAll(st, now, p, cs)) && BatchFits(st, now, p, cs + [c])
    ensures
      var one := Lookup(st, now, Key(p, c));
      Remembers(Remembered(cache, MakeKey(Key(p, c)), one), p, cs + [c], LookupAll(st, now, p, cs) + [one])
  {
    hide MakeKey, Lookup, FitsChunk, ToBytes, LookupAll, FromEntry, Remembered;
    var one := Lookup(st, now, Key(p, c));
    var ck := MakeKey(Key(p, c));
    var more := cs + [c];
    assert more[|cs|] == c;
    if ck in cache {
      FoundIs(st, now, p, cs, cache, c);
    }
    RememberedEntry(cache, ck, one);
    var after := Remembered(cache, ck, one);
    forall i | 0 <= i < |more|
      ensures MakeKey(Key(p, more[i])) in after && FromEntry(after[MakeKey(Key(p, more[i]))]) == (LookupAll(st, now, p, cs) + [one])[i]
    {
      if i < |cs| && MakeKey(Key(p, cs[i])) == ck {
        SameColumn(p, cs[i], c);
        LookupAllAt(st, now, p, cs, i);
      }
    }
    forall k | k in after
      ensures exists i :: 0 <= i < |more| && k == MakeKey(Key(p, more[i]))
    {
      if k == ck {
        assert k == MakeKey(Key(p, more[|cs|]));
      } else {
        var i :| 0 <= i < |cs| && k == MakeKey(Key(p, cs[i]));
        assert more[i] == cs[i];
      }
    }
  }

  lemma RememberedUnfold(st: Store, now: int, p: Bytes, cs: seq<Bytes>)
    requires cs != []
    ensures var n := |cs| - 1;
      var one := Lookup(st, now, Key(p, cs[n]));
      && LookupAll(st, now, p, cs) == LookupAll(st, now, p, cs[..n]) + [one]
      && RememberedAll(map[], p, cs, LookupAll(st, now, p, cs))
         == Remembered(RememberedAll(map[], p, cs[..n], LookupAll(st, now, p, cs[..n])), MakeKey(Key(p, cs[n])), one)
  {
    var n := |cs| - 1;
    assert LookupAll(st, now, p, cs)[..n] == LookupAll(st, now, p, cs[..n]);
    hide Remembered, Lookup, MakeKey;
  }

  lemma NothingRemembered(st: Store, now: int, p: Bytes)
    ensures Remembers(RememberedAll(map[], p, [], []), p, [], LookupAll(st, now, p, []))
  {
  }

  lemma FewerFit(st: Store, now: int, p: Bytes, cs: seq<Bytes>, n: nat)
    requires BatchFits(st, now, p, cs) && n <= |cs|
    ensures BatchFits(st, now, p, cs[..n])
  {
    hide Lookup, FitsChunk;
  }

  lemma {:induction false} AllRemembered(st: Store, now: int, p: Bytes, cs: seq<Bytes>)
    requires BatchFits(st, now, p, cs)
    ensures var found := LookupAll(st, now, p, cs); Remembers(RememberedAll(map[], p, cs, found), p, cs, found)
  {
    hide *;
    if cs == [] {
      NothingRemembered(st, now, p);
    } else {
      var n := |cs| - 1;
      FewerFit(st, now, p, cs, n);
      AllRemembered(st, now, p, cs[..n]);
      assert cs[..n] + [cs[n]] == cs;
      RememberedUnfold(st, now, p, cs);
      RememberOne(RememberedAll(map[], p, cs[..n], LookupAll(st, now, p, cs[..n])), st, now, p, cs[..n], cs[n]);
    }
  }

  /** After a batch was read, the cache answers the same batch, and each of its keys, without the storage. */
  lemma BatchIsRemembered(st: Store, now: int, p: Bytes, cs: seq<Bytes>, f: Fault, i: nat)
    requires BatchFits(st, now, p, cs) && i < |cs|
    ensures
      var (s, answer) := Step(State(now, st, map[]), GetBatch(p, cs), NoFault);
      && answer == FoundAll(LookupAll(st, now, p, cs))
      && Step(s, GetBatch(p, cs), f) == (s, answer)
      && Step(s, Get(Key(p, cs[i])), f) == (s, Found(answer.records[i]))
  {
    var cache := RememberedAll(map[], p, cs, LookupAll(st, now, p, cs));
    hide MakeKey, Lookup, LookupAll, FromEntry, RememberedAll, Remembers, BatchFits, Step;
    var s := State(now, st, cache);
    ReadSteps(State(now, st, map[]), p, cs, cs[i], NoFault);
    ReadSteps(s, p, cs, cs[i], f);
    AllRemembered(st, now, p, cs);
    RememberedAnswers(cache, p, cs, LookupAll(st, now, p, cs));
    NotCached(p, cs, i);
  }

  lemma RememberedAnswers(cache: Cache, p: Bytes, cs: seq<Bytes>, found: seq<Option<Bytes>>)
    requires Remembers(cache, p, cs, found)
    ensures AllCached(cache, p, cs) && FromCache(cache, p, cs) == found
  {
    hide MakeKey, FromEntry;
  }

  lemma ReadSteps(s: State, p: Bytes, cs: seq<Bytes>, c: Bytes, f: Fault)
    ensures Step(s, GetBatch(p, cs), f) == GetBatchStep(s, p, cs, f)
    ensures Step(s, Get(Key(p, c)), f) == GetStep(s, Key(p, c), f)
  {
    hide GetBatchStep, GetStep;
  }

  lemma NotCached(p: Bytes, cs: seq<Bytes>, i: nat)
    requires i < |cs|
    ensures !AllCached(map[], p, cs)
  {
    var empty: Cache := map[];
    assert MakeKey(Key(p, cs[i])) !in empty;
    hide MakeKey;
  }

  /* ---------- the conditions are needed ---------- */

  /** The first call of a run, with and without the cache. */
  lemma FirstCall(s: State, st: Store, call: Call, rest: seq<Call>)
    requires Fits(call.op, s.now) && Runs(NowAfter(s.now, call.op), rest)
    ensures Runs(s.now, [call] + rest)
    ensures var (s', answer) := Step(s, call.op, call.fault);
      s'.now == NowAfter(s.now, call.op) && Cached(s, [call] + rest) == [answer] + Cached(s', rest)
    ensures var (st', answer) := StorageStep(st, s.now, call.op, call.fault);
      Uncached(st, s.now, [call] + rest) == [answer] + Uncached(st', NowAfter(s.now, call.op), rest)
  {
    assert ([call] + rest)[1..] == rest;
  }

  lemma LastCall(s: State, st: Store, c: Call)
    requires Fits(c.op, s.now)
    ensures Runs(s.now, [c])
    ensures Cached(s, [c]) == [Step(s, c.op, c.fault).1] && Uncached(st, s.now, [c]) == [StorageStep(st, s.now, c.op, c.fault).1]
  {
    hide Step, StorageStep, Fits;
    assert [c][1..] == [];
  }

  lemma TwoCalls(s: State, st: Store, b: Call, c: Call)
    requires Fits(b.op, s.now) && Fits(c.op, NowAfter(s.now, b.op))
    ensures Runs(s.now, [b, c])
    ensures
      var (s', o) := Step(s, b.op, b.fault);
      s'.now == NowAfter(s.now, b.op) && Cached(s, [b, c]) == [o, Step(s', c.op, c.fault).1]
    ensures
      var (st', o) := StorageStep(st, s.now, b.op, b.fault);
      Uncached(st, s.now, [b, c]) == [o, StorageStep(st', NowAfter(s.now, b.op), c.op, c.fault).1]
  {
    hide *;
    FirstCallIs(s, b);
    var s' := Step(s, b.op, b.fault).0;
    var st' := StorageStep(st, s.now, b.op, b.fault).0;
    LastCall(s', st', c);
    FirstCall(s, st, b, [c]);
    assert [b] + [c] == [b, c];
  }

  lemma FirstCallIs(s: State, a: Call)
    requires Fits(a.op, s.now)
    ensures Step(s, a.op, a.fault).0.now == NowAfter(s.now, a.op)
  {
  }

  /** Three calls from an empty storage. */
  lemma ThreeCalls(now: int, a: Call, b: Call, c: Call)
    requires Fits(a.op, now) && Fits(b.op, NowAfter(now, a.op)) && Fits(c.op, NowAfter(NowAfter(now, a.op), b.op))
    ensures Runs(now, [a, b, c])
    ensures
      var (s1, o1) := Step(State(now, map[], map[]), a.op, a.fault);
      s1.now == NowAfter(now, a.op)
      && var (s2, o2) := Step(s1, b.op, b.fault);
      s2.now == NowAfter(s1.now, b.op)
      && Cached(State(now, map[], map[]), [a, b, c]) == [o1, o2, Step(s2, c.op, c.fault).1]
    ensures
      var (st1, o1) := StorageStep(map[], now, a.op, a.fault);
      var (st2, o2) := StorageStep(st1, NowAfter(now, a.op), b.op, b.fault);
      Uncached(map[], now, [a, b, c]) == [o1, o2, StorageStep(st2, NowAfter(NowAfter(now, a.op), b.op), c.op, c.fault).1]
  {
    hide *;
    var s := State(now, map[], map[]);
    FirstCallIs(s, a);
    var s1 := Step(s, a.op, a.fault).0;
    var st1 := StorageStep(map[], now, a.op, a.fault).0;
    FirstCallIs(s1, b);
    TwoCalls(s1, st1, b, c);
    FirstCall(s, map[], a, [b, c]);
    assert [a] + [b, c] == [a, b, c];
  }

  /** The reads of a single key. */
  predicate Reads(op: Op, k: Key) {
    op == Get(k) || op == TTLGet(k)
  }

  /** Two keys with the same concatenation: what is put under one is read under the other. */
  lemma CollidingKeysMixUp(k: Key, l: Key, value: Bytes, now: int, read: Op)
    requires k != l && MakeKey(k) == MakeKey(l) && FitsChunk(MakeKey(k), Entry(value, 0)) && Reads(read, l)
    ensures
      var run := [Call(Put(k, value), NoFault), Call(read, NoFault), Call(read, NoFault)];
      && Runs(now, run)
      && Cached(State(now, map[], map[]), run) == [Done, Found(Some(value)), Found(Some(value))]
      && Uncached(map[], now, run) == [Done, Found(None), Found(None)]
  {
    EntryReadsBack(Record(value, 0));
    hide ToBytes, ReadWithExpiration, Cached, Uncached;
    ThreeCalls(now, Call(Put(k, value), NoFault), Call(read, NoFault), Call(read, NoFault));
  }

  /** A value that does not fit the cache: while the cache says that there is no record, it is not found. */
  lemma BigWriteIsNotSeen(k: Key, value: Bytes, now: int, read: Op)
    requires Cacheable(k) && !FitsChunk(MakeKey(k), Entry(value, 0)) && Reads(read, k)
    ensures
      var run := [Call(read, NoFault), Call(Put(k, value), NoFault), Call(read, NoFault)];
      && Runs(now, run)
      && Cached(State(now, map[], map[]), run) == [Found(None), Done, Found(None)]
      && Uncached(map[], now, run) == [Found(None), Done, Found(Some(value))]
  {
    hide Entry, Cached, Uncached;
    ThreeCalls(now, Call(read, NoFault), Call(Put(k, value), NoFault), Call(read, NoFault));
  }

  /** And while the cache holds a smaller value, that one is read. */
  lemma BigWriteLeavesOldValue(k: Key, small: Bytes, value: Bytes, now: int, read: Op)
    requires FitsChunk(MakeKey(k), Entry(small, 0)) && !FitsChunk(MakeKey(k), Entry(value, 0)) && Reads(read, k)
    ensures
      var run := [Call(Put(k, small), NoFault), Call(Put(k, value), NoFault), Call(read, NoFault)];
      && Runs(now, run)
      && Cached(State(now, map[], map[]), run) == [Done, Done, Found(Some(small))]
      && Uncached(map[], now, run) == [Done, Done, Found(Some(value))]
  {
    EntryReadsBack(Record(small, 0));
    hide ToBytes, ReadWithExpiration, Cached, Uncached;
    ThreeCalls(now, Call(Put(k, small), NoFault), Call(Put(k, value), NoFault), Call(read, NoFault));
  }

  /** Get does not look at the expiration time: an expired record is still read with it. */
  lemma GetReadsExpiredRecord(k: Key, value: Bytes, ttl: int, now: int, later: int)
    requires ttl > 0 && IsInt64(ExpireAt(now, ttl)) && ExpireAt(now, ttl) > 0
    requires later >= now && later >= ExpireAt(now, ttl) * MILLISECOND
    requires FitsChunk(MakeKey(k), Entry(value, ExpireAt(now, ttl)))
    ensures
      var run := [Call(InsertIfNotExists(k, value, ttl), NoFault), Call(Advance(later), NoFault), Call(Get(k), NoFault)];
      && Runs(now, run)
      && Cached(State(now, map[], map[]), run) == [Answer(true), Done, Found(Some(value))]
      && Uncached(map[], now, run) == [Answer(true), Done, Found(None)]
  {
    EntryReadsBack(Record(value, ExpireAt(now, ttl)));
    hide ExpireAt, ToBytes, ReadWithExpiration, Cached, Uncached;
    ThreeCalls(now, Call(InsertIfNotExists(k, value, ttl), NoFault), Call(Advance(later), NoFault), Call(Get(k), NoFault));
  }

  /** A write that took effect but failed leaves what the cache says, here that there is no record. */
  lemma UnackedWriteIsNotSeen(k: Key, value: Bytes, now: int, read: Op)
    requires Cacheable(k) && Reads(read, k)
    ensures
      var run := [Call(read, NoFault), Call(Put(k, value), Unacked), Call(read, NoFault)];
      && Runs(now, run)
      && Cached(State(now, map[], map[]), run) == [Found(None), Failed, Found(None)]
      && Uncached(map[], now, run) == [Found(None), Failed, Found(Some(value))]
  {
    hide Entry, Cached, Uncached;
    ThreeCalls(now, Call(read, NoFault), Call(Put(k, value), Unacked), Call(read, NoFault));
  }

  /* ---------- the exact condition ---------- */

  ghost predicate ReadsAnswered(run: seq<Call>) {
    forall call | call in run :: IsRead(call.op) ==> call.fault.NoFault?
  }

  /** Every history of this usage in which the storage answers the reads. */
  ghost predicate Invisible(u: Usage) {
    forall now, run | Runs(now, run) && Allowed(u, run) && ReadsAnswered(run) ::
      Cached(State(now, map[], map[]), run) == Uncached(map[], now, run)
  }

  lemma SafeIsInvisible(u: Usage)
    requires Safe(u)
    ensures Invisible(u)
  {
    forall now, run | Runs(now, run) && Allowed(u, run) && ReadsAnswered(run)
      ensures Cached(State(now, map[], map[]), run) == Uncached(map[], now, run)
    {
      CacheIsInvisible(u, map[], now, run);
      assert forall i | 0 <= i < |run| :: run[i] in run;
    }
  }

  lemma Visible(u: Usage, now: int, a: Call, b: Call, c: Call)
    requires Runs(now, [a, b, c]) && Allowed(u, [a, b, c]) && ReadsAnswered([a, b, c])
    requires Cached(State(now, map[], map[]), [a, b, c]) != Uncached(map[], now, [a, b, c])
    ensures !Invisible(u)
  {
    hide Runs, Allowed, ReadsAnswered, Cached, Uncached;
  }

  lemma BigWritesAreVisible(u: Usage, k: Key)
    requires k in u.keys && Cacheable(k) && KV_LEN_SIZE + |MakeKey(k)| + UINT64_SIZE + u.maxData >= CHUNK_SIZE
    ensures !Invisible(u)
  {
    hide Runs, Cached, Uncached, Invisible;
    var get := Call(TTLGet(k), NoFault);
    var big: Bytes := seq(u.maxData, _ => 0);
    EntryLength(big, 0);
    BigWriteIsNotSeen(k, big, 0, get.op);
    Visible(u, 0, get, Call(Put(k, big), NoFault), get);
  }

  lemma ExpiredReadsAreVisible(u: Usage, k: Key)
    requires k in u.keys && k in u.ttlKeys && k in u.getKeys && KV_LEN_SIZE + |MakeKey(k)| + UINT64_SIZE < CHUNK_SIZE
    ensures !Invisible(u)
  {
    hide Runs, Cached, Uncached, Invisible;
    EntryLength([], ExpireAt(0, 1));
    GetReadsExpiredRecord(k, [], 1, 0, SECOND);
    Visible(u, 0, Call(InsertIfNotExists(k, [], 1), NoFault), Call(Advance(SECOND), NoFault), Call(Get(k), NoFault));
  }

  lemma UnackedWritesAreVisible(u: Usage, k: Key)
    requires k in u.keys && Cacheable(k) && u.unacked
    ensures !Invisible(u)
  {
    hide Runs, Cached, Uncached, Invisible;
    var get := Call(TTLGet(k), NoFault);
    UnackedWriteIsNotSeen(k, [], 0, get.op);
    Visible(u, 0, get, Call(Put(k, []), Unacked), get);
  }

  lemma CollisionsAreVisible(u: Usage, k: Key, l: Key)
    requires k in u.keys && l in u.keys && l != k && MakeKey(l) == MakeKey(k)
    requires KV_LEN_SIZE + |MakeKey(k)| + UINT64_SIZE < CHUNK_SIZE
    ensures !Invisible(u)
  {
    hide Runs, Cached, Uncached, Invisible;
    var get := Call(TTLGet(k), NoFault);
    EntryLength([], 0);
    CollidingKeysMixUp(l, k, [], 0, get.op);
    Visible(u, 0, Call(Put(l, []), NoFault), get, get);
  }

  lemma UnsafeKeyIsVisible(u: Usage, k: Key)
    requires k in u.keys && !SafeKey(u, k)
    ensures !Invisible(u)
  {
    hide Invisible;
    if KV_LEN_SIZE + |MakeKey(k)| + UINT64_SIZE + u.maxData >= CHUNK_SIZE {
      BigWritesAreVisible(u, k);
    } else if k in u.ttlKeys && k in u.getKeys {
      ExpiredReadsAreVisible(u, k);
    } else if u.unacked {
      UnackedWritesAreVisible(u, k);
    } else {
      var l :| l in u.keys && l != k && MakeKey(l) == MakeKey(k);
      CollisionsAreVisible(u, k, l);
    }
  }

  /** The cache is invisible for all histories of a usage exactly if every key of it is safe: concatenation
      tells the keys apart, what is written fits the cache, Get reads no time-to-live key and writes are
      acknowledged, or the key itself is too long to be cached. */
  lemma InvisibleExactlyIfSafe(u: Usage)
    ensures Invisible(u) <==> Safe(u)
  {
    if Safe(u) {
      SafeIsInvisible(u);
    } else {
      var k :| k in u.keys && !SafeKey(u, k);
      UnsafeKeyIsVisible(u, k);
    }
  }
}
