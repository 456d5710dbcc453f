/** The storage cache of pkg/istoragecache over an application storage with time-to-live.

    The cache maps the concatenated key to eight bytes of expiration time and the data; an empty entry
    says that there is no record.  Any entry may be evicted at any time.  An entry of 64 KiB or more is not
    stored, and what was stored under its key stays.  A call sees one clock reading, in nanoseconds. */
module StorageCache {
  import opened Options
  import opened Bytes

  const MILLISECOND := 1_000_000
  const SECOND := 1_000_000_000
  const UINT64_SIZE := 8

  /** fastcache keeps key, value and the four bytes of their lengths in one chunk. */
  const CHUNK_SIZE := 0x1_0000
  const KV_LEN_SIZE := 4

  datatype Key = Key(pKey: Bytes, cCols: Bytes)

  /** istorage.DataWithExpiration; expireAt is in milliseconds, 0 for a record that stays. */
  datatype Record = Record(data: Bytes, expireAt: int)

  type Store = map<Key, Record>
  type Cache = map<Bytes, Bytes>

  /** How a storage call ends: well, with an error and no effect, with an error after its effect. */
  datatype Fault = NoFault | Lost | Unacked

  datatype Op =
    | Put(key: Key, value: Bytes)
    | PutBatch(items: seq<(Key, Bytes)>)
    | Get(key: Key)
    | GetBatch(pKey: Bytes, cCols: seq<Bytes>)
    | TTLGet(key: Key)
    | InsertIfNotExists(key: Key, value: Bytes, ttlSeconds: int)
    | CompareAndSwap(key: Key, oldValue: Bytes, newValue: Bytes, ttlSeconds: int)
    | CompareAndDelete(key: Key, expected: Bytes)
    | Evict(entry: Bytes)
    | Advance(to: int)

  datatype Output = Failed | Done | Answer(ok: bool) | Found(record: Option<Bytes>) | FoundAll(records: seq<Option<Bytes>>)

  /* ---------- entries ---------- */

  function ToBytes(r: Record): Bytes
    requires IsInt64(r.expireAt)
  {
    BigEndian(ToUint64(r.expireAt), UINT64_SIZE) + r.data
  }

  function ReadWithExpiration(bs: Bytes): Record
    requires |bs| >= UINT64_SIZE
  {
    Record(bs[UINT64_SIZE..], FromUint64(FromBigEndian(bs[..UINT64_SIZE])))
  }

  predicate IsExpired(r: Record, now: int) {
    r.expireAt > 0 && now >= r.expireAt * MILLISECOND
  }

  lemma EntryReadsBack(r: Record)
    requires IsInt64(r.expireAt)
    ensures |ToBytes(r)| >= UINT64_SIZE && ReadWithExpiration(ToBytes(r)) == r && ToBytes(r)[UINT64_SIZE..] == r.data
  {
    Pow256Values();
    BigEndianReadsBack(ToUint64(r.expireAt), UINT64_SIZE);
    assert ToBytes(r)[..UINT64_SIZE] == BigEndian(ToUint64(r.expireAt), UINT64_SIZE);
  }

  function MakeKey(k: Key): Bytes {
    k.pKey + k.cCols
  }

  function ExpireAt(now: int, ttlSeconds: int): int {
    if ttlSeconds > 0 then (now + ttlSeconds * SECOND) / MILLISECOND else 0
  }

  /* ---------- the storage without a cache ---------- */

  predicate Live(st: Store, now: int, k: Key) {
    k in st && !IsExpired(st[k], now)
  }

  function Lookup(st: Store, now: int, k: Key): Option<Bytes> {
    if Live(st, now, k) then Some(st[k].data) else None
  }

  function Stored(st: Store, items: seq<(Key, Bytes)>): Store {
    if items == [] then st
    else Stored(st, items[..|items| - 1])[items[|items| - 1].0 := Record(items[|items| - 1].1, 0)]
  }

  function LookupAll(st: Store, now: int, pKey: Bytes, cCols: seq<Bytes>): (r: seq<Option<Bytes>>)
    ensures |r| == |cCols|
  {
    if cCols == [] then [] else LookupAll(st, now, pKey, cCols[..|cCols| - 1]) + [Lookup(st, now, Key(pKey, cCols[|cCols| - 1]))]
  }

  /** What the storage does and answers when no error occurs. */
  function Effect(st: Store, now: int, op: Op): (Store, Output) {
    match op
    case Put(k, v) => (st[k := Record(v, 0)], Done)
    case PutBatch(items) => (Stored(st, items), Done)
    case Get(k) => (st, Found(Lookup(st, now, k)))
    case GetBatch(p, cs) => (st, FoundAll(LookupAll(st, now, p, cs)))
    case TTLGet(k) => (st, Found(Lookup(st, now, k)))
    case InsertIfNotExists(k, v, ttl) =>
      if Live(st, now, k) then (st, Answer(false)) else (st[k := Record(v, ExpireAt(now, ttl))], Answer(true))
    case CompareAndSwap(k, current, v, ttl) =>
      if Lookup(st, now, k) == Some(current) then (st[k := Record(v, ExpireAt(now, ttl))], Answer(true)) else (st, Answer(false))
    case CompareAndDelete(k, v) =>
      if Lookup(st, now, k) == Some(v) then (st - {k}, Answer(true)) else (st, Answer(false))
    case Evict(_) => (st, Done)
    case Advance(_) => (st, Done)
  }

  predicate CallsStorage(op: Op) {
    !op.Evict? && !op.Advance?
  }

  function StorageStep(st: Store, now: int, op: Op, f: Fault): (Store, Output) {
    if f.NoFault? || !CallsStorage(op) then Effect(st, now, op)
    else (if f.Lost? then st else Effect(st, now, op).0, Failed)
  }

  /* ---------- the cached storage ---------- */

  datatype State = State(now: int, store: Store, cache: Cache)

  /** Entries fit an int64 of milliseconds. */
  predicate Fits(op: Op, now: int) {
    match op
    case InsertIfNotExists(_, _, ttl) => IsInt64(ExpireAt(now, ttl))
    case CompareAndSwap(_, _, _, ttl) => IsInt64(ExpireAt(now, ttl))
    case Advance(to) => now <= to
    case _ => true
  }

  function Entry(data: Bytes, expireAt: int): Bytes
    requires IsInt64(expireAt)
  {
    ToBytes(Record(data, expireAt))
  }

  predicate FitsChunk(key: Bytes, entry: Bytes) {
    KV_LEN_SIZE + |key| + |entry| < CHUNK_SIZE
  }

  /** Set of the cache: an entry that does not fit is skipped. */
  function CacheSet(cache: Cache, key: Bytes, entry: Bytes): Cache {
    if FitsChunk(key, entry) then cache[key := entry] else cache
  }

  function CachedAll(cache: Cache, items: seq<(Key, Bytes)>): Cache {
    if items == [] then cache
    else CacheSet(CachedAll(cache, items[..|items| - 1]), MakeKey(items[|items| - 1].0), Entry(items[|items| - 1].1, 0))
  }

  /** What Get caches after it asked the storage: what was found, or that nothing was. */
  function Remembered(cache: Cache, ck: Bytes, found: Option<Bytes>): Cache {
    match found
    case Some(data) => CacheSet(cache, ck, Entry(data, 0))
    case None => if ck in cache then cache else CacheSet(cache, ck, [])
  }

  function RememberedAll(cache: Cache, pKey: Bytes, cCols: seq<Bytes>, found: seq<Option<Bytes>>): Cache
    requires |cCols| == |found|
  {
    if cCols == [] then cache
    else
      var n := |cCols| - 1;
      Remembered(RememberedAll(cache, pKey, cCols[..n], found[..n]), MakeKey(Key(pKey, cCols[n])), found[n])
  }

  /** The answer of a cached entry, which Get does not check for expiration. */
  function FromEntry(entry: Bytes): Option<Bytes> {
    if |entry| < UINT64_SIZE then None else Some(entry[UINT64_SIZE..])
  }

  predicate AllCached(cache: Cache, pKey: Bytes, cCols: seq<Bytes>) {
    forall i | 0 <= i < |cCols| :: MakeKey(Key(pKey, cCols[i])) in cache
  }

  function FromCache(cache: Cache, pKey: Bytes, cCols: seq<Bytes>): seq<Option<Bytes>>
    requires AllCached(cache, pKey, cCols)
  {
    seq(|cCols|, i requires 0 <= i < |cCols| => FromEntry(cache[MakeKey(Key(pKey, cCols[i]))]))
  }

  function GetStep(s: State, k: Key, f: Fault): (State, Output) {
    var ck := MakeKey(k);
    if ck in s.cache then (s, Found(FromEntry(s.cache[ck])))
    else if !f.NoFault? then (s, Failed)
    else
      var found := Lookup(s.store, s.now, k);
      (s.(cache := Remembered(s.cache, ck, found)), Found(found))
  }

  function GetBatchStep(s: State, p: Bytes, cs: seq<Bytes>, f: Fault): (State, Output) {
    if AllCached(s.cache, p, cs) then (s, FoundAll(FromCache(s.cache, p, cs)))
    else if !f.NoFault? then (s, Failed)
    else
      var found := LookupAll(s.store, s.now, p, cs);
      (s.(cache := RememberedAll(s.cache, p, cs, found)), FoundAll(found))
  }

  function TTLGetStep(s: State, k: Key, f: Fault): (State, Output) {
    var ck := MakeKey(k);
    if ck in s.cache then
      if |s.cache[ck]| < UINT64_SIZE then (s, Found(None))
      else
        var d := ReadWithExpiration(s.cache[ck]);
        if IsExpired(d, s.now) then (s.(cache := s.cache - {ck}), Found(None)) else (s, Found(Some(d.data)))
    else if !f.NoFault? then (s, Failed)
    else
      var found := Lookup(s.store, s.now, k);
      (if found.None? then s.(cache := CacheSet(s.cache, ck, [])) else s, Found(found))
  }

  /** The cache after a write that the storage acknowledged. */
  function CachedWrite(cache: Cache, now: int, op: Op, answer: Output): Cache
    requires Fits(op, now)
  {
    match op
    case Put(k, v) => CacheSet(cache, MakeKey(k), Entry(v, 0))
    case PutBatch(items) => CachedAll(cache, items)
    case InsertIfNotExists(k, v, ttl) =>
      if answer == Answer(true) then CacheSet(cache, MakeKey(k), Entry(v, ExpireAt(now, ttl))) else cache
    case CompareAndSwap(k, _, v, ttl) =>
      if answer == Answer(true) then CacheSet(cache, MakeKey(k), Entry(v, ExpireAt(now, ttl))) else cache
    case CompareAndDelete(k, _) => if answer == Answer(true) then cache - {MakeKey(k)} else cache
    case _ => cache
  }

  function Step(s: State, op: Op, f: Fault): (State, Output)
    requires Fits(op, s.now)
  {
    match op
    case Get(k) => GetStep(s, k, f)
    case GetBatch(p, cs) => GetBatchStep(s, p, cs, f)
    case TTLGet(k) => TTLGetStep(s, k, f)
    case Evict(entry) => (s.(cache := s.cache - {entry}), Done)
    case Advance(to) => (s.(now := to), Done)
    case _ =>
      var (store, answer) := StorageStep(s.store, s.now, op, f);
      (State(s.now, store, if f.NoFault? then CachedWrite(s.cache, s.now, op, answer) else s.cache), answer)
  }
}
