/** What the sequencer promises, over every run of its actors. */
module SequencerTheorems {
  import opened Sequencer

  /** Next never returns a number that an event of the PLog holds for that key, nor one that this
      transaction has got already: in every run, with crashes at any point. */
  lemma NextIsFresh(p: Params, s0: State, run: seq<Action>, seqId: nat)
    requires ValidParams(p) && Initial(s0) && ValidRun(p, s0, run)
    requires Enabled(p, After(p, s0, run), Next(seqId))
    ensures
      var s := After(p, s0, run);
      var out := Step(p, s, Next(seqId)).1;
      && (out.Issued? <==> seqId in p.seqTypes[s.txn.wsKind])
      && (out.Issued? ==>
            && out.value.key == Key(s.txn.wsid, seqId)
            && out.value !in s.txn.issued
            && forall i, j | 0 <= i < |s.plog| && 0 <= j < |s.plog[i]| ::
                 s.plog[i][j].key == out.value.key ==> s.plog[i][j].value < out.value.value)
  {
    hide Top, EventTop, MaxValues;
    InitialInv(s0);
    RunKeepsInv(p, s0, run);
    var s := After(p, s0, run);
    var out := Step(p, s, Next(seqId)).1;
    if out.Issued? {
      var k := out.value.key;
      LastCovers(s, k, p.seqTypes[s.txn.wsKind][seqId]);
      forall i, j | 0 <= i < |s.plog| && 0 <= j < |s.plog[i]| && s.plog[i][j].key == k
        ensures s.plog[i][j].value < out.value.value
      {
        TopBounds(s.plog, |s.plog|, i, j);
      }
    }
  }

  /** Offsets are dense: a successful Start returns exactly one past the last PLog event, and Start
      succeeds unless an actualization runs or too many numbers are unflushed. */
  lemma StartIsDense(p: Params, s0: State, run: seq<Action>, wsKind: nat, wsid: nat)
    requires ValidParams(p) && Initial(s0) && ValidRun(p, s0, run)
    requires Enabled(p, After(p, s0, run), Start(wsKind, wsid))
    ensures
      var s := After(p, s0, run);
      var out := Step(p, s, Start(wsKind, wsid)).1;
      if s.phase.Ready? && |s.toBeFlushed| <= p.maxUnflushed then out == Offset(|s.plog| + 1) else out == Rejected
  {
    hide Top, EventTop, MaxValues;
    InitialInv(s0);
    RunKeepsInv(p, s0, run);
  }

  lemma StoredOffsetStep(p: Params, s: State, a: Action)
    requires ValidParams(p) && Inv(s) && Enabled(p, s, a)
    ensures s.storedOffset <= Step(p, s, a).0.storedOffset
  {
    hide Sound, UnflushedInv, CacheInv, TxnInv, MaxValues;
  }

  lemma {:induction false} StoredOffsetNeverDrops(p: Params, s: State, run: seq<Action>)
    requires ValidParams(p) && Inv(s) && ValidRun(p, s, run)
    ensures s.storedOffset <= After(p, s, run).storedOffset <= |After(p, s, run).plog| + 1
    decreases |run|
  {
    hide Top, EventTop, MaxValues;
    if run != [] {
      StepKeepsInv(p, s, run[0]);
      StoredOffsetStep(p, s, run[0]);
      StoredOffsetNeverDrops(p, Step(p, s, run[0]).0, run[1..]);
    }
  }

  lemma CoveredNumber(plog: seq<Event>, numbers: map<Key, nat>, upto: int, i: nat, j: nat)
    requires Rising(plog) && upto <= |plog| && Covered(map[], numbers, plog, upto)
    requires i < upto && j < |plog[i]|
    ensures plog[i][j].key in numbers && plog[i][j].value <= numbers[plog[i][j].key]
  {
    hide Top, EventTop, MaxValues;
    var k := plog[i][j].key;
    TopBounds(plog, upto, i, j);
    assert Layered(map[], numbers, k) >= Top(plog, upto, k);
    assert plog[i][j] in plog[i];
  }

  lemma SoundCovers(plog: seq<Event>, numbers: map<Key, nat>, storedOffset: nat)
    requires Sound(plog, numbers, storedOffset)
    ensures forall i, j | 0 <= i < storedOffset - 1 && 0 <= j < |plog[i]| ::
              plog[i][j].key in numbers && plog[i][j].value <= numbers[plog[i][j].key]
  {
    hide Top, EventTop, MaxValues;
    forall i, j | 0 <= i < storedOffset - 1 && 0 <= j < |plog[i]|
      ensures plog[i][j].key in numbers && plog[i][j].value <= numbers[plog[i][j].key]
    {
      CoveredNumber(plog, numbers, storedOffset - 1, i, j);
    }
  }

  lemma ReachableIsSound(p: Params, s0: State, run: seq<Action>)
    requires ValidParams(p) && Initial(s0) && ValidRun(p, s0, run)
    ensures Sound(After(p, s0, run).plog, After(p, s0, run).numbers, After(p, s0, run).storedOffset)
  {
    hide Top, EventTop, MaxValues;
    InitialInv(s0);
    RunKeepsInv(p, s0, run);
  }

  /** Crash safety: in every reachable state, also between the batch write and the offset write,
      the stored numbers cover every event below the stored offset. */
  lemma StorageCoversLog(p: Params, s0: State, run: seq<Action>)
    requires ValidParams(p) && Initial(s0) && ValidRun(p, s0, run)
    ensures
      var s := After(p, s0, run);
      && 1 <= s.storedOffset <= |s.plog| + 1
      && forall i, j | 0 <= i < s.storedOffset - 1 && 0 <= j < |s.plog[i]| ::
           s.plog[i][j].key in s.numbers && s.plog[i][j].value <= s.numbers[s.plog[i][j].key]
  {
    ReachableIsSound(p, s0, run);
    var s := After(p, s0, run);
    SoundCovers(s.plog, s.numbers, s.storedOffset);
  }

  /* ---------- background work is invisible ---------- */

  predicate Background(a: Action) {
    a.FlusherTake? || a.FlusherWriteBatch? || a.FlusherWriteOffset? || a.FlusherRemove? || a.Evict?
  }

  lemma RemoveKeepsLayers(toBeFlushed: map<Key, nat>, numbers: map<Key, nat>, vs: map<Key, nat>, k: Key)
    requires Holds(numbers, vs)
    ensures Layered(Unwritten(toBeFlushed, vs), numbers, k) == Layered(toBeFlushed, numbers, k)
  {
    hide Top, EventTop, MaxValues;
  }

  lemma LayersDecideLast(s: State, t: State, k: Key, initial: nat)
    requires initial >= 1 && t.inproc == s.inproc && Positive(s.toBeFlushed) && Positive(t.toBeFlushed)
    requires Layered(t.toBeFlushed, t.numbers, k) == Layered(s.toBeFlushed, s.numbers, k)
    ensures LastUncached(t, k, initial) == LastUncached(s, k, initial)
  {
    hide Top, EventTop, MaxValues;
  }

  lemma BackgroundKeepsLast(p: Params, s: State, a: Action, k: Key, initial: nat)
    requires ValidParams(p) && Inv(s) && Background(a) && Enabled(p, s, a) && initial >= 1
    ensures LastUncached(Step(p, s, a).0, k, initial) == LastUncached(s, k, initial)
    ensures Step(p, s, a).0.txn == s.txn && Step(p, s, a).0.phase == s.phase
    ensures Step(p, s, a).0.nextOffset == s.nextOffset
  {
    hide Top, EventTop, MaxValues;
    var t := Step(p, s, a).0;
    StepKeepsInv(p, s, a);
    if a.FlusherWriteBatch? {
      WriteBatchCovers(s.flusher.values, s.toBeFlushed, s.numbers, s.plog, s.flusher.offset - 1);
    } else if a.FlusherRemove? {
      RemoveKeepsLayers(s.toBeFlushed, s.numbers, s.flusher.values, k);
    }
    LayersDecideLast(s, t, k, initial);
  }

  /** Whatever the flusher writes or removes and the cache evicts meanwhile, Next returns the number
      that it would have returned before. */
  lemma {:induction false} BackgroundIsInvisible(p: Params, s: State, background: seq<Action>, seqId: nat)
    requires ValidParams(p) && Inv(s) && ValidRun(p, s, background)
    requires forall a | a in background :: Background(a)
    requires Enabled(p, s, Next(seqId))
    ensures
      var t := After(p, s, background);
      Enabled(p, t, Next(seqId)) && Step(p, t, Next(seqId)).1 == Step(p, s, Next(seqId)).1
    decreases |background|
  {
    hide Top, EventTop, MaxValues;
    if background != [] {
      var a := background[0];
      var t := Step(p, s, a).0;
      StepKeepsInv(p, s, a);
      BackgroundKeepsLast(p, s, a, Key(0, 0), 1);
      var seqTypes := p.seqTypes[s.txn.wsKind];
      if seqId in seqTypes {
        var k := Key(s.txn.wsid, seqId);
        BackgroundKeepsLast(p, s, a, k, seqTypes[seqId]);
        LastCovers(s, k, seqTypes[seqId]);
        LastCovers(t, k, seqTypes[seqId]);
      }
      BackgroundIsInvisible(p, t, background[1..], seqId);
    }
  }

  /* ---------- the sequencer without a cache ---------- */

  function Uncached(s: State): State {
    s.(cache := map[])
  }

  /** The same machine with a cache that never holds anything. */
  function UncachedStep(p: Params, s: State, a: Action): (State, Output)
    requires ValidParams(p) && Enabled(p, s, a)
  {
    var r := Step(p, Uncached(s), a);
    (Uncached(r.0), r.1)
  }

  /** What the callers see of a run. */
  ghost function Outputs(p: Params, s: State, run: seq<Action>): seq<Output>
    requires ValidParams(p) && ValidRun(p, s, run)
    decreases |run|
  {
    if run == [] then []
    else
      var r := Step(p, s, run[0]);
      (if run[0].Evict? then [] else [r.1]) + Outputs(p, r.0, run[1..])
  }

  ghost predicate UncachedValidRun(p: Params, s: State, run: seq<Action>)
    requires ValidParams(p)
    decreases |run|
  {
    run == [] || (Enabled(p, s, run[0]) && UncachedValidRun(p, UncachedStep(p, s, run[0]).0, run[1..]))
  }

  ghost function UncachedOutputs(p: Params, s: State, run: seq<Action>): seq<Output>
    requires ValidParams(p) && UncachedValidRun(p, s, run)
    decreases |run|
  {
    if run == [] then []
    else
      var r := UncachedStep(p, s, run[0]);
      [r.1] + UncachedOutputs(p, r.0, run[1..])
  }

  function WithoutEvictions(run: seq<Action>): seq<Action> {
    if run == [] then []
    else if run[0].Evict? then WithoutEvictions(run[1..])
    else [run[0]] + WithoutEvictions(run[1..])
  }

  lemma UncachedNext(p: Params, s: State, seqId: nat)
    requires ValidParams(p) && Inv(s) && Enabled(p, s, Next(seqId))
    ensures
      var r, u := NextStep(p, s, seqId), NextStep(p, Uncached(s), seqId);
      u.1 == r.1 && Uncached(u.0) == Uncached(r.0)
  {
    hide Top, EventTop, MaxValues;
    var seqTypes := p.seqTypes[s.txn.wsKind];
    if seqId in seqTypes {
      var k := Key(s.txn.wsid, seqId);
      LastCovers(s, k, seqTypes[seqId]);
      assert Last(Uncached(s), k, seqTypes[seqId]) == LastUncached(s, k, seqTypes[seqId]);
    }
  }

  lemma UncachedTransaction(s: State)
    ensures Uncached(ActualizeStep(Uncached(s))) == Uncached(ActualizeStep(s))
    ensures Uncached(CrashStep(Uncached(s))) == Uncached(CrashStep(s))
    ensures s.txn.Txn? ==> Uncached(FlushStep(Uncached(s))) == Uncached(FlushStep(s))
  {
  }

  lemma UncachedStart(p: Params, s: State, wsKind: nat, wsid: nat)
    ensures StartStep(p, Uncached(s), wsKind, wsid).1 == StartStep(p, s, wsKind, wsid).1
    ensures Uncached(StartStep(p, Uncached(s), wsKind, wsid).0) == Uncached(StartStep(p, s, wsKind, wsid).0)
  {
  }

  lemma UncachedEnabled(p: Params, s: State, a: Action)
    ensures Enabled(p, Uncached(s), a) == Enabled(p, s, a)
  {
  }

  lemma UncachedCaller(p: Params, s: State, a: Action)
    requires ValidParams(p) && Enabled(p, s, a) && (a.Start? || a.Append? || a.Flush? || a.Actualize? || a.Crash?)
    ensures Enabled(p, Uncached(s), a)
    ensures Step(p, Uncached(s), a).1 == Step(p, s, a).1
    ensures Uncached(Step(p, Uncached(s), a).0) == Uncached(Step(p, s, a).0)
  {
    UncachedEnabled(p, s, a);
    UncachedTransaction(s);
    if a.Start? {
      UncachedStart(p, s, a.wsKind, a.wsid);
    }
    hide FlushStep, ActualizeStep, CrashStep, StartStep, ValidParams;
  }

  lemma UncachedFlusher(p: Params, s: State, a: Action)
    requires ValidParams(p) && Enabled(p, s, a) && (a.FlusherTake? || a.FlusherWriteBatch? || a.FlusherWriteOffset? || a.FlusherRemove?)
    ensures Enabled(p, Uncached(s), a)
    ensures Step(p, Uncached(s), a).1 == Step(p, s, a).1
    ensures Uncached(Step(p, Uncached(s), a).0) == Uncached(Step(p, s, a).0)
  {
    hide Top, EventTop, MaxValues;
  }

  lemma UncachedBatch(p: Params, s: State)
    requires ValidParams(p) && Enabled(p, s, Batch)
    ensures Enabled(p, Uncached(s), Batch)
    ensures Uncached(BatchStep(Uncached(s))) == Uncached(BatchStep(s))
  {
    hide MaxValues, ValidParams;
    BatchIgnoresCache(s, s.plog[s.nextOffset - 1]);
  }

  lemma BatchIgnoresCache(s: State, values: Event)
    ensures
      Uncached(BatchValuesStep(BatchOffsetStep(Uncached(s)), values)) == Uncached(BatchValuesStep(BatchOffsetStep(s), values))
  {
    hide MaxValues;
  }

  lemma UncachedActualizer(p: Params, s: State, a: Action)
    requires ValidParams(p) && Enabled(p, s, a) && (a.StopFlusher? || a.BatcherWait? || a.FinishActualization?)
    ensures Enabled(p, Uncached(s), a)
    ensures Step(p, Uncached(s), a).1 == Step(p, s, a).1
    ensures Uncached(Step(p, Uncached(s), a).0) == Uncached(Step(p, s, a).0)
  {
  }

  lemma UncachedSimulates(p: Params, s: State, a: Action)
    requires ValidParams(p) && Inv(s) && Enabled(p, s, a)
    ensures Enabled(p, Uncached(s), a)
    ensures a.Evict? ==> Uncached(Step(p, s, a).0) == Uncached(s)
    ensures !a.Evict? ==> UncachedStep(p, Uncached(s), a) == (Uncached(Step(p, s, a).0), Step(p, s, a).1)
  {
    hide Top, EventTop, MaxValues;
    if a.Next? {
      UncachedNext(p, s, a.seqId);
    } else if a.Batch? {
      UncachedBatch(p, s);
    } else if a.StopFlusher? || a.BatcherWait? || a.FinishActualization? {
      UncachedActualizer(p, s, a);
    } else if a.Evict? {
      assert Uncached(Step(p, s, a).0) == Uncached(s);
    } else if a.Start? || a.Append? || a.Flush? || a.Actualize? || a.Crash? {
      UncachedCaller(p, s, a);
    } else {
      UncachedFlusher(p, s, a);
    }
  }

  /** The cache refines the machine without one: for every schedule of evictions the callers see
      exactly what they would see with no cache at all. */
  lemma {:induction false} CacheIsInvisible(p: Params, s: State, run: seq<Action>)
    requires ValidParams(p) && Inv(s) && ValidRun(p, s, run)
    ensures UncachedValidRun(p, Uncached(s), WithoutEvictions(run))
    ensures UncachedOutputs(p, Uncached(s), WithoutEvictions(run)) == Outputs(p, s, run)
    decreases |run|
  {
    hide Top, EventTop, MaxValues;
    if run != [] {
      var a := run[0];
      StepKeepsInv(p, s, a);
      UncachedSimulates(p, s, a);
      CacheIsInvisible(p, Step(p, s, a).0, run[1..]);
      if !a.Evict? {
        var rest := WithoutEvictions(run);
        assert rest[0] == a && rest[1..] == WithoutEvictions(run[1..]);
      }
    }
  }

  /* ---------- batcher takes its lock twice ---------- */

  /** s before batcher moved the offset: what the flusher sees unless it copies the offset. */
  function Shadow(s: State, toBeFlushedOffset: nat): State
    requires s.nextOffset >= 1
  {
    s.(nextOffset := s.nextOffset - 1, toBeFlushedOffset := toBeFlushedOffset)
  }

  lemma ShadowWrites(s: State, b: nat, acked: bool)
    requires s.nextOffset >= 1
    ensures (s.flusher.Copied? || s.flusher.BatchWritten?) ==>
      Shadow(WriteBatchStep(s, acked), b) == WriteBatchStep(Shadow(s, b), acked)
    ensures s.flusher.BatchWritten? ==> Shadow(WriteOffsetStep(s, acked), b) == WriteOffsetStep(Shadow(s, b), acked)
  {
  }

  lemma ShadowRemoves(s: State, b: nat, key: Key)
    requires s.nextOffset >= 1
    ensures s.flusher.Written? ==> Shadow(RemoveStep(s), b) == RemoveStep(Shadow(s, b))
    ensures Shadow(s.(cache := s.cache - {key}), b) == Shadow(s, b).(cache := Shadow(s, b).cache - {key})
  {
  }

  /** The steps of the flusher after it took what it writes, and evictions. */
  predicate CanWrite(s: State, a: Action) {
    match a
    case FlusherWriteBatch(_) => s.flusher.Copied? || s.flusher.BatchWritten?
    case FlusherWriteOffset(_) => s.flusher.BatchWritten?
    case FlusherRemove => s.flusher.Written?
    case Evict(_) => true
    case _ => false
  }

  function WriterStep(s: State, a: Action): State
    requires CanWrite(s, a)
  {
    match a
    case FlusherWriteBatch(acked) => WriteBatchStep(s, acked)
    case FlusherWriteOffset(acked) => WriteOffsetStep(s, acked)
    case FlusherRemove => RemoveStep(s)
    case Evict(key) => s.(cache := s.cache - {key})
  }

  lemma WriterStepIs(p: Params, s: State, a: Action)
    requires ValidParams(p)
    ensures Enabled(p, s, a) && Background(a) && !a.FlusherTake? <==> CanWrite(s, a)
    ensures CanWrite(s, a) ==> Step(p, s, a).0 == WriterStep(s, a)
  {
  }

  lemma WriterStepCommutes(s: State, a: Action, b: nat)
    requires s.nextOffset >= 1 && CanWrite(s, a)
    ensures
      var t := WriterStep(s, a);
      && t.nextOffset == s.nextOffset && t.toBeFlushedOffset == s.toBeFlushedOffset && t.plog == s.plog && t.phase == s.phase
      && CanWrite(Shadow(s, b), a) && Shadow(t, b) == WriterStep(Shadow(s, b), a)
  {
    hide Unwritten;
    match a
    case FlusherWriteBatch(acked) => ShadowWrites(s, b, acked);
    case FlusherWriteOffset(acked) => ShadowWrites(s, b, acked);
    case FlusherRemove => ShadowRemoves(s, b, Key(0, 0));
    case Evict(key) => ShadowRemoves(s, b, key);
  }

  lemma ShadowCommutes(p: Params, s: State, a: Action, b: nat)
    requires ValidParams(p) && s.nextOffset >= 1 && Enabled(p, s, a)
    requires Background(a) && !a.FlusherTake?
    ensures Enabled(p, Shadow(s, b), a)
    ensures
      var t := Step(p, s, a).0;
      && t.nextOffset == s.nextOffset && t.toBeFlushedOffset == s.toBeFlushedOffset
      && t.plog == s.plog && t.phase == s.phase
      && Shadow(t, b) == Step(p, Shadow(s, b), a).0
  {
    hide *;
    WriterStepIs(p, s, a);
    WriterStepIs(p, Shadow(s, b), a);
    WriterStepCommutes(s, a, b);
  }

  lemma ShadowStep(p: Params, s: State, a: Action, b: nat)
    requires ValidParams(p) && s.nextOffset >= 1 && Inv(Shadow(s, b)) && Enabled(p, s, a)
    requires Background(a) && !a.FlusherTake?
    ensures
      var t := Step(p, s, a).0;
      && t.nextOffset == s.nextOffset && t.toBeFlushedOffset == s.toBeFlushedOffset
      && t.plog == s.plog && t.phase == s.phase && Inv(Shadow(t, b))
  {
    ShadowCommutes(p, s, a, b);
    hide *;
    StepKeepsInv(p, Shadow(s, b), a);
  }

  lemma {:induction false} ShadowRun(p: Params, s: State, background: seq<Action>, b: nat)
    requires ValidParams(p) && s.nextOffset >= 1 && Inv(Shadow(s, b)) && ValidRun(p, s, background)
    requires forall a | a in background :: Background(a) && !a.FlusherTake?
    ensures
      var t := After(p, s, background);
      && t.nextOffset == s.nextOffset && t.toBeFlushedOffset == s.toBeFlushedOffset
      && t.plog == s.plog && t.phase == s.phase && Inv(Shadow(t, b))
    decreases |background|
  {
    hide Top, EventTop, MaxValues;
    if background != [] {
      var a := background[0];
      ShadowStep(p, s, a, b);
      ShadowRun(p, Step(p, s, a).0, background[1..], b);
    }
  }

  lemma Unshadow(t: State, b: nat, m: map<Key, nat>)
    requires 2 <= t.nextOffset <= |t.plog| + 1 && t.phase.Scanning? && t.toBeFlushedOffset == t.nextOffset
    requires Inv(Shadow(t, b))
    requires Positive(t.toBeFlushed + m) && Covered(t.toBeFlushed + m, t.numbers, t.plog, t.nextOffset - 1)
    ensures Inv(t.(toBeFlushed := t.toBeFlushed + m))
  {
    hide Top, EventTop, MaxValues;
    AheadKeepsInv(Shadow(t, b), m);
    assert BatchOffsetStep(Shadow(t, b)) == t;
  }

  lemma UnshadowBatch(t: State, b: nat, values: Event)
    requires 2 <= t.nextOffset <= |t.plog| + 1 && t.phase.Scanning? && t.toBeFlushedOffset == t.nextOffset
    requires Inv(Shadow(t, b)) && values == t.plog[t.nextOffset - 2]
    ensures Inv(BatchValuesStep(t, values))
  {
    hide Top, EventTop, MaxValues;
    BatchCoversAll(t.toBeFlushed, t.numbers, t.plog, t.nextOffset - 2);
    Unshadow(t, b, MaxValues(values));
  }

  /** Batch as one step is justified as long as the flusher does not copy between its two lock
      sections: anything else it does there keeps the invariant. */
  lemma SplitBatcherIsSafeUnlessFlushed(p: Params, s: State, background: seq<Action>)
    requires ValidParams(p) && Inv(s) && Enabled(p, s, Batch)
    requires ValidRun(p, BatchOffsetStep(s), background)
    requires forall a | a in background :: Background(a) && !a.FlusherTake?
    ensures Inv(BatchValuesStep(After(p, BatchOffsetStep(s), background), s.plog[s.nextOffset - 1]))
  {
    hide Top, EventTop, MaxValues;
    var b := s.toBeFlushedOffset;
    var mid := BatchOffsetStep(s);
    assert Shadow(mid, b) == s;
    ShadowRun(p, mid, background, b);
    var t := After(p, mid, background);
    UnshadowBatch(t, b, s.plog[s.nextOffset - 1]);
  }

  /* ---------- two runs ---------- */

  /** One workspace kind with one sequence that starts at 1; a single unflushed number blocks batcher. */
  const TINY: Params := Params(map[1 := map[1 := 1]], 1)
  const K: Key := Key(7, 1)

  function TwoEvents(): State {
    CrashStep(State([[SeqValue(K, 1)], [SeqValue(K, 2)]], map[], 1, Stopping, map[], map[], map[], 0, 0, NoTxn, Idle, false))
  }

  lemma TwoEventsInitial()
    ensures ValidParams(TINY) && Initial(TwoEvents())
  {
    var plog := TwoEvents().plog;
    assert plog[0][..0] == [] && plog[1][..0] == [];
    assert EventTop(plog[0], K) == 1;
    assert Top(plog, 0, K) == 0 && Top(plog, 1, K) == 1;
  }

  lemma FirstEventBatched() returns (run: seq<Action>)
    ensures ValidParams(TINY) && ValidRun(TINY, TwoEvents(), run)
    ensures After(TINY, TwoEvents(), run) ==
      TwoEvents().(phase := Scanning, toBeFlushed := map[K := 1], nextOffset := 2, toBeFlushedOffset := 2)
  {
    TwoEventsInitial();
    var p, s0 := TINY, TwoEvents();
    var e := [SeqValue(K, 1)];
    assert e[..0] == [] && MaxValues(e) == map[K := 1];
    run := [];
    RunStep(p, s0, run, StopFlusher);
    run := run + [StopFlusher];
    RunStep(p, s0, run, Batch);
    run := run + [Batch];
    assert After(p, s0, run).toBeFlushed == map[K := 1];
  }

  /** batcher waits and signals twice; the flusher has written number 1 with offset 2, and the second
      signal is still pending. */
  lemma FirstEventFlushed() returns (run: seq<Action>)
    ensures ValidParams(TINY) && ValidRun(TINY, TwoEvents(), run)
    ensures After(TINY, TwoEvents(), run) ==
      TwoEvents().(phase := Scanning, numbers := map[K := 1], storedOffset := 2, nextOffset := 2, toBeFlushedOffset := 2, signal := true)
  {
    var p, s0 := TINY, TwoEvents();
    run := FirstEventBatched();
    RunStep(p, s0, run, BatcherWait);
    run := run + [BatcherWait];
    RunStep(p, s0, run, FlusherTake);
    run := run + [FlusherTake];
    RunStep(p, s0, run, BatcherWait);
    run := run + [BatcherWait];
    RunStep(p, s0, run, FlusherWriteBatch(true));
    run := run + [FlusherWriteBatch(true)];
    RunStep(p, s0, run, FlusherWriteOffset(true));
    run := run + [FlusherWriteOffset(true)];
    RunStep(p, s0, run, FlusherRemove);
    run := run + [FlusherRemove];
  }

  lemma FlushedEarly() returns (run: seq<Action>, rest: seq<Action>)
    ensures ValidParams(TINY) && ValidRun(TINY, TwoEvents(), run)
    ensures Enabled(TINY, After(TINY, TwoEvents(), run), Batch)
    ensures
      var mid := BatchOffsetStep(After(TINY, TwoEvents(), run));
      && ValidRun(TINY, mid, rest)
      && After(TINY, mid, rest) == TwoEvents().(numbers := map[K := 1], storedOffset := 3)
  {
    run := FirstEventFlushed();
    var p, mid := TINY, BatchOffsetStep(After(TINY, TwoEvents(), run));
    rest := [];
    RunStep(p, mid, rest, FlusherTake);
    rest := rest + [FlusherTake];
    RunStep(p, mid, rest, FlusherWriteBatch(true));
    rest := rest + [FlusherWriteBatch(true)];
    RunStep(p, mid, rest, FlusherWriteOffset(true));
    rest := rest + [FlusherWriteOffset(true)];
    RunStep(p, mid, rest, Crash);
    rest := rest + [Crash];
  }

  /** The offset may run ahead of the values if the flusher copies between the two lock sections of
      batcher: a crash then makes Next repeat a number of the PLog.  The flusher is woken by the
      second signal that batcher itself sent while it waited. */
  lemma FlushInsideBatcherRepeatsNumber() returns (run: seq<Action>, rest: seq<Action>)
    ensures ValidParams(TINY) && ValidRun(TINY, TwoEvents(), run)
    ensures Enabled(TINY, After(TINY, TwoEvents(), run), Batch)
    ensures
      var mid := BatchOffsetStep(After(TINY, TwoEvents(), run));
      && ValidRun(TINY, mid, rest)
      && Enabled(TINY, After(TINY, mid, rest), Next(1))
      && Step(TINY, After(TINY, mid, rest), Next(1)).1 == Issued(TwoEvents().plog[1][0])
  {
    run, rest := FlushedEarly();
    var p, mid := TINY, BatchOffsetStep(After(TINY, TwoEvents(), run));
    RunStep(p, mid, rest, StopFlusher);
    rest := rest + [StopFlusher];
    RunStep(p, mid, rest, FinishActualization);
    rest := rest + [FinishActualization];
    RunStep(p, mid, rest, Start(1, 7));
    rest := rest + [Start(1, 7)];
  }

  function EmptyLog(): State {
    CrashStep(State([], map[], 1, Stopping, map[], map[], map[], 0, 0, NoTxn, Idle, false))
  }

  lemma EmptyLogActualized() returns (run: seq<Action>)
    ensures ValidParams(TINY) && Initial(EmptyLog()) && ValidRun(TINY, EmptyLog(), run)
    ensures Crash !in run
    ensures After(TINY, EmptyLog(), run) == EmptyLog().(phase := Ready, nextOffset := 1)
  {
    var p, s0 := TINY, EmptyLog();
    assert Top([], 0, K) == 0;
    run := [];
    RunStep(p, s0, run, StopFlusher);
    run := run + [StopFlusher];
    RunStep(p, s0, run, FinishActualization);
    run := run + [FinishActualization];
  }

  lemma FirstNumber() returns (run: seq<Action>)
    ensures ValidParams(TINY) && Initial(EmptyLog()) && ValidRun(TINY, EmptyLog(), run)
    ensures Crash !in run
    ensures After(TINY, EmptyLog(), run) ==
      EmptyLog().(phase := Ready, cache := map[K := 1], inproc := map[K := 1], nextOffset := 1,
                  txn := Txn(1, 7, {SeqValue(K, 1)}, false))
  {
    var p, s0 := TINY, EmptyLog();
    run := EmptyLogActualized();
    RunStep(p, s0, run, Start(1, 7));
    run := run + [Start(1, 7)];
    RunStep(p, s0, run, Next(1));
    run := run + [Next(1)];
  }

  lemma FirstTransaction() returns (run: seq<Action>)
    ensures ValidParams(TINY) && Initial(EmptyLog()) && ValidRun(TINY, EmptyLog(), run)
    ensures After(TINY, EmptyLog(), run) ==
      EmptyLog().(plog := [[SeqValue(K, 1)]], phase := Ready, cache := map[K := 1], toBeFlushed := map[K := 1],
                  toBeFlushedOffset := 1, nextOffset := 2, signal := true)
  {
    var p, s0 := TINY, EmptyLog();
    run := FirstNumber();
    RunStep(p, s0, run, Append([SeqValue(K, 1)]));
    run := run + [Append([SeqValue(K, 1)])];
    RunStep(p, s0, run, Flush);
    run := run + [Flush];
    assert After(p, s0, run).toBeFlushed == map[K := 1];
  }

  lemma SecondTransaction() returns (run: seq<Action>)
    ensures ValidParams(TINY) && Initial(EmptyLog()) && ValidRun(TINY, EmptyLog(), run)
    ensures After(TINY, EmptyLog(), run) ==
      EmptyLog().(plog := TwoEvents().plog, phase := Ready, cache := map[K := 2], toBeFlushed := map[K := 2],
                  toBeFlushedOffset := 2, nextOffset := 3, signal := true)
  {
    var p, s0 := TINY, EmptyLog();
    run := FirstTransaction();
    RunStep(p, s0, run, Start(1, 7));
    run := run + [Start(1, 7)];
    RunStep(p, s0, run, Next(1));
    run := run + [Next(1)];
    RunStep(p, s0, run, Append([SeqValue(K, 2)]));
    run := run + [Append([SeqValue(K, 2)])];
    RunStep(p, s0, run, Flush);
    run := run + [Flush];
    assert After(p, s0, run).toBeFlushed == map[K := 2];
  }

  lemma BatchWrittenThenCrash() returns (run: seq<Action>)
    ensures ValidParams(TINY) && Initial(EmptyLog()) && ValidRun(TINY, EmptyLog(), run)
    ensures After(TINY, EmptyLog(), run) == TwoEvents().(numbers := map[K := 2])
  {
    var p, s0 := TINY, EmptyLog();
    run := SecondTransaction();
    RunStep(p, s0, run, FlusherTake);
    run := run + [FlusherTake];
    RunStep(p, s0, run, FlusherWriteBatch(true));
    run := run + [FlusherWriteBatch(true)];
    RunStep(p, s0, run, Crash);
    run := run + [Crash];
  }

  lemma FirstEventRescanned() returns (run: seq<Action>)
    ensures ValidParams(TINY) && Initial(EmptyLog()) && ValidRun(TINY, EmptyLog(), run)
    ensures After(TINY, EmptyLog(), run) ==
      TwoEvents().(numbers := map[K := 2], phase := Scanning, toBeFlushed := map[K := 1], nextOffset := 2, toBeFlushedOffset := 2)
  {
    var p, s0 := TINY, EmptyLog();
    run := BatchWrittenThenCrash();
    var e := TwoEvents().plog[0];
    assert e[..0] == [] && MaxValues(e) == map[K := 1];
    RunStep(p, s0, run, StopFlusher);
    run := run + [StopFlusher];
    RunStep(p, s0, run, Batch);
    run := run + [Batch];
    assert After(p, s0, run).toBeFlushed == map[K := 1];
  }

  /** A single stored number may drop: after two transactions a crash cuts a batch write from its
      offset, and the rescan flushes the first event alone. */
  lemma StoredNumberMayDrop() returns (run: seq<Action>)
    ensures ValidParams(TINY) && Initial(EmptyLog()) && ValidRun(TINY, EmptyLog(), run)
    ensures
      var s := After(TINY, EmptyLog(), run);
      && Enabled(TINY, s, FlusherWriteBatch(true))
      && s.numbers == map[K := 2]
      && Step(TINY, s, FlusherWriteBatch(true)).0.numbers == map[K := 1]
  {
    var p, s0 := TINY, EmptyLog();
    run := FirstEventRescanned();
    RunStep(p, s0, run, BatcherWait);
    run := run + [BatcherWait];
    RunStep(p, s0, run, FlusherTake);
    run := run + [FlusherTake];
  }
}
