/** The sequencer of pkg/isequencer as a transition system.

    It issues PLog offsets and per-workspace numbers.  Four layers hold numbers: the LRU cache,
    the numbers of the current transaction (`inproc`), the unflushed numbers (`toBeFlushed`) and
    the storage.  Three actors share them: the command processor (Start, Next, Append, Flush,
    Actualize), the background flusher and the actualizer.  A crash keeps only the PLog and the
    storage.

    The event with offset o is plog[o-1].
 */
module Sequencer {

  datatype Key = Key(wsid: nat, seqId: nat)
  datatype SeqValue = SeqValue(key: Key, value: nat)
  type Event = seq<SeqValue>

  datatype Params = Params(seqTypes: map<nat, map<nat, nat>>, maxUnflushed: nat)

  /** New panics unless every initial number is at least 1. */
  predicate ValidParams(p: Params) {
    forall kind, id | kind in p.seqTypes && id in p.seqTypes[kind] :: p.seqTypes[kind][id] >= 1
  }

  /** `issued` and `appended` belong to the environment: the numbers returned by Next in this
      transaction, and whether its event is in the PLog already. */
  datatype Txn =
    | NoTxn
    | Txn(wsKind: nat, wsid: nat, issued: set<SeqValue>, appended: bool)

  /** Where the flusher stands inside one iteration of its loop. */
  datatype Flusher =
    | Idle
    | Copied(values: map<Key, nat>, offset: nat)
    | BatchWritten(values: map<Key, nat>, offset: nat)
    | Written(values: map<Key, nat>)

  /** Ready: no actualization.  Stopping: the actualizer waits for the flusher to exit.
      Scanning: it feeds PLog events to the batcher. */
  datatype Phase = Ready | Stopping | Scanning

  datatype State = State(
    plog: seq<Event>,
    numbers: map<Key, nat>,
    storedOffset: nat,
    phase: Phase,
    cache: map<Key, nat>,
    inproc: map<Key, nat>,
    toBeFlushed: map<Key, nat>,
    toBeFlushedOffset: nat,
    nextOffset: nat,
    txn: Txn,
    flusher: Flusher,
    signal: bool)

  datatype Action =
    | Start(wsKind: nat, wsid: nat)
    | Next(seqId: nat)
    | Append(event: Event)
    | Flush
    | Actualize
    | FlusherTake
    | FlusherWriteBatch(acked: bool)
    | FlusherWriteOffset(acked: bool)
    | FlusherRemove
    | Evict(key: Key)
    | StopFlusher
    | BatcherWait
    | Batch
    | FinishActualization
    | Crash

  datatype Output = Silent | Offset(offset: nat) | Rejected | Issued(value: SeqValue) | UnknownSeqId

  /* ---------- the layers ---------- */

  /** The number that a layer over the storage gives for a key; 0 if neither holds it. */
  function Layered(layer: map<Key, nat>, numbers: map<Key, nat>, k: Key): nat {
    if k in layer then layer[k] else if k in numbers then numbers[k] else 0
  }

  /** The last number of a key for Next when the cache is not consulted. */
  function LastUncached(s: State, k: Key, initial: nat): nat
    requires initial >= 1
  {
    if k in s.inproc then s.inproc[k]
    else if k in s.toBeFlushed then s.toBeFlushed[k]
    else if k !in s.numbers || s.numbers[k] == 0 then initial - 1
    else s.numbers[k]
  }

  function Last(s: State, k: Key, initial: nat): nat
    requires initial >= 1
  {
    if k in s.cache then s.cache[k] else LastUncached(s, k, initial)
  }

  function Max(a: nat, b: nat): nat {
    if a >= b then a else b
  }

  /** The largest number of a key in one event; 0 if the event does not hold the key. */
  function EventTop(e: Event, k: Key): nat {
    if e == [] then 0
    else
      var v := e[|e| - 1];
      if v.key == k then Max(EventTop(e[..|e| - 1], k), v.value) else EventTop(e[..|e| - 1], k)
  }

  /** The largest number of a key in the first `upto` events. */
  function Top(plog: seq<Event>, upto: int, k: Key): nat {
    if upto <= 0 || upto > |plog| then 0
    else Max(Top(plog, upto - 1, k), EventTop(plog[upto - 1], k))
  }

  /** The largest number of every key of one event: what batcher collects. */
  function MaxValues(e: Event): map<Key, nat> {
    if e == [] then map[]
    else
      var m := MaxValues(e[..|e| - 1]);
      var v := e[|e| - 1];
      if v.key !in m || v.value > m[v.key] then m[v.key := v.value] else m
  }

  /* ---------- the steps ---------- */

  /** What the documented panics and the environment allow. */
  predicate Enabled(p: Params, s: State, a: Action) {
    match a
    case Start(wsKind, _) => s.txn.NoTxn? && wsKind in p.seqTypes
    case Next(_) => s.txn.Txn? && s.txn.wsKind in p.seqTypes
    case Append(e) => s.txn.Txn? && !s.txn.appended && forall v | v in e :: v in s.txn.issued
    case Flush => s.txn.Txn? && s.txn.appended
    case Actualize => s.txn.Txn?
    case FlusherTake => s.flusher.Idle? && s.signal
    case FlusherWriteBatch(_) => s.flusher.Copied? || s.flusher.BatchWritten?
    case FlusherWriteOffset(_) => s.flusher.BatchWritten?
    case FlusherRemove => s.flusher.Written?
    case Evict(_) => true
    case StopFlusher => s.phase.Stopping? && s.flusher.Idle?
    case BatcherWait => s.phase.Scanning? && |s.toBeFlushed| >= p.maxUnflushed
    case Batch => s.phase.Scanning? && |s.toBeFlushed| < p.maxUnflushed && 1 <= s.nextOffset <= |s.plog|
    case FinishActualization => s.phase.Scanning? && s.nextOffset > |s.plog|
    case Crash => true
  }

  function StartStep(p: Params, s: State, wsKind: nat, wsid: nat): (State, Output) {
    if !s.phase.Ready? then (s, Rejected)
    else if |s.toBeFlushed| > p.maxUnflushed then (s.(signal := true), Rejected)
    else (s.(txn := Txn(wsKind, wsid, {}, false)), Offset(s.nextOffset))
  }

  /** incrementNumber, and the environment's record of what was issued. */
  function Increment(s: State, k: Key, last: nat): (State, Output)
    requires s.txn.Txn?
  {
    var v := SeqValue(k, last + 1);
    (s.(cache := s.cache[k := last + 1],
        inproc := s.inproc[k := last + 1],
        txn := s.txn.(issued := s.txn.issued + {v})), Issued(v))
  }

  function NextStep(p: Params, s: State, seqId: nat): (State, Output)
    requires ValidParams(p) && Enabled(p, s, Next(seqId))
  {
    var seqTypes := p.seqTypes[s.txn.wsKind];
    if seqId !in seqTypes then (s, UnknownSeqId)
    else
      var k := Key(s.txn.wsid, seqId);
      Increment(s, k, Last(s, k, seqTypes[seqId]))
  }

  function FlushStep(s: State): State
    requires s.txn.Txn?
  {
    s.(toBeFlushed := s.toBeFlushed + s.inproc,
       toBeFlushedOffset := s.nextOffset,
       inproc := map[],
       nextOffset := s.nextOffset + 1,
       signal := true,
       txn := NoTxn)
  }

  function ActualizeStep(s: State): State {
    s.(inproc := map[], cache := map[], txn := NoTxn, phase := Stopping)
  }

  function FlusherTakeStep(s: State): State {
    if s.toBeFlushedOffset == 0 then s.(signal := false)
    else s.(signal := false, flusher := Copied(s.toBeFlushed, s.toBeFlushedOffset))
  }

  /** A storage call that is not acknowledged took effect but is retried. */
  function WriteBatchStep(s: State, acked: bool): State
    requires s.flusher.Copied? || s.flusher.BatchWritten?
  {
    s.(numbers := s.numbers + s.flusher.values,
       flusher := if acked then BatchWritten(s.flusher.values, s.flusher.offset) else s.flusher)
  }

  function WriteOffsetStep(s: State, acked: bool): State
    requires s.flusher.BatchWritten?
  {
    s.(storedOffset := s.flusher.offset,
       flusher := if acked then Written(s.flusher.values) else s.flusher)
  }

  /** toBeFlushed without the keys that were written and did not change meanwhile. */
  function Unwritten(toBeFlushed: map<Key, nat>, values: map<Key, nat>): map<Key, nat> {
    map k | k in toBeFlushed && !(k in values && values[k] == toBeFlushed[k]) :: toBeFlushed[k]
  }

  function RemoveStep(s: State): State
    requires s.flusher.Written?
  {
    s.(toBeFlushed := Unwritten(s.toBeFlushed, s.flusher.values), flusher := Idle)
  }

  /** The actualizer after the flusher exited: clear, start a new flusher, read the offset. */
  function StopFlusherStep(s: State): State {
    s.(signal := false, toBeFlushed := map[], toBeFlushedOffset := 0,
       nextOffset := s.storedOffset, phase := Scanning)
  }

  /** First lock section of batcher. */
  function BatchOffsetStep(s: State): State {
    s.(nextOffset := s.nextOffset + 1, toBeFlushedOffset := s.nextOffset + 1)
  }

  /** Second lock section of batcher. */
  function BatchValuesStep(s: State, values: Event): State {
    s.(toBeFlushed := s.toBeFlushed + MaxValues(values))
  }

  /** batcher, called for the event at nextOffset. */
  function BatchStep(s: State): State
    requires 1 <= s.nextOffset <= |s.plog|
  {
    BatchValuesStep(BatchOffsetStep(s), s.plog[s.nextOffset - 1])
  }

  function CrashStep(s: State): State {
    State(s.plog, s.numbers, s.storedOffset, Stopping, map[], map[], map[], 0, 0, NoTxn, Idle, false)
  }

  function Step(p: Params, s: State, a: Action): (State, Output)
    requires ValidParams(p) && Enabled(p, s, a)
  {
    match a
    case Start(wsKind, wsid) => StartStep(p, s, wsKind, wsid)
    case Next(seqId) => NextStep(p, s, seqId)
    case Append(e) => (s.(plog := s.plog + [e], txn := s.txn.(appended := true)), Silent)
    case Flush => (FlushStep(s), Silent)
    case Actualize => (ActualizeStep(s), Silent)
    case FlusherTake => (FlusherTakeStep(s), Silent)
    case FlusherWriteBatch(acked) => (WriteBatchStep(s, acked), Silent)
    case FlusherWriteOffset(acked) => (WriteOffsetStep(s, acked), Silent)
    case FlusherRemove => (RemoveStep(s), Silent)
    case Evict(key) => (s.(cache := s.cache - {key}), Silent)
    case StopFlusher => (StopFlusherStep(s), Silent)
    case BatcherWait => (s.(signal := true), Silent)
    case Batch => (BatchStep(s), Silent)
    case FinishActualization => (s.(phase := Ready), Silent)
    case Crash => (CrashStep(s), Silent)
  }

  /* ---------- runs ---------- */

  ghost predicate ValidRun(p: Params, s: State, run: seq<Action>)
    requires ValidParams(p)
    decreases |run|
  {
    run == [] || (Enabled(p, s, run[0]) && ValidRun(p, Step(p, s, run[0]).0, run[1..]))
  }

  ghost function After(p: Params, s: State, run: seq<Action>): State
    requires ValidParams(p) && ValidRun(p, s, run)
    decreases |run|
  {
    if run == [] then s else After(p, Step(p, s, run[0]).0, run[1..])
  }

  /* ---------- what the runs keep ---------- */

  /** The numbers of a key rise from event to event. */
  ghost predicate Rising(plog: seq<Event>) {
    forall i, v | 0 <= i < |plog| && v in plog[i] :: v.value > Top(plog, i, v.key)
  }

  ghost predicate Positive(m: map<Key, nat>) {
    forall k | k in m :: m[k] >= 1
  }

  /** A layer over the storage covers the first `upto` events, for every key. */
  ghost predicate Covered(layer: map<Key, nat>, numbers: map<Key, nat>, plog: seq<Event>, upto: int) {
    forall k :: Layered(layer, numbers, k) >= Top(plog, upto, k)
  }

  /** What a process finds when it starts: a PLog, and a storage that covers it below its offset. */
  ghost predicate Sound(plog: seq<Event>, numbers: map<Key, nat>, storedOffset: nat) {
    && Rising(plog)
    && Positive(numbers)
    && 1 <= storedOffset <= |plog| + 1
    && Covered(map[], numbers, plog, storedOffset - 1)
  }

  ghost predicate Initial(s: State) {
    Sound(s.plog, s.numbers, s.storedOffset) && s == CrashStep(s)
  }

  ghost predicate Holds(numbers: map<Key, nat>, values: map<Key, nat>) {
    forall k | k in values :: k in numbers && numbers[k] == values[k]
  }

  /** The values being flushed cover the PLog below the offset that will be stored after them. */
  ghost predicate InFlight(values: map<Key, nat>, offset: nat, toBeFlushed: map<Key, nat>, toBeFlushedOffset: nat,
                           plog: seq<Event>, numbers: map<Key, nat>, storedOffset: nat)
  {
    && storedOffset <= offset <= toBeFlushedOffset
    && Positive(values)
    && values.Keys <= toBeFlushed.Keys
    && Covered(values, numbers, plog, offset - 1)
  }

  ghost predicate FlusherInv(flusher: Flusher, toBeFlushed: map<Key, nat>, toBeFlushedOffset: nat,
                             plog: seq<Event>, numbers: map<Key, nat>, storedOffset: nat)
  {
    match flusher
    case Idle => true
    case Copied(vs, offset) => InFlight(vs, offset, toBeFlushed, toBeFlushedOffset, plog, numbers, storedOffset)
    case BatchWritten(vs, offset) =>
      InFlight(vs, offset, toBeFlushed, toBeFlushedOffset, plog, numbers, storedOffset) && Holds(numbers, vs)
    case Written(vs) => vs.Keys <= toBeFlushed.Keys && Holds(numbers, vs)
  }

  /** The unflushed numbers over the storage cover the PLog below an offset not under the stored one. */
  ghost predicate Ahead(offset: nat, toBeFlushed: map<Key, nat>, plog: seq<Event>, numbers: map<Key, nat>, storedOffset: nat) {
    storedOffset <= offset <= |plog| + 1 && Covered(toBeFlushed, numbers, plog, offset - 1)
  }

  ghost predicate UnflushedInv(phase: Phase, nextOffset: nat, toBeFlushed: map<Key, nat>, toBeFlushedOffset: nat,
                               plog: seq<Event>, numbers: map<Key, nat>, storedOffset: nat)
  {
    && Positive(toBeFlushed)
    && (toBeFlushedOffset != 0 ==> Ahead(toBeFlushedOffset, toBeFlushed, plog, numbers, storedOffset))
    && (!phase.Stopping? ==>
          toBeFlushedOffset <= nextOffset && Ahead(nextOffset, toBeFlushed, plog, numbers, storedOffset))
  }

  /** The cache agrees with the layers below it. */
  ghost predicate CacheAgrees(cache: map<Key, nat>, inproc: map<Key, nat>, toBeFlushed: map<Key, nat>, numbers: map<Key, nat>) {
    forall k | k in cache :: cache[k] >= 1 && cache[k] == if k in inproc then inproc[k] else Layered(toBeFlushed, numbers, k)
  }

  ghost predicate CacheInv(phase: Phase, cache: map<Key, nat>, inproc: map<Key, nat>, toBeFlushed: map<Key, nat>, numbers: map<Key, nat>) {
    && Positive(inproc)
    && CacheAgrees(cache, inproc, toBeFlushed, numbers)
    && (!phase.Ready? ==> cache == map[])
  }

  /** What a transaction issued is above all earlier events and at most the number in inproc. */
  ghost predicate IssuedAbove(issued: set<SeqValue>, inproc: map<Key, nat>, plog: seq<Event>, upto: int) {
    && (forall k | k in inproc :: inproc[k] >= Top(plog, upto, k))
    && (forall v | v in issued :: v.key in inproc && Top(plog, upto, v.key) < v.value <= inproc[v.key])
  }

  ghost predicate TxnInv(txn: Txn, phase: Phase, inproc: map<Key, nat>, nextOffset: nat, plog: seq<Event>) {
    match txn
    case NoTxn => inproc == map[] && (phase.Ready? ==> nextOffset == |plog| + 1)
    case Txn(_, _, issued, appended) =>
      && phase.Ready?
      && 1 <= nextOffset
      && |plog| == (if appended then nextOffset else nextOffset - 1)
      && IssuedAbove(issued, inproc, plog, nextOffset - 1)
      && (appended ==> forall v | v in plog[nextOffset - 1] :: v in issued)
  }

  ghost predicate Inv(s: State) {
    && Sound(s.plog, s.numbers, s.storedOffset)
    && FlusherInv(s.flusher, s.toBeFlushed, s.toBeFlushedOffset, s.plog, s.numbers, s.storedOffset)
    && UnflushedInv(s.phase, s.nextOffset, s.toBeFlushed, s.toBeFlushedOffset, s.plog, s.numbers, s.storedOffset)
    && CacheInv(s.phase, s.cache, s.inproc, s.toBeFlushed, s.numbers)
    && TxnInv(s.txn, s.phase, s.inproc, s.nextOffset, s.plog)
  }

  lemma InitialInv(s: State)
    requires Initial(s)
    ensures Inv(s)
  {
    hide Top, EventTop, MaxValues;
  }

  /* ---------- facts about the largest numbers ---------- */

  lemma EventTopBounds(e: Event, k: Key)
    ensures forall v | v in e && v.key == k :: v.value <= EventTop(e, k)
    ensures EventTop(e, k) > 0 ==> SeqValue(k, EventTop(e, k)) in e
  {
    if e != [] {
      EventTopBounds(e[..|e| - 1], k);
      assert e == e[..|e| - 1] + [e[|e| - 1]];
    }
  }

  lemma MaxValuesIsTop(e: Event, k: Key)
    ensures k in MaxValues(e) ==> MaxValues(e)[k] == EventTop(e, k) && exists v :: v in e && v.key == k
    ensures k !in MaxValues(e) ==> EventTop(e, k) == 0 && forall v | v in e :: v.key != k
  {
    if e != [] {
      MaxValuesIsTop(e[..|e| - 1], k);
      assert e == e[..|e| - 1] + [e[|e| - 1]];
      assert e[|e| - 1] in e;
    }
  }

  lemma TopAppend(plog: seq<Event>, e: Event, upto: int, k: Key)
    requires upto <= |plog|
    ensures Top(plog + [e], upto, k) == Top(plog, upto, k)
  {
    if upto > 0 {
      TopAppend(plog, e, upto - 1, k);
    }
  }

  lemma TopNext(plog: seq<Event>, upto: nat, k: Key)
    requires upto < |plog|
    ensures Top(plog, upto + 1, k) == Max(Top(plog, upto, k), EventTop(plog[upto], k))
  {
  }

  lemma TopMonotone(plog: seq<Event>, upto: int, upto': int, k: Key)
    requires upto <= upto' <= |plog|
    ensures Top(plog, upto, k) <= Top(plog, upto', k)
  {
    if upto < upto' && upto' > 0 {
      TopMonotone(plog, upto, upto' - 1, k);
    }
  }

  lemma TopBounds(plog: seq<Event>, upto: int, i: nat, j: nat)
    requires i < upto <= |plog| && j < |plog[i]|
    ensures plog[i][j].value <= Top(plog, upto, plog[i][j].key)
  {
    var k := plog[i][j].key;
    TopMonotone(plog, i + 1, upto, k);
    EventTopBounds(plog[i], k);
    assert plog[i][j] in plog[i];
  }

  lemma CoveredLess(layer: map<Key, nat>, numbers: map<Key, nat>, plog: seq<Event>, upto: int, less: int)
    requires Covered(layer, numbers, plog, upto) && less <= upto <= |plog|
    ensures Covered(layer, numbers, plog, less)
  {
    hide Top, EventTop, MaxValues;
    forall k ensures Layered(layer, numbers, k) >= Top(plog, less, k) {
      TopMonotone(plog, less, upto, k);
    }
  }

  lemma CoveredAppend(layer: map<Key, nat>, numbers: map<Key, nat>, plog: seq<Event>, e: Event, upto: int)
    requires Covered(layer, numbers, plog, upto) && upto <= |plog|
    ensures Covered(layer, numbers, plog + [e], upto)
  {
    hide Top, EventTop, MaxValues;
    forall k ensures Layered(layer, numbers, k) >= Top(plog + [e], upto, k) {
      TopAppend(plog, e, upto, k);
    }
  }

  lemma IssuedAppend(issued: set<SeqValue>, inproc: map<Key, nat>, plog: seq<Event>, e: Event, upto: int)
    requires IssuedAbove(issued, inproc, plog, upto) && upto <= |plog|
    ensures IssuedAbove(issued, inproc, plog + [e], upto)
  {
    hide Top, EventTop, MaxValues;
    forall k: Key {:trigger Top(plog, upto, k)} ensures Top(plog + [e], upto, k) == Top(plog, upto, k) {
      TopAppend(plog, e, upto, k);
    }
  }

  lemma RisingAppend(plog: seq<Event>, e: Event)
    requires Rising(plog)
    requires forall v | v in e :: v.value > Top(plog, |plog|, v.key)
    ensures Rising(plog + [e])
  {
    hide Top, EventTop, MaxValues;
    var plog': seq<Event> := plog + [e];
    forall i, v | 0 <= i < |plog'| && v in plog'[i] ensures v.value > Top(plog', i, v.key) {
      TopAppend(plog, e, i, v.key);
      if i < |plog| {
        assert v in plog[i];
      }
    }
  }

  /* ---------- every step keeps the invariant ---------- */

  lemma StartKeepsInv(p: Params, s: State, wsKind: nat, wsid: nat)
    requires Inv(s) && s.txn.NoTxn?
    ensures Inv(StartStep(p, s, wsKind, wsid).0)
  {
    hide Top, EventTop, MaxValues;
  }

  /** Whatever layer answers, it covers the whole PLog, the event of this transaction included. */
  lemma LastCovers(s: State, k: Key, initial: nat)
    requires Inv(s) && s.txn.Txn? && initial >= 1
    ensures Last(s, k, initial) >= Top(s.plog, |s.plog|, k)
    ensures Last(s, k, initial) == LastUncached(s, k, initial)
    ensures k in s.inproc ==> Last(s, k, initial) == s.inproc[k]
  {
    hide Top, EventTop;
    assert Layered(s.toBeFlushed, s.numbers, k) >= Top(s.plog, s.nextOffset - 1, k);
    if s.txn.appended {
      TopNext(s.plog, s.nextOffset - 1, k);
      EventTopBounds(s.plog[s.nextOffset - 1], k);
    }
  }

  lemma IncrementKeepsIssued(issued: set<SeqValue>, inproc: map<Key, nat>, plog: seq<Event>, upto: int, v: SeqValue)
    requires IssuedAbove(issued, inproc, plog, upto)
    requires v.value > Top(plog, upto, v.key)
    requires v.key in inproc ==> v.value > inproc[v.key]
    ensures v !in issued
    ensures IssuedAbove(issued + {v}, inproc[v.key := v.value], plog, upto)
  {
    hide Top, EventTop, MaxValues;
  }

  lemma IncrementKeepsCache(cache: map<Key, nat>, inproc: map<Key, nat>, toBeFlushed: map<Key, nat>, numbers: map<Key, nat>, k: Key, n: nat)
    requires Positive(inproc) && CacheAgrees(cache, inproc, toBeFlushed, numbers) && n >= 1
    ensures Positive(inproc[k := n]) && CacheAgrees(cache[k := n], inproc[k := n], toBeFlushed, numbers)
  {
    hide Top, EventTop, MaxValues;
  }

  lemma IncrementKeepsTxn(txn: Txn, phase: Phase, inproc: map<Key, nat>, nextOffset: nat, plog: seq<Event>, v: SeqValue)
    requires txn.Txn? && TxnInv(txn, phase, inproc, nextOffset, plog)
    requires v.value > Top(plog, |plog|, v.key)
    requires v.key in inproc ==> v.value > inproc[v.key]
    ensures TxnInv(txn.(issued := txn.issued + {v}), phase, inproc[v.key := v.value], nextOffset, plog)
  {
    hide Top, EventTop, MaxValues;
    TopMonotone(plog, nextOffset - 1, |plog|, v.key);
    IncrementKeepsIssued(txn.issued, inproc, plog, nextOffset - 1, v);
  }

  lemma IncrementKeepsInv(s: State, k: Key, last: nat)
    requires Inv(s) && s.txn.Txn?
    requires last >= Top(s.plog, |s.plog|, k)
    requires k in s.inproc ==> last >= s.inproc[k]
    ensures Inv(Increment(s, k, last).0)
  {
    hide Top, Sound, FlusherInv, UnflushedInv, IssuedAbove, CacheAgrees;
    IncrementKeepsTxn(s.txn, s.phase, s.inproc, s.nextOffset, s.plog, SeqValue(k, last + 1));
    IncrementKeepsCache(s.cache, s.inproc, s.toBeFlushed, s.numbers, k, last + 1);
  }

  lemma NextKeepsInv(p: Params, s: State, seqId: nat)
    requires ValidParams(p) && Inv(s) && Enabled(p, s, Next(seqId))
    ensures Inv(NextStep(p, s, seqId).0)
  {
    hide Top, EventTop, MaxValues;
    var seqTypes := p.seqTypes[s.txn.wsKind];
    if seqId in seqTypes {
      var k := Key(s.txn.wsid, seqId);
      LastCovers(s, k, seqTypes[seqId]);
      IncrementKeepsInv(s, k, Last(s, k, seqTypes[seqId]));
    }
  }

  lemma SoundAppend(s: State, e: Event)
    requires Sound(s.plog, s.numbers, s.storedOffset)
    requires forall v | v in e :: v.value > Top(s.plog, |s.plog|, v.key)
    ensures Sound(s.plog + [e], s.numbers, s.storedOffset)
  {
    hide Top, EventTop, MaxValues;
    RisingAppend(s.plog, e);
    CoveredAppend(map[], s.numbers, s.plog, e, s.storedOffset - 1);
  }

  lemma AheadAppend(offset: nat, s: State, e: Event)
    requires Ahead(offset, s.toBeFlushed, s.plog, s.numbers, s.storedOffset)
    ensures Ahead(offset, s.toBeFlushed, s.plog + [e], s.numbers, s.storedOffset)
  {
    hide Top, EventTop, MaxValues;
    CoveredAppend(s.toBeFlushed, s.numbers, s.plog, e, offset - 1);
  }

  lemma FlusherAppend(s: State, e: Event)
    requires s.toBeFlushedOffset <= |s.plog| + 1
    requires FlusherInv(s.flusher, s.toBeFlushed, s.toBeFlushedOffset, s.plog, s.numbers, s.storedOffset)
    ensures FlusherInv(s.flusher, s.toBeFlushed, s.toBeFlushedOffset, s.plog + [e], s.numbers, s.storedOffset)
  {
    hide Top, EventTop, MaxValues;
    if s.flusher.Copied? || s.flusher.BatchWritten? {
      CoveredAppend(s.flusher.values, s.numbers, s.plog, e, s.flusher.offset - 1);
    }
  }

  lemma TxnAppend(issued: set<SeqValue>, inproc: map<Key, nat>, nextOffset: nat, plog: seq<Event>, e: Event, wsKind: nat, wsid: nat)
    requires TxnInv(Txn(wsKind, wsid, issued, false), Ready, inproc, nextOffset, plog)
    requires forall v | v in e :: v in issued
    ensures TxnInv(Txn(wsKind, wsid, issued, true), Ready, inproc, nextOffset, plog + [e])
  {
    hide Top, EventTop, MaxValues;
    IssuedAppend(issued, inproc, plog, e, nextOffset - 1);
    assert (plog + [e])[nextOffset - 1] == e;
  }

  lemma AppendKeepsInv(p: Params, s: State, e: Event)
    requires Inv(s) && Enabled(p, s, Append(e))
    ensures Inv(s.(plog := s.plog + [e], txn := s.txn.(appended := true)))
  {
    hide Top, EventTop, MaxValues;
    SoundAppend(s, e);
    AheadAppend(s.nextOffset, s, e);
    if s.toBeFlushedOffset != 0 {
      AheadAppend(s.toBeFlushedOffset, s, e);
    }
    FlusherAppend(s, e);
    TxnAppend(s.txn.issued, s.inproc, s.nextOffset, s.plog, e, s.txn.wsKind, s.txn.wsid);
  }

  /** The numbers of this transaction cover its event, the unflushed ones everything before it. */
  lemma FlushCovers(s: State)
    requires Inv(s) && s.txn.Txn? && s.txn.appended
    ensures Covered(s.toBeFlushed + s.inproc, s.numbers, s.plog, s.nextOffset)
  {
    hide Top, EventTop;
    forall k ensures Layered(s.toBeFlushed + s.inproc, s.numbers, k) >= Top(s.plog, s.nextOffset, k) {
      TopNext(s.plog, s.nextOffset - 1, k);
      assert Layered(s.toBeFlushed, s.numbers, k) >= Top(s.plog, s.nextOffset - 1, k);
      EventTopBounds(s.plog[s.nextOffset - 1], k);
    }
  }

  lemma FlushKeepsCache(s: State)
    requires CacheInv(s.phase, s.cache, s.inproc, s.toBeFlushed, s.numbers)
    ensures CacheInv(s.phase, s.cache, map[], s.toBeFlushed + s.inproc, s.numbers)
  {
    hide Top, EventTop, MaxValues;
  }

  lemma FlushKeepsInv(s: State)
    requires Inv(s) && s.txn.Txn? && s.txn.appended
    ensures Inv(FlushStep(s))
  {
    hide Top, EventTop, MaxValues;
    FlushCovers(s);
    FlushKeepsCache(s);
    CoveredLess(s.toBeFlushed + s.inproc, s.numbers, s.plog, s.nextOffset, s.nextOffset - 1);
  }

  lemma ActualizeKeepsInv(s: State)
    requires Inv(s) && s.txn.Txn?
    ensures Inv(ActualizeStep(s))
  {
    hide Top, EventTop, MaxValues;
  }

  lemma FlusherTakeKeepsInv(s: State)
    requires Inv(s) && s.flusher.Idle?
    ensures Inv(FlusherTakeStep(s))
  {
    hide Top, EventTop, MaxValues;
  }

  /** Writing values that are all unflushed changes no layered number, and the storage now covers
      what the values covered. */
  lemma WriteBatchCovers(vs: map<Key, nat>, toBeFlushed: map<Key, nat>, numbers: map<Key, nat>, plog: seq<Event>, upto: int)
    requires vs.Keys <= toBeFlushed.Keys && Covered(vs, numbers, plog, upto)
    ensures forall k :: Layered(toBeFlushed, numbers + vs, k) == Layered(toBeFlushed, numbers, k)
    ensures Covered(vs, numbers + vs, plog, upto) && Covered(map[], numbers + vs, plog, upto)
  {
    hide Top, EventTop, MaxValues;
    assert forall k :: Layered(vs, numbers + vs, k) == Layered(vs, numbers, k);
    assert forall k :: Layered(map[], numbers + vs, k) == Layered(vs, numbers, k);
  }

  lemma LayersKeepAhead(offset: nat, toBeFlushed: map<Key, nat>, numbers: map<Key, nat>, numbers': map<Key, nat>, plog: seq<Event>, storedOffset: nat)
    requires Ahead(offset, toBeFlushed, plog, numbers, storedOffset)
    requires forall k :: Layered(toBeFlushed, numbers', k) == Layered(toBeFlushed, numbers, k)
    ensures Ahead(offset, toBeFlushed, plog, numbers', storedOffset)
  {
    hide Top, EventTop, MaxValues;
  }

  lemma WriteBatchKeepsInv(s: State, acked: bool)
    requires Inv(s) && (s.flusher.Copied? || s.flusher.BatchWritten?)
    ensures Inv(WriteBatchStep(s, acked))
  {
    hide Top, EventTop, MaxValues;
    var t := WriteBatchStep(s, acked);
    var vs := s.flusher.values;
    WriteBatchCovers(vs, s.toBeFlushed, s.numbers, s.plog, s.flusher.offset - 1);
    CoveredLess(map[], t.numbers, s.plog, s.flusher.offset - 1, s.storedOffset - 1);
    if s.toBeFlushedOffset != 0 {
      LayersKeepAhead(s.toBeFlushedOffset, s.toBeFlushed, s.numbers, t.numbers, s.plog, s.storedOffset);
    }
    if !s.phase.Stopping? {
      LayersKeepAhead(s.nextOffset, s.toBeFlushed, s.numbers, t.numbers, s.plog, s.storedOffset);
    }
  }

  lemma WriteOffsetKeepsInv(s: State, acked: bool)
    requires Inv(s) && s.flusher.BatchWritten?
    ensures Inv(WriteOffsetStep(s, acked))
  {
    hide Top, EventTop, MaxValues;
    assert forall k :: Layered(map[], s.numbers, k) == Layered(s.flusher.values, s.numbers, k);
  }

  lemma RemoveKeepsInv(s: State)
    requires Inv(s) && s.flusher.Written?
    ensures Inv(RemoveStep(s))
  {
    hide Top, EventTop, MaxValues;
    var t := RemoveStep(s);
    assert forall k :: Layered(t.toBeFlushed, t.numbers, k) == Layered(s.toBeFlushed, s.numbers, k);
  }

  lemma StopFlusherKeepsInv(s: State)
    requires Inv(s) && s.phase.Stopping? && s.flusher.Idle?
    ensures Inv(StopFlusherStep(s))
  {
    hide Top, EventTop, MaxValues;
  }

  /** Numbers rise, so overwriting with the largest numbers of one event keeps the cover. */
  lemma BatchCovers(plog: seq<Event>, o: nat, k: Key, last: nat)
    requires Rising(plog) && o < |plog| && last >= Top(plog, o, k)
    ensures k in MaxValues(plog[o]) ==> MaxValues(plog[o])[k] == Top(plog, o + 1, k) > 0
    ensures k !in MaxValues(plog[o]) ==> last >= Top(plog, o + 1, k)
  {
    hide Top, EventTop, MaxValues;
    var e := plog[o];
    TopNext(plog, o, k);
    MaxValuesIsTop(e, k);
    EventTopBounds(e, k);
    if k in MaxValues(e) {
      var v :| v in e && v.key == k;
      assert v in plog[o];
    }
  }

  lemma BatchCoversAll(toBeFlushed: map<Key, nat>, numbers: map<Key, nat>, plog: seq<Event>, o: nat)
    requires Rising(plog) && o < |plog| && Positive(toBeFlushed) && Covered(toBeFlushed, numbers, plog, o)
    ensures Covered(toBeFlushed + MaxValues(plog[o]), numbers, plog, o + 1)
    ensures Positive(toBeFlushed + MaxValues(plog[o]))
  {
    hide Top, EventTop, MaxValues;
    forall k
      ensures Layered(toBeFlushed + MaxValues(plog[o]), numbers, k) >= Top(plog, o + 1, k)
      ensures k in MaxValues(plog[o]) ==> MaxValues(plog[o])[k] >= 1
    {
      BatchCovers(plog, o, k, Layered(toBeFlushed, numbers, k));
    }
  }

  lemma AheadKeepsInv(s: State, m: map<Key, nat>)
    requires Inv(s) && s.phase.Scanning? && s.nextOffset <= |s.plog|
    requires Positive(s.toBeFlushed + m) && Covered(s.toBeFlushed + m, s.numbers, s.plog, s.nextOffset)
    ensures Inv(BatchOffsetStep(s).(toBeFlushed := s.toBeFlushed + m))
  {
    hide Top, EventTop, MaxValues;
  }

  lemma BatchKeepsInv(p: Params, s: State)
    requires Inv(s) && Enabled(p, s, Batch)
    ensures Inv(BatchStep(s))
  {
    hide Top, EventTop, MaxValues;
    BatchCoversAll(s.toBeFlushed, s.numbers, s.plog, s.nextOffset - 1);
    AheadKeepsInv(s, MaxValues(s.plog[s.nextOffset - 1]));
  }

  lemma StepKeepsInv(p: Params, s: State, a: Action)
    requires ValidParams(p) && Inv(s) && Enabled(p, s, a)
    ensures Inv(Step(p, s, a).0)
  {
    hide Top, EventTop, MaxValues;
    match a
    case Start(wsKind, wsid) => StartKeepsInv(p, s, wsKind, wsid);
    case Next(seqId) => NextKeepsInv(p, s, seqId);
    case Append(e) => AppendKeepsInv(p, s, e);
    case Flush => FlushKeepsInv(s);
    case Actualize => ActualizeKeepsInv(s);
    case FlusherTake => FlusherTakeKeepsInv(s);
    case FlusherWriteBatch(acked) => WriteBatchKeepsInv(s, acked);
    case FlusherWriteOffset(acked) => WriteOffsetKeepsInv(s, acked);
    case FlusherRemove => RemoveKeepsInv(s);
    case StopFlusher => StopFlusherKeepsInv(s);
    case Batch => BatchKeepsInv(p, s);
    case _ =>
  }

  lemma {:induction false} RunKeepsInv(p: Params, s: State, run: seq<Action>)
    requires ValidParams(p) && Inv(s) && ValidRun(p, s, run)
    ensures Inv(After(p, s, run))
    decreases |run|
  {
    hide Inv;
    if run != [] {
      StepKeepsInv(p, s, run[0]);
      RunKeepsInv(p, Step(p, s, run[0]).0, run[1..]);
    }
  }

  /** A run followed by one more step. */
  lemma {:induction false} RunStep(p: Params, s: State, run: seq<Action>, a: Action)
    requires ValidParams(p) && ValidRun(p, s, run) && Enabled(p, After(p, s, run), a)
    ensures ValidRun(p, s, run + [a])
    ensures After(p, s, run + [a]) == Step(p, After(p, s, run), a).0
    decreases |run|
  {
    if run != [] {
      RunStep(p, Step(p, s, run[0]).0, run[1..], a);
      assert (run + [a])[1..] == run[1..] + [a];
    } else {
      assert (run + [a])[1..] == [];
    }
  }
}
