/** When the stored number of a key may drop. */
module SequencerNumbers {
  import opened Sequencer
  import opened SequencerTheorems

  function Num(m: map<Key, nat>, k: Key): nat {
    if k in m then m[k] else 0
  }

  /** From an offset on, every event that holds the key holds a number that is not below `n`. */
  ghost predicate From(plog: seq<Event>, offset: nat, k: Key, n: nat) {
    forall i | 0 <= i < |plog| && offset <= i + 1 :: EventTop(plog[i], k) == 0 || EventTop(plog[i], k) >= n
  }

  predicate Copying(f: Flusher) {
    f.Copied? || f.BatchWritten?
  }

  /** The storage has the copied number of the key, but not yet the offset that belongs to it. */
  predicate Torn(s: State, k: Key) {
    && Copying(s.flusher) && k in s.flusher.values && k in s.numbers
    && s.numbers[k] == s.flusher.values[k] && s.storedOffset != s.flusher.offset
  }

  /** Either a rescan from the stored offset finds no number below the stored one, or the offset is yet to be written. */
  ghost predicate StoredInv(s: State, k: Key) {
    From(s.plog, s.storedOffset, k, Num(s.numbers, k)) || Torn(s, k)
  }

  ghost predicate CopyInv(plog: seq<Event>, f: Flusher, stored: nat, unflushed: nat, k: Key) {
    Copying(f) && k in f.values ==>
      stored <= f.values[k] <= unflushed && From(plog, f.offset, k, f.values[k])
  }

  ghost predicate LayerInv(s: State, k: Key) {
    && (k in s.toBeFlushed ==> Num(s.numbers, k) <= s.toBeFlushed[k] && From(s.plog, s.toBeFlushedOffset, k, s.toBeFlushed[k]))
    && CopyInv(s.plog, s.flusher, Num(s.numbers, k), Num(s.toBeFlushed, k), k)
  }

  ghost predicate NewInv(s: State, k: Key) {
    && (k in s.inproc ==> s.inproc[k] >= Num(s.numbers, k) && s.inproc[k] >= Num(s.toBeFlushed, k))
    && (s.txn.Txn? ==> forall v | v in s.txn.issued && v.key == k :: v.value >= Num(s.numbers, k) && v.value >= Num(s.toBeFlushed, k))
  }

  ghost predicate NumberInv(s: State, k: Key) {
    StoredInv(s, k) && LayerInv(s, k) && NewInv(s, k)
  }

  /** A crash does not fall between number and offset, and an event that holds the key holds the last number
      that its transaction was given. */
  ghost predicate Orderly(s: State, a: Action, k: Key) {
    && (a.Crash? ==> !Torn(s, k))
    && (a.Flush? && s.plog != [] ==>
          var n := EventTop(s.plog[|s.plog| - 1], k); n == 0 || n >= Num(s.inproc, k))
  }

  /* ---------- every orderly step keeps the invariant ---------- */

  lemma NextKeepsNumbers(p: Params, s: State, seqId: nat, k: Key)
    requires ValidParams(p) && Inv(s) && NumberInv(s, k) && Enabled(p, s, Next(seqId))
    ensures NumberInv(NextStep(p, s, seqId).0, k)
  {
    hide From, Sound, FlusherInv, UnflushedInv, TxnInv;
  }

  lemma FromAppend(plog: seq<Event>, e: Event, offset: nat, k: Key, n: nat)
    requires From(plog, offset, k, n) && (EventTop(e, k) == 0 || EventTop(e, k) >= n)
    ensures From(plog + [e], offset, k, n)
  {
    hide EventTop;
  }

  lemma FromLater(plog: seq<Event>, offset: nat, later: nat, k: Key, n: nat)
    requires From(plog, offset, k, n) && offset <= later
    ensures From(plog, later, k, n)
  {
    hide EventTop;
  }

  /** An event holds numbers that its transaction was given, which are not below those of any layer. */
  lemma AppendedIsNotBelow(p: Params, s: State, e: Event, k: Key)
    requires ValidParams(p) && NewInv(s, k) && Enabled(p, s, Append(e))
    ensures var top := EventTop(e, k); top == 0 || (top >= Num(s.numbers, k) && top >= Num(s.toBeFlushed, k))
  {
    EventTopBounds(e, k);
    hide EventTop;
  }

  lemma SameTransaction(s: State, s': State, k: Key)
    requires NewInv(s, k) && s'.numbers == s.numbers && s'.toBeFlushed == s.toBeFlushed && s'.inproc == s.inproc
    requires s.txn.Txn? ==> s'.txn.Txn? && s'.txn.issued == s.txn.issued
    requires s.txn.NoTxn? ==> s'.txn.NoTxn? || s'.txn.issued == {}
    ensures NewInv(s', k)
  {
  }

  lemma AppendKeepsNumbers(p: Params, s: State, e: Event, k: Key)
    requires ValidParams(p) && Inv(s) && NumberInv(s, k) && Enabled(p, s, Append(e))
    ensures NumberInv(Step(p, s, Append(e)).0, k)
  {
    AppendedIsNotBelow(p, s, e, k);
    hide Inv, EventTop, NewInv, From;
    assert NewInv(Step(p, s, Append(e)).0, k) by { SameTransaction(s, Step(p, s, Append(e)).0, k); }
    if From(s.plog, s.storedOffset, k, Num(s.numbers, k)) {
      FromAppend(s.plog, e, s.storedOffset, k, Num(s.numbers, k));
    }
    if k in s.toBeFlushed {
      FromAppend(s.plog, e, s.toBeFlushedOffset, k, s.toBeFlushed[k]);
    }
    if Copying(s.flusher) && k in s.flusher.values {
      FromAppend(s.plog, e, s.flusher.offset, k, s.flusher.values[k]);
    }
    hide From;
  }

  lemma FlushKeepsNumbers(p: Params, s: State, k: Key)
    requires ValidParams(p) && Inv(s) && NumberInv(s, k) && Enabled(p, s, Flush) && Orderly(s, Flush, k)
    ensures NumberInv(FlushStep(s), k)
  {
    hide EventTop, Sound, FlusherInv, CacheInv, Ahead;
    if k !in s.inproc && k in s.toBeFlushed {
      FromLater(s.plog, s.toBeFlushedOffset, s.nextOffset, k, s.toBeFlushed[k]);
    }
  }

  lemma WriteBatchKeepsNumbers(s: State, acked: bool, k: Key)
    requires Inv(s) && NumberInv(s, k) && Copying(s.flusher)
    ensures NumberInv(WriteBatchStep(s, acked), k)
    ensures Num(WriteBatchStep(s, acked).numbers, k) >= Num(s.numbers, k)
  {
    hide From, Sound, UnflushedInv, CacheInv, TxnInv, Holds;
  }

  lemma WriteOffsetKeepsNumbers(s: State, acked: bool, k: Key)
    requires Inv(s) && NumberInv(s, k) && s.flusher.BatchWritten?
    ensures NumberInv(WriteOffsetStep(s, acked), k)
  {
    if !Torn(s, k) {
      FromLater(s.plog, s.storedOffset, s.flusher.offset, k, Num(s.numbers, k));
    }
    hide From, Sound, UnflushedInv, CacheInv, TxnInv;
  }

  lemma RemoveKeepsNumbers(s: State, k: Key)
    requires Inv(s) && NumberInv(s, k) && s.flusher.Written?
    ensures NumberInv(RemoveStep(s), k)
  {
    hide From, Inv;
  }

  /** The numbers of a key rise, so an event is below all later ones. */
  lemma EventIsBelowLater(plog: seq<Event>, i: nat, k: Key)
    requires Rising(plog) && i < |plog|
    ensures From(plog, i + 2, k, EventTop(plog[i], k))
  {
    hide EventTop, Top, Rising;
    forall j | 0 <= j < |plog| && i + 2 <= j + 1
      ensures EventTop(plog[j], k) == 0 || EventTop(plog[j], k) >= EventTop(plog[i], k)
    {
      EventIsAbove(plog, j, k);
      TopMonotone(plog, i + 1, j, k);
      TopNext(plog, i, k);
    }
  }

  lemma EventIsAbove(plog: seq<Event>, j: nat, k: Key)
    requires Rising(plog) && j < |plog|
    ensures EventTop(plog[j], k) == 0 || EventTop(plog[j], k) > Top(plog, j, k)
  {
    EventTopBounds(plog[j], k);
    hide EventTop, Top;
  }

  /** The next event of a rescan holds no smaller number than any layer. */
  lemma RescannedIsNotBelow(s: State, k: Key)
    requires Inv(s) && NumberInv(s, k) && s.phase.Scanning? && 1 <= s.nextOffset <= |s.plog|
    ensures var top := EventTop(s.plog[s.nextOffset - 1], k);
      top > 0 ==> Num(s.numbers, k) <= top && Num(s.toBeFlushed, k) <= top
  {
    hide EventTop, Sound, CacheInv, Covered, TxnInv;
  }

  /** The rescanned event replaces the unflushed number, if it holds the key. */
  lemma BatchedNumber(s: State, k: Key)
    requires Inv(s) && NumberInv(s, k) && s.phase.Scanning? && 1 <= s.nextOffset <= |s.plog|
    ensures var n := Num(BatchStep(s).toBeFlushed, k);
      && n >= Num(s.toBeFlushed, k)
      && (k in BatchStep(s).toBeFlushed ==> n >= Num(s.numbers, k) && From(s.plog, s.nextOffset + 1, k, n))
  {
    hide *;
    var e := s.plog[s.nextOffset - 1];
    UnflushedNumber(s, k);
    SoundRises(s);
    EventIsBelowLater(s.plog, s.nextOffset - 1, k);
    RescannedIsNotBelow(s, k);
    EventIsPositive(s, k);
    MergedNumber(s, k);
    MaxValuesIsTop(e, k);
  }

  lemma SoundRises(s: State)
    requires Inv(s)
    ensures Rising(s.plog)
  {
    hide Rising, FlusherInv, UnflushedInv, CacheInv, TxnInv;
  }

  lemma UnflushedNumber(s: State, k: Key)
    requires Inv(s) && NumberInv(s, k) && s.phase.Scanning?
    ensures k in s.toBeFlushed ==>
      Num(s.toBeFlushed, k) >= Num(s.numbers, k) && From(s.plog, s.nextOffset + 1, k, Num(s.toBeFlushed, k))
  {
    if k in s.toBeFlushed {
      FromLater(s.plog, s.toBeFlushedOffset, s.nextOffset + 1, k, s.toBeFlushed[k]);
    }
    hide EventTop, From, Sound, CacheInv, Ahead, FlusherInv, TxnInv;
  }

  lemma MergedNumber(s: State, k: Key)
    requires 1 <= s.nextOffset <= |s.plog|
    ensures var m := MaxValues(s.plog[s.nextOffset - 1]);
      && (k in BatchStep(s).toBeFlushed <==> k in s.toBeFlushed || k in m)
      && Num(BatchStep(s).toBeFlushed, k) == (if k in m then m[k] else Num(s.toBeFlushed, k))
      && (k !in s.toBeFlushed ==> Num(s.toBeFlushed, k) == 0)
  {
    hide MaxValues;
  }

  lemma BatchKeepsNumbers(s: State, k: Key)
    requires Inv(s) && NumberInv(s, k) && s.phase.Scanning? && 1 <= s.nextOffset <= |s.plog|
    ensures NumberInv(BatchStep(s), k)
  {
    BatchedNumber(s, k);
    hide MaxValues, From, Sound, CacheInv, FlusherInv, UnflushedInv, Num;
  }

  lemma EventIsPositive(s: State, k: Key)
    requires Inv(s) && 1 <= s.nextOffset <= |s.plog|
    ensures var e := s.plog[s.nextOffset - 1]; k in MaxValues(e) ==> MaxValues(e)[k] == EventTop(e, k) > 0
  {
    var e := s.plog[s.nextOffset - 1];
    MaxValuesIsTop(e, k);
    EventTopBounds(e, k);
    hide EventTop, MaxValues, CacheInv, FlusherInv, UnflushedInv, TxnInv;
  }

  lemma CallerKeepsNumbers(p: Params, s: State, a: Action, k: Key)
    requires ValidParams(p) && NumberInv(s, k) && Enabled(p, s, a)
    requires a.Start? || a.Actualize? || a.Evict? || a.BatcherWait? || a.FinishActualization?
    ensures NumberInv(Step(p, s, a).0, k)
  {
    hide From, LayerInv, StoredInv, NewInv;
    var s' := Step(p, s, a).0;
    assert NewInv(s', k) by {
      if a.Actualize? {
        ActualizedHasNothingNew(s, k);
      } else {
        SameTransaction(s, s', k);
      }
    }
    assert LayerInv(s', k) && StoredInv(s', k) by {
      SameLayers(s, s', k);
    }
  }

  lemma ActualizedHasNothingNew(s: State, k: Key)
    ensures NewInv(ActualizeStep(s), k)
  {
  }

  lemma SameLayers(s: State, s': State, k: Key)
    requires s'.plog == s.plog && s'.numbers == s.numbers && s'.storedOffset == s.storedOffset && s'.flusher == s.flusher
    requires s'.toBeFlushed == s.toBeFlushed && s'.toBeFlushedOffset == s.toBeFlushedOffset
    ensures LayerInv(s', k) == LayerInv(s, k) && StoredInv(s', k) == StoredInv(s, k)
  {
    hide From;
  }

  lemma TakeKeepsNumbers(s: State, k: Key)
    requires NumberInv(s, k) && s.flusher.Idle?
    ensures NumberInv(FlusherTakeStep(s), k)
  {
    hide From;
  }

  /** A new process, or a new flusher, starts from the stored numbers. */
  lemma ClearedKeepsNumbers(s: State, s': State, k: Key)
    requires NumberInv(s, k) && !Torn(s, k)
    requires s'.plog == s.plog && s'.numbers == s.numbers && s'.storedOffset == s.storedOffset
    requires s'.flusher.Idle? && s'.toBeFlushed == map[] && (s' == CrashStep(s) || s' == StopFlusherStep(s))
    ensures NumberInv(s', k)
  {
    hide From;
  }

  lemma NotTorn(s: State, k: Key)
    requires Orderly(s, Crash, k)
    ensures !Torn(s, k)
  {
  }

  lemma StepKeepsNumbers(p: Params, s: State, a: Action, k: Key)
    requires ValidParams(p) && Inv(s) && NumberInv(s, k) && Enabled(p, s, a) && Orderly(s, a, k)
    ensures NumberInv(Step(p, s, a).0, k)
  {
    hide NumberInv, Orderly, Inv;
    match a {
      case Next(seqId) => NextKeepsNumbers(p, s, seqId, k);
      case Append(e) => AppendKeepsNumbers(p, s, e, k);
      case Flush => FlushKeepsNumbers(p, s, k);
      case FlusherWriteBatch(acked) => WriteBatchKeepsNumbers(s, acked, k);
      case FlusherWriteOffset(acked) => WriteOffsetKeepsNumbers(s, acked, k);
      case FlusherRemove => RemoveKeepsNumbers(s, k);
      case Batch => BatchKeepsNumbers(s, k);
      case FlusherTake => TakeKeepsNumbers(s, k);
      case StopFlusher => ClearedKeepsNumbers(s, StopFlusherStep(s), k);
      case Crash =>
        NotTorn(s, k);
        ClearedKeepsNumbers(s, CrashStep(s), k);
      case _ => CallerKeepsNumbers(p, s, a, k);
    }
  }

  /* ---------- results ---------- */

  /** A stored number drops only when the flusher writes its copy, exactly if the copy holds a smaller one. */
  lemma StoredNumberDropsExactlyIf(p: Params, s: State, a: Action, k: Key)
    requires ValidParams(p) && Enabled(p, s, a)
    ensures Num(Step(p, s, a).0.numbers, k) < Num(s.numbers, k)
      <==> a.FlusherWriteBatch? && k in s.flusher.values && s.flusher.values[k] < Num(s.numbers, k)
  {
    hide LastUncached, MaxValues;
  }

  ghost predicate OrderlyRun(p: Params, s: State, run: seq<Action>, k: Key)
    requires ValidParams(p)
    decreases |run|
  {
    run == [] || (Enabled(p, s, run[0]) && Orderly(s, run[0], k) && OrderlyRun(p, Step(p, s, run[0]).0, run[1..], k))
  }

  lemma {:induction false} OrderlyRunKeepsNumbers(p: Params, s: State, run: seq<Action>, k: Key)
    requires ValidParams(p) && Inv(s) && NumberInv(s, k) && OrderlyRun(p, s, run, k)
    ensures ValidRun(p, s, run) && Inv(After(p, s, run)) && NumberInv(After(p, s, run), k)
    decreases |run|
  {
    hide Inv, NumberInv, Enabled, Step, Orderly;
    if run != [] {
      StepKeepsNumbers(p, s, run[0], k);
      StepKeepsInv(p, s, run[0]);
      OrderlyRunKeepsNumbers(p, Step(p, s, run[0]).0, run[1..], k);
    }
  }

  /** If no crash falls between the number of a key and its offset, and each event that holds the key holds
      the last number given out for it, then the stored number never drops: with any actualizations, other
      crashes, evictions and repeated storage calls. */
  lemma OrderlyNumberNeverDrops(p: Params, s0: State, run: seq<Action>, a: Action, k: Key)
    requires ValidParams(p) && Initial(s0) && From(s0.plog, s0.storedOffset, k, Num(s0.numbers, k))
    requires OrderlyRun(p, s0, run, k)
    ensures ValidRun(p, s0, run)
    ensures var s := After(p, s0, run); Enabled(p, s, a) ==> Num(Step(p, s, a).0.numbers, k) >= Num(s.numbers, k)
  {
    InitialInv(s0);
    assert NumberInv(s0, k) by { hide From, Inv; }
    OrderlyRunKeepsNumbers(p, s0, run, k);
    var s := After(p, s0, run);
    if Enabled(p, s, a) {
      StoredNumberDropsExactlyIf(p, s, a, k);
    }
    hide From, Inv, Initial, Step;
  }

  /* ---------- both conditions are needed ---------- */

  /** A transaction is given two numbers and its event holds the first. */
  lemma IncompleteEvent() returns (run: seq<Action>)
    ensures ValidParams(TINY) && Initial(EmptyLog()) && ValidRun(TINY, EmptyLog(), run)
    ensures Crash !in run
    ensures After(TINY, EmptyLog(), run) ==
      EmptyLog().(plog := [[SeqValue(K, 1)]], phase := Ready, cache := map[K := 2], toBeFlushed := map[K := 2],
                  toBeFlushedOffset := 1, nextOffset := 2, signal := true)
  {
    var p, s0 := TINY, EmptyLog();
    run := FirstNumber();
    RunStep(p, s0, run, Next(1));
    run := run + [Next(1)];
    RunStep(p, s0, run, Append([SeqValue(K, 1)]));
    run := run + [Append([SeqValue(K, 1)])];
    RunStep(p, s0, run, Flush);
    run := run + [Flush];
    assert After(p, s0, run).toBeFlushed == map[K := 2];
  }

  lemma IncompleteEventFlushed() returns (run: seq<Action>)
    ensures ValidParams(TINY) && Initial(EmptyLog()) && ValidRun(TINY, EmptyLog(), run)
    ensures Crash !in run
    ensures After(TINY, EmptyLog(), run) ==
      EmptyLog().(plog := [[SeqValue(K, 1)]], phase := Ready, cache := map[K := 2], numbers := map[K := 2],
                  toBeFlushedOffset := 1, nextOffset := 2)
  {
    var p, s0 := TINY, EmptyLog();
    run := IncompleteEvent();
    RunStep(p, s0, run, FlusherTake);
    run := run + [FlusherTake];
    RunStep(p, s0, run, FlusherWriteBatch(true));
    run := run + [FlusherWriteBatch(true)];
    RunStep(p, s0, run, FlusherWriteOffset(true));
    run := run + [FlusherWriteOffset(true)];
    RunStep(p, s0, run, FlusherRemove);
    run := run + [FlusherRemove];
  }

  lemma IncompleteEventRescanned() returns (run: seq<Action>)
    ensures ValidParams(TINY) && Initial(EmptyLog()) && ValidRun(TINY, EmptyLog(), run)
    ensures Crash !in run
    ensures After(TINY, EmptyLog(), run) ==
      EmptyLog().(plog := [[SeqValue(K, 1)]], phase := Scanning, numbers := map[K := 2], toBeFlushed := map[K := 1],
                  toBeFlushedOffset := 2, nextOffset := 2)
  {
    var p, s0 := TINY, EmptyLog();
    run := IncompleteEventFlushed();
    RunStep(p, s0, run, Start(1, 7));
    run := run + [Start(1, 7)];
    RunStep(p, s0, run, Actualize);
    run := run + [Actualize];
    RunStep(p, s0, run, StopFlusher);
    run := run + [StopFlusher];
    var e := [SeqValue(K, 1)];
    assert e[..0] == [] && MaxValues(e) == map[K := 1];
    RunStep(p, s0, run, Batch);
    run := run + [Batch];
    assert After(p, s0, run).toBeFlushed == map[K := 1];
  }

  /** Without any crash: a transaction is given 1 and 2, its event holds 1, and an actualization that
      rescans this event writes 1 over 2. */
  lemma IncompleteEventDropsNumber() returns (run: seq<Action>)
    ensures ValidParams(TINY) && Initial(EmptyLog()) && ValidRun(TINY, EmptyLog(), run)
    ensures Crash !in run
    ensures
      var s := After(TINY, EmptyLog(), run);
      && Enabled(TINY, s, FlusherWriteBatch(true))
      && Num(s.numbers, K) == 2
      && Num(Step(TINY, s, FlusherWriteBatch(true)).0.numbers, K) == 1
  {
    var p, s0 := TINY, EmptyLog();
    run := IncompleteEventRescanned();
    RunStep(p, s0, run, BatcherWait);
    run := run + [BatcherWait];
    RunStep(p, s0, run, FlusherTake);
    run := run + [FlusherTake];
  }
}
