/** The gap between the two lock sections of batcher: what the flusher may do in it, exactly, and what Next
    does after a crash otherwise. */
module SequencerGap {
  import opened Sequencer
  import opened SequencerTheorems

  ghost predicate InBackground(run: seq<Action>) {
    forall a | a in run :: Background(a)
  }

  /** After these steps in the gap a crash finds a sound storage, and the second section of batcher leaves
      everything in order. */
  ghost predicate SafeAfter(p: Params, s: State, run: seq<Action>)
    requires ValidParams(p) && 1 <= s.nextOffset <= |s.plog| && ValidRun(p, BatchOffsetStep(s), run)
  {
    var t := After(p, BatchOffsetStep(s), run);
    && Sound(t.plog, t.numbers, t.storedOffset)
    && Inv(BatchValuesStep(t, s.plog[s.nextOffset - 1]))
  }

  /** So it is whatever the flusher does and the cache evicts in the gap. */
  ghost predicate GapIsSafe(p: Params, s: State)
    requires ValidParams(p) && 1 <= s.nextOffset <= |s.plog|
  {
    forall run | ValidRun(p, BatchOffsetStep(s), run) && InBackground(run) :: SafeAfter(p, s, run)
  }

  /** The event of the batch is covered already by the unflushed and the stored numbers. */
  ghost predicate CoveredAlready(s: State) {
    Covered(s.toBeFlushed, s.numbers, s.plog, s.nextOffset)
  }

  /* ---------- safe gaps ---------- */

  lemma BackgroundStays(p: Params, s: State, a: Action)
    requires ValidParams(p) && Enabled(p, s, a) && Background(a)
    ensures var t := Step(p, s, a).0;
      t.plog == s.plog && t.phase == s.phase && t.nextOffset == s.nextOffset && (t.signal ==> s.signal)
      && t.toBeFlushedOffset == s.toBeFlushedOffset
  {
  }

  lemma {:induction false} BackgroundRunStays(p: Params, s: State, run: seq<Action>)
    requires ValidParams(p) && ValidRun(p, s, run) && InBackground(run)
    ensures var t := After(p, s, run);
      t.plog == s.plog && t.phase == s.phase && t.nextOffset == s.nextOffset && t.toBeFlushedOffset == s.toBeFlushedOffset
    ensures !s.signal ==> forall a | a in run :: !a.FlusherTake?
    decreases |run|
  {
    hide Step;
    if run != [] {
      BackgroundStays(p, s, run[0]);
      BackgroundRunStays(p, Step(p, s, run[0]).0, run[1..]);
      assert run == [run[0]] + run[1..];
    }
  }

  lemma CoveredGapKeepsInv(p: Params, s: State)
    requires ValidParams(p) && Inv(s) && Enabled(p, s, Batch) && CoveredAlready(s)
    ensures Inv(BatchOffsetStep(s))
  {
    hide Top, EventTop, MaxValues;
    assert s.toBeFlushed + map[] == s.toBeFlushed;
    AheadKeepsInv(s, map[]);
  }

  /** The second section after a gap that kept the invariant. */
  lemma BatchAfterGap(t: State)
    requires Inv(t) && t.phase.Scanning? && t.toBeFlushedOffset == t.nextOffset && 2 <= t.nextOffset <= |t.plog| + 1
    ensures Inv(BatchValuesStep(t, t.plog[t.nextOffset - 2]))
  {
    hide Top, EventTop, MaxValues;
    CoveredLess(t.toBeFlushed, t.numbers, t.plog, t.nextOffset - 1, t.nextOffset - 2);
    BatchCoversAll(t.toBeFlushed, t.numbers, t.plog, t.nextOffset - 2);
  }

  lemma InvIsSound(s: State)
    requires Inv(s)
    ensures Sound(s.plog, s.numbers, s.storedOffset)
  {
    hide Sound;
  }

  lemma ShadowIsSound(s: State, b: nat)
    requires s.nextOffset >= 1 && Inv(Shadow(s, b))
    ensures Sound(s.plog, s.numbers, s.storedOffset)
  {
    hide Sound;
  }

  lemma MidIs(s: State)
    requires 1 <= s.nextOffset
    ensures var mid := BatchOffsetStep(s);
      mid.plog == s.plog && mid.phase == s.phase && mid.signal == s.signal && mid.flusher == s.flusher
      && mid.nextOffset == s.nextOffset + 1 == mid.toBeFlushedOffset
    ensures Shadow(BatchOffsetStep(s), s.toBeFlushedOffset) == s
  {
  }

  lemma SafeAfterIs(p: Params, s: State, run: seq<Action>)
    requires ValidParams(p) && 1 <= s.nextOffset <= |s.plog| && ValidRun(p, BatchOffsetStep(s), run)
    requires var t := After(p, BatchOffsetStep(s), run);
      Sound(t.plog, t.numbers, t.storedOffset) && Inv(BatchValuesStep(t, s.plog[s.nextOffset - 1]))
    ensures SafeAfter(p, s, run)
  {
    hide Sound, Inv, After, ValidRun, BatchOffsetStep, BatchValuesStep;
  }

  lemma CoveredRunIsSafe(p: Params, s: State, run: seq<Action>)
    requires ValidParams(p) && Inv(s) && Enabled(p, s, Batch) && CoveredAlready(s)
    requires ValidRun(p, BatchOffsetStep(s), run) && InBackground(run)
    ensures 1 <= s.nextOffset <= |s.plog| && SafeAfter(p, s, run)
  {
    hide *;
    var mid := BatchOffsetStep(s);
    BatchIsInside(p, s);
    MidIs(s);
    CoveredGapKeepsInv(p, s);
    RunKeepsInv(p, mid, run);
    BackgroundRunStays(p, mid, run);
    InvIsSound(After(p, mid, run));
    BatchAfterGap(After(p, mid, run));
    SafeAfterIs(p, s, run);
  }

  lemma QuietRunIsSafe(p: Params, s: State, run: seq<Action>)
    requires ValidParams(p) && Inv(s) && Enabled(p, s, Batch) && !s.signal
    requires ValidRun(p, BatchOffsetStep(s), run) && InBackground(run)
    ensures 1 <= s.nextOffset <= |s.plog| && SafeAfter(p, s, run)
  {
    var mid := BatchOffsetStep(s);
    assert forall a | a in run :: Background(a);
    hide *;
    BatchIsInside(p, s);
    MidIs(s);
    BackgroundRunStays(p, mid, run);
    SplitBatcherIsSafeUnlessFlushed(p, s, run);
    ShadowRun(p, mid, run, s.toBeFlushedOffset);
    ShadowIsSound(After(p, mid, run), s.toBeFlushedOffset);
    SafeAfterIs(p, s, run);
  }

  lemma BatchIsInside(p: Params, s: State)
    requires Enabled(p, s, Batch)
    ensures s.phase.Scanning? && 1 <= s.nextOffset <= |s.plog|
  {
  }

  /* ---------- the flusher in the gap ---------- */

  /** The flusher went on; the layers give what they gave. */
  ghost predicate SameLayers(s: State, t: State) {
    && t == s.(numbers := t.numbers, storedOffset := t.storedOffset, toBeFlushed := t.toBeFlushed, flusher := t.flusher)
    && forall k :: Layered(t.toBeFlushed, t.numbers, k) == Layered(s.toBeFlushed, s.numbers, k)
  }

  ghost predicate FlusherHolds(s: State) {
    match s.flusher
    case Idle => true
    case Copied(vs, _) => vs.Keys <= s.toBeFlushed.Keys
    case BatchWritten(vs, _) => vs.Keys <= s.toBeFlushed.Keys && Holds(s.numbers, vs)
    case Written(vs) => vs.Keys <= s.toBeFlushed.Keys && Holds(s.numbers, vs)
  }

  /** What the flusher does next in an iteration that it has begun. */
  function NextWrite(flusher: Flusher): Action
    requires !flusher.Idle?
  {
    match flusher
    case Copied(_, _) => FlusherWriteBatch(true)
    case BatchWritten(_, _) => FlusherWriteOffset(true)
    case Written(_) => FlusherRemove
  }

  function Remaining(flusher: Flusher): nat {
    match flusher case Idle => 0 case Copied(_, _) => 3 case BatchWritten(_, _) => 2 case Written(_) => 1
  }

  lemma WriteStepIs(p: Params, s: State)
    requires ValidParams(p) && FlusherHolds(s) && !s.flusher.Idle?
    ensures Enabled(p, s, NextWrite(s.flusher)) && Background(NextWrite(s.flusher))
    ensures var t := Step(p, s, NextWrite(s.flusher)).0;
      SameLayers(s, t) && FlusherHolds(t) && Remaining(t.flusher) < Remaining(s.flusher)
  {
    var a := NextWrite(s.flusher);
    WriterStepIs(p, s, a);
    hide Step;
  }

  lemma SameLayersTrans(s: State, t: State, u: State)
    requires SameLayers(s, t) && SameLayers(t, u)
    ensures SameLayers(s, u)
  {
  }

  lemma RunFirst(p: Params, s: State, a: Action, rest: seq<Action>)
    requires ValidParams(p) && Enabled(p, s, a) && ValidRun(p, Step(p, s, a).0, rest)
    ensures ValidRun(p, s, [a] + rest) && After(p, s, [a] + rest) == After(p, Step(p, s, a).0, rest)
    ensures Background(a) && InBackground(rest) ==> InBackground([a] + rest)
  {
    hide Step, Enabled;
    assert ([a] + rest)[1..] == rest;
  }

  lemma NoSteps(p: Params, s: State)
    requires ValidParams(p)
    ensures ValidRun(p, s, []) && After(p, s, []) == s && InBackground([]) && SameLayers(s, s)
  {
  }

  lemma {:induction false} FlusherFinishes(p: Params, s: State) returns (run: seq<Action>)
    requires ValidParams(p) && FlusherHolds(s)
    ensures ValidRun(p, s, run) && InBackground(run) && SameLayers(s, After(p, s, run)) && After(p, s, run).flusher.Idle?
    decreases Remaining(s.flusher)
  {
    hide *;
    if s.flusher.Idle? {
      NoSteps(p, s);
      run := [];
    } else {
      var a := NextWrite(s.flusher);
      WriteStepIs(p, s);
      var t := Step(p, s, a).0;
      var rest := FlusherFinishes(p, t);
      RunFirst(p, s, a, rest);
      SameLayersTrans(s, t, After(p, t, rest));
      run := [a] + rest;
    }
  }

  /** With a signal the flusher writes everything, and then the offset, which batcher has moved already. */
  lemma FlusherWrites(p: Params, s: State) returns (run: seq<Action>)
    requires ValidParams(p) && s.flusher.Idle? && s.signal && s.toBeFlushedOffset != 0
    ensures ValidRun(p, s, run) && InBackground(run)
    ensures After(p, s, run) == s.(signal := false, numbers := s.numbers + s.toBeFlushed, storedOffset := s.toBeFlushedOffset,
                                   flusher := Written(s.toBeFlushed))
  {
    run := [];
    RunStep(p, s, run, FlusherTake);
    run := run + [FlusherTake];
    RunStep(p, s, run, FlusherWriteBatch(true));
    run := run + [FlusherWriteBatch(true)];
    RunStep(p, s, run, FlusherWriteOffset(true));
    run := run + [FlusherWriteOffset(true)];
  }

  lemma RunSplit(p: Params, s: State, run: seq<Action>)
    requires ValidParams(p) && run != [] && ValidRun(p, s, run)
    ensures Enabled(p, s, run[0]) && ValidRun(p, Step(p, s, run[0]).0, run[1..])
    ensures After(p, s, run) == After(p, Step(p, s, run[0]).0, run[1..])
  {
    hide Step, Enabled;
  }

  lemma {:induction false} RunBoth(p: Params, s: State, a: seq<Action>, b: seq<Action>)
    requires ValidParams(p) && ValidRun(p, s, a) && ValidRun(p, After(p, s, a), b)
    ensures ValidRun(p, s, a + b) && After(p, s, a + b) == After(p, After(p, s, a), b)
    decreases |a|
  {
    hide *;
    if a == [] {
      NoSteps(p, s);
      assert a + b == b;
    } else {
      RunSplit(p, s, a);
      RunBoth(p, Step(p, s, a[0]).0, a[1..], b);
      RunFirst(p, s, a[0], a[1..] + b);
      assert [a[0]] + (a[1..] + b) == a + b;
    }
  }

  lemma InvFlusherHolds(s: State)
    requires Inv(s)
    ensures FlusherHolds(s)
  {
    hide Top, EventTop, MaxValues, Sound, CacheInv, TxnInv, UnflushedInv;
  }

  /** What is stored after the flusher wrote everything in the gap. */
  ghost predicate Overtaken(s: State, t: State) {
    && t.plog == s.plog && t.storedOffset == s.nextOffset + 1
    && forall k :: Layered(map[], t.numbers, k) == Layered(s.toBeFlushed, s.numbers, k)
  }

  lemma WrittenAll(s: State, t: State, u: State)
    requires 1 <= s.nextOffset && SameLayers(BatchOffsetStep(s), t)
    requires u == t.(signal := false, numbers := t.numbers + t.toBeFlushed, storedOffset := t.toBeFlushedOffset, flusher := Written(t.toBeFlushed))
    ensures Overtaken(s, u)
  {
    assert forall k :: Layered(map[], t.numbers + t.toBeFlushed, k) == Layered(t.toBeFlushed, t.numbers, k);
  }

  lemma SameLayersKeep(s: State, t: State)
    requires SameLayers(s, t)
    ensures t.signal == s.signal && t.toBeFlushedOffset == s.toBeFlushedOffset
  {
  }

  lemma MidHolds(s: State)
    requires Inv(s) && 1 <= s.nextOffset
    ensures FlusherHolds(BatchOffsetStep(s))
  {
    InvFlusherHolds(s);
    hide Inv;
  }

  lemma BothInBackground(a: seq<Action>, b: seq<Action>)
    requires InBackground(a) && InBackground(b)
    ensures InBackground(a + b)
  {
  }

  lemma FlusherOvertakes(p: Params, s: State) returns (run: seq<Action>)
    requires ValidParams(p) && Inv(s) && Enabled(p, s, Batch) && s.signal
    ensures ValidRun(p, BatchOffsetStep(s), run) && InBackground(run)
    ensures Overtaken(s, After(p, BatchOffsetStep(s), run))
  {
    hide *;
    var mid := BatchOffsetStep(s);
    BatchIsInside(p, s);
    MidIs(s);
    MidHolds(s);
    var first := FlusherFinishes(p, mid);
    var t := After(p, mid, first);
    SameLayersKeep(mid, t);
    var second := FlusherWrites(p, t);
    run := first + second;
    RunBoth(p, mid, first, second);
    BothInBackground(first, second);
    WrittenAll(s, t, After(p, mid, run));
  }

  lemma OvertakenIsSoundExactlyIf(s: State, t: State)
    requires Inv(s) && Overtaken(s, t)
    ensures Covered(map[], t.numbers, t.plog, t.storedOffset - 1) <==> CoveredAlready(s)
  {
    hide Top, EventTop, MaxValues, Inv;
  }

  lemma OvertakenIsUnsafe(p: Params, s: State, run: seq<Action>)
    requires ValidParams(p) && Inv(s) && 1 <= s.nextOffset <= |s.plog| && !CoveredAlready(s)
    requires ValidRun(p, BatchOffsetStep(s), run) && Overtaken(s, After(p, BatchOffsetStep(s), run))
    ensures !SafeAfter(p, s, run)
  {
    var t := After(p, BatchOffsetStep(s), run);
    OvertakenIsSoundExactlyIf(s, t);
    hide Inv, ValidRun, CoveredAlready, After, Covered;
  }

  lemma UnsafeRun(p: Params, s: State, run: seq<Action>)
    requires ValidParams(p) && 1 <= s.nextOffset <= |s.plog|
    requires ValidRun(p, BatchOffsetStep(s), run) && InBackground(run) && !SafeAfter(p, s, run)
    ensures !GapIsSafe(p, s)
  {
    hide ValidRun, InBackground, SafeAfter;
  }

  /** The gap is safe exactly if the flusher has no reason to copy in it, or the event is covered already. */
  lemma GapIsSafeExactlyIf(p: Params, s: State)
    requires ValidParams(p) && Inv(s) && Enabled(p, s, Batch)
    ensures 1 <= s.nextOffset <= |s.plog|
    ensures GapIsSafe(p, s) <==> !s.signal || CoveredAlready(s)
  {
    hide Inv, ValidRun, CoveredAlready, InBackground, SafeAfter, Step;
    BatchIsInside(p, s);
    if s.signal && !CoveredAlready(s) {
      var run := FlusherOvertakes(p, s);
      OvertakenIsUnsafe(p, s, run);
      UnsafeRun(p, s, run);
    } else {
      forall run | ValidRun(p, BatchOffsetStep(s), run) && InBackground(run) ensures SafeAfter(p, s, run) {
        if s.signal {
          CoveredRunIsSafe(p, s, run);
        } else {
          QuietRunIsSafe(p, s, run);
        }
      }
    }
  }

  /* ---------- Next after a crash in an unsafe gap ---------- */

  /** The actualizer scans, the flusher waits, and nothing unflushed holds the key. */
  ghost predicate ScansWithout(t: State, k: Key) {
    && t.phase.Scanning? && t.flusher.Idle? && t.txn.NoTxn? && t.cache == map[] && t.inproc == map[]
    && k !in t.toBeFlushed && (t.toBeFlushed != map[] ==> t.toBeFlushedOffset != 0)
    && 1 <= t.nextOffset <= |t.plog| + 1
  }

  ghost predicate SameNumber(s: State, t: State, k: Key) {
    t.plog == s.plog && (k in t.numbers <==> k in s.numbers) && (k in s.numbers ==> t.numbers[k] == s.numbers[k])
  }

  /** batcher waits until the flusher has written everything. */
  lemma FlushWhileScanning(p: Params, s: State, k: Key) returns (run: seq<Action>)
    requires ValidParams(p) && ScansWithout(s, k) && |s.toBeFlushed| >= p.maxUnflushed >= 1
    ensures ValidRun(p, s, run)
    ensures var t := After(p, s, run);
      ScansWithout(t, k) && SameNumber(s, t, k) && t.toBeFlushed == map[] && t.nextOffset == s.nextOffset
  {
    assert s.toBeFlushed != map[];
    NoSteps(p, s);
    RunStep(p, s, [], BatcherWait);
    var waiting := s.(signal := true);
    var written := FlusherWrites(p, waiting);
    assert [] + [BatcherWait] == [BatcherWait];
    RunBoth(p, s, [BatcherWait], written);
    RunStep(p, s, [BatcherWait] + written, FlusherRemove);
    run := [BatcherWait] + written + [FlusherRemove];
    assert Unwritten(s.toBeFlushed, s.toBeFlushed) == map[];
  }

  predicate Holding(e: Event, k: Key) {
    exists v | v in e :: v.key == k
  }

  lemma NotCollected(e: Event, k: Key)
    requires !Holding(e, k)
    ensures k !in MaxValues(e)
  {
    MaxValuesIsTop(e, k);
    hide MaxValues, EventTop;
  }

  lemma BatchIsEnabled(p: Params, s: State)
    requires s.phase.Scanning? && |s.toBeFlushed| < p.maxUnflushed && 1 <= s.nextOffset <= |s.plog|
    ensures Enabled(p, s, Batch)
  {
  }

  lemma StepOfBatch(p: Params, s: State)
    requires ValidParams(p) && Enabled(p, s, Batch)
    ensures 1 <= s.nextOffset <= |s.plog| && Step(p, s, Batch).0 == BatchStep(s)
  {
    hide BatchStep, ValidParams;
  }

  lemma BatchScansOn(s: State, k: Key)
    requires ScansWithout(s, k) && s.nextOffset <= |s.plog| && k !in MaxValues(s.plog[s.nextOffset - 1])
    ensures var t := BatchStep(s); ScansWithout(t, k) && SameNumber(s, t, k) && t.nextOffset == s.nextOffset + 1
  {
    hide MaxValues;
  }

  lemma BatchWithout(p: Params, s: State, k: Key)
    requires ValidParams(p) && ScansWithout(s, k) && |s.toBeFlushed| < p.maxUnflushed && s.nextOffset <= |s.plog|
    requires !Holding(s.plog[s.nextOffset - 1], k)
    ensures Enabled(p, s, Batch)
    ensures var t := Step(p, s, Batch).0; ScansWithout(t, k) && SameNumber(s, t, k) && t.nextOffset == s.nextOffset + 1
  {
    NotCollected(s.plog[s.nextOffset - 1], k);
    BatchIsEnabled(p, s);
    StepOfBatch(p, s);
    BatchScansOn(s, k);
    hide *;
  }

  lemma {:induction false} Rescan(p: Params, s: State, k: Key) returns (run: seq<Action>)
    requires ValidParams(p) && p.maxUnflushed >= 1 && ScansWithout(s, k)
    requires forall i | s.nextOffset - 1 <= i < |s.plog| :: !Holding(s.plog[i], k)
    ensures ValidRun(p, s, run)
    ensures var t := After(p, s, run);
      ScansWithout(t, k) && SameNumber(s, t, k) && t.nextOffset == |s.plog| + 1 && |t.toBeFlushed| < p.maxUnflushed
    decreases |s.plog| + 1 - s.nextOffset, |s.toBeFlushed|
  {
    hide ValidRun, After, Step, Enabled, Holding;
    NoSteps(p, s);
    if |s.toBeFlushed| >= p.maxUnflushed {
      var first := FlushWhileScanning(p, s, k);
      var t := After(p, s, first);
      var rest := Rescan(p, t, k);
      RunBoth(p, s, first, rest);
      run := first + rest;
    } else if s.nextOffset <= |s.plog| {
      BatchWithout(p, s, k);
      var t := Step(p, s, Batch).0;
      var rest := Rescan(p, t, k);
      RunFirst(p, s, Batch, rest);
      run := [Batch] + rest;
    } else {
      run := [];
    }
  }

  /** From the crash to the next transaction. */
  lemma Recover(p: Params, s: State, wsKind: nat, wsid: nat, k: Key) returns (run: seq<Action>)
    requires ValidParams(p) && p.maxUnflushed >= 1 && wsKind in p.seqTypes && 1 <= s.storedOffset <= |s.plog| + 1
    requires forall i | s.storedOffset - 1 <= i < |s.plog| :: !Holding(s.plog[i], k)
    ensures ValidRun(p, s, run)
    ensures var t := After(p, s, run);
      && t.phase.Ready? && t.txn == Txn(wsKind, wsid, {}, false) && t.cache == map[] && t.inproc == map[]
      && k !in t.toBeFlushed && SameNumber(s, t, k)
  {
    NoSteps(p, s);
    RunStep(p, s, [], Crash);
    RunStep(p, s, [] + [Crash], StopFlusher);
    var started := After(p, s, [] + [Crash] + [StopFlusher]);
    var scan := Rescan(p, started, k);
    RunBoth(p, s, [] + [Crash] + [StopFlusher], scan);
    run := [] + [Crash] + [StopFlusher] + scan;
    RunStep(p, s, run, FinishActualization);
    run := run + [FinishActualization];
    RunStep(p, s, run, Start(wsKind, wsid));
    run := run + [Start(wsKind, wsid)];
  }

  lemma InvWhileScanning(s: State)
    requires Inv(s) && s.phase.Scanning?
    ensures s.inproc == map[] && Positive(s.toBeFlushed) && Positive(s.numbers) && Rising(s.plog)
  {
    hide Top, EventTop, MaxValues;
  }

  lemma LastAfterCrash(s: State, t: State, u: State, k: Key, initial: nat)
    requires Inv(s) && s.phase.Scanning? && Overtaken(s, t) && SameNumber(t, u, k) && initial >= 1
    requires u.cache == map[] && u.inproc == map[] && k !in u.toBeFlushed
    ensures Last(u, k, initial) == LastUncached(s, k, initial)
  {
    InvWhileScanning(s);
    hide Inv;
    assert Layered(map[], t.numbers, k) == Layered(s.toBeFlushed, s.numbers, k);
  }

  lemma TopIsHeld(plog: seq<Event>, upto: nat, k: Key)
    requires upto <= |plog| && Top(plog, upto, k) > 0
    ensures exists i, v | 0 <= i < upto && v in plog[i] :: v == SeqValue(k, Top(plog, upto, k))
  {
    if Top(plog, upto - 1, k) == Top(plog, upto, k) {
      TopIsHeld(plog, upto - 1, k);
    } else {
      EventTopBounds(plog[upto - 1], k);
    }
  }

  /** In every state in which the gap is not safe because of some key that no later event holds: after the
      flusher wrote in the gap and a crash, Next answers for this key as before the batch, a number not
      above the numbers of the PLog, and the very number of the event if that was the next one. */
  lemma UnsafeGapRepeatsNumber(p: Params, s: State, wsKind: nat, seqId: nat, wsid: nat) returns (gap: seq<Action>, rest: seq<Action>)
    requires ValidParams(p) && Inv(s) && Enabled(p, s, Batch) && s.signal && p.maxUnflushed >= 1
    requires wsKind in p.seqTypes && seqId in p.seqTypes[wsKind]
    requires LastUncached(s, Key(wsid, seqId), p.seqTypes[wsKind][seqId]) < Top(s.plog, s.nextOffset, Key(wsid, seqId))
    requires forall i | s.nextOffset <= i < |s.plog| :: !Holding(s.plog[i], Key(wsid, seqId))
    ensures InBackground(gap) && ValidRun(p, BatchOffsetStep(s), gap + rest)
    ensures
      var k := Key(wsid, seqId);
      var number := LastUncached(s, k, p.seqTypes[wsKind][seqId]) + 1;
      var e := After(p, BatchOffsetStep(s), gap + rest);
      && e.plog == s.plog
      && Enabled(p, e, Next(seqId)) && Step(p, e, Next(seqId)).1 == Issued(SeqValue(k, number))
      && exists i, v | 0 <= i < s.nextOffset && v in s.plog[i] :: v.key == k && v.value >= number
  {
    var k := Key(wsid, seqId);
    BatchIsInside(p, s);
    hide Inv, ValidRun, After, Step, Holding, CoveredAlready, Top;
    gap := FlusherOvertakes(p, s);
    var t := After(p, BatchOffsetStep(s), gap);
    rest := Recover(p, t, wsKind, wsid, k);
    RunBoth(p, BatchOffsetStep(s), gap, rest);
    var e := After(p, t, rest);
    LastAfterCrash(s, t, e, k, p.seqTypes[wsKind][seqId]);
    NextAnswers(p, e, seqId);
    TopIsHeld(s.plog, s.nextOffset, k);
  }

  lemma NextAnswers(p: Params, s: State, seqId: nat)
    requires ValidParams(p) && s.txn.Txn? && s.txn.wsKind in p.seqTypes && seqId in p.seqTypes[s.txn.wsKind]
    ensures Enabled(p, s, Next(seqId))
    ensures var k := Key(s.txn.wsid, seqId);
      Step(p, s, Next(seqId)).1 == Issued(SeqValue(k, Last(s, k, p.seqTypes[s.txn.wsKind][seqId]) + 1))
  {
  }
}
