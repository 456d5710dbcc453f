/** Recovery and flushing end: a transaction can start again. */
module SequencerLiveness {
  import opened Sequencer
  import opened SequencerTheorems
  import opened SequencerGap

  /** The steps of the flusher and the actualizer. */
  predicate Own(a: Action) {
    Background(a) || a.StopFlusher? || a.BatcherWait? || a.Batch? || a.FinishActualization?
  }

  ghost predicate OwnRun(run: seq<Action>) {
    forall a | a in run :: Own(a)
  }

  /** Unflushed numbers have an offset. */
  predicate HasOffset(s: State) {
    s.toBeFlushed != map[] ==> s.toBeFlushedOffset != 0
  }

  lemma StepKeepsOffset(p: Params, s: State, a: Action)
    requires ValidParams(p) && Inv(s) && HasOffset(s) && Enabled(p, s, a)
    ensures HasOffset(Step(p, s, a).0)
  {
    hide Sound, FlusherInv, UnflushedInv, CacheInv, IssuedAbove, MaxValues;
  }

  lemma {:induction false} RunKeepsOffset(p: Params, s: State, run: seq<Action>)
    requires ValidParams(p) && Inv(s) && HasOffset(s) && ValidRun(p, s, run)
    ensures HasOffset(After(p, s, run)) && Inv(After(p, s, run))
    decreases |run|
  {
    hide Inv, Step, Enabled, HasOffset;
    if run != [] {
      StepKeepsInv(p, s, run[0]);
      StepKeepsOffset(p, s, run[0]);
      RunKeepsOffset(p, Step(p, s, run[0]).0, run[1..]);
    }
  }

  lemma OwnStays(p: Params, s: State, a: Action)
    requires ValidParams(p) && Enabled(p, s, a) && Own(a)
    ensures Step(p, s, a).0.plog == s.plog && Step(p, s, a).0.txn == s.txn
  {
    hide MaxValues;
  }

  lemma {:induction false} OwnRunStays(p: Params, s: State, run: seq<Action>)
    requires ValidParams(p) && ValidRun(p, s, run) && OwnRun(run)
    ensures After(p, s, run).plog == s.plog && After(p, s, run).txn == s.txn
    decreases |run|
  {
    hide Step, Enabled, Own;
    if run != [] {
      assert run[0] in run && forall a | a in run[1..] :: a in run;
      OwnStays(p, s, run[0]);
      OwnRunStays(p, Step(p, s, run[0]).0, run[1..]);
    }
  }

  lemma OwnJoins(a: seq<Action>, b: seq<Action>)
    requires OwnRun(a) && OwnRun(b)
    ensures OwnRun(a + b)
  {
  }

  lemma BackgroundIsOwn(run: seq<Action>)
    requires InBackground(run)
    ensures OwnRun(run)
  {
  }

  /** No transaction is open and the flusher waits. */
  ghost predicate Calm(s: State) {
    Inv(s) && HasOffset(s) && s.txn.NoTxn? && s.flusher.Idle?
  }

  /** The result of some own steps. */
  ghost predicate Reaches(p: Params, s: State, run: seq<Action>, t: State)
    requires ValidParams(p)
  {
    ValidRun(p, s, run) && OwnRun(run) && After(p, s, run) == t && Calm(t)
  }

  lemma ReachesThen(p: Params, s: State, a: seq<Action>, t: State, b: seq<Action>, u: State)
    requires ValidParams(p) && Reaches(p, s, a, t) && Reaches(p, t, b, u)
    ensures Reaches(p, s, a + b, u)
  {
    RunBoth(p, s, a, b);
    OwnJoins(a, b);
    hide Calm, OwnRun, After, ValidRun;
  }

  lemma ReachesStep(p: Params, s: State, a: Action)
    requires ValidParams(p) && Calm(s) && Enabled(p, s, a) && Own(a) && !a.FlusherTake?
    ensures Reaches(p, s, [a], Step(p, s, a).0)
  {
    var t := Step(p, s, a).0;
    StepKeepsInv(p, s, a);
    StepKeepsOffset(p, s, a);
    OwnStays(p, s, a);
    assert t.flusher == s.flusher by { hide Inv, MaxValues; }
    NoSteps(p, t);
    RunFirst(p, s, a, []);
    assert [a] + [] == [a];
    hide Inv, Step, Enabled, HasOffset;
  }

  /** The flusher finishes what it began. */
  lemma BecomesCalm(p: Params, s: State) returns (run: seq<Action>, t: State)
    requires ValidParams(p) && Inv(s) && HasOffset(s) && s.txn.NoTxn?
    ensures Reaches(p, s, run, t) && t.phase == s.phase
  {
    InvFlusherHolds(s);
    run := FlusherFinishes(p, s);
    t := After(p, s, run);
    BackgroundIsOwn(run);
    OwnRunStays(p, s, run);
    RunKeepsOffset(p, s, run);
    BackgroundRunStays(p, s, run);
    hide Inv, ValidRun, OwnRun, HasOffset, InBackground;
  }

  /** With a signal everything is flushed. */
  lemma FlushesAll(p: Params, s: State) returns (run: seq<Action>, t: State)
    requires ValidParams(p) && Calm(s) && s.signal && s.toBeFlushedOffset != 0
    ensures Reaches(p, s, run, t) && t.toBeFlushed == map[] && t.phase == s.phase && t.nextOffset == s.nextOffset
  {
    var written := FlusherWrites(p, s);
    RunStep(p, s, written, FlusherRemove);
    run := written + [FlusherRemove];
    t := After(p, s, run);
    assert Unwritten(s.toBeFlushed, s.toBeFlushed) == map[];
    assert OwnRun([FlusherRemove]);
    BackgroundIsOwn(written);
    OwnJoins(written, [FlusherRemove]);
    OwnRunStays(p, s, run);
    RunKeepsOffset(p, s, run);
    hide Inv, ValidRun, OwnRun, After, InBackground, HasOffset;
  }

  lemma ScanBounds(s: State)
    requires Inv(s) && s.phase.Scanning?
    ensures 1 <= s.nextOffset <= |s.plog| + 1
  {
    hide Covered, Rising, FlusherInv, CacheInv, TxnInv;
  }

  lemma BatchScans(p: Params, s: State)
    requires ValidParams(p) && Enabled(p, s, Batch)
    ensures var t := Step(p, s, Batch).0; t.phase.Scanning? && t.nextOffset == s.nextOffset + 1
  {
    hide MaxValues;
  }

  /** batcher waits and signals if there is no room; then everything is flushed. */
  lemma MakesRoom(p: Params, s: State) returns (run: seq<Action>, t: State)
    requires ValidParams(p) && Calm(s) && s.phase.Scanning? && |s.toBeFlushed| >= p.maxUnflushed >= 1
    ensures Reaches(p, s, run, t) && t.phase.Scanning? && t.toBeFlushed == map[] && t.nextOffset == s.nextOffset
  {
    assert s.toBeFlushed != map[];
    ReachesStep(p, s, BatcherWait);
    var waiting := Step(p, s, BatcherWait).0;
    var rest;
    rest, t := FlushesAll(p, waiting);
    ReachesThen(p, s, [BatcherWait], waiting, rest, t);
    run := [BatcherWait] + rest;
    hide Inv, ValidRun, OwnRun, After;
  }

  /** The actualizer reads the PLog to its end. */
  lemma {:induction false} ScansToTheEnd(p: Params, s: State) returns (run: seq<Action>, t: State)
    requires ValidParams(p) && p.maxUnflushed >= 1 && Calm(s) && s.phase.Scanning?
    ensures Reaches(p, s, run, t) && t.phase.Ready?
    decreases (if s.nextOffset <= |s.plog| then |s.plog| + 1 - s.nextOffset else 0), |s.toBeFlushed|
  {
    ScanBounds(s);
    hide Inv, ValidRun, OwnRun, After, BatchStep;
    if s.nextOffset > |s.plog| {
      ReachesStep(p, s, FinishActualization);
      run, t := [FinishActualization], Step(p, s, FinishActualization).0;
    } else if |s.toBeFlushed| >= p.maxUnflushed {
      var first, u := MakesRoom(p, s);
      OwnRunStays(p, s, first);
      var rest;
      rest, t := ScansToTheEnd(p, u);
      ReachesThen(p, s, first, u, rest, t);
      run := first + rest;
    } else {
      BatchIsEnabled(p, s);
      BatchScans(p, s);
      OwnStays(p, s, Batch);
      ReachesStep(p, s, Batch);
      var u := Step(p, s, Batch).0;
      var rest;
      rest, t := ScansToTheEnd(p, u);
      ReachesThen(p, s, [Batch], u, rest, t);
      run := [Batch] + rest;
    }
  }

  /** An actualization, wherever it stands, is finished by the flusher and the actualizer alone. */
  lemma ActualizationEnds(p: Params, s: State) returns (run: seq<Action>, t: State)
    requires ValidParams(p) && p.maxUnflushed >= 1 && Inv(s) && HasOffset(s) && s.txn.NoTxn?
    ensures Reaches(p, s, run, t) && t.phase.Ready?
  {
    run, t := BecomesCalm(p, s);
    hide Inv, ValidRun, OwnRun, After, HasOffset;
    if t.phase.Stopping? {
      ReachesStep(p, t, StopFlusher);
      var u := Step(p, t, StopFlusher).0;
      ReachesThen(p, s, run, t, [StopFlusher], u);
      run, t := run + [StopFlusher], u;
    }
    if t.phase.Scanning? {
      var rest, u := ScansToTheEnd(p, t);
      ReachesThen(p, s, run, t, rest, u);
      run, t := run + rest, u;
    }
  }

  /** Start succeeds in a calm state with room. */
  predicate Accepts(p: Params, s: State, wsKind: nat, wsid: nat)
    requires ValidParams(p)
  {
    Enabled(p, s, Start(wsKind, wsid)) && Step(p, s, Start(wsKind, wsid)).1 == Offset(|s.plog| + 1)
  }

  lemma ReadyAccepts(p: Params, s: State, wsKind: nat, wsid: nat)
    requires ValidParams(p) && Calm(s) && s.phase.Ready? && wsKind in p.seqTypes
    ensures |s.toBeFlushed| <= p.maxUnflushed ==> Accepts(p, s, wsKind, wsid)
    ensures |s.toBeFlushed| > p.maxUnflushed ==>
      var (t, out) := Step(p, s, Start(wsKind, wsid));
      Enabled(p, s, Start(wsKind, wsid)) && out == Rejected && Calm(t) && t.signal && t.phase.Ready? && t.plog == s.plog && t.toBeFlushedOffset != 0
  {
    if |s.toBeFlushed| > p.maxUnflushed {
      assert s.toBeFlushed != map[];
      StepKeepsInv(p, s, Start(wsKind, wsid));
    }
    hide Sound, FlusherInv, UnflushedInv, CacheInv;
  }

  /** From every reachable state without an open transaction, in the middle of an actualization or with too many
      unflushed numbers, the flusher and the actualizer alone, after at most one rejected Start, lead to a state in
      which Start succeeds, with the offset after the last event. */
  lemma StartIsEventuallyAccepted(p: Params, s0: State, run: seq<Action>, wsKind: nat, wsid: nat)
    returns (first: seq<Action>, rejected: seq<Action>, second: seq<Action>)
    requires ValidParams(p) && Initial(s0) && ValidRun(p, s0, run) && p.maxUnflushed >= 1 && wsKind in p.seqTypes
    requires After(p, s0, run).txn.NoTxn?
    ensures OwnRun(first) && OwnRun(second) && (rejected == [] || rejected == [Start(wsKind, wsid)])
    ensures
      var s := After(p, s0, run);
      && ValidRun(p, s, first + rejected + second)
      && After(p, s, first + rejected + second).plog == s.plog
      && Accepts(p, After(p, s, first + rejected + second), wsKind, wsid)
  {
    InitialInv(s0);
    assert HasOffset(s0);
    RunKeepsOffset(p, s0, run);
    var s := After(p, s0, run);
    hide Initial, Inv, ValidRun, OwnRun, HasOffset, Accepts, Calm;
    var t;
    first, t := ActualizationEnds(p, s);
    ReachesIs(p, s, first, t);
    ReadyAccepts(p, t, wsKind, wsid);
    if |t.toBeFlushed| <= p.maxUnflushed {
      rejected, second := [], [];
      NothingMore();
      assert first + [] + [] == first;
    } else {
      rejected := [Start(wsKind, wsid)];
      var u := Step(p, t, Start(wsKind, wsid)).0;
      OneStep(p, t, Start(wsKind, wsid));
      var v;
      CalmIs(u);
      second, v := FlushesAll(p, u);
      ReachesIs(p, u, second, v);
      EmptyFits(v, p);
      ReadyAccepts(p, v, wsKind, wsid);
      RunBoth(p, t, rejected, second);
      RunBoth(p, s, first, rejected + second);
      assert first + (rejected + second) == first + rejected + second;
    }
  }

  lemma BlockedStep(p: Params, s: State, a: Action)
    requires ValidParams(p) && p.maxUnflushed == 0 && Enabled(p, s, a) && !a.Crash?
    requires s.phase.Scanning? && s.txn.NoTxn? && s.nextOffset <= |s.plog|
    ensures var t := Step(p, s, a).0; t.phase.Scanning? && t.txn.NoTxn? && t.nextOffset == s.nextOffset && t.plog == s.plog
  {
    hide MaxValues;
  }

  /** The limit must leave room for a number: with 0 an actualization that has an event to read never goes on. */
  lemma {:induction false} ZeroLimitBlocksActualization(p: Params, s: State, run: seq<Action>)
    requires ValidParams(p) && p.maxUnflushed == 0 && ValidRun(p, s, run) && forall a | a in run :: !a.Crash?
    requires s.phase.Scanning? && s.txn.NoTxn? && s.nextOffset <= |s.plog|
    ensures After(p, s, run).phase.Scanning? && After(p, s, run).nextOffset == s.nextOffset
    decreases |run|
  {
    hide Step, Enabled;
    if run != [] {
      assert run[0] in run && forall a | a in run[1..] :: a in run;
      BlockedStep(p, s, run[0]);
      ZeroLimitBlocksActualization(p, Step(p, s, run[0]).0, run[1..]);
    }
  }

  lemma NothingMore()
    ensures OwnRun([])
  {
  }

  lemma EmptyFits(s: State, p: Params)
    requires s.toBeFlushed == map[]
    ensures |s.toBeFlushed| <= p.maxUnflushed
  {
  }

  lemma CalmIs(s: State)
    ensures Calm(s) ==> s.txn.NoTxn?
  {
    hide Inv;
  }

  lemma ReachesIs(p: Params, s: State, run: seq<Action>, t: State)
    requires ValidParams(p) && Reaches(p, s, run, t)
    ensures ValidRun(p, s, run) && OwnRun(run) && After(p, s, run) == t && Calm(t) && t.plog == s.plog
  {
    OwnRunStays(p, s, run);
    hide Calm, OwnRun;
  }

  lemma OneStep(p: Params, s: State, a: Action)
    requires ValidParams(p) && Enabled(p, s, a)
    ensures ValidRun(p, s, [a]) && After(p, s, [a]) == Step(p, s, a).0
  {
    NoSteps(p, Step(p, s, a).0);
    RunFirst(p, s, a, []);
    assert [a] + [] == [a];
    hide Step, Enabled;
  }
}
