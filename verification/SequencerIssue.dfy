/** Which numbers Next issues: the initial one first, then one after the other. */
module SequencerIssue {
  import opened Sequencer
  import opened SequencerTheorems

  /** The numbers that a run issues for a key, in order. */
  function NumberOf(out: Output, k: Key): seq<nat> {
    if out.Issued? && out.value.key == k then [out.value.value] else []
  }

  ghost function IssuedIn(p: Params, s: State, run: seq<Action>, k: Key): seq<nat>
    requires ValidParams(p) && ValidRun(p, s, run)
    decreases |run|
  {
    if run == [] then []
    else NumberOf(Step(p, s, run[0]).1, k) + IssuedIn(p, Step(p, s, run[0]).0, run[1..], k)
  }

  /* ---------- where numbers come from ---------- */

  /** All numbers of the key are in `known`: those of each layer, of the transaction and of the PLog. */
  ghost predicate MapWithin(m: map<Key, nat>, k: Key, known: iset<nat>) {
    k in m ==> m[k] in known
  }

  ghost predicate LogWithin(plog: seq<Event>, k: Key, known: iset<nat>) {
    forall i, v | 0 <= i < |plog| && v in plog[i] && v.key == k :: v.value in known
  }

  ghost predicate FlusherWithin(f: Flusher, k: Key, known: iset<nat>) {
    !f.Idle? ==> MapWithin(f.values, k, known)
  }

  ghost predicate TxnWithin(txn: Txn, k: Key, known: iset<nat>) {
    txn.Txn? ==> forall v | v in txn.issued && v.key == k :: v.value in known
  }

  ghost predicate Within(s: State, k: Key, known: iset<nat>) {
    && MapWithin(s.numbers, k, known) && MapWithin(s.toBeFlushed, k, known)
    && MapWithin(s.inproc, k, known) && MapWithin(s.cache, k, known)
    && LogWithin(s.plog, k, known) && FlusherWithin(s.flusher, k, known) && TxnWithin(s.txn, k, known)
  }

  ghost function Known(numbers: seq<nat>): iset<nat> {
    iset n: nat | n in numbers
  }

  lemma LogAppendWithin(plog: seq<Event>, e: Event, k: Key, known: iset<nat>)
    requires LogWithin(plog, k, known) && forall v | v in e && v.key == k :: v.value in known
    ensures LogWithin(plog + [e], k, known)
  {
  }

  lemma LogWithinMore(plog: seq<Event>, k: Key, known: iset<nat>, more: iset<nat>)
    requires LogWithin(plog, k, known)
    ensures LogWithin(plog, k, known + more)
  {
  }

  lemma BatchWithin(s: State, k: Key, known: iset<nat>)
    requires Within(s, k, known) && 1 <= s.nextOffset <= |s.plog|
    ensures Within(BatchStep(s), k, known)
  {
    var e := s.plog[s.nextOffset - 1];
    MaxValuesIsTop(e, k);
    EventTopBounds(e, k);
    hide MaxValues, EventTop;
    if k in MaxValues(e) && EventTop(e, k) == 0 {
      var v :| v in e && v.key == k;
      assert v == SeqValue(k, 0);
    }
  }

  lemma NextWithin(p: Params, s: State, seqId: nat, k: Key, known: iset<nat>)
    requires ValidParams(p) && Enabled(p, s, Next(seqId)) && Within(s, k, known)
    ensures var (t, out) := NextStep(p, s, seqId); Within(t, k, known + Known(NumberOf(out, k)))
  {
    var (t, out) := NextStep(p, s, seqId);
    LogWithinMore(s.plog, k, known, Known(NumberOf(out, k)));
    hide LogWithin, Last;
  }

  lemma OtherWithin(p: Params, s: State, a: Action, k: Key, known: iset<nat>)
    requires ValidParams(p) && Enabled(p, s, a) && Within(s, k, known) && !a.Next? && !a.Batch? && !a.Append?
    ensures Within(Step(p, s, a).0, k, known)
  {
    hide LogWithin;
  }

  lemma StepWithin(p: Params, s: State, a: Action, k: Key, known: iset<nat>)
    requires ValidParams(p) && Enabled(p, s, a) && Within(s, k, known)
    ensures var (t, out) := Step(p, s, a); Within(t, k, known + Known(NumberOf(out, k)))
  {
    var (t, out) := Step(p, s, a);
    hide Within, LogWithin;
    if a.Next? {
      NextWithin(p, s, a.seqId, k, known);
    } else {
      assert known + Known(NumberOf(out, k)) == known by { hide *; NothingIssued(p, s, a, k); }
      if a.Batch? {
        BatchWithin(s, k, known);
      } else if a.Append? {
        AppendWithin(s, a.event, k, known);
      } else {
        OtherWithin(p, s, a, k, known);
      }
    }
    hide MaxValues;
  }

  lemma NothingIssued(p: Params, s: State, a: Action, k: Key)
    requires ValidParams(p) && Enabled(p, s, a) && !a.Next?
    ensures NumberOf(Step(p, s, a).1, k) == [] && Known([]) == iset{}
  {
    hide MaxValues;
  }

  lemma AppendWithin(s: State, e: Event, k: Key, known: iset<nat>)
    requires Within(s, k, known) && s.txn.Txn? && forall v | v in e :: v in s.txn.issued
    ensures Within(s.(plog := s.plog + [e], txn := s.txn.(appended := true)), k, known)
  {
    LogAppendWithin(s.plog, e, k, known);
    hide LogWithin;
  }

  lemma KnownJoins(known: iset<nat>, a: seq<nat>, b: seq<nat>)
    ensures known + Known(a) + Known(b) == known + Known(a + b)
  {
  }

  lemma {:induction false} RunWithin(p: Params, s: State, run: seq<Action>, k: Key, known: iset<nat>)
    requires ValidParams(p) && ValidRun(p, s, run) && Within(s, k, known)
    ensures Within(After(p, s, run), k, known + Known(IssuedIn(p, s, run, k)))
    decreases |run|
  {
    hide Within, Step, Enabled, Known;
    if run == [] {
      NoneKnown(known);
    } else {
      var (t, out) := Step(p, s, run[0]);
      StepWithin(p, s, run[0], k, known);
      RunWithin(p, t, run[1..], k, known + Known(NumberOf(out, k)));
      KnownJoins(known, NumberOf(out, k), IssuedIn(p, t, run[1..], k));
    }
  }

  lemma NoneKnown(known: iset<nat>)
    ensures known + Known([]) == known
  {
  }

  /** What a number comes from: of the key's own layers, the first that has one. */
  lemma NextIssues(p: Params, s: State, seqId: nat, known: iset<nat>)
    requires ValidParams(p) && Enabled(p, s, Next(seqId)) && seqId in p.seqTypes[s.txn.wsKind]
    requires Within(s, Key(s.txn.wsid, seqId), known)
    ensures
      var k := Key(s.txn.wsid, seqId);
      var out := Step(p, s, Next(seqId)).1;
      && out.Issued? && out.value.key == k
      && (out.value.value == p.seqTypes[s.txn.wsKind][seqId] || (out.value.value >= 1 && out.value.value - 1 in known))
  {
    hide LogWithin, TxnWithin, FlusherWithin;
  }

  /** What the key has in the storage and in the PLog. */
  ghost function Had(s: State, k: Key): iset<nat> {
    Known(if k in s.numbers then [s.numbers[k]] else [])
    + (iset n: nat | exists i :: 0 <= i < |s.plog| && SeqValue(k, n) in s.plog[i])
  }

  /** What the key had at the beginning, and what was issued since. */
  ghost function Numbers(p: Params, s0: State, run: seq<Action>, k: Key): iset<nat>
    requires ValidParams(p) && ValidRun(p, s0, run)
  {
    Had(s0, k) + Known(IssuedIn(p, s0, run, k))
  }

  lemma HadIsAll(s0: State, k: Key)
    requires Initial(s0)
    ensures Within(s0, k, Had(s0, k))
  {
    assert forall i, v | 0 <= i < |s0.plog| && v in s0.plog[i] && v.key == k :: SeqValue(k, v.value) in s0.plog[i];
    hide Sound;
  }

  /** Over every run, with crashes and actualizations anywhere, Next issues the initial number of the sequence
      or the successor of a number that the key had at the beginning or was issued since; if there is none,
      it is the initial number. */
  lemma NumberIsInitialOrSuccessor(p: Params, s0: State, run: seq<Action>, seqId: nat)
    requires ValidParams(p) && Initial(s0) && ValidRun(p, s0, run)
    requires var s := After(p, s0, run); Enabled(p, s, Next(seqId)) && seqId in p.seqTypes[s.txn.wsKind]
    ensures
      var s := After(p, s0, run);
      var k := Key(s.txn.wsid, seqId);
      var initial := p.seqTypes[s.txn.wsKind][seqId];
      exists n: nat ::
        && Step(p, s, Next(seqId)).1 == Issued(SeqValue(k, n))
        && (n == initial || (n >= 1 && n - 1 in Numbers(p, s0, run, k)))
        && (Numbers(p, s0, run, k) == iset{} ==> n == initial)
  {
    var s := After(p, s0, run);
    var k := Key(s.txn.wsid, seqId);
    HadIsAll(s0, k);
    RunWithin(p, s0, run, k, Had(s0, k));
    NextIssues(p, s, seqId, Numbers(p, s0, run, k));
    var n := Step(p, s, Next(seqId)).1.value.value;
    assert Step(p, s, Next(seqId)).1 == Issued(SeqValue(k, n));
    hide *;
  }

  /* ---------- consecutive numbers ---------- */

  /** The last number of the key, 0 if it has none. */
  function Current(s: State, k: Key): nat {
    if k in s.inproc then s.inproc[k] else Layered(s.toBeFlushed, s.numbers, k)
  }

  predicate Undisturbed(a: Action) {
    !a.Crash? && !a.Actualize?
  }

  /** An actualization is over, or the key has no number that it could bring back. */
  ghost predicate Settled(s: State, k: Key) {
    s.phase.Ready? || Within(s, k, iset{})
  }

  lemma NextContinues(p: Params, s: State, seqId: nat)
    requires ValidParams(p) && Inv(s) && Enabled(p, s, Next(seqId)) && seqId in p.seqTypes[s.txn.wsKind]
    ensures
      var k := Key(s.txn.wsid, seqId);
      var n := if Current(s, k) == 0 then p.seqTypes[s.txn.wsKind][seqId] else Current(s, k) + 1;
      var (t, out) := Step(p, s, Next(seqId));
      && out == Issued(SeqValue(k, n)) && Current(t, k) == n
      && forall other | other != k :: Current(t, other) == Current(s, other)
  {
    hide Sound, FlusherInv, Ahead, TxnInv;
  }

  lemma WriteBatchKeepsCurrent(s: State, acked: bool, k: Key)
    requires Inv(s) && (s.flusher.Copied? || s.flusher.BatchWritten?)
    ensures Current(WriteBatchStep(s, acked), k) == Current(s, k)
  {
    hide Sound, UnflushedInv, CacheInv, TxnInv, Holds, Covered;
  }

  lemma RemoveKeepsCurrent(s: State, k: Key)
    requires Inv(s) && s.flusher.Written?
    ensures Current(RemoveStep(s), k) == Current(s, k)
  {
    RemoveKeepsLayers(s.toBeFlushed, s.numbers, s.flusher.values, k);
    hide Sound, UnflushedInv, CacheInv, TxnInv, Covered, Unwritten;
  }

  lemma OtherKeepsCurrent(p: Params, s: State, a: Action, k: Key)
    requires ValidParams(p) && Inv(s) && Enabled(p, s, a) && Undisturbed(a)
    requires !a.Next? && !a.FlusherWriteBatch? && !a.FlusherRemove? && !a.StopFlusher? && !a.Batch?
    ensures Current(Step(p, s, a).0, k) == Current(s, k)
  {
    if a.Flush? {
      FlushKeepsCurrent(s, k);
    } else {
      OtherKeepsLayers(p, s, a);
    }
    hide *;
  }

  lemma FlushKeepsCurrent(s: State, k: Key)
    requires s.txn.Txn?
    ensures Current(FlushStep(s), k) == Current(s, k)
  {
  }

  lemma OtherKeepsLayers(p: Params, s: State, a: Action)
    requires ValidParams(p) && Enabled(p, s, a) && Undisturbed(a)
    requires !a.Next? && !a.Flush? && !a.FlusherWriteBatch? && !a.FlusherRemove? && !a.StopFlusher? && !a.Batch?
    ensures var t := Step(p, s, a).0; t.inproc == s.inproc && t.toBeFlushed == s.toBeFlushed && t.numbers == s.numbers
  {
    hide MaxValues, Unwritten, Last, LastUncached;
    match a
    case Start(kind, wsid) => assert StartStep(p, s, kind, wsid).0.numbers == s.numbers;
    case _ =>
  }

  lemma NowhereIsZero(s: State, k: Key)
    requires Within(s, k, iset{})
    ensures Current(s, k) == 0
  {
    hide LogWithin, TxnWithin;
  }

  lemma OtherStepKeepsCurrent(p: Params, s: State, a: Action, k: Key)
    requires ValidParams(p) && Inv(s) && Enabled(p, s, a) && Undisturbed(a) && Settled(s, k) && !a.Next?
    ensures Current(Step(p, s, a).0, k) == Current(s, k)
    ensures Settled(Step(p, s, a).0, k)
  {
    hide Inv, Within, Current;
    match a {
      case FlusherWriteBatch(acked) => WriteBatchKeepsCurrent(s, acked, k);
      case FlusherRemove => RemoveKeepsCurrent(s, k);
      case StopFlusher => NowhereStays(p, s, a, k);
      case Batch => NowhereStays(p, s, a, k);
      case _ => OtherKeepsCurrent(p, s, a, k);
    }
    if !s.phase.Ready? {
      NowhereStays(p, s, a, k);
    }
    hide MaxValues;
  }

  lemma NowhereStays(p: Params, s: State, a: Action, k: Key)
    requires ValidParams(p) && Enabled(p, s, a) && !a.Next? && Within(s, k, iset{})
    ensures Within(Step(p, s, a).0, k, iset{}) && Current(s, k) == 0 == Current(Step(p, s, a).0, k)
  {
    hide *;
    NothingIssued(p, s, a, k);
    NoneKnown(iset{});
    StepWithin(p, s, a, k, iset{});
    NowhereIsZero(s, k);
    NowhereIsZero(Step(p, s, a).0, k);
  }

  /** A step issues nothing for the key, or its next number. */
  lemma StepContinues(p: Params, s: State, a: Action, k: Key)
    requires ValidParams(p) && Inv(s) && Enabled(p, s, a) && Undisturbed(a) && Settled(s, k)
    ensures var (t, out) := Step(p, s, a);
      && Settled(t, k)
      && (NumberOf(out, k) == [] ==> Current(t, k) == Current(s, k))
      && (NumberOf(out, k) != [] ==>
            && NumberOf(out, k) == [Current(t, k)] && Current(t, k) >= 1
            && (Current(s, k) != 0 ==> Current(t, k) == Current(s, k) + 1)
            && (Current(s, k) == 0 ==> IsInitial(p, k.seqId, Current(t, k))))
  {
    var (t, out) := Step(p, s, a);
    if a.Next? {
      NextStaysReady(p, s, a.seqId, k);
      if a.seqId in p.seqTypes[s.txn.wsKind] {
        NextContinues(p, s, a.seqId);
      }
    } else {
      OtherStepKeepsCurrent(p, s, a, k);
      NothingIssued(p, s, a, k);
    }
    hide Inv, Within, Current, Step, Settled;
  }

  lemma NextStaysReady(p: Params, s: State, seqId: nat, k: Key)
    requires ValidParams(p) && Inv(s) && Enabled(p, s, Next(seqId))
    ensures Settled(Step(p, s, Next(seqId)).0, k)
    ensures seqId !in p.seqTypes[s.txn.wsKind] ==> Step(p, s, Next(seqId)) == (s, UnknownSeqId)
  {
    hide Within, Sound, FlusherInv, UnflushedInv, CacheInv, IssuedAbove;
  }

  ghost predicate IsInitial(p: Params, seqId: nat, n: nat) {
    exists kind :: kind in p.seqTypes && seqId in p.seqTypes[kind] && p.seqTypes[kind][seqId] == n
  }

  /** The numbers that follow `last`, the first being an initial one if there is no last. */
  ghost predicate Follow(p: Params, seqId: nat, last: nat, numbers: seq<nat>) {
    && (forall i | 0 <= i < |numbers| :: numbers[i] == numbers[0] + i)
    && (numbers != [] ==> if last == 0 then IsInitial(p, seqId, numbers[0]) else numbers[0] == last + 1)
  }

  lemma FollowStep(p: Params, seqId: nat, last: nat, n: nat, rest: seq<nat>)
    requires ValidParams(p) && n >= 1 && Follow(p, seqId, n, rest)
    requires if last == 0 then IsInitial(p, seqId, n) else n == last + 1
    ensures Follow(p, seqId, last, [n] + rest)
  {
    hide IsInitial;
  }

  /** From any reachable state without an actualization going on, or with a new key, and until the next crash
      or actualization, the numbers issued for a key are consecutive: with flushes, evictions and any other
      transactions between. */
  lemma {:induction false} NumbersAreConsecutive(p: Params, s: State, run: seq<Action>, k: Key)
    requires ValidParams(p) && Inv(s) && Settled(s, k) && ValidRun(p, s, run)
    requires forall a | a in run :: Undisturbed(a)
    ensures Follow(p, k.seqId, Current(s, k), IssuedIn(p, s, run, k))
    ensures Inv(After(p, s, run)) && Settled(After(p, s, run), k)
    ensures var issued := IssuedIn(p, s, run, k);
      Current(After(p, s, run), k) == if issued == [] then Current(s, k) else issued[|issued| - 1]
    decreases |run|
  {
    hide Inv, Settled, Step, Enabled, Current, Follow;
    if run == [] {
      NothingFollows(p, k.seqId, Current(s, k));
    } else {
      var (t, out) := Step(p, s, run[0]);
      assert run[0] in run && forall a | a in run[1..] :: a in run;
      StepContinues(p, s, run[0], k);
      StepKeepsInv(p, s, run[0]);
      NumbersAreConsecutive(p, t, run[1..], k);
      assert [] + IssuedIn(p, t, run[1..], k) == IssuedIn(p, t, run[1..], k);
      if NumberOf(out, k) != [] {
        FollowStep(p, k.seqId, Current(s, k), Current(t, k), IssuedIn(p, t, run[1..], k));
      }
    }
    hide Undisturbed, IsInitial, NumberOf;
  }

  lemma NothingFollows(p: Params, seqId: nat, last: nat)
    ensures Follow(p, seqId, last, [])
  {
  }

  /** A key without a number, in a process that starts: the first number that is issued is the initial one of
      its sequence, and each later one is the next. */
  lemma NewKeyCountsFromInitial(p: Params, s0: State, run: seq<Action>, k: Key, initial: nat)
    requires ValidParams(p) && Initial(s0) && ValidRun(p, s0, run)
    requires forall a | a in run :: Undisturbed(a)
    requires k !in s0.numbers && LogWithin(s0.plog, k, iset{})
    requires forall kind | kind in p.seqTypes && k.seqId in p.seqTypes[kind] :: p.seqTypes[kind][k.seqId] == initial
    ensures var issued := IssuedIn(p, s0, run, k); issued == seq(|issued|, i => initial + i)
  {
    NewKeyIsNowhere(s0, k);
    NumbersAreConsecutive(p, s0, run, k);
    FollowIs(p, k.seqId, IssuedIn(p, s0, run, k), initial);
    hide *;
  }

  lemma NewKeyIsNowhere(s0: State, k: Key)
    requires Initial(s0) && k !in s0.numbers && LogWithin(s0.plog, k, iset{})
    ensures Inv(s0) && Settled(s0, k) && Current(s0, k) == 0
  {
    InitialInv(s0);
    hide Inv, Sound, LogWithin;
  }

  lemma FollowIs(p: Params, seqId: nat, numbers: seq<nat>, initial: nat)
    requires Follow(p, seqId, 0, numbers)
    requires forall kind | kind in p.seqTypes && seqId in p.seqTypes[kind] :: p.seqTypes[kind][seqId] == initial
    ensures numbers == seq(|numbers|, i => initial + i)
  {
  }
}
