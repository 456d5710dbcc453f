/** How a leadership ends, and who may lead next. */
module ElectionsHandover {
  import opened Elections
  import opened ElectionsTheorems

  /** A release of the key: by its owner, after renewing failed until the deadline, or by cleanup. */
  predicate Releases(a: NodeAction, key: Key, f: Fault) {
    a == Release(key, f) || a == Deadline(key, f) || a == Sweep(key, f)
  }

  /** A release ends the leadership.  It frees the key exactly if its deletion reaches the storage, with or
      without an answer; otherwise the record stays as it is.  Live records of other keys stay. */
  lemma ReleaseFreesKeyExactlyIf(s: State, run: seq<Action>, id: Id, a: NodeAction, key: Key, f: Fault)
    requires Initial(s) && ValidRun(s, run)
    requires forall b | b in run :: DurationOk(b)
    requires Leads(After(s, run), id, key) && Releases(a, key, f) && Enabled(After(s, run), Do(id, a))
    ensures
      var e := After(s, run);
      var e' := Step(e, Do(id, a));
      && !Leads(e', id, key) && e'.now == e.now
      && (key !in e'.store <==> !f.Lost?)
      && (f.Lost? ==> key in e.store && key in e'.store && e'.store[key] == e.store[key] && e.now <= e.store[key].expiresAt)
      && OnlyKey(e.now, e.store, e'.store, key)
  {
    Reachable(s, run);
    var e := After(s, run);
    assert NodeInv(id, e.now, e.store, e.nodes[id]);
    LeaderIsTimely(id, e.now, e.store, key, e.nodes[id].leaders[key]);
  }

  /** So another node leads the key at the same instant, without waiting for the record to expire, exactly if
      the deletion reached the storage. */
  lemma ReleasedKeyIsAcquiredExactlyIf(s: State, run: seq<Action>, id: Id, a: NodeAction, f: Fault, next: Id, c: Call)
    requires Initial(s) && ValidRun(s, run)
    requires forall b | b in run :: DurationOk(b)
    requires Leads(After(s, run), id, c.key) && Releases(a, c.key, f) && Enabled(After(s, run), Do(id, a))
    requires
      var e' := Step(After(s, run), Do(id, a));
      next in e'.nodes && !e'.nodes[next].finalized
    ensures
      var e' := Step(After(s, run), Do(id, a));
      var acquire := [Do(next, Check(c)), Do(next, Insert(c, NoFault))];
      && ValidRun(e', acquire) && After(e', acquire).now == After(s, run).now
      && (Leads(After(e', acquire), next, c.key) <==> !f.Lost?)
  {
    ReleaseFreesKeyExactlyIf(s, run, id, a, c.key, f);
    var e' := Step(After(s, run), Do(id, a));
    assert !Leads(e', next, c.key) by {
      if Leads(e', next, c.key) {
        AtMostOneLeader(s, run, id, next, c.key);
      }
    }
    if f.Lost? {
      TakenKeyIsRefused(e', next, c);
    } else {
      FreeKeyIsAcquired(e', next, c, []);
      assert [Do(next, Check(c)), Do(next, Insert(c, NoFault))] + [] == [Do(next, Check(c)), Do(next, Insert(c, NoFault))];
    }
    hide Step, Enabled;
  }

  lemma TakenKeyIsRefused(s: State, id: Id, c: Call)
    requires id in s.nodes && c.key in s.store && s.now <= s.store[c.key].expiresAt && c.key !in s.nodes[id].leaders
    requires !s.nodes[id].finalized
    ensures var acquire := [Do(id, Check(c)), Do(id, Insert(c, NoFault))];
      ValidRun(s, acquire) && !Leads(After(s, acquire), id, c.key) && After(s, acquire).now == s.now
  {
    var check, insert := Do(id, Check(c)), Do(id, Insert(c, NoFault));
    var s1 := Step(s, check);
    assert c in s1.nodes[id].calls && s1.nodes[id].leaders == s.nodes[id].leaders;
    var s2 := Step(s1, insert);
    assert s2.now == s.now && s2.nodes[id].leaders == s.nodes[id].leaders;
    TwoSteps(s, check, insert);
    hide Step, Enabled;
  }

  lemma TwoSteps(s: State, a: Action, b: Action)
    requires Enabled(s, a) && Enabled(Step(s, a), b)
    ensures ValidRun(s, [a, b]) && After(s, [a, b]) == Step(Step(s, a), b)
  {
    hide Step, Enabled;
    assert [a, b][1..] == [b] && [b][1..] == [];
    var s2 := Step(Step(s, a), b);
    assert ValidRun(s2, []) && After(s2, []) == s2;
    assert ValidRun(Step(s, a), [b]) && After(Step(s, a), [b]) == After(s2, []);
  }

  /* ---------- how long a leader keeps trying ---------- */

  /** A leader gives up no earlier than a whole interval after its last acknowledged write. */
  predicate Patient(l: Leader) {
    match l.phase
    case Waiting => l.lastOk <= l.nextTick
    case Renewing(deadline) => l.lastOk + TickerInterval(l.dur) <= deadline
    case Sleeping(deadline, _) => l.lastOk + TickerInterval(l.dur) <= deadline
  }

  ghost predicate PatientNode(n: Node) {
    forall key | key in n.leaders :: Patient(n.leaders[key])
  }

  ghost predicate AllPatient(s: State) {
    forall id | id in s.nodes :: PatientNode(s.nodes[id])
  }

  lemma NodeStaysPatient(id: Id, now: int, store: Store, n: Node, a: NodeAction)
    requires NodeInv(id, now, store, n) && PatientNode(n) && NodeEnabled(now, n, a)
    ensures PatientNode(NodeStep(id, now, store, n, a).1)
  {
    var n' := NodeStep(id, now, store, n, a).1;
    forall key | key in n'.leaders
      ensures Patient(n'.leaders[key])
    {
      if key in n.leaders {
        assert Patient(n.leaders[key]) && LeaderOk(id, now, store, key, n.leaders[key]);
      } else {
        assert a.Insert? && a.call in n.calls && n'.leaders[key] == NewLeader(now, a.call.value, a.call.dur);
      }
    }
    hide Pruned, Inserted, Swapped, Deleted, Holds;
  }

  lemma {:induction false} RunStaysPatient(s: State, run: seq<Action>)
    requires Inv(s) && AllPatient(s) && ValidRun(s, run)
    requires forall a | a in run :: DurationOk(a)
    ensures AllPatient(After(s, run))
    decreases |run|
  {
    if run != [] {
      var a := run[0];
      assert a in run && forall b | b in run[1..] :: b in run;
      StepKeepsInv(s, a);
      if a.Do? {
        NodeStaysPatient(a.id, s.now, s.store, s.nodes[a.id], a.action);
      }
      assert AllPatient(Step(s, a));
      RunStaysPatient(Step(s, a), run[1..]);
    }
    hide NodeStep, NodeInv, PatientNode;
  }

  /** A leadership ends exactly by a release, by cleanup, by a crash, or when renewing has failed for so long:
      then a quarter to a half of the duration has passed since the last acknowledged write.  No answer of the
      storage and no other node ends it. */
  lemma LeadershipEndsExactlyIf(s: State, run: seq<Action>, id: Id, key: Key, a: Action)
    requires Initial(s) && ValidRun(s, run)
    requires forall b | b in run :: DurationOk(b)
    requires Leads(After(s, run), id, key) && Enabled(After(s, run), a)
    ensures
      !Leads(Step(After(s, run), a), id, key)
      <==> a == Crash(id) || (a.Do? && a.id == id && exists f :: Releases(a.action, key, f))
    ensures
      var e := After(s, run);
      var l := e.nodes[id].leaders[key];
      a.Do? && a.id == id && a.action.Deadline? && a.action.key == key ==>
        Dur(l.dur) - RENEWALS_PER_LEADERSHIP_DUR < 4 * (e.now - l.lastOk) && 2 * (e.now - l.lastOk) <= Dur(l.dur)
    ensures a.Do? && a.action.Sweep? ==> After(s, run).nodes[a.id].finalized
  {
    Reachable(s, run);
    InitialInv(s);
    RunStaysPatient(s, run);
    var e := After(s, run);
    assert NodeInv(id, e.now, e.store, e.nodes[id]) && PatientNode(e.nodes[id]);
    var l := e.nodes[id].leaders[key];
    LeaderIsTimely(id, e.now, e.store, key, l);
    if a.Do? && a.id == id {
      EndsOnlyByRelease(id, e.now, e.store, e.nodes[id], a.action, key);
    }
    hide NodeStep, NodeInv;
  }

  lemma EndsOnlyByRelease(id: Id, now: int, store: Store, n: Node, a: NodeAction, key: Key)
    requires NodeInv(id, now, store, n) && NodeEnabled(now, n, a) && key in n.leaders
    ensures key !in NodeStep(id, now, store, n, a).1.leaders <==> exists f :: Releases(a, key, f)
  {
    if a.Attempt? {
      AttemptKeepsLeader(id, now, store, n, a.key, a.fault, a.releaseFault);
    } else if a.Release? || a.Deadline? || a.Sweep? {
      assert a.key == key ==> Releases(a, key, a.fault);
    }
    hide NodeInv, LeaderOk, Pruned, Inserted, Deleted, AttemptStep;
  }

  lemma AttemptKeepsLeader(id: Id, now: int, store: Store, n: Node, key: Key, f: Fault, rf: Fault)
    requires NodeInv(id, now, store, n) && key in n.leaders && n.leaders[key].phase.Renewing?
    ensures AttemptStep(id, now, store, n, key, f, rf).1.leaders.Keys == n.leaders.Keys
  {
    LeaderIsTimely(id, now, store, key, n.leaders[key]);
    hide NodeInv, LeaderOk, Holds, Pruned, Swapped;
  }

  /* ---------- what an unreliable storage does ---------- */

  /** An acquisition ends with a leader exactly if the key is free and the storage says so.  The record is written
      exactly if the key is free and the call reaches the storage, so it may be there without a leader. */
  lemma AcquiredExactlyIf(id: Id, now: int, store: Store, n: Node, c: Call, f: Fault)
    requires c in n.calls && c.key !in n.leaders
    ensures
      var (store', n') := InsertStep(id, now, store, n, c, f);
      var free := c.key !in store || store[c.key].expiresAt < now;
      && (c.key in n'.leaders <==> free && f.NoFault?)
      && (c.key in store' <==> !(free && f.Lost?))
      && (c.key in store' ==> store'[c.key] == if free then Rec(c.value, now + Dur(c.dur), id) else store[c.key])
  {
  }

  /** A renewal prolongs the record exactly if it reaches the storage, whether the node learns of it or not. */
  lemma RenewalProlongsExactlyIf(id: Id, now: int, store: Store, n: Node, key: Key, f: Fault, rf: Fault)
    requires NodeInv(id, now, store, n) && key in n.leaders && n.leaders[key].phase.Renewing?
    ensures
      var l := n.leaders[key];
      var store' := AttemptStep(id, now, store, n, key, f, rf).0;
      key in store' && store'[key] == if f.Lost? then store[key] else Rec(l.value, now + Dur(l.dur), id)
  {
    LeaderIsTimely(id, now, store, key, n.leaders[key]);
    hide NodeInv, LeaderOk, TickerInterval;
  }

  /* ---------- renewing after a failure ---------- */

  /** A renewal that the storage does not answer is tried again exactly one second later, if the deadline is not
      reached by then; if the storage then answers, the leadership goes on with a record of full length. */
  lemma FailedRenewalIsTriedAgain(id: Id, now: int, store: Store, n: Node, key: Key, f: Fault, rf: Fault, to: int)
    requires NodeInv(id, now, store, n) && key in n.leaders && n.leaders[key].phase.Renewing? && !f.NoFault?
    requires now <= to < n.leaders[key].phase.deadline
    ensures
      var (store1, n1) := NodeStep(id, now, store, n, Attempt(key, f, rf));
      && (NodeEnabled(to, n1, Retry(key)) <==> to >= now + 1_000_000_000)
      && !NodeEnabled(to, n1, Deadline(key, rf))
      && (to >= now + 1_000_000_000 ==>
            var (store2, n2) := NodeStep(id, to, store1, n1, Retry(key));
            var (store3, n3) := NodeStep(id, to, store2, n2, Attempt(key, NoFault, rf));
            && key in n3.leaders && n3.leaders[key].lastOk == to && n3.leaders[key].phase.Waiting?
            && key in store3 && store3[key] == Rec(n.leaders[key].value, to + Dur(n.leaders[key].dur), id))
  {
    LeaderIsTimely(id, now, store, key, n.leaders[key]);
    AttemptKeepsInv(id, now, store, n, key, f, rf);
    var (store1, n1) := AttemptStep(id, now, store, n, key, f, rf);
    var l := n1.leaders[key];
    assert LeaderOk(id, now, store1, key, l);
    StillHeld(id, now, store1, key, l, to);
    hide NodeInv, Pruned, Swapped, TickerInterval;
  }

  /** Up to its deadline the record of a leader is there. */
  lemma StillHeld(id: Id, now: int, store: Store, key: Key, l: Leader, to: int)
    requires LeaderOk(id, now, store, key, l) && l.phase.Sleeping? && now <= to <= l.phase.deadline
    ensures Holds(store, to, key, l.value)
  {
  }
}
