/** Main results about leader election: safety in every run, takeover, and what the promises need. */
module ElectionsTheorems {
  import opened Elections

  ghost predicate Leads(s: State, id: Id, key: Key) {
    id in s.nodes && key in s.nodes[id].leaders
  }

  /** At any time at most one node leads a key. */
  lemma AtMostOneLeader(s: State, run: seq<Action>, i: Id, j: Id, key: Key)
    requires Initial(s) && ValidRun(s, run)
    requires forall a | a in run :: DurationOk(a)
    requires Leads(After(s, run), i, key) && Leads(After(s, run), j, key)
    ensures i == j
  {
    Reachable(s, run);
    var e := After(s, run);
    assert NodeInv(i, e.now, e.store, e.nodes[i]) && NodeInv(j, e.now, e.store, e.nodes[j]);
    assert LeaderOk(i, e.now, e.store, key, e.nodes[i].leaders[key]);
    assert LeaderOk(j, e.now, e.store, key, e.nodes[j].leaders[key]);
  }

  /** A leader is never older than half its duration since its last acknowledged write, and its record
      outlives that write by the whole duration. */
  lemma LeaderLivesHalfAsLongAsItsRecord(s: State, run: seq<Action>, id: Id, key: Key)
    requires Initial(s) && ValidRun(s, run)
    requires forall a | a in run :: DurationOk(a)
    requires Leads(After(s, run), id, key)
    ensures
      var e := After(s, run);
      var l := e.nodes[id].leaders[key];
      && 2 * (e.now - l.lastOk) <= Dur(l.dur)
      && key in e.store && e.store[key].value == l.value && e.store[key].owner == id
      && l.lastOk + Dur(l.dur) <= e.store[key].expiresAt
  {
    Reachable(s, run);
    var e := After(s, run);
    assert NodeInv(id, e.now, e.store, e.nodes[id]);
    LeaderIsTimely(id, e.now, e.store, key, e.nodes[id].leaders[key]);
  }

  /** A renewal that the storage answers is never refused: the leadership cannot be stolen. */
  lemma RenewalIsNeverRefused(s: State, run: seq<Action>, id: Id, key: Key, rf: Fault)
    requires Initial(s) && ValidRun(s, run)
    requires forall a | a in run :: DurationOk(a)
    requires Enabled(After(s, run), Do(id, Attempt(key, NoFault, rf)))
    ensures
      var e := After(s, run);
      var e' := Step(e, Do(id, Attempt(key, NoFault, rf)));
      var l := e.nodes[id].leaders[key];
      && Leads(e', id, key) && e'.nodes[id].leaders[key] == l.(lastOk := e.now, phase := Waiting)
      && key in e'.store && e'.store[key] == Rec(l.value, e.now + Dur(l.dur), id)
  {
    Reachable(s, run);
    var e := After(s, run);
    assert NodeInv(id, e.now, e.store, e.nodes[id]);
    LeaderIsTimely(id, e.now, e.store, key, e.nodes[id].leaders[key]);
  }

  /** No step of a node changes or removes a live record that another node wrote. */
  lemma ForeignRecordsAreKept(s: State, run: seq<Action>, id: Id, a: NodeAction, key: Key)
    requires Initial(s) && ValidRun(s, run)
    requires forall a | a in run :: DurationOk(a)
    requires Enabled(After(s, run), Do(id, a))
    requires var e := After(s, run); key in e.store && e.store[key].owner != id && e.now <= e.store[key].expiresAt
    ensures
      var e := After(s, run);
      var e' := Step(e, Do(id, a));
      key in e'.store && e'.store[key] == e.store[key]
  {
    Reachable(s, run);
    var e := After(s, run);
    assert NodeInv(id, e.now, e.store, e.nodes[id]);
    NodeStepKeepsOthers(id, e.now, e.store, e.nodes[id], a);
  }

  /** Acquiring a key that any node leads already, the caller included, changes no leadership. */
  lemma LedKeyIsNotAcquired(s: State, run: seq<Action>, leader: Id, id: Id, c: Call, f: Fault)
    requires Initial(s) && ValidRun(s, run)
    requires forall a | a in run :: DurationOk(a)
    requires Leads(After(s, run), leader, c.key)
    requires Enabled(After(s, run), Do(id, Insert(c, f)))
    ensures
      var e := After(s, run);
      var e' := Step(e, Do(id, Insert(c, f)));
      && e'.nodes[id].leaders == e.nodes[id].leaders
      && c.key in e.store && c.key in e'.store && e'.store[c.key] == e.store[c.key]
  {
    Reachable(s, run);
    var e := After(s, run);
    assert NodeInv(leader, e.now, e.store, e.nodes[leader]);
    LeaderIsTimely(leader, e.now, e.store, c.key, e.nodes[leader].leaders[c.key]);
  }

  /** What a node with a free key does to acquire it. */
  function Acquired(s: State, id: Id, c: Call): State
    requires id in s.nodes
  {
    var n := s.nodes[id];
    s.(store := Pruned(s.store, s.now)[c.key := Rec(c.value, s.now + Dur(c.dur), id)],
       nodes := s.nodes[id := n.(leaders := n.leaders[c.key := NewLeader(s.now, c.value, c.dur)])])
  }

  lemma FreeKeyIsAcquired(s: State, id: Id, c: Call, rest: seq<Action>)
    requires id in s.nodes && !s.nodes[id].finalized
    requires c.key in s.store ==> s.now > s.store[c.key].expiresAt
    requires ValidRun(Acquired(s, id, c), rest)
    ensures var run := [Do(id, Check(c)), Do(id, Insert(c, NoFault))] + rest;
      ValidRun(s, run) && After(s, run) == After(Acquired(s, id, c), rest)
  {
    var check, insert := Do(id, Check(c)), Do(id, Insert(c, NoFault));
    var run := [check, insert] + rest;
    assert run[1..] == [insert] + rest && run[1..][1..] == rest;
    var s1 := Step(s, check);
    var n := s.nodes[id];
    assert n.calls + multiset{c} - multiset{c} == n.calls;
    assert Step(s1, insert) == Acquired(s, id, c);
  }

  /** The duration must not be negative: with any negative one two nodes lead the same key at once. */
  lemma NegativeDurationGivesTwoLeaders(now: int, key: Key, v: Value, w: Value, d: int) returns (s: State, run: seq<Action>)
    requires d < 0
    ensures Initial(s) && ValidRun(s, run)
    ensures Leads(After(s, run), 0, key) && Leads(After(s, run), 1, key)
  {
    var n := Node(map[], multiset{}, false);
    var c, b := Call(key, v, d), Call(key, w, d);
    s := State(now, map[], map[0 := n, 1 := n]);
    var s1 := Acquired(s, 0, c);
    assert now > s1.store[key].expiresAt;
    FreeKeyIsAcquired(s1, 1, b, []);
    FreeKeyIsAcquired(s, 0, c, [Do(1, Check(b)), Do(1, Insert(b, NoFault))] + []);
    run := [Do(0, Check(c)), Do(0, Insert(c, NoFault))] + ([Do(1, Check(b)), Do(1, Insert(b, NoFault))] + []);
    assert Leads(Acquired(s1, 1, b), 0, key) && Leads(Acquired(s1, 1, b), 1, key);
  }

  /* ---------- cleanup ---------- */

  ghost predicate Retired(s: State, id: Id) {
    id in s.nodes && s.nodes[id].finalized && s.nodes[id].leaders == map[] && s.nodes[id].calls == multiset{}
  }

  /** After cleanup, with no acquisition in flight, a node never leads again until it restarts. */
  lemma {:induction false} RetiredNodeNeverLeads(s: State, run: seq<Action>, id: Id)
    requires Retired(s, id) && ValidRun(s, run)
    requires forall a | a in run :: a != Crash(id)
    ensures Retired(After(s, run), id)
    decreases |run|
  {
    if run != [] {
      assert run[0] in run;
      assert Retired(Step(s, run[0]), id);
      assert forall a | a in run[1..] :: a in run;
      RetiredNodeNeverLeads(Step(s, run[0]), run[1..], id);
    }
  }

  /** An acquisition that passed the check before cleanup does lead after it, whenever the key is free. */
  lemma AcquisitionInFlightOutlivesCleanup(s: State, id: Id, c: Call)
    requires id in s.nodes && c in s.nodes[id].calls
    requires c.key in s.store ==> s.now > s.store[c.key].expiresAt
    ensures
      var finalized := Step(s, Do(id, Finalize));
      && Enabled(finalized, Do(id, Insert(c, NoFault)))
      && Leads(Step(finalized, Do(id, Insert(c, NoFault))), id, c.key)
      && Step(finalized, Do(id, Insert(c, NoFault))).nodes[id].finalized
  {
  }

  /* ---------- takeover ---------- */

  ghost predicate StoreShort(store: Store, limit: int) {
    forall key | key in store :: store[key].expiresAt <= limit
  }

  ghost predicate NodeShort(n: Node, bound: int) {
    && (forall key | key in n.leaders :: n.leaders[key].dur <= bound)
    && (forall c | c in n.calls :: c.dur <= bound)
  }

  /** No record outlives `bound` seconds from now, nor will one that a node writes. */
  ghost predicate Short(s: State, bound: int) {
    && StoreShort(s.store, s.now + Dur(bound))
    && (forall id | id in s.nodes :: NodeShort(s.nodes[id], bound))
  }

  predicate DurationAtMost(a: Action, bound: int) {
    a.Do? && a.action.Check? ==> a.action.call.dur <= bound
  }

  lemma StoreStaysShort(store: Store, now: int, limit: int, key: Key, value: Value, r: Rec)
    requires StoreShort(store, limit) && r.expiresAt <= limit
    ensures StoreShort(Pruned(store, now), limit) && StoreShort(Inserted(store, now, key, r), limit)
    ensures StoreShort(Swapped(store, now, key, value, r), limit) && StoreShort(Deleted(store, now, key, value), limit)
  {
  }

  lemma ReleaseKeepsShort(now: int, store: Store, n: Node, key: Key, f: Fault, limit: int, bound: int)
    requires NodeShort(n, bound) && StoreShort(store, limit)
    ensures var (store', n') := ReleaseStep(now, store, n, key, f); NodeShort(n', bound) && StoreShort(store', limit)
  {
  }

  lemma AttemptKeepsShort(id: Id, now: int, store: Store, n: Node, key: Key, f: Fault, rf: Fault, bound: int)
    requires key in n.leaders && n.leaders[key].phase.Renewing?
    requires NodeShort(n, bound) && StoreShort(store, now + Dur(bound))
    ensures var (store', n') := AttemptStep(id, now, store, n, key, f, rf);
      NodeShort(n', bound) && StoreShort(store', now + Dur(bound))
  {
    hide StoreShort, Pruned, Swapped, Holds, ReleaseStep;
    var l := n.leaders[key];
    var swapped := Swapped(store, now, key, l.value, Rec(l.value, now + Dur(l.dur), id));
    StoreStaysShort(store, now, now + Dur(bound), key, l.value, Rec(l.value, now + Dur(l.dur), id));
    ReleaseKeepsShort(now, swapped, n, key, rf, now + Dur(bound), bound);
  }

  lemma NodeStepKeepsShort(id: Id, now: int, store: Store, n: Node, a: NodeAction, bound: int)
    requires NodeEnabled(now, n, a) && NodeShort(n, bound) && DurationAtMost(Do(id, a), bound)
    requires StoreShort(store, now + Dur(bound))
    ensures var (store', n') := NodeStep(id, now, store, n, a); NodeShort(n', bound) && StoreShort(store', now + Dur(bound))
  {
    hide StoreShort, Pruned, Inserted, Swapped, Deleted, Holds, TickerInterval;
    var limit := now + Dur(bound);
    match a
    case Insert(c, f) =>
      StoreStaysShort(store, now, limit, c.key, c.value, Rec(c.value, now + Dur(c.dur), id));
    case Attempt(key, f, rf) => AttemptKeepsShort(id, now, store, n, key, f, rf, bound);
    case Deadline(key, f) => ReleaseKeepsShort(now, store, n, key, f, limit, bound);
    case Release(key, f) => ReleaseKeepsShort(now, store, n, key, f, limit, bound);
    case Sweep(key, f) => ReleaseKeepsShort(now, store, n, key, f, limit, bound);
    case _ =>
  }

  lemma {:induction false} RunKeepsShort(s: State, run: seq<Action>, bound: int)
    requires Short(s, bound) && ValidRun(s, run)
    requires forall a | a in run :: DurationAtMost(a, bound)
    ensures Short(After(s, run), bound)
    decreases |run|
  {
    if run != [] {
      var a := run[0];
      assert a in run;
      if a.Do? {
        NodeStepKeepsShort(a.id, s.now, s.store, s.nodes[a.id], a.action, bound);
      }
      assert Short(Step(s, a), bound);
      assert forall a | a in run[1..] :: a in run;
      RunKeepsShort(Step(s, a), run[1..], bound);
    }
  }

  /** The step neither writes nor renews the record of the key. */
  predicate Quiet(a: Action, key: Key) {
    && (a.Do? && a.action.Insert? ==> a.action.call.key != key)
    && (a.Do? && a.action.Attempt? ==> a.action.key != key)
  }

  lemma {:induction false} QuietRunKeepsRecord(s: State, run: seq<Action>, key: Key)
    requires ValidRun(s, run)
    requires forall a | a in run :: Quiet(a, key)
    ensures key in After(s, run).store ==> key in s.store && After(s, run).store[key] == s.store[key]
    decreases |run|
  {
    if run != [] {
      var s' := Step(s, run[0]);
      assert run[0] in run;
      assert key in s'.store ==> key in s.store && s'.store[key] == s.store[key];
      assert forall a | a in run[1..] :: a in run;
      QuietRunKeepsRecord(s', run[1..], key);
    }
  }

  /** When a leader is gone, however it went, the key is free at the latest `bound` seconds later. */
  lemma SilentKeyIsTakenOver(s: State, run: seq<Action>, quiet: seq<Action>, bound: int, id: Id, c: Call)
    requires Short(s, bound) && ValidRun(s, run) && ValidRun(After(s, run), quiet)
    requires forall a | a in run :: DurationAtMost(a, bound)
    requires forall a | a in quiet :: Quiet(a, c.key)
    requires var e := After(After(s, run), quiet);
      e.now > After(s, run).now + Dur(bound) && Enabled(e, Do(id, Insert(c, NoFault)))
    ensures
      var e := After(After(s, run), quiet);
      Leads(Step(e, Do(id, Insert(c, NoFault))), id, c.key)
  {
    RunKeepsShort(s, run, bound);
    QuietRunKeepsRecord(After(s, run), quiet, c.key);
  }
}
