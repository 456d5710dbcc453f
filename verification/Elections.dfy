/** Leader election of pkg/ielections over a TTL store, as a timed transition system.

    Any number of nodes compete for keys.  A leader inserts a record that lives for the leadership
    duration D, renews it every D/4 and gives the leadership up when renewing fails for D/4.  Every
    storage call may fail, with or without effect.  Times are nanoseconds; durations are seconds.
    Storage calls take no time, timers fire when they are due, and removing a record on release is
    one step with cancelling its leader.  Nothing is assumed about the values that nodes store.
 */
module Elections {

  const SECOND := 1_000_000_000
  const RENEWALS_PER_LEADERSHIP_DUR := 4

  type Id = nat
  type Key = nat
  type Value = nat

  /** A record of the store; `owner` is the node that wrote it, which the store does not know. */
  datatype Rec = Rec(value: Value, expiresAt: int, owner: Id)

  /** An acquisition that passed the check for finalization. */
  datatype Call = Call(key: Key, value: Value, dur: int)

  /** Waiting for the ticker; about to compare-and-swap; waiting after a failed attempt. */
  datatype Phase =
    | Waiting
    | Renewing(deadline: int)
    | Sleeping(deadline: int, retryAt: int)

  /** leaderInfo and the goroutine that maintains it; `lastOk` is the time of the last acknowledged write. */
  datatype Leader = Leader(value: Value, dur: int, lastOk: int, nextTick: int, phase: Phase)

  datatype Node = Node(leaders: map<Key, Leader>, calls: multiset<Call>, finalized: bool)

  type Store = map<Key, Rec>

  datatype State = State(now: int, store: Store, nodes: map<Id, Node>)

  /** How a storage call ends: well, with an error and no effect, with an error after its effect. */
  datatype Fault = NoFault | Lost | Unacked

  datatype NodeAction =
    | Check(call: Call)
    | Insert(call: Call, fault: Fault)
    | Tick(key: Key)
    | Attempt(key: Key, fault: Fault, releaseFault: Fault)
    | Retry(key: Key)
    | Deadline(key: Key, fault: Fault)
    | Release(key: Key, fault: Fault)
    | Finalize
    | Sweep(key: Key, fault: Fault)

  datatype Action =
    | Do(id: Id, action: NodeAction)
    | Advance(to: int)
    | Crash(id: Id)

  function Dur(seconds: int): int {
    seconds * SECOND
  }

  function TickerInterval(seconds: int): int {
    seconds * SECOND / RENEWALS_PER_LEADERSHIP_DUR
  }

  /* ---------- the store ---------- */

  function Pruned(store: Store, now: int): Store {
    map k | k in store && now <= store[k].expiresAt :: store[k]
  }

  function Inserted(store: Store, now: int, key: Key, r: Rec): Store {
    var st := Pruned(store, now);
    if key in st then st else st[key := r]
  }

  predicate Holds(store: Store, now: int, key: Key, value: Value) {
    key in store && now <= store[key].expiresAt && store[key].value == value
  }

  function Swapped(store: Store, now: int, key: Key, current: Value, r: Rec): Store {
    if Holds(store, now, key, current) then Pruned(store, now)[key := r] else Pruned(store, now)
  }

  function Deleted(store: Store, now: int, key: Key, value: Value): Store {
    if Holds(store, now, key, value) then Pruned(store, now) - {key} else Pruned(store, now)
  }

  /* ---------- the steps of one node ---------- */

  predicate NodeEnabled(now: int, n: Node, a: NodeAction) {
    match a
    case Check(_) => true
    case Insert(c, _) => c in n.calls
    case Tick(key) => key in n.leaders && n.leaders[key].phase.Waiting? && n.leaders[key].nextTick <= now
    case Attempt(key, _, _) => key in n.leaders && n.leaders[key].phase.Renewing?
    case Retry(key) => key in n.leaders && n.leaders[key].phase.Sleeping? && n.leaders[key].phase.retryAt <= now
    case Deadline(key, _) => key in n.leaders && n.leaders[key].phase.Sleeping? && n.leaders[key].phase.deadline <= now
    case Release(_, _) => true
    case Finalize => true
    case Sweep(key, _) => n.finalized && key in n.leaders
  }

  function NewLeader(now: int, value: Value, dur: int): Leader {
    Leader(value, dur, now, now + TickerInterval(dur), Waiting)
  }

  function InsertStep(id: Id, now: int, store: Store, n: Node, c: Call, f: Fault): (Store, Node) {
    var done := n.(calls := n.calls - multiset{c});
    var inserted := Inserted(store, now, c.key, Rec(c.value, now + Dur(c.dur), id));
    if f.Lost? then (Pruned(store, now), done)
    else if f.Unacked? || c.key in Pruned(store, now) then (inserted, done)
    else (inserted, done.(leaders := n.leaders[c.key := NewLeader(now, c.value, c.dur)]))
  }

  function TickStep(now: int, l: Leader): Leader {
    l.(nextTick := now + TickerInterval(l.dur), phase := Renewing(now + TickerInterval(l.dur)))
  }

  function ReleaseStep(now: int, store: Store, n: Node, key: Key, f: Fault): (Store, Node) {
    if key !in n.leaders then (store, n)
    else
      (if f.Lost? then Pruned(store, now) else Deleted(store, now, key, n.leaders[key].value),
       n.(leaders := n.leaders - {key}))
  }

  /** One attempt of renewWithRetry. */
  function AttemptStep(id: Id, now: int, store: Store, n: Node, key: Key, f: Fault, rf: Fault): (Store, Node)
    requires key in n.leaders && n.leaders[key].phase.Renewing?
  {
    var l := n.leaders[key];
    var swapped := Swapped(store, now, key, l.value, Rec(l.value, now + Dur(l.dur), id));
    if f.NoFault? then
      if Holds(store, now, key, l.value)
      then (swapped, n.(leaders := n.leaders[key := l.(lastOk := now, phase := Waiting)]))
      else ReleaseStep(now, swapped, n, key, rf)
    else
      (if f.Lost? then Pruned(store, now) else swapped,
       n.(leaders := n.leaders[key := l.(phase := Sleeping(l.phase.deadline, now + SECOND))]))
  }

  function NodeStep(id: Id, now: int, store: Store, n: Node, a: NodeAction): (Store, Node)
    requires NodeEnabled(now, n, a)
  {
    match a
    case Check(c) => (store, if n.finalized then n else n.(calls := n.calls + multiset{c}))
    case Insert(c, f) => InsertStep(id, now, store, n, c, f)
    case Tick(key) => (store, n.(leaders := n.leaders[key := TickStep(now, n.leaders[key])]))
    case Attempt(key, f, rf) => AttemptStep(id, now, store, n, key, f, rf)
    case Retry(key) =>
      (store, n.(leaders := n.leaders[key := n.leaders[key].(phase := Renewing(n.leaders[key].phase.deadline))]))
    case Deadline(key, f) => ReleaseStep(now, store, n, key, f)
    case Release(key, f) => ReleaseStep(now, store, n, key, f)
    case Finalize => (store, n.(finalized := true))
    case Sweep(key, f) => ReleaseStep(now, store, n, key, f)
  }

  /* ---------- the steps of the system ---------- */

  /** When the next timer of a leader is due; an attempt is due at once. */
  function Due(now: int, l: Leader): int {
    match l.phase
    case Waiting => l.nextTick
    case Renewing(_) => now
    case Sleeping(deadline, retryAt) => if deadline <= retryAt then deadline else retryAt
  }

  ghost predicate Enabled(s: State, a: Action) {
    match a
    case Do(id, na) => id in s.nodes && NodeEnabled(s.now, s.nodes[id], na)
    case Advance(to) =>
      s.now <= to && forall id, key | id in s.nodes && key in s.nodes[id].leaders :: to <= Due(s.now, s.nodes[id].leaders[key])
    case Crash(id) => id in s.nodes
  }

  ghost function Step(s: State, a: Action): State
    requires Enabled(s, a)
  {
    match a
    case Do(id, na) =>
      var (store, n) := NodeStep(id, s.now, s.store, s.nodes[id], na);
      s.(store := store, nodes := s.nodes[id := n])
    case Advance(to) => s.(now := to)
    case Crash(id) => s.(nodes := s.nodes[id := Node(map[], multiset{}, false)])
  }

  ghost predicate ValidRun(s: State, run: seq<Action>)
    decreases |run|
  {
    run == [] || (Enabled(s, run[0]) && ValidRun(Step(s, run[0]), run[1..]))
  }

  ghost function After(s: State, run: seq<Action>): State
    requires ValidRun(s, run)
    decreases |run|
  {
    if run == [] then s else After(Step(s, run[0]), run[1..])
  }

  /** No node leads yet; the store may hold anything. */
  ghost predicate Initial(s: State) {
    forall id | id in s.nodes :: s.nodes[id].leaders == map[] && s.nodes[id].calls == multiset{}
  }

  /** A leadership is not asked for with a negative duration. */
  predicate DurationOk(a: Action) {
    a.Do? && a.action.Check? ==> a.action.call.dur >= 0
  }

  /* ---------- what the runs keep ---------- */

  /** The record of a leader lives for D after its last renewal, the leader for at most D/2. */
  predicate LeaderOk(id: Id, now: int, store: Store, key: Key, l: Leader) {
    && key in store && store[key].value == l.value && store[key].owner == id
    && l.dur >= 0
    && l.lastOk <= now
    && l.lastOk + Dur(l.dur) <= store[key].expiresAt
    && match l.phase
       case Waiting => now <= l.nextTick <= l.lastOk + TickerInterval(l.dur)
       case Renewing(deadline) => OnTime(now, l, deadline)
       case Sleeping(deadline, retryAt) => OnTime(now, l, deadline) && now <= retryAt
  }

  predicate OnTime(now: int, l: Leader, deadline: int) {
    && now <= deadline <= l.lastOk + 2 * TickerInterval(l.dur)
    && l.nextTick == deadline <= now + TickerInterval(l.dur)
  }

  ghost predicate NodeInv(id: Id, now: int, store: Store, n: Node) {
    && (forall key | key in n.leaders :: LeaderOk(id, now, store, key, n.leaders[key]))
    && (forall c | c in n.calls :: c.dur >= 0)
  }

  ghost predicate Inv(s: State) {
    forall id | id in s.nodes :: NodeInv(id, s.now, s.store, s.nodes[id])
  }

  /** Live records of other nodes survive. */
  ghost predicate OthersKept(id: Id, now: int, before: Store, after: Store) {
    forall key | key in before && before[key].owner != id && now <= before[key].expiresAt ::
      key in after && after[key] == before[key]
  }

  /** Records of other keys are only pruned. */
  ghost predicate OnlyKey(now: int, before: Store, after: Store, key: Key) {
    forall k | k != key && k in before && now <= before[k].expiresAt :: k in after && after[k] == before[k]
  }

  lemma LeaderIsTimely(id: Id, now: int, store: Store, key: Key, l: Leader)
    requires LeaderOk(id, now, store, key, l)
    ensures now <= l.lastOk + 2 * TickerInterval(l.dur)
    ensures 2 * TickerInterval(l.dur) <= Dur(l.dur)
    ensures now <= store[key].expiresAt && Holds(store, now, key, l.value)
  {
  }

  lemma InsertKeepsInv(id: Id, now: int, store: Store, n: Node, c: Call, f: Fault)
    requires NodeInv(id, now, store, n) && c in n.calls
    ensures var (store', n') := InsertStep(id, now, store, n, c, f); NodeInv(id, now, store', n')
  {
    var (store', n') := InsertStep(id, now, store, n, c, f);
    forall key | key in n'.leaders
      ensures LeaderOk(id, now, store', key, n'.leaders[key])
    {
      if key in n.leaders {
        LeaderIsTimely(id, now, store, key, n.leaders[key]);
      }
    }
  }

  lemma ReleaseKeepsInv(id: Id, now: int, store: Store, n: Node, key: Key, f: Fault)
    requires NodeInv(id, now, store, n)
    ensures var (store', n') := ReleaseStep(now, store, n, key, f); NodeInv(id, now, store', n')
  {
    var (store', n') := ReleaseStep(now, store, n, key, f);
    forall k | k in n'.leaders
      ensures LeaderOk(id, now, store', k, n'.leaders[k])
    {
      LeaderIsTimely(id, now, store, k, n.leaders[k]);
    }
  }

  lemma AttemptKeepsInv(id: Id, now: int, store: Store, n: Node, key: Key, f: Fault, rf: Fault)
    requires NodeInv(id, now, store, n) && key in n.leaders && n.leaders[key].phase.Renewing?
    ensures var (store', n') := AttemptStep(id, now, store, n, key, f, rf); NodeInv(id, now, store', n')
  {
    var (store', n') := AttemptStep(id, now, store, n, key, f, rf);
    LeaderIsTimely(id, now, store, key, n.leaders[key]);
    forall k | k in n'.leaders
      ensures LeaderOk(id, now, store', k, n'.leaders[k])
    {
      LeaderIsTimely(id, now, store, k, n.leaders[k]);
    }
  }

  lemma TimerKeepsInv(id: Id, now: int, store: Store, n: Node, a: NodeAction)
    requires NodeInv(id, now, store, n) && NodeEnabled(now, n, a)
    requires a.Tick? || a.Retry? || (a.Check? && a.call.dur >= 0) || a.Finalize?
    ensures var (store', n') := NodeStep(id, now, store, n, a); NodeInv(id, now, store', n')
  {
    var (store', n') := NodeStep(id, now, store, n, a);
    forall key | key in n'.leaders
      ensures LeaderOk(id, now, store, key, n'.leaders[key])
    {
      assert LeaderOk(id, now, store, key, n.leaders[key]);
    }
  }

  lemma NodeStepKeepsOwn(id: Id, now: int, store: Store, n: Node, a: NodeAction)
    requires NodeInv(id, now, store, n) && NodeEnabled(now, n, a)
    requires a.Check? ==> a.call.dur >= 0
    ensures var (store', n') := NodeStep(id, now, store, n, a); NodeInv(id, now, store', n')
  {
    hide NodeInv;
    match a
    case Insert(c, f) => InsertKeepsInv(id, now, store, n, c, f);
    case Attempt(key, f, rf) => AttemptKeepsInv(id, now, store, n, key, f, rf);
    case Deadline(key, f) => ReleaseKeepsInv(id, now, store, n, key, f);
    case Release(key, f) => ReleaseKeepsInv(id, now, store, n, key, f);
    case Sweep(key, f) => ReleaseKeepsInv(id, now, store, n, key, f);
    case _ => TimerKeepsInv(id, now, store, n, a);
  }

  lemma NodeStepKeepsOthers(id: Id, now: int, store: Store, n: Node, a: NodeAction)
    requires NodeInv(id, now, store, n) && NodeEnabled(now, n, a)
    ensures OthersKept(id, now, store, NodeStep(id, now, store, n, a).0)
  {
  }

  lemma OthersKeptKeepsInv(id: Id, other: Id, now: int, before: Store, after: Store, n: Node)
    requires other != id && NodeInv(other, now, before, n) && OthersKept(id, now, before, after)
    ensures NodeInv(other, now, after, n)
  {
    forall key | key in n.leaders
      ensures LeaderOk(other, now, after, key, n.leaders[key])
    {
      LeaderIsTimely(other, now, before, key, n.leaders[key]);
    }
  }

  lemma AdvanceKeepsInv(id: Id, now: int, to: int, store: Store, n: Node)
    requires NodeInv(id, now, store, n) && now <= to
    requires forall key | key in n.leaders :: to <= Due(now, n.leaders[key])
    ensures NodeInv(id, to, store, n)
  {
  }

  lemma StepKeepsInv(s: State, a: Action)
    requires Inv(s) && Enabled(s, a) && DurationOk(a)
    ensures Inv(Step(s, a))
  {
    var s' := Step(s, a);
    match a
    case Do(id, na) =>
      NodeStepKeepsOwn(id, s.now, s.store, s.nodes[id], na);
      NodeStepKeepsOthers(id, s.now, s.store, s.nodes[id], na);
      forall other | other in s'.nodes
        ensures NodeInv(other, s'.now, s'.store, s'.nodes[other])
      {
        if other != id {
          OthersKeptKeepsInv(id, other, s.now, s.store, s'.store, s.nodes[other]);
        }
      }
    case Advance(to) =>
      forall id | id in s.nodes
        ensures NodeInv(id, to, s.store, s.nodes[id])
      {
        AdvanceKeepsInv(id, s.now, to, s.store, s.nodes[id]);
      }
    case Crash(id) =>
  }

  lemma {:induction false} RunKeepsInv(s: State, run: seq<Action>)
    requires Inv(s) && ValidRun(s, run)
    requires forall a | a in run :: DurationOk(a)
    ensures Inv(After(s, run))
    decreases |run|
  {
    if run != [] {
      assert run[0] in run;
      StepKeepsInv(s, run[0]);
      assert forall a | a in run[1..] :: a in run;
      RunKeepsInv(Step(s, run[0]), run[1..]);
    }
  }

  lemma InitialInv(s: State)
    requires Initial(s)
    ensures Inv(s)
  {
  }

  lemma Reachable(s: State, run: seq<Action>)
    requires Initial(s) && ValidRun(s, run)
    requires forall a | a in run :: DurationOk(a)
    ensures Inv(After(s, run))
  {
    InitialInv(s);
    RunKeepsInv(s, run);
  }
}
