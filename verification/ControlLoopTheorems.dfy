/** Main results about the control loop: exclusion per key, and no message is lost. */
module ControlLoopTheorems {
  import opened Options
  import opened Schedule
  import opened ControlLoop

  /* ---------- exclusion ---------- */

  function Bit(b: bool): nat {
    if b then 1 else 0
  }

  predicate Has(c: Caller, key: nat) {
    !c.CallerIdle? && c.m.key == key
  }

  function CallersWith(callers: seq<Caller>, key: nat): nat {
    if callers == [] then 0
    else CallersWith(callers[..|callers| - 1], key) + Bit(Has(callers[|callers| - 1], key))
  }

  /** How many messages of the key are between dedupIn's store and dedupOut's delete. */
  function Held(dedupIn: DedupIn, callers: seq<Caller>, dedupOut: DedupOut, key: nat): nat {
    Bit(dedupIn.InPassing? && dedupIn.m.key == key) + CallersWith(callers, key) + Bit(dedupOut.OutGot? && dedupOut.m.key == key)
  }

  /** Exactly the keys in process are held, each once; a checked key is not among them. */
  ghost predicate Exclusive(dedupIn: DedupIn, callers: seq<Caller>, dedupOut: DedupOut, inProcess: set<nat>) {
    && (forall key :: Held(dedupIn, callers, dedupOut, key) == Bit(key in inProcess))
    && (dedupIn.InChecked? ==> dedupIn.m.key !in inProcess)
  }

  lemma {:induction false} CallersWithUpdate(callers: seq<Caller>, i: nat, c: Caller, key: nat)
    requires i < |callers|
    ensures CallersWith(callers[i := c], key) + Bit(Has(callers[i], key)) == CallersWith(callers, key) + Bit(Has(c, key))
  {
    var n := |callers| - 1;
    var updated := callers[i := c];
    if i < n {
      CallersWithUpdate(callers[..n], i, c, key);
      assert updated[..n] == callers[..n][i := c];
    } else {
      assert updated[..n] == callers[..n];
    }
  }

  lemma StepKeepsExclusive(s: Loop, a: Step)
    requires Exclusive(s.dedupIn, s.callers, s.dedupOut, s.inProcess) && Enabled(s, a)
    ensures var s' := Apply(s, a); Exclusive(s'.dedupIn, s'.callers, s'.dedupOut, s'.inProcess)
  {
    hide CallersWith, Added, Rescheduled;
    var s' := Apply(s, a);
    forall key
      ensures Held(s'.dedupIn, s'.callers, s'.dedupOut, key) == Bit(key in s'.inProcess)
    {
      assert Held(s.dedupIn, s.callers, s.dedupOut, key) == Bit(key in s.inProcess);
      if a.Pass? || a.Return? || a.Answer? {
        CallersWithUpdate(s.callers, a.i, s'.callers[a.i], key);
      }
    }
  }

  lemma {:induction false} CallersCount(callers: seq<Caller>, i: nat, key: nat)
    requires i < |callers| && Has(callers[i], key)
    ensures CallersWith(callers, key) >= 1
    ensures forall j | 0 <= j < |callers| && j != i && Has(callers[j], key) :: CallersWith(callers, key) >= 2
  {
    var n := |callers| - 1;
    if i < n {
      CallersCount(callers[..n], i, key);
    } else {
      forall j | 0 <= j < n && Has(callers[j], key)
        ensures CallersWith(callers, key) >= 2
      {
        CallersCount(callers[..n], j, key);
      }
    }
  }

  lemma {:induction false} IdleCallersHoldNothing(callers: seq<Caller>, key: nat)
    requires forall c | c in callers :: c.CallerIdle?
    ensures CallersWith(callers, key) == 0
  {
    if callers != [] {
      IdleCallersHoldNothing(callers[..|callers| - 1], key);
    }
  }

  lemma {:induction false} RunKeepsExclusive(s: Loop, run: seq<Step>)
    requires Exclusive(s.dedupIn, s.callers, s.dedupOut, s.inProcess) && ValidRun(s, run)
    ensures var e := End(s, run); Exclusive(e.dedupIn, e.callers, e.dedupOut, e.inProcess)
    decreases |run|
  {
    hide Apply, Enabled;
    if run != [] {
      StepKeepsExclusive(s, run[0]);
      RunKeepsExclusive(Apply(s, run[0]), run[1..]);
    }
  }

  /** In every interleaving the keys in process are exactly those of the messages held between dedupIn and
      dedupOut, each held once; so two callers never have the same key. */
  lemma ControllerIsExclusivePerKey(s: Loop, run: seq<Step>)
    requires Initial(s) && ValidRun(s, run)
    ensures var e := End(s, run); forall key :: Held(e.dedupIn, e.callers, e.dedupOut, key) == Bit(key in e.inProcess)
    ensures var e := End(s, run); forall i, j, key | 0 <= i < |e.callers| && 0 <= j < |e.callers| && i != j ::
      !(Has(e.callers[i], key) && Has(e.callers[j], key))
  {
    forall key
      ensures CallersWith(s.callers, key) == 0
    {
      IdleCallersHoldNothing(s.callers, key);
    }
    RunKeepsExclusive(s, run);
    var e := End(s, run);
    forall i, j, key | 0 <= i < |e.callers| && 0 <= j < |e.callers| && i != j
      ensures !(Has(e.callers[i], key) && Has(e.callers[j], key))
    {
      if Has(e.callers[i], key) {
        CallersCount(e.callers, i, key);
        assert Held(e.dedupIn, e.callers, e.dedupOut, key) <= 1;
      }
    }
  }

  /* ---------- what dedupIn receives ---------- */

  function InHand(d: DedupIn): multiset<Msg> {
    if d.InIdle? then multiset{} else multiset{d.m}
  }

  ghost predicate Accounted(h: History, d: DedupIn) {
    h.received == h.passed + h.repeated + InHand(d)
  }

  lemma {:induction false} EveryMessageIsPassedOrRepeated(s: Loop, run: seq<Step>)
    requires Accounted(s.history, s.dedupIn) && ValidRun(s, run)
    ensures Accounted(End(s, run).history, End(s, run).dedupIn)
    decreases |run|
  {
    if run != [] {
      assert Accounted(Apply(s, run[0]).history, Apply(s, run[0]).dedupIn);
      EveryMessageIsPassedOrRepeated(Apply(s, run[0]), run[1..]);
    }
  }

  /* ---------- the newest message of a key ---------- */

  /** A message of the key with the serial number is scheduled or travels through the loop. */
  predicate ItemsHave(items: seq<Item>, key: nat, serial: nat) {
    exists x :: x in items && x.key == key && x.serial == serial
  }

  predicate Is(m: Msg, key: nat, serial: nat) {
    m.key == key && m.serial == serial
  }

  predicate CallerHas(c: Caller, key: nat, serial: nat) {
    (c.Calling? || (c.Answered? && c.next.Some?)) && Is(c.m, key, serial)
  }

  predicate CallersHave(callers: seq<Caller>, key: nat, serial: nat) {
    exists i :: 0 <= i < |callers| && CallerHas(callers[i], key, serial)
  }

  predicate Travels(s: Loop, key: nat, serial: nat) {
    || ItemsHave(s.repeatCh, key, serial)
    || (!s.dedupIn.InIdle? && Is(s.dedupIn.m, key, serial))
    || CallersHave(s.callers, key, serial)
    || (!s.dedupOut.OutIdle? && s.dedupOut.next.Some? && Is(s.dedupOut.m, key, serial))
    || (s.repeater.RepeaterGot? && s.repeater.next.Some? && Is(s.repeater.m, key, serial))
  }

  predicate Present(s: Loop, key: nat, serial: nat) {
    ItemsHave(s.sched.items, key, serial) || Travels(s, key, serial)
  }

  /** No message is newer than the newest of its key. */
  ghost predicate Bounded(s: Loop) {
    && (forall key | key in s.history.latest :: s.history.latest[key] <= s.sched.serial)
    && (forall key, serial | Present(s, key, serial) :: key in s.history.latest && serial <= s.history.latest[key])
  }

  ghost predicate NewestKept(s: Loop) {
    forall key | key in s.history.latest ::
      s.history.latest[key] in s.history.finished || Present(s, key, s.history.latest[key])
  }

  ghost predicate ListOk(s: Loop) {
    Sorted(s.sched.items) && OnePerKey(s.sched.items)
  }

  /** Adding a message to the schedule brings nothing else in, and drops older messages only. */
  lemma AddedKeepsNewer(items: seq<Item>, m: Item, key: nat, serial: nat)
    requires Sorted(items) && OnePerKey(items)
    ensures ItemsHave(Added(items, m), key, serial) ==> ItemsHave(items, key, serial) || (m.key == key && m.serial == serial)
    ensures ItemsHave(items, key, serial) && (m.key != key || m.serial <= serial) ==> ItemsHave(Added(items, m), key, serial)
    ensures m.key == key && m.serial == serial && (forall x | x in items && x.key == key :: x.serial <= serial)
      ==> ItemsHave(Added(items, m), key, serial)
  {
    AddedProperties(items, m);
    FindIsMembership(items, m.key);
    FindIsMembership(Added(items, m), m.key);
    if x :| x in Added(items, m) && x.key == key && x.serial == serial {
      if key == m.key {
        FindIsUnique(Added(items, m), x);
      }
    }
    if x :| x in items && x.key == key && x.serial == serial {
      if key == m.key {
        FindIsUnique(items, x);
      } else {
        assert x in Added(items, m);
      }
    }
    hide Added, Find, Sorted, OnePerKey;
  }

  lemma CallersHaveUpdate(callers: seq<Caller>, i: nat, c: Caller, key: nat, serial: nat)
    requires i < |callers|
    ensures CallersHave(callers[i := c], key, serial) ==> CallerHas(c, key, serial) || CallersHave(callers, key, serial)
    ensures CallersHave(callers, key, serial) ==> CallerHas(callers[i], key, serial) || CallersHave(callers[i := c], key, serial)
    ensures CallerHas(c, key, serial) ==> CallersHave(callers[i := c], key, serial)
  {
    var updated := callers[i := c];
    if j :| 0 <= j < |callers| && CallerHas(callers[j], key, serial) {
      assert j == i || updated[j] == callers[j];
    }
    assert updated[i] == c;
  }

  lemma ItemsHaveParts(items: seq<Item>, x: Item, key: nat, serial: nat)
    ensures ItemsHave(items + [x], key, serial) <==> ItemsHave(items, key, serial) || (x.key == key && x.serial == serial)
    ensures items != [] ==>
      (ItemsHave(items, key, serial) <==>
         ItemsHave(items[1..], key, serial) || (items[0].key == key && items[0].serial == serial))
  {
    assert x in items + [x];
    assert items != [] ==> items == [items[0]] + items[1..];
  }

  /** A step between the channels neither makes nor loses a message, unless the controller finishes it. */
  lemma TravelStep(s: Loop, a: Step, key: nat, serial: nat)
    requires Enabled(s, a) && !a.In? && !a.Timer? && !a.FromRepeat?
    ensures var s' := Apply(s, a);
      && s'.sched == s.sched && s'.history.latest == s.history.latest && s.history.finished <= s'.history.finished
      && (Travels(s', key, serial) ==> Travels(s, key, serial))
      && (Travels(s, key, serial) ==> Travels(s', key, serial) || serial in s'.history.finished)
  {
    var s' := Apply(s, a);
    if a.Pass? || a.Return? || a.Answer? {
      CallersHaveUpdate(s.callers, a.i, s'.callers[a.i], key, serial);
    }
    if a.DedupRepeat? || (a.Repeat? && s.repeater.next.Some?) {
      ItemsHaveParts(s.repeatCh, s'.repeatCh[|s.repeatCh|], key, serial);
    }
    hide CallersHave, ItemsHave;
  }

  /** The same for the steps of the scheduler, for a message that no other of its key is newer than. */
  lemma SchedulerStep(s: Loop, a: Step, key: nat, serial: nat)
    requires ListOk(s) && Bounded(s) && Enabled(s, a) && (a.Timer? || a.FromRepeat?)
    ensures var s' := Apply(s, a);
      && s'.history.latest == s.history.latest && s'.history.finished == s.history.finished && s'.sched.serial == s.sched.serial
      && (Present(s', key, serial) ==> Present(s, key, serial))
      && (key in s.history.latest && serial == s.history.latest[key] && Present(s, key, serial) ==> Present(s', key, serial))
  {
    var s' := Apply(s, a);
    if a.Timer? {
      if s.sched.items != [] {
        ItemsHaveParts(s.sched.items, s.sched.items[0], key, serial);
      }
    } else {
      var m := s.repeatCh[0];
      assert ItemsHave(s.repeatCh, m.key, m.serial);
      assert Present(s, m.key, m.serial);
      ItemsHaveParts(s.repeatCh, m, key, serial);
      AddedKeepsNewer(s.sched.items, m, key, serial);
      forall x | x in s.sched.items && x.key == key
        ensures key in s.history.latest && x.serial <= s.history.latest[key]
      {
        assert ItemsHave(s.sched.items, key, x.serial);
        assert Present(s, key, x.serial);
      }
    }
    hide CallersHave, ItemsHave, Added, Bounded, ListOk;
  }

  /** A new message of a key is newer than all others and becomes the newest. */
  lemma InStep(s: Loop, a: Step, key: nat, serial: nat)
    requires ListOk(s) && Bounded(s) && Enabled(s, a) && a.In?
    ensures var s' := Apply(s, a);
      && (Present(s', key, serial) ==> Present(s, key, serial) || (key == a.key && serial == s'.sched.serial))
      && (key == a.key && serial == s'.sched.serial ==> Present(s', key, serial))
      && (key != a.key && Present(s, key, serial) ==> Present(s', key, serial))
  {
    var m := Item(a.key, a.sp, s.sched.serial + 1, a.start);
    AddedKeepsNewer(s.sched.items, m, key, serial);
    forall x | x in s.sched.items
      ensures x.serial <= s.sched.serial
    {
      assert ItemsHave(s.sched.items, x.key, x.serial);
      assert Present(s, x.key, x.serial);
    }
    hide CallersHave, ItemsHave, Added, Bounded, ListOk;
  }

  ghost predicate LoopInv(s: Loop) {
    ListOk(s) && Bounded(s) && NewestKept(s)
  }

  lemma StepKeepsNewest(s: Loop, a: Step)
    requires LoopInv(s) && Enabled(s, a)
    ensures LoopInv(Apply(s, a))
  {
    var s' := Apply(s, a);
    assert ListOk(s') by {
      match a
      case In(key, sp, start, now, at) => StepKeepsList(s.sched, OnIn(key, sp, start, now, at));
      case Timer(accepted, now, at) => StepKeepsList(s.sched, OnTimer(accepted, now, at));
      case FromRepeat(now, at) => StepKeepsList(s.sched, OnRepeat(s.repeatCh[0], now, at));
      case _ =>
    }
    forall key, serial
      ensures Present(s', key, serial) ==> key in s'.history.latest && serial <= s'.history.latest[key]
      ensures key in s'.history.latest && serial == s'.history.latest[key] ==> serial in s'.history.finished || Present(s', key, serial)
    {
      assert Present(s, key, serial) ==> key in s.history.latest && serial <= s.history.latest[key];
      if a.In? {
        InStep(s, a, key, serial);
      } else if a.Timer? || a.FromRepeat? {
        SchedulerStep(s, a, key, serial);
      } else {
        TravelStep(s, a, key, serial);
      }
      hide Travels, ItemsHave, ListOk;
    }
    hide Present, ListOk;
  }

  lemma {:induction false} RunKeepsNewest(s: Loop, run: seq<Step>)
    requires LoopInv(s) && ValidRun(s, run)
    ensures LoopInv(End(s, run))
    decreases |run|
  {
    hide Apply, Enabled, LoopInv;
    if run != [] {
      StepKeepsNewest(s, run[0]);
      RunKeepsNewest(Apply(s, run[0]), run[1..]);
    }
  }

  /** The newest message of a key is never lost: in every interleaving it is scheduled, travels through the
      loop, or was finished by the controller. */
  lemma NewestMessageIsNeverLost(s: Loop, run: seq<Step>, key: nat)
    requires Initial(s) && ValidRun(s, run)
    ensures
      var e := End(s, run);
      key in e.history.latest ==>
        e.history.latest[key] in e.history.finished || Present(e, key, e.history.latest[key])
  {
    assert forall i | 0 <= i < |s.callers| :: s.callers[i] in s.callers;
    assert LoopInv(s);
    RunKeepsNewest(s, run);
  }
}
