/** What travels through the control loop is what came in, and it is scheduled for the times that were said. */
module ControlLoopItems {
  import opened Options
  import opened Schedule
  import opened ControlLoop

  function MsgOf(x: Item): Msg {
    Msg(x.key, x.sp, x.serial)
  }

  /* ---------- what each step says ---------- */

  /** The message of an In step, with the next serial number. */
  ghost function InputOf(s: Loop, a: Step): iset<Msg> {
    if a.In? then iset{Msg(a.key, a.sp, s.sched.serial + 1)} else iset{}
  }

  /** The times that are said for a message: when it comes in, by its controller, and ten seconds after it was
      found to be in process. */
  ghost function SaidBy(s: Loop, a: Step): iset<Item>
    requires Enabled(s, a)
  {
    match a
    case In(key, sp, start, _, _) => iset{Item(key, sp, s.sched.serial + 1, start)}
    case Return(i, next) =>
      if next.Some? then iset{Item(s.callers[i].m.key, s.callers[i].m.sp, s.callers[i].m.serial, next.value)} else iset{}
    case DedupRepeat(now) => iset{Item(s.dedupIn.m.key, s.dedupIn.m.sp, s.dedupIn.m.serial, now + 10_000_000_000)}
    case _ => iset{}
  }

  ghost function Inputs(s: Loop, run: seq<Step>): iset<Msg>
    requires ValidRun(s, run)
    decreases |run|
  {
    if run == [] then iset{} else InputOf(s, run[0]) + Inputs(Apply(s, run[0]), run[1..])
  }

  ghost function Said(s: Loop, run: seq<Step>): iset<Item>
    requires ValidRun(s, run)
    decreases |run|
  {
    if run == [] then iset{} else SaidBy(s, run[0]) + Said(Apply(s, run[0]), run[1..])
  }

  /* ---------- what the steps keep ---------- */

  ghost predicate ItemsOk(items: seq<Item>, msgs: iset<Msg>, said: iset<Item>) {
    forall x | x in items :: MsgOf(x) in msgs && x in said
  }

  /** A message in the hands of a goroutine; what its controller answered was said. */
  ghost predicate HandOk(m: Msg, next: Option<int>, msgs: iset<Msg>, said: iset<Item>) {
    m in msgs && (next.Some? ==> Item(m.key, m.sp, m.serial, next.value) in said)
  }

  ghost predicate CallersOk(callers: seq<Caller>, msgs: iset<Msg>, said: iset<Item>) {
    forall i | 0 <= i < |callers| && !callers[i].CallerIdle? ::
      HandOk(callers[i].m, if callers[i].Answered? then callers[i].next else None, msgs, said)
  }

  ghost predicate HandsOk(s: Loop, msgs: iset<Msg>, said: iset<Item>) {
    && (!s.dedupIn.InIdle? ==> s.dedupIn.m in msgs)
    && CallersOk(s.callers, msgs, said)
    && (!s.dedupOut.OutIdle? ==> HandOk(s.dedupOut.m, s.dedupOut.next, msgs, said))
    && (s.repeater.RepeaterGot? ==> HandOk(s.repeater.m, s.repeater.next, msgs, said))
  }

  ghost predicate LoopOk(s: Loop, msgs: iset<Msg>, said: iset<Item>) {
    ItemsOk(s.sched.items, msgs, said) && ItemsOk(s.repeatCh, msgs, said) && HandsOk(s, msgs, said)
  }

  lemma AddedOk(items: seq<Item>, m: Item, msgs: iset<Msg>, said: iset<Item>)
    requires ItemsOk(items, msgs, said) && MsgOf(m) in msgs && m in said
    ensures ItemsOk(Added(items, m), msgs, said)
  {
    forall x | x in Added(items, m)
      ensures x == m || x in items
    {
      AddedIsOneOf(items, m, x);
    }
    hide Added;
  }

  lemma AddedIsOneOf(items: seq<Item>, m: Item, x: Item)
    requires x in Added(items, m)
    ensures x == m || x in items
  {
    if Find(items, m.key).Some? && m.serial > Find(items, m.key).value.serial {
      InsertedIsOneOf(Without(items, m.key), m, x);
      WithoutIsPart(items, m.key, x);
    } else if Find(items, m.key).None? {
      InsertedIsOneOf(items, m, x);
    }
    hide Inserted, Without, Find;
  }

  lemma {:induction false} InsertedIsOneOf(items: seq<Item>, m: Item, x: Item)
    ensures x in Inserted(items, m) ==> x == m || x in items
  {
    if items != [] {
      InsertedIsOneOf(items[1..], m, x);
    }
  }

  lemma {:induction false} WithoutIsPart(items: seq<Item>, key: nat, x: Item)
    ensures x in Without(items, key) ==> x in items
  {
    if items != [] {
      WithoutIsPart(items[1..], key, x);
    }
  }

  lemma MoreIsOk(s: Loop, msgs: iset<Msg>, said: iset<Item>, moreMsgs: iset<Msg>, more: iset<Item>)
    requires LoopOk(s, msgs, said)
    ensures LoopOk(s, msgs + moreMsgs, said + more)
  {
  }

  lemma HandsStep(s: Loop, a: Step, msgs: iset<Msg>, said: iset<Item>)
    requires Enabled(s, a) && !a.In? && !a.Timer? && !a.FromRepeat?
    requires LoopOk(s, msgs, said) && SaidBy(s, a) <= said
    ensures LoopOk(Apply(s, a), msgs, said)
  {
    var s' := Apply(s, a);
    if a.DedupRepeat? || (a.Repeat? && s.repeater.next.Some?) {
      var x := s'.repeatCh[|s.repeatCh|];
      assert MsgOf(x) in msgs && x in said;
    }
  }

  lemma SchedulerStep(s: Loop, a: Step, msgs: iset<Msg>, said: iset<Item>)
    requires Enabled(s, a) && (a.In? || a.Timer? || a.FromRepeat?)
    requires LoopOk(s, msgs, said) && InputOf(s, a) <= msgs && SaidBy(s, a) <= said
    ensures LoopOk(Apply(s, a), msgs, said)
  {
    if a.In? {
      AddedOk(s.sched.items, Item(a.key, a.sp, s.sched.serial + 1, a.start), msgs, said);
    } else if a.FromRepeat? {
      assert s.repeatCh[0] in s.repeatCh;
      AddedOk(s.sched.items, s.repeatCh[0], msgs, said);
    } else if s.sched.items != [] {
      assert s.sched.items[0] in s.sched.items;
    }
    hide Added, CallersOk, HandOk, TimerToTop;
  }

  lemma StepIsOk(s: Loop, a: Step, msgs: iset<Msg>, said: iset<Item>)
    requires Enabled(s, a) && LoopOk(s, msgs, said)
    ensures LoopOk(Apply(s, a), msgs + InputOf(s, a), said + SaidBy(s, a))
  {
    MoreIsOk(s, msgs, said, InputOf(s, a), SaidBy(s, a));
    if a.In? || a.Timer? || a.FromRepeat? {
      SchedulerStep(s, a, msgs + InputOf(s, a), said + SaidBy(s, a));
    } else {
      HandsStep(s, a, msgs + InputOf(s, a), said + SaidBy(s, a));
    }
    hide LoopOk, Apply, InputOf, SaidBy;
  }

  lemma {:induction false} RunIsOk(s: Loop, run: seq<Step>, msgs: iset<Msg>, said: iset<Item>)
    requires ValidRun(s, run) && LoopOk(s, msgs, said)
    ensures LoopOk(End(s, run), msgs + Inputs(s, run), said + Said(s, run))
    decreases |run|
  {
    hide LoopOk, Apply, Enabled, InputOf, SaidBy;
    if run == [] {
      assert msgs + iset{} == msgs && said + iset{} == said;
    } else {
      var s', a := Apply(s, run[0]), run[0];
      StepIsOk(s, a, msgs, said);
      RunIsOk(s', run[1..], msgs + InputOf(s, a), said + SaidBy(s, a));
      assert msgs + InputOf(s, a) + Inputs(s', run[1..]) == msgs + (InputOf(s, a) + Inputs(s', run[1..]));
      assert said + SaidBy(s, a) + Said(s', run[1..]) == said + (SaidBy(s, a) + Said(s', run[1..]));
    }
  }

  /** In every interleaving each message, wherever it is, has the key, the parameter and the serial number with
      which it came in, and each scheduled or repeated one starts at a time that was said for it: on entry, by
      its controller, or ten seconds after it was found in process. */
  lemma ItemsAreAsSaid(s: Loop, run: seq<Step>)
    requires Initial(s) && ValidRun(s, run)
    ensures
      var e := End(s, run);
      && (forall x | x in e.sched.items || x in e.repeatCh :: MsgOf(x) in Inputs(s, run) && x in Said(s, run))
      && (forall i | 0 <= i < |e.callers| && !e.callers[i].CallerIdle? :: e.callers[i].m in Inputs(s, run))
      && (!e.dedupIn.InIdle? ==> e.dedupIn.m in Inputs(s, run))
  {
    assert forall i | 0 <= i < |s.callers| :: s.callers[i] in s.callers;
    RunIsOk(s, run, iset{}, iset{});
    assert iset{} + Inputs(s, run) == Inputs(s, run) && iset{} + Said(s, run) == Said(s, run);
    hide Inputs, Said;
  }
}
