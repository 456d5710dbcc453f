/** Progress of the control loop: what travels through it comes to rest, whatever the channels hold. */
module ControlLoopProgress {
  import opened Options
  import opened Schedule
  import opened ControlLoop
  import opened ControlLoopTheorems

  /** The steps that the loop takes by itself: neither a new message nor a timer. */
  predicate Internal(a: Step) {
    !a.In? && !a.Timer?
  }

  ghost predicate AllIdle(callers: seq<Caller>) {
    forall i | 0 <= i < |callers| :: callers[i].CallerIdle?
  }

  /** Nothing travels. */
  ghost predicate AtRest(s: Loop) {
    && s.repeatCh == [] && s.dedupIn.InIdle? && AllIdle(s.callers) && s.dedupOut.OutIdle? && s.repeater.RepeaterIdle?
  }

  /* ---------- no deadlock ---------- */

  lemma CallersEnable(s: Loop) returns (a: Step)
    requires !AllIdle(s.callers) && s.dedupOut.OutIdle?
    ensures Enabled(s, a) && Internal(a)
  {
    var i: nat :| i < |s.callers| && !s.callers[i].CallerIdle?;
    a := if s.callers[i].Calling? then Return(i, None) else Answer(i);
  }

  /** Whenever something travels some internal step is enabled: the goroutines that send to each other in a
      circle, through a repeat channel of capacity 3, never block one another for ever. */
  lemma NoDeadlock(s: Loop) returns (a: Step)
    requires s.callers != [] && !AtRest(s)
    ensures Enabled(s, a) && Internal(a)
  {
    if s.repeatCh != [] {
      a := FromRepeat(0, 0);
    } else if s.repeater.RepeaterGot? {
      a := Repeat;
    } else if s.dedupOut.OutGot? {
      a := DedupDelete;
    } else if s.dedupOut.OutDeleted? {
      a := ToRepeater;
    } else if !AllIdle(s.callers) {
      a := CallersEnable(s);
    } else {
      a := match s.dedupIn
        case InReceived(_) => DedupCheck
        case InChecked(_) => DedupStore
        case InRepeating(_) => DedupRepeat(0)
        case InPassing(_) => Pass(0);
    }
  }

  /** The repeat channel is never over its capacity. */
  lemma {:induction false} RepeatChannelIsBounded(s: Loop, run: seq<Step>)
    requires |s.repeatCh| <= REPEAT_CAPACITY && ValidRun(s, run)
    ensures |End(s, run).repeatCh| <= REPEAT_CAPACITY
    decreases |run|
  {
    if run != [] {
      RepeatChannelIsBounded(Apply(s, run[0]), run[1..]);
    }
  }

  /* ---------- no endless travel ---------- */

  /** How many internal steps a message is away from the schedule or from its end. */
  function InDistance(d: DedupIn): nat {
    match d
    case InIdle => 0
    case InReceived(_) => 9
    case InChecked(_) => 8
    case InRepeating(_) => 2
    case InPassing(_) => 7
  }

  function CallerDistance(c: Caller): nat {
    match c
    case CallerIdle => 0
    case Calling(_) => 6
    case Answered(_, _) => 5
  }

  function CallersDistance(callers: seq<Caller>): nat {
    if callers == [] then 0
    else CallersDistance(callers[..|callers| - 1]) + CallerDistance(callers[|callers| - 1])
  }

  function OutDistance(d: DedupOut): nat {
    match d
    case OutIdle => 0
    case OutGot(_, _) => 4
    case OutDeleted(_, _) => 3
  }

  function Distance(s: Loop): nat {
    |s.repeatCh| + InDistance(s.dedupIn) + CallersDistance(s.callers) + OutDistance(s.dedupOut)
    + if s.repeater.RepeaterGot? then 2 else 0
  }

  lemma {:induction false} CallersDistanceUpdate(callers: seq<Caller>, i: nat, c: Caller)
    requires i < |callers|
    ensures CallersDistance(callers[i := c]) + CallerDistance(callers[i]) == CallersDistance(callers) + CallerDistance(c)
  {
    var n := |callers| - 1;
    var updated := callers[i := c];
    if i < n {
      CallersDistanceUpdate(callers[..n], i, c);
      assert updated[..n] == callers[..n][i := c];
    } else {
      assert updated[..n] == callers[..n];
    }
  }

  /** Every internal step decreases the distance. */
  lemma InternalStepDecreases(s: Loop, a: Step)
    requires Enabled(s, a) && Internal(a)
    ensures Distance(Apply(s, a)) < Distance(s)
  {
    if a.Pass? || a.Return? || a.Answer? {
      CallersDistanceUpdate(s.callers, a.i, Apply(s, a).callers[a.i]);
    }
    hide CallersDistance, Added, Rescheduled;
  }

  ghost predicate InternalRun(run: seq<Step>) {
    forall i | 0 <= i < |run| :: Internal(run[i])
  }

  /** No run of internal steps, in whatever order, is longer than the distance at its beginning. */
  lemma {:induction false} InternalRunsAreShort(s: Loop, run: seq<Step>)
    requires ValidRun(s, run) && InternalRun(run)
    ensures |run| + Distance(End(s, run)) <= Distance(s)
    decreases |run|
  {
    hide Apply, Enabled, Distance, Internal;
    if run != [] {
      InternalStepDecreases(s, run[0]);
      InternalRunsAreShort(Apply(s, run[0]), run[1..]);
    }
  }

  /* ---------- coming to rest ---------- */

  lemma StepFirst(s: Loop, a: Step, rest: seq<Step>)
    requires Enabled(s, a) && ValidRun(Apply(s, a), rest)
    ensures ValidRun(s, [a] + rest) && End(s, [a] + rest) == End(Apply(s, a), rest)
  {
    hide Apply, Enabled;
    assert ([a] + rest)[1..] == rest;
  }

  lemma {:induction false} AppendRun(s: Loop, run: seq<Step>, more: seq<Step>)
    requires ValidRun(s, run) && ValidRun(End(s, run), more)
    ensures ValidRun(s, run + more) && End(s, run + more) == End(End(s, run), more)
    decreases |run|
  {
    hide Apply, Enabled;
    if run == [] {
      assert run + more == more;
    } else {
      AppendRun(Apply(s, run[0]), run[1..], more);
      assert (run + more)[1..] == run[1..] + more;
    }
  }

  lemma {:induction false} InternalStepsComeToRest(s: Loop) returns (run: seq<Step>)
    requires s.callers != []
    ensures ValidRun(s, run) && InternalRun(run) && AtRest(End(s, run))
    decreases Distance(s)
  {
    run := [];
    if !AtRest(s) {
      var a := NoDeadlock(s);
      InternalStepDecreases(s, a);
      assert Apply(s, a).callers != [];
      run := InternalStepsComeToRest(Apply(s, a));
      StepFirst(s, a, run);
      run := [a] + run;
    }
    hide Apply, Enabled, AtRest, Internal;
  }

  /** From every reachable state internal steps alone lead to rest, where no key is in process and the
      newest message of each key is on the schedule or was finished. */
  lemma NewestIsScheduledOrFinished(s: Loop, run: seq<Step>) returns (more: seq<Step>)
    requires Initial(s) && ValidRun(s, run) && s.callers != []
    ensures ValidRun(End(s, run), more) && InternalRun(more)
    ensures var e := End(End(s, run), more);
      && AtRest(e) && e.inProcess == {}
      && forall key | key in e.history.latest ::
           e.history.latest[key] in e.history.finished || ItemsHave(e.sched.items, key, e.history.latest[key])
  {
    CallersStay(s, run);
    more := InternalStepsComeToRest(End(s, run));
    AppendRun(s, run, more);
    var e := End(End(s, run), more);
    ControllerIsExclusivePerKey(s, run + more);
    RestIsEmpty(e);
    forall key | key in e.history.latest
      ensures e.history.latest[key] in e.history.finished || ItemsHave(e.sched.items, key, e.history.latest[key])
    {
      NewestMessageIsNeverLost(s, run + more, key);
    }
    hide Initial, Apply, Enabled, Held, ItemsHave;
  }

  lemma {:induction false} CallersStay(s: Loop, run: seq<Step>)
    requires ValidRun(s, run)
    ensures |End(s, run).callers| == |s.callers|
    decreases |run|
  {
    if run != [] {
      CallersStay(Apply(s, run[0]), run[1..]);
    }
  }

  lemma RestIsEmpty(s: Loop)
    requires AtRest(s) && forall key :: Held(s.dedupIn, s.callers, s.dedupOut, key) == Bit(key in s.inProcess)
    ensures s.inProcess == {}
    ensures forall key, serial :: !Travels(s, key, serial)
  {
    forall key
      ensures key !in s.inProcess
    {
      IdleCallersHoldNothing(s.callers, key);
      assert Held(s.dedupIn, s.callers, s.dedupOut, key) == 0;
    }
  }

  /* ---------- every newest message can be finished ---------- */

  /** At rest, with no key in process. */
  ghost predicate Ready(s: Loop) {
    s.callers != [] && AtRest(s) && s.inProcess == {}
  }

  /** From the front of the schedule to the end of its controller, step by step. */
  function Round(): seq<Step> {
    [Timer(true, 0, 0), DedupCheck, DedupStore, Pass(0), Return(0, None), Answer(0), DedupDelete, ToRepeater, Repeat]
  }

  lemma TwoParts(s: Loop, a: seq<Step>, t: Loop, b: seq<Step>, u: Loop)
    requires ValidRun(s, a) && End(s, a) == t && ValidRun(t, b) && End(t, b) == u
    ensures ValidRun(s, a + b) && End(s, a + b) == u
  {
    AppendRun(s, a, b);
    hide ValidRun, End;
  }

  lemma OneStep(s: Loop, a: Step)
    requires Enabled(s, a)
    ensures ValidRun(s, [a]) && End(s, [a]) == Apply(s, a)
  {
    hide Enabled, Apply;
    assert [a][1..] == [];
  }

  lemma ThreeSteps(s: Loop, a: Step, b: Step, c: Step)
    requires Enabled(s, a) && Enabled(Apply(s, a), b) && Enabled(Apply(Apply(s, a), b), c)
    ensures ValidRun(s, [a, b, c]) && End(s, [a, b, c]) == Apply(Apply(Apply(s, a), b), c)
  {
    hide Enabled, Apply;
    OneStep(s, a);
    OneStep(Apply(s, a), b);
    OneStep(Apply(Apply(s, a), b), c);
    TwoParts(s, [a], Apply(s, a), [b], Apply(Apply(s, a), b));
    TwoParts(s, [a] + [b], Apply(Apply(s, a), b), [c], Apply(Apply(Apply(s, a), b), c));
    assert [a] + [b] + [c] == [a, b, c];
  }

  /** The front message is offered to the callers: its key is not in process. */
  lemma FrontIsOffered(s: Loop) returns (t: Loop)
    requires Ready(s) && s.sched.items != []
    ensures var x := s.sched.items[0];
      var m := Msg(x.key, x.sp, x.serial);
      && ValidRun(s, [Timer(true, 0, 0), DedupCheck, DedupStore]) && End(s, [Timer(true, 0, 0), DedupCheck, DedupStore]) == t
      && t == s.(sched := t.sched, dedupIn := InPassing(m), inProcess := {m.key}, history := t.history)
      && t.sched.items == s.sched.items[1..]
      && t.history.latest == s.history.latest && t.history.finished == s.history.finished
  {
    ThreeSteps(s, Timer(true, 0, 0), DedupCheck, DedupStore);
    t := End(s, [Timer(true, 0, 0), DedupCheck, DedupStore]);
    hide ValidRun, End, AllIdle;
  }

  /** A controller finishes it. */
  lemma OfferedIsFinished(s: Loop, m: Msg) returns (t: Loop)
    requires s.callers != [] && AllIdle(s.callers) && s.dedupIn == InPassing(m) && s.dedupOut.OutIdle?
    ensures ValidRun(s, [Pass(0), Return(0, None), Answer(0)]) && End(s, [Pass(0), Return(0, None), Answer(0)]) == t
    ensures t == s.(dedupIn := InIdle, dedupOut := OutGot(m, None), history := t.history)
    ensures t.history.latest == s.history.latest && t.history.finished == s.history.finished + {m.serial}
  {
    ThreeSteps(s, Pass(0), Return(0, None), Answer(0));
    t := End(s, [Pass(0), Return(0, None), Answer(0)]);
    assert t.callers == s.callers;
    hide ValidRun, End;
  }

  /** And its key is free again. */
  lemma FinishedIsForgotten(s: Loop, m: Msg) returns (t: Loop)
    requires s.dedupOut == OutGot(m, None) && s.repeater.RepeaterIdle?
    ensures ValidRun(s, [DedupDelete, ToRepeater, Repeat]) && End(s, [DedupDelete, ToRepeater, Repeat]) == t
    ensures t == s.(inProcess := s.inProcess - {m.key}, dedupOut := OutIdle)
  {
    ThreeSteps(s, DedupDelete, ToRepeater, Repeat);
    t := End(s, [DedupDelete, ToRepeater, Repeat]);
    hide ValidRun, End;
  }

  lemma RoundFinishesFront(s: Loop)
    requires Ready(s) && s.sched.items != []
    ensures ValidRun(s, Round())
    ensures
      var e := End(s, Round());
      && Ready(e) && e.sched.items == s.sched.items[1..]
      && e.history.latest == s.history.latest && e.history.finished == s.history.finished + {s.sched.items[0].serial}
  {
    var x := s.sched.items[0];
    var m := Msg(x.key, x.sp, x.serial);
    var t := FrontIsOffered(s);
    var u := OfferedIsFinished(t, m);
    var v := FinishedIsForgotten(u, m);
    var a, b, c := [Timer(true, 0, 0), DedupCheck, DedupStore], [Pass(0), Return(0, None), Answer(0)], [DedupDelete, ToRepeater, Repeat];
    TwoParts(s, a, t, b, u);
    TwoParts(s, a + b, u, c, v);
    assert a + b + c == Round();
    hide ValidRun, End, AllIdle, Round;
  }

  lemma {:induction false} AllScheduledFinished(s: Loop) returns (run: seq<Step>)
    requires Ready(s)
    ensures ValidRun(s, run)
    ensures
      var e := End(s, run);
      && e.history.latest == s.history.latest && s.history.finished <= e.history.finished
      && forall x | x in s.sched.items :: x.serial in e.history.finished
    decreases |s.sched.items|
  {
    run := [];
    if s.sched.items != [] {
      RoundFinishesFront(s);
      var t := End(s, Round());
      var rest := AllScheduledFinished(t);
      TwoParts(s, Round(), t, rest, End(t, rest));
      run := Round() + rest;
      assert s.sched.items == [s.sched.items[0]] + s.sched.items[1..];
    }
    hide Ready, Apply, Enabled, Round;
  }

  /** Whatever happened before, the loop can finish the newest message of every key: from each reachable state
      there is a run, in which the controller finishes what it is given, that ends with all of them finished. */
  lemma NewestCanBeFinished(s: Loop, run: seq<Step>) returns (more: seq<Step>)
    requires Initial(s) && ValidRun(s, run) && s.callers != []
    ensures ValidRun(End(s, run), more)
    ensures var e := End(End(s, run), more);
      && e.history.latest == End(s, run).history.latest
      && forall key | key in e.history.latest :: e.history.latest[key] in e.history.finished
  {
    var first := NewestIsScheduledOrFinished(s, run);
    CallersStay(s, run);
    CallersStay(End(s, run), first);
    InternalKeepsLatest(End(s, run), first);
    var r := End(End(s, run), first);
    var second := AllScheduledFinished(r);
    var e := End(r, second);
    TwoParts(End(s, run), first, r, second, e);
    more := first + second;
    forall key | key in e.history.latest
      ensures e.history.latest[key] in e.history.finished
    {
      if e.history.latest[key] !in r.history.finished {
        assert ItemsHave(r.sched.items, key, r.history.latest[key]);
      }
    }
    hide Initial, Apply, Enabled, ValidRun, End, AtRest, Internal;
  }

  lemma {:induction false} InternalKeepsLatest(s: Loop, run: seq<Step>)
    requires ValidRun(s, run) && InternalRun(run)
    ensures End(s, run).history.latest == s.history.latest
    decreases |run|
  {
    if run != [] {
      InternalKeepsLatest(Apply(s, run[0]), run[1..]);
    }
  }
}
