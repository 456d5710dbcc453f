/** The control loop of pkg/ctrlloop as a transition system: the scheduler, dedupIn, any number of callers,
    dedupOut and the repeater, connected by rendezvous channels and by the buffered repeat channel.  The
    set of keys in process is shared by dedupIn and dedupOut. */
module ControlLoop {
  import opened Options
  import opened Schedule

  const REPEAT_CAPACITY := 3
  const DEDUP_SCHEDULE_INTERVAL := 10_000_000_000

  datatype Msg = Msg(key: nat, sp: nat, serial: nat)

  /** Received; found not in process; to be repeated; stored as in process and offered to the callers. */
  datatype DedupIn = InIdle | InReceived(m: Msg) | InChecked(m: Msg) | InRepeating(m: Msg) | InPassing(m: Msg)

  /** `next` is the start time that the controller function returned, if any. */
  datatype Caller = CallerIdle | Calling(m: Msg) | Answered(m: Msg, next: Option<int>)
  datatype DedupOut = OutIdle | OutGot(m: Msg, next: Option<int>) | OutDeleted(m: Msg, next: Option<int>)
  datatype Repeater = RepeaterIdle | RepeaterGot(m: Msg, next: Option<int>)

  /** What happened so far: the newest serial number of each key, the serial numbers that the controller
      finished, and the messages that dedupIn received, passed and repeated. */
  datatype History = History(latest: map<nat, nat>, finished: set<nat>,
                             received: multiset<Msg>, passed: multiset<Msg>, repeated: multiset<Msg>)

  datatype Loop = Loop(sched: State, repeatCh: seq<Item>, dedupIn: DedupIn, inProcess: set<nat>,
                       callers: seq<Caller>, dedupOut: DedupOut, repeater: Repeater, history: History)

  datatype Step =
    | In(key: nat, sp: nat, start: int, now: int, at: int)
    | Timer(accepted: bool, now: int, at: int)
    | FromRepeat(now: int, at: int)
    | DedupCheck
    | DedupStore
    | DedupRepeat(now: int)
    | Pass(i: nat)
    | Return(i: nat, next: Option<int>)
    | Answer(i: nat)
    | DedupDelete
    | ToRepeater
    | Repeat

  predicate Enabled(s: Loop, a: Step) {
    match a
    case In(_, _, _, _, _) => true
    case Timer(accepted, _, _) => accepted ==> s.dedupIn.InIdle?
    case FromRepeat(_, _) => s.repeatCh != []
    case DedupCheck => s.dedupIn.InReceived?
    case DedupStore => s.dedupIn.InChecked?
    case DedupRepeat(_) => s.dedupIn.InRepeating? && |s.repeatCh| < REPEAT_CAPACITY
    case Pass(i) => s.dedupIn.InPassing? && i < |s.callers| && s.callers[i].CallerIdle?
    case Return(i, _) => i < |s.callers| && s.callers[i].Calling?
    case Answer(i) => i < |s.callers| && s.callers[i].Answered? && s.dedupOut.OutIdle?
    case DedupDelete => s.dedupOut.OutGot?
    case ToRepeater => s.dedupOut.OutDeleted? && s.repeater.RepeaterIdle?
    case Repeat => s.repeater.RepeaterGot? && (s.repeater.next.Some? ==> |s.repeatCh| < REPEAT_CAPACITY)
  }

  function Rescheduled(m: Msg, start: int): Item {
    Item(m.key, m.sp, m.serial, start)
  }

  function TimerStep(s: Loop, accepted: bool, now: int, at: int): Loop {
    var sched := Schedule.Step(s.sched, OnTimer(accepted, now, at));
    if accepted && s.sched.items != [] then
      var x := s.sched.items[0];
      var m := Msg(x.key, x.sp, x.serial);
      s.(sched := sched, dedupIn := InReceived(m), history := s.history.(received := s.history.received + multiset{m}))
    else s.(sched := sched)
  }

  function Apply(s: Loop, a: Step): Loop
    requires Enabled(s, a)
  {
    match a
    case In(key, sp, start, now, at) =>
      s.(sched := Schedule.Step(s.sched, OnIn(key, sp, start, now, at)),
         history := s.history.(latest := s.history.latest[key := s.sched.serial + 1]))
    case Timer(accepted, now, at) => TimerStep(s, accepted, now, at)
    case FromRepeat(now, at) =>
      s.(sched := Schedule.Step(s.sched, OnRepeat(s.repeatCh[0], now, at)), repeatCh := s.repeatCh[1..])
    case DedupCheck =>
      var m := s.dedupIn.m;
      s.(dedupIn := if m.key in s.inProcess then InRepeating(m) else InChecked(m))
    case DedupStore => s.(inProcess := s.inProcess + {s.dedupIn.m.key}, dedupIn := InPassing(s.dedupIn.m))
    case DedupRepeat(now) =>
      s.(repeatCh := s.repeatCh + [Rescheduled(s.dedupIn.m, now + DEDUP_SCHEDULE_INTERVAL)], dedupIn := InIdle,
         history := s.history.(repeated := s.history.repeated + multiset{s.dedupIn.m}))
    case Pass(i) =>
      s.(callers := s.callers[i := Calling(s.dedupIn.m)], dedupIn := InIdle,
         history := s.history.(passed := s.history.passed + multiset{s.dedupIn.m}))
    case Return(i, next) =>
      var m := s.callers[i].m;
      s.(callers := s.callers[i := Answered(m, next)],
         history := if next.None? then s.history.(finished := s.history.finished + {m.serial}) else s.history)
    case Answer(i) =>
      s.(dedupOut := OutGot(s.callers[i].m, s.callers[i].next), callers := s.callers[i := CallerIdle])
    case DedupDelete => s.(inProcess := s.inProcess - {s.dedupOut.m.key}, dedupOut := OutDeleted(s.dedupOut.m, s.dedupOut.next))
    case ToRepeater => s.(repeater := RepeaterGot(s.dedupOut.m, s.dedupOut.next), dedupOut := OutIdle)
    case Repeat =>
      s.(repeatCh := if s.repeater.next.Some? then s.repeatCh + [Rescheduled(s.repeater.m, s.repeater.next.value)] else s.repeatCh,
         repeater := RepeaterIdle)
  }

  ghost predicate ValidRun(s: Loop, run: seq<Step>)
    decreases |run|
  {
    run == [] || (Enabled(s, run[0]) && ValidRun(Apply(s, run[0]), run[1..]))
  }

  ghost function End(s: Loop, run: seq<Step>): Loop
    requires ValidRun(s, run)
    decreases |run|
  {
    if run == [] then s else End(Apply(s, run[0]), run[1..])
  }

  /** Nothing received yet; all goroutines wait. */
  ghost predicate Initial(s: Loop) {
    && s.sched == State([], 0, None) && s.repeatCh == [] && s.dedupIn.InIdle? && s.inProcess == {}
    && (forall c | c in s.callers :: c.CallerIdle?)
    && s.dedupOut.OutIdle? && s.repeater.RepeaterIdle?
    && s.history == History(map[], {}, multiset{}, multiset{}, multiset{})
  }
}
