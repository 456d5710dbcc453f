/** When a watcher that is cancelled after it took the token loses a wakeup, exactly, and the promise for runs
    without such a cancellation. */
module BrokerCancel {
  import opened Broker
  import opened BrokerWakeups

  /** An event of the projection is on its way to the notifier, or some call will send one.  A call that is
      about to withdraw channel `c` does not count: its event comes after the withdrawal. */
  ghost predicate EventComes(chans: Channels, q: Queue, key: Key, c: ChannelId) {
    || key in q.events || key in q.updating || q.notifier == Received(key)
    || (exists d | d in chans :: chans[d].work == ToSend(key))
    || (exists d | d in chans :: d != c && chans[d].work.ToPost? && chans[d].work.key == key)
  }

  /** The notifier would signal the channel for an event of the projection. */
  predicate Reaches(prjs: Projections, key: Key, c: ChannelId) {
    key in prjs && c in Merged(prjs[key])
  }

  /** A wakeup of the channel, for whatever projection, is there or may come. */
  ghost predicate Coming(s: State, c: ChannelId)
    requires c in s.chans
  {
    || s.chans[c].slot
    || (s.queue.notifier.Signalling? && c in s.queue.notifier.remaining)
    || (s.chans[c].work.ToPost? && s.chans[c].work.subscribe)
    || exists key | key in s.prjs :: EventComes(s.chans, s.queue, key, c) && Reaches(s.prjs, key, c)
  }

  /** What goes on by itself, and the client watching again. */
  predicate GoesOn(a: Action, c: ChannelId) {
    Internal(a) || a == WatchStart(c)
  }

  ghost predicate GoingOn(run: seq<Action>, c: ChannelId) {
    forall a | a in run :: GoesOn(a, c)
  }

  /* ---------- no wakeup comes ---------- */

  ghost predicate Lost(s: State, c: ChannelId, key: Key) {
    Stale(s, c, key) && !s.chans[c].watcher.Taken? && !Coming(s, c)
  }

  lemma PostKeepsNone(s: State, a: Action, qs: Quotas, c: ChannelId)
    requires Enabled(s, a) && a.Post? && c in s.chans && !Coming(s, c)
    ensures c in PostStep(s, a.c).chans && !Coming(PostStep(s, a.c), c)
  {
    var t := PostStep(s, a.c);
    forall key | key in t.prjs && EventComes(t.chans, t.queue, key, c) ensures !Reaches(t.prjs, key, c) {
      if s.chans[a.c].work.key == key && a.c == c {
        assert c !in Merged(t.prjs[key]);
      } else {
        assert EventComes(s.chans, s.queue, key, c);
        assert !Reaches(s.prjs, key, c);
        assert c in Merged(t.prjs[key]) <==> c in Merged(s.prjs[key]);
      }
    }
  }

  lemma ChannelStepKeepsNone(s: State, a: Action, qs: Quotas, c: ChannelId)
    requires Enabled(s, a) && c in s.chans && !Coming(s, c)
    requires a.Send? || a.WatchTake? || a.WatchScan? || a.WatchExpire?
    ensures c in Step(qs, s, a).0.chans && !Coming(Step(qs, s, a).0, c)
  {
    hide Units, Merged;
    var t := Step(qs, s, a).0;
    forall key | key in t.prjs && EventComes(t.chans, t.queue, key, c) ensures !Reaches(t.prjs, key, c) {
      assert EventComes(s.chans, s.queue, key, c);
      assert !Reaches(s.prjs, key, c);
    }
  }

  lemma QueueStepKeepsNone(s: State, a: Action, qs: Quotas, c: ChannelId)
    requires Enabled(s, a) && c in s.chans && !Coming(s, c)
    requires a.UpdateSend? || a.NotifierTake? || a.NotifierMerge? || a.NotifierSignal? || a.NotifierDone?
    ensures c in Step(qs, s, a).0.chans && !Coming(Step(qs, s, a).0, c)
  {
    var t := Step(qs, s, a).0;
    if a.NotifierMerge? {
      assert EventComes(s.chans, s.queue, s.queue.notifier.key, c);
      assert !Reaches(s.prjs, s.queue.notifier.key, c);
    }
    forall key | key in t.prjs && EventComes(t.chans, t.queue, key, c) ensures !Reaches(t.prjs, key, c) {
      assert EventComes(s.chans, s.queue, key, c);
      assert !Reaches(s.prjs, key, c);
    }
  }

  lemma WatchStartKeepsNone(s: State, c: ChannelId, qs: Quotas)
    requires Enabled(s, WatchStart(c)) && !Coming(s, c)
    ensures c in Step(qs, s, WatchStart(c)).0.chans && !Coming(Step(qs, s, WatchStart(c)).0, c)
  {
    var t := Step(qs, s, WatchStart(c)).0;
    forall key | key in t.prjs && EventComes(t.chans, t.queue, key, c) ensures !Reaches(t.prjs, key, c) {
      assert EventComes(s.chans, s.queue, key, c);
      assert !Reaches(s.prjs, key, c);
    }
  }

  lemma StaleStays(qs: Quotas, s: State, a: Action, c: ChannelId, key: Key)
    requires Enabled(s, a) && GoesOn(a, c) && Stale(s, c, key) && !s.chans[c].watcher.Taken? && !s.chans[c].slot
    ensures Stale(Step(qs, s, a).0, c, key) && !Step(qs, s, a).0.chans[c].watcher.Taken?
  {
  }

  lemma LostStays(qs: Quotas, s: State, a: Action, c: ChannelId, key: Key)
    requires Enabled(s, a) && GoesOn(a, c) && Lost(s, c, key)
    ensures Lost(Step(qs, s, a).0, c, key)
  {
    StaleStays(qs, s, a, c, key);
    if a.WatchStart? {
      WatchStartKeepsNone(s, c, qs);
    } else if a.Post? {
      PostKeepsNone(s, a, qs, c);
      assert Step(qs, s, a).0 == PostStep(s, a.c);
    } else if a.Send? || a.WatchTake? || a.WatchScan? || a.WatchExpire? {
      ChannelStepKeepsNone(s, a, qs, c);
    } else {
      QueueStepKeepsNone(s, a, qs, c);
    }
    hide Step, Enabled, Coming;
  }

  lemma {:induction false} LostForEver(qs: Quotas, s: State, run: seq<Action>, c: ChannelId, key: Key)
    requires Lost(s, c, key) && ValidRun(qs, s, run) && GoingOn(run, c)
    ensures Stale(After(qs, s, run), c, key)
    decreases |run|
  {
    hide Step, Enabled, Lost;
    if run == [] {
      LostIsStale(s, c, key);
    } else {
      assert run[0] in run && forall a | a in run[1..] :: a in run;
      LostStays(qs, s, run[0], c, key);
      LostForEver(qs, Step(qs, s, run[0]).0, run[1..], c, key);
    }
  }

  lemma LostIsStale(s: State, c: ChannelId, key: Key)
    requires Lost(s, c, key)
    ensures Stale(s, c, key)
  {
  }

  /* ---------- a wakeup comes ---------- */

  /** What the steps on the way to a wakeup leave alone. */
  ghost predicate Kept(s: State, t: State, c: ChannelId) {
    && c in s.chans && c in t.chans
    && t.chans[c] == s.chans[c].(slot := t.chans[c].slot, work := t.chans[c].work)
    && t.now == s.now && t.prjs.Keys == s.prjs.Keys
    && forall key | key in s.prjs :: t.prjs[key].offset == s.prjs[key].offset
  }

  lemma KeptTrans(s: State, t: State, u: State, c: ChannelId)
    requires Kept(s, t, c) && Kept(t, u, c)
    ensures Kept(s, u, c)
  {
  }

  /** The steps that bring a wakeup closer: anything but withdrawing the channel. */
  ghost predicate Brings(s: State, a: Action, c: ChannelId) {
    && Enabled(s, a) && Internal(a) && !a.WatchTake? && !a.WatchScan? && !a.WatchExpire?
    && (a == Post(c) ==> s.chans[c].work.subscribe)
  }

  lemma BringsKeeps(qs: Quotas, s: State, a: Action, c: ChannelId)
    requires c in s.chans && Brings(s, a, c)
    ensures Kept(s, Step(qs, s, a).0, c)
  {
  }

  lemma EventStillComes(qs: Quotas, s: State, a: Action, c: ChannelId, key: Key)
    requires c in s.chans && Brings(s, a, c) && key in s.prjs && EventComes(s.chans, s.queue, key, c) && Reaches(s.prjs, key, c)
    ensures c in Step(qs, s, a).0.chans && Coming(Step(qs, s, a).0, c)
  {
    var t := Step(qs, s, a).0;
    if a.NotifierMerge? && s.queue.notifier.key == key {
      assert c in t.queue.notifier.remaining;
    } else {
      assert Reaches(t.prjs, key, c);
      if a.NotifierTake? && key in s.queue.events {
        assert key == s.queue.events[0] || key in s.queue.events[1..];
      } else if a.Post? || a.Send? || a.NotifierSignal? {
        EventStaysOnTheWay(qs, s, a, c, key);
      }
      assert EventComes(t.chans, t.queue, key, c);
    }
  }

  lemma EventStaysOnTheWay(qs: Quotas, s: State, a: Action, c: ChannelId, key: Key)
    requires c in s.chans && Brings(s, a, c) && (a.Post? || a.Send? || a.NotifierSignal?) && EventComes(s.chans, s.queue, key, c)
    ensures EventComes(Step(qs, s, a).0.chans, Step(qs, s, a).0.queue, key, c)
  {
    var t := Step(qs, s, a).0;
    if d :| d in s.chans && s.chans[d].work == ToSend(key) {
      assert a != Send(d) ==> t.chans[d].work == ToSend(key);
    }
    if d :| d in s.chans && d != c && s.chans[d].work.ToPost? && s.chans[d].work.key == key {
      assert t.chans[d].work == if a == Post(d) then ToSend(key) else s.chans[d].work;
    }
  }

  lemma OtherComingStays(qs: Quotas, s: State, a: Action, c: ChannelId)
    requires c in s.chans && Brings(s, a, c)
    requires
      || s.chans[c].slot
      || (s.queue.notifier.Signalling? && c in s.queue.notifier.remaining)
      || (s.chans[c].work.ToPost? && s.chans[c].work.subscribe)
    ensures c in Step(qs, s, a).0.chans && Coming(Step(qs, s, a).0, c)
  {
    var t := Step(qs, s, a).0;
    if a == Post(c) {
      var key := s.chans[c].work.key;
      assert t.chans[c].work == ToSend(key);
      assert EventComes(t.chans, t.queue, key, c) && Reaches(t.prjs, key, c);
    }
  }

  lemma ComingStays(qs: Quotas, s: State, a: Action, c: ChannelId)
    requires c in s.chans && Brings(s, a, c) && Coming(s, c)
    ensures c in Step(qs, s, a).0.chans && Coming(Step(qs, s, a).0, c)
  {
    if key :| key in s.prjs && EventComes(s.chans, s.queue, key, c) && Reaches(s.prjs, key, c) {
      EventStillComes(qs, s, a, c, key);
    } else {
      OtherComingStays(qs, s, a, c);
    }
  }

  lemma QueueKeys(s: State)
    requires Inv(s)
    ensures s.queue.notifier.Received? ==> s.queue.notifier.key in s.prjs
    ensures s.queue.notifier.Signalling? ==> s.queue.notifier.remaining <= s.chans.Keys
  {
    hide ChannelsInv, WakeupInv;
  }

  lemma NotifierBrings(s: State, c: ChannelId) returns (a: Action)
    requires Inv(s) && !s.queue.notifier.Idle?
    ensures Brings(s, a, c)
  {
    QueueKeys(s);
    hide Inv;
    match s.queue.notifier
    case Received(_) =>
      a := NotifierMerge;
    case Signalling(_, remaining) =>
      if remaining == {} {
        a := NotifierDone;
      } else {
        var d :| d in remaining;
        a := NotifierSignal(d);
      }
  }

  lemma QueueBrings(s: State, c: ChannelId) returns (a: Action)
    requires s.queue.notifier.Idle? && !(s.queue.events == [] && s.queue.updating == multiset{})
    ensures Brings(s, a, c)
  {
    if s.queue.events != [] {
      a := NotifierTake;
    } else {
      var key :| key in s.queue.updating;
      a := UpdateSend(key);
    }
  }

  /** While the wakeup comes and the slot is empty, such a step is enabled. */
  lemma SomeStepBrings(s: State, c: ChannelId) returns (a: Action)
    requires Inv(s) && c in s.chans && Coming(s, c) && !s.chans[c].slot
    ensures Brings(s, a, c)
  {
    hide *;
    if !s.queue.notifier.Idle? {
      a := NotifierBrings(s, c);
    } else if s.queue.events == [] && s.queue.updating == multiset{} {
      a := SomeCallGoesOn(s, c);
    } else {
      a := QueueBrings(s, c);
    }
  }

  lemma SomeCallGoesOn(s: State, c: ChannelId) returns (a: Action)
    requires Inv(s) && c in s.chans && Coming(s, c) && !s.chans[c].slot && s.queue == Queue([], multiset{}, Idle)
    ensures Brings(s, a, c)
  {
    var d :| d in s.chans && !s.chans[d].work.NoWork? && !(d == c && s.chans[d].work.ToPost? && !s.chans[d].work.subscribe);
    assert ChannelInv(s.chans[d], s.prjs);
    a := if s.chans[d].work.ToPost? then Post(d) else Send(d);
  }

  lemma {:induction false} Wakes(qs: Quotas, s: State, c: ChannelId) returns (run: seq<Action>)
    requires Inv(s) && c in s.chans && Coming(s, c)
    ensures ValidRun(qs, s, run) && GoingOn(run, c)
    ensures Kept(s, After(qs, s, run), c) && After(qs, s, run).chans[c].slot && Inv(After(qs, s, run))
    decreases MeasureOf(s).posting, MeasureOf(s).sending, MeasureOf(s).updating, MeasureOf(s).events,
              MeasureOf(s).notifier, MeasureOf(s).remaining, MeasureOf(s).slots, MeasureOf(s).tokens
  {
    if s.chans[c].slot {
      run := [];
    } else {
      var a := SomeStepBrings(s, c);
      StepKeepsInv(qs, s, a);
      InternalStepDecreases(qs, s, a);
      BringsKeeps(qs, s, a, c);
      ComingStays(qs, s, a, c);
      hide Enabled, Step, Inv, MeasureOf, Coming;
      var t := Step(qs, s, a).0;
      var rest := Wakes(qs, t, c);
      run := [a] + rest;
      assert run[1..] == rest;
      KeptTrans(s, t, After(qs, t, rest), c);
    }
  }

  lemma InvKeys(s: State, c: ChannelId)
    requires Inv(s) && c in s.chans
    ensures s.chans[c].subs.Keys <= s.prjs.Keys
  {
    forall key | key in s.chans[c].subs ensures key in s.prjs {
      assert PairInv(c, key, s.chans[c], s.prjs, s.queue, s.now);
    }
  }

  lemma TakeAndScan(qs: Quotas, s: State, c: ChannelId, key: Key) returns (run: seq<Action>)
    requires Inv(s) && c in s.chans && s.chans[c].slot && s.chans[c].watcher.Waiting? && !Expired(s.chans[c], s.now)
    ensures ValidRun(qs, s, run) && GoingOn(run, c) && !Stale(After(qs, s, run), c, key)
  {
    InvKeys(s, c);
    hide Inv;
    var taken := Step(qs, s, WatchTake(c)).0;
    var scanned := Step(qs, taken, WatchScan(c)).0;
    assert !Stale(scanned, c, key);
    hide Step, Enabled, Stale;
    RunOne(qs, taken, WatchScan(c), []);
    RunOne(qs, s, WatchTake(c), [WatchScan(c)] + []);
    run := [WatchTake(c)] + ([WatchScan(c)] + []);
  }

  lemma BothGoOn(a: seq<Action>, b: seq<Action>, c: ChannelId)
    requires GoingOn(a, c) && GoingOn(b, c)
    ensures GoingOn(a + b, c)
  {
  }

  /** From a cancelled watch on which a wakeup comes: watch again, wait, and be told. */
  lemma ToldAgain(qs: Quotas, s: State, c: ChannelId, key: Key) returns (run: seq<Action>)
    requires Inv(s) && c in s.chans && s.chans[c].live && s.chans[c].watcher.NoWatcher? && !Expired(s.chans[c], s.now) && Coming(s, c)
    ensures ValidRun(qs, s, run) && GoingOn(run, c) && !Stale(After(qs, s, run), c, key)
  {
    var t := Step(qs, s, WatchStart(c)).0;
    StepKeepsInv(qs, s, WatchStart(c));
    StartKeepsComing(qs, s, c);
    RunOne(qs, s, WatchStart(c), []);
    var first := [WatchStart(c)] + [];
    assert ValidRun(qs, s, first) && After(qs, s, first) == t && GoingOn(first, c);
    assert t.chans[c].watcher.Waiting? && !Expired(t.chans[c], t.now);
    hide Enabled, Step, Inv, Coming;
    var second := Wakes(qs, t, c);
    var u := After(qs, t, second);
    assert u.chans[c].watcher.Waiting? && !Expired(u.chans[c], u.now);
    var third := TakeAndScan(qs, u, c, key);
    RunAppend(qs, t, second, third);
    BothGoOn(second, third, c);
    RunAppend(qs, s, first, second + third);
    BothGoOn(first, second + third, c);
    run := first + (second + third);
  }

  lemma StartKeepsComing(qs: Quotas, s: State, c: ChannelId)
    requires Enabled(s, WatchStart(c)) && Coming(s, c)
    ensures c in Step(qs, s, WatchStart(c)).0.chans && Coming(Step(qs, s, WatchStart(c)).0, c)
  {
    var t := Step(qs, s, WatchStart(c)).0;
    SameComing(s, t, c);
  }

  lemma SameComing(s: State, t: State, c: ChannelId)
    requires c in s.chans && c in t.chans && t == s.(chans := s.chans[c := t.chans[c]])
    requires t.chans[c].slot == s.chans[c].slot && t.chans[c].work == s.chans[c].work
    ensures Coming(t, c) <==> Coming(s, c)
  {
    forall key ensures EventComes(t.chans, t.queue, key, c) <==> EventComes(s.chans, s.queue, key, c) {
      if d :| d in s.chans && s.chans[d].work == ToSend(key) {
        assert t.chans[d].work == ToSend(key);
      }
      if d :| d in s.chans && d != c && s.chans[d].work.ToPost? && s.chans[d].work.key == key {
        assert t.chans[d].work == s.chans[d].work;
      }
    }
  }

  /* ---------- main results ---------- */

  /** Cancelling a watcher that has the token loses the wakeup of a subscription for good, whatever goes on
      by itself and even if the client watches again, exactly if the subscription was behind and no other
      wakeup of the channel comes. */
  lemma CancelLosesWakeupExactlyIf(qs: Quotas, s: State, c: ChannelId, key: Key)
    requires Inv(s) && c in s.chans && s.chans[c].live && s.chans[c].watcher.Taken? && !Expired(s.chans[c], s.now)
    ensures
      var t := Step(qs, s, WatchCancel(c)).0;
      (forall run | ValidRun(qs, t, run) && GoingOn(run, c) :: Stale(After(qs, t, run), c, key))
      <==> Stale(s, c, key) && !Coming(s, c)
  {
    var t := Step(qs, s, WatchCancel(c)).0;
    StepKeepsInv(qs, s, WatchCancel(c));
    SameComing(s, t, c);
    assert Stale(t, c, key) <==> Stale(s, c, key);
    assert t.chans[c].live && t.chans[c].watcher.NoWatcher? && !Expired(t.chans[c], t.now);
    assert ValidRun(qs, t, []) && After(qs, t, []) == t && GoingOn([], c);
    hide Step, Inv, Coming, Enabled, Stale;
    if Stale(s, c, key) && !Coming(s, c) {
      IsLost(t, c, key);
      forall run | ValidRun(qs, t, run) && GoingOn(run, c) ensures Stale(After(qs, t, run), c, key) {
        LostForEver(qs, t, run, c, key);
      }
    } else if Coming(s, c) {
      var run := ToldAgain(qs, t, c, key);
    }
  }

  lemma IsLost(s: State, c: ChannelId, key: Key)
    requires Stale(s, c, key) && c in s.chans && !s.chans[c].watcher.Taken? && !Coming(s, c)
    ensures Lost(s, c, key)
  {
  }

  /** The watcher of the channel is not cancelled in this run while it has the token. */
  ghost predicate TokenIsUsed(qs: Quotas, s: State, run: seq<Action>, c: ChannelId)
    requires ValidRun(qs, s, run)
    decreases |run|
  {
    run != [] ==>
      && (run[0] == WatchCancel(c) ==> !s.chans[c].watcher.Taken?)
      && TokenIsUsed(qs, Step(qs, s, run[0]).0, run[1..], c)
  }

  lemma NotDroppedStep(qs: Quotas, s: State, a: Action, c: ChannelId)
    requires Enabled(s, a) && (c in s.chans ==> !s.chans[c].dropped)
    requires a == WatchCancel(c) ==> !s.chans[c].watcher.Taken?
    ensures c in Step(qs, s, a).0.chans ==> !Step(qs, s, a).0.chans[c].dropped
  {
  }

  lemma {:induction false} NotDropped(qs: Quotas, s: State, run: seq<Action>, c: ChannelId)
    requires ValidRun(qs, s, run) && TokenIsUsed(qs, s, run, c) && (c in s.chans ==> !s.chans[c].dropped)
    ensures c in After(qs, s, run).chans ==> !After(qs, s, run).chans[c].dropped
    decreases |run|
  {
    hide Step, Enabled;
    if run != [] {
      NotDroppedStep(qs, s, run[0], c);
      NotDropped(qs, Step(qs, s, run[0]).0, run[1..], c);
    }
  }

  /** In every run in which the watcher is not cancelled with the token, a subscription of an unexpired
      channel that is behind has a wakeup coming; so when nothing is pending, it is up to date. */
  lemma UncancelledIsUpToDate(qs: Quotas, s0: State, run: seq<Action>, c: ChannelId, key: Key)
    requires Reachable(qs, s0, run) && TokenIsUsed(qs, s0, run, c)
    requires var s := After(qs, s0, run); c in s.chans && !Expired(s.chans[c], s.now)
    ensures
      var s := After(qs, s0, run);
      && (Stale(s, c, key) ==> WakeupComes(c, key, s.chans[c], s.queue))
      && (Quiescent(s) && s.chans[c].watcher.Waiting? ==> !Stale(s, c, key))
  {
    NotDropped(qs, s0, run, c);
    hide Step, Enabled, Inv;
    if Stale(After(qs, s0, run), c, key) {
      NoLostWakeup(qs, s0, run, c, key);
    }
  }
}
