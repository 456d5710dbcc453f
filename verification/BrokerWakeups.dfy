/** Main results about notifications: no wakeup is lost, every run of internal steps ends, and when it
    has ended every watched subscription is up to date. */
module BrokerWakeups {
  import opened Broker

  ghost predicate Reachable(qs: Quotas, s0: State, run: seq<Action>) {
    Initial(s0) && ValidRun(qs, s0, run)
  }

  lemma ReachableInv(qs: Quotas, s0: State, run: seq<Action>)
    requires Reachable(qs, s0, run)
    ensures Inv(After(qs, s0, run))
  {
    InitialInv(s0);
    RunKeepsInv(qs, s0, run);
  }

  ghost predicate Stale(s: State, c: ChannelId, key: Key) {
    c in s.chans && key in s.chans[c].subs && key in s.prjs && s.prjs[key].offset > s.chans[c].subs[key]
  }

  /** A stale subscription of an unexpired channel has an event coming, a signal coming, a full slot or a
      watcher about to scan, unless a watcher left with the token and nobody scanned since. */
  lemma NoLostWakeup(qs: Quotas, s0: State, run: seq<Action>, c: ChannelId, key: Key)
    requires Reachable(qs, s0, run)
    requires Stale(After(qs, s0, run), c, key)
    ensures
      var s := After(qs, s0, run);
      WakeupComes(c, key, s.chans[c], s.queue) || Expired(s.chans[c], s.now) || s.chans[c].dropped
  {
    ReachableInv(qs, s0, run);
    var s := After(qs, s0, run);
    assert PairInv(c, key, s.chans[c], s.prjs, s.queue, s.now);
  }

  /* ---------- quiescence ---------- */

  /** The steps that calls in flight, the notifier and the watchers take on their own. */
  predicate Internal(a: Action) {
    || a.Post? || a.Send? || a.UpdateSend?
    || a.NotifierTake? || a.NotifierMerge? || a.NotifierSignal? || a.NotifierDone?
    || a.WatchTake? || a.WatchScan? || a.WatchExpire?
  }

  predicate Quiescent(s: State) {
    && s.queue == Queue([], multiset{}, Idle)
    && forall c | c in s.chans ::
         && s.chans[c].work.NoWork?
         && (s.chans[c].watcher.Waiting? ==> !s.chans[c].slot)
         && !s.chans[c].watcher.Taken?
  }

  /** Some internal step is enabled unless the state is quiescent; so nothing blocks, and the full
      events queue does not either. */
  lemma Progress(s: State) returns (a: Action)
    requires Inv(s) && !Quiescent(s)
    ensures Internal(a) && Enabled(s, a)
  {
    var q := s.queue;
    match q.notifier
    case Received(_) =>
      a := NotifierMerge;
    case Signalling(_, remaining) =>
      if remaining == {} {
        a := NotifierDone;
      } else {
        var c :| c in remaining;
        a := NotifierSignal(c);
      }
    case Idle =>
      if q.events != [] {
        a := NotifierTake;
      } else if q.updating != multiset{} {
        var key :| key in q.updating;
        a := UpdateSend(key);
      } else {
        var c :| c in s.chans && (!s.chans[c].work.NoWork? || s.chans[c].watcher.Taken? || (s.chans[c].watcher.Waiting? && s.chans[c].slot));
        assert ChannelInv(s.chans[c], s.prjs);
        assert forall k | k in s.chans[c].subs :: PairInv(c, k, s.chans[c], s.prjs, q, s.now);
        a := if s.chans[c].work.ToPost? then Post(c)
             else if s.chans[c].work.ToSend? then Send(c)
             else if s.chans[c].watcher.Waiting? then WatchTake(c)
             else if Expired(s.chans[c], s.now) then WatchExpire(c)
             else WatchScan(c);
      }
  }

  /** In a quiescent state every watched subscription was told the latest offset. */
  lemma QuiescentIsUpToDate(qs: Quotas, s0: State, run: seq<Action>, c: ChannelId, key: Key)
    requires Reachable(qs, s0, run) && Quiescent(After(qs, s0, run))
    requires
      var s := After(qs, s0, run);
      && c in s.chans && key in s.chans[c].subs
      && s.chans[c].watcher.Waiting? && !Expired(s.chans[c], s.now) && !s.chans[c].dropped
    ensures !Stale(After(qs, s0, run), c, key)
  {
    if Stale(After(qs, s0, run), c, key) {
      NoLostWakeup(qs, s0, run, c, key);
    }
  }

  /* ---------- termination of internal runs ---------- */

  ghost function Posting(chans: Channels): set<ChannelId> { set c | c in chans && chans[c].work.ToPost? }
  ghost function Sending(chans: Channels): set<ChannelId> { set c | c in chans && chans[c].work.ToSend? }
  ghost function FullSlots(chans: Channels): set<ChannelId> { set c | c in chans && chans[c].slot }
  ghost function Tokens(chans: Channels): set<ChannelId> { set c | c in chans && chans[c].watcher.Taken? }

  datatype Measure = Measure(posting: nat, sending: nat, updating: nat, events: nat,
                             notifier: nat, remaining: nat, slots: nat, tokens: nat)

  ghost function MeasureOf(s: State): Measure {
    Measure(|Posting(s.chans)|, |Sending(s.chans)|, |s.queue.updating|, |s.queue.events|,
            match s.queue.notifier case Idle => 0 case Signalling(_, _) => 1 case Received(_) => 2,
            if s.queue.notifier.Signalling? then |s.queue.notifier.remaining| else 0,
            |FullSlots(s.chans)|, |Tokens(s.chans)|)
  }

  /** Lexicographic. */
  predicate Less(m: Measure, n: Measure) {
    if m.posting != n.posting then m.posting < n.posting
    else if m.sending != n.sending then m.sending < n.sending
    else if m.updating != n.updating then m.updating < n.updating
    else if m.events != n.events then m.events < n.events
    else if m.notifier != n.notifier then m.notifier < n.notifier
    else if m.remaining != n.remaining then m.remaining < n.remaining
    else if m.slots != n.slots then m.slots < n.slots
    else m.tokens < n.tokens
  }

  function Bit(b: bool): int {
    if b then 1 else 0
  }

  lemma Counted(before: set<ChannelId>, after: set<ChannelId>, c: ChannelId)
    requires before - {c} == after - {c}
    ensures |after| - Bit(c in after) == |before| - Bit(c in before)
  {
    assert |before - {c}| == |before| - Bit(c in before);
    assert |after - {c}| == |after| - Bit(c in after);
  }

  /** How changing one channel changes the counts. */
  lemma ChangedCounts(chans: Channels, c: ChannelId, ch: Channel)
    requires c in chans
    ensures |Posting(chans[c := ch])| - Bit(ch.work.ToPost?) == |Posting(chans)| - Bit(chans[c].work.ToPost?)
    ensures |Sending(chans[c := ch])| - Bit(ch.work.ToSend?) == |Sending(chans)| - Bit(chans[c].work.ToSend?)
    ensures |FullSlots(chans[c := ch])| - Bit(ch.slot) == |FullSlots(chans)| - Bit(chans[c].slot)
    ensures |Tokens(chans[c := ch])| - Bit(ch.watcher.Taken?) == |Tokens(chans)| - Bit(chans[c].watcher.Taken?)
  {
    Counted(Posting(chans), Posting(chans[c := ch]), c);
    Counted(Sending(chans), Sending(chans[c := ch]), c);
    Counted(FullSlots(chans), FullSlots(chans[c := ch]), c);
    Counted(Tokens(chans), Tokens(chans[c := ch]), c);
  }

  lemma ChannelStepDecreases(qs: Quotas, s: State, a: Action)
    requires Enabled(s, a)
    requires a.Post? || a.Send? || a.NotifierSignal? || a.WatchTake? || a.WatchScan? || a.WatchExpire?
    ensures Less(MeasureOf(Step(qs, s, a).0), MeasureOf(s))
  {
    hide Posting, Sending, FullSlots, Tokens, Units;
    var s' := Step(qs, s, a).0;
    ChangedCounts(s.chans, a.c, s'.chans[a.c]);
    assert s'.chans == s.chans[a.c := s'.chans[a.c]];
  }

  /** Every internal step makes the measure smaller: no run of internal steps goes on forever. */
  lemma InternalStepDecreases(qs: Quotas, s: State, a: Action)
    requires Enabled(s, a) && Internal(a)
    ensures Less(MeasureOf(Step(qs, s, a).0), MeasureOf(s))
  {
    hide Posting, Sending, FullSlots, Tokens;
    match a
    case NotifierTake =>
    case NotifierMerge =>
    case NotifierDone =>
    case UpdateSend(_) =>
    case _ => ChannelStepDecreases(qs, s, a);
  }

  /** A watched channel that stays so: internal steps change neither its subscriptions nor the offsets. */
  ghost predicate Watched(s: State, c: ChannelId) {
    && c in s.chans && !s.chans[c].watcher.NoWatcher?
    && !Expired(s.chans[c], s.now) && !s.chans[c].dropped
  }

  ghost predicate SameWatch(s: State, s': State, c: ChannelId) {
    && Watched(s', c)
    && c in s.chans && s'.chans[c].subs.Keys == s.chans[c].subs.Keys
    && s'.prjs.Keys == s.prjs.Keys
    && forall key | key in s.prjs :: s'.prjs[key].offset == s.prjs[key].offset
  }

  lemma InternalStepKeepsWatch(qs: Quotas, s: State, a: Action, c: ChannelId)
    requires Enabled(s, a) && Internal(a) && Watched(s, c)
    ensures SameWatch(s, Step(qs, s, a).0, c)
  {
  }

  /** From any state the internal steps settle; a watched channel stays watched meanwhile. */
  lemma Settle(qs: Quotas, s: State, c: ChannelId) returns (run: seq<Action>)
    requires Inv(s) && Watched(s, c)
    ensures ValidRun(qs, s, run) && Quiescent(After(qs, s, run)) && SameWatch(s, After(qs, s, run), c)
    ensures forall a | a in run :: Internal(a)
    decreases MeasureOf(s).posting, MeasureOf(s).sending, MeasureOf(s).updating, MeasureOf(s).events,
              MeasureOf(s).notifier, MeasureOf(s).remaining, MeasureOf(s).slots, MeasureOf(s).tokens
  {
    if Quiescent(s) {
      run := [];
    } else {
      var a := Progress(s);
      StepKeepsInv(qs, s, a);
      InternalStepDecreases(qs, s, a);
      InternalStepKeepsWatch(qs, s, a, c);
      hide Enabled, Step, Inv, Quiescent, MeasureOf, Expired;
      var rest := Settle(qs, Step(qs, s, a).0, c);
      run := [a] + rest;
      assert run[1..] == rest;
    }
  }

  lemma {:induction false} RunAppend(qs: Quotas, s: State, run: seq<Action>, more: seq<Action>)
    requires ValidRun(qs, s, run) && ValidRun(qs, After(qs, s, run), more)
    ensures ValidRun(qs, s, run + more) && After(qs, s, run + more) == After(qs, After(qs, s, run), more)
    decreases |run|
  {
    hide Step, Enabled;
    if run == [] {
      assert run + more == more;
    } else {
      assert (run + more)[1..] == run[1..] + more;
      RunAppend(qs, Step(qs, s, run[0]).0, run[1..], more);
    }
  }

  /** The promise to the client: from every reachable state, once the internal steps have settled, a
      watched channel was told the latest offset of each of its subscriptions. */
  lemma ClientIsEventuallyUpToDate(qs: Quotas, s0: State, run: seq<Action>, c: ChannelId) returns (more: seq<Action>)
    requires Reachable(qs, s0, run) && Watched(After(qs, s0, run), c)
    ensures ValidRun(qs, After(qs, s0, run), more) && forall a | a in more :: Internal(a)
    ensures
      var s := After(qs, s0, run);
      var e := After(qs, s, more);
      && SameWatch(s, e, c)
      && forall key | key in s.chans[c].subs :: key in s.prjs && key in e.chans[c].subs && s.prjs[key].offset <= e.chans[c].subs[key]
  {
    var s := After(qs, s0, run);
    ReachableInv(qs, s0, run);
    more := Settle(qs, s, c);
    RunAppend(qs, s0, run, more);
    ReachableInv(qs, s0, run + more);
    var e := After(qs, s, more);
    forall key | key in s.chans[c].subs
      ensures key in s.prjs && key in e.chans[c].subs && s.prjs[key].offset <= e.chans[c].subs[key]
    {
      assert key in e.chans[c].subs.Keys;
      assert PairInv(c, key, e.chans[c], e.prjs, e.queue, e.now);
    }
  }

  /* ---------- what a client sees ---------- */

  /** The offsets that the steps of a run report for one subscription, in order. */
  ghost function Reported(qs: Quotas, s: State, run: seq<Action>, c: ChannelId, key: Key): seq<nat>
    requires ValidRun(qs, s, run)
    decreases |run|
  {
    if run == [] then []
    else
      var (s', r) := Step(qs, s, run[0]);
      var rest := Reported(qs, s', run[1..], c, key);
      if run[0] == WatchScan(c) && r.Reports? && key in r.units then [r.units[key]] + rest else rest
  }

  ghost predicate Increasing(from: nat, offsets: seq<nat>) {
    && (forall i | 0 <= i < |offsets| :: from < offsets[i])
    && (forall i, j | 0 <= i < j < |offsets| :: offsets[i] < offsets[j])
  }

  function Delivered(s: State, c: ChannelId, key: Key): nat {
    if c in s.chans && key in s.chans[c].subs then s.chans[c].subs[key] else 0
  }

  lemma ScanDelivers(s: State, c: ChannelId, key: Key)
    requires c in s.chans
    ensures
      var (s', r) := WatchScanStep(s, c);
      Delivered(s', c, key) == if key in r.units then r.units[key] else Delivered(s, c, key)
    ensures var (s', r) := WatchScanStep(s, c); key in r.units ==> r.units[key] > Delivered(s, c, key)
  {
  }

  lemma SubscribeKeepsDelivered(qs: Quotas, s: State, c': ChannelId, rawKey: Key, c: ChannelId, key: Key)
    ensures Delivered(SubscribeStep(qs, s, c', rawKey).0, c, key) == Delivered(s, c, key)
  {
  }

  lemma RemovedKeepsDelivered(s: State, c': ChannelId, key': Key, c: ChannelId, key: Key)
    requires c' in s.chans && (c' != c || key' != key)
    ensures Delivered(Removed(s, c', key'), c, key) == Delivered(s, c, key)
  {
  }

  lemma CallKeepsDelivered(qs: Quotas, s: State, a: Action, c: ChannelId, key: Key)
    requires Enabled(s, a) && a != Unsubscribe(c, key) && a != CleanupUnsubscribe(c, key)
    requires a.NewChannel? || a.Subscribe? || a.Unsubscribe? || a.CleanupStart? || a.CleanupUnsubscribe? || a.CleanupFinish?
    ensures Delivered(Step(qs, s, a).0, c, key) == Delivered(s, c, key)
  {
    hide Live, AddChannels, AddSubscriptions, MetricOf;
    if a.Subscribe? {
      SubscribeKeepsDelivered(qs, s, a.c, a.key, c, key);
      hide SubscribeStep, Delivered;
    } else if a.Unsubscribe? || a.CleanupUnsubscribe? {
      if a.c in s.chans {
        RemovedKeepsDelivered(s, a.c, a.key, c, key);
      }
      hide Removed, SubscribeStep, NewChannelStep;
    }
  }

  lemma DeliveredStep(qs: Quotas, s: State, a: Action, c: ChannelId, key: Key)
    requires Enabled(s, a) && a != Unsubscribe(c, key) && a != CleanupUnsubscribe(c, key)
    ensures
      var (s', r) := Step(qs, s, a);
      if a == WatchScan(c) && r.Reports? && key in r.units
      then Delivered(s', c, key) == r.units[key] > Delivered(s, c, key)
      else Delivered(s', c, key) == Delivered(s, c, key)
  {
    if a == WatchScan(c) {
      ScanDelivers(s, c, key);
    } else if a.NewChannel? || a.Subscribe? || a.Unsubscribe? || a.CleanupStart? || a.CleanupUnsubscribe? || a.CleanupFinish? {
      CallKeepsDelivered(qs, s, a, c, key);
      hide SubscribeStep, NewChannelStep, UnsubscribeStep, CleanupUnsubscribeStep, Delivered;
    }
    hide Units, Merged;
  }

  /** While a subscription is not removed, the offsets reported for it strictly increase. */
  lemma {:induction false} ReportsIncrease(qs: Quotas, s: State, run: seq<Action>, c: ChannelId, key: Key)
    requires ValidRun(qs, s, run)
    requires Unsubscribe(c, key) !in run && CleanupUnsubscribe(c, key) !in run
    ensures Increasing(Delivered(s, c, key), Reported(qs, s, run, c, key))
    decreases |run|
  {
    if run != [] {
      DeliveredStep(qs, s, run[0], c, key);
      hide Step, Enabled;
      assert forall a | a in run[1..] :: a in run;
      ReportsIncrease(qs, Step(qs, s, run[0]).0, run[1..], c, key);
    }
  }

  /* ---------- where the promise ends ---------- */

  lemma RunOne(qs: Quotas, s: State, a: Action, rest: seq<Action>)
    requires Enabled(s, a) && ValidRun(qs, Step(qs, s, a).0, rest)
    ensures ValidRun(qs, s, [a] + rest) && After(qs, s, [a] + rest) == After(qs, Step(qs, s, a).0, rest)
  {
    hide Step, Enabled;
    assert ([a] + rest)[1..] == rest;
  }

  lemma RunFour(qs: Quotas, s: State, a: Action, b: Action, c: Action, d: Action)
    requires Enabled(s, a)
    requires var s1 := Step(qs, s, a).0; Enabled(s1, b)
    requires var s2 := Step(qs, Step(qs, s, a).0, b).0; Enabled(s2, c)
    requires var s3 := Step(qs, Step(qs, Step(qs, s, a).0, b).0, c).0; Enabled(s3, d)
    ensures ValidRun(qs, s, [a, b, c, d])
    ensures After(qs, s, [a, b, c, d]) == Step(qs, Step(qs, Step(qs, Step(qs, s, a).0, b).0, c).0, d).0
  {
    hide Step, Enabled;
    var s1 := Step(qs, s, a).0;
    var s2 := Step(qs, s1, b).0;
    var s3 := Step(qs, s2, c).0;
    assert ValidRun(qs, Step(qs, s3, d).0, []);
    RunOne(qs, s3, d, []);
    assert [d] + [] == [d];
    RunOne(qs, s2, c, [d]);
    assert [c] + [d] == [c, d];
    RunOne(qs, s1, b, [c, d]);
    assert [b] + [c, d] == [b, c, d];
    RunOne(qs, s, a, [b, c, d]);
    assert [a] + [b, c, d] == [a, b, c, d];
  }

  const KEY := Key(1, 2, 3)

  /** One channel with one subscription; the notifier is idle. */
  function OneChannel(prj: Projection, events: seq<Key>, updating: multiset<Key>, slot: bool, watcher: Watcher, dropped: bool): State {
    State(map[KEY := prj],
          map[0 := Channel(0, 100, 0, map[KEY := 0], slot, false, true, NoWork, NoCleanup, watcher, dropped)],
          Accounts(map[0 := Metric(1, 1)], 1),
          Queue(events, updating, Idle),
          0)
  }

  lemma Subscribed(qs: Quotas, s0: State) returns (run: seq<Action>)
    requires qs == Quotas(1, 1, 1, 1) && s0 == State(map[], map[], Accounts(map[], 0), Queue([], multiset{}, Idle), 0)
    ensures ValidRun(qs, s0, run)
    ensures After(qs, s0, run) == OneChannel(Projection(0, map[0 := true], {}), [KEY], multiset{}, false, NoWatcher, false)
  {
    run := [NewChannel(0, 0, 100), Subscribe(0, KEY), Post(0), Send(0)];
    assert Live(s0.chans) == {};
    RunFour(qs, s0, NewChannel(0, 0, 100), Subscribe(0, KEY), Post(0), Send(0));
  }

  /** A whole turn of the notifier for one event and one channel. */
  lemma NotifierTurn(qs: Quotas, prj: Projection, updating: multiset<Key>, slot: bool) returns (run: seq<Action>)
    requires Merged(prj) == {0}
    ensures
      var s := OneChannel(prj, [KEY], updating, slot, NoWatcher, false);
      && ValidRun(qs, s, run)
      && After(qs, s, run) == OneChannel(prj.(toSubscribe := map[], subscribed := {0}), [], updating, true, NoWatcher, false)
  {
    hide Merged, SubscribeStep, NewChannelStep, Removed, UpdateStep, WatchScanStep, PostStep, SendStep, CleanupFinishStep;
    var s := OneChannel(prj, [KEY], updating, slot, NoWatcher, false);
    run := [NotifierTake, NotifierMerge, NotifierSignal(0), NotifierDone];
    RunFour(qs, s, NotifierTake, NotifierMerge, NotifierSignal(0), NotifierDone);
  }

  /** A watcher that is cancelled after it took the token loses the wakeup: the channel is watched again,
      nothing is pending, and the client is not told offset 5. */
  lemma CancelledWatcherLosesTheWakeup() returns (qs: Quotas, s0: State, run: seq<Action>)
    ensures Reachable(qs, s0, run)
    ensures
      var s := After(qs, s0, run);
      && Quiescent(s) && Stale(s, 0, KEY)
      && s.chans[0].live && s.chans[0].watcher.Waiting? && !Expired(s.chans[0], s.now)
  {
    qs := Quotas(1, 1, 1, 1);
    s0 := State(map[], map[], Accounts(map[], 0), Queue([], multiset{}, Idle), 0);
    run := Subscribed(qs, s0);
    var prj := Projection(0, map[0 := true], {});
    assert Merged(prj) == {0};
    var more := NotifierTurn(qs, prj, multiset{}, false);
    RunAppend(qs, s0, run, more);
    run := run + more;
    var updated := Updated(qs);
    RunAppend(qs, s0, run, updated);
    run := run + updated;
    prj := Projection(5, map[], {0});
    assert Merged(prj) == {0};
    more := NotifierTurn(qs, prj, multiset{}, true);
    RunAppend(qs, s0, run, more);
    run := run + more;
    more := Cancelled(qs);
    RunAppend(qs, s0, run, more);
    run := run + more;
  }

  lemma Updated(qs: Quotas) returns (run: seq<Action>)
    ensures
      var s := OneChannel(Projection(0, map[], {0}), [], multiset{}, true, NoWatcher, false);
      && ValidRun(qs, s, run)
      && After(qs, s, run) == OneChannel(Projection(5, map[], {0}), [KEY], multiset{}, true, NoWatcher, false)
  {
    var s := OneChannel(Projection(0, map[], {0}), [], multiset{}, true, NoWatcher, false);
    var updated := Step(qs, s, Update(KEY, 5)).0;
    assert ValidRun(qs, Step(qs, updated, UpdateSend(KEY)).0, []);
    RunOne(qs, updated, UpdateSend(KEY), []);
    RunOne(qs, s, Update(KEY, 5), [UpdateSend(KEY)] + []);
    run := [Update(KEY, 5)] + ([UpdateSend(KEY)] + []);
  }

  function Watching(slot: bool, watcher: Watcher, dropped: bool): State {
    OneChannel(Projection(5, map[], {0}), [], multiset{}, slot, watcher, dropped)
  }

  lemma WatchStarts(qs: Quotas, slot: bool, dropped: bool)
    ensures Enabled(Watching(slot, NoWatcher, dropped), WatchStart(0))
    ensures Step(qs, Watching(slot, NoWatcher, dropped), WatchStart(0)).0 == Watching(slot, Waiting, dropped)
  {
  }

  lemma WatchTakes(qs: Quotas)
    ensures Enabled(Watching(true, Waiting, false), WatchTake(0))
    ensures Step(qs, Watching(true, Waiting, false), WatchTake(0)).0 == Watching(false, Taken, false)
  {
  }

  lemma WatchCancels(qs: Quotas)
    ensures Enabled(Watching(false, Taken, false), WatchCancel(0))
    ensures Step(qs, Watching(false, Taken, false), WatchCancel(0)).0 == Watching(false, NoWatcher, true)
  {
  }

  lemma Cancelled(qs: Quotas) returns (run: seq<Action>)
    ensures ValidRun(qs, Watching(true, NoWatcher, false), run)
    ensures After(qs, Watching(true, NoWatcher, false), run) == Watching(false, Waiting, true)
  {
    hide Enabled, Step;
    WatchStarts(qs, true, false);
    WatchTakes(qs);
    WatchCancels(qs);
    WatchStarts(qs, false, true);
    run := [WatchStart(0), WatchTake(0), WatchCancel(0), WatchStart(0)];
    RunFour(qs, Watching(true, NoWatcher, false), WatchStart(0), WatchTake(0), WatchCancel(0), WatchStart(0));
  }

  /** Subscribe normalizes the heartbeat key and Unsubscribe does not: unsubscribing with the key that
      was subscribed removes nothing unless it was the normalized one. */
  lemma HeartbeatNeedsTheNormalizedKey(qs: Quotas, s: State, c: ChannelId, key: Key)
    requires Enabled(s, Subscribe(c, key)) && SubscribeStep(qs, s, c, key).1.Done?
    requires key !in s.chans[c].subs || key == Normalized(key)
    ensures
      var subscribed := SubscribeStep(qs, s, c, key).0;
      var removed := UnsubscribeStep(subscribed, c, key).0;
      Normalized(key) in removed.chans[c].subs <==> key != Normalized(key)
  {
    hide AddSubscriptions, MetricOf;
  }
}
