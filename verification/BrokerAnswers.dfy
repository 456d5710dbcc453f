/** What the broker answers, in terms of the channels and subscriptions that there are, and whom it notifies. */
module BrokerAnswers {
  import opened Broker
  import opened BrokerWakeups
  import opened BrokerAccounts

  /* ---------- quotas ---------- */

  /** Only subjects that ever had a channel have a metric. */
  ghost predicate Known(chans: Channels, subject: Subject) {
    exists c :: c in chans && chans[c].subject == subject
  }

  ghost predicate MetricsKnown(chans: Channels, metric: map<Subject, Metric>) {
    forall x | x in metric :: Known(chans, x)
  }

  ghost predicate KeepsSubjects(before: Channels, after: Channels) {
    forall c | c in before :: c in after && after[c].subject == before[c].subject
  }

  lemma StillKnown(before: Channels, after: Channels, x: Subject)
    requires KeepsSubjects(before, after) && Known(before, x)
    ensures Known(after, x)
  {
    var c :| c in before && before[c].subject == x;
    assert c in after;
  }

  lemma StepKeepsSubjects(qs: Quotas, s: State, a: Action)
    requires Enabled(s, a)
    ensures KeepsSubjects(s.chans, Step(qs, s, a).0.chans)
  {
    hide Merged, Guaranteed, Units, Live, MetricOf, AddChannels, AddSubscriptions, Normalized, Expired;
    if a.NewChannel? || a.Subscribe? || a.Unsubscribe? || a.CleanupUnsubscribe? {
      hide PostStep, SendStep, WatchScanStep, NotifierSignalStep;
    } else {
      hide NewChannelStep, SubscribeStep, Removed;
    }
  }

  /** A step gives a metric only to the subject of a channel. */
  lemma StepMetrics(qs: Quotas, s: State, a: Action, x: Subject)
    requires Enabled(s, a)
    ensures var s' := Step(qs, s, a).0; x in s'.acct.metric ==> x in s.acct.metric || Known(s'.chans, x)
  {
    hide Merged, Guaranteed, Units, Live, MetricOf, Normalized, Expired;
    var s' := Step(qs, s, a).0;
    if a.NewChannel? || a.Subscribe? || a.Unsubscribe? || a.CleanupUnsubscribe? || a.CleanupFinish? {
      if a.c in s'.chans && s'.chans[a.c].subject == x {
        assert Known(s'.chans, x);
      }
      hide Known;
    }
  }

  lemma {:induction false} RunMetricsKnown(qs: Quotas, s: State, run: seq<Action>)
    requires MetricsKnown(s.chans, s.acct.metric) && ValidRun(qs, s, run)
    ensures var e := After(qs, s, run); MetricsKnown(e.chans, e.acct.metric)
    decreases |run|
  {
    hide Step, Enabled, Known, KeepsSubjects;
    if run != [] {
      var s' := Step(qs, s, run[0]).0;
      StepKeepsSubjects(qs, s, run[0]);
      forall x | x in s'.acct.metric
        ensures Known(s'.chans, x)
      {
        StepMetrics(qs, s, run[0], x);
        if x in s.acct.metric {
          StillKnown(s.chans, s'.chans, x);
        }
      }
      RunMetricsKnown(qs, s', run[1..]);
    }
  }

  lemma ReachableAccounts(qs: Quotas, s0: State, run: seq<Action>)
    requires Reachable(qs, s0, run)
    ensures var s := After(qs, s0, run); AccountsInv(s.chans, s.acct) && MetricsKnown(s.chans, s.acct.metric)
  {
    InitialInv(s0);
    InitialAccounts(s0);
    RunKeepsAccounts(qs, s0, run);
    RunMetricsKnown(qs, s0, run);
    hide Inv, Step, Enabled, AccountsInv;
  }

  /** In every reachable state a channel is refused exactly if there are as many live ones as allowed, in all or
      for the subject; but the first channel of a subject is not counted. */
  lemma NewChannelAnswers(qs: Quotas, s0: State, run: seq<Action>, c: ChannelId, subject: Subject, duration: int)
    requires Reachable(qs, s0, run) && Enabled(After(qs, s0, run), NewChannel(c, subject, duration))
    ensures
      var s := After(qs, s0, run);
      var (s', r) := Step(qs, s, NewChannel(c, subject, duration));
      && r == (if |Live(s.chans)| >= qs.channels then QuotaChannels
               else if Known(s.chans, subject) && |ChannelsOf(s.chans, subject)| >= qs.channelsPerSubject
               then QuotaChannelsPerSubject
               else Done)
      && (r.Done? ==> Live(s'.chans) == Live(s.chans) + {c} && s'.chans[c].subject == subject && s'.chans[c].subs == map[])
      && (!r.Done? ==> s' == s)
  {
    var s := After(qs, s0, run);
    hide *;
    ReachableAccounts(qs, s0, run);
    NewChannelIs(qs, s, c, subject, duration);
  }

  lemma NewChannelIs(qs: Quotas, s: State, c: ChannelId, subject: Subject, duration: int)
    requires AccountsInv(s.chans, s.acct) && MetricsKnown(s.chans, s.acct.metric)
    requires Enabled(s, NewChannel(c, subject, duration))
    ensures
      var (s', r) := Step(qs, s, NewChannel(c, subject, duration));
      && r == (if |Live(s.chans)| >= qs.channels then QuotaChannels
               else if Known(s.chans, subject) && |ChannelsOf(s.chans, subject)| >= qs.channelsPerSubject
               then QuotaChannelsPerSubject
               else Done)
      && (r.Done? ==> Live(s'.chans) == Live(s.chans) + {c} && s'.chans[c].subject == subject && s'.chans[c].subs == map[])
      && (!r.Done? ==> s' == s)
  {
    hide ChannelsOf, Known, AccountsInv, MetricsKnown, AddChannels;
    MetricIs(s, subject);
  }

  lemma MetricIs(s: State, x: Subject)
    requires AccountsInv(s.chans, s.acct) && MetricsKnown(s.chans, s.acct.metric)
    ensures x in s.acct.metric <==> Known(s.chans, x)
    ensures x in s.acct.metric ==> s.acct.metric[x].channels == |ChannelsOf(s.chans, x)|
  {
    assert MetricOf(s.acct.metric, x) == Metric(|ChannelsOf(s.chans, x)|, |PairsOf(s.chans, x)|);
    hide ChannelsOf, PairsOf, AllPairs;
  }

  /** A subscription is refused exactly if the channel is gone or closing, or there are as many subscriptions as
      allowed, in all or for the subject.  Otherwise the channel is subscribed to the normalized key. */
  lemma SubscribeAnswers(qs: Quotas, s0: State, run: seq<Action>, c: ChannelId, key: Key)
    requires Reachable(qs, s0, run) && Enabled(After(qs, s0, run), Subscribe(c, key))
    ensures
      var s := After(qs, s0, run);
      var (s', r) := Step(qs, s, Subscribe(c, key));
      && r == (if c !in s.chans || !s.chans[c].live then ChannelDoesNotExist
               else if s.chans[c].terminated then ChannelTerminated
               else if |AllPairs(s.chans)| >= qs.subscriptions then QuotaSubscriptions
               else if |PairsOf(s.chans, s.chans[c].subject)| >= qs.subscriptionsPerSubject then QuotaSubscriptionsPerSubject
               else Done)
      && (r.Done? ==> s'.chans[c].subs.Keys == s.chans[c].subs.Keys + {if key.projection == HEARTBEAT30 then HEARTBEAT30_KEY else key})
      && (!r.Done? ==> s' == s)
  {
    ReachableAccounts(qs, s0, run);
    var s := After(qs, s0, run);
    if c in s.chans {
      var x := s.chans[c].subject;
      assert MetricOf(s.acct.metric, x) == Metric(|ChannelsOf(s.chans, x)|, |PairsOf(s.chans, x)|);
    }
    hide ChannelsOf, PairsOf, AllPairs, MetricsKnown, ValidRun, After, Guaranteed;
  }

  /* ---------- who is notified ---------- */

  /** The notifier will count the channel among the subscribers of the projection. */
  predicate WillBeSubscribed(prj: Projection, c: ChannelId) {
    if c in prj.toSubscribe then prj.toSubscribe[c] else c in prj.subscribed
  }

  /** A channel that does not have the key any more is about to say so. */
  predicate Leaving(chans: Channels, c: ChannelId, key: Key) {
    c in chans && (key in chans[c].subs || chans[c].work == ToPost(key, false))
  }

  ghost predicate LeaversPost(chans: Channels, prjs: Projections) {
    forall c, key | key in prjs && WillBeSubscribed(prjs[key], c) :: Leaving(chans, c, key)
  }

  /** What is to be subscribed or removed waits for an event that comes. */
  ghost predicate ChangesPend(chans: Channels, prjs: Projections, q: Queue) {
    forall key, c | key in prjs && c in prjs[key].toSubscribe :: ChangePends(chans, q, key)
  }

  ghost predicate ChangePends(chans: Channels, q: Queue, key: Key) {
    || key in q.events || q.notifier == Received(key)
    || exists c :: c in chans && chans[c].work == ToSend(key)
  }

  lemma StepKeepsLeavers(qs: Quotas, s: State, a: Action)
    requires Inv(s) && LeaversPost(s.chans, s.prjs) && Enabled(s, a)
    ensures var s' := Step(qs, s, a).0; LeaversPost(s'.chans, s'.prjs)
  {
    var s' := Step(qs, s, a).0;
    forall c, key | key in s'.prjs && WillBeSubscribed(s'.prjs[key], c)
      ensures Leaving(s'.chans, c, key)
    {
      StepKeepsLeaver(qs, s, a, c, key);
    }
  }

  /** Calls of clients and cleanup do not change what projections have, except for creating them. */
  lemma CallKeepsLeaver(qs: Quotas, s: State, a: Action, c: ChannelId, key: Key)
    requires Enabled(s, a)
    requires a.NewChannel? || a.Subscribe? || a.Unsubscribe? || a.CleanupStart? || a.CleanupUnsubscribe? || a.CleanupFinish?
    requires key in s.prjs && WillBeSubscribed(s.prjs[key], c) ==> Leaving(s.chans, c, key)
    ensures var s' := Step(qs, s, a).0; key in s'.prjs && WillBeSubscribed(s'.prjs[key], c) ==> Leaving(s'.chans, c, key)
  {
    hide Live, MetricOf, AddChannels, AddSubscriptions, Normalized;
    if a.Unsubscribe? || a.CleanupUnsubscribe? {
      if a.c in s.chans {
        RemovedKeepsLeaver(s, a.c, a.key, c, key);
        if a.CleanupUnsubscribe? {
          CleaningKeepsLeaving(Removed(s, a.c, a.key).chans, a.c, Cleaning(s.chans[a.c].cleanup.remaining - {a.key}), c, key);
        }
      }
      hide Removed, Leaving, WillBeSubscribed, SubscribeStep, NewChannelStep;
    }
  }

  lemma CleaningKeepsLeaving(chans: Channels, cleaned: ChannelId, cleanup: Cleanup, c: ChannelId, key: Key)
    requires cleaned in chans
    ensures Leaving(chans[cleaned := chans[cleaned].(cleanup := cleanup)], c, key) == Leaving(chans, c, key)
  {
  }

  lemma RemovedKeepsLeaver(s: State, removed: ChannelId, k: Key, c: ChannelId, key: Key)
    requires removed in s.chans && s.chans[removed].work.NoWork?
    requires key in s.prjs && WillBeSubscribed(s.prjs[key], c) ==> Leaving(s.chans, c, key)
    ensures var s' := Removed(s, removed, k);
      s'.prjs == s.prjs && (key in s'.prjs && WillBeSubscribed(s'.prjs[key], c) ==> Leaving(s'.chans, c, key))
  {
    hide AddSubscriptions;
  }

  lemma NotifierKeepsLeaver(qs: Quotas, s: State, a: Action, c: ChannelId, key: Key)
    requires Inv(s) && Enabled(s, a) && !a.WatchScan?
    requires !(a.NewChannel? || a.Subscribe? || a.Unsubscribe? || a.CleanupStart? || a.CleanupUnsubscribe? || a.CleanupFinish?)
    requires key in s.prjs && WillBeSubscribed(s.prjs[key], c) ==> Leaving(s.chans, c, key)
    ensures var s' := Step(qs, s, a).0; key in s'.prjs && WillBeSubscribed(s'.prjs[key], c) ==> Leaving(s'.chans, c, key)
  {
    if a.Post? {
      assert ChannelInv(s.chans[a.c], s.prjs);
    }
    hide KeysInv, WakeupInv, ChannelsInv, Expired;
  }

  lemma ScanKeepsLeaver(s: State, scanned: ChannelId, c: ChannelId, key: Key)
    requires scanned in s.chans && key in s.prjs && Leaving(s.chans, c, key)
    ensures Leaving(WatchScanStep(s, scanned).0.chans, c, key)
  {
  }

  lemma StepKeepsLeaver(qs: Quotas, s: State, a: Action, c: ChannelId, key: Key)
    requires Inv(s) && LeaversPost(s.chans, s.prjs) && Enabled(s, a)
    ensures var s' := Step(qs, s, a).0; key in s'.prjs && WillBeSubscribed(s'.prjs[key], c) ==> Leaving(s'.chans, c, key)
  {
    hide Inv, Leaving, WillBeSubscribed;
    if a.WatchScan? {
      if key in s.prjs && WillBeSubscribed(s.prjs[key], c) {
        ScanKeepsLeaver(s, a.c, c, key);
      }
    } else if a.NewChannel? || a.Subscribe? || a.Unsubscribe? || a.CleanupStart? || a.CleanupUnsubscribe? || a.CleanupFinish? {
      CallKeepsLeaver(qs, s, a, c, key);
    } else {
      NotifierKeepsLeaver(qs, s, a, c, key);
    }
    hide SubscribeStep, NewChannelStep, UnsubscribeStep, CleanupUnsubscribeStep, Units, Merged;
  }

  lemma StepKeepsPending(qs: Quotas, s: State, a: Action, key: Key, c: ChannelId)
    requires Inv(s) && ChangesPend(s.chans, s.prjs, s.queue) && Enabled(s, a)
    ensures var s' := Step(qs, s, a).0; key in s'.prjs && c in s'.prjs[key].toSubscribe ==> ChangePends(s'.chans, s'.queue, key)
  {
    var s' := Step(qs, s, a).0;
    if a == Post(c) && s.chans[c].work.key == key {
      assert s'.chans[c].work == ToSend(key);
    } else if key in s'.prjs && c in s'.prjs[key].toSubscribe {
      EntryWasThere(qs, s, a, key, c);
      PendingStays(qs, s, a, key);
    }
    hide Step, Inv, ChangesPend;
  }

  /** Only Post adds an entry, and the merge removes those of its key. */
  lemma EntryWasThere(qs: Quotas, s: State, a: Action, key: Key, c: ChannelId)
    requires Enabled(s, a) && !(a == Post(c) && s.chans[c].work.key == key)
    ensures var s' := Step(qs, s, a).0;
      key in s'.prjs && c in s'.prjs[key].toSubscribe ==>
        key in s.prjs && c in s.prjs[key].toSubscribe && !(a.NotifierMerge? && s.queue.notifier.key == key)
  {
    hide Live, MetricOf, AddChannels, AddSubscriptions, Normalized, Expired, Merged, Units;
  }

  lemma PendingStays(qs: Quotas, s: State, a: Action, key: Key)
    requires Enabled(s, a) && ChangePends(s.chans, s.queue, key) && !(a.NotifierMerge? && s.queue.notifier.key == key)
    ensures var s' := Step(qs, s, a).0; ChangePends(s'.chans, s'.queue, key)
  {
    var s' := Step(qs, s, a).0;
    if c :| c in s.chans && s.chans[c].work == ToSend(key) {
      SenderStays(qs, s, a, c, key);
    } else {
      QueueKeepsEvent(qs, s, a, key);
    }
    hide Step;
  }

  lemma SenderStays(qs: Quotas, s: State, a: Action, c: ChannelId, key: Key)
    requires Enabled(s, a) && c in s.chans && s.chans[c].work == ToSend(key)
    ensures var s' := Step(qs, s, a).0; (c in s'.chans && s'.chans[c].work == ToSend(key)) || key in s'.queue.events
  {
    hide Live, MetricOf, AddChannels, AddSubscriptions, Normalized, Expired, Merged, Units, Guaranteed;
  }

  lemma QueueKeepsEvent(qs: Quotas, s: State, a: Action, key: Key)
    requires Enabled(s, a) && (key in s.queue.events || s.queue.notifier == Received(key))
    requires !(a.NotifierMerge? && s.queue.notifier.key == key)
    ensures var s' := Step(qs, s, a).0; key in s'.queue.events || s'.queue.notifier == Received(key)
  {
    hide Live, MetricOf, AddChannels, AddSubscriptions, Normalized, Expired, Merged, Units, Guaranteed;
    if a.NotifierTake? {
      assert s.queue.events == [s.queue.events[0]] + s.queue.events[1..];
    }
  }

  ghost predicate Listed(s: State) {
    LeaversPost(s.chans, s.prjs) && ChangesPend(s.chans, s.prjs, s.queue)
  }

  lemma {:induction false} RunKeepsListed(qs: Quotas, s: State, run: seq<Action>)
    requires Inv(s) && Listed(s) && ValidRun(qs, s, run)
    ensures Listed(After(qs, s, run)) && Inv(After(qs, s, run))
    decreases |run|
  {
    hide Step, Enabled, Inv, WillBeSubscribed, Leaving, ChangePends;
    if run != [] {
      var s' := Step(qs, s, run[0]).0;
      StepKeepsInv(qs, s, run[0]);
      StepKeepsLeavers(qs, s, run[0]);
      forall key, c | key in s'.prjs && c in s'.prjs[key].toSubscribe
        ensures ChangePends(s'.chans, s'.queue, key)
      {
        StepKeepsPending(qs, s, run[0], key, c);
      }
      RunKeepsListed(qs, s', run[1..]);
    }
  }

  /** When nothing is pending, the channels that the notifier signals for a projection are exactly those
      subscribed to its key: none was forgotten, and none that unsubscribed or was cleaned up is left. */
  lemma SubscribersAreExact(qs: Quotas, s0: State, run: seq<Action>, key: Key)
    requires Reachable(qs, s0, run) && Quiescent(After(qs, s0, run)) && key in After(qs, s0, run).prjs
    ensures
      var s := After(qs, s0, run);
      && s.prjs[key].toSubscribe == map[]
      && s.prjs[key].subscribed == set c | c in s.chans && key in s.chans[c].subs
  {
    InitialInv(s0);
    RunKeepsListed(qs, s0, run);
    var s := After(qs, s0, run);
    forall c
      ensures c !in s.prjs[key].toSubscribe
    {
      assert c in s.prjs[key].toSubscribe ==> ChangePends(s.chans, s.queue, key);
    }
    forall c
      ensures c in s.prjs[key].subscribed <==> c in s.chans && key in s.chans[c].subs
    {
      if c in s.prjs[key].subscribed {
        assert WillBeSubscribed(s.prjs[key], c);
      }
      if c in s.chans && key in s.chans[c].subs {
        assert PairInv(c, key, s.chans[c], s.prjs, s.queue, s.now);
      }
    }
    hide Step, Enabled, ValidRun, After;
  }

  /* ---------- how long a channel lives ---------- */

  ghost predicate MadeAt(s: State, c: ChannelId, at: int, duration: int) {
    c in s.chans && s.chans[c].createTime == at && s.chans[c].duration == duration
  }

  lemma StepKeepsMadeAt(qs: Quotas, s: State, a: Action, c: ChannelId, at: int, duration: int)
    requires Enabled(s, a) && MadeAt(s, c, at, duration)
    ensures MadeAt(Step(qs, s, a).0, c, at, duration)
  {
    hide Merged, Guaranteed, Units, Live, MetricOf, AddChannels, AddSubscriptions, Normalized, Expired;
    if a.NewChannel? || a.Subscribe? || a.Unsubscribe? || a.CleanupUnsubscribe? {
      hide PostStep, SendStep, WatchScanStep, NotifierSignalStep;
    } else {
      hide NewChannelStep, SubscribeStep, Removed;
    }
  }

  lemma {:induction false} RunKeepsMadeAt(qs: Quotas, s: State, run: seq<Action>, c: ChannelId, at: int, duration: int)
    requires ValidRun(qs, s, run) && MadeAt(s, c, at, duration)
    ensures MadeAt(After(qs, s, run), c, at, duration)
    decreases |run|
  {
    hide Step, Enabled, MadeAt;
    if run != [] {
      StepKeepsMadeAt(qs, s, run[0], c, at, duration);
      RunKeepsMadeAt(qs, Step(qs, s, run[0]).0, run[1..], c, at, duration);
    }
  }

  /** A watcher with the token looks for updates exactly as long as the duration of its channel, counted from
      its creation, has not passed; after that it leaves. */
  lemma ChannelExpiresExactlyIf(qs: Quotas, s: State, c: ChannelId, subject: Subject, duration: int, run: seq<Action>)
    requires Enabled(s, NewChannel(c, subject, duration)) && Step(qs, s, NewChannel(c, subject, duration)).1.Done?
    requires ValidRun(qs, Step(qs, s, NewChannel(c, subject, duration)).0, run)
    ensures
      var e := After(qs, Step(qs, s, NewChannel(c, subject, duration)).0, run);
      && c in e.chans
      && (e.chans[c].watcher.Taken? ==>
            && (Enabled(e, WatchExpire(c)) <==> e.now > s.now + duration)
            && (Enabled(e, WatchScan(c)) <==> e.now <= s.now + duration && e.chans[c].subs.Keys <= e.prjs.Keys))
  {
    var s' := Step(qs, s, NewChannel(c, subject, duration)).0;
    assert MadeAt(s', c, s.now, duration) by { hide Live, AddChannels; }
    RunKeepsMadeAt(qs, s', run, c, s.now, duration);
    hide Step, ValidRun, After;
  }
}
