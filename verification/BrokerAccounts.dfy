/** Main results about the broker's counters and quotas, and what the promises need. */
module BrokerAccounts {
  import opened Broker

  /** All subscriptions, those of one subject, and the channels of one subject. */
  ghost function AllPairs(chans: Channels): set<(ChannelId, Key)> {
    set c, k | c in chans && k in chans[c].subs :: (c, k)
  }

  ghost function PairsOf(chans: Channels, subject: Subject): set<(ChannelId, Key)> {
    set c, k | c in chans && chans[c].subject == subject && k in chans[c].subs :: (c, k)
  }

  ghost function ChannelsOf(chans: Channels, subject: Subject): set<ChannelId> {
    set c | c in chans && chans[c].live && chans[c].subject == subject
  }

  ghost predicate MetricsInv(chans: Channels, metric: map<Subject, Metric>) {
    && (forall x :: MetricOf(metric, x) == Metric(|ChannelsOf(chans, x)|, |PairsOf(chans, x)|))
    && (forall c | c in chans :: chans[c].subject in metric)
  }

  ghost predicate AccountsInv(chans: Channels, acct: Accounts) {
    MetricsInv(chans, acct.metric) && acct.numSubscriptions == |AllPairs(chans)|
  }

  /* ---------- how the steps change the counted sets ---------- */

  /** Steps that keep subject, liveness and subscribed keys of every channel keep the counts. */
  ghost predicate SameShape(chans: Channels, chans': Channels) {
    && chans'.Keys == chans.Keys
    && forall c | c in chans ::
         chans'[c].subject == chans[c].subject && chans'[c].live == chans[c].live && chans'[c].subs.Keys == chans[c].subs.Keys
  }

  lemma SameShapeSameCounts(chans: Channels, chans': Channels, acct: Accounts)
    requires SameShape(chans, chans') && AccountsInv(chans, acct)
    ensures AccountsInv(chans', acct)
  {
    assert forall c, k | c in chans :: k in chans'[c].subs <==> k in chans'[c].subs.Keys;
    assert forall c, k | c in chans :: k in chans[c].subs <==> k in chans[c].subs.Keys;
    assert AllPairs(chans') == AllPairs(chans);
    forall x
      ensures ChannelsOf(chans', x) == ChannelsOf(chans, x) && PairsOf(chans', x) == PairsOf(chans, x)
    {
    }
  }

  /** The counts after a step: `channels` and `pairs` more for one subject. */
  ghost predicate Counted(before: Channels, after: Channels, subject: Subject, channels: int, pairs: int) {
    && |AllPairs(after)| == |AllPairs(before)| + pairs
    && (forall x :: |ChannelsOf(after, x)| == |ChannelsOf(before, x)| + if x == subject then channels else 0)
    && (forall x :: |PairsOf(after, x)| == |PairsOf(before, x)| + if x == subject then pairs else 0)
  }

  lemma PairsUnchanged(chans: Channels, c: ChannelId, ch: Channel, x: Subject)
    requires ch.subs == if c in chans then chans[c].subs else map[]
    requires c in chans ==> ch.subject == chans[c].subject
    ensures PairsOf(chans[c := ch], x) == PairsOf(chans, x) && AllPairs(chans[c := ch]) == AllPairs(chans)
  {
  }

  lemma ChannelsGrow(chans: Channels, c: ChannelId, ch: Channel, x: Subject)
    requires c in chans ==> !chans[c].live && chans[c].subject == ch.subject
    requires ch.live
    ensures ChannelsOf(chans[c := ch], x) == if x == ch.subject then ChannelsOf(chans, x) + {c} else ChannelsOf(chans, x)
    ensures c !in ChannelsOf(chans, x)
  {
  }

  lemma NewChannelCounts(chans: Channels, c: ChannelId, ch: Channel)
    requires c !in chans && ch.live && ch.subs == map[]
    ensures Counted(chans, chans[c := ch], ch.subject, 1, 0)
  {
    PairsUnchanged(chans, c, ch, 0);
    forall x
      ensures |PairsOf(chans[c := ch], x)| == |PairsOf(chans, x)|
      ensures |ChannelsOf(chans[c := ch], x)| == |ChannelsOf(chans, x)| + if x == ch.subject then 1 else 0
    {
      hide PairsOf, ChannelsOf, AllPairs;
      PairsUnchanged(chans, c, ch, x);
      ChannelsGrow(chans, c, ch, x);
    }
    hide PairsOf, ChannelsOf, AllPairs;
  }

  lemma GoneChannelCounts(chans: Channels, c: ChannelId, ch: Channel)
    requires c in chans && chans[c].live
    requires ch.subject == chans[c].subject && ch.subs == chans[c].subs && !ch.live
    ensures Counted(chans, chans[c := ch], ch.subject, -1, 0)
  {
    var chans' := chans[c := ch];
    assert chans'[c := chans[c]] == chans;
    PairsUnchanged(chans, c, ch, 0);
    hide PairsOf, ChannelsOf, AllPairs;
    forall x
      ensures |PairsOf(chans', x)| == |PairsOf(chans, x)|
      ensures |ChannelsOf(chans', x)| == |ChannelsOf(chans, x)| + if x == ch.subject then -1 else 0
    {
      PairsUnchanged(chans, c, ch, x);
      ChannelsGrow(chans', c, chans[c], x);
    }
  }

  lemma PairsGrow(chans: Channels, c: ChannelId, ch: Channel, key: Key, x: Subject)
    requires c in chans && key !in chans[c].subs && key in ch.subs && ch.subs.Keys - {key} == chans[c].subs.Keys
    requires ch.subject == chans[c].subject && ch.live == chans[c].live
    ensures PairsOf(chans[c := ch], x) == if x == ch.subject then PairsOf(chans, x) + {(c, key)} else PairsOf(chans, x)
    ensures AllPairs(chans[c := ch]) == AllPairs(chans) + {(c, key)}
    ensures ChannelsOf(chans[c := ch], x) == ChannelsOf(chans, x)
    ensures (c, key) !in PairsOf(chans, x) && (c, key) !in AllPairs(chans)
  {
    assert forall k | k != key :: k in ch.subs.Keys - {key} <==> k in chans[c].subs.Keys;
  }

  lemma AddedPairCounts(chans: Channels, c: ChannelId, ch: Channel, key: Key)
    requires c in chans && key !in chans[c].subs && key in ch.subs && ch.subs.Keys - {key} == chans[c].subs.Keys
    requires ch.subject == chans[c].subject && ch.live == chans[c].live
    ensures Counted(chans, chans[c := ch], ch.subject, 0, 1)
  {
    hide PairsOf, ChannelsOf, AllPairs;
    PairsGrow(chans, c, ch, key, 0);
    forall x
      ensures |PairsOf(chans[c := ch], x)| == |PairsOf(chans, x)| + if x == ch.subject then 1 else 0
      ensures |ChannelsOf(chans[c := ch], x)| == |ChannelsOf(chans, x)|
    {
      PairsGrow(chans, c, ch, key, x);
    }
  }

  lemma CountedSymmetric(before: Channels, after: Channels, subject: Subject, pairs: int)
    requires Counted(before, after, subject, 0, pairs)
    ensures Counted(after, before, subject, 0, -pairs)
  {
  }

  lemma RemovedPairCounts(chans: Channels, c: ChannelId, ch: Channel, key: Key)
    requires c in chans && key in chans[c].subs && key !in ch.subs && ch.subs.Keys == chans[c].subs.Keys - {key}
    requires ch.subject == chans[c].subject && ch.live == chans[c].live
    ensures Counted(chans, chans[c := ch], ch.subject, 0, -1)
  {
    hide Counted;
    var chans' := chans[c := ch];
    AddedPairCounts(chans', c, chans[c], key);
    assert chans'[c := chans[c]] == chans;
    CountedSymmetric(chans', chans, ch.subject, 1);
  }

  lemma ChannelsAccounted(chans: Channels, acct: Accounts, c: ChannelId, ch: Channel, n: int)
    requires AccountsInv(chans, acct) && Counted(chans, chans[c := ch], ch.subject, n, 0)
    ensures AccountsInv(chans[c := ch], acct.(metric := AddChannels(acct.metric, ch.subject, n)))
  {
    hide ChannelsOf, PairsOf, AllPairs;
    assert MetricOf(acct.metric, ch.subject) == Metric(|ChannelsOf(chans, ch.subject)|, |PairsOf(chans, ch.subject)|);
    forall x
      ensures var m := AddChannels(acct.metric, ch.subject, n);
        MetricOf(m, x) == Metric(|ChannelsOf(chans[c := ch], x)|, |PairsOf(chans[c := ch], x)|)
    {
      assert MetricOf(acct.metric, x) == Metric(|ChannelsOf(chans, x)|, |PairsOf(chans, x)|);
    }
  }

  lemma SubscriptionsAccounted(chans: Channels, acct: Accounts, c: ChannelId, ch: Channel, n: int)
    requires AccountsInv(chans, acct) && Counted(chans, chans[c := ch], ch.subject, 0, n)
    ensures AccountsInv(chans[c := ch], AddSubscriptions(acct, ch.subject, n))
  {
    hide ChannelsOf, PairsOf, AllPairs;
    forall x
      ensures var m := AddSubscriptions(acct, ch.subject, n).metric;
        MetricOf(m, x) == Metric(|ChannelsOf(chans[c := ch], x)|, |PairsOf(chans[c := ch], x)|)
    {
      assert MetricOf(acct.metric, x) == Metric(|ChannelsOf(chans, x)|, |PairsOf(chans, x)|);
    }
  }

  lemma ScanKeepsShape(s: State, c: ChannelId)
    requires c in s.chans
    ensures var s' := WatchScanStep(s, c).0; SameShape(s.chans, s'.chans) && s'.acct == s.acct
  {
    assert Units(s.prjs, s.chans[c].subs).Keys <= s.chans[c].subs.Keys;
  }

  lemma OtherStepKeepsShape(qs: Quotas, s: State, a: Action)
    requires Enabled(s, a)
    requires !a.NewChannel? && !a.Subscribe? && !a.Unsubscribe? && !a.CleanupUnsubscribe? && !a.CleanupFinish? && !a.WatchScan?
    ensures var s' := Step(qs, s, a).0; SameShape(s.chans, s'.chans) && s'.acct == s.acct
  {
    hide Merged, Guaranteed, Expired, SubscribeStep, NewChannelStep, Removed, CleanupFinishStep, WatchScanStep;
  }

  lemma SubscribeKeepsAccounts(qs: Quotas, s: State, c: ChannelId, rawKey: Key)
    requires AccountsInv(s.chans, s.acct)
    ensures var s' := SubscribeStep(qs, s, c, rawKey).0; AccountsInv(s'.chans, s'.acct)
  {
    hide AccountsInv, AddSubscriptions, Guaranteed, MetricOf, Counted;
    var (s', r) := SubscribeStep(qs, s, c, rawKey);
    if r.Done? {
      var key := Normalized(rawKey);
      hide Normalized;
      if key in s.chans[c].subs {
        SameShapeSameCounts(s.chans, s'.chans, s.acct);
      } else {
        AddedPairCounts(s.chans, c, s'.chans[c], key);
        SubscriptionsAccounted(s.chans, s.acct, c, s'.chans[c], 1);
      }
    }
  }

  lemma RemovedKeepsAccounts(s: State, c: ChannelId, key: Key, cleanup: Cleanup)
    requires AccountsInv(s.chans, s.acct) && c in s.chans
    ensures
      var s' := Removed(s, c, key);
      AccountsInv(s'.chans, s'.acct) && AccountsInv(s'.chans[c := s'.chans[c].(cleanup := cleanup)], s'.acct)
  {
    hide AccountsInv, AddSubscriptions, Counted;
    var s' := Removed(s, c, key);
    if key in s.chans[c].subs {
      RemovedPairCounts(s.chans, c, s'.chans[c], key);
      SubscriptionsAccounted(s.chans, s.acct, c, s'.chans[c], -1);
    } else {
      SameShapeSameCounts(s.chans, s'.chans, s.acct);
    }
    SameShapeSameCounts(s'.chans, s'.chans[c := s'.chans[c].(cleanup := cleanup)], s'.acct);
  }

  lemma StepKeepsAccounts(qs: Quotas, s: State, a: Action)
    requires Inv(s) && AccountsInv(s.chans, s.acct) && Enabled(s, a)
    ensures var s' := Step(qs, s, a).0; AccountsInv(s'.chans, s'.acct)
  {
    var (s', r) := Step(qs, s, a);
    hide AccountsInv, Inv, AddChannels, SubscribeStep, Removed, Live, Counted, SameShape, ChannelInv;
    match a
    case NewChannel(c, _, _) =>
      if r.Done? {
        NewChannelCounts(s.chans, c, s'.chans[c]);
        ChannelsAccounted(s.chans, s.acct, c, s'.chans[c], 1);
      }
    case Subscribe(c, key) => SubscribeKeepsAccounts(qs, s, c, key);
    case Unsubscribe(c, key) =>
      if r.Done? { RemovedKeepsAccounts(s, c, key, NoCleanup); }
    case CleanupUnsubscribe(c, key) =>
      RemovedKeepsAccounts(s, c, key, Cleaning(s.chans[c].cleanup.remaining - {key}));
    case CleanupFinish(c) => FinishKeepsAccounts(s, c);
    case WatchScan(c) =>
      ScanKeepsShape(s, c);
      SameShapeSameCounts(s.chans, s'.chans, s.acct);
    case _ =>
      OtherStepKeepsShape(qs, s, a);
      SameShapeSameCounts(s.chans, s'.chans, s.acct);
  }

  lemma FinishKeepsAccounts(s: State, c: ChannelId)
    requires Inv(s) && AccountsInv(s.chans, s.acct) && Enabled(s, CleanupFinish(c))
    ensures var s' := CleanupFinishStep(s, c); AccountsInv(s'.chans, s'.acct)
  {
    assert ChannelInv(s.chans[c], s.prjs);
    hide AccountsInv, Inv, AddChannels, Counted;
    var ch := CleanupFinishStep(s, c).chans[c];
    GoneChannelCounts(s.chans, c, ch);
    ChannelsAccounted(s.chans, s.acct, c, ch, -1);
  }

  lemma InitialAccounts(s: State)
    requires Initial(s)
    ensures AccountsInv(s.chans, s.acct)
  {
    assert AllPairs(s.chans) == {};
    forall x
      ensures ChannelsOf(s.chans, x) == {} && PairsOf(s.chans, x) == {}
    {
    }
  }

  lemma {:induction false} RunKeepsAccounts(qs: Quotas, s: State, run: seq<Action>)
    requires Inv(s) && AccountsInv(s.chans, s.acct) && ValidRun(qs, s, run)
    ensures var e := After(qs, s, run); AccountsInv(e.chans, e.acct)
    decreases |run|
  {
    hide Inv, AccountsInv, Step, Enabled;
    if run != [] {
      StepKeepsInv(qs, s, run[0]);
      StepKeepsAccounts(qs, s, run[0]);
      RunKeepsAccounts(qs, Step(qs, s, run[0]).0, run[1..]);
    }
  }

  /* ---------- sums ---------- */

  ghost function Pick(s: set<nat>): (x: nat)
    requires s != {}
    ensures x in s
  {
    var x :| x in s;
    x
  }

  /** The sum over the given channels of their number of subscriptions. */
  ghost function SubscriptionsOfChannels(chans: Channels, cs: set<ChannelId>): nat
    requires cs <= chans.Keys
  {
    if cs == {} then 0
    else var c := Pick(cs); |chans[c].subs| + SubscriptionsOfChannels(chans, cs - {c})
  }

  /** The sum over the given subjects of their metric of subscriptions, and of channels. */
  ghost function SubscriptionsOfSubjects(metric: map<Subject, Metric>, xs: set<Subject>): int {
    if xs == {} then 0
    else var x := Pick(xs); MetricOf(metric, x).subscriptions + SubscriptionsOfSubjects(metric, xs - {x})
  }

  ghost function ChannelsOfSubjects(metric: map<Subject, Metric>, xs: set<Subject>): int {
    if xs == {} then 0
    else var x := Pick(xs); MetricOf(metric, x).channels + ChannelsOfSubjects(metric, xs - {x})
  }

  ghost function PairsAt(c: ChannelId, keys: set<Key>): set<(ChannelId, Key)> {
    set k | k in keys :: (c, k)
  }

  ghost function PairsIn(chans: Channels, cs: set<ChannelId>): set<(ChannelId, Key)>
    requires cs <= chans.Keys
  {
    set c, k | c in cs && k in chans[c].subs :: (c, k)
  }

  ghost function PairsOfAll(chans: Channels, xs: set<Subject>): set<(ChannelId, Key)> {
    set c, k | c in chans && chans[c].subject in xs && k in chans[c].subs :: (c, k)
  }

  ghost function ChannelsOfAll(chans: Channels, xs: set<Subject>): set<ChannelId> {
    set c | c in chans && chans[c].live && chans[c].subject in xs
  }

  lemma {:induction false} PairsOfOneChannel(c: ChannelId, keys: set<Key>)
    ensures |PairsAt(c, keys)| == |keys|
  {
    if keys == {} {
      assert PairsAt(c, keys) == {};
    } else {
      var k :| k in keys;
      PairsOfOneChannel(c, keys - {k});
      assert PairsAt(c, keys) == PairsAt(c, keys - {k}) + {(c, k)};
    }
  }

  lemma SplitByChannel(chans: Channels, cs: set<ChannelId>, c: ChannelId)
    requires cs <= chans.Keys && c in cs
    ensures PairsIn(chans, cs) == PairsIn(chans, cs - {c}) + PairsAt(c, chans[c].subs.Keys)
    ensures PairsIn(chans, cs - {c}) !! PairsAt(c, chans[c].subs.Keys)
  {
  }

  lemma {:induction false} SumOverChannels(chans: Channels, cs: set<ChannelId>)
    requires cs <= chans.Keys
    ensures SubscriptionsOfChannels(chans, cs) == |PairsIn(chans, cs)|
  {
    if cs == {} {
      assert PairsIn(chans, cs) == {};
    } else {
      var c := Pick(cs);
      SumOverChannels(chans, cs - {c});
      PairsOfOneChannel(c, chans[c].subs.Keys);
      SplitByChannel(chans, cs, c);
      assert |chans[c].subs.Keys| == |chans[c].subs|;
    }
  }

  lemma SplitPairs(chans: Channels, xs: set<Subject>, x: Subject)
    requires x in xs
    ensures PairsOfAll(chans, xs) == PairsOfAll(chans, xs - {x}) + PairsOf(chans, x)
    ensures PairsOfAll(chans, xs - {x}) !! PairsOf(chans, x)
  {
  }

  lemma SplitChannels(chans: Channels, xs: set<Subject>, x: Subject)
    requires x in xs
    ensures ChannelsOfAll(chans, xs) == ChannelsOfAll(chans, xs - {x}) + ChannelsOf(chans, x)
    ensures ChannelsOfAll(chans, xs - {x}) !! ChannelsOf(chans, x)
  {
  }

  lemma {:induction false} SumOverSubjects(chans: Channels, metric: map<Subject, Metric>, xs: set<Subject>)
    requires MetricsInv(chans, metric)
    ensures SubscriptionsOfSubjects(metric, xs) == |PairsOfAll(chans, xs)|
    ensures ChannelsOfSubjects(metric, xs) == |ChannelsOfAll(chans, xs)|
  {
    if xs == {} {
      assert PairsOfAll(chans, xs) == {} && ChannelsOfAll(chans, xs) == {};
    } else {
      hide PairsOfAll, ChannelsOfAll, PairsOf, ChannelsOf;
      var x := Pick(xs);
      SumOverSubjects(chans, metric, xs - {x});
      assert MetricOf(metric, x) == Metric(|ChannelsOf(chans, x)|, |PairsOf(chans, x)|);
      SplitPairs(chans, xs, x);
      SplitChannels(chans, xs, x);
    }
  }

  /** In every reachable state: the global counter is the sum over the channels and the sum over the
      subjects, the subjects count their live channels and subscriptions, and a channel that was
      cleaned up has no subscription. */
  lemma AccountsAreExact(qs: Quotas, s0: State, run: seq<Action>)
    requires Initial(s0) && ValidRun(qs, s0, run)
    ensures
      var s := After(qs, s0, run);
      && s.acct.numSubscriptions == SubscriptionsOfChannels(s.chans, s.chans.Keys)
      && s.acct.numSubscriptions == SubscriptionsOfSubjects(s.acct.metric, s.acct.metric.Keys)
      && |Live(s.chans)| == ChannelsOfSubjects(s.acct.metric, s.acct.metric.Keys)
    ensures
      var s := After(qs, s0, run);
      forall x :: MetricOf(s.acct.metric, x) == Metric(|ChannelsOf(s.chans, x)|, |PairsOf(s.chans, x)|)
    ensures
      var s := After(qs, s0, run);
      forall c | c in s.chans && !s.chans[c].live :: s.chans[c].subs == map[]
  {
    InitialInv(s0);
    InitialAccounts(s0);
    RunKeepsInv(qs, s0, run);
    RunKeepsAccounts(qs, s0, run);
    var s := After(qs, s0, run);
    forall c | c in s.chans && !s.chans[c].live
      ensures s.chans[c].subs == map[]
    {
      assert ChannelInv(s.chans[c], s.prjs);
    }
    SumOverChannels(s.chans, s.chans.Keys);
    SumOverSubjects(s.chans, s.acct.metric, s.acct.metric.Keys);
    AllSubjects(s.chans, s.acct.metric);
  }

  lemma AllSubjects(chans: Channels, metric: map<Subject, Metric>)
    requires forall c | c in chans :: chans[c].subject in metric
    ensures PairsOfAll(chans, metric.Keys) == AllPairs(chans) == PairsIn(chans, chans.Keys)
    ensures ChannelsOfAll(chans, metric.Keys) == Live(chans)
  {
  }

  /* ---------- quotas ---------- */

  ghost predicate QuotasKept(qs: Quotas, s: State) {
    && |Live(s.chans)| <= qs.channels
    && s.acct.numSubscriptions <= qs.subscriptions
    && (forall x :: MetricOf(s.acct.metric, x).subscriptions <= qs.subscriptionsPerSubject)
    && ChannelQuotaKept(qs, s)
  }

  ghost predicate ChannelQuotaKept(qs: Quotas, s: State) {
    forall x :: MetricOf(s.acct.metric, x).channels <= qs.channelsPerSubject
  }

  lemma NewChannelKeepsQuotas(qs: Quotas, s: State, c: ChannelId, subject: Subject, duration: int)
    requires qs.channelsPerSubject >= 1 || qs.channels == 0
    requires QuotasKept(qs, s) && c !in s.chans
    ensures QuotasKept(qs, NewChannelStep(qs, s, c, subject, duration).0)
  {
    var (s', r) := NewChannelStep(qs, s, c, subject, duration);
    if r.Done? {
      assert Live(s'.chans) == Live(s.chans) + {c};
      forall x
        ensures MetricOf(s'.acct.metric, x).channels <= qs.channelsPerSubject
        ensures MetricOf(s'.acct.metric, x).subscriptions <= qs.subscriptionsPerSubject
      {
        assert MetricOf(s.acct.metric, x).channels <= qs.channelsPerSubject;
      }
    }
  }

  lemma SmallerKeepsQuotas(qs: Quotas, s: State, s': State)
    requires QuotasKept(qs, s) && Live(s'.chans) <= Live(s.chans) && s'.acct.numSubscriptions <= s.acct.numSubscriptions
    requires forall x ::
      && MetricOf(s'.acct.metric, x).channels <= MetricOf(s.acct.metric, x).channels
      && MetricOf(s'.acct.metric, x).subscriptions <= MetricOf(s.acct.metric, x).subscriptions
    ensures QuotasKept(qs, s')
  {
    hide Live;
    assert Live(s.chans) == Live(s'.chans) + (Live(s.chans) - Live(s'.chans));
  }

  /** Every step but NewChannel and Subscribe changes no counter upwards. */
  lemma OtherStepKeepsQuotas(qs: Quotas, s: State, a: Action)
    requires QuotasKept(qs, s) && Enabled(s, a)
    requires !a.NewChannel? && !a.Subscribe?
    ensures QuotasKept(qs, Step(qs, s, a).0)
  {
    hide QuotasKept;
    var s' := Step(qs, s, a).0;
    if a.WatchScan? {
      ScanKeepsShape(s, a.c);
    } else if a.Unsubscribe? || a.CleanupUnsubscribe? || a.CleanupFinish? {
      hide MetricOf;
      assert Live(s'.chans) <= Live(s.chans);
    } else {
      OtherStepKeepsShape(qs, s, a);
      hide Step, Enabled;
    }
    SmallerKeepsQuotas(qs, s, s');
  }

  lemma SubscribeKeepsQuotas(qs: Quotas, s: State, c: ChannelId, key: Key)
    requires QuotasKept(qs, s)
    ensures QuotasKept(qs, SubscribeStep(qs, s, c, key).0)
  {
    hide Guaranteed;
    var s' := SubscribeStep(qs, s, c, key).0;
    assert Live(s'.chans) == Live(s.chans);
    hide Live;
    forall x
      ensures MetricOf(s'.acct.metric, x).subscriptions <= qs.subscriptionsPerSubject
      ensures MetricOf(s'.acct.metric, x).channels <= qs.channelsPerSubject
    {
      assert MetricOf(s.acct.metric, x).channels <= qs.channelsPerSubject;
    }
  }

  lemma {:induction false} RunKeepsQuotas(qs: Quotas, s: State, run: seq<Action>)
    requires qs.channelsPerSubject >= 1 || qs.channels == 0
    requires QuotasKept(qs, s) && ValidRun(qs, s, run)
    ensures QuotasKept(qs, After(qs, s, run))
    decreases |run|
  {
    if run != [] {
      var a := run[0];
      match a {
        case NewChannel(c, subject, duration) => NewChannelKeepsQuotas(qs, s, c, subject, duration);
        case Subscribe(c, key) => SubscribeKeepsQuotas(qs, s, c, key);
        case _ => OtherStepKeepsQuotas(qs, s, a);
      }
      hide QuotasKept, Enabled;
      RunKeepsQuotas(qs, Step(qs, s, a).0, run[1..]);
    }
  }

  /** No quota is ever exceeded exactly if ChannelsPerSubject is at least 1 (or no channel is allowed
      at all): the first channel of a subject is not checked against it. */
  lemma QuotasHoldExactlyIf(qs: Quotas)
    ensures (forall s0, run | Initial(s0) && ValidRun(qs, s0, run) :: QuotasKept(qs, After(qs, s0, run)))
      <==> qs.channelsPerSubject >= 1 || qs.channels == 0
  {
    if qs.channelsPerSubject >= 1 || qs.channels == 0 {
      forall s0, run | Initial(s0) && ValidRun(qs, s0, run)
        ensures QuotasKept(qs, After(qs, s0, run))
      {
        assert Live(s0.chans) == {};
        RunKeepsQuotas(qs, s0, run);
      }
    } else {
      var s0, run := FirstChannelIsNotChecked(qs);
      assert Initial(s0) && ValidRun(qs, s0, run) && !QuotasKept(qs, After(qs, s0, run));
    }
  }

  lemma FirstChannelIsNotChecked(qs: Quotas) returns (s0: State, run: seq<Action>)
    requires qs.channelsPerSubject == 0 && qs.channels >= 1
    ensures Initial(s0) && ValidRun(qs, s0, run) && !QuotasKept(qs, After(qs, s0, run))
  {
    s0 := State(map[], map[], Accounts(map[], 0), Queue([], multiset{}, Idle), 0);
    var a := NewChannel(0, 0, 0);
    run := [a];
    assert Live(s0.chans) == {};
    var s1 := Step(qs, s0, a).0;
    assert run[1..] == [];
    assert After(qs, s1, []) == s1;
    assert MetricOf(s1.acct.metric, 0).channels == 1;
  }
}
