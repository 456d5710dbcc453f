/** What clients are told, measured against the arguments of the Update calls. */
module BrokerOffsets {
  import opened Broker
  import opened BrokerWakeups

  /** The argument of the last Update of the key in a run, `before` if there is none. */
  function LastUpdate(run: seq<Action>, key: Key, before: nat): nat
    decreases |run|
  {
    if run == [] then before
    else LastUpdate(run[1..], key, if run[0].Update? && run[0].key == key then run[0].offset else before)
  }

  function OffsetOf(prjs: Projections, key: Key): nat {
    if key in prjs then prjs[key].offset else 0
  }

  lemma StepUpdatesOffset(qs: Quotas, s: State, a: Action, key: Key)
    requires Enabled(s, a)
    ensures OffsetOf(Step(qs, s, a).0.prjs, key)
      == if a.Update? && a.key == key then a.offset else OffsetOf(s.prjs, key)
  {
    hide NewChannelStep, Removed, Merged, Units, Live, AddChannels, AddSubscriptions, Normalized, MetricOf;
    match a {
      case NewChannel(c, subject, duration) => NewChannelKeepsOffsets(qs, s, c, subject, duration);
      case Unsubscribe(c, k) => RemovedKeepsOffsets(s, c, k);
      case CleanupUnsubscribe(c, k) => RemovedKeepsOffsets(s, c, k);
      case _ =>
    }
  }

  lemma NewChannelKeepsOffsets(qs: Quotas, s: State, c: ChannelId, subject: Subject, duration: int)
    ensures NewChannelStep(qs, s, c, subject, duration).0.prjs == s.prjs
  {
  }

  lemma RemovedKeepsOffsets(s: State, c: ChannelId, key: Key)
    ensures c in s.chans ==> Removed(s, c, key).prjs == s.prjs
  {
  }

  /** Over every run the offset of a projection is the argument of the last Update of its key, or 0. */
  lemma {:induction false} OffsetIsLastUpdate(qs: Quotas, s: State, run: seq<Action>, key: Key)
    requires ValidRun(qs, s, run)
    ensures OffsetOf(After(qs, s, run).prjs, key) == LastUpdate(run, key, OffsetOf(s.prjs, key))
    decreases |run|
  {
    hide Step, Enabled, OffsetOf;
    if run != [] {
      StepUpdatesOffset(qs, s, run[0], key);
      OffsetIsLastUpdate(qs, Step(qs, s, run[0]).0, run[1..], key);
    }
  }

  /** Each scan reports, for each subscription that is behind and for no other, the argument of the last Update
      of its key. */
  lemma ReportIsLastUpdate(qs: Quotas, s0: State, run: seq<Action>, c: ChannelId, key: Key)
    requires Reachable(qs, s0, run) && Enabled(After(qs, s0, run), WatchScan(c))
    ensures
      var s := After(qs, s0, run);
      var units := Step(qs, s, WatchScan(c)).1.units;
      && (key in units <==> key in s.chans[c].subs && LastUpdate(run, key, 0) > s.chans[c].subs[key])
      && (key in units ==> units[key] == LastUpdate(run, key, 0))
  {
    OffsetIsLastUpdate(qs, s0, run, key);
    hide LastUpdate;
  }

  /* ---------- what is delivered was reported ---------- */

  lemma StepReports(qs: Quotas, s: State, a: Action, c: ChannelId, key: Key)
    requires Enabled(s, a)
    ensures
      var (s', r) := Step(qs, s, a);
      || Delivered(s', c, key) == 0
      || Delivered(s', c, key) == Delivered(s, c, key)
      || (a == WatchScan(c) && r.Reports? && key in r.units && Delivered(s', c, key) == r.units[key])
  {
    if a == Unsubscribe(c, key) || a == CleanupUnsubscribe(c, key) {
      if c in s.chans {
        RemovedIsNotDelivered(s, c, key);
      }
    } else {
      DeliveredStep(qs, s, a, c, key);
    }
    hide SubscribeStep, NewChannelStep, Removed, Units, Merged, Guaranteed, PostStep, SendStep;
  }

  lemma RemovedIsNotDelivered(s: State, c: ChannelId, key: Key)
    requires c in s.chans
    ensures c in Removed(s, c, key).chans && key !in Removed(s, c, key).chans[c].subs
  {
  }

  /** The offset kept as delivered for a subscription was indeed reported to it, or was before the run. */
  lemma {:induction false} DeliveredWasReported(qs: Quotas, s: State, run: seq<Action>, c: ChannelId, key: Key)
    requires ValidRun(qs, s, run)
    ensures var n := Delivered(After(qs, s, run), c, key);
      n == 0 || n == Delivered(s, c, key) || n in Reported(qs, s, run, c, key)
    decreases |run|
  {
    hide Step, Enabled, Delivered;
    if run != [] {
      StepReports(qs, s, run[0], c, key);
      DeliveredWasReported(qs, Step(qs, s, run[0]).0, run[1..], c, key);
    }
  }

  /* ---------- what a client was told ---------- */

  /** A subscription was told nothing yet, or the argument of an Update of its key. */
  ghost predicate Told(s: State, c: ChannelId, key: Key, updates: iset<nat>) {
    && Delivered(s, c, key) in updates
    && OffsetOf(s.prjs, key) in updates
  }

  ghost function UpdatesOf(a: Action, key: Key): iset<nat> {
    if a.Update? && a.key == key then iset{a.offset} else iset{}
  }

  lemma StepTells(qs: Quotas, s: State, a: Action, c: ChannelId, key: Key, updates: iset<nat>)
    requires Enabled(s, a) && Told(s, c, key, updates) && 0 in updates
    ensures Told(Step(qs, s, a).0, c, key, updates + UpdatesOf(a, key))
  {
    StepUpdatesOffset(qs, s, a, key);
    StepReports(qs, s, a, c, key);
    if a.WatchScan? {
      UnitsAreOffsets(qs, s, a.c, key);
    }
    hide Step, Enabled, OffsetOf, Delivered;
  }

  lemma UnitsAreOffsets(qs: Quotas, s: State, c: ChannelId, key: Key)
    requires Enabled(s, WatchScan(c))
    ensures var r := Step(qs, s, WatchScan(c)).1; r.Reports? && (key in r.units ==> r.units[key] == OffsetOf(s.prjs, key))
  {
  }

  ghost function AllUpdates(run: seq<Action>, key: Key): iset<nat> {
    iset{0} + (iset n: nat | Update(key, n) in run)
  }

  lemma {:induction false} RunTells(qs: Quotas, s: State, run: seq<Action>, c: ChannelId, key: Key, updates: iset<nat>)
    requires ValidRun(qs, s, run) && Told(s, c, key, updates) && 0 in updates
    ensures Told(After(qs, s, run), c, key, updates + AllUpdates(run, key))
    decreases |run|
  {
    hide Step, Enabled, Told;
    if run == [] {
      assert updates + AllUpdates(run, key) == updates;
    } else {
      var t := Step(qs, s, run[0]).0;
      StepTells(qs, s, run[0], c, key, updates);
      RunTells(qs, t, run[1..], c, key, updates + UpdatesOf(run[0], key));
      assert run == [run[0]] + run[1..];
      assert updates + UpdatesOf(run[0], key) + AllUpdates(run[1..], key) == updates + AllUpdates(run, key);
    }
  }

  /** In every reachable state each subscription was told nothing, or the argument of some Update of its key. */
  lemma ToldIsSomeUpdate(qs: Quotas, s0: State, run: seq<Action>, c: ChannelId, key: Key)
    requires Reachable(qs, s0, run)
    requires var s := After(qs, s0, run); c in s.chans && key in s.chans[c].subs
    ensures var told := After(qs, s0, run).chans[c].subs[key]; told == 0 || Update(key, told) in run
  {
    assert Told(s0, c, key, iset{0}) by { hide Step, Enabled; }
    RunTells(qs, s0, run, c, key, iset{0});
    hide Step, Enabled;
  }

  lemma {:induction false} InternalRunHasNoUpdate(run: seq<Action>, key: Key, before: nat)
    requires forall a | a in run :: Internal(a)
    ensures LastUpdate(run, key, before) == before
    decreases |run|
  {
    if run != [] {
      assert run[0] in run && forall a | a in run[1..] :: a in run;
      InternalRunHasNoUpdate(run[1..], key, before);
    }
  }

  /** The promise in terms of the calls: from every reachable state internal steps alone lead to a state where
      a watched channel was told, for each of its subscriptions, the argument of the last Update of the key,
      or of an earlier one that was not lower. */
  lemma ClientIsToldTheLastUpdate(qs: Quotas, s0: State, run: seq<Action>, c: ChannelId) returns (more: seq<Action>)
    requires Reachable(qs, s0, run) && Watched(After(qs, s0, run), c)
    ensures ValidRun(qs, After(qs, s0, run), more) && forall a | a in more :: Internal(a)
    ensures
      var s := After(qs, s0, run);
      var e := After(qs, s, more);
      && SameWatch(s, e, c)
      && forall key | key in s.chans[c].subs ::
           && key in e.chans[c].subs && LastUpdate(run, key, 0) <= e.chans[c].subs[key]
           && (e.chans[c].subs[key] == 0 || Update(key, e.chans[c].subs[key]) in run)
  {
    more := ClientIsEventuallyUpToDate(qs, s0, run, c);
    var s := After(qs, s0, run);
    var e := After(qs, s, more);
    RunAppend(qs, s0, run, more);
    forall key | key in s.chans[c].subs
      ensures key in e.chans[c].subs && LastUpdate(run, key, 0) <= e.chans[c].subs[key]
      ensures e.chans[c].subs[key] == 0 || Update(key, e.chans[c].subs[key]) in run
    {
      OffsetIsLastUpdate(qs, s0, run, key);
      ToldIsSomeUpdate(qs, s0, run + more, c, key);
      assert Update(key, e.chans[c].subs[key]) !in more;
    }
    hide Step, Enabled, Watched, SameWatch, LastUpdate;
  }

  /** So if the last Update of a key has the greatest argument, the client is told exactly that. */
  lemma RisingUpdatesAreTold(qs: Quotas, s0: State, run: seq<Action>, c: ChannelId, key: Key) returns (more: seq<Action>)
    requires Reachable(qs, s0, run) && Watched(After(qs, s0, run), c) && key in After(qs, s0, run).chans[c].subs
    requires forall n: nat | Update(key, n) in run :: n <= LastUpdate(run, key, 0)
    ensures ValidRun(qs, After(qs, s0, run), more) && forall a | a in more :: Internal(a)
    ensures var e := After(qs, After(qs, s0, run), more);
      c in e.chans && key in e.chans[c].subs && e.chans[c].subs[key] == LastUpdate(run, key, 0)
  {
    more := ClientIsToldTheLastUpdate(qs, s0, run, c);
    hide Step, Enabled, LastUpdate, Reachable;
  }
}
