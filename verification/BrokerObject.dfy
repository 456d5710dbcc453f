/** The broker object of pkg/in10nmem: its maps, counters and queue, updated in place.  Every method is a
    critical section or a send, and is one step of module Broker.  The channel and projection objects are
    values in the maps; the notifier and the watchers are cut where another goroutine can run. */
module BrokerObject {
  import opened Broker

  class N10nBroker {
    const quotas: Quotas
    var projections: Projections
    var channels: Channels
    var metricBySubject: map<Subject, Metric>
    var numSubscriptions: int
    var now: int
    var events: seq<Key>
    /** The local variables of the notifier goroutine. */
    var notifier: Notifier
    /** Update calls before their send. */
    ghost var updating: multiset<Key>

    constructor (quotas: Quotas, now: int)
      ensures this.quotas == quotas && Initial(View()) && this.now == now
    {
      this.quotas, this.now := quotas, now;
      projections, channels, metricBySubject, numSubscriptions := map[], map[], map[], 0;
      events, notifier, updating := [], Idle, multiset{};
    }

    ghost function View(): State
      reads this
    {
      State(projections, channels, Accounts(metricBySubject, numSubscriptions), Queue(events, updating, notifier), now)
    }

    ghost predicate Can(a: Action)
      reads this
    {
      Enabled(View(), a)
    }

    method NewChannel(c: ChannelId, subject: Subject, duration: int) returns (err: Result)
      requires Can(Action.NewChannel(c, subject, duration))
      modifies this`channels, this`metricBySubject
      ensures (View(), err) == Step(quotas, old(View()), Action.NewChannel(c, subject, duration))
    {
      if |Live(channels)| >= quotas.channels {
        return QuotaChannels;
      }
      var metric := Metric(0, 0);
      if subject in metricBySubject {
        metric := metricBySubject[subject];
        if metric.channels >= quotas.channelsPerSubject {
          return QuotaChannelsPerSubject;
        }
      }
      metricBySubject := metricBySubject[subject := metric.(channels := metric.channels + 1)];
      channels := channels[c := Channel(subject, duration, now, map[], false, false, true, NoWork, NoCleanup, NoWatcher, false)];
      return Done;
    }

    method GuaranteeProjection(key: Key)
      modifies this`projections
      ensures projections == Guaranteed(old(projections), key)
    {
      if key !in projections {
        projections := projections[key := Projection(0, map[], {})];
      }
    }

    /** Subscribe up to the trigger of the notifier. */
    method Subscribe(c: ChannelId, projectionKey: Key) returns (err: Result)
      requires Can(Action.Subscribe(c, projectionKey))
      modifies this
      ensures (View(), err) == Step(quotas, old(View()), Action.Subscribe(c, projectionKey))
    {
      if c !in channels || !channels[c].live {
        return ChannelDoesNotExist;
      }
      var channel := channels[c];
      if channel.terminated {
        return ChannelTerminated;
      }
      var metric := MetricOf(metricBySubject, channel.subject);
      if numSubscriptions >= quotas.subscriptions {
        return QuotaSubscriptions;
      }
      if metric.subscriptions >= quotas.subscriptionsPerSubject {
        return QuotaSubscriptionsPerSubject;
      }
      var key := if projectionKey.projection == HEARTBEAT30 then HEARTBEAT30_KEY else projectionKey;
      GuaranteeProjection(key);
      if key !in channel.subs {
        channel := channel.(subs := channel.subs[key := 0]);
        metricBySubject := metricBySubject[channel.subject := metric.(subscriptions := metric.subscriptions + 1)];
        numSubscriptions := numSubscriptions + 1;
      }
      channels := channels[c := channel.(work := ToPost(key, true))];
      return Done;
    }

    method RemoveSubscription(c: ChannelId, key: Key)
      requires c in channels
      modifies this`channels, this`metricBySubject, this`numSubscriptions
      ensures View() == Removed(old(View()), c, key)
    {
      var channel := channels[c];
      if key in channel.subs {
        channel := channel.(subs := channel.subs - {key});
        var metric := MetricOf(metricBySubject, channel.subject);
        metricBySubject := metricBySubject[channel.subject := metric.(subscriptions := metric.subscriptions - 1)];
        numSubscriptions := numSubscriptions - 1;
      }
      channels := channels[c := channel.(work := if key in projections then ToPost(key, false) else NoWork)];
    }

    /** Unsubscribe up to the trigger of the notifier. */
    method Unsubscribe(c: ChannelId, key: Key) returns (err: Result)
      requires Can(Action.Unsubscribe(c, key))
      modifies this`channels, this`metricBySubject, this`numSubscriptions
      ensures (View(), err) == Step(quotas, old(View()), Action.Unsubscribe(c, key))
    {
      if c !in channels || !channels[c].live {
        return ChannelDoesNotExist;
      }
      RemoveSubscription(c, key);
      return Done;
    }

    /** The trigger of Subscribe and Unsubscribe under the projection's lock. */
    method Post(c: ChannelId)
      requires Can(Action.Post(c))
      modifies this`projections, this`channels
      ensures View() == Step(quotas, old(View()), Action.Post(c)).0
    {
      var work := channels[c].work;
      var prj := projections[work.key];
      projections := projections[work.key := prj.(toSubscribe := prj.toSubscribe[c := work.subscribe])];
      channels := channels[c := channels[c].(work := ToSend(work.key))];
    }

    method Send(c: ChannelId)
      requires Can(Action.Send(c))
      modifies this`events, this`channels
      ensures View() == Step(quotas, old(View()), Action.Send(c)).0
    {
      events := events + [channels[c].work.key];
      channels := channels[c := channels[c].(work := NoWork)];
    }

    method CleanupStart(c: ChannelId)
      requires Can(Action.CleanupStart(c))
      modifies this`channels
      ensures View() == Step(quotas, old(View()), Action.CleanupStart(c)).0
    {
      var channel := channels[c];
      channels := channels[c := channel.(terminated := true, cleanup := Cleaning(channel.subs.Keys))];
    }

    method CleanupUnsubscribe(c: ChannelId, key: Key)
      requires Can(Action.CleanupUnsubscribe(c, key))
      modifies this`channels, this`metricBySubject, this`numSubscriptions
      ensures View() == Step(quotas, old(View()), Action.CleanupUnsubscribe(c, key)).0
    {
      var remaining := channels[c].cleanup.remaining;
      RemoveSubscription(c, key);
      channels := channels[c := channels[c].(cleanup := Cleaning(remaining - {key}))];
    }

    method CleanupFinish(c: ChannelId)
      requires Can(Action.CleanupFinish(c))
      modifies this`channels, this`metricBySubject
      ensures View() == Step(quotas, old(View()), Action.CleanupFinish(c)).0
    {
      var subject := channels[c].subject;
      var metric := metricBySubject[subject];
      metricBySubject := metricBySubject[subject := metric.(channels := metric.channels - 1)];
      channels := channels[c := channels[c].(live := false, cleanup := NoCleanup)];
    }

    method Update(key: Key, offset: nat)
      modifies this`projections, this`updating
      ensures View() == Step(quotas, old(View()), Action.Update(key, offset)).0
    {
      GuaranteeProjection(key);
      projections := projections[key := projections[key].(offset := offset)];
      updating := updating + multiset{key};
    }

    method UpdateSend(key: Key)
      requires Can(Action.UpdateSend(key))
      modifies this`events, this`updating
      ensures View() == Step(quotas, old(View()), Action.UpdateSend(key)).0
    {
      events := events + [key];
      updating := updating - multiset{key};
    }

    method NotifierReceive()
      requires Can(NotifierTake)
      modifies this`events, this`notifier
      ensures View() == Step(quotas, old(View()), NotifierTake).0
    {
      notifier := Received(events[0]);
      events := events[1..];
    }

    /** The notifier actualizes the subscriptions of the projection. */
    method NotifierActualize()
      requires Can(NotifierMerge)
      modifies this`projections, this`notifier
      ensures View() == Step(quotas, old(View()), NotifierMerge).0
    {
      var key := notifier.key;
      var prj := projections[key];
      var subscribed := prj.subscribed;
      var todo := prj.toSubscribe.Keys;
      while todo != {}
        invariant todo <= prj.toSubscribe.Keys
        invariant subscribed == Merged(prj.(toSubscribe := prj.toSubscribe - todo))
        decreases todo
      {
        var c :| c in todo;
        if prj.toSubscribe[c] {
          subscribed := subscribed + {c};
        } else {
          subscribed := subscribed - {c};
        }
        todo := todo - {c};
      }
      assert prj.toSubscribe - todo == prj.toSubscribe;
      projections := projections[key := prj.(toSubscribe := map[], subscribed := subscribed)];
      notifier := Signalling(key, subscribed);
    }

    /** A send that never blocks: a full slot stays full. */
    method NotifierSignalOne(c: ChannelId)
      requires Can(NotifierSignal(c))
      modifies this`channels, this`notifier
      ensures View() == Step(quotas, old(View()), NotifierSignal(c)).0
    {
      if !channels[c].slot {
        channels := channels[c := channels[c].(slot := true)];
      }
      notifier := Signalling(notifier.key, notifier.remaining - {c});
    }

    method NotifierFinish()
      requires Can(NotifierDone)
      modifies this`notifier
      ensures View() == Step(quotas, old(View()), NotifierDone).0
    {
      notifier := Idle;
    }

    /** The loop over the channel's subscriptions. */
    method CollectUpdates(subscriptions: map<Key, nat>) returns (units: map<Key, nat>, delivered: map<Key, nat>)
      requires subscriptions.Keys <= projections.Keys
      ensures units == Units(projections, subscriptions) && delivered == subscriptions + units
    {
      units, delivered := map[], subscriptions;
      var todo := subscriptions.Keys;
      while todo != {}
        invariant todo <= subscriptions.Keys
        invariant units == Units(projections, subscriptions - todo)
        invariant delivered == subscriptions + units
        decreases todo
      {
        var key :| key in todo;
        UnitsStep(projections, subscriptions, todo, key);
        hide Units;
        if projections[key].offset > subscriptions[key] {
          units := units[key := projections[key].offset];
          delivered := delivered[key := projections[key].offset];
        }
        todo := todo - {key};
      }
      assert subscriptions - todo == subscriptions;
    }

    /** WatchChannel after it took the token: validate the channel, collect what to report. */
    method WatchToken(c: ChannelId) returns (units: map<Key, nat>, expired: bool)
      requires c in channels && Can(if Expired(channels[c], now) then WatchExpire(c) else WatchScan(c))
      modifies this`channels
      ensures expired == Expired(old(channels[c]), now)
      ensures expired ==> View() == Step(quotas, old(View()), WatchExpire(c)).0 && units == map[]
      ensures !expired ==> (View(), Reports(units)) == Step(quotas, old(View()), WatchScan(c))
    {
      var channel := channels[c];
      if now - channel.createTime > channel.duration {
        channels := channels[c := channel.(watcher := NoWatcher)];
        return map[], true;
      }
      var delivered;
      units, delivered := CollectUpdates(channel.subs);
      channels := channels[c := channel.(subs := delivered, watcher := Waiting, dropped := false)];
      return units, false;
    }
  }

  /** One more subscription looked at. */
  lemma UnitsStep(prjs: Projections, subs: map<Key, nat>, todo: set<Key>, key: Key)
    requires key in todo && todo <= subs.Keys <= prjs.Keys
    ensures Units(prjs, subs - (todo - {key})) ==
      if prjs[key].offset > subs[key] then Units(prjs, subs - todo)[key := prjs[key].offset] else Units(prjs, subs - todo)
  {
  }
}
