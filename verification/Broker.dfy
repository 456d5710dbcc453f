/** The notification broker of pkg/in10nmem as a transition system.

    Clients subscribe channels to projections and watch their channel; Update changes the offset of a
    projection.  One notifier turns events into one-slot wakeups of the subscribed channels.  Every
    critical section and every send on the events queue is one step.  Subscribe, Unsubscribe and the
    cleanup of one channel do not overlap; everything else interleaves freely.

    Channel identifiers are never reused, so `chans` keeps the channels that were cleaned up.
 */
module Broker {

  const EVENTS_CHANNEL_SIZE := 10

  type ChannelId = nat
  type Subject = nat

  datatype Key = Key(app: nat, projection: nat, ws: nat)

  const HEARTBEAT30 := 1
  const HEARTBEAT30_KEY := Key(0, HEARTBEAT30, 0)

  datatype Quotas = Quotas(channels: nat, channelsPerSubject: nat, subscriptions: nat, subscriptionsPerSubject: nat)

  /** toSubscribe[c] is true for a channel to add and false for nil, a channel to remove. */
  datatype Projection = Projection(offset: nat, toSubscribe: map<ChannelId, bool>, subscribed: set<ChannelId>)

  /** Where a Subscribe or Unsubscribe call on a channel stands after its first critical section. */
  datatype Work = NoWork | ToPost(key: Key, subscribe: bool) | ToSend(key: Key)

  /** WatchChannel: not called, waiting for the slot, has the token. */
  datatype Watcher = NoWatcher | Waiting | Taken

  /** cleanupChannel, with the cloned subscriptions still to remove. */
  datatype Cleanup = NoCleanup | Cleaning(remaining: set<Key>)

  /** `subs` maps a key to its delivered offset; `live` means that the broker's map holds the channel.
      `dropped` is history: the watcher left with the token and nobody scanned since. */
  datatype Channel = Channel(
    subject: Subject, duration: int, createTime: int,
    subs: map<Key, nat>, slot: bool, terminated: bool, live: bool,
    work: Work, cleanup: Cleanup, watcher: Watcher, dropped: bool)

  datatype Notifier = Idle | Received(key: Key) | Signalling(key: Key, remaining: set<ChannelId>)

  /** `updating` are the Update calls that have not sent their event yet. */
  datatype Queue = Queue(events: seq<Key>, updating: multiset<Key>, notifier: Notifier)

  datatype Metric = Metric(channels: int, subscriptions: int)
  datatype Accounts = Accounts(metric: map<Subject, Metric>, numSubscriptions: int)

  type Projections = map<Key, Projection>
  type Channels = map<ChannelId, Channel>

  datatype State = State(prjs: Projections, chans: Channels, acct: Accounts, queue: Queue, now: int)

  datatype Action =
    | NewChannel(c: ChannelId, subject: Subject, duration: int)
    | Subscribe(c: ChannelId, key: Key)
    | Unsubscribe(c: ChannelId, key: Key)
    | Post(c: ChannelId)
    | Send(c: ChannelId)
    | CleanupStart(c: ChannelId)
    | CleanupUnsubscribe(c: ChannelId, key: Key)
    | CleanupFinish(c: ChannelId)
    | Update(key: Key, offset: nat)
    | UpdateSend(key: Key)
    | NotifierTake
    | NotifierMerge
    | NotifierSignal(c: ChannelId)
    | NotifierDone
    | WatchStart(c: ChannelId)
    | WatchTake(c: ChannelId)
    | WatchScan(c: ChannelId)
    | WatchExpire(c: ChannelId)
    | WatchCancel(c: ChannelId)
    | Advance(to: int)

  datatype Result =
    | Done
    | ChannelDoesNotExist
    | ChannelTerminated
    | QuotaChannels
    | QuotaChannelsPerSubject
    | QuotaSubscriptions
    | QuotaSubscriptionsPerSubject
    | Reports(units: map<Key, nat>)

  predicate Expired(ch: Channel, now: int) {
    now - ch.createTime > ch.duration
  }

  predicate Free(ch: Channel) {
    ch.work.NoWork? && ch.cleanup.NoCleanup?
  }

  predicate Enabled(s: State, a: Action) {
    match a
    case NewChannel(c, _, _) => c !in s.chans
    case Subscribe(c, _) => c in s.chans ==> Free(s.chans[c])
    case Unsubscribe(c, _) => c in s.chans ==> Free(s.chans[c])
    case Post(c) => c in s.chans && s.chans[c].work.ToPost? && s.chans[c].work.key in s.prjs
    case Send(c) => c in s.chans && s.chans[c].work.ToSend? && |s.queue.events| < EVENTS_CHANNEL_SIZE
    case CleanupStart(c) => c in s.chans && Free(s.chans[c]) && !s.chans[c].terminated
    case CleanupUnsubscribe(c, key) =>
      c in s.chans && s.chans[c].work.NoWork? && s.chans[c].cleanup.Cleaning? && key in s.chans[c].cleanup.remaining
    case CleanupFinish(c) =>
      c in s.chans && s.chans[c].work.NoWork? && s.chans[c].cleanup == Cleaning({}) && s.chans[c].subject in s.acct.metric
    case Update(_, _) => true
    case UpdateSend(key) => key in s.queue.updating && |s.queue.events| < EVENTS_CHANNEL_SIZE
    case NotifierTake => s.queue.notifier.Idle? && s.queue.events != []
    case NotifierMerge => s.queue.notifier.Received? && s.queue.notifier.key in s.prjs
    case NotifierSignal(c) => s.queue.notifier.Signalling? && c in s.queue.notifier.remaining && c in s.chans
    case NotifierDone => s.queue.notifier.Signalling? && s.queue.notifier.remaining == {}
    case WatchStart(c) => c in s.chans && s.chans[c].live && s.chans[c].watcher.NoWatcher?
    case WatchTake(c) => c in s.chans && s.chans[c].watcher.Waiting? && s.chans[c].slot
    case WatchScan(c) =>
      c in s.chans && s.chans[c].watcher.Taken? && !Expired(s.chans[c], s.now) && s.chans[c].subs.Keys <= s.prjs.Keys
    case WatchExpire(c) => c in s.chans && s.chans[c].watcher.Taken? && Expired(s.chans[c], s.now)
    case WatchCancel(c) => c in s.chans && !s.chans[c].watcher.NoWatcher?
    case Advance(to) => s.now <= to
  }

  /* ---------- the steps ---------- */

  function Guaranteed(prjs: Projections, key: Key): Projections {
    if key in prjs then prjs else prjs[key := Projection(0, map[], {})]
  }

  function MetricOf(metric: map<Subject, Metric>, subject: Subject): Metric {
    if subject in metric then metric[subject] else Metric(0, 0)
  }

  function AddChannels(metric: map<Subject, Metric>, subject: Subject, n: int): map<Subject, Metric> {
    metric[subject := MetricOf(metric, subject).(channels := MetricOf(metric, subject).channels + n)]
  }

  function AddSubscriptions(acct: Accounts, subject: Subject, n: int): Accounts {
    var m := MetricOf(acct.metric, subject);
    Accounts(acct.metric[subject := m.(subscriptions := m.subscriptions + n)], acct.numSubscriptions + n)
  }

  function Live(chans: Channels): set<ChannelId> {
    set c | c in chans && chans[c].live
  }

  function NewChannelStep(q: Quotas, s: State, c: ChannelId, subject: Subject, duration: int): (State, Result) {
    if |Live(s.chans)| >= q.channels then (s, QuotaChannels)
    else if subject in s.acct.metric && s.acct.metric[subject].channels >= q.channelsPerSubject
    then (s, QuotaChannelsPerSubject)
    else
      (s.(chans := s.chans[c := Channel(subject, duration, s.now, map[], false, false, true, NoWork, NoCleanup, NoWatcher, false)],
          acct := s.acct.(metric := AddChannels(s.acct.metric, subject, 1))),
       Done)
  }

  function Normalized(key: Key): Key {
    if key.projection == HEARTBEAT30 then HEARTBEAT30_KEY else key
  }

  function SubscribeStep(q: Quotas, s: State, c: ChannelId, rawKey: Key): (State, Result) {
    if c !in s.chans || !s.chans[c].live then (s, ChannelDoesNotExist)
    else
      var ch := s.chans[c];
      if ch.terminated then (s, ChannelTerminated)
      else if s.acct.numSubscriptions >= q.subscriptions then (s, QuotaSubscriptions)
      else if MetricOf(s.acct.metric, ch.subject).subscriptions >= q.subscriptionsPerSubject
      then (s, QuotaSubscriptionsPerSubject)
      else
        var key := Normalized(rawKey);
        var s1 := s.(prjs := Guaranteed(s.prjs, key));
        if key in ch.subs then (s1.(chans := s.chans[c := ch.(work := ToPost(key, true))]), Done)
        else
          (s1.(chans := s.chans[c := ch.(subs := ch.subs[key := 0], work := ToPost(key, true))],
               acct := AddSubscriptions(s.acct, ch.subject, 1)),
           Done)
  }

  /** The first critical section of Unsubscribe. */
  function Removed(s: State, c: ChannelId, key: Key): State
    requires c in s.chans
  {
    var ch := s.chans[c];
    var work := if key in s.prjs then ToPost(key, false) else NoWork;
    if key in ch.subs then
      s.(chans := s.chans[c := ch.(subs := ch.subs - {key}, work := work)],
         acct := AddSubscriptions(s.acct, ch.subject, -1))
    else
      s.(chans := s.chans[c := ch.(work := work)])
  }

  function UnsubscribeStep(s: State, c: ChannelId, key: Key): (State, Result) {
    if c !in s.chans || !s.chans[c].live then (s, ChannelDoesNotExist)
    else (Removed(s, c, key), Done)
  }

  function PostStep(s: State, c: ChannelId): State
    requires Enabled(s, Post(c))
  {
    var ch := s.chans[c];
    var prj := s.prjs[ch.work.key];
    s.(prjs := s.prjs[ch.work.key := prj.(toSubscribe := prj.toSubscribe[c := ch.work.subscribe])],
       chans := s.chans[c := ch.(work := ToSend(ch.work.key))])
  }

  function SendStep(s: State, c: ChannelId): State
    requires Enabled(s, Send(c))
  {
    s.(queue := s.queue.(events := s.queue.events + [s.chans[c].work.key]),
       chans := s.chans[c := s.chans[c].(work := NoWork)])
  }

  function CleanupStartStep(s: State, c: ChannelId): State
    requires c in s.chans
  {
    s.(chans := s.chans[c := s.chans[c].(terminated := true, cleanup := Cleaning(s.chans[c].subs.Keys))])
  }

  function CleanupUnsubscribeStep(s: State, c: ChannelId, key: Key): State
    requires c in s.chans && s.chans[c].cleanup.Cleaning?
  {
    var s1 := Removed(s, c, key);
    s1.(chans := s1.chans[c := s1.chans[c].(cleanup := Cleaning(s.chans[c].cleanup.remaining - {key}))])
  }

  function CleanupFinishStep(s: State, c: ChannelId): State
    requires c in s.chans
  {
    s.(chans := s.chans[c := s.chans[c].(live := false, cleanup := NoCleanup)],
       acct := s.acct.(metric := AddChannels(s.acct.metric, s.chans[c].subject, -1)))
  }

  function UpdateStep(s: State, key: Key, offset: nat): State {
    var prjs := Guaranteed(s.prjs, key);
    s.(prjs := prjs[key := prjs[key].(offset := offset)],
       queue := s.queue.(updating := s.queue.updating + multiset{key}))
  }

  function UpdateSendStep(s: State, key: Key): State {
    s.(queue := s.queue.(events := s.queue.events + [key], updating := s.queue.updating - multiset{key}))
  }

  function NotifierTakeStep(s: State): State
    requires s.queue.events != []
  {
    s.(queue := s.queue.(events := s.queue.events[1..], notifier := Received(s.queue.events[0])))
  }

  function Merged(prj: Projection): set<ChannelId> {
    (set c | c in prj.subscribed && c !in prj.toSubscribe) + (set c | c in prj.toSubscribe && prj.toSubscribe[c])
  }

  function NotifierMergeStep(s: State): State
    requires Enabled(s, NotifierMerge)
  {
    var key := s.queue.notifier.key;
    var prj := s.prjs[key];
    s.(prjs := s.prjs[key := prj.(toSubscribe := map[], subscribed := Merged(prj))],
       queue := s.queue.(notifier := Signalling(key, Merged(prj))))
  }

  function NotifierSignalStep(s: State, c: ChannelId): State
    requires Enabled(s, NotifierSignal(c))
  {
    s.(chans := s.chans[c := s.chans[c].(slot := true)],
       queue := s.queue.(notifier := Signalling(s.queue.notifier.key, s.queue.notifier.remaining - {c})))
  }

  /** The subscriptions whose projection moved past the delivered offset. */
  function Units(prjs: Projections, subs: map<Key, nat>): map<Key, nat> {
    map key | key in subs && key in prjs && prjs[key].offset > subs[key] :: prjs[key].offset
  }

  function WatchScanStep(s: State, c: ChannelId): (State, Result)
    requires c in s.chans
  {
    var ch := s.chans[c];
    var units := Units(s.prjs, ch.subs);
    (s.(chans := s.chans[c := ch.(subs := ch.subs + units, watcher := Waiting, dropped := false)]), Reports(units))
  }

  function Step(q: Quotas, s: State, a: Action): (State, Result)
    requires Enabled(s, a)
  {
    match a
    case NewChannel(c, subject, duration) => NewChannelStep(q, s, c, subject, duration)
    case Subscribe(c, key) => SubscribeStep(q, s, c, key)
    case Unsubscribe(c, key) => UnsubscribeStep(s, c, key)
    case Post(c) => (PostStep(s, c), Done)
    case Send(c) => (SendStep(s, c), Done)
    case CleanupStart(c) => (CleanupStartStep(s, c), Done)
    case CleanupUnsubscribe(c, key) => (CleanupUnsubscribeStep(s, c, key), Done)
    case CleanupFinish(c) => (CleanupFinishStep(s, c), Done)
    case Update(key, offset) => (UpdateStep(s, key, offset), Done)
    case UpdateSend(key) => (UpdateSendStep(s, key), Done)
    case NotifierTake => (NotifierTakeStep(s), Done)
    case NotifierMerge => (NotifierMergeStep(s), Done)
    case NotifierSignal(c) => (NotifierSignalStep(s, c), Done)
    case NotifierDone => (s.(queue := s.queue.(notifier := Idle)), Done)
    case WatchStart(c) => (s.(chans := s.chans[c := s.chans[c].(watcher := Waiting)]), Done)
    case WatchTake(c) => (s.(chans := s.chans[c := s.chans[c].(watcher := Taken, slot := false)]), Done)
    case WatchScan(c) => WatchScanStep(s, c)
    case WatchExpire(c) => (s.(chans := s.chans[c := s.chans[c].(watcher := NoWatcher)]), Done)
    case WatchCancel(c) =>
      (s.(chans := s.chans[c := s.chans[c].(watcher := NoWatcher,
                                           dropped := s.chans[c].dropped || s.chans[c].watcher.Taken?)]), Done)
    case Advance(to) => (s.(now := to), Done)
  }

  /* ---------- runs ---------- */

  ghost predicate ValidRun(q: Quotas, s: State, run: seq<Action>)
    decreases |run|
  {
    run == [] || (Enabled(s, run[0]) && ValidRun(q, Step(q, s, run[0]).0, run[1..]))
  }

  ghost function After(q: Quotas, s: State, run: seq<Action>): State
    requires ValidRun(q, s, run)
    decreases |run|
  {
    if run == [] then s else After(q, Step(q, s, run[0]).0, run[1..])
  }

  ghost predicate Initial(s: State) {
    s.prjs == map[] && s.chans == map[] && s.acct == Accounts(map[], 0) && s.queue == Queue([], multiset{}, Idle)
  }

  /* ---------- what the runs keep ---------- */

  /** An event of the projection is on its way to the notifier. */
  predicate Pending(key: Key, work: Work, q: Queue) {
    key in q.events || key in q.updating || q.notifier == Received(key) || work == ToSend(key)
  }

  /** The notifier signals the channel for this projection, or will do so at the next event, which comes. */
  predicate Routed(c: ChannelId, key: Key, work: Work, prj: Projection, q: Queue) {
    || work == ToPost(key, true)
    || (c in prj.toSubscribe && prj.toSubscribe[c] && Pending(key, work, q))
    || (c !in prj.toSubscribe && c in prj.subscribed)
  }

  predicate BeingSignalled(c: ChannelId, key: Key, q: Queue) {
    q.notifier.Signalling? && q.notifier.key == key && c in q.notifier.remaining
  }

  /** Something still makes the watcher look at the subscription. */
  predicate WakeupComes(c: ChannelId, key: Key, ch: Channel, q: Queue) {
    || ch.work == ToPost(key, true)
    || Pending(key, ch.work, q)
    || BeingSignalled(c, key, q)
    || ch.slot
    || ch.watcher.Taken?
  }

  predicate PairInv(c: ChannelId, key: Key, ch: Channel, prjs: Projections, q: Queue, now: int) {
    key in ch.subs ==>
      && key in prjs
      && Routed(c, key, ch.work, prjs[key], q)
      && (prjs[key].offset > ch.subs[key] ==> WakeupComes(c, key, ch, q) || Expired(ch, now) || ch.dropped)
  }

  ghost predicate WakeupInv(chans: Channels, prjs: Projections, q: Queue, now: int) {
    forall c, key | c in chans && key in chans[c].subs :: PairInv(c, key, chans[c], prjs, q, now)
  }

  predicate ChannelInv(ch: Channel, prjs: Projections) {
    && (match ch.work
        case NoWork => true
        case ToPost(key, subscribe) => key in prjs && subscribe == (key in ch.subs)
        case ToSend(key) => key in prjs)
    && (ch.cleanup.Cleaning? ==> ch.terminated && ch.live && ch.subs.Keys <= ch.cleanup.remaining)
    && (ch.terminated && ch.live ==> ch.cleanup.Cleaning?)
    && (!ch.live ==> ch.terminated && ch.subs == map[] && ch.work.NoWork?)
  }

  ghost predicate ChannelsInv(chans: Channels, prjs: Projections) {
    forall c | c in chans :: ChannelInv(chans[c], prjs)
  }

  ghost predicate KeysInv(chans: Channels, prjs: Projections, q: Queue) {
    && (forall key | key in prjs :: prjs[key].toSubscribe.Keys <= chans.Keys && prjs[key].subscribed <= chans.Keys)
    && (forall key | key in q.events :: key in prjs)
    && (forall key | key in q.updating :: key in prjs)
    && (!q.notifier.Idle? ==> q.notifier.key in prjs)
    && (q.notifier.Signalling? ==> q.notifier.remaining <= chans.Keys)
  }

  ghost predicate Safe(chans: Channels, prjs: Projections, q: Queue, now: int) {
    && KeysInv(chans, prjs, q)
    && ChannelsInv(chans, prjs)
    && WakeupInv(chans, prjs, q, now)
  }

  ghost predicate Inv(s: State) {
    Safe(s.chans, s.prjs, s.queue, s.now)
  }

  lemma ChangeChannel(chans: Channels, prjs: Projections, q: Queue, now: int, c: ChannelId, ch: Channel)
    requires Safe(chans, prjs, q, now) && ChannelInv(ch, prjs)
    requires forall key | key in ch.subs :: PairInv(c, key, ch, prjs, q, now)
    ensures Safe(chans[c := ch], prjs, q, now)
  {
    hide PairInv, ChannelInv;
  }

  lemma GuaranteeKeeps(chans: Channels, prjs: Projections, q: Queue, now: int, key: Key)
    requires Safe(chans, prjs, q, now)
    ensures Safe(chans, Guaranteed(prjs, key), q, now)
  {
  }

  lemma SubscribeChannelKeeps(chans: Channels, prjs: Projections, q: Queue, now: int, c: ChannelId, key: Key)
    requires Safe(chans, prjs, q, now)
    requires c in chans && key in prjs && Free(chans[c]) && chans[c].live && !chans[c].terminated
    ensures Safe(chans[c := chans[c].(work := ToPost(key, true))], prjs, q, now) || key !in chans[c].subs
    ensures Safe(chans[c := chans[c].(subs := chans[c].subs[key := 0], work := ToPost(key, true))], prjs, q, now) || key in chans[c].subs
  {
    var ch := chans[c];
    assert ChannelInv(ch, prjs);
    assert forall k | k in ch.subs :: PairInv(c, k, ch, prjs, q, now);
    hide KeysInv, ChannelsInv, WakeupInv;
    if key in ch.subs {
      ChangeChannel(chans, prjs, q, now, c, ch.(work := ToPost(key, true)));
    } else {
      ChangeChannel(chans, prjs, q, now, c, ch.(subs := ch.subs[key := 0], work := ToPost(key, true)));
    }
  }

  lemma SubscribeKeeps(qs: Quotas, s: State, c: ChannelId, rawKey: Key)
    requires Inv(s) && Enabled(s, Subscribe(c, rawKey))
    ensures Inv(SubscribeStep(qs, s, c, rawKey).0)
  {
    hide Safe;
    var (s', r) := SubscribeStep(qs, s, c, rawKey);
    if r.Done? {
      GuaranteeKeeps(s.chans, s.prjs, s.queue, s.now, Normalized(rawKey));
      SubscribeChannelKeeps(s.chans, s'.prjs, s.queue, s.now, c, Normalized(rawKey));
    }
  }

  lemma RemovedKeeps(s: State, c: ChannelId, key: Key)
    requires Inv(s) && c in s.chans && s.chans[c].live && s.chans[c].work.NoWork?
    ensures Inv(Removed(s, c, key))
  {
    var s' := Removed(s, c, key);
    assert ChannelInv(s.chans[c], s.prjs);
    assert forall k | k in s.chans[c].subs :: PairInv(c, k, s.chans[c], s.prjs, s.queue, s.now);
    hide KeysInv, ChannelsInv, WakeupInv;
    ChangeChannel(s.chans, s.prjs, s.queue, s.now, c, s'.chans[c]);
  }

  lemma UnsubscribeKeeps(s: State, c: ChannelId, key: Key)
    requires Inv(s) && Enabled(s, Unsubscribe(c, key))
    ensures Inv(UnsubscribeStep(s, c, key).0)
  {
    hide Inv, Removed;
    if c in s.chans && s.chans[c].live {
      RemovedKeeps(s, c, key);
    }
  }

  lemma CleanupStartKeeps(s: State, c: ChannelId)
    requires Inv(s) && Enabled(s, CleanupStart(c))
    ensures Inv(CleanupStartStep(s, c))
  {
    assert ChannelInv(s.chans[c], s.prjs);
    assert forall k | k in s.chans[c].subs :: PairInv(c, k, s.chans[c], s.prjs, s.queue, s.now);
    hide KeysInv, ChannelsInv, WakeupInv;
    ChangeChannel(s.chans, s.prjs, s.queue, s.now, c, CleanupStartStep(s, c).chans[c]);
  }

  /** The channel after one subscription was removed by its cleanup. */
  function Cleaned(s: State, c: ChannelId, key: Key): Channel
    requires c in s.chans && s.chans[c].cleanup.Cleaning?
  {
    var ch := s.chans[c];
    ch.(subs := ch.subs - {key}, work := if key in s.prjs then ToPost(key, false) else NoWork,
        cleanup := Cleaning(ch.cleanup.remaining - {key}))
  }

  lemma CleanedIs(s: State, c: ChannelId, key: Key)
    requires c in s.chans && s.chans[c].cleanup.Cleaning?
    ensures var t := CleanupUnsubscribeStep(s, c, key);
      t.chans == s.chans[c := Cleaned(s, c, key)] && t.prjs == s.prjs && t.queue == s.queue && t.now == s.now
  {
    assert key !in s.chans[c].subs ==> s.chans[c].subs - {key} == s.chans[c].subs;
  }

  lemma CleanedOk(s: State, c: ChannelId, key: Key)
    requires Inv(s) && Enabled(s, CleanupUnsubscribe(c, key))
    ensures ChannelInv(Cleaned(s, c, key), s.prjs)
    ensures forall k | k in Cleaned(s, c, key).subs :: PairInv(c, k, Cleaned(s, c, key), s.prjs, s.queue, s.now)
  {
    assert ChannelInv(s.chans[c], s.prjs);
    assert forall k | k in s.chans[c].subs :: PairInv(c, k, s.chans[c], s.prjs, s.queue, s.now);
    hide KeysInv, ChannelsInv, WakeupInv;
  }

  lemma CleanupUnsubscribeKeeps(s: State, c: ChannelId, key: Key)
    requires Inv(s) && Enabled(s, CleanupUnsubscribe(c, key))
    ensures Inv(CleanupUnsubscribeStep(s, c, key))
  {
    CleanedOk(s, c, key);
    CleanedIs(s, c, key);
    hide KeysInv, ChannelsInv, WakeupInv, ChannelInv, PairInv, CleanupUnsubscribeStep, Cleaned;
    ChangeChannel(s.chans, s.prjs, s.queue, s.now, c, Cleaned(s, c, key));
  }

  lemma CleanupFinishKeeps(s: State, c: ChannelId)
    requires Inv(s) && Enabled(s, CleanupFinish(c))
    ensures Inv(CleanupFinishStep(s, c))
  {
    assert ChannelInv(s.chans[c], s.prjs);
    assert s.chans[c].subs.Keys <= {};
    hide KeysInv, ChannelsInv, WakeupInv;
    ChangeChannel(s.chans, s.prjs, s.queue, s.now, c, CleanupFinishStep(s, c).chans[c]);
  }

  lemma WatchKeeps(qs: Quotas, s: State, a: Action)
    requires Inv(s) && Enabled(s, a)
    requires a.WatchStart? || a.WatchTake? || a.WatchScan? || a.WatchExpire? || a.WatchCancel?
    ensures Inv(Step(qs, s, a).0)
  {
    var c := a.c;
    var ch := Step(qs, s, a).0.chans[c];
    assert ChannelInv(s.chans[c], s.prjs);
    assert ch.subs.Keys == s.chans[c].subs.Keys;
    forall k | k in ch.subs
      ensures PairInv(c, k, ch, s.prjs, s.queue, s.now)
    {
      assert PairInv(c, k, s.chans[c], s.prjs, s.queue, s.now);
    }
    hide KeysInv, ChannelsInv, WakeupInv;
    ChangeChannel(s.chans, s.prjs, s.queue, s.now, c, ch);
  }

  lemma NewChannelKeeps(qs: Quotas, s: State, c: ChannelId, subject: Subject, duration: int)
    requires Inv(s) && Enabled(s, NewChannel(c, subject, duration))
    ensures Inv(NewChannelStep(qs, s, c, subject, duration).0)
  {
    hide KeysInv, ChannelsInv, WakeupInv;
    var (s', r) := NewChannelStep(qs, s, c, subject, duration);
    if r.Done? {
      ChangeChannel(s.chans, s.prjs, s.queue, s.now, c, s'.chans[c]);
    }
  }

  lemma PostKeepsWakeups(s: State, c: ChannelId)
    requires Inv(s) && Enabled(s, Post(c))
    ensures var s' := PostStep(s, c); WakeupInv(s'.chans, s'.prjs, s'.queue, s'.now)
  {
    assert ChannelInv(s.chans[c], s.prjs);
    hide KeysInv, ChannelsInv, ChannelInv;
    var s' := PostStep(s, c);
    forall c', key | c' in s'.chans && key in s'.chans[c'].subs
      ensures PairInv(c', key, s'.chans[c'], s'.prjs, s'.queue, s'.now)
    {
      assert PairInv(c', key, s.chans[c'], s.prjs, s.queue, s.now);
    }
  }

  lemma SendKeepsWakeups(s: State, a: Action)
    requires Inv(s) && Enabled(s, a) && (a.Send? || a.UpdateSend?)
    ensures var s' := (if a.Send? then SendStep(s, a.c) else UpdateSendStep(s, a.key));
      WakeupInv(s'.chans, s'.prjs, s'.queue, s'.now)
  {
    hide KeysInv, ChannelsInv, ChannelInv;
    var s' := if a.Send? then SendStep(s, a.c) else UpdateSendStep(s, a.key);
    forall c', key | c' in s'.chans && key in s'.chans[c'].subs
      ensures PairInv(c', key, s'.chans[c'], s'.prjs, s'.queue, s'.now)
    {
      assert PairInv(c', key, s.chans[c'], s.prjs, s.queue, s.now);
      assert Pending(key, s.chans[c'].work, s.queue) ==> Pending(key, s'.chans[c'].work, s'.queue);
    }
  }

  lemma PostKeeps(s: State, c: ChannelId)
    requires Inv(s) && Enabled(s, Post(c))
    ensures Inv(PostStep(s, c))
  {
    PostKeepsWakeups(s, c);
    hide WakeupInv;
    var s' := PostStep(s, c);
    assert ChannelsInv(s'.chans, s'.prjs);
    hide ChannelsInv;
  }

  lemma SendKeeps(s: State, c: ChannelId)
    requires Inv(s) && Enabled(s, Send(c))
    ensures Inv(SendStep(s, c))
  {
    SendKeepsWakeups(s, Send(c));
    hide WakeupInv;
    assert ChannelsInv(SendStep(s, c).chans, s.prjs);
    assert ChannelInv(s.chans[c], s.prjs);
    hide ChannelsInv;
  }

  lemma UpdateSendKeeps(s: State, key: Key)
    requires Inv(s) && Enabled(s, UpdateSend(key))
    ensures Inv(UpdateSendStep(s, key))
  {
    SendKeepsWakeups(s, UpdateSend(key));
    hide WakeupInv;
    hide ChannelsInv;
  }

  lemma UpdateKeepsPair(s: State, key: Key, offset: nat, c: ChannelId, k: Key)
    requires c in s.chans && k in s.chans[c].subs && PairInv(c, k, s.chans[c], s.prjs, s.queue, s.now)
    ensures var s' := UpdateStep(s, key, offset); PairInv(c, k, s.chans[c], s'.prjs, s'.queue, s.now)
  {
  }

  lemma UpdateKeepsKeys(s: State, key: Key, offset: nat)
    requires KeysInv(s.chans, s.prjs, s.queue) && ChannelsInv(s.chans, s.prjs)
    ensures var s' := UpdateStep(s, key, offset);
      s'.chans == s.chans && s'.now == s.now && KeysInv(s.chans, s'.prjs, s'.queue) && ChannelsInv(s.chans, s'.prjs)
  {
  }

  lemma UpdateKeeps(s: State, key: Key, offset: nat)
    requires Inv(s)
    ensures Inv(UpdateStep(s, key, offset))
  {
    var s' := UpdateStep(s, key, offset);
    UpdateKeepsKeys(s, key, offset);
    hide UpdateStep, PairInv, KeysInv, ChannelsInv;
    forall c, k | c in s.chans && k in s.chans[c].subs
      ensures PairInv(c, k, s.chans[c], s'.prjs, s'.queue, s.now)
    {
      assert PairInv(c, k, s.chans[c], s.prjs, s.queue, s.now);
      UpdateKeepsPair(s, key, offset, c, k);
    }
  }

  lemma NotifierKeepsWakeups(qs: Quotas, s: State, a: Action)
    requires Inv(s) && Enabled(s, a)
    requires a.NotifierTake? || a.NotifierSignal? || a.NotifierDone? || a.Advance?
    ensures var s' := Step(qs, s, a).0; WakeupInv(s'.chans, s'.prjs, s'.queue, s'.now)
  {
    hide KeysInv, ChannelsInv, ChannelInv;
    var s' := Step(qs, s, a).0;
    assert s.queue.events == [] || s.queue.events == [s.queue.events[0]] + s.queue.events[1..];
    forall c, k | c in s'.chans && k in s'.chans[c].subs
      ensures PairInv(c, k, s'.chans[c], s'.prjs, s'.queue, s'.now)
    {
      assert PairInv(c, k, s.chans[c], s.prjs, s.queue, s.now);
      assert Pending(k, s.chans[c].work, s.queue) ==> Pending(k, s.chans[c].work, s'.queue);
    }
  }

  lemma NotifierKeeps(qs: Quotas, s: State, a: Action)
    requires Inv(s) && Enabled(s, a)
    requires a.NotifierTake? || a.NotifierSignal? || a.NotifierDone? || a.Advance?
    ensures Inv(Step(qs, s, a).0)
  {
    NotifierKeepsWakeups(qs, s, a);
    hide WakeupInv;
  }

  /** The central step: the event is consumed, and every stale subscription is about to be signalled. */
  lemma MergeKeeps(s: State)
    requires Inv(s) && Enabled(s, NotifierMerge)
    ensures Inv(NotifierMergeStep(s))
  {
    var s' := NotifierMergeStep(s);
    forall c, k | c in s'.chans && k in s'.chans[c].subs
      ensures PairInv(c, k, s'.chans[c], s'.prjs, s'.queue, s'.now)
    {
      assert PairInv(c, k, s.chans[c], s.prjs, s.queue, s.now);
    }
    hide WakeupInv;
  }

  lemma StepKeepsInv(qs: Quotas, s: State, a: Action)
    requires Inv(s) && Enabled(s, a)
    ensures Inv(Step(qs, s, a).0)
  {
    hide Inv;
    match a
    case NewChannel(c, subject, duration) => NewChannelKeeps(qs, s, c, subject, duration);
    case Subscribe(c, key) => SubscribeKeeps(qs, s, c, key);
    case Unsubscribe(c, key) => UnsubscribeKeeps(s, c, key);
    case Post(c) => PostKeeps(s, c);
    case Send(c) => SendKeeps(s, c);
    case UpdateSend(key) => UpdateSendKeeps(s, key);
    case CleanupStart(c) => CleanupStartKeeps(s, c);
    case CleanupUnsubscribe(c, key) => CleanupUnsubscribeKeeps(s, c, key);
    case CleanupFinish(c) => CleanupFinishKeeps(s, c);
    case Update(key, offset) => UpdateKeeps(s, key, offset);
    case NotifierTake => NotifierKeeps(qs, s, a);
    case NotifierMerge => MergeKeeps(s);
    case NotifierSignal(_) => NotifierKeeps(qs, s, a);
    case NotifierDone => NotifierKeeps(qs, s, a);
    case Advance(_) => NotifierKeeps(qs, s, a);
    case _ => WatchKeeps(qs, s, a);
  }

  lemma InitialInv(s: State)
    requires Initial(s)
    ensures Inv(s)
  {
  }

  lemma {:induction false} RunKeepsInv(qs: Quotas, s: State, run: seq<Action>)
    requires Inv(s) && ValidRun(qs, s, run)
    ensures Inv(After(qs, s, run))
    decreases |run|
  {
    hide Inv, Step, Enabled;
    if run != [] {
      StepKeepsInv(qs, s, run[0]);
      RunKeepsInv(qs, Step(qs, s, run[0]).0, run[1..]);
    }
  }
}
