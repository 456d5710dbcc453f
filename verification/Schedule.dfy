/** The schedule of pkg/ctrlloop: a list of messages sorted by start time, one per key, where a newer serial
    number replaces an older one, and the timer that is set for the front of the list. */
module Schedule {
  import opened Options

  const DEDUP_IN_RETRY_INTERVAL := 100_000_000

  datatype Item = Item(key: nat, sp: nat, serial: nat, start: int)

  /** `timer` is when the timer fires next, if it is set. */
  datatype State = State(items: seq<Item>, serial: nat, timer: Option<int>)

  /** `now` is what the loop read before it waited, `at` the time when the event is handled.
      `accepted` tells whether dedupIn was ready to receive. */
  datatype Action =
    | OnIn(key: nat, sp: nat, start: int, now: int, at: int)
    | OnTimer(accepted: bool, now: int, at: int)
    | OnRepeat(item: Item, now: int, at: int)

  /** The first item of a key. */
  function Find(items: seq<Item>, key: nat): Option<Item> {
    if items == [] then None else if items[0].key == key then Some(items[0]) else Find(items[1..], key)
  }

  /** The list without the first item of a key. */
  function Without(items: seq<Item>, key: nat): seq<Item> {
    if items == [] then []
    else if items[0].key == key then items[1..]
    else [items[0]] + Without(items[1..], key)
  }

  /** Before the first item that starts later. */
  function Inserted(items: seq<Item>, m: Item): seq<Item> {
    if items == [] then [m]
    else if m.start < items[0].start then [m] + items
    else [items[0]] + Inserted(items[1..], m)
  }

  function Added(items: seq<Item>, m: Item): seq<Item> {
    match Find(items, m.key)
    case None => Inserted(items, m)
    case Some(other) => if m.serial > other.serial then Inserted(Without(items, m.key), m) else items
  }

  /** ResetTimerToTop: the duration is counted from `now`, the timer from `at`. */
  function TimerToTop(items: seq<Item>, timer: Option<int>, now: int, at: int): Option<int> {
    if items == [] then timer else Some(at + (items[0].start - now))
  }

  function Step(s: State, a: Action): State {
    match a
    case OnIn(key, sp, start, now, at) =>
      var items := Added(s.items, Item(key, sp, s.serial + 1, start));
      State(items, s.serial + 1, TimerToTop(items, s.timer, now, at))
    case OnRepeat(m, now, at) =>
      var items := Added(s.items, m);
      State(items, s.serial, TimerToTop(items, s.timer, now, at))
    case OnTimer(accepted, now, at) =>
      if s.items == [] then s.(timer := None)
      else if accepted then State(s.items[1..], s.serial, TimerToTop(s.items[1..], None, now, at))
      else s.(timer := Some(at + DEDUP_IN_RETRY_INTERVAL))
  }

  /** What is handled was waited for. */
  predicate Timely(a: Action) {
    a.now <= a.at
  }

  function After(s: State, run: seq<Action>): State
    decreases |run|
  {
    if run == [] then s else After(Step(s, run[0]), run[1..])
  }

  /* ---------- the list ---------- */

  predicate Sorted(items: seq<Item>) {
    forall i, j | 0 <= i < j < |items| :: items[i].start <= items[j].start
  }

  predicate OnePerKey(items: seq<Item>) {
    forall i, j | 0 <= i < j < |items| :: items[i].key != items[j].key
  }

  lemma {:induction false} FindIsMembership(items: seq<Item>, key: nat)
    ensures Find(items, key).None? <==> forall x | x in items :: x.key != key
    ensures Find(items, key).Some? ==> Find(items, key).value in items && Find(items, key).value.key == key
  {
    if items != [] {
      FindIsMembership(items[1..], key);
      assert items == [items[0]] + items[1..];
    }
  }

  /** Of one item per key, Find is the item. */
  lemma FindIsUnique(items: seq<Item>, x: Item)
    requires OnePerKey(items) && x in items
    ensures Find(items, x.key) == Some(x)
  {
    FindIsMembership(items, x.key);
    var f := Find(items, x.key).value;
    var i :| 0 <= i < |items| && items[i] == x;
    var j :| 0 <= j < |items| && items[j] == f;
    assert i == j;
  }

  lemma SortedCons(x: Item, rest: seq<Item>)
    ensures Sorted([x] + rest) <==> Sorted(rest) && forall y | y in rest :: x.start <= y.start
  {
    var items := [x] + rest;
    if Sorted(items) {
      assert items[0] == x && forall i | 0 <= i < |rest| :: rest[i] == items[i + 1];
      forall y | y in rest
        ensures x.start <= y.start
      {
        var i :| 0 <= i < |rest| && rest[i] == y;
        assert items[i + 1] == y;
      }
    }
    assert forall i | 0 < i < |items| :: items[i] == rest[i - 1];
  }

  lemma OnePerKeyCons(x: Item, rest: seq<Item>)
    ensures OnePerKey([x] + rest) <==> OnePerKey(rest) && forall y | y in rest :: x.key != y.key
  {
    var items := [x] + rest;
    if OnePerKey(items) {
      assert items[0] == x && forall i | 0 <= i < |rest| :: rest[i] == items[i + 1];
      forall y | y in rest
        ensures x.key != y.key
      {
        var i :| 0 <= i < |rest| && rest[i] == y;
        assert items[i + 1] == y;
      }
    }
    assert forall i | 0 < i < |items| :: items[i] == rest[i - 1];
  }

  lemma {:induction false} WithoutKeeps(items: seq<Item>, key: nat)
    requires OnePerKey(items)
    ensures forall x :: x in Without(items, key) <==> x in items && x.key != key
    ensures OnePerKey(Without(items, key))
    ensures Sorted(items) ==> Sorted(Without(items, key))
  {
    if items != [] {
      var rest := items[1..];
      assert items == [items[0]] + rest;
      OnePerKeyCons(items[0], rest);
      SortedCons(items[0], rest);
      OnePerKeyCons(items[0], Without(rest, key));
      SortedCons(items[0], Without(rest, key));
      hide Sorted, OnePerKey;
      WithoutKeeps(rest, key);
    }
  }

  lemma {:induction false} WithoutNone(items: seq<Item>, key: nat)
    requires Find(items, key).None?
    ensures Without(items, key) == items
  {
    if items != [] {
      WithoutNone(items[1..], key);
    }
  }

  lemma {:induction false} InsertedKeeps(items: seq<Item>, m: Item)
    requires Sorted(items)
    ensures Sorted(Inserted(items, m))
    ensures forall x :: x in Inserted(items, m) <==> x == m || x in items
    ensures OnePerKey(items) && (forall x | x in items :: x.key != m.key) ==> OnePerKey(Inserted(items, m))
  {
    if items == [] {
    } else {
      var rest := items[1..];
      assert items == [items[0]] + rest;
      OnePerKeyCons(items[0], rest);
      SortedCons(items[0], rest);
      OnePerKeyCons(items[0], Inserted(rest, m));
      SortedCons(items[0], Inserted(rest, m));
      OnePerKeyCons(m, items);
      SortedCons(m, items);
      hide Sorted, OnePerKey;
      InsertedKeeps(rest, m);
    }
  }

  lemma {:induction false} WithoutInserted(items: seq<Item>, m: Item)
    requires forall x | x in items :: x.key != m.key
    ensures Without(Inserted(items, m), m.key) == items
  {
    if items != [] {
      var rest := items[1..];
      assert items == [items[0]] + rest;
      WithoutInserted(rest, m);
      assert ([m] + items)[1..] == items;
    }
  }

  /** What adding a message does to a sorted list with one item per key: the newer serial number stays,
      everything else is the same sequence. */
  lemma AddedProperties(items: seq<Item>, m: Item)
    requires Sorted(items) && OnePerKey(items)
    ensures Sorted(Added(items, m)) && OnePerKey(Added(items, m))
    ensures Without(Added(items, m), m.key) == Without(items, m.key)
    ensures
      var other := Find(items, m.key);
      Find(Added(items, m), m.key) == if other.Some? && other.value.serial >= m.serial then other else Some(m)
    ensures forall x: Item | x.key != m.key :: x in Added(items, m) <==> x in items
  {
    FindIsMembership(items, m.key);
    WithoutKeeps(items, m.key);
    var w := Without(items, m.key);
    InsertedKeeps(w, m);
    WithoutInserted(w, m);
    if Find(items, m.key).None? {
      WithoutNone(items, m.key);
    }
    FindIsUnique(Inserted(w, m), m);
    hide Find, Without, Inserted, Sorted, OnePerKey;
  }

  /* ---------- runs ---------- */


  predicate IsRetry(a: Action) {
    a.OnTimer? && !a.accepted
  }

  lemma StepKeepsList(s: State, a: Action)
    requires Sorted(s.items) && OnePerKey(s.items)
    ensures var s' := Step(s, a); Sorted(s'.items) && OnePerKey(s'.items)
  {
    match a
    case OnIn(key, sp, start, _, _) => AddedProperties(s.items, Item(key, sp, s.serial + 1, start));
    case OnRepeat(m, _, _) => AddedProperties(s.items, m);
    case OnTimer(_, _, _) =>
  }

  /** In every run the list is sorted by start time and holds one item per key; and while it is not
      empty the timer is set: a tenth of a second after a refused send, and otherwise not before the
      front item starts, late by exactly the time the loop waited after it read the clock. */
  lemma {:induction false} ScheduleStaysInOrder(s: State, run: seq<Action>)
    requires Sorted(s.items) && OnePerKey(s.items) && run != []
    requires forall a | a in run :: Timely(a)
    ensures
      var e := After(s, run);
      var a := run[|run| - 1];
      && Sorted(e.items) && OnePerKey(e.items)
      && (e.items != [] ==> e.timer == Some(if IsRetry(a) then a.at + 100_000_000 else e.items[0].start + (a.at - a.now)))
      && forall x | x in e.items :: e.items[0].start <= x.start
    decreases |run|
  {
    StepKeepsList(s, run[0]);
    if |run| == 1 {
      assert run[1..] == [];
    } else {
      ScheduleStaysInOrder(Step(s, run[0]), run[1..]);
    }
  }

  /** The step sends the item of the key to dedupIn. */
  predicate Sends(s: State, a: Action, key: nat) {
    a.OnTimer? && a.accepted && s.items != [] && s.items[0].key == key
  }

  predicate NeverSent(s: State, run: seq<Action>, key: nat)
    decreases |run|
  {
    run == [] || (!Sends(s, run[0], key) && NeverSent(Step(s, run[0]), run[1..], key))
  }

  lemma AddedKeepsNewest(items: seq<Item>, m: Item, x: Item)
    requires Sorted(items) && OnePerKey(items) && x in items
    ensures
      var y := Find(Added(items, m), x.key);
      y.Some? && (y.value == x || y.value.serial > x.serial)
  {
    AddedProperties(items, m);
    FindIsUnique(items, x);
    if m.key != x.key {
      FindIsUnique(Added(items, m), x);
    }
    hide Find, Added, Sorted, OnePerKey;
  }

  lemma StepKeepsNewest(s: State, a: Action, x: Item)
    requires Sorted(s.items) && OnePerKey(s.items) && x in s.items && !Sends(s, a, x.key)
    ensures
      var y := Find(Step(s, a).items, x.key);
      y.Some? && (y.value == x || y.value.serial > x.serial)
  {
    match a
    case OnTimer(accepted, _, _) =>
      FindIsUnique(s.items, x);
      hide Sorted, OnePerKey;
    case OnIn(key, sp, start, _, _) => AddedKeepsNewest(s.items, Item(key, sp, s.serial + 1, start), x);
    case OnRepeat(m, _, _) => AddedKeepsNewest(s.items, m, x);
  }

  /** While the item of a key is not sent, the key stays scheduled, and its item is only ever replaced by
      one with a higher serial number. */
  lemma {:induction false} NewestSerialWins(s: State, run: seq<Action>, x: Item)
    requires Sorted(s.items) && OnePerKey(s.items) && x in s.items && NeverSent(s, run, x.key)
    ensures
      var y := Find(After(s, run).items, x.key);
      y.Some? && (y.value == x || y.value.serial > x.serial)
    decreases |run|
  {
    if run == [] {
      FindIsUnique(s.items, x);
    } else {
      StepKeepsNewest(s, run[0], x);
      StepKeepsList(s, run[0]);
      var s' := Step(s, run[0]);
      FindIsMembership(s'.items, x.key);
      NewestSerialWins(s', run[1..], Find(s'.items, x.key).value);
    }
  }

  /** The newest serial number wins among waiting messages only: once a newer one was sent, an older one
      that is repeated is scheduled again. */
  lemma OlderIsScheduledAfterNewerWasSent(newer: Item, older: Item, timer: Option<int>, serial: nat, now: int)
    requires newer.key == older.key && older.serial < newer.serial
    ensures
      var s := State([newer], serial, timer);
      After(s, [OnRepeat(older, now, now)]).items == [newer]
    ensures
      var s := State([newer], serial, timer);
      After(s, [OnTimer(true, now, now), OnRepeat(older, now, now)]).items == [older]
  {
    var s := State([newer], serial, timer);
    var send, repeat_ := OnTimer(true, now, now), OnRepeat(older, now, now);
    assert [send, repeat_][1..] == [repeat_] && [repeat_][1..] == [];
    assert Find([newer], older.key) == Some(newer);
    assert [newer][1..] == [];
    var s1 := Step(s, send);
    assert s1.items == [] && Step(s1, repeat_).items == [older];
    assert After(s1, [repeat_]) == After(Step(s1, repeat_), []);
  }

  /* ---------- the scheduler object ---------- */

  class SchedulerImp {
    var scheduledItems: seq<Item>
    var serialNumber: nat
    var timer: Option<int>
    var lastDuration: int

    constructor ()
      ensures View() == State([], 0, None)
    {
      scheduledItems, serialNumber, timer, lastDuration := [], 0, None, 0;
    }

    ghost function View(): State
      reads this
    {
      State(scheduledItems, serialNumber, timer)
    }

    method OnIn(key: nat, sp: nat, start: int, now: int, at: int)
      modifies this
      ensures View() == Step(old(View()), Action.OnIn(key, sp, start, now, at))
    {
      serialNumber := serialNumber + 1;
      AddItemToSchedule(Item(key, sp, serialNumber, start));
      ResetTimerToTop(now, at);
    }

    method OnRepeat(m: Item, now: int, at: int)
      modifies this
      ensures View() == Step(old(View()), Action.OnRepeat(m, now, at))
    {
      AddItemToSchedule(m);
      ResetTimerToTop(now, at);
    }

    /** The timer fired; `accepted` tells whether the non-blocking send succeeds. */
    method OnTimer(accepted: bool, now: int, at: int) returns (sent: Option<Item>)
      modifies this
      ensures View() == Step(old(View()), Action.OnTimer(accepted, now, at))
      ensures sent == if accepted && old(scheduledItems) != [] then Some(old(scheduledItems)[0]) else None
    {
      timer := None;
      if scheduledItems == [] {
        return None;
      }
      if accepted {
        sent := Some(scheduledItems[0]);
        scheduledItems := scheduledItems[1..];
        ResetTimerToTop(now, at);
      } else {
        sent := None;
        ResetTimer(DEDUP_IN_RETRY_INTERVAL, at);
      }
    }

    method ResetTimer(d: int, at: int)
      modifies this`timer, this`lastDuration
      ensures timer == Some(at + d) && lastDuration == d
    {
      lastDuration := d;
      timer := Some(at + d);
    }

    method ResetTimerToTop(now: int, at: int)
      modifies this`timer, this`lastDuration
      ensures timer == TimerToTop(scheduledItems, old(timer), now, at)
    {
      if scheduledItems == [] {
        return;
      }
      ResetTimer(scheduledItems[0].start - now, at);
    }

    method AddItemToSchedule(m: Item)
      modifies this`scheduledItems
      ensures scheduledItems == Added(old(scheduledItems), m)
    {
      var i := 0;
      while i < |scheduledItems|
        invariant 0 <= i <= |scheduledItems| && scheduledItems == old(scheduledItems)
        invariant Find(scheduledItems, m.key) == Find(scheduledItems[i..], m.key)
        invariant Without(scheduledItems, m.key) == scheduledItems[..i] + Without(scheduledItems[i..], m.key)
      {
        if scheduledItems[i].key == m.key {
          if m.serial > scheduledItems[i].serial {
            assert scheduledItems[i..][1..] == scheduledItems[i + 1..];
            scheduledItems := scheduledItems[..i] + scheduledItems[i + 1..];
            InsertByStart(m);
          }
          return;
        }
        assert scheduledItems[i..][1..] == scheduledItems[i + 1..];
        assert scheduledItems[..i + 1] == scheduledItems[..i] + [scheduledItems[i]];
        i := i + 1;
      }
      InsertByStart(m);
    }

    method InsertByStart(m: Item)
      modifies this`scheduledItems
      ensures scheduledItems == Inserted(old(scheduledItems), m)
    {
      hide *;
      var i := 0;
      assert scheduledItems[0..] == scheduledItems && [] + Inserted(scheduledItems, m) == Inserted(scheduledItems, m);
      while i < |scheduledItems|
        invariant 0 <= i <= |scheduledItems| && scheduledItems == old(scheduledItems)
        invariant Inserted(scheduledItems, m) == scheduledItems[..i] + Inserted(scheduledItems[i..], m)
      {
        InsertedStep(scheduledItems[..i], scheduledItems[i..], m);
        if m.start < scheduledItems[i].start {
          scheduledItems := scheduledItems[..i] + ([m] + scheduledItems[i..]);
          return;
        }
        assert scheduledItems[i..][1..] == scheduledItems[i + 1..];
        assert scheduledItems[..i + 1] == scheduledItems[..i] + [scheduledItems[i]];
        i := i + 1;
      }
      InsertedStep(scheduledItems, [], m);
      assert scheduledItems[..i] == scheduledItems && scheduledItems[i..] == [];
      scheduledItems := scheduledItems + [m];
    }
  }

  /** Insertion at the first item, or after it. */
  lemma InsertedStep(before: seq<Item>, items: seq<Item>, m: Item)
    ensures items == [] ==> before + Inserted(items, m) == before + [m]
    ensures items != [] && m.start < items[0].start ==> before + Inserted(items, m) == before + ([m] + items)
    ensures items != [] && m.start >= items[0].start ==>
      before + Inserted(items, m) == before + [items[0]] + Inserted(items[1..], m)
  {
  }
}
