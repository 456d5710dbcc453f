/** The goroutines of pkg/ctrlloop over the state they share: the schedule, the set of keys in process and
    the channels.  Each method is what one goroutine does up to its next channel operation, and is one step
    of module ControlLoop. */
module ControlLoopObject {
  import opened Options
  import opened Schedule
  import opened ControlLoop

  class ControlLoopState {
    const scheduler: SchedulerImp
    var repeatCh: seq<Item>
    var dedupIn: DedupIn
    var inProcess: set<nat>
    var callers: array<Caller>
    var dedupOut: DedupOut
    var repeater: Repeater
    ghost var history: History

    constructor (numControllerRoutines: nat)
      ensures fresh(scheduler) && fresh(callers) && Initial(View()) && |View().callers| == numControllerRoutines
    {
      scheduler := new SchedulerImp();
      callers := new Caller[numControllerRoutines](_ => CallerIdle);
      repeatCh, dedupIn, inProcess, dedupOut, repeater := [], InIdle, {}, OutIdle, RepeaterIdle;
      history := History(map[], {}, multiset{}, multiset{}, multiset{});
    }

    ghost function View(): Loop
      reads this, scheduler, callers
    {
      Loop(scheduler.View(), repeatCh, dedupIn, inProcess, callers[..], dedupOut, repeater, history)
    }

    ghost predicate Can(a: Step)
      reads this, scheduler, callers
    {
      Enabled(View(), a)
    }

    /** The scheduler receives a control message; `start` is the next start time of its cron schedule. */
    method SchedulerIn(key: nat, sp: nat, start: int, now: int, at: int)
      modifies this`history, scheduler
      ensures View() == Apply(old(View()), In(key, sp, start, now, at))
    {
      scheduler.OnIn(key, sp, start, now, at);
      history := history.(latest := history.latest[key := scheduler.serialNumber]);
    }

    /** The scheduler's timer fires; the send succeeds only if dedupIn waits for a message. */
    method SchedulerTimer(accepted: bool, now: int, at: int)
      requires Can(Timer(accepted, now, at))
      modifies this`dedupIn, this`history, scheduler
      ensures View() == Apply(old(View()), Timer(accepted, now, at))
    {
      var sent := scheduler.OnTimer(accepted, now, at);
      if sent.Some? {
        var m := Msg(sent.value.key, sent.value.sp, sent.value.serial);
        dedupIn := InReceived(m);
        history := history.(received := history.received + multiset{m});
      }
    }

    method SchedulerRepeat(now: int, at: int)
      requires Can(FromRepeat(now, at))
      modifies this`repeatCh, scheduler
      ensures View() == Apply(old(View()), FromRepeat(now, at))
    {
      var m := repeatCh[0];
      repeatCh := repeatCh[1..];
      scheduler.OnRepeat(m, now, at);
    }

    /** dedupIn looks the key up. */
    method DedupInLoad()
      requires Can(DedupCheck)
      modifies this`dedupIn
      ensures View() == Apply(old(View()), DedupCheck)
    {
      if dedupIn.m.key in inProcess {
        dedupIn := InRepeating(dedupIn.m);
      } else {
        dedupIn := InChecked(dedupIn.m);
      }
    }

    /** dedupIn stores the key and offers the message to the callers. */
    method DedupInStore()
      requires Can(DedupStore)
      modifies this`dedupIn, this`inProcess
      ensures View() == Apply(old(View()), DedupStore)
    {
      inProcess := inProcess + {dedupIn.m.key};
      dedupIn := InPassing(dedupIn.m);
    }

    /** dedupIn sends the message back for a later try. */
    method DedupInRepeat(now: int)
      requires Can(DedupRepeat(now))
      modifies this`dedupIn, this`repeatCh, this`history
      ensures View() == Apply(old(View()), DedupRepeat(now))
    {
      var m := dedupIn.m;
      repeatCh := repeatCh + [Item(m.key, m.sp, m.serial, now + DEDUP_SCHEDULE_INTERVAL)];
      dedupIn := InIdle;
      history := history.(repeated := history.repeated + multiset{m});
    }

    /** A caller receives the message from dedupIn. */
    method CallerReceive(i: nat)
      requires Can(Pass(i))
      modifies this`dedupIn, this`history, callers
      ensures View() == Apply(old(View()), Pass(i))
    {
      callers[i] := Calling(dedupIn.m);
      history := history.(passed := history.passed + multiset{dedupIn.m});
      dedupIn := InIdle;
    }

    /** The controller function returns; `next` is the start time it wants, if any. */
    method CallerReturn(i: nat, next: Option<int>)
      requires Can(Return(i, next))
      modifies this`history, callers
      ensures View() == Apply(old(View()), Return(i, next))
    {
      var m := callers[i].m;
      callers[i] := Answered(m, next);
      if next.None? {
        history := history.(finished := history.finished + {m.serial});
      }
    }

    /** The caller sends its answer to dedupOut. */
    method CallerAnswer(i: nat)
      requires Can(Answer(i))
      modifies this`dedupOut, callers
      ensures View() == Apply(old(View()), Answer(i))
    {
      dedupOut := OutGot(callers[i].m, callers[i].next);
      callers[i] := CallerIdle;
    }

    method DedupOutDelete()
      requires Can(DedupDelete)
      modifies this`dedupOut, this`inProcess
      ensures View() == Apply(old(View()), DedupDelete)
    {
      inProcess := inProcess - {dedupOut.m.key};
      dedupOut := OutDeleted(dedupOut.m, dedupOut.next);
    }

    method DedupOutSend()
      requires Can(ToRepeater)
      modifies this`dedupOut, this`repeater
      ensures View() == Apply(old(View()), ToRepeater)
    {
      repeater := RepeaterGot(dedupOut.m, dedupOut.next);
      dedupOut := OutIdle;
    }

    /** The repeater schedules the message again if the controller asked for it. */
    method RepeaterSend()
      requires Can(Repeat)
      modifies this`repeatCh, this`repeater
      ensures View() == Apply(old(View()), Repeat)
    {
      if repeater.next.Some? {
        var m := repeater.m;
        repeatCh := repeatCh + [Item(m.key, m.sp, m.serial, repeater.next.value)];
      }
      repeater := RepeaterIdle;
    }
  }
}
