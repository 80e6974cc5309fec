/**
 src/kernel/scanbuf.c and the continuous-scan half of src/kernel/wifi.c as they run.  Each
 call is a sequence of `ScanMachine` steps in the order the code takes them; between any two
 of them the steps of other threads may fall.
 */
module Scan {
  import opened ScanMachine

  /** scanbuf_t */
  class ScanBuffer {
    var fill: nat
    var ready: nat
    var held: nat
    var news: bool
    var seqNo: nat
    var dropped: nat

    ghost function Abs(): Buf
      reads this
    {
      Buf(fill, ready, held, news, seqNo, dropped)
    }

    /** scanbuf_init */
    method Init()
      modifies this
      ensures Abs() == EMPTY_BUF && Roles(Abs())
    {
      fill, ready, held, news, seqNo, dropped := 0, 1, 2, false, 0, 0;
    }

    /** scanbuf_publish */
    method PublishWindow()
      modifies this
      ensures Abs() == Publish(old(Abs()))
      ensures old(Roles(Abs())) ==> Roles(Abs()) && held == old(held)
      ensures seqNo - dropped == old(seqNo - dropped) + if old(news) then 0 else 1
    {
      if news {
        dropped := dropped + 1;
      }
      var t := fill;
      fill := ready;
      ready := t;
      news := true;
      seqNo := seqNo + 1;
    }

    /** scanbuf_take */
    method TakeWindow() returns (took: bool)
      modifies this
      ensures took == old(news) && !news
      ensures took ==> Abs() == Take(old(Abs())) && held == old(ready) && fill == old(fill)
      ensures !took ==> Abs() == old(Abs())
      ensures old(Roles(Abs())) ==> Roles(Abs())
    {
      if !news {
        return false;
      }
      var t := held;
      held := ready;
      ready := t;
      news := false;
      took := true;
    }
  }

  /** The loop of scan_result_cb: refresh the slot of a known address, or take a new one. */
  method Reported(items: seq<Result>, r: Result) returns (after: seq<Result>)
    ensures after == Report(items, r)
  {
    var k := 0;
    while k < |items| && items[k].bssid != r.bssid
      invariant 0 <= k <= |items|
      invariant forall j :: 0 <= j < k ==> items[j].bssid != r.bssid
    {
      k := k + 1;
    }
    assert k == SlotOf(items, r.bssid);
    after := items;
    if k < |items| {
      if r.rssi < 0 {
        after := items[k := items[k].(rssi := r.rssi, extra := r.extra)];
      }
    } else if |items| < MAX_RESULTS {
      after := items + [r];
    }
  }

  /** The state of wifi.c's continuous scanning. */
  class WifiScan {
    const lists: array<ScanList>   // g_lists
    const sb: ScanBuffer           // g_sb
    var cont: bool                 // g_cont
    var passCont: bool             // g_pass_cont
    var flagReady: bool            // the two flags of g_cont_ev
    var flagStop: bool
    var oneShot: seq<Result>       // g_scan, the list of a one-shot scan
    ghost var holder: Holder
    ghost var stopDue: bool
    ghost var clearDue: bool
    ghost var pending: bool
    ghost var taken: seq<Window>
    ghost var start: Machine       // the state the current call began in
    ghost var trace: seq<ScanStep> // the steps it has taken

    /** wifi_init: nothing is scanning, and STOP says so. */
    constructor ()
      ensures lists.Length == 3 && MachineInv(Abs()) && holder == Free && !cont && flagStop && !pending
      ensures fresh(lists) && fresh(sb)
    {
      lists := new ScanList[3](_ => ScanList([], 0, 0, 0));
      sb := new ScanBuffer;
      cont, passCont, flagReady, flagStop, oneShot := false, false, false, true, [];
      holder, stopDue, clearDue, pending, taken := Free, false, false, false, [];
      trace := [];
    }

    ghost function Abs(): Machine
      reads this, lists, sb
    {
      Machine(lists[..], sb.Abs(), cont, passCont, flagReady, flagStop, holder, stopDue, clearDue, pending, taken)
    }

    /** The steps taken so far lead from start to here. */
    ghost predicate Traced()
      reads this, lists, sb
    {
      lists.Length == 3 && MachineInv(Abs()) && MachineRun(start, trace) && MachineEnd(start, trace) == Abs()
    }

    ghost method Begin()
      requires lists.Length == 3 && MachineInv(Abs())
      modifies `start, `trace
      ensures Traced() && start == old(Abs()) && trace == [] && Abs() == old(Abs())
    {
      start, trace := Abs(), [];
    }

    /** The fields have just been moved by this step. */
    ghost method Record(before: Machine, step: ScanStep)
      requires lists.Length == 3 && MachineRun(start, trace) && MachineEnd(start, trace) == before
      requires MachineInv(before) && CanStep(before, step) && Abs() == ScanMachine.Next(before, step)
      modifies `trace
      ensures Traced() && Abs() == old(Abs()) && trace == old(trace) + [step]
    {
      StepKeepsInv(before, step);
      RunAppend(start, trace, step);
      trace := trace + [step];
    }

    ghost method Acquire(h: Holder)
      requires Traced() && CanStep(Abs(), Lock(h))
      modifies `holder, `trace
      ensures Traced() && Abs() == old(Abs()).(holder := h) && trace == old(trace) + [Lock(h)]
    {
      ghost var before := Abs();
      holder := h;
      Record(before, Lock(h));
    }

    ghost method Release()
      requires Traced() && CanStep(Abs(), ScanStep.Unlock)
      modifies `holder, `pending, `trace
      ensures Traced() && Abs() == ScanMachine.Next(old(Abs()), ScanStep.Unlock) &&
              trace == old(trace) + [ScanStep.Unlock]
    {
      ghost var before := Abs();
      pending := pending || holder == Polling(true);
      holder := Free;
      Record(before, ScanStep.Unlock);
    }

    /** scan_result_cb: a report goes to the fill list in a continuous pass, to g_scan in a one-shot one. */
    method ResultCb(r: Result)
      requires lists.Length == 3 && MachineInv(Abs())
      modifies lists, `oneShot
      ensures Abs() == ScanMachine.Next(old(Abs()), Hear(r))
      ensures oneShot == if passCont then old(oneShot) else Report(old(oneShot), r)
    {
      if passCont {
        var l := lists[sb.fill];
        var items := Reported(l.items, r);
        lists[sb.fill] := l.(items := items);
      } else {
        oneShot := Reported(oneShot, r);
      }
    }

    /** wifi_scan: 1 when the radio is busy, 2 when it refuses, else 0. */
    method ScanOnce(busy: bool, radioOk: bool) returns (result: nat)
      requires lists.Length == 3 && MachineInv(Abs()) && holder != Starting(1)
      modifies `passCont, `oneShot, `start, `trace
      ensures result == if cont || busy then 1 else if radioOk then 0 else 2
      ensures result == 1 ==> Abs() == old(Abs()) && oneShot == old(oneShot)
      ensures result != 1 ==> Traced() && start == old(Abs()) && trace == [OneShot] && oneShot == [] && !passCont
    {
      if cont || busy {
        return 1;
      }
      Begin();
      ghost var before := Abs();
      oneShot := [];
      passCont := false;
      Record(before, OneShot);
      result := if radioOk then 0 else 2;
    }

    /** cont_stop_locked */
    method ContStopLocked()
      requires Traced() && CanStep(Abs(), StopCont)
      modifies `cont, `flagStop, `stopDue, `trace
      ensures Traced() && trace == old(trace) + [StopCont] + [SetStop]
      ensures Abs() == old(Abs()).(cont := false, flagStop := true) && start == old(start)
    {
      ghost var m0 := Abs();
      cont := false;
      stopDue := true;
      Record(m0, StopCont);
      ghost var m1 := Abs();
      flagStop := true;
      stopDue := false;
      Record(m1, SetStop);
    }

    /** wifi_scan_stop */
    method ScanStop()
      requires lists.Length == 3 && MachineInv(Abs()) && holder == Free
      modifies this
      ensures Traced() && start == old(Abs()) && !cont && flagStop && holder == Free
    {
      Begin();
      Acquire(Stopping);
      ContStopLocked();
      Release();
    }

    /**
     The body of wifi_scan_wait after one wake-up: 1 for stopped, 0 for a window, which is then
     lists[window], and 2 for another round.
     */
    method ScanWaitRound() returns (result: nat, window: nat)
      requires lists.Length == 3 && MachineInv(Abs()) && holder == Free
      modifies this, sb
      ensures Traced() && start == old(Abs())
      ensures trace == [Lock(Waiting(false, false))] + [ClearReady] + [TryTake] + [ScanStep.Unlock]
      ensures result == (if !old(cont) then 1 else if old(sb.news) then 0 else 2)
      ensures result == 0 ==>
                && window == sb.held == old(sb.ready) && window < 3
                && taken == old(taken) + [Window(lists[window].seqNo, lists[window].dropped)]
                && lists[window].seqNo == |taken| + lists[window].dropped
    {
      Begin();
      Acquire(Waiting(false, false));
      ClearReadyFlag();
      var running := cont;
      var took;
      took, window := TakeAndLeave();
      result := if !running then 1 else if took then 0 else 2;
    }

    /** The rest of the locked section: take, note the held list, let the lock go. */
    method TakeAndLeave() returns (took: bool, window: nat)
      requires Traced() && holder == Waiting(true, false)
      modifies this, sb
      ensures Traced() && start == old(start) && trace == old(trace) + [TryTake] + [ScanStep.Unlock]
      ensures took == (old(cont) && old(sb.news))
      ensures took ==>
                && window == sb.held == old(sb.ready) && window < 3
                && taken == old(taken) + [Window(lists[window].seqNo, lists[window].dropped)]
                && lists[window].seqNo == |taken| + lists[window].dropped
    {
      took := TakeIfRunning();
      window := sb.held;
      Release();
    }

    /** event_flags_clear(READY), before anything is taken. */
    method ClearReadyFlag()
      requires Traced() && holder == Waiting(false, false)
      modifies `flagReady, `holder, `trace
      ensures Traced() && Abs() == ScanMachine.Next(old(Abs()), ClearReady) && start == old(start) &&
              trace == old(trace) + [ClearReady]
    {
      ghost var before := Abs();
      flagReady := false;
      holder := Waiting(true, false);
      Record(before, ClearReady);
    }

    /** Take the ready window if scanning is on and there is a new one. */
    method TakeIfRunning() returns (took: bool)
      requires Traced() && holder == Waiting(true, false)
      modifies sb, `holder, `taken, `trace
      ensures Traced() && Abs() == ScanMachine.Next(old(Abs()), TryTake) && start == old(start) &&
              trace == old(trace) + [TryTake]
      ensures took == (cont && old(sb.news))
    {
      ghost var before := Abs();
      took := false;
      if cont {
        took := sb.TakeWindow();
      }
      if took {
        taken := taken + [Window(lists[sb.held].seqNo, lists[sb.held].dropped)];
      }
      holder := Waiting(true, true);
      Record(before, TryTake);
    }

    /**
     cont_poll once it holds the lock, with the clock and the radio as inputs, and the READY it
     sets after letting the lock go.
     */
    method ContPoll(ownerGone: bool, windowEnds: bool, ms: nat, restarts: bool)
      requires lists.Length == 3 && MachineInv(Abs()) && holder == Free && !pending
      modifies this, sb, lists
      ensures Traced() && start == old(Abs()) && holder == Free && !pending
      ensures cont == (old(cont) && !ownerGone)
      ensures cont && windowEnds ==> sb.news && flagReady && sb.seqNo == old(sb.seqNo) + 1
    {
      Begin();
      var published := PollSection(ownerGone, windowEnds, ms, restarts);
      if published {
        Announce();
      }
    }

    method PollSection(ownerGone: bool, windowEnds: bool, ms: nat, restarts: bool) returns (published: bool)
      requires Traced() && holder == Free && !pending
      modifies sb, lists, `cont, `flagStop, `stopDue, `passCont, `holder, `pending, `trace
      ensures Traced() && start == old(start) && holder == Free && pending == published
      ensures cont == (old(cont) && !ownerGone) && published == (cont && windowEnds)
      ensures published ==> sb.news && sb.seqNo == old(sb.seqNo) + 1
    {
      Acquire(Polling(false));
      assert sb.seqNo == old(sb.seqNo);
      published := PollLocked(ownerGone, windowEnds, ms, restarts);
      Release();
    }

    method PollLocked(ownerGone: bool, windowEnds: bool, ms: nat, restarts: bool) returns (published: bool)
      requires Traced() && holder == Polling(false) && !stopDue && !clearDue
      modifies sb, lists, `cont, `flagStop, `stopDue, `passCont, `holder, `trace
      ensures Traced() && start == old(start) && holder == Polling(published) && !stopDue && !clearDue
      ensures cont == (old(cont) && !ownerGone) && published == (cont && windowEnds)
      ensures published ==> sb.news && sb.seqNo == old(sb.seqNo) + 1
    {
      if cont && ownerGone {
        ContStopLocked();
      }
      published := false;
      if cont {
        published := PublishAndRestart(windowEnds, ms, restarts);
      }
    }

    method PublishAndRestart(windowEnds: bool, ms: nat, restarts: bool) returns (published: bool)
      requires Traced() && holder == Polling(false) && cont && !stopDue
      modifies sb, lists, `passCont, `holder, `trace
      ensures Traced() && published == windowEnds && start == old(start)
      ensures
        var m := if windowEnds then ScanMachine.Next(old(Abs()), ScanStep.PublishWindow(ms)) else old(Abs());
        Abs() == m.(passCont := m.passCont || restarts)
    {
      published := false;
      if windowEnds {
        EndWindowNow(ms);
        published := true;
      }
      if restarts {
        ghost var before := Abs();
        passCont := true;
        Record(before, RestartPass);
      }
    }

    /** event_flags_set(READY), after the lock has been let go. */
    method Announce()
      requires Traced() && pending
      modifies `flagReady, `pending, `trace
      ensures Traced() && Abs() == ScanMachine.Next(old(Abs()), SetReady) && start == old(start)
    {
      ghost var before := Abs();
      flagReady := true;
      pending := false;
      Record(before, SetReady);
    }

    /** Publish the window and stamp its list. */
    method EndWindowNow(ms: nat)
      requires Traced() && CanStep(Abs(), ScanStep.PublishWindow(ms))
      modifies sb, lists, `holder, `trace
      ensures Traced() && Abs() == ScanMachine.Next(old(Abs()), ScanStep.PublishWindow(ms)) && start == old(start)
    {
      ghost var before := Abs();
      lists[sb.fill] := lists[sb.fill].(windowMs := ms);
      sb.PublishWindow();
      lists[sb.ready] := lists[sb.ready].(seqNo := sb.seqNo, dropped := sb.dropped);
      lists[sb.fill] := lists[sb.fill].(items := []);
      holder := Polling(true);
      assert lists[..] == EndWindow(before, ms).lists;
      Record(before, ScanStep.PublishWindow(ms));
    }

    /**
     wifi_scan_start: 0, 1 for busy, 2 for a radio error, 3 when the listener thread cannot be
     created.  busy, radioOk and threadOk are what the radio driver and the thread pool answer.
     */
    method ScanStart(ownerGone: bool, busy: bool, radioOk: bool, threadOk: bool) returns (result: nat)
      requires lists.Length == 3 && MachineInv(Abs()) && holder == Free
      modifies this, sb, lists
      ensures Traced() && start == old(Abs()) && holder == Free
      ensures result ==
              (if (old(cont) && !ownerGone) || busy then 1 else if !radioOk then 2 else if !threadOk then 3 else 0)
      ensures cont == (result == 0 || (result == 1 && old(cont) && !ownerGone))
      ensures result == 0 ==> !flagReady && !flagStop && !sb.news && taken == [] && sb.seqNo == 0
    {
      Begin();
      Acquire(Starting(0));
      if cont && ownerGone {
        ContStopLocked();
      }
      if cont || busy {
        Release();
        return 1;
      }
      result := StartSession(radioOk, threadOk);
      Release();
    }

    method StartSession(radioOk: bool, threadOk: bool) returns (result: nat)
      requires Traced() && CanStep(Abs(), InitSession) && !clearDue
      modifies sb, lists, `passCont, `taken, `cont, `flagReady, `flagStop, `stopDue, `clearDue, `holder, `trace
      ensures Traced() && start == old(start) && holder.Starting? && !stopDue && !clearDue
      ensures result == if !radioOk then 2 else if !threadOk then 3 else 0
      ensures cont == (result == 0)
      ensures result == 0 ==> !flagReady && !flagStop && !sb.news && taken == [] && sb.seqNo == 0
    {
      ResetLists();
      if !radioOk {
        return 2;
      }
      SwitchOn();
      if !threadOk {
        ContStopLocked();
        return 3;
      }
      result := 0;
    }

    method ResetLists()
      requires Traced() && CanStep(Abs(), InitSession)
      modifies sb, lists, `passCont, `taken, `holder, `trace
      ensures Traced() && Abs() == ScanMachine.Next(old(Abs()), InitSession) && start == old(start)
    {
      ghost var before := Abs();
      sb.Init();
      for i := 0 to 3
        modifies lists
        invariant forall k :: 0 <= k < 3 ==>
                    lists[k] == if k < i then before.lists[k].(items := []) else before.lists[k]
      {
        lists[i] := lists[i].(items := []);
      }
      passCont := true;
      taken := [];
      holder := Starting(1);
      assert lists[..] == ScanMachine.Next(before, InitSession).lists;
      Record(before, InitSession);
    }

    method SwitchOn()
      requires Traced() && CanStep(Abs(), SetCont)
      modifies `cont, `flagReady, `flagStop, `clearDue, `holder, `trace
      ensures Traced() && start == old(start)
      ensures Abs() == old(Abs()).(cont := true, flagReady := false, flagStop := false, holder := Starting(2))
    {
      SetOn();
      ClearFlags();
    }

    method SetOn()
      requires Traced() && CanStep(Abs(), SetCont)
      modifies `cont, `clearDue, `holder, `trace
      ensures Traced() && Abs() == ScanMachine.Next(old(Abs()), SetCont) && start == old(start)
    {
      ghost var before := Abs();
      cont := true;
      clearDue := true;
      holder := Starting(2);
      Record(before, SetCont);
    }

    method ClearFlags()
      requires Traced() && clearDue
      modifies `flagReady, `flagStop, `clearDue, `trace
      ensures Traced() && Abs() == ScanMachine.Next(old(Abs()), ClearBoth) && start == old(start)
    {
      ghost var before := Abs();
      flagReady, flagStop := false, false;
      clearDue := false;
      Record(before, ClearBoth);
    }
  }
}
