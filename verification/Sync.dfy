/**
 The blocking primitives of src/kernel/sync.c on top of the scheduler.

 A method is one locked section: the body of one round of a retry loop up to its yield, or
 a whole signalling call.  `woken` holds the threads woken from a list that have not yet
 come back to test again.
 */
module Sync {
  import opened Links
  import opened SchedSpec
  import opened SchedInv
  import opened Kernel
  import opened Wakeups

  /**
   No wake-up is lost: while anybody waits on list o, there are never more available units
   than threads already woken from o that have not yet tested again.
   */
  ghost predicate NoLostWakeup(s: Sys, o: nat, units: nat, woken: set<nat>) {
    && o < |s.waiting|
    && (s.waiting[o] != [] ==> units <= |woken|)
    && (forall x :: x in woken ==> x !in s.waiting[o])
  }

  /** Thread t tests, finds a unit and takes it. */
  lemma TakeKeeps(s: Sys, o: nat, units: nat, woken: set<nat>, t: nat)
    requires NoLostWakeup(s, o, units, woken) && units > 0
    ensures NoLostWakeup(s, o, units - 1, woken - {t})
  {
  }

  /** Thread t tests, finds no unit and joins the list. */
  lemma JoinKeeps(s: Sys, s': Sys, o: nat, woken: set<nat>, t: nat)
    requires NoLostWakeup(s, o, 0, woken) && s'.waiting == s.waiting[o := s.waiting[o] + [t]]
    ensures NoLostWakeup(s', o, 0, woken - {t})
  {
  }

  /** The threads waiting to test after wake_one on list o. */
  ghost function WokenBy(s: Sys, o: nat, woken: set<nat>): set<nat>
    requires o < |s.waiting|
  {
    var t := FirstLive(s, s.waiting[o]);
    if t == NULL then woken else woken + {t}
  }

  /** A unit is given back and wake_one passes it on, past any ZOMBIEs at the front. */
  lemma GiveKeeps(s: Sys, o: nat, units: nat, woken: set<nat>)
    requires Inv(s) && NoLostWakeup(s, o, units, woken) && !s.isEvent[o]
    ensures WaitersInRange(s)
    ensures Inv(WakeFirst(s, o)) && NoLostWakeup(WakeFirst(s, o), o, units + 1, WokenBy(s, o, woken))
  {
    WakeOneSpec(s, o);
    var t, w := FirstLive(s, s.waiting[o]), s.waiting[o];
    assert NoDup(w);
    AfterLiveIsSuffix(s, w);
  }

  lemma {:induction false} AfterLiveIsSuffix(s: Sys, w: seq<nat>)
    requires NoDup(w)
    ensures forall x :: x in AfterLive(s, w) ==> x in w && x != FirstLive(s, w)
    ensures FirstLive(s, w) == NULL ==> AfterLive(s, w) == []
  {
    if w != [] {
      assert NoDup(w[1..]);
      assert forall x :: x in w[1..] ==> x in w && x != w[0];
      AfterLiveIsSuffix(s, w[1..]);
    }
  }

  /** Steps on other lists, and all steps that block or wake nobody, do not matter. */
  lemma OthersKeep(s: Sys, step: Step, o: nat, units: nat, woken: set<nat>)
    requires Shape(s) && CanHappen(s, step) && NoLostWakeup(s, o, units, woken)
    requires step.DoBlock? || step.DoUnblock? ==> step.o != o
    ensures NoLostWakeup(Next(s, step), o, units, woken)
  {
  }

  /** A signalling call's wake-up, with one more unit available. */
  method GiveUnit(k: Scheduler, o: nat, ghost units: nat, ghost woken: set<nat>) returns (ghost nowWoken: set<nat>)
    requires k.Rep() && NoLostWakeup(k.abs, o, units, woken) && !k.abs.isEvent[o]
    requires Inv(k.abs)
    modifies k`abs, k.link, k.readyHead, k.waitHead, k.pool
    ensures nowWoken == WokenBy(old(k.abs), o, woken)
    ensures k.Rep() && WaitersInRange(old(k.abs)) && k.abs == WakeFirst(old(k.abs), o)
    ensures NoLostWakeup(k.abs, o, units + 1, nowWoken) && k.abs.isEvent == old(k.abs).isEvent
    ensures |k.abs.waiting| == |old(k.abs).waiting|
    ensures forall u :: 0 <= u < |k.abs.waiting| && u != o ==> k.abs.waiting[u] == old(k.abs).waiting[u]
    ensures Inv(k.abs)
  {
    GiveKeeps(k.abs, o, units, woken);
    InvIsDisjoint(k.abs);
    nowWoken := WokenBy(k.abs, o, woken);
    WakeFirstFrame(k.abs, o);
    k.WakeOne(o);
  }

  lemma {:induction false} WakeFirstFrame(s: Sys, o: nat)
    requires Shape(s) && o < |s.waiting| && WaitersInRange(s)
    ensures WakeFirst(s, o).isEvent == s.isEvent && |WakeFirst(s, o).waiting| == |s.waiting|
    ensures forall u :: 0 <= u < |s.waiting| && u != o ==> WakeFirst(s, o).waiting[u] == s.waiting[u]
    decreases |s.waiting[o]|
  {
    var w := s.waiting[o];
    if w != [] {
      assert w[0] in w && forall x :: x in w[1..] ==> x in w;
      var u := SetWaiting(s, o, w[1..]);
      if u.pool[w[0]].state == Zombie {
        WakeFirstFrame(FreeThread(SchedUnblock(u, w[0]), w[0]), o);
      }
    }
  }

  /** A round that finds no unit: block the thread on core c on list o. */
  method JoinList(k: Scheduler, c: nat, o: nat, ghost woken: set<nat>)
    requires k.Rep() && c < 2 && NoLostWakeup(k.abs, o, 0, woken) && |k.abs.waiting| == |k.abs.isEvent| &&
             !k.abs.isEvent[o]
    requires CanHappen(k.abs, DoBlock(c, o, 0, false)) && !IdleBehind(k.abs, k.abs.cur[c])
    requires Inv(k.abs)
    modifies k`abs, k.link, k.readyHead, k.waitHead, k.pool, k.entries
    ensures k.abs == SchedSpec.Block(old(k.abs), c, o, 0, false)
    ensures k.Rep()
    ensures NoLostWakeup(k.abs, o, 0, woken - {old(k.abs).cur[c]})
    ensures k.abs.isEvent == old(k.abs).isEvent
    ensures forall u :: 0 <= u < |k.abs.waiting| && u != o ==> k.abs.waiting[u] == old(k.abs).waiting[u]
    ensures Inv(k.abs)
  {
    BlockEffect(k.abs, c, o, 0, false);
    BlockReady(k.abs, c, o, 0, false);
    ghost var s := k.abs;
    k.BlockCurrent(c, o, false, 0, false);
    JoinKeeps(s, k.abs, o, woken, s.cur[c]);
  }

  /** The caller on core c is running, and no idle thread. */
  ghost predicate MayCall(s: Sys, c: nat, o: nat, mask: bv32, all: bool) {
    Shape(s) && c < 2 && CanHappen(s, DoBlock(c, o, mask, all))
  }

  /** It may also block on list o without cutting off an idle thread. */
  ghost predicate MayBlock(s: Sys, c: nat, o: nat, mask: bv32, all: bool) {
    MayCall(s, c, o, mask, all) && !IdleBehind(s, s.cur[c])
  }

  /** The thread ID of the thread running on core c. */
  function CallerTid(s: Sys, c: nat): nat
    requires Shape(s) && c < 2
  {
    s.pool[s.cur[c]].tid
  }

  // ---- mutex -------------------------------------------------------------------------------

  class Mutex {
    const list: nat
    var ownerTid: int
    var count: nat
    ghost var woken: set<nat>

    /** kmutex_init; list is the waiter list this mutex owns. */
    constructor (ghost s: Sys, list: nat)
      requires list < |s.waiting| == |s.isEvent| && !s.isEvent[list] && s.waiting[list] == []
      ensures this.list == list && Valid(s) && ownerTid == -1 && woken == {}
    {
      this.list := list;
      ownerTid := -1;
      count := 0;
      woken := {};
    }

    ghost predicate Valid(s: Sys)
      reads this
    {
      && list < |s.waiting| == |s.isEvent| && !s.isEvent[list]
      && count == (if ownerTid == -1 then 0 else 1)
      && NoLostWakeup(s, list, 1 - count, woken)
    }

    /** One round of kmutex_lock for the thread on core c. */
    method LockRound(k: Scheduler, c: nat) returns (acquired: bool)
      requires k.Rep() && Valid(k.abs) && MayCall(k.abs, c, list, 0, false)
      requires ownerTid != -1 ==> MayBlock(k.abs, c, list, 0, false)
      requires Inv(k.abs)
      modifies this`ownerTid, this`count, this`woken
      modifies k`abs, k.link, k.readyHead, k.waitHead, k.pool, k.entries
      ensures acquired <==> old(ownerTid) == -1
      ensures acquired ==> ownerTid == CallerTid(old(k.abs), c) && k.abs == old(k.abs)
      ensures !acquired ==> ownerTid == old(ownerTid) && k.abs == SchedSpec.Block(old(k.abs), c, list, 0, false)
      ensures woken == old(woken) - {old(k.abs).cur[c]}
      ensures k.Rep() && Valid(k.abs)
      ensures Inv(k.abs)
    {
      ghost var t := k.abs.cur[c];
      if ownerTid == -1 {
        ownerTid := k.CurrentTid(c);
        count := 1;
        acquired := true;
      } else {
        JoinList(k, c, list, woken);
        acquired := false;
      }
      woken := woken - {t};
    }

    /** kmutex_unlock */
    method Unlock(k: Scheduler)
      requires k.Rep() && Valid(k.abs)
      requires Inv(k.abs)
      modifies this`ownerTid, this`count, this`woken
      modifies k`abs, k.link, k.readyHead, k.waitHead, k.pool
      ensures ownerTid == -1 && woken == WokenBy(old(k.abs), list, old(woken))
      ensures k.Rep() && WaitersInRange(old(k.abs)) && k.abs == WakeFirst(old(k.abs), list)
      ensures Valid(k.abs)
      ensures Inv(k.abs)
    {
      ownerTid := -1;
      count := 0;
      woken := GiveUnit(k, list, 0, woken);
    }
  }

  // ---- semaphore -----------------------------------------------------------------------------

  class Semaphore {
    const list: nat
    var count: int              // may start out negative
    ghost var woken: set<nat>

    /** ksemaphore_init */
    constructor (ghost s: Sys, list: nat, initial: int)
      requires list < |s.waiting| == |s.isEvent| && !s.isEvent[list] && s.waiting[list] == []
      ensures this.list == list && Valid(s) && count == initial && woken == {}
    {
      this.list := list;
      count := initial;
      woken := {};
    }

    /** What a waiter can take: nothing while the count is not positive. */
    function Units(): nat
      reads `count
    {
      if count > 0 then count else 0
    }

    ghost predicate Valid(s: Sys)
      reads this
    {
      && list < |s.waiting| == |s.isEvent| && !s.isEvent[list]
      && NoLostWakeup(s, list, Units(), woken)
    }

    /** One round of ksemaphore_wait for the thread on core c. */
    method WaitRound(k: Scheduler, c: nat) returns (acquired: bool)
      requires k.Rep() && Valid(k.abs) && MayCall(k.abs, c, list, 0, false)
      requires count <= 0 ==> MayBlock(k.abs, c, list, 0, false)
      requires Inv(k.abs)
      modifies this`count, this`woken
      modifies k`abs, k.link, k.readyHead, k.waitHead, k.pool, k.entries
      ensures acquired <==> old(count) > 0
      ensures acquired ==> count == old(count) - 1 && k.abs == old(k.abs)
      ensures !acquired ==> count == old(count) && k.abs == SchedSpec.Block(old(k.abs), c, list, 0, false)
      ensures woken == old(woken) - {old(k.abs).cur[c]}
      ensures k.Rep() && Valid(k.abs)
      ensures Inv(k.abs)
    {
      ghost var t := k.abs.cur[c];
      if count > 0 {
        TakeKeeps(k.abs, list, count, woken, t);
        count := count - 1;
        acquired := true;
      } else {
        JoinList(k, c, list, woken);
        acquired := false;
      }
      woken := woken - {t};
    }

    /** ksemaphore_signal */
    method Signal(k: Scheduler)
      requires k.Rep() && Valid(k.abs)
      requires Inv(k.abs)
      modifies this`count, this`woken
      modifies k`abs, k.link, k.readyHead, k.waitHead, k.pool
      ensures count == old(count) + 1 && woken == WokenBy(old(k.abs), list, old(woken))
      ensures k.Rep() && WaitersInRange(old(k.abs)) && k.abs == WakeFirst(old(k.abs), list)
      ensures Valid(k.abs)
      ensures Inv(k.abs)
    {
      woken := GiveUnit(k, list, Units(), woken);
      count := count + 1;
    }
  }

  /** event_flags_set with the new flags already stored. */
  method WakeWaiters(k: Scheduler, o: nat, flags: bv32)
    requires k.Rep() && o < |k.abs.waiting| && k.abs.isEvent[o]
    requires Inv(k.abs)
    modifies k`abs, k.link, k.waitHead, k.readyHead, k.pool, k.entries
    ensures k.Rep() && WaitersInRange(old(k.abs)) && k.abs == WakeSatisfied(old(k.abs), o, flags, 0)
    ensures NoneSatisfied(k.abs, o, flags) && |k.abs.waiting| == |old(k.abs).waiting| &&
            k.abs.isEvent == old(k.abs).isEvent
    ensures Inv(k.abs)
  {
    InvIsDisjoint(k.abs);
    SetFlagsKeepsInv(k.abs, o, flags, 0);
    SetFlagsFrame(k.abs, o, flags, 0);
    SetLeavesNoneSatisfied(k.abs, o, flags, 0);
    k.SetFlags(o, flags);
  }

  /** A round whose condition is not met: block the thread on core c with its mask. */
  method JoinEvent(k: Scheduler, c: nat, o: nat, flags: bv32, mask: bv32, all: bool)
    requires k.Rep() && MayBlock(k.abs, c, o, mask, all) && NoneSatisfied(k.abs, o, flags) &&
             !Satisfied(flags, mask, all)
    requires k.abs.isEvent[o]
    requires Inv(k.abs)
    modifies k`abs, k.link, k.readyHead, k.waitHead, k.pool, k.entries
    ensures k.abs == SchedSpec.Block(old(k.abs), c, o, mask, all)
    ensures k.Rep() && NoneSatisfied(k.abs, o, flags) && WaitMask(k.abs.entries, old(k.abs).cur[c]) == (mask, all)
    ensures |k.abs.waiting| == |old(k.abs).waiting| && k.abs.isEvent == old(k.abs).isEvent
    ensures Inv(k.abs)
  {
    BlockEffect(k.abs, c, o, mask, all);
    BlockedIsUnsatisfied(k.abs, c, o, mask, all, flags);
    BlockReady(k.abs, c, o, mask, all);
    k.BlockCurrent(c, o, true, mask, all);
  }

  lemma {:induction false} SetFlagsFrame(s: Sys, o: nat, flags: bv32, i: nat)
    requires Shape(s) && WaitersInRange(s) && o < |s.waiting| && i <= |s.waiting[o]|
    ensures WakeSatisfied(s, o, flags, i).isEvent == s.isEvent && |WakeSatisfied(s, o, flags, i).waiting| == |s.waiting|
    decreases |s.waiting[o]| - i
  {
    var w := s.waiting[o];
    if i < |w| {
      assert w[i] in w;
      if Wakes(s, w[i], flags) {
        var u := Deliver(s, o, w[i]);
        assert u.waiting[o] == Remove(w, w[i]) && |u.waiting[o]| == |w| - 1;
        SetFlagsFrame(u, o, flags, i);
      } else {
        SetFlagsFrame(s, o, flags, i + 1);
      }
    }
  }

  // ---- event flags ------------------------------------------------------------------------------

  class EventFlags {
    const list: nat
    var flags: bv32

    /** event_flags_init */
    constructor (ghost s: Sys, list: nat)
      requires list < |s.waiting| == |s.isEvent| && s.isEvent[list] && s.waiting[list] == []
      ensures this.list == list && Valid(s) && flags == 0
    {
      this.list := list;
      flags := 0;
    }

    /** Between operations no listed waiter has its condition met. */
    ghost predicate Valid(s: Sys)
      reads this
    {
      list < |s.waiting| == |s.isEvent| && s.isEvent[list] && NoneSatisfied(s, list, flags)
    }

    /** event_flags_set */
    method Set(k: Scheduler, mask: bv32)
      requires k.Rep() && Valid(k.abs)
      requires Inv(k.abs)
      modifies this`flags
      modifies k`abs, k.link, k.waitHead, k.readyHead, k.pool, k.entries
      ensures flags == old(flags) | mask
      ensures k.Rep() && WaitersInRange(old(k.abs)) && k.abs == WakeSatisfied(old(k.abs), list, flags, 0)
      ensures Valid(k.abs)
      ensures Inv(k.abs)
      ensures
        var s, now := old(k.abs), k.abs.waiting[list];
        forall i :: 0 <= i < MAX_THREADS && s.entries[i].Held? && s.entries[i].thread in s.waiting[list] ==>
          (s.entries[i].thread !in now <==> Met(flags, s.entries[i]))
    {
      ghost var s := k.abs;
      flags := flags | mask;
      WakeWaiters(k, list, flags);
      TakesExactly(s, list, flags);
    }

    /** event_flags_clear */
    method Clear(ghost s: Sys, mask: bv32)
      requires Valid(s)
      modifies this`flags
      ensures flags == old(flags) & !mask && Valid(s)
    {
      var before := flags;
      flags := flags & !mask;
      forall t | t in s.waiting[list]
        ensures !Wakes(s, t, flags)
      {
        FewerFlags(before, mask, WaitMask(s.entries, t).0, WaitMask(s.entries, t).1);
      }
    }

    /** One round of event_flags_wait for the thread on core c. */
    method WaitRound(k: Scheduler, c: nat, mask: bv32, all: bool) returns (done: bool, result: bv32)
      requires k.Rep() && Valid(k.abs) && MayCall(k.abs, c, list, mask, all)
      requires (if all then flags & mask != mask else flags & mask == 0) ==> MayBlock(k.abs, c, list, mask, all)
      requires Inv(k.abs)
      modifies k`abs, k.link, k.readyHead, k.waitHead, k.pool, k.entries
      ensures done <==> if all then flags & mask == mask else flags & mask != 0
      ensures done ==> result == flags && k.abs == old(k.abs)
      ensures !done ==> k.abs == SchedSpec.Block(old(k.abs), c, list, mask, all)
      ensures !done ==> WaitMask(k.abs.entries, old(k.abs).cur[c]) == (mask, all)
      ensures k.Rep() && Valid(k.abs)
      ensures Inv(k.abs)
    {
      result := flags;
      done := if all then flags & mask == mask else flags & mask != 0;
      if !done {
        JoinEvent(k, c, list, flags, mask, all);
      }
    }
  }

  // ---- message queue --------------------------------------------------------------------------

  const MQ_MAX_MSG: nat := 16
  const MQ_MSG_SIZE: nat := 64

  /** The slot i places behind slot head. */
  function Slot(head: nat, i: nat): (r: nat)
    requires head < MQ_MAX_MSG && i <= MQ_MAX_MSG
    ensures r < MQ_MAX_MSG && r == (head + i) % MQ_MAX_MSG
  {
    if head + i < MQ_MAX_MSG then head + i else head + i - MQ_MAX_MSG
  }

  /** The ring holds exactly the messages sent and not yet received, oldest first. */
  ghost predicate RingHolds(buf: seq<seq<bv8>>, head: nat, count: nat, size: nat, sent: seq<seq<bv8>>,
          received: seq<seq<bv8>>) {
    && |buf| == MQ_MAX_MSG && head < MQ_MAX_MSG && count <= MQ_MAX_MSG && size <= MQ_MSG_SIZE
    && (forall i :: 0 <= i < MQ_MAX_MSG ==> |buf[i]| == MQ_MSG_SIZE)
    && received <= sent && |sent| == |received| + count
    && forall i :: 0 <= i < count ==> sent[|received| + i] == buf[Slot(head, i)][..size]
  }

  lemma RingPush(buf: seq<seq<bv8>>, head: nat, count: nat, size: nat, sent: seq<seq<bv8>>, received: seq<seq<bv8>>,
          slot: seq<bv8>)
    requires RingHolds(buf, head, count, size, sent, received) && count < MQ_MAX_MSG && |slot| == MQ_MSG_SIZE
    ensures RingHolds(buf[Slot(head, count) := slot], head, count + 1, size, sent + [slot[..size]], received)
  {
    var buf', sent' := buf[Slot(head, count) := slot], sent + [slot[..size]];
    forall i | 0 <= i < count + 1
      ensures sent'[|received| + i] == buf'[Slot(head, i)][..size]
    {
      if i < count {
        assert Slot(head, i) != Slot(head, count);
        assert sent[|received| + i] == buf[Slot(head, i)][..size];
      }
    }
  }

  lemma RingPop(buf: seq<seq<bv8>>, head: nat, count: nat, size: nat, sent: seq<seq<bv8>>, received: seq<seq<bv8>>)
    requires RingHolds(buf, head, count, size, sent, received) && count > 0
    ensures RingHolds(buf, Slot(head, 1), count - 1, size, sent, received + [buf[head][..size]])
    ensures buf[head][..size] == sent[|received|]
  {
    assert Slot(head, 0) == head;
    assert sent[|received| + 0] == buf[Slot(head, 0)][..size];
    var received' := received + [buf[head][..size]];
    forall i | 0 <= i < count - 1
      ensures sent[|received'| + i] == buf[Slot(Slot(head, 1), i)][..size]
    {
      assert Slot(Slot(head, 1), i) == Slot(head, i + 1);
      assert sent[|received| + (i + 1)] == buf[Slot(head, i + 1)][..size];
    }
  }

  /** Two lists that share MQ_MAX_MSG units: what one can take, the other cannot. */
  ghost predicate Paired(s: Sys, a: nat, b: nat, units: nat, wokenA: set<nat>, wokenB: set<nat>) {
    && a < |s.waiting| && b < |s.waiting| && a != b && |s.isEvent| == |s.waiting|
    && !s.isEvent[a] && !s.isEvent[b] && units <= MQ_MAX_MSG
    && NoLostWakeup(s, a, units, wokenA) && NoLostWakeup(s, b, MQ_MAX_MSG - units, wokenB)
  }

  /**
   A thread takes a unit of list b, which turns into one for list a that wake_one passes on.
   self is that thread if it came through b's blocking call, and empty otherwise.
   */
  method MoveUnit(k: Scheduler, a: nat, b: nat, ghost units: nat, ghost wokenA: set<nat>, ghost wokenB: set<nat>,
          ghost self: set<nat>)
    returns (ghost nowWoken: set<nat>)
    requires |self| <= 1
    requires k.Rep() && Paired(k.abs, a, b, units, wokenA, wokenB) && units < MQ_MAX_MSG
    requires Inv(k.abs)
    modifies k`abs, k.link, k.readyHead, k.waitHead, k.pool
    ensures nowWoken == WokenBy(old(k.abs), a, wokenA)
    ensures k.Rep() && WaitersInRange(old(k.abs)) && k.abs == WakeFirst(old(k.abs), a)
    ensures Paired(k.abs, a, b, units + 1, nowWoken, wokenB - self)
    ensures Inv(k.abs)
  {
    nowWoken := GiveUnit(k, a, units, wokenA);
    FewerWoken(wokenB, self);
  }

  lemma PairedSwap(s: Sys, a: nat, b: nat, units: nat, wokenA: set<nat>, wokenB: set<nat>)
    requires Paired(s, a, b, units, wokenA, wokenB)
    ensures Paired(s, b, a, MQ_MAX_MSG - units, wokenB, wokenA)
  {
  }

  /** A round that finds no unit of list a. */
  method JoinPaired(k: Scheduler, c: nat, a: nat, b: nat, ghost wokenA: set<nat>, ghost wokenB: set<nat>)
    requires k.Rep() && Paired(k.abs, a, b, 0, wokenA, wokenB) && MayBlock(k.abs, c, a, 0, false)
    requires Inv(k.abs)
    modifies k`abs, k.link, k.readyHead, k.waitHead, k.pool, k.entries
    ensures k.abs == SchedSpec.Block(old(k.abs), c, a, 0, false)
    ensures k.Rep() && Paired(k.abs, a, b, 0, wokenA - {old(k.abs).cur[c]}, wokenB)
    ensures Inv(k.abs)
  {
    JoinList(k, c, a, wokenA);
  }

  lemma FewerWoken(woken: set<nat>, self: set<nat>)
    requires |self| <= 1
    ensures |woken - self| >= |woken| - 1
  {
    assert |woken| == |woken - self| + |woken * self|;
    SubsetCount(woken * self, self);
  }

  class MQueue {
    const sendList: nat
    const recvList: nat
    const msgSize: nat
    const buf: array<seq<bv8>>
    var head: nat
    var tail: nat
    var count: nat
    ghost var sendWoken: set<nat>
    ghost var recvWoken: set<nat>
    ghost var sent: seq<seq<bv8>>
    ghost var received: seq<seq<bv8>>

    /** mqueue_init */
    constructor (ghost s: Sys, sendList: nat, recvList: nat, msgSize: nat)
      requires sendList < |s.waiting| && recvList < |s.waiting| && sendList != recvList && |s.isEvent| == |s.waiting|
      requires s.waiting[sendList] == [] && s.waiting[recvList] == [] && !s.isEvent[sendList] && !s.isEvent[recvList]
      ensures this.sendList == sendList && this.recvList == recvList
      ensures this.msgSize == if msgSize <= 64 then msgSize else 64
      ensures Buffer() && Valid(s) && sent == [] && received == [] && fresh(buf)
    {
      this.sendList := sendList;
      this.recvList := recvList;
      this.msgSize := if msgSize <= MQ_MSG_SIZE then msgSize else MQ_MSG_SIZE;
      head, tail, count := 0, 0, 0;
      sendWoken, recvWoken, sent, received := {}, {}, [], [];
      buf := new seq<bv8>[MQ_MAX_MSG](_ => seq(MQ_MSG_SIZE, _ => 0));
    }

    ghost predicate Buffer()
      reads `head, `tail, `count, `sent, `received, buf
    {
      RingHolds(buf[..], head, count, msgSize, sent, received) && tail == Slot(head, count)
    }

    /** Messages are the receivers' units, free slots the senders'. */
    ghost predicate Valid(s: Sys)
      reads `count, `sendWoken, `recvWoken
    {
      Paired(s, recvList, sendList, count, recvWoken, sendWoken)
    }

    /** The ring half of a send. */
    method Push(msg: seq<bv8>)
      requires Buffer() && count < MQ_MAX_MSG && |msg| == msgSize
      modifies this`tail, this`count, this`sent, buf
      ensures Buffer() && count == old(count) + 1 && sent == old(sent) + [msg]
    {
      ghost var before, slot := buf[..], msg + buf[tail][msgSize..];
      buf[tail] := msg + buf[tail][msgSize..];
      assert buf[..] == before[tail := slot];
      assert slot[..msgSize] == msg;
      RingPush(before, head, count, msgSize, sent, received, slot);
      tail := (tail + 1) % MQ_MAX_MSG;
      count := count + 1;
      sent := sent + [msg];
    }

    /** The ring half of a receive: the oldest message comes out. */
    method Pop() returns (msg: seq<bv8>)
      requires Buffer() && count > 0
      modifies this`head, this`count, this`received
      ensures Buffer() && count == old(count) - 1 && received == old(received) + [msg]
      ensures |old(received)| < |sent| && msg == sent[|old(received)|]
    {
      RingPop(buf[..], head, count, msgSize, sent, received);
      msg := buf[head][..msgSize];
      head := (head + 1) % MQ_MAX_MSG;
      count := count - 1;
      received := received + [msg];
    }

    /** mqueue_try_send with self empty, and the successful round of mqueue_send. */
    method TrySend(k: Scheduler, msg: seq<bv8>, ghost self: set<nat>) returns (ok: bool)
      requires Buffer() && |msg| == msgSize && |self| <= 1
      requires k.Rep() && Valid(k.abs)
      requires Inv(k.abs)
      modifies `tail, `count, `sent, `recvWoken, `sendWoken, buf
      modifies k`abs, k.link, k.readyHead, k.waitHead, k.pool
      ensures Buffer() && (ok <==> old(count) < 16)
      ensures ok ==> sent == old(sent) + [msg] && count == old(count) + 1
      ensures ok ==> sendWoken == old(sendWoken) - self && recvWoken == WokenBy(old(k.abs), recvList, old(recvWoken))
      ensures ok ==> WaitersInRange(old(k.abs)) && k.abs == WakeFirst(old(k.abs), recvList)
      ensures !ok ==>
              sent == old(sent) && sendWoken == old(sendWoken) && recvWoken == old(recvWoken) && k.abs == old(k.abs)
      ensures k.Rep() && Valid(k.abs)
      ensures Inv(k.abs)
    {
      if count >= MQ_MAX_MSG {
        return false;
      }
      Push(msg);
      Announce(k, self);
      ok := true;
    }

    /** The wake-up half of a send: a free slot has become a message. */
    method Announce(k: Scheduler, ghost self: set<nat>)
      requires 0 < count <= MQ_MAX_MSG && |self| <= 1
      requires k.Rep() && Paired(k.abs, recvList, sendList, count - 1, recvWoken, sendWoken)
      requires Inv(k.abs)
      modifies `sendWoken, `recvWoken, k`abs, k.link, k.readyHead, k.waitHead, k.pool
      ensures sendWoken == old(sendWoken) - self && recvWoken == WokenBy(old(k.abs), recvList, old(recvWoken))
      ensures WaitersInRange(old(k.abs)) && k.abs == WakeFirst(old(k.abs), recvList)
      ensures k.Rep() && Valid(k.abs)
      ensures Inv(k.abs)
    {
      recvWoken := MoveUnit(k, recvList, sendList, count - 1, recvWoken, sendWoken, self);
      sendWoken := sendWoken - self;
    }

    /** mqueue_try_recv with self empty, and the successful round of mqueue_recv. */
    method TryRecv(k: Scheduler, ghost self: set<nat>) returns (ok: bool, msg: seq<bv8>)
      requires Buffer() && |self| <= 1
      requires k.Rep() && Valid(k.abs)
      requires Inv(k.abs)
      modifies `head, `count, `received, `sendWoken, `recvWoken
      modifies k`abs, k.link, k.readyHead, k.waitHead, k.pool
      ensures Buffer() && (ok <==> old(count) > 0)
      ensures ok ==> received == old(received) + [msg] && count == old(count) - 1
      ensures ok ==> |old(received)| < |old(sent)| && msg == old(sent)[|old(received)|]
      ensures ok ==> recvWoken == old(recvWoken) - self && sendWoken == WokenBy(old(k.abs), sendList, old(sendWoken))
      ensures ok ==> WaitersInRange(old(k.abs)) && k.abs == WakeFirst(old(k.abs), sendList)
      ensures !ok ==>
              received == old(received) && sendWoken == old(sendWoken) && recvWoken == old(recvWoken) &&
              k.abs == old(k.abs)
      ensures k.Rep() && Valid(k.abs)
      ensures Inv(k.abs)
    {
      ok, msg := false, [];
      if count == 0 {
        return;
      }
      msg := Pop();
      FreeSlot(k, self);
      ok := true;
    }

    /** The wake-up half of a receive: a message has become a free slot. */
    method FreeSlot(k: Scheduler, ghost self: set<nat>)
      requires count < MQ_MAX_MSG && |self| <= 1
      requires k.Rep() && Paired(k.abs, sendList, recvList, MQ_MAX_MSG - count - 1, sendWoken, recvWoken)
      requires Inv(k.abs)
      modifies `sendWoken, `recvWoken, k`abs, k.link, k.readyHead, k.waitHead, k.pool
      ensures recvWoken == old(recvWoken) - self && sendWoken == WokenBy(old(k.abs), sendList, old(sendWoken))
      ensures WaitersInRange(old(k.abs)) && k.abs == WakeFirst(old(k.abs), sendList)
      ensures k.Rep() && Valid(k.abs)
      ensures Inv(k.abs)
    {
      sendWoken := MoveUnit(k, sendList, recvList, MQ_MAX_MSG - count - 1, sendWoken, recvWoken, self);
      recvWoken := recvWoken - self;
    }

    /** The blocking round of mqueue_send. */
    method BlockSender(k: Scheduler, c: nat)
      requires count == MQ_MAX_MSG && Buffer()
      requires k.Rep() && Valid(k.abs) && MayBlock(k.abs, c, sendList, 0, false)
      requires Inv(k.abs)
      modifies `sendWoken, k`abs, k.link, k.readyHead, k.waitHead, k.pool, k.entries
      ensures Buffer() && k.abs == SchedSpec.Block(old(k.abs), c, sendList, 0, false)
      ensures sendWoken == old(sendWoken) - {old(k.abs).cur[c]}
      ensures k.Rep() && Valid(k.abs)
      ensures Inv(k.abs)
    {
      ghost var woken, ring := sendWoken, buf[..];
      sendWoken := woken - {k.abs.cur[c]};
      PairedSwap(k.abs, recvList, sendList, count, recvWoken, woken);
      JoinPaired(k, c, sendList, recvList, woken, recvWoken);
      PairedSwap(k.abs, sendList, recvList, 0, sendWoken, recvWoken);
      assert buf[..] == ring;
    }

    /** The blocking round of mqueue_recv. */
    method BlockReceiver(k: Scheduler, c: nat)
      requires count == 0 && Buffer()
      requires k.Rep() && Valid(k.abs) && MayBlock(k.abs, c, recvList, 0, false)
      requires Inv(k.abs)
      modifies `recvWoken, k`abs, k.link, k.readyHead, k.waitHead, k.pool, k.entries
      ensures Buffer() && k.abs == SchedSpec.Block(old(k.abs), c, recvList, 0, false)
      ensures recvWoken == old(recvWoken) - {old(k.abs).cur[c]}
      ensures k.Rep() && Valid(k.abs)
      ensures Inv(k.abs)
    {
      ghost var woken, ring := recvWoken, buf[..];
      recvWoken := woken - {k.abs.cur[c]};
      JoinPaired(k, c, recvList, sendList, woken, sendWoken);
      assert buf[..] == ring;
    }

    /** One round of mqueue_send for the thread on core c. */
    method SendRound(k: Scheduler, c: nat, msg: seq<bv8>) returns (done: bool)
      requires Buffer() && |msg| == msgSize
      requires k.Rep() && Valid(k.abs) && MayCall(k.abs, c, sendList, 0, false)
      requires count >= MQ_MAX_MSG ==> MayBlock(k.abs, c, sendList, 0, false)
      requires Inv(k.abs)
      modifies `tail, `count, `sent, `recvWoken, `sendWoken, buf
      modifies k`abs, k.link, k.readyHead, k.waitHead, k.pool, k.entries
      ensures Buffer() && (done <==> old(count) < 16)
      ensures done ==>
              sent == old(sent) + [msg] && WaitersInRange(old(k.abs)) && k.abs == WakeFirst(old(k.abs), recvList)
      ensures !done ==> sent == old(sent) && k.abs == SchedSpec.Block(old(k.abs), c, sendList, 0, false)
      ensures sendWoken == old(sendWoken) - {old(k.abs).cur[c]}
      ensures k.Rep() && Valid(k.abs)
      ensures Inv(k.abs)
    {
      if count < MQ_MAX_MSG {
        done := TrySend(k, msg, {k.abs.cur[c]});
      } else {
        BlockSender(k, c);
        done := false;
      }
    }

    /** One round of mqueue_recv for the thread on core c. */
    method RecvRound(k: Scheduler, c: nat) returns (done: bool, msg: seq<bv8>)
      requires Buffer()
      requires k.Rep() && Valid(k.abs) && MayCall(k.abs, c, recvList, 0, false)
      requires count == 0 ==> MayBlock(k.abs, c, recvList, 0, false)
      requires Inv(k.abs)
      modifies `head, `count, `received, `recvWoken, `sendWoken
      modifies k`abs, k.link, k.readyHead, k.waitHead, k.pool, k.entries
      ensures Buffer() && (done <==> old(count) > 0)
      ensures done ==>
              received == old(received) + [msg] && WaitersInRange(old(k.abs)) &&
              k.abs == WakeFirst(old(k.abs), sendList)
      ensures done ==> |old(received)| < |old(sent)| && msg == old(sent)[|old(received)|]
      ensures !done ==> received == old(received) && k.abs == SchedSpec.Block(old(k.abs), c, recvList, 0, false)
      ensures recvWoken == old(recvWoken) - {old(k.abs).cur[c]}
      ensures k.Rep() && Valid(k.abs)
      ensures Inv(k.abs)
    {
      if count > 0 {
        done, msg := TryRecv(k, {k.abs.cur[c]});
      } else {
        BlockReceiver(k, c);
        done, msg := false, [];
      }
    }
  }

  // ---- lemmas about event flags ------------------------------------------------------------------

  /** All, or any, of the flags a waiter asked for are set. */
  predicate Met(flags: bv32, e: Entry)
    requires e.Held?
  {
    if e.all then flags & e.mask == e.mask else flags & e.mask != 0
  }

  lemma TakesIfMet(s: Sys, o: nat, flags: bv32, k: nat)
    requires Inv(s) && o < |s.waiting| && s.isEvent[o]
    requires k < |s.entries| && s.entries[k].Held? && s.entries[k].thread in s.waiting[o]
    ensures WaitersInRange(s) && o < |WakeSatisfied(s, o, flags, 0).waiting|
    ensures s.entries[k].thread !in WakeSatisfied(s, o, flags, 0).waiting[o] <==> Met(flags, s.entries[k])
  {
    SetFlagsTakes(s, o, flags, k);
  }

  lemma TakesExactly(s: Sys, o: nat, flags: bv32)
    requires Inv(s) && o < |s.waiting| && s.isEvent[o]
    ensures WaitersInRange(s) && o < |WakeSatisfied(s, o, flags, 0).waiting|
    ensures forall k :: 0 <= k < |s.entries| && s.entries[k].Held? && s.entries[k].thread in s.waiting[o] ==>
              (s.entries[k].thread !in WakeSatisfied(s, o, flags, 0).waiting[o] <==> Met(flags, s.entries[k]))
  {
    SetFlagsKeepsInv(s, o, flags, 0);
    SetFlagsFrame(s, o, flags, 0);
    forall k | 0 <= k < |s.entries| && s.entries[k].Held? && s.entries[k].thread in s.waiting[o]
      ensures s.entries[k].thread !in WakeSatisfied(s, o, flags, 0).waiting[o] <==> Met(flags, s.entries[k])
    {
      TakesIfMet(s, o, flags, k);
    }
  }

  lemma FewerFlags(flags: bv32, clear: bv32, mask: bv32, all: bool)
    requires !Satisfied(flags, mask, all)
    ensures !Satisfied(flags & !clear, mask, all)
  {
    if all {
      assert (flags & !clear) & mask == mask ==> flags & mask == mask;
    } else {
      assert flags & mask == 0 ==> (flags & !clear) & mask == 0;
    }
  }

  /** The caller's slot records its own mask, and the other waiters' masks stay put. */
  lemma BlockedIsUnsatisfied(s: Sys, c: nat, o: nat, mask: bv32, all: bool, flags: bv32)
    requires Inv(s) && MayBlock(s, c, o, mask, all) && s.isEvent[o]
    requires NoneSatisfied(s, o, flags) && !Satisfied(flags, mask, all)
    ensures
      var s' := SchedSpec.Block(s, c, o, mask, all);
      NoneSatisfied(s', o, flags) && WaitMask(s'.entries, s.cur[c]) == (mask, all)
  {
    var t, s' := s.cur[c], SchedSpec.Block(s, c, o, mask, all);
    BlockEffect(s, c, o, mask, all);
    assert Ok(ViewOf(s, t));
    AllocCannotFail(s, t);
    AllocMask(s.entries, t, mask, all, t);
    forall x | x in s'.waiting[o]
      ensures !Wakes(s', x, flags)
    {
      AllocMask(s.entries, t, mask, all, x);
      assert x == t || x in s.waiting[o];
    }
  }

  lemma AllocMask(es: seq<Entry>, t: nat, mask: bv32, all: bool, x: nat)
    requires Vacant in es && !HasEntry(es, t)
    ensures WaitMask(AllocEntry(es, Held(t, mask, all)), x) == if x == t then (mask, all) else WaitMask(es, x)
  {
    var k := FindVacant(es);
    var r := AllocEntry(es, Held(t, mask, all));
    assert k < |es|;
    assert forall i :: 0 <= i < |es| && i != k ==> r[i] == es[i];
    if x == t {
      var j := FindEntry(r, x);
      assert r[k] == Held(t, mask, all);
      assert j <= k;
      assert FindEntry(r, x) == k;
    } else {
      var j := FindEntry(es, x);
      assert j != k;
      assert FindEntry(r, x) == j;
    }
  }
}
