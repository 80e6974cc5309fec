/**
 The scheduler and the waiter lists as the kernel keeps them: an array of TCBs, one
 `next` cell per TCB shared by all lists, and list heads.  Every method is one locked
 section and is proved against the step of `SchedSpec` it implements.
 */
module Kernel {
  import opened Links
  import opened SchedSpec
  import opened SchedInv
  import SchedRuns

  /** No slot is on two lists. */
  ghost predicate Disjoint(s: Sys) {
    && (forall p, r, x :: 0 <= p < |s.ready| && 0 <= r < |s.ready| && x in s.ready[p] && x in s.ready[r] ==> p == r)
    && (forall o, u, x :: 0 <= o < |s.waiting| && 0 <= u < |s.waiting| && x in s.waiting[o] && x in s.waiting[u] ==>
        o == u)
    && (forall p, o, x :: 0 <= p < |s.ready| && 0 <= o < |s.waiting| && x in s.ready[p] ==> x !in s.waiting[o])
  }

  ghost predicate Unlisted(s: Sys, t: nat) {
    && (forall p :: 0 <= p < |s.ready| ==> t !in s.ready[p])
    && (forall o :: 0 <= o < |s.waiting| ==> t !in s.waiting[o])
  }

  lemma InvIsDisjoint(s: Sys)
    requires Inv(s)
    ensures Disjoint(s)
  {
    forall p, o, x | 0 <= p < |s.ready| && 0 <= o < |s.waiting| && x in s.ready[p]
      ensures x !in s.waiting[o]
    {
      assert Ok(ViewOf(s, x));
      assert x in s.waiting[o] ==> Waits(s, x);
    }
  }

  lemma InvUnlisted(s: Sys, t: nat)
    requires Inv(s) && t < MAX_THREADS && !OnReady(s, t) && !Waits(s, t)
    ensures Unlisted(s, t)
  {
  }

  ghost predicate ReadyChains(l: seq<int>, rh: seq<int>, s: Sys) {
    |rh| == |s.ready| && forall p :: 0 <= p < |rh| ==> Chain(l, rh[p], s.ready[p])
  }

  ghost predicate WaitChains(l: seq<int>, wh: seq<int>, s: Sys) {
    |wh| == |s.waiting| && forall o :: 0 <= o < |wh| ==> Chain(l, wh[o], s.waiting[o])
  }

  /** Cells written only in ready queue p and at t: every other list is untouched. */
  lemma ReadyFrame(l: seq<int>, l': seq<int>, rh: seq<int>, rh': seq<int>, wh: seq<int>, s: Sys, p: nat, t: nat)
    requires ReadyChains(l, rh, s) && WaitChains(l, wh, s) && Disjoint(s) && |l'| == |l| && p < |rh| == |rh'|
    requires t in s.ready[p] || Unlisted(s, t)
    requires forall x :: 0 <= x < |l| && x !in s.ready[p] && x != t ==> l'[x] == l[x]
    requires forall k :: 0 <= k < |rh| && k != p ==> rh'[k] == rh[k]
    ensures forall k :: 0 <= k < |rh| && k != p ==> Chain(l', rh'[k], s.ready[k])
    ensures WaitChains(l', wh, s)
  {
    forall k | 0 <= k < |rh| && k != p
      ensures Chain(l', rh'[k], s.ready[k])
    {
      ChainFrame(l, l', rh[k], s.ready[k]);
    }
    forall o | 0 <= o < |wh|
      ensures Chain(l', wh[o], s.waiting[o])
    {
      ChainFrame(l, l', wh[o], s.waiting[o]);
    }
  }

  /** The same for writes in waiter list o and at t. */
  lemma WaitFrame(l: seq<int>, l': seq<int>, rh: seq<int>, wh: seq<int>, wh': seq<int>, s: Sys, o: nat, t: nat)
    requires ReadyChains(l, rh, s) && WaitChains(l, wh, s) && Disjoint(s) && |l'| == |l| && o < |wh| == |wh'|
    requires t in s.waiting[o] || Unlisted(s, t)
    requires forall x :: 0 <= x < |l| && x !in s.waiting[o] && x != t ==> l'[x] == l[x]
    requires forall k :: 0 <= k < |wh| && k != o ==> wh'[k] == wh[k]
    ensures ReadyChains(l', rh, s)
    ensures forall k :: 0 <= k < |wh| && k != o ==> Chain(l', wh'[k], s.waiting[k])
  {
    forall k | 0 <= k < |rh|
      ensures Chain(l', rh[k], s.ready[k])
    {
      ChainFrame(l, l', rh[k], s.ready[k]);
    }
    forall k | 0 <= k < |wh| && k != o
      ensures Chain(l', wh'[k], s.waiting[k])
    {
      ChainFrame(l, l', wh[k], s.waiting[k]);
    }
  }

  /** Walk a ready queue from its head to the first thread core c may run. */
  method ScanFrom(pool: array<Tcb>, link: array<int>, head: int, c: nat, other: nat, ghost q: seq<nat>) returns (t: int)
    requires Chain(link[..], head, q) && pool.Length == link.Length
    ensures t == PickIn(pool[..], c, other, q)
  {
    ghost var i := 0;
    t := head;
    while t != NULL
      invariant 0 <= i <= |q| && t == (if i < |q| then q[i] else NULL)
      invariant PickIn(pool[..], c, other, q) == PickIn(pool[..], c, other, q[i..])
      decreases |q| - i
    {
      assert q[i..][0] == t;
      if pool[t].state == Ready && t != other && (pool[t].affinity == -1 || pool[t].affinity == c) {
        return;
      }
      assert link[..][q[i]] == After(q, i);
      PickSkips(pool[..], c, other, q, i);
      t := link[t];
      i := i + 1;
    }
  }

  /** Slot 0 linked to slot 1 on the lowest queue, and nothing else. */
  lemma BootChains(l: seq<int>, rh: seq<int>, wh: seq<int>, isEvent: seq<bool>)
    requires |l| == MAX_THREADS && l[0] == 1 && l[1] == NULL && |rh| == NUM_PRIORITIES && |wh| == |isEvent|
    requires forall p :: 0 <= p < NUM_PRIORITIES ==> rh[p] == if p == NUM_PRIORITIES - 1 then 0 else NULL
    requires forall o :: 0 <= o < |wh| ==> wh[o] == NULL
    ensures ReadyChains(l, rh, SchedRuns.Boot(isEvent)) && WaitChains(l, wh, SchedRuns.Boot(isEvent))
  {
    var s := SchedRuns.Boot(isEvent);
    forall p | 0 <= p < NUM_PRIORITIES
      ensures Chain(l, rh[p], s.ready[p])
    {
      assert s.ready[p] == if p == NUM_PRIORITIES - 1 then [0, 1] else [];
    }
  }

  /** Delivering in the order of the code: off the list, out of the pool, then unblocked. */
  lemma DeliverSteps(s: Sys, o: nat, t: nat)
    requires Shape(s) && o < |s.waiting| && t < MAX_THREADS && s.isEvent[o]
    ensures
      var r := SetWaiting(s, o, Remove(s.waiting[o], t));
      var u := r.(entries := FreeEntry(r.entries, t));
      Deliver(s, o, t) == if s.pool[t].state == Zombie then FreeThread(SchedUnblock(u, t), t) else SchedUnblock(u, t)
  {
  }

  /** Without position i, its neighbours stand next to each other. */
  lemma SplicedAt(w: seq<nat>, i: nat)
    requires i < |w|
    ensures
      var v := w[..i] + w[i + 1..];
      && |v| == |w| - 1 && (i < |v| ==> v[i] == w[i + 1]) && (i > 0 ==> v[i - 1] == w[i - 1])
  {
  }

  /** One step of event_flags_set's walk: the state and the position behind it. */
  function Walked(s: Sys, o: nat, flags: bv32, i: nat): (r: (Sys, nat))
    requires Shape(s) && WaitersInRange(s) && o < |s.waiting| && i < |s.waiting[o]|
    ensures |r.0.waiting| == |s.waiting| && r.1 <= |r.0.waiting[o]| && |r.0.waiting[o]| - r.1 == |s.waiting[o]| - i - 1
    ensures Shape(r.0) && WaitersInRange(r.0) && r.0.isEvent == s.isEvent
  {
    var t := s.waiting[o][i];
    assert t in s.waiting[o];
    if Wakes(s, t, flags) then
      var u := Deliver(s, o, t);
      assert u.waiting[o] == Remove(s.waiting[o], t);
      (u, i)
    else (s, i + 1)
  }

  lemma WalkStep(s: Sys, o: nat, flags: bv32, i: nat)
    requires Shape(s) && WaitersInRange(s) && o < |s.waiting| && i < |s.waiting[o]|
    ensures WakeSatisfied(s, o, flags, i) == WakeSatisfied(Walked(s, o, flags, i).0, o, flags, Walked(s, o, flags, i).1)
  {
    assert s.waiting[o][i] in s.waiting[o];
  }

  class Scheduler {
    const pool: array<Tcb>         // tcb_pool, without the next members
    const link: array<int>         // tcb_pool[i].next
    const readyHead: array<int>    // ready_queues
    const waitHead: array<int>     // the waiters heads of all primitives
    const current: array<int>      // current_tcb
    const entries: array<Entry>    // event_waiter_pool
    var nextTid: nat
    ghost var abs: Sys

    ghost predicate Rep()
      reads this, pool, link, readyHead, waitHead, current, entries
    {
      && Shape(abs)
      && link != readyHead && link != waitHead && link != current
      && readyHead != waitHead && readyHead != current && waitHead != current
      && current.Length == 2 && current[0] == abs.cur[0] && current[1] == abs.cur[1]
      && link.Length == MAX_THREADS
      && pool[..] == abs.pool && entries[..] == abs.entries && nextTid == abs.nextTid
      && ReadyChains(link[..], readyHead[..], abs) && WaitChains(link[..], waitHead[..], abs)
    }

    /** Both cores scheduling on their idle threads, every list but the lowest queue empty. */
    constructor (isEvent: seq<bool>)
      ensures Rep() && abs == SchedRuns.Boot(isEvent) && Inv(abs)
      ensures fresh(pool) && fresh(link) && fresh(readyHead) && fresh(waitHead) && fresh(current) && fresh(entries)
    {
      ghost var s := SchedRuns.Boot(isEvent);
      pool := new Tcb[MAX_THREADS](i requires 0 <= i => if i < 2 then Tcb(true, 1 + i, 7, i, Running, false, 0)
                                                        else FREE_TCB);
      link := new int[MAX_THREADS](i => if i == 0 then 1 else NULL);
      readyHead := new int[NUM_PRIORITIES](p => if p == NUM_PRIORITIES - 1 then 0 else NULL);
      waitHead := new int[|isEvent|](_ => NULL);
      current := new int[2](c => c);
      entries := new Entry[MAX_THREADS](_ => Vacant);
      nextTid := 3;
      abs := s;
      new;
      SchedRuns.BootIsSound(isEvent);
      BootChains(link[..], readyHead[..], waitHead[..], isEvent);
      assert pool[..] == s.pool && entries[..] == s.entries;
    }

    /** The thread ID of CURRENT_TCB. */
    method CurrentTid(c: nat) returns (tid: nat)
      requires Rep() && c < 2
      ensures tid == abs.pool[abs.cur[c]].tid
    {
      tid := pool[current[c]].tid;
    }

    /** sched_add_thread_raw */
    method AddThreadRaw(t: nat)
      requires Rep() && Disjoint(abs) && t < MAX_THREADS && Unlisted(abs, t)
      modifies this`abs, link, readyHead
      ensures Rep() && abs == AddReady(old(abs), t)
      ensures
        var p := if old(abs).pool[t].priority < 7 then old(abs).pool[t].priority else 7;
        abs.ready == old(abs).ready[p := old(abs).ready[p] + [t]]
    {
      var prio := pool[t].priority;
      if prio >= NUM_PRIORITIES {
        prio := NUM_PRIORITIES - 1;
      }
      ghost var l, rh, s := link[..], readyHead[..], abs;
      ChainFrame(l, l[t := NULL], rh[prio], s.ready[prio]);
      AppendTail(link, readyHead, prio, t, s.ready[prio]);
      ReadyFrame(l, link[..], rh, readyHead[..], waitHead[..], s, prio, t);
      abs := AddReady(s, t);
    }

    /** sched_remove_thread_raw */
    method RemoveThreadRaw(t: nat)
      requires Rep() && Disjoint(abs) && t < MAX_THREADS
      modifies this`abs, link, readyHead
      ensures Rep() && abs == DropReady(old(abs), t)
    {
      var prio := pool[t].priority;
      if prio >= NUM_PRIORITIES {
        prio := NUM_PRIORITIES - 1;
      }
      ghost var l, rh, s := link[..], readyHead[..], abs;
      Unlink(link, readyHead, prio, t, s.ready[prio]);
      if t in s.ready[prio] {
        ReadyFrame(l, link[..], rh, readyHead[..], waitHead[..], s, prio, t);
      }
      abs := DropReady(s, t);
    }

    /** event_waiter_alloc */
    method AllocWaiter(t: nat, mask: bv32, all: bool) returns (idx: int)
      requires Rep()
      modifies this`abs, entries
      ensures Rep() && abs == old(abs).(entries := AllocEntry(old(abs).entries, Held(t, mask, all)))
      ensures idx == NULL <==> Vacant !in old(abs).entries
      ensures idx != NULL ==> 0 <= idx < MAX_THREADS && abs.entries[idx] == Held(t, mask, all)
    {
      ghost var es := abs.entries;
      idx := NULL;
      var i := 0;
      while i < MAX_THREADS
        invariant 0 <= i <= MAX_THREADS
        invariant entries[..] == es && Vacant !in es[..i]
      {
        if entries[i].Vacant? {
          entries[i] := Held(t, mask, all);
          FirstIs(es, i);
          abs := abs.(entries := AllocEntry(es, Held(t, mask, all)));
          return i;
        }
        i := i + 1;
      }
      assert es[..i] == es;
      FirstIs(es, i);
    }

    /** event_waiter_free */
    method FreeWaiter(t: nat)
      requires Rep()
      modifies this`abs, entries
      ensures Rep() && abs == old(abs).(entries := FreeEntry(old(abs).entries, t))
    {
      ghost var es := abs.entries;
      var i := 0;
      while i < MAX_THREADS
        invariant 0 <= i <= MAX_THREADS
        invariant entries[..] == es && forall k :: 0 <= k < i ==> !(es[k].Held? && es[k].thread == t)
      {
        if entries[i].Held? && entries[i].thread == t {
          entries[i] := Vacant;
          FirstOf(es, t, i);
          abs := abs.(entries := FreeEntry(es, t));
          return;
        }
        i := i + 1;
      }
      FirstOf(es, t, i);
    }

    /** waiter_dequeue */
    method WaiterDequeue(o: nat) returns (t: int)
      requires Rep() && Disjoint(abs) && o < |abs.waiting|
      modifies this`abs, link, waitHead
      ensures Rep()
      ensures old(abs).waiting[o] == [] ==> t == NULL && abs == old(abs)
      ensures old(abs).waiting[o] != [] ==>
                t == old(abs).waiting[o][0] && abs == SetWaiting(old(abs), o, old(abs).waiting[o][1..])
    {
      ghost var l, wh, s := link[..], waitHead[..], abs;
      t := Dequeue(link, waitHead, o, s.waiting[o]);
      if s.waiting[o] != [] {
        WaitFrame(l, link[..], readyHead[..], wh, waitHead[..], s, o, t);
        abs := SetWaiting(s, o, s.waiting[o][1..]);
      }
    }

    /** The TCB part of task_free_thread. */
    method FreeTcb(t: nat)
      requires Rep() && t < MAX_THREADS
      modifies this`abs, pool
      ensures Rep() && abs == FreeThread(old(abs), t)
    {
      pool[t] := FREE_TCB;
      abs := FreeThread(abs, t);
    }

    /** sched_unblock, with the free that follows when t was killed while it waited. */
    method Unblock(t: nat) returns (woken: bool)
      requires Rep() && Disjoint(abs) && t < MAX_THREADS && Unlisted(abs, t)
      modifies this`abs, link, readyHead, pool
      ensures Rep()
      ensures woken <==> old(abs).pool[t].state != Zombie
      ensures woken ==> abs == SchedUnblock(old(abs), t)
      ensures !woken ==> abs == FreeThread(SchedUnblock(old(abs), t), t)
    {
      if pool[t].state == Zombie {
        abs := SchedUnblock(abs, t);
        FreeTcb(t);
        return false;
      }
      pool[t] := pool[t].(state := Ready);
      abs := SetState(abs, t, Ready);
      AddThreadRaw(t);
      return true;
    }

    /** waiter_enqueue: also cuts the ready queue t is linked in, through the shared cell. */
    method WaiterEnqueue(o: nat, t: nat)
      requires Rep() && Disjoint(abs) && ReadyLists(abs) && t < MAX_THREADS && o < |abs.waiting|
      requires forall u :: 0 <= u < |abs.waiting| ==> t !in abs.waiting[u]
      modifies this`abs, link, waitHead
      ensures Rep() && abs == SchedSpec.WaiterEnqueue(old(abs), o, t)
      ensures SharedLast(abs, t)
    {
      ghost var s, cut, wh := abs, WaiterCut(abs, t), waitHead[..];
      ghost var l := link[..][t := NULL];
      CutChains(link[..], readyHead[..], wh, s, t);
      AppendTail(link, waitHead, o, t, s.waiting[o]);
      abs := SchedSpec.WaiterEnqueue(s, o, t);
      EnqueuedChains(l, link[..], readyHead[..], wh, waitHead[..], cut, o, t);
      EnqueuedShares(s, o, t);
    }

    /** sched_block */
    method Block(t: nat)
      requires Rep() && SharedLast(abs, t) && t < MAX_THREADS
      modifies this`abs, link, readyHead, pool
      ensures Rep() && abs == SchedBlock(old(abs), t)
    {
      pool[t] := pool[t].(state := Blocked);
      var prio := pool[t].priority;
      if prio >= NUM_PRIORITIES {
        prio := NUM_PRIORITIES - 1;
      }
      ghost var l, rh, s := link[..], readyHead[..], abs;
      Unlink(link, readyHead, prio, t, s.ready[prio]);
      if t in s.ready[prio] {
        UnlinkedChains(l, link[..], rh, readyHead[..], waitHead[..], s, prio, t);
      }
      abs := SchedBlock(s, t);
    }

    /** The blocking path of every primitive: event_waiter_alloc, waiter_enqueue, sched_block. */
    method BlockPath(o: nat, t: nat, event: bool, mask: bv32, all: bool)
      requires Rep() && Disjoint(abs) && ReadyLists(abs) && t < MAX_THREADS && o < |abs.waiting|
      requires forall u :: 0 <= u < |abs.waiting| ==> t !in abs.waiting[u]
      modifies this`abs, link, readyHead, waitHead, pool, entries
      ensures Rep() && abs == BlockAs(old(abs), o, t, event, mask, all)
    {
      if event {
        var idx := AllocWaiter(t, mask, all);
      }
      WaiterEnqueue(o, t);
      Block(t);
    }

    /** One locked section of a primitive that finds it must block the caller on core c. */
    method BlockCurrent(c: nat, o: nat, event: bool, mask: bv32, all: bool)
      requires Rep() && c < 2 && o < |abs.waiting| && event == abs.isEvent[o]
      requires Disjoint(abs) && ReadyLists(abs) && forall u :: 0 <= u < |abs.waiting| ==> abs.cur[c] !in abs.waiting[u]
      modifies this`abs, link, readyHead, waitHead, pool, entries
      ensures Rep() && abs == SchedSpec.Block(old(abs), c, o, mask, all)
    {
      var t := current[c];
      BlockPath(o, t, event, mask, all);
    }

    /** sched_kill, called on core c.  True when the caller must free t. */
    method Kill(c: nat, t: nat) returns (freeNow: bool)
      requires Rep() && Disjoint(abs) && c < 2 && t < MAX_THREADS
      modifies this`abs, link, readyHead, pool
      ensures Rep() && abs == SchedSpec.Kill(old(abs), c, t)
      ensures freeNow <==>
                && old(abs).cur[c] != t && old(abs).cur[1 - c] != t
                && old(abs).pool[t].state != Blocked && old(abs).pool[t].state != Zombie
    {
      freeNow := false;
      if t == current[c] {
        pool[t] := pool[t].(state := Zombie);
        abs := SetState(abs, t, Zombie);
      } else if t == current[1 - c] {
        pool[t] := pool[t].(killPending := true);
        abs := SetTcb(abs, t, abs.pool[t].(killPending := true));
      } else if pool[t].state == Blocked {
        pool[t] := pool[t].(state := Zombie);
        abs := SetState(abs, t, Zombie);
      } else if pool[t].state != Zombie {
        Doom(t);
        freeNow := true;
      }
    }

    /** Nobody else refers to t: off its queue and dead, for the caller to free. */
    method Doom(t: nat)
      requires Rep() && Disjoint(abs) && t < MAX_THREADS
      modifies this`abs, link, readyHead, pool
      ensures Rep()
      ensures var d := SetState(DropReady(old(abs), t), t, Zombie); abs == d.(doomed := d.doomed + {t})
    {
      RemoveThreadRaw(t);
      pool[t] := pool[t].(state := Zombie);
      abs := SetState(abs, t, Zombie).(doomed := abs.doomed + {t});
    }

    /** The locked section of sched_sleep. */
    method Sleep(c: nat, wakeTime: nat)
      requires Rep() && Disjoint(abs) && c < 2
      modifies this`abs, link, readyHead, pool
      ensures Rep() && abs == SchedSpec.Sleep(old(abs), c, wakeTime)
    {
      var t := current[c];
      pool[t] := pool[t].(state := Sleeping, wakeTime := wakeTime);
      abs := SetTcb(abs, t, abs.pool[t].(state := Sleeping, wakeTime := wakeTime));
      RemoveThreadRaw(t);
    }

    /** task_create_thread; NULL when no TCB slot or no stack memory is left. */
    method CreateThread(priority: nat, memory: bool) returns (slot: int)
      requires Rep() && Disjoint(abs) && FreeUnlisted(abs)
      modifies this`abs, this`nextTid, link, readyHead, pool
      ensures Rep() && abs == Create(old(abs), priority, memory)
      ensures slot == NULL <==> !memory || forall i :: 0 <= i < MAX_THREADS ==> old(abs).pool[i].used
      ensures slot != NULL ==>
              0 <= slot < MAX_THREADS && !old(abs).pool[slot].used && abs.pool[slot].tid == old(nextTid)
    {
      var i := 0;
      while i < MAX_THREADS && pool[i].used
        invariant 0 <= i <= MAX_THREADS && forall k :: 0 <= k < i ==> abs.pool[k].used
      {
        i := i + 1;
      }
      FirstFreeIs(abs.pool, i);
      if i == MAX_THREADS || !memory {
        return NULL;
      }
      pool[i] := Tcb(true, nextTid, priority, AFFINITY_ANY, Ready, false, 0);
      nextTid := nextTid + 1;
      abs := SetTcb(abs, i, pool[i]).(nextTid := nextTid);
      AddThreadRaw(i);
      slot := i;
    }

    /** The wake loop of isr_systick. */
    method WakeSleepers(now: nat)
      requires Rep() && Disjoint(abs) && SleepersUnlisted(abs)
      modifies this`abs, link, readyHead, pool
      ensures Rep() && abs == WakeFrom(old(abs), now, 0)
    {
      ghost var s := abs;
      var i := 0;
      while i < MAX_THREADS
        invariant 0 <= i <= MAX_THREADS
        invariant Rep() && Disjoint(abs) && SleepersUnlisted(abs)
        invariant WakeFrom(s, now, 0) == WakeFrom(abs, now, i)
      {
        if pool[i].used && pool[i].state == Sleeping && pool[i].wakeTime <= now {
          WakeSleeper(i);
        }
        i := i + 1;
      }
    }

    /** One expired sleeper becomes READY. */
    method WakeSleeper(i: nat)
      requires Rep() && Disjoint(abs) && SleepersUnlisted(abs) && i < MAX_THREADS && abs.pool[i].state == Sleeping
      modifies this`abs, link, readyHead, pool
      ensures Rep() && Disjoint(abs) && SleepersUnlisted(abs) && abs == Wake(old(abs), i)
    {
      ghost var before := abs;
      pool[i] := pool[i].(state := Ready);
      abs := SetState(abs, i, Ready);
      AddThreadRaw(i);
      WokenStaysDisjoint(before, i);
    }

    /** wake_one on a list that does not belong to event flags. */
    method WakeOne(o: nat)
      requires Rep() && Disjoint(abs) && o < |abs.waiting|
      modifies this`abs, link, readyHead, waitHead, pool
      ensures Rep() && abs == WakeFirst(old(abs), o)
    {
      ghost var s := abs;
      var done := false;
      while !done
        invariant Rep() && (!done ==> Disjoint(abs)) && |abs.waiting| == |s.waiting|
        invariant WakeFirst(s, o) == if done then abs else WakeFirst(abs, o)
        decreases !done, |abs.waiting[o]|
      {
        done := WakeFront(o);
      }
    }

    /** One round of wake_one's loop; done when the list is empty or its front was woken. */
    method WakeFront(o: nat) returns (done: bool)
      requires Rep() && Disjoint(abs) && o < |abs.waiting|
      modifies this`abs, link, readyHead, waitHead, pool
      ensures Rep() && |abs.waiting| == |old(abs).waiting|
      ensures forall x :: x in old(abs).waiting[o] ==> x < MAX_THREADS
      ensures done ==> abs == WakeFirst(old(abs), o)
      ensures !done ==> Disjoint(abs) && |abs.waiting[o]| < |old(abs).waiting[o]|
      ensures !done ==>
              (forall x :: x in abs.waiting[o] ==> x < MAX_THREADS) && WakeFirst(old(abs), o) == WakeFirst(abs, o)
    {
      ghost var u, w := abs, abs.waiting[o];
      ChainIsAcyclic(link[..], waitHead[o], w);
      var t := WaiterDequeue(o);
      if t == NULL {
        return true;
      }
      TakenIsUnlisted(u, o);
      done := Unblock(t);
      if !done {
        assert abs.waiting == u.waiting[o := w[1..]] && abs.ready == u.ready;
      }
    }

    /** The round-robin rotation of sched_next_thread: the head of queue p goes to its tail. */
    method RotateQueue(p: nat, out: int)
      requires Rep() && Disjoint(abs) && p < NUM_PRIORITIES && 0 <= out < MAX_THREADS
      requires readyHead[p] == out && abs.pool[out].state == Ready
      modifies this`abs, link, readyHead
      ensures Rep() && abs == SetReady(old(abs), p, Rotate(old(abs).pool, out, old(abs).ready[p]))
    {
      ghost var l, rh, s, q := link[..], readyHead[..], abs, abs.ready[p];
      assert l[q[0]] == After(q, 0);
      if link[out] != NULL {
        ChainIsAcyclic(l, rh[p], q);
        TailChain(l, rh[p], q);
        readyHead[p] := link[out];
        ChainFrame(l, l[out := NULL], readyHead[p], q[1..]);
        AppendTail(link, readyHead, p, out, q[1..]);
        ReadyFrame(l, link[..], rh, readyHead[..], waitHead[..], s, p, out);
        abs := SetReady(s, p, q[1..] + [q[0]]);
      } else {
        assert s.ready[p := q] == s.ready;
      }
    }

    /** The scan of one ready queue for a thread core c may run. */
    method ScanQueue(p: nat, c: nat) returns (t: int)
      requires Rep() && p < NUM_PRIORITIES && c < 2
      ensures t == PickIn(abs.pool, c, abs.cur[1 - c], abs.ready[p])
    {
      t := ScanFrom(pool, link, readyHead[p], c, current[1 - c], abs.ready[p]);
    }

    /** The first half of sched_next_thread: what becomes of the outgoing thread of core c. */
    method LeaveThread(c: nat) returns (reaped: bool)
      requires Rep() && Disjoint(abs) && c < 2
      modifies this`abs, link, readyHead, pool
      ensures Rep() && abs == Departed(old(abs), c) && reaped == Reaps(old(abs), c)
      ensures Disjoint(abs)
    {
      ghost var s := abs;
      var t := current[c];
      reaped := MarkOutgoing(c, t);
      if reaped {
        RemoveThreadRaw(t);
        FreeTcb(t);
      }
      DepartedDisjoint(s, c);
    }

    /** Consume kill_pending, turn RUNNING into READY, and tell whether the thread must be reaped. */
    method MarkOutgoing(c: nat, t: nat) returns (reaped: bool)
      requires Rep() && c < 2 && t == abs.cur[c]
      modifies this`abs, pool
      ensures Rep() && abs == Outgoing(old(abs), c) && reaped == Reaps(old(abs), c)
    {
      var deferred := false;
      ghost var s := abs;
      if pool[t].killPending {
        deferred := pool[t].state == Blocked;
        pool[t] := pool[t].(killPending := false, state := Zombie);
      }
      if pool[t].state == Running {
        pool[t] := pool[t].(state := Ready);
      }
      assert pool[..] == s.pool[t := OutTcb(s.pool[t])];
      abs := Outgoing(s, c);
      reaped := pool[t].state == Zombie && !deferred;
    }

    /** The selection loop of sched_next_thread. */
    method SelectThread(c: nat, out: int) returns (selected: int)
      requires Rep() && Disjoint(abs) && c < 2 && out < MAX_THREADS
      modifies this`abs, link, readyHead
      ensures Rep() && abs == old(abs).(ready := abs.ready)
      ensures (abs.ready, selected) == Select(old(abs).pool, old(abs).ready, c, old(abs).cur[1 - c], out, 0)
    {
      ghost var d, other := abs, abs.cur[1 - c];
      var p := 0;
      selected := NULL;
      while p < NUM_PRIORITIES && selected == NULL
        invariant 0 <= p <= NUM_PRIORITIES
        invariant Rep() && Disjoint(abs) && abs == d.(ready := abs.ready)
        invariant Select(d.pool, d.ready, c, other, out, 0)
          == if selected == NULL then Select(d.pool, abs.ready, c, other, out, p) else (abs.ready, selected)
      {
        ghost var u := abs;
        MaybeRotate(p, out);
        RotatedStaysDisjoint(u, abs, p);
        selected := ScanQueue(p, c);
        p := p + 1;
      }
    }

    method MaybeRotate(p: nat, out: int)
      requires Rep() && Disjoint(abs) && p < NUM_PRIORITIES && out < MAX_THREADS
      modifies this`abs, link, readyHead
      ensures Rep() && abs == SetReady(old(abs), p, Rotate(old(abs).pool, out, old(abs).ready[p]))
    {
      if readyHead[p] != NULL && readyHead[p] == out && pool[out].state == Ready {
        RotateQueue(p, out);
      } else {
        assert abs.ready[p := abs.ready[p]] == abs.ready;
      }
    }

    /** sched_next_thread on core c. */
    method NextThread(c: nat) returns (t: int)
      requires Rep() && Disjoint(abs) && c < 2
      modifies this`abs, link, readyHead, pool, current
      ensures Rep() && abs == Switch(old(abs), c)
      ensures t == abs.cur[c]
    {
      ghost var s := abs;
      t := current[c];
      var reaped := LeaveThread(c);
      ghost var d := abs;
      var selected := SelectThread(c, if reaped then NULL else t);
      if selected != NULL {
        SelectInRange(d, c, if reaped then NULL else t as int);
        Dispatch(c, selected);
      } else {
        abs := abs.(resumed := abs.resumed[c := true]);
      }
      t := current[c];
    }

    /** The selected thread becomes RUNNING and current. */
    method Dispatch(c: nat, selected: nat)
      requires Rep() && c < 2 && selected < MAX_THREADS
      modifies this`abs, pool, current
      ensures Rep()
      ensures abs == SetState(old(abs), selected, Running).(cur := old(abs).cur[c := selected],
                       resumed := old(abs).resumed[c := false])
    {
      pool[selected] := pool[selected].(state := Running);
      current[c] := selected;
      abs := SetState(abs, selected, Running).(cur := abs.cur[c := selected], resumed := abs.resumed[c := false]);
    }

    /** Take position i, which follows prev, out of waiter list o. */
    method RemoveWaiter(o: nat, prev: int, ghost i: nat)
      requires Rep() && Disjoint(abs) && o < |abs.waiting| && i < |abs.waiting[o]|
      requires prev == TrailAt(abs.waiting[o], i)
      modifies this`abs, link, waitHead
      ensures Rep() && abs == SetWaiting(old(abs), o, Remove(old(abs).waiting[o], old(abs).waiting[o][i]))
      ensures Remove(old(abs).waiting[o], old(abs).waiting[o][i]) ==
              old(abs).waiting[o][..i] + old(abs).waiting[o][i + 1..]
      ensures Disjoint(abs) && Unlisted(abs, old(abs).waiting[o][i])
    {
      ghost var l, wh, s, w := link[..], waitHead[..], abs, abs.waiting[o];
      ChainIsAcyclic(l, waitHead[o], w);
      assert w[i] in w && w[i] !in w[..i];
      Bypass(link, waitHead, o, prev, w, i);
      RemoveAt(w, i);
      WaitFrame(l, link[..], readyHead[..], wh, waitHead[..], s, o, w[i]);
      abs := SetWaiting(s, o, Remove(w, w[i]));
      RemovedIsUnlisted(s, o, w[i]);
    }

    /** The mask and mode of a waiter, as event_flags_set looks them up. */
    method LookUpMask(t: nat) returns (mask: bv32, all: bool)
      requires Rep()
      ensures (mask, all) == WaitMask(abs.entries, t)
    {
      mask, all := 0, false;
      var i := 0;
      while i < MAX_THREADS && !(entries[i].Held? && entries[i].thread == t)
        invariant 0 <= i <= MAX_THREADS
        invariant forall k :: 0 <= k < i ==> !(abs.entries[k].Held? && abs.entries[k].thread == t)
      {
        i := i + 1;
      }
      FirstOf(abs.entries, t, i);
      if i < MAX_THREADS {
        mask, all := entries[i].mask, entries[i].all;
      }
    }

    /** Off the list and out of the pool. */
    method DetachWaiter(o: nat, prev: int, cur: nat, ghost i: nat)
      requires Rep() && Disjoint(abs) && o < |abs.waiting| && i < |abs.waiting[o]|
      requires cur == abs.waiting[o][i] && prev == TrailAt(abs.waiting[o], i)
      modifies this`abs, link, waitHead, entries
      ensures Rep() && Disjoint(abs) && Unlisted(abs, cur) && cur < MAX_THREADS
      ensures
        var r := SetWaiting(old(abs), o, Remove(old(abs).waiting[o], cur));
        abs == r.(entries := FreeEntry(r.entries, cur))
      ensures abs.waiting[o] == old(abs).waiting[o][..i] + old(abs).waiting[o][i + 1..]
    {
      assert Chain(link[..], waitHead[..][o], abs.waiting[o]);
      RemoveWaiter(o, prev, i);
      FreeWaiter(cur);
    }

    /** Wake the satisfied waiter at position i: unlink, event_waiter_free, sched_unblock. */
    method DeliverAt(o: nat, prev: int, cur: nat, ghost i: nat)
      requires Rep() && Disjoint(abs) && o < |abs.waiting| && i < |abs.waiting[o]| && abs.isEvent[o]
      requires cur == abs.waiting[o][i]
      requires prev == TrailAt(abs.waiting[o], i)
      modifies this`abs, link, waitHead, readyHead, pool, entries
      ensures Rep() && Disjoint(abs) && cur < MAX_THREADS && abs == Deliver(old(abs), o, cur)
      ensures abs.waiting[o] == old(abs).waiting[o][..i] + old(abs).waiting[o][i + 1..]
    {
      DeliverSteps(abs, o, cur);
      DetachWaiter(o, prev, cur, i);
      ghost var u := abs;
      var woken := Unblock(cur);
      UnblockedStaysDisjoint(u, cur);
    }

    /** event_flags_set on waiter list o, with the new flags already stored. */
    method SetFlags(o: nat, flags: bv32)
      requires Rep() && Disjoint(abs) && o < |abs.waiting| && abs.isEvent[o]
      modifies this`abs, link, waitHead, readyHead, pool, entries
      ensures Rep() && WaitersInRange(old(abs)) && abs == WakeSatisfied(old(abs), o, flags, 0)
    {
      ghost var s, i := abs, 0;
      RepInRange();
      var prev, cur := NULL, waitHead[o];
      while cur != NULL
        invariant Rep() && Disjoint(abs) && WaitersInRange(abs)
        invariant |abs.waiting| == |s.waiting| && abs.isEvent[o] && 0 <= i <= |abs.waiting[o]|
        invariant cur == CursorAt(abs.waiting[o], i)
        invariant prev == TrailAt(abs.waiting[o], i)
        invariant WakeSatisfied(s, o, flags, 0) == WakeSatisfied(abs, o, flags, i)
        decreases |abs.waiting[o]| - i
      {
        WalkStep(abs, o, flags, i);
        prev, cur, i := TestWaiter(o, flags, prev, cur, i);
      }
    }

    /** One iteration of the loop of event_flags_set. */
    method TestWaiter(o: nat, flags: bv32, prev: int, cur: nat, ghost i: nat)
      returns (prev': int, next: int, ghost j: nat)
      requires Rep() && Disjoint(abs) && WaitersInRange(abs) && o < |abs.waiting| && i < |abs.waiting[o]| &&
               abs.isEvent[o]
      requires cur == abs.waiting[o][i] && prev == TrailAt(abs.waiting[o], i)
      modifies this`abs, link, waitHead, readyHead, pool, entries
      ensures Rep() && Disjoint(abs) && (abs, j) == Walked(old(abs), o, flags, i)
      ensures next == CursorAt(abs.waiting[o], j) && prev' == TrailAt(abs.waiting[o], j)
    {
      var wakes;
      next, wakes := LookAt(o, flags, cur, i);
      if !wakes {
        return cur, next, i + 1;
      }
      SplicedAt(abs.waiting[o], i);
      DeliverAt(o, prev, cur, i);
      return prev, next, i;
    }

    /** Who follows the waiter at position i, and whether its condition is met. */
    method LookAt(o: nat, flags: bv32, cur: nat, ghost i: nat) returns (next: int, wakes: bool)
      requires Rep() && o < |abs.waiting| && i < |abs.waiting[o]| && cur == abs.waiting[o][i]
      ensures next == CursorAt(abs.waiting[o], i + 1) && cur < MAX_THREADS && wakes == Wakes(abs, cur, flags)
    {
      assert link[..][abs.waiting[o][i]] == After(abs.waiting[o], i);
      next := link[cur];
      var mask, all := LookUpMask(cur);
      wakes := if all then flags & mask == mask else flags & mask != 0;
    }

    ghost method RepInRange()
      requires Rep()
      ensures WaitersInRange(abs)
    {
    }
  }

  lemma FirstIs(es: seq<Entry>, i: nat)
    requires i <= |es| && Vacant !in es[..i] && (i < |es| ==> es[i] == Vacant)
    ensures FindVacant(es) == i
    ensures i == |es| ==> Vacant !in es
  {
    assert forall k :: 0 <= k < i ==> es[..i][k] == es[k];
  }

  lemma FirstOf(es: seq<Entry>, t: nat, i: nat)
    requires i <= |es| && (forall k :: 0 <= k < i ==> !(es[k].Held? && es[k].thread == t))
    requires i < |es| ==> es[i].Held? && es[i].thread == t
    ensures FindEntry(es, t) == i
  {
  }

  ghost predicate FreeUnlisted(s: Sys) {
    forall t :: 0 <= t < |s.pool| && !s.pool[t].used ==> Unlisted(s, t)
  }

  ghost predicate SleepersUnlisted(s: Sys) {
    forall t :: 0 <= t < |s.pool| && s.pool[t].state == Sleeping ==> Unlisted(s, t)
  }

  /** What the methods below ask of a state holds in every state of a run. */
  lemma InvGivesLists(s: Sys)
    requires Inv(s)
    ensures Disjoint(s) && FreeUnlisted(s) && SleepersUnlisted(s) && ReadyLists(s) && WaitLists(s)
  {
    InvIsDisjoint(s);
    forall t | 0 <= t < MAX_THREADS && (!s.pool[t].used || s.pool[t].state == Sleeping)
      ensures Unlisted(s, t)
    {
      assert Ok(ViewOf(s, t));
      InvUnlisted(s, t);
    }
  }

  /** The wake loop from slot i on, as a sequence of single wake-ups. */
  function WakeFrom(s: Sys, now: nat, i: nat): Sys
    requires Shape(s) && i <= MAX_THREADS
    decreases MAX_THREADS - i
  {
    if i == MAX_THREADS then s
    else if s.pool[i].used && s.pool[i].state == Sleeping && s.pool[i].wakeTime <= now then
      WakeFrom(Wake(s, i), now, i + 1)
    else WakeFrom(s, now, i + 1)
  }

  /** wake_one: free ZOMBIEs from the front of list o until a live waiter is woken. */
  function WakeFirst(s: Sys, o: nat): Sys
    requires Shape(s) && o < |s.waiting| && forall x :: x in s.waiting[o] ==> x < MAX_THREADS
    decreases |s.waiting[o]|
  {
    var w := s.waiting[o];
    if w == [] then s
    else
      var u := SetWaiting(s, o, w[1..]);
      assert w[0] in w && forall x :: x in w[1..] ==> x in w;
      if u.pool[w[0]].state == Zombie then WakeFirst(FreeThread(SchedUnblock(u, w[0]), w[0]), o)
      else SchedUnblock(u, w[0])
  }

  lemma DepartedDisjoint(s: Sys, c: nat)
    requires Shape(s) && Disjoint(s) && c < 2
    ensures Disjoint(Departed(s, c))
  {
    var d := Departed(s, c);
    assert forall p, x :: 0 <= p < |s.ready| && x in d.ready[p] ==> x in s.ready[p];
  }

  lemma TakenIsUnlisted(s: Sys, o: nat)
    requires Disjoint(s) && o < |s.waiting| && s.waiting[o] != [] && NoDup(s.waiting[o])
    ensures
      var u := SetWaiting(s, o, s.waiting[o][1..]);
      Disjoint(u) && Unlisted(u, s.waiting[o][0])
  {
    var w, u := s.waiting[o], SetWaiting(s, o, s.waiting[o][1..]);
    assert w[0] in w;
    assert forall k, x :: 0 <= k < |s.waiting| && x in u.waiting[k] ==> x in s.waiting[k];
  }

  lemma RotatedStaysDisjoint(s: Sys, s': Sys, p: nat)
    requires Disjoint(s) && p < |s.ready| == |s'.ready| && s'.waiting == s.waiting
    requires s'.ready == s.ready[p := s'.ready[p]] && SameMembers(s.ready[p], s'.ready[p])
    ensures Disjoint(s')
  {
    assert forall k, x :: 0 <= k < |s.ready| && x in s'.ready[k] ==> x in s.ready[k];
  }

  lemma PickSkips(p: seq<Tcb>, c: nat, other: nat, q: seq<nat>, i: nat)
    requires i < |q| && !Eligible(p, c, other, q[i])
    ensures PickIn(p, c, other, q[i..]) == PickIn(p, c, other, q[i + 1..])
  {
    assert q[i..][0] == q[i] && q[i..][1..] == q[i + 1..];
  }

  lemma SelectInRange(d: Sys, c: nat, out: int)
    requires Shape(d) && c < 2
    ensures
      var t := Select(d.pool, d.ready, c, d.cur[1 - c], out, 0).1;
      t != NULL ==> 0 <= t < MAX_THREADS
  {
    var k := SelectSpec(d.pool, d.ready, c, d.cur[1 - c], out, 0);
  }

  lemma RemovedIsUnlisted(s: Sys, o: nat, t: nat)
    requires Disjoint(s) && o < |s.waiting| && t in s.waiting[o] && NoDup(s.waiting[o])
    ensures
      var u := SetWaiting(s, o, Remove(s.waiting[o], t));
      Disjoint(u) && Unlisted(u, t)
  {
    var u := SetWaiting(s, o, Remove(s.waiting[o], t));
    assert forall k, x :: 0 <= k < |s.waiting| && x in u.waiting[k] ==> x in s.waiting[k];
  }

  lemma UnblockedStaysDisjoint(s: Sys, t: nat)
    requires Shape(s) && Disjoint(s) && t < MAX_THREADS && Unlisted(s, t)
    ensures Disjoint(SchedUnblock(s, t))
  {
    var s' := SchedUnblock(s, t);
    assert forall p, x :: 0 <= p < |s.ready| && x in s'.ready[p] ==> x in s.ready[p] || (x == t && p == Prio(s, t));
  }

  lemma WokenStaysDisjoint(s: Sys, t: nat)
    requires Shape(s) && Disjoint(s) && SleepersUnlisted(s) && t < MAX_THREADS && Unlisted(s, t)
    ensures Disjoint(Wake(s, t)) && SleepersUnlisted(Wake(s, t))
  {
    var s' := Wake(s, t);
    assert forall p, x :: 0 <= p < |s.ready| && x in s'.ready[p] ==> x in s.ready[p] || (x == t && p == Prio(s, t));
  }

  function BlockAs(s: Sys, o: nat, t: nat, event: bool, mask: bv32, all: bool): Sys
    requires Shape(s) && t < MAX_THREADS && o < |s.waiting|
  {
    var e := if event then AllocEntry(s.entries, Held(t, mask, all)) else s.entries;
    SchedBlock(SchedSpec.WaiterEnqueue(s.(entries := e), o, t), t)
  }

  lemma BlockReady(s: Sys, c: nat, o: nat, mask: bv32, all: bool)
    requires Inv(s) && CanHappen(s, DoBlock(c, o, mask, all)) && !IdleBehind(s, s.cur[c])
    ensures Disjoint(s) && ReadyLists(s) && forall u :: 0 <= u < |s.waiting| ==> s.cur[c] !in s.waiting[u]
    ensures Inv(SchedSpec.Block(s, c, o, mask, all))
  {
    InvIsDisjoint(s);
    assert Ok(ViewOf(s, s.cur[c]));
    assert !Waits(s, s.cur[c]);
    BlockKeepsInv(s, c, o, mask, all);
  }

  /** waiter_enqueue's effect on the ready queues alone. */
  ghost function WaiterCut(s: Sys, t: nat): Sys
    requires Shape(s) && t < MAX_THREADS
  {
    var q := s.ready[Prio(s, t)];
    SetReady(s, Prio(s, t), if t in q then Front(q, t) + [t] else q)
  }

  /** Only t may be on a ready queue and a waiter list at once, and then it ends its queue. */
  ghost predicate SharedLast(s: Sys, t: nat) {
    && (forall p, r, x :: 0 <= p < |s.ready| && 0 <= r < |s.ready| && x in s.ready[p] && x in s.ready[r] ==> p == r)
    && (forall p, o, x :: 0 <= p < |s.ready| && 0 <= o < |s.waiting| && x in s.ready[p] && x in s.waiting[o] ==>
          x == t && s.ready[p][|s.ready[p]| - 1] == t)
  }

  /** The ready queue that holds t ends at t once its cell is NULL; no other list changes. */
  lemma CutChains(l: seq<int>, rh: seq<int>, wh: seq<int>, s: Sys, t: nat)
    requires Shape(s) && ReadyLists(s) && ReadyChains(l, rh, s) && WaitChains(l, wh, s) && t < |l| == MAX_THREADS
    requires forall u :: 0 <= u < |s.waiting| ==> t !in s.waiting[u]
    ensures ReadyChains(l[t := NULL], rh, WaiterCut(s, t)) && WaitChains(l[t := NULL], wh, s)
  {
    forall k | 0 <= k < |rh|
      ensures Chain(l[t := NULL], rh[k], WaiterCut(s, t).ready[k])
    {
      if t in s.ready[k] {
        assert k == Prio(s, t);
        ChainCut(l, rh[k], s.ready[k], t);
      } else {
        ChainFrame(l, l[t := NULL], rh[k], s.ready[k]);
      }
    }
    forall o | 0 <= o < |wh|
      ensures Chain(l[t := NULL], wh[o], s.waiting[o])
    {
      ChainFrame(l, l[t := NULL], wh[o], s.waiting[o]);
    }
  }

  /** Appending t to waiter list o writes only in that list and at t. */
  lemma EnqueuedChains(l: seq<int>, l': seq<int>, rh: seq<int>, wh: seq<int>, wh': seq<int>, cut: Sys, o: nat, t: nat)
    requires ReadyChains(l, rh, cut) && WaitChains(l, wh, cut) && |l'| == |l| && o < |wh| == |wh'| && t < |l|
    requires forall u, v, x :: 0 <= u < |wh| && 0 <= v < |wh| && x in cut.waiting[u] && x in cut.waiting[v] ==> u == v
    requires forall p, u, x :: 0 <= p < |rh| && 0 <= u < |wh| && x in cut.ready[p] ==> x !in cut.waiting[u]
    requires forall u :: 0 <= u < |wh| ==> t !in cut.waiting[u]
    requires Chain(l', wh'[o], cut.waiting[o] + [t]) && l[t] == NULL
    requires forall x :: 0 <= x < |l| && x !in cut.waiting[o] && x != t ==> l'[x] == l[x]
    requires forall k :: 0 <= k < |wh| && k != o ==> wh'[k] == wh[k]
    ensures ReadyChains(l', rh, cut) && WaitChains(l', wh', SetWaiting(cut, o, cut.waiting[o] + [t]))
  {
    var w := cut.waiting[o] + [t];
    assert l'[w[|w| - 1]] == After(w, |w| - 1);
    forall k | 0 <= k < |rh|
      ensures Chain(l', rh[k], cut.ready[k])
    {
      ChainFrame(l, l', rh[k], cut.ready[k]);
    }
    forall k | 0 <= k < |wh| && k != o
      ensures Chain(l', wh'[k], cut.waiting[k])
    {
      ChainFrame(l, l', wh[k], cut.waiting[k]);
    }
  }

  lemma EnqueuedShares(s: Sys, o: nat, t: nat)
    requires Shape(s) && ReadyLists(s) && Disjoint(s) && t < MAX_THREADS && o < |s.waiting|
    ensures SharedLast(SchedSpec.WaiterEnqueue(s, o, t), t)
    ensures forall p, u, x :: 0 <= p < |s.ready| && 0 <= u < |s.waiting| && x in WaiterCut(s, t).ready[p] ==>
            x !in s.waiting[u] || x == t
  {
    var cut := WaiterCut(s, t);
    assert forall p, x :: 0 <= p < |s.ready| && x in cut.ready[p] ==> x in s.ready[p];
  }

  /** Unlinking the last member t of ready queue p; t may end a waiter list too. */
  lemma UnlinkedChains(l: seq<int>, l': seq<int>, rh: seq<int>, rh': seq<int>, wh: seq<int>, s: Sys, p: nat, t: nat)
    requires ReadyChains(l, rh, s) && WaitChains(l, wh, s) && SharedLast(s, t) && |l'| == |l| && p < |rh| == |rh'|
    requires t in s.ready[p] && t < |l| && l'[t] == NULL && Chain(l', rh'[p], Remove(s.ready[p], t))
    requires forall x :: 0 <= x < |l| && x !in s.ready[p] ==> l'[x] == l[x]
    requires forall k :: 0 <= k < |rh| && k != p ==> rh'[k] == rh[k]
    ensures ReadyChains(l', rh', SetReady(s, p, Remove(s.ready[p], t))) && WaitChains(l', wh, s)
  {
    var q := s.ready[p];
    forall k | 0 <= k < |rh| && k != p
      ensures Chain(l', rh'[k], s.ready[k])
    {
      ChainFrame(l, l', rh[k], s.ready[k]);
    }
    forall o | 0 <= o < |wh|
      ensures Chain(l', wh[o], s.waiting[o])
    {
      if t in s.waiting[o] {
        assert l[q[|q| - 1]] == After(q, |q| - 1);
      }
      ChainFrame(l, l', wh[o], s.waiting[o]);
    }
  }
}
