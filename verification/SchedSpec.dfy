/**
 The two-core scheduler of src/kernel/sched.c and the thread life cycle of
 src/kernel/task.c as a state machine.  One step is one locked section.

 Lists are given by their contents; `Links` and `Kernel` connect them to the shared
 `next` cells.  `waiting` holds the waiter lists of all primitives, one per index.
 */
module SchedSpec {
  import opened Links

  const MAX_THREADS: nat := 16
  const NUM_PRIORITIES: nat := 8
  const AFFINITY_ANY: int := -1

  datatype ThreadState = New | Ready | Running | Blocked | Sleeping | Zombie

  datatype Tcb = Tcb(
    used: bool,
    tid: nat,
    priority: nat,
    affinity: int,
    state: ThreadState,
    killPending: bool,
    wakeTime: nat)

  /** What memset leaves in a freed slot. */
  const FREE_TCB := Tcb(false, 0, 0, 0, New, false, 0)

  /** One slot of event_waiter_pool. */
  datatype Entry = Vacant | Held(thread: nat, mask: bv32, all: bool)

  datatype Sys = Sys(
    pool: seq<Tcb>,
    ready: seq<seq<nat>>,
    waiting: seq<seq<nat>>,
    isEvent: seq<bool>,      // which waiter lists belong to event_flags objects
    entries: seq<Entry>,
    cur: seq<nat>,           // current_tcb[2]
    idle: seq<nat>,          // the idle thread pinned to each core
    doomed: set<nat>,        // ZOMBIEs whose task_free_thread call is still to come
    freed: seq<nat>,         // thread IDs in the order their TCBs were freed
    nextTid: nat,
    resumed: seq<bool>)      // the last switch of this core found nobody and went on with its current thread

  function Clamp(priority: nat): (p: nat)
    ensures p < NUM_PRIORITIES
  {
    if priority >= NUM_PRIORITIES then NUM_PRIORITIES - 1 else priority
  }

  ghost predicate Shape(s: Sys) {
    && |s.pool| == MAX_THREADS
    && |s.ready| == NUM_PRIORITIES
    && |s.isEvent| == |s.waiting|
    && |s.entries| == MAX_THREADS
    && |s.cur| == 2 && s.cur[0] < MAX_THREADS && s.cur[1] < MAX_THREADS
    && |s.idle| == 2 && s.idle[0] < MAX_THREADS && s.idle[1] < MAX_THREADS
    && |s.resumed| == 2
  }

  function Prio(s: Sys, t: nat): (p: nat)
    requires t < |s.pool|
    ensures p < NUM_PRIORITIES
  {
    Clamp(s.pool[t].priority)
  }

  // ---- what the operations do ------------------------------------------------------

  function SetTcb(s: Sys, t: nat, tcb: Tcb): Sys
    requires t < |s.pool|
  {
    s.(pool := s.pool[t := tcb])
  }

  function SetState(s: Sys, t: nat, state: ThreadState): Sys
    requires t < |s.pool|
  {
    SetTcb(s, t, s.pool[t].(state := state))
  }

  function SetReady(s: Sys, p: nat, q: seq<nat>): Sys
    requires p < |s.ready|
  {
    s.(ready := s.ready[p := q])
  }

  function SetWaiting(s: Sys, o: nat, q: seq<nat>): Sys
    requires o < |s.waiting|
  {
    s.(waiting := s.waiting[o := q])
  }

  /** sched_add_thread_raw */
  function AddReady(s: Sys, t: nat): Sys
    requires Shape(s) && t < MAX_THREADS
  {
    SetReady(s, Prio(s, t), s.ready[Prio(s, t)] + [t])
  }

  /** sched_remove_thread_raw */
  function DropReady(s: Sys, t: nat): Sys
    requires Shape(s) && t < MAX_THREADS
  {
    SetReady(s, Prio(s, t), Remove(s.ready[Prio(s, t)], t))
  }

  /** sched_block */
  function SchedBlock(s: Sys, t: nat): (r: Sys)
    requires Shape(s) && t < MAX_THREADS
    ensures Shape(r)
  {
    SetState(DropReady(s, t), t, Blocked)
  }

  /**
   waiter_enqueue.  The NULL it stores in the shared cell of t also ends the ready
   queue t is still linked in.
   */
  function WaiterEnqueue(s: Sys, o: nat, t: nat): (r: Sys)
    requires Shape(s) && t < MAX_THREADS && o < |s.waiting|
    ensures Shape(r)
  {
    var q := s.ready[Prio(s, t)];
    var cut := SetReady(s, Prio(s, t), if t in q then Front(q, t) + [t] else q);
    SetWaiting(cut, o, s.waiting[o] + [t])
  }

  /** The first vacant slot of event_waiter_pool, or its length. */
  function FindVacant(es: seq<Entry>): (k: nat)
    ensures k <= |es|
    ensures k < |es| ==> es[k].Vacant?
    ensures forall i :: 0 <= i < k ==> es[i].Held?
  {
    if es == [] || es[0].Vacant? then 0 else 1 + FindVacant(es[1..])
  }

  /** The first slot of event_waiter_pool that belongs to t, or its length. */
  function FindEntry(es: seq<Entry>, t: nat): (k: nat)
    ensures k <= |es|
    ensures k < |es| ==> es[k].Held? && es[k].thread == t
    ensures forall i :: 0 <= i < k ==> !(es[i].Held? && es[i].thread == t)
  {
    if es == [] || (es[0].Held? && es[0].thread == t) then 0 else 1 + FindEntry(es[1..], t)
  }

  /** event_waiter_alloc; a full pool is left alone. */
  function AllocEntry(es: seq<Entry>, e: Entry): seq<Entry> {
    var k := FindVacant(es);
    if k < |es| then es[k := e] else es
  }

  /** event_waiter_free */
  function FreeEntry(es: seq<Entry>, t: nat): seq<Entry> {
    var k := FindEntry(es, t);
    if k < |es| then es[k := Vacant] else es
  }

  /** t holds an event_waiter_pool slot. */
  ghost predicate HasEntry(es: seq<Entry>, t: nat) {
    exists k :: 0 <= k < |es| && es[k].Held? && es[k].thread == t
  }

  /** The blocking path of every primitive: [event_waiter_alloc;] waiter_enqueue; sched_block. */
  function Block(s: Sys, c: nat, o: nat, mask: bv32, all: bool): (r: Sys)
    requires Shape(s) && c < 2 && o < |s.waiting|
    ensures Shape(r)
  {
    var t := s.cur[c];
    var e := if s.isEvent[o] then AllocEntry(s.entries, Held(t, mask, all)) else s.entries;
    SchedBlock(WaiterEnqueue(s.(entries := e), o, t), t)
  }

  /** sched_unblock: a ZOMBIE is handed to task_free_thread instead of being woken. */
  function SchedUnblock(s: Sys, t: nat): (r: Sys)
    requires Shape(s) && t < MAX_THREADS
    ensures Shape(r)
  {
    if s.pool[t].state == Zombie then s.(doomed := s.doomed + {t})
    else AddReady(SetState(s, t, Ready), t)
  }

  /** A waker takes t off waiter list o (and out of the event pool) and unblocks it. */
  function Unblock(s: Sys, o: nat, t: nat): (r: Sys)
    requires Shape(s) && o < |s.waiting| && t < MAX_THREADS
    ensures Shape(r)
  {
    var e := if s.isEvent[o] then FreeEntry(s.entries, t) else s.entries;
    SchedUnblock(SetWaiting(s.(entries := e), o, Remove(s.waiting[o], t)), t)
  }

  predicate Satisfied(flags: bv32, mask: bv32, all: bool) {
    if all then flags & mask == mask else flags & mask != 0
  }

  /** The mask and mode event_flags_set finds for t; a thread without a slot has mask 0. */
  function WaitMask(es: seq<Entry>, t: nat): (bv32, bool) {
    var k := FindEntry(es, t);
    if k < |es| then (es[k].mask, es[k].all) else (0, false)
  }

  predicate Wakes(s: Sys, t: nat, flags: bv32) {
    Satisfied(flags, WaitMask(s.entries, t).0, WaitMask(s.entries, t).1)
  }

  /** Unblock, with the free that follows at once for a ZOMBIE. */
  function Deliver(s: Sys, o: nat, t: nat): Sys
    requires Shape(s) && o < |s.waiting| && t < MAX_THREADS
  {
    var u := Unblock(s, o, t);
    if s.pool[t].state == Zombie then FreeThread(u, t) else u
  }

  ghost predicate WaitersInRange(s: Sys) {
    forall o, t :: 0 <= o < |s.waiting| && t in s.waiting[o] ==> t < MAX_THREADS
  }

  /** event_flags_set from position i of its waiter list on. */
  function WakeSatisfied(s: Sys, o: nat, flags: bv32, i: nat): Sys
    requires Shape(s) && WaitersInRange(s) && o < |s.waiting| && i <= |s.waiting[o]|
    decreases |s.waiting[o]| - i
  {
    var w := s.waiting[o];
    if i == |w| then s
    else if Wakes(s, w[i], flags) then
      assert w[i] in w;
      var u := Deliver(s, o, w[i]);
      assert u.waiting[o] == Remove(w, w[i]) && |u.waiting[o]| == |w| - 1;
      WakeSatisfied(u, o, flags, i)
    else WakeSatisfied(s, o, flags, i + 1)
  }

  /** sched_sleep up to its yield. */
  function Sleep(s: Sys, c: nat, wakeTime: nat): Sys
    requires Shape(s) && c < 2
  {
    var t := s.cur[c];
    DropReady(SetTcb(s, t, s.pool[t].(state := Sleeping, wakeTime := wakeTime)), t)
  }

  /** The wake loop of isr_systick, for one expired sleeper. */
  function Wake(s: Sys, t: nat): Sys
    requires Shape(s) && t < MAX_THREADS
  {
    AddReady(SetState(s, t, Ready), t)
  }

  /** sched_kill, called on core c. */
  function Kill(s: Sys, c: nat, t: nat): Sys
    requires Shape(s) && c < 2 && t < MAX_THREADS
  {
    if t == s.cur[c] then SetState(s, t, Zombie)
    else if t == s.cur[1 - c] then SetTcb(s, t, s.pool[t].(killPending := true))
    else if s.pool[t].state == Blocked then SetState(s, t, Zombie)
    else if s.pool[t].state != Zombie then
      var d := SetState(DropReady(s, t), t, Zombie);
      d.(doomed := d.doomed + {t})
    else s
  }

  /** The TCB part of task_free_thread. */
  function FreeThread(s: Sys, t: nat): Sys
    requires Shape(s) && t < MAX_THREADS
  {
    s.(pool := s.pool[t := FREE_TCB], doomed := s.doomed - {t}, freed := s.freed + [s.pool[t].tid])
  }

  /** The slot task_create_thread takes, or MAX_THREADS. */
  function FirstFree(pool: seq<Tcb>): (i: nat)
    ensures i <= |pool|
    ensures i < |pool| ==> !pool[i].used
    ensures forall k :: 0 <= k < i ==> pool[k].used
  {
    if pool == [] || !pool[0].used then 0 else 1 + FirstFree(pool[1..])
  }

  lemma FirstFreeIs(pool: seq<Tcb>, i: nat)
    requires i <= |pool| && (forall k :: 0 <= k < i ==> pool[k].used) && (i < |pool| ==> !pool[i].used)
    ensures FirstFree(pool) == i
  {
  }

  /** task_create_thread; memory says whether kmalloc found room for the stack. */
  function Create(s: Sys, priority: nat, memory: bool): Sys
    requires Shape(s)
  {
    var i := FirstFree(s.pool);
    if i == MAX_THREADS || !memory then s
    else
      var t := Tcb(true, s.nextTid, priority, AFFINITY_ANY, Ready, false, 0);
      AddReady(SetTcb(s, i, t).(nextTid := s.nextTid + 1), i)
  }

  // ---- sched_next_thread -----------------------------------------------------------

  /** The test of the selection loop. */
  predicate Eligible(pool: seq<Tcb>, c: nat, other: nat, t: nat) {
    && t < |pool|
    && pool[t].state == Ready
    && t != other
    && (pool[t].affinity == AFFINITY_ANY || pool[t].affinity == c)
  }

  /** First eligible member of one queue. */
  function PickIn(pool: seq<Tcb>, c: nat, other: nat, q: seq<nat>): (r: int)
    ensures r == NULL <==> forall t :: t in q ==> !Eligible(pool, c, other, t)
    ensures r != NULL ==> 0 <= r && r in q && Eligible(pool, c, other, r)
    ensures r != NULL ==> forall t :: t in Front(q, r) ==> !Eligible(pool, c, other, t)
  {
    if q == [] then NULL
    else if Eligible(pool, c, other, q[0]) then q[0]
    else
      assert forall t :: t in q <==> t == q[0] || t in q[1..];
      PickIn(pool, c, other, q[1..])
  }

  /** Round-robin: a READY outgoing thread at the head of its queue goes to the tail. */
  function Rotate(pool: seq<Tcb>, out: int, q: seq<nat>): (r: seq<nat>)
    ensures SameMembers(q, r)
  {
    if |q| > 1 && q[0] == out && out < |pool| && pool[out].state == Ready then
      assert q == [q[0]] + q[1..];
      q[1..] + [q[0]]
    else q
  }

  ghost predicate SameMembers(q: seq<nat>, r: seq<nat>) {
    && |r| == |q|
    && (forall x :: x in r <==> x in q)
    && (NoDup(q) ==> NoDup(r))
  }

  /** The selection loop from priority p on: the queues after rotation and the choice. */
  function Select(pool: seq<Tcb>, ready: seq<seq<nat>>, c: nat, other: nat, out: int, p: nat): (r: (seq<seq<nat>>, int))
    requires p <= |ready|
    ensures |r.0| == |ready|
    decreases |ready| - p
  {
    if p == |ready| then (ready, NULL)
    else
      var q := Rotate(pool, out, ready[p]);
      var rotated := ready[p := q];
      var t := PickIn(pool, c, other, q);
      if t != NULL then (rotated, t) else Select(pool, rotated, c, other, out, p + 1)
  }

  /** kill_pending is consumed and a RUNNING thread becomes READY. */
  function OutTcb(tcb: Tcb): Tcb {
    if tcb.killPending then tcb.(killPending := false, state := Zombie)
    else if tcb.state == Running then tcb.(state := Ready)
    else tcb
  }

  function Outgoing(s: Sys, c: nat): Sys
    requires Shape(s) && c < 2
  {
    SetTcb(s, s.cur[c], OutTcb(s.pool[s.cur[c]]))
  }

  /** Whether the switch reaps the outgoing thread: a ZOMBIE that has not just blocked. */
  predicate Reaps(s: Sys, c: nat)
    requires Shape(s) && c < 2
  {
    var tcb := s.pool[s.cur[c]];
    if tcb.killPending then tcb.state != Blocked else tcb.state == Zombie
  }

  /** The state after the outgoing thread has been dealt with. */
  function Departed(s: Sys, c: nat): (r: Sys)
    requires Shape(s) && c < 2
    ensures Shape(r)
  {
    var t := s.cur[c];
    var o := Outgoing(s, c);
    if Reaps(s, c) then FreeThread(DropReady(o, t), t) else o
  }

  /** The choice a switch on core c makes, NULL when no thread is eligible. */
  function Choice(s: Sys, c: nat): (r: (seq<seq<nat>>, int))
    requires Shape(s) && c < 2
    ensures |r.0| == NUM_PRIORITIES
  {
    var d := Departed(s, c);
    Select(d.pool, d.ready, c, s.cur[1 - c], if Reaps(s, c) then NULL else s.cur[c], 0)
  }

  /**
   sched_next_thread.  With no eligible thread current_tcb[c] stays as it was, and the outgoing
   thread is resumed whatever its state.
   */
  function Switch(s: Sys, c: nat): (r: Sys)
    requires Shape(s) && c < 2
    ensures Shape(r)
  {
    var d := Departed(s, c);
    var (ready, t) := Choice(s, c);
    var e := d.(ready := ready);
    if 0 <= t < MAX_THREADS then SetState(e, t, Running).(cur := s.cur[c := t], resumed := s.resumed[c := false])
    else e.(resumed := s.resumed[c := true])
  }

  // ---- the machine -----------------------------------------------------------------

  datatype Step =
    | DoCreate(priority: nat, memory: bool)
    | DoBlock(c: nat, o: nat, mask: bv32, all: bool)
    | DoUnblock(o: nat, t: nat)
    | DoSleep(c: nat, wakeTime: nat)
    | DoWake(t: nat)
    | DoExit(c: nat)
    | DoKill(c: nat, t: nat)
    | DoFree(t: nat)
    | DoSwitch(c: nat)
    | DoSetAffinity(c: nat, affinity: int)

  /** The idle threads still linked behind t in its ready queue. */
  ghost predicate IdleBehind(s: Sys, t: nat)
    requires Shape(s) && t < MAX_THREADS
  {
    var q := s.ready[Prio(s, t)];
    t in q && exists c :: 0 <= c < 2 && s.idle[c] in q && s.idle[c] !in Front(q, t)
  }

  /**
   The current thread of core c can make a call: it is RUNNING, or it was resumed for want of
   another.  A resumed thread that is still BLOCKED is inside a primitive's retry loop.
   */
  ghost predicate Acts(s: Sys, c: nat)
    requires Shape(s)
  {
    && c < 2
    && (s.pool[s.cur[c]].state == Running || (s.resumed[c] && s.pool[s.cur[c]].state in {Ready, Sleeping}))
  }

  /**
   When a step can happen.  Calls are made by acting threads; a thread that has killed itself may
   kill on until its next yield.  Idle threads only spin.
   */
  ghost predicate CanHappen(s: Sys, step: Step)
    requires Shape(s)
  {
    match step
    case DoCreate(_, _) => true
    case DoBlock(c, o, _, _) =>
      Acts(s, c) && o < |s.waiting| && s.cur[c] !in s.idle
    case DoUnblock(o, t) => o < |s.waiting| && t in s.waiting[o] && t < MAX_THREADS
    case DoSleep(c, _) => Acts(s, c) && s.cur[c] !in s.idle
    case DoWake(t) => t < MAX_THREADS && s.pool[t].used && s.pool[t].state == Sleeping
    case DoExit(c) => Acts(s, c) && s.cur[c] !in s.idle
    case DoKill(c, t) =>
      && c < 2 && t < MAX_THREADS && s.pool[t].used && t !in s.idle && s.cur[c] !in s.idle
      && (Acts(s, c) || (s.pool[s.cur[c]].state == Zombie && !s.resumed[c]))
    case DoFree(t) => t < MAX_THREADS && t in s.doomed
    case DoSwitch(c) => c < 2
    case DoSetAffinity(c, affinity) => Acts(s, c) && s.cur[c] !in s.idle && affinity in {AFFINITY_ANY, 0, 1}
  }

  function Next(s: Sys, step: Step): (r: Sys)
    requires Shape(s)
    requires step.DoBlock? ==> step.c < 2 && step.o < |s.waiting|
    requires step.DoUnblock? ==> step.o < |s.waiting| && step.t < MAX_THREADS
    requires step.DoSleep? || step.DoExit? || step.DoSwitch? || step.DoSetAffinity? ==> step.c < 2
    requires step.DoKill? ==> step.c < 2 && step.t < MAX_THREADS
    requires step.DoWake? || step.DoFree? ==> step.t < MAX_THREADS
    ensures Shape(r)
  {
    match step
    case DoCreate(priority, memory) => Create(s, priority, memory)
    case DoBlock(c, o, mask, all) => Block(s, c, o, mask, all)
    case DoUnblock(o, t) => Unblock(s, o, t)
    case DoSleep(c, wakeTime) => Sleep(s, c, wakeTime)
    case DoWake(t) => Wake(s, t)
    case DoExit(c) => SetState(s, s.cur[c], Zombie)
    case DoKill(c, t) => Kill(s, c, t)
    case DoFree(t) => FreeThread(s, t)
    case DoSwitch(c) => Switch(s, c)
    case DoSetAffinity(c, affinity) => SetTcb(s, s.cur[c], s.pool[s.cur[c]].(affinity := affinity))
  }
}
