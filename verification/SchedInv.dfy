/**
 The invariant of the two-core machine and its preservation by every step.

 A thread is looked at through its `View`: its TCB and where it is linked.  Each
 step changes the views of one or two threads, and `Ok` is a condition on one view,
 so preservation is a small case split per thread.
 */
module SchedInv {
  import opened Links
  import opened SchedSpec

  datatype View = View(tcb: Tcb, onReady: bool, waits: bool, cur0: bool, cur1: bool, doomed: bool)

  ghost predicate OnReady(s: Sys, t: nat)
    requires Shape(s) && t < MAX_THREADS
  {
    t in s.ready[Prio(s, t)]
  }

  ghost predicate Waits(s: Sys, t: nat) {
    exists o :: 0 <= o < |s.waiting| && t in s.waiting[o]
  }

  ghost function ViewOf(s: Sys, t: nat): View
    requires Shape(s) && t < MAX_THREADS
  {
    View(s.pool[t], OnReady(s, t), Waits(s, t), s.cur[0] == t, s.cur[1] == t, t in s.doomed)
  }

  /**
   The life-cycle rules.  A ZOMBIE has exactly one party that will free it: the core it
   is current on, the primitive whose waiter list it is in, or the killer that doomed it.
   */
  ghost predicate Ok(v: View) {
    var cur := v.cur0 || v.cur1;
    && !(v.cur0 && v.cur1)
    && (!v.tcb.used ==> v.tcb == FREE_TCB && !v.onReady && !v.waits && !cur && !v.doomed)
    && (v.tcb.used ==> v.tcb.state != New)
    && v.tcb.affinity in {AFFINITY_ANY, 0, 1}
    && (v.onReady ==> v.tcb.state == Ready || v.tcb.state == Running || (v.tcb.state == Zombie && cur))
    && (v.waits <==> v.tcb.state == Blocked || (v.tcb.state == Zombie && !cur && !v.doomed))
    && (v.tcb.state == Running ==> cur)
    && (v.tcb.killPending ==> cur)
    && (v.doomed ==> v.tcb.state == Zombie && !cur)
  }

  ghost predicate Views(s: Sys)
    requires Shape(s)
  {
    forall t :: 0 <= t < MAX_THREADS ==> Ok(ViewOf(s, t))
  }

  /** Ready queues are duplicate-free and hold threads of their own priority. */
  ghost predicate ReadyLists(s: Sys)
    requires Shape(s)
  {
    forall p :: 0 <= p < NUM_PRIORITIES ==>
      NoDup(s.ready[p]) && forall t :: t in s.ready[p] ==> t < MAX_THREADS && Prio(s, t) == p
  }

  /** Waiter lists are duplicate-free and disjoint. */
  ghost predicate WaitLists(s: Sys) {
    && (forall o :: 0 <= o < |s.waiting| ==> NoDup(s.waiting[o]))
    && (forall o, t :: 0 <= o < |s.waiting| && t in s.waiting[o] ==> t < MAX_THREADS)
    && (forall o, u, t :: 0 <= o < |s.waiting| && 0 <= u < |s.waiting| && t in s.waiting[o] && t in s.waiting[u] ==>
        o == u)
  }

  ghost predicate WaitsOnEvent(s: Sys, t: nat)
    requires Shape(s)
  {
    exists o :: 0 <= o < |s.waiting| && s.isEvent[o] && t in s.waiting[o]
  }

  /** event_waiter_pool holds exactly one slot for each thread in an event_flags list. */
  ghost predicate EntriesOk(s: Sys)
    requires Shape(s)
  {
    && (forall t :: HasEntry(s.entries, t) <==> WaitsOnEvent(s, t))
    && DistinctEntries(s.entries)
  }

  ghost predicate DistinctEntries(es: seq<Entry>) {
    forall i, j :: 0 <= i < j < |es| && es[i].Held? && es[j].Held? ==> es[i].thread != es[j].thread
  }

  /** Thread IDs are never reused, and a freed one is never freed again. */
  ghost predicate Tids(s: Sys) {
    && (forall i :: 0 <= i < |s.pool| && s.pool[i].used ==> s.pool[i].tid < s.nextTid && s.pool[i].tid !in s.freed)
    && (forall i, j :: 0 <= i < j < |s.pool| && s.pool[i].used && s.pool[j].used ==> s.pool[i].tid != s.pool[j].tid)
    && (forall x :: x in s.freed ==> x < s.nextTid)
    && NoDup(s.freed)
  }

  /** Each core's idle thread is runnable, queued, pinned, and never on the other core. */
  ghost predicate IdleOk(s: Sys, c: nat)
    requires Shape(s) && c < 2
  {
    var t := s.idle[c];
    && s.pool[t].used && s.pool[t].affinity == c && !s.pool[t].killPending
    && s.pool[t].state in {Ready, Running}
    && OnReady(s, t) && Prio(s, t) == NUM_PRIORITIES - 1
    && s.cur[1 - c] != t
  }

  ghost predicate Inv(s: Sys) {
    && Shape(s)
    && s.cur[0] != s.cur[1] && s.idle[0] != s.idle[1] && s.resumed == [false, false]
    && Views(s) && ReadyLists(s) && WaitLists(s) && EntriesOk(s) && Tids(s)
    && IdleOk(s, 0) && IdleOk(s, 1)
  }


  lemma WakeKeepsInv(s: Sys, t: nat)
    requires Inv(s) && CanHappen(s, DoWake(t))
    ensures Inv(Wake(s, t))
  {
    var s' := Wake(s, t);
    assert Ok(ViewOf(s, t));
    forall x | 0 <= x < MAX_THREADS
      ensures Ok(ViewOf(s', x))
    {
      assert Ok(ViewOf(s, x));
      assert Waits(s', x) == Waits(s, x);
    }
  }

  lemma ExitKeepsInv(s: Sys, c: nat)
    requires Inv(s) && CanHappen(s, DoExit(c))
    ensures Inv(Next(s, DoExit(c)))
  {
    assert Ok(ViewOf(s, s.cur[c]));
    TcbStep(s, s.cur[c], s.pool[s.cur[c]].(state := Zombie));
  }

  lemma SleepKeepsInv(s: Sys, c: nat, wakeTime: nat)
    requires Inv(s) && CanHappen(s, DoSleep(c, wakeTime))
    ensures Inv(Sleep(s, c, wakeTime))
  {
    var s' := Sleep(s, c, wakeTime);
    forall x | 0 <= x < MAX_THREADS
      ensures Ok(ViewOf(s', x))
    {
      assert Ok(ViewOf(s, x));
      assert Waits(s', x) == Waits(s, x);
    }
  }

  lemma SetAffinityKeepsInv(s: Sys, c: nat, affinity: int)
    requires Inv(s) && CanHappen(s, DoSetAffinity(c, affinity))
    ensures Inv(Next(s, DoSetAffinity(c, affinity)))
  {
    assert Ok(ViewOf(s, s.cur[c]));
    TcbStep(s, s.cur[c], s.pool[s.cur[c]].(affinity := affinity));
  }

  lemma CreateKeepsInv(s: Sys, priority: nat, memory: bool)
    requires Inv(s)
    ensures Inv(Create(s, priority, memory))
  {
    if FirstFree(s.pool) < MAX_THREADS {
      assert Ok(ViewOf(s, FirstFree(s.pool)));
      CreateKeepsLists(s, priority, memory);
      CreateKeepsViews(s, priority, memory);
      var s' := Create(s, priority, memory);
      assert forall x :: WaitsOnEvent(s', x) == WaitsOnEvent(s, x);
    }
  }

  lemma CreateKeepsLists(s: Sys, priority: nat, memory: bool)
    requires Shape(s) && ReadyLists(s) && Tids(s) && IdleOk(s, 0) && IdleOk(s, 1)
    requires FirstFree(s.pool) < MAX_THREADS && !OnReady(s, FirstFree(s.pool)) && s.cur[0] < MAX_THREADS
    ensures
      var s' := Create(s, priority, memory);
      Shape(s') && ReadyLists(s') && Tids(s') && IdleOk(s', 0) && IdleOk(s', 1)
  {
    var i := FirstFree(s.pool);
    assert forall p :: 0 <= p < NUM_PRIORITIES ==> i !in s.ready[p];
  }

  lemma CreateKeepsViews(s: Sys, priority: nat, memory: bool)
    requires Shape(s) && Views(s) && FirstFree(s.pool) < MAX_THREADS && s.cur[0] != s.cur[1]
    ensures Views(Create(s, priority, memory))
  {
    var s' := Create(s, priority, memory);
    assert Ok(ViewOf(s, FirstFree(s.pool)));
    forall x | 0 <= x < MAX_THREADS
      ensures Ok(ViewOf(s', x))
    {
      assert Ok(ViewOf(s, x));
      assert Waits(s', x) == Waits(s, x);
    }
  }

  lemma KillKeepsInv(s: Sys, c: nat, t: nat)
    requires Inv(s) && CanHappen(s, DoKill(c, t))
    ensures Inv(Kill(s, c, t))
  {
    if t != s.cur[0] && t != s.cur[1] && s.pool[t].state != Blocked && s.pool[t].state != Zombie {
      DoomKeepsInv(s, t);
    } else {
      MarkKeepsInv(s, c, t);
    }
  }

  /** Changing a TCB in place, without its identity or its links, moves no thread. */
  lemma TcbKeepsRest(s: Sys, t: nat, tcb: Tcb)
    requires Shape(s) && ReadyLists(s) && WaitLists(s) && EntriesOk(s) && Tids(s) && t < MAX_THREADS
    requires tcb.priority == s.pool[t].priority && tcb.tid == s.pool[t].tid && tcb.used == s.pool[t].used
    ensures
      var s' := SetTcb(s, t, tcb);
      && Shape(s') && ReadyLists(s') && WaitLists(s') && EntriesOk(s') && Tids(s')
      && forall x :: 0 <= x < MAX_THREADS ==> OnReady(s', x) == OnReady(s, x) && Waits(s', x) == Waits(s, x)
  {
    var s' := SetTcb(s, t, tcb);
    assert forall x :: 0 <= x < MAX_THREADS ==> Prio(s', x) == Prio(s, x);
    assert forall x :: WaitsOnEvent(s', x) == WaitsOnEvent(s, x);
    assert forall x :: Waits(s', x) == Waits(s, x);
  }

  lemma TcbKeepsIdle(s: Sys, t: nat, tcb: Tcb)
    requires Shape(s) && t < MAX_THREADS && IdleOk(s, 0) && IdleOk(s, 1)
    requires tcb.priority == s.pool[t].priority
    requires t in s.idle ==>
             tcb.used && tcb.affinity == s.pool[t].affinity && !tcb.killPending && tcb.state in {Ready, Running}
    ensures IdleOk(SetTcb(s, t, tcb), 0) && IdleOk(SetTcb(s, t, tcb), 1)
  {
    var s' := SetTcb(s, t, tcb);
    assert Prio(s', s.idle[0]) == Prio(s, s.idle[0]) && Prio(s', s.idle[1]) == Prio(s, s.idle[1]);
  }

  lemma TcbStep(s: Sys, t: nat, tcb: Tcb)
    requires Inv(s) && t < MAX_THREADS && t !in s.idle
    requires tcb.priority == s.pool[t].priority && tcb.tid == s.pool[t].tid && tcb.used == s.pool[t].used
    requires Ok(ViewOf(s, t).(tcb := tcb))
    ensures Inv(SetTcb(s, t, tcb))
  {
    var s' := SetTcb(s, t, tcb);
    TcbKeepsRest(s, t, tcb);
    TcbKeepsIdle(s, t, tcb);
    forall x | 0 <= x < MAX_THREADS
      ensures Ok(ViewOf(s', x))
    {
      assert Ok(ViewOf(s, x));
    }
  }

  /** The branches of sched_kill that leave the thread where it is. */
  lemma MarkKeepsInv(s: Sys, c: nat, t: nat)
    requires Inv(s) && CanHappen(s, DoKill(c, t))
    requires t == s.cur[0] || t == s.cur[1] || s.pool[t].state == Blocked || s.pool[t].state == Zombie
    ensures Inv(Kill(s, c, t))
  {
    assert Ok(ViewOf(s, t));
    if t == s.cur[1 - c] {
      TcbStep(s, t, s.pool[t].(killPending := true));
    } else if t == s.cur[c] || s.pool[t].state == Blocked {
      TcbStep(s, t, s.pool[t].(state := Zombie));
    }
  }

  /** The branch of sched_kill that takes a READY or SLEEPING thread for the caller to free. */
  lemma DoomKeepsInv(s: Sys, t: nat)
    requires Inv(s) && t < MAX_THREADS && s.pool[t].used && t !in s.idle
    requires t != s.cur[0] && t != s.cur[1] && s.pool[t].state != Blocked && s.pool[t].state != Zombie
    ensures Inv(Kill(s, 0, t)) && Inv(Kill(s, 1, t))
  {
    var d := SetState(DropReady(s, t), t, Zombie);
    var s' := d.(doomed := d.doomed + {t});
    assert Ok(ViewOf(s, t));
    forall x | 0 <= x < MAX_THREADS
      ensures Ok(ViewOf(s', x))
    {
      assert Ok(ViewOf(s, x));
      assert Waits(s', x) == Waits(s, x);
    }
  }

  lemma FreeKeepsInv(s: Sys, t: nat)
    requires Inv(s) && CanHappen(s, DoFree(t))
    ensures Inv(FreeThread(s, t))
  {
    var s' := FreeThread(s, t);
    assert Ok(ViewOf(s, t));
    forall x | 0 <= x < MAX_THREADS
      ensures Ok(ViewOf(s', x))
    {
      assert Ok(ViewOf(s, x));
      assert Waits(s', x) == Waits(s, x);
    }
  }

  // ---- blocking ----------------------------------------------------------------------

  lemma {:induction false} RemoveLast(q: seq<nat>, t: nat)
    requires t !in q
    ensures Remove(q + [t], t) == q
  {
    if q != [] {
      RemoveLast(q[1..], t);
      assert (q + [t])[1..] == q[1..] + [t];
    }
  }

  /**
   What the composed blocking path does: the caller is last on the waiter list, and its
   ready queue is cut down to the part in front of the caller.
   */
  lemma BlockEffect(s: Sys, c: nat, o: nat, mask: bv32, all: bool)
    requires Shape(s) && c < 2 && o < |s.waiting|
    ensures
      var t, s' := s.cur[c], Block(s, c, o, mask, all);
      && s'.ready == s.ready[Prio(s, t) := Front(s.ready[Prio(s, t)], t)]
      && s'.waiting == s.waiting[o := s.waiting[o] + [t]]
      && s'.pool == s.pool[t := s.pool[t].(state := Blocked)]
      && s'.entries == (if s.isEvent[o] then AllocEntry(s.entries, Held(t, mask, all)) else s.entries)
      && (s'.isEvent, s'.cur, s'.idle, s'.doomed, s'.freed, s'.nextTid, s'.resumed)
         == (s.isEvent, s.cur, s.idle, s.doomed, s.freed, s.nextTid, s.resumed)
  {
    var t := s.cur[c];
    RemoveLast(Front(s.ready[Prio(s, t)], t), t);
  }

  function Threads(es: seq<Entry>): set<nat> {
    set i | 0 <= i < |es| && es[i].Held? :: es[i].thread
  }

  /** A full pool of distinct threads names as many threads as it has slots. */
  lemma {:induction false} FullPoolCount(es: seq<Entry>)
    requires DistinctEntries(es) && Vacant !in es
    ensures |Threads(es)| == |es|
  {
    if es == [] {
      assert Threads(es) == {};
    } else {
      var init, last := es[..|es| - 1], es[|es| - 1];
      assert forall i :: 0 <= i < |init| ==> init[i] == es[i];
      FullPoolCount(init);
      assert last in es;
      assert Threads(es) == Threads(init) + {last.thread};
    }
  }

  /**
   event_waiter_alloc cannot fail: as many slots as TCBs, one per listed thread, and the
   caller is not listed.
   */
  lemma AllocCannotFail(s: Sys, t: nat)
    requires Inv(s) && t < MAX_THREADS && !Waits(s, t)
    ensures Vacant in s.entries
    ensures !HasEntry(s.entries, t)
  {
    assert !WaitsOnEvent(s, t);
    if Vacant !in s.entries {
      FullPoolCount(s.entries);
      var all := FirstNumbers(MAX_THREADS);
      forall x | x in Threads(s.entries)
        ensures x in all && x != t
      {
        assert HasEntry(s.entries, x);
        assert WaitsOnEvent(s, x);
      }
      assert Threads(s.entries) <= all - {t};
      SubsetCount(Threads(s.entries), all - {t});
      assert false;
    }
  }

  /** Joining waiter list o adds t, and nobody else, to the waiting threads. */
  lemma JoinWaits(s: Sys, s': Sys, o: nat, t: nat, x: nat)
    requires o < |s.waiting| == |s.isEvent| && s'.isEvent == s.isEvent
    requires s'.waiting == s.waiting[o := s.waiting[o] + [t]]
    requires Shape(s) && Shape(s')
    ensures Waits(s', x) <==> Waits(s, x) || x == t
    ensures WaitsOnEvent(s', x) <==> WaitsOnEvent(s, x) || (x == t && s.isEvent[o])
  {
    assert t in s'.waiting[o];
    if Waits(s, x) {
      var u :| 0 <= u < |s.waiting| && x in s.waiting[u];
      assert x in s'.waiting[u];
    }
    if WaitsOnEvent(s, x) {
      var u :| 0 <= u < |s.waiting| && s.isEvent[u] && x in s.waiting[u];
      assert x in s'.waiting[u];
    }
  }

  lemma BlockKeepsEntries(s: Sys, c: nat, o: nat, mask: bv32, all: bool)
    requires Inv(s) && CanHappen(s, DoBlock(c, o, mask, all))
    ensures EntriesOk(Block(s, c, o, mask, all))
  {
    var t, s' := s.cur[c], Block(s, c, o, mask, all);
    BlockEffect(s, c, o, mask, all);
    assert Ok(ViewOf(s, t));
    AllocCannotFail(s, t);
    var k := FindVacant(s.entries);
    assert k < |s.entries|;
    forall x
      ensures HasEntry(s'.entries, x) <==> WaitsOnEvent(s', x)
    {
      EntryAdded(s.entries, k, Held(t, mask, all), x);
      JoinWaits(s, s', o, t, x);
    }
    EntryStaysDistinct(s.entries, k, Held(t, mask, all));
  }

  lemma EntryStaysDistinct(es: seq<Entry>, k: nat, e: Entry)
    requires DistinctEntries(es) && k < |es| && e.Held? && !HasEntry(es, e.thread)
    ensures DistinctEntries(es[k := e])
  {
    assert forall i :: 0 <= i < |es| && es[i].Held? ==> es[i].thread != e.thread;
  }

  lemma EntryAdded(es: seq<Entry>, k: nat, e: Entry, x: nat)
    requires k < |es| && es[k] == Vacant && e.Held?
    ensures HasEntry(es[k := e], x) <==> HasEntry(es, x) || x == e.thread
  {
    if HasEntry(es, x) {
      var i :| 0 <= i < |es| && es[i].Held? && es[i].thread == x;
      assert es[k := e][i] == es[i];
    }
    assert es[k := e][k] == e;
  }

  /** A prefix of a well-formed ready queue is well formed; t and its followers are gone. */
  lemma CutReady(s: Sys, t: nat, x: nat)
    requires Shape(s) && ReadyLists(s) && t < MAX_THREADS
    ensures
      var q, f := s.ready[Prio(s, t)], Front(s.ready[Prio(s, t)], t);
      NoDup(f) && t !in f && (x in f ==> x in q && x < MAX_THREADS && Prio(s, x) == Prio(s, t))
  {
    var q, f := s.ready[Prio(s, t)], Front(s.ready[Prio(s, t)], t);
    assert NoDup(q);
    assert forall i :: 0 <= i < |f| ==> f[i] == q[i];
  }

  lemma BlockKeepsReady(s: Sys, c: nat, o: nat, mask: bv32, all: bool)
    requires Inv(s) && CanHappen(s, DoBlock(c, o, mask, all))
    ensures ReadyLists(Block(s, c, o, mask, all))
    ensures forall x :: 0 <= x < MAX_THREADS && OnReady(Block(s, c, o, mask, all), x) ==> OnReady(s, x) && x != s.cur[c]
  {
    var t, s' := s.cur[c], Block(s, c, o, mask, all);
    BlockEffect(s, c, o, mask, all);
    forall x: nat
      ensures x in Front(s.ready[Prio(s, t)], t) ==>
                x in s.ready[Prio(s, t)] && x != t && x < MAX_THREADS && Prio(s, x) == Prio(s, t)
    {
      CutReady(s, t, x);
    }
    CutReady(s, t, 0);
    ReadyFrom(s, s', Prio(s, t), Front(s.ready[Prio(s, t)], t));
  }

  /** Replacing one queue by a duplicate-free selection of its own members. */
  lemma ReadyFrom(s: Sys, s': Sys, p: nat, f: seq<nat>)
    requires Shape(s) && Shape(s') && ReadyLists(s) && p < NUM_PRIORITIES
    requires s'.ready == s.ready[p := f] && NoDup(f)
    requires forall x :: x in f ==> x in s.ready[p]
    requires forall x :: 0 <= x < MAX_THREADS ==> Prio(s', x) == Prio(s, x)
    ensures ReadyLists(s')
  {
  }

  lemma BlockKeepsWaiting(s: Sys, c: nat, o: nat, mask: bv32, all: bool)
    requires Inv(s) && CanHappen(s, DoBlock(c, o, mask, all))
    ensures WaitLists(Block(s, c, o, mask, all))
  {
    var t, s' := s.cur[c], Block(s, c, o, mask, all);
    BlockEffect(s, c, o, mask, all);
    assert Ok(ViewOf(s, t));
    assert !Waits(s, t);
    JoinedWaitLists(s, s', o, t);
  }

  lemma JoinedWaitLists(s: Sys, s': Sys, o: nat, t: nat)
    requires WaitLists(s) && o < |s.waiting| && t < MAX_THREADS && !Waits(s, t)
    requires s'.waiting == s.waiting[o := s.waiting[o] + [t]]
    ensures WaitLists(s')
  {
    assert forall u :: 0 <= u < |s.waiting| ==> t !in s.waiting[u];
    assert forall u, x :: 0 <= u < |s.waiting| && x in s'.waiting[u] ==> x in s.waiting[u] || (u == o && x == t);
  }

  lemma BlockKeepsIdle(s: Sys, c: nat, o: nat, mask: bv32, all: bool)
    requires Shape(s) && CanHappen(s, DoBlock(c, o, mask, all)) && !IdleBehind(s, s.cur[c])
    requires IdleOk(s, 0) && IdleOk(s, 1)
    ensures IdleOk(Block(s, c, o, mask, all), 0) && IdleOk(Block(s, c, o, mask, all), 1)
  {
    var t, s' := s.cur[c], Block(s, c, o, mask, all);
    BlockEffect(s, c, o, mask, all);
    KeptIdle(s, s', t, 0);
    KeptIdle(s, s', t, 1);
  }

  /** An idle thread that is not behind t survives the cut at t. */
  lemma KeptIdle(s: Sys, s': Sys, t: nat, d: nat)
    requires Shape(s) && t < MAX_THREADS && d < 2 && IdleOk(s, d) && !IdleBehind(s, t) && t != s.idle[d] && Shape(s')
    requires s'.ready == s.ready[Prio(s, t) := Front(s.ready[Prio(s, t)], t)]
    requires s'.pool == s.pool[t := s'.pool[t]] && s'.idle == s.idle && s'.cur == s.cur
    ensures IdleOk(s', d)
  {
    var i, q := s.idle[d], s.ready[Prio(s, t)];
    assert s'.pool[i] == s.pool[i] && Prio(s', i) == Prio(s, i);
    if Prio(s, i) == Prio(s, t) {
      assert t in q ==> i in Front(q, t);
    }
  }

  lemma BlockKeepsInv(s: Sys, c: nat, o: nat, mask: bv32, all: bool)
    requires Inv(s) && CanHappen(s, DoBlock(c, o, mask, all)) && !IdleBehind(s, s.cur[c])
    ensures Inv(Block(s, c, o, mask, all))
  {
    BlockKeepsEntries(s, c, o, mask, all);
    BlockKeepsReady(s, c, o, mask, all);
    BlockKeepsWaiting(s, c, o, mask, all);
    BlockKeepsIdle(s, c, o, mask, all);
    BlockKeepsViews(s, c, o, mask, all);
    BlockKeepsTids(s, c, o, mask, all);
  }

  lemma BlockKeepsTids(s: Sys, c: nat, o: nat, mask: bv32, all: bool)
    requires Shape(s) && Tids(s) && CanHappen(s, DoBlock(c, o, mask, all))
    ensures
      var s' := Block(s, c, o, mask, all);
      Shape(s') && Tids(s') && s'.cur == s.cur && s'.idle == s.idle && s'.resumed == s.resumed
  {
    BlockEffect(s, c, o, mask, all);
  }

  lemma BlockKeepsViews(s: Sys, c: nat, o: nat, mask: bv32, all: bool)
    requires Inv(s) && CanHappen(s, DoBlock(c, o, mask, all))
    ensures Views(Block(s, c, o, mask, all))
  {
    var t, s' := s.cur[c], Block(s, c, o, mask, all);
    BlockEffect(s, c, o, mask, all);
    BlockKeepsReady(s, c, o, mask, all);
    forall x | 0 <= x < MAX_THREADS
      ensures Ok(ViewOf(s', x))
    {
      assert Ok(ViewOf(s, x));
      JoinWaits(s, s', o, t, x);
    }
  }

  // ---- waking ------------------------------------------------------------------------

  /** Leaving waiter list o removes t, and nobody else, from the waiting threads. */
  lemma LeaveWaits(s: Sys, s': Sys, o: nat, t: nat, x: nat)
    requires Shape(s) && Shape(s') && WaitLists(s) && o < |s.waiting| && t in s.waiting[o]
    requires s'.isEvent == s.isEvent && s'.waiting == s.waiting[o := Remove(s.waiting[o], t)]
    ensures Waits(s', x) <==> Waits(s, x) && x != t
    ensures WaitsOnEvent(s', x) <==> WaitsOnEvent(s, x) && x != t
  {
    assert NoDup(s.waiting[o]);
    if Waits(s, x) && x != t {
      var u :| 0 <= u < |s.waiting| && x in s.waiting[u];
      assert x in s'.waiting[u];
    }
    if WaitsOnEvent(s, x) && x != t {
      var u :| 0 <= u < |s.waiting| && s.isEvent[u] && x in s.waiting[u];
      assert x in s'.waiting[u];
    }
  }

  lemma EntryRemoved(es: seq<Entry>, t: nat, x: nat)
    requires DistinctEntries(es)
    ensures HasEntry(FreeEntry(es, t), x) <==> HasEntry(es, x) && x != t
    ensures DistinctEntries(FreeEntry(es, t))
  {
    var k, r := FindEntry(es, t), FreeEntry(es, t);
    if HasEntry(es, x) && x != t {
      var i :| 0 <= i < |es| && es[i].Held? && es[i].thread == x;
      assert r[i] == es[i];
    }
  }

  lemma UnblockKeepsEntries(s: Sys, o: nat, t: nat)
    requires Inv(s) && CanHappen(s, DoUnblock(o, t))
    ensures EntriesOk(Unblock(s, o, t))
  {
    var s' := Unblock(s, o, t);
    forall x
      ensures HasEntry(s'.entries, x) <==> WaitsOnEvent(s', x)
    {
      EntryRemoved(s.entries, t, x);
      LeaveWaits(s, s', o, t, x);
      assert s.isEvent[o] ==> WaitsOnEvent(s, t);
      if !s.isEvent[o] {
        assert !WaitsOnEvent(s, t);
      }
    }
    EntryRemoved(s.entries, t, t);
  }

  lemma UnblockKeepsLists(s: Sys, o: nat, t: nat)
    requires Inv(s) && CanHappen(s, DoUnblock(o, t))
    ensures ReadyLists(Unblock(s, o, t)) && WaitLists(Unblock(s, o, t))
  {
    assert Waits(s, t);
    assert Ok(ViewOf(s, t));
    assert NoDup(s.waiting[o]);
  }

  lemma UnblockKeepsViews(s: Sys, o: nat, t: nat)
    requires Shape(s) && s.cur[0] != s.cur[1] && Views(s) && WaitLists(s) && CanHappen(s, DoUnblock(o, t))
    ensures Views(Unblock(s, o, t))
  {
    var s' := Unblock(s, o, t);
    assert Waits(s, t);
    assert Ok(ViewOf(s, t));
    forall x | 0 <= x < MAX_THREADS
      ensures Ok(ViewOf(s', x))
    {
      assert Ok(ViewOf(s, x));
      LeaveWaits(s, s', o, t, x);
    }
  }

  lemma UnblockKeepsIdle(s: Sys, o: nat, t: nat)
    requires Shape(s) && Views(s) && CanHappen(s, DoUnblock(o, t)) && IdleOk(s, 0) && IdleOk(s, 1)
    ensures IdleOk(Unblock(s, o, t), 0) && IdleOk(Unblock(s, o, t), 1)
  {
    assert Waits(s, t);
    assert Ok(ViewOf(s, t));
  }

  lemma UnblockKeepsInv(s: Sys, o: nat, t: nat)
    requires Inv(s) && CanHappen(s, DoUnblock(o, t))
    ensures Inv(Unblock(s, o, t))
  {
    UnblockKeepsEntries(s, o, t);
    UnblockKeepsLists(s, o, t);
    UnblockKeepsViews(s, o, t);
    UnblockKeepsIdle(s, o, t);
    assert Tids(Unblock(s, o, t));
  }

  // ---- switching ---------------------------------------------------------------------

  /** The view of x while core c is between two threads. */
  ghost function OffView(s: Sys, c: nat, x: nat): View
    requires Shape(s) && c < 2 && x < MAX_THREADS
  {
    View(s.pool[x], OnReady(s, x), Waits(s, x), c == 1 && s.cur[0] == x, c == 0 && s.cur[1] == x, x in s.doomed)
  }

  /** Everything but the views, which hold only once core c has a thread again. */
  ghost predicate Between(s: Sys, c: nat)
    requires c < 2
  {
    && Shape(s)
    && (forall x :: 0 <= x < MAX_THREADS ==> Ok(OffView(s, c, x)))
    && s.idle[0] != s.idle[1] && s.resumed == [false, false]
    && ReadyLists(s) && WaitLists(s) && EntriesOk(s) && Tids(s)
    && IdleOk(s, 0) && IdleOk(s, 1)
    && s.pool[s.idle[c]].state == Ready
  }

  /** The outgoing thread stays allocated. */
  lemma DepartedAlive(s: Sys, c: nat)
    requires Inv(s) && c < 2 && !Reaps(s, c)
    ensures Between(Departed(s, c), c)
  {
    var t := s.cur[c];
    var tcb := OutTcb(s.pool[t]);
    assert Ok(ViewOf(s, t));
    TcbKeepsRest(s, t, tcb);
    TcbKeepsIdle(s, t, tcb);
    DepartedViews(s, c);
    assert Ok(OffView(Departed(s, c), c, s.idle[c]));
  }

  lemma DepartedViews(s: Sys, c: nat)
    requires Shape(s) && s.cur[0] != s.cur[1] && Views(s) && ReadyLists(s) && c < 2 && !Reaps(s, c)
    ensures forall x :: 0 <= x < MAX_THREADS ==> Ok(OffView(Departed(s, c), c, x))
  {
    var t, d := s.cur[c], Departed(s, c);
    assert Ok(ViewOf(s, t));
    forall x | 0 <= x < MAX_THREADS
      ensures Ok(OffView(d, c, x))
    {
      assert Ok(ViewOf(s, x));
      assert Prio(d, x) == Prio(s, x) && Waits(d, x) == Waits(s, x);
    }
  }

  /** The outgoing thread is taken off its queue and freed. */
  lemma DepartedReaped(s: Sys, c: nat)
    requires Inv(s) && c < 2 && Reaps(s, c)
    ensures Between(Departed(s, c), c)
  {
    var t, d := s.cur[c], Departed(s, c);
    ReapedLists(s, c);
    ReapedEntries(s, c);
    forall x | 0 <= x < MAX_THREADS
      ensures Ok(OffView(d, c, x))
    {
      assert Ok(ViewOf(s, x));
      assert Waits(d, x) == Waits(s, x);
    }
    assert Ok(OffView(d, c, s.idle[c]));
  }

  lemma ReapedEntries(s: Sys, c: nat)
    requires Inv(s) && c < 2 && Reaps(s, c)
    ensures EntriesOk(Departed(s, c))
    ensures IdleOk(Departed(s, c), 0) && IdleOk(Departed(s, c), 1)
  {
    var t, d := s.cur[c], Departed(s, c);
    assert Ok(ViewOf(s, t));
    assert t !in s.idle;
    assert NoDup(s.ready[Prio(s, t)]);
    assert forall x :: WaitsOnEvent(d, x) == WaitsOnEvent(s, x);
  }

  lemma ReapedLists(s: Sys, c: nat)
    requires Inv(s) && c < 2 && Reaps(s, c)
    ensures
      var t, d := s.cur[c], Departed(s, c);
      && ReadyLists(d) && Tids(d) && (forall p :: 0 <= p < NUM_PRIORITIES ==> t !in d.ready[p])
  {
    var t, d := s.cur[c], Departed(s, c);
    assert Ok(ViewOf(s, t));
    assert NoDup(s.ready[Prio(s, t)]);
    assert d.ready == s.ready[Prio(s, t) := Remove(s.ready[Prio(s, t)], t)];
    assert d.pool == s.pool[t := FREE_TCB];
    assert d.freed == s.freed + [s.pool[t].tid];
  }

  /** The queues a selection leaves behind have the same members as before. */
  lemma {:induction false} SelectKeepsMembers(pool: seq<Tcb>, ready: seq<seq<nat>>, c: nat, other: nat, out: int,
          p: nat)
    requires p <= |ready|
    ensures forall k :: 0 <= k < |ready| ==> SameMembers(ready[k], Select(pool, ready, c, other, out, p).0[k])
    decreases |ready| - p
  {
    if p < |ready| {
      SelectKeepsMembers(pool, ready[p := Rotate(pool, out, ready[p])], c, other, out, p + 1);
    }
  }

  /** What a selection returns; k is the queue the choice comes from. */
  lemma {:induction false} SelectSpec(pool: seq<Tcb>, ready: seq<seq<nat>>, c: nat, other: nat, out: int, p: nat)
    returns (k: nat)
    requires p <= |ready|
    ensures
      var t := Select(pool, ready, c, other, out, p).1;
      && p <= k <= |ready|
      && (t == NULL <==> k == |ready|)
      && (forall j, x :: p <= j < k && x in ready[j] ==> !Eligible(pool, c, other, x))
      && (t != NULL ==> && 0 <= t && t in ready[k] && Eligible(pool, c, other, t)
                        && forall x :: x in Front(Rotate(pool, out, ready[k]), t) ==> !Eligible(pool, c, other, x))
    decreases |ready| - p
  {
    if p == |ready| {
      k := p;
    } else {
      var q := Rotate(pool, out, ready[p]);
      assert SameMembers(ready[p], q);
      if PickIn(pool, c, other, q) != NULL {
        k := p;
      } else {
        assert forall x :: x in ready[p] ==> x in q;
        var rotated := ready[p := q];
        k := SelectSpec(pool, rotated, c, other, out, p + 1);
        forall j, x | p <= j < k && x in ready[j]
          ensures !Eligible(pool, c, other, x)
        {
          assert j > p ==> x in rotated[j];
        }
        assert k < |ready| ==> rotated[k] == ready[k];
      }
    }
  }

  /** The idle thread of a core is always eligible there, so a switch always finds a thread. */
  lemma SwitchFinds(s: Sys, c: nat) returns (k: nat)
    requires c < 2 && Inv(s)
    ensures
      var d, t := Departed(s, c), Choice(s, c).1;
      && Between(d, c) && k < NUM_PRIORITIES
      && 0 <= t < MAX_THREADS && t in d.ready[k] && Eligible(d.pool, c, s.cur[1 - c], t)
  {
    if Reaps(s, c) {
      DepartedReaped(s, c);
    } else {
      DepartedAlive(s, c);
    }
    var d := Departed(s, c);
    k := SelectSpec(d.pool, d.ready, c, s.cur[1 - c], if Reaps(s, c) then NULL else s.cur[c], 0);
    var i := s.idle[c];
    assert Eligible(d.pool, c, s.cur[1 - c], i);
    assert i in d.ready[Prio(d, i)];
  }

  lemma ChoiceKeepsMembers(s: Sys, c: nat)
    requires Shape(s) && c < 2
    ensures forall k :: 0 <= k < NUM_PRIORITIES ==> SameMembers(Departed(s, c).ready[k], Choice(s, c).0[k])
  {
    var d := Departed(s, c);
    SelectKeepsMembers(d.pool, d.ready, c, s.cur[1 - c], if Reaps(s, c) then NULL else s.cur[c], 0);
  }

  lemma SwitchKeepsInv(s: Sys, c: nat)
    requires Inv(s) && c < 2
    ensures Inv(Switch(s, c))
  {
    var k := SwitchFinds(s, c);
    ChoiceKeepsMembers(s, c);
    var d := Departed(s, c);
    DispatchFrom(d, Choice(s, c).0, c, Choice(s, c).1, k);
    assert d.cur == s.cur;
  }

  /** From a core without a thread to one with t, taken from queue k, the queues permuted. */
  lemma DispatchFrom(d: Sys, ready: seq<seq<nat>>, c: nat, t: nat, k: nat)
    requires c < 2 && Between(d, c) && |ready| == NUM_PRIORITIES && k < NUM_PRIORITIES && t < MAX_THREADS
    requires forall j :: 0 <= j < NUM_PRIORITIES ==> SameMembers(d.ready[j], ready[j])
    requires t in d.ready[k] && Eligible(d.pool, c, d.cur[1 - c], t)
    ensures Inv(SetState(d.(ready := ready), t, Running).(cur := d.cur[c := t], resumed := d.resumed[c := false]))
  {
    var e := d.(ready := ready);
    PermutedBetween(d, e, c);
    assert t in ready[k];
    Dispatch(e, c, t);
  }

  lemma PermutedBetween(d: Sys, e: Sys, c: nat)
    requires c < 2 && Between(d, c) && |e.ready| == NUM_PRIORITIES && e == d.(ready := e.ready)
    requires forall k :: 0 <= k < NUM_PRIORITIES ==> SameMembers(d.ready[k], e.ready[k])
    ensures Between(e, c)
  {
    PermuteReady(d, e);
    forall x | 0 <= x < MAX_THREADS
      ensures Ok(OffView(e, c, x))
    {
      assert Ok(OffView(d, c, x));
    }
  }

  lemma PermuteReady(d: Sys, e: Sys)
    requires Shape(d) && ReadyLists(d) && |e.ready| == NUM_PRIORITIES && e == d.(ready := e.ready)
    requires forall k :: 0 <= k < NUM_PRIORITIES ==> SameMembers(d.ready[k], e.ready[k])
    ensures ReadyLists(e)
    ensures forall x :: 0 <= x < MAX_THREADS ==> OnReady(e, x) == OnReady(d, x) && Waits(e, x) == Waits(d, x)
    ensures forall x :: WaitsOnEvent(e, x) == WaitsOnEvent(d, x)
  {
    assert forall x :: 0 <= x < MAX_THREADS ==> Prio(e, x) == Prio(d, x);
  }

  /** Making an eligible queued thread current on core c. */
  lemma Dispatch(e: Sys, c: nat, t: nat)
    requires c < 2 && Between(e, c) && t < MAX_THREADS && OnReady(e, t)
    requires Eligible(e.pool, c, e.cur[1 - c], t)
    ensures Inv(SetState(e, t, Running).(cur := e.cur[c := t], resumed := e.resumed[c := false]))
  {
    var s' := SetState(e, t, Running).(cur := e.cur[c := t], resumed := e.resumed[c := false]);
    TcbKeepsRest(e, t, e.pool[t].(state := Running));
    assert Ok(OffView(e, c, t));
    forall x | 0 <= x < MAX_THREADS
      ensures Ok(ViewOf(s', x))
    {
      assert Ok(OffView(e, c, x));
      assert Waits(s', x) == Waits(e, x);
    }
    assert EntriesOk(s');
  }
}
