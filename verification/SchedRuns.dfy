/**
 Safety of the two-core kernel over whole runs: who frees a killed thread, what is on
 the ready queues, and what each switch picks.
 */
module SchedRuns {
  import opened Links
  import opened SchedSpec
  import opened SchedInv

  /** A step that keeps the idle threads queued: no blocking call ahead of one. */
  ghost predicate Legal(s: Sys, step: Step)
    requires Shape(s)
  {
    CanHappen(s, step) && (step.DoBlock? ==> !IdleBehind(s, s.cur[step.c]))
  }

  lemma StepKeepsInv(s: Sys, step: Step)
    requires Inv(s) && Legal(s, step)
    ensures Inv(Next(s, step))
  {
    match step
    case DoCreate(priority, memory) => CreateKeepsInv(s, priority, memory);
    case DoBlock(c, o, mask, all) => BlockKeepsInv(s, c, o, mask, all);
    case DoUnblock(o, t) => UnblockKeepsInv(s, o, t);
    case DoSleep(c, wakeTime) => SleepKeepsInv(s, c, wakeTime);
    case DoWake(t) => WakeKeepsInv(s, t);
    case DoExit(c) => ExitKeepsInv(s, c);
    case DoKill(c, t) => KillKeepsInv(s, c, t);
    case DoFree(t) => FreeKeepsInv(s, t);
    case DoSwitch(c) => SwitchKeepsInv(s, c);
    case DoSetAffinity(c, affinity) => SetAffinityKeepsInv(s, c, affinity);
  }

  /** Steps that can be taken one after the other, guarded or not. */
  ghost predicate Run(s: Sys, steps: seq<Step>)
    decreases |steps|
  {
    Shape(s) && (steps != [] ==> CanHappen(s, steps[0]) && Run(Next(s, steps[0]), steps[1..]))
  }

  /** steps can be taken one after the other from s, each of them legal. */
  ghost predicate LegalRun(s: Sys, steps: seq<Step>)
    decreases |steps|
  {
    Shape(s) && (steps != [] ==> Legal(s, steps[0]) && LegalRun(Next(s, steps[0]), steps[1..]))
  }

  ghost function End(s: Sys, steps: seq<Step>): (e: Sys)
    requires LegalRun(s, steps)
    ensures Shape(e)
    decreases |steps|
  {
    if steps == [] then s else End(Next(s, steps[0]), steps[1..])
  }

  lemma {:induction false} RunKeepsInv(s: Sys, steps: seq<Step>)
    requires Inv(s) && LegalRun(s, steps)
    ensures Inv(End(s, steps))
    decreases |steps|
  {
    if steps != [] {
      StepKeepsInv(s, steps[0]);
      RunKeepsInv(Next(s, steps[0]), steps[1..]);
    }
  }

  // ---- freeing -------------------------------------------------------------------------

  /** The slot a step frees. */
  ghost predicate Frees(s: Sys, step: Step, t: nat)
    requires Shape(s) && CanHappen(s, step)
  {
    || (step.DoFree? && t == step.t)
    || (step.DoSwitch? && t == s.cur[step.c] && Reaps(s, step.c))
  }

  /**
   Nothing refers to t any more: no ready queue (a switch has just unlinked it), no waiter
   list, no event-pool slot, and no core but the one that is leaving it.
   */
  ghost predicate Unreferenced(s: Sys, step: Step, t: nat)
    requires Shape(s) && CanHappen(s, step) && t < MAX_THREADS
  {
    var s' := Next(s, step);
    && (forall p :: 0 <= p < NUM_PRIORITIES ==> t !in s'.ready[p] && (step.DoFree? ==> t !in s.ready[p]))
    && (forall o :: 0 <= o < |s.waiting| ==> t !in s.waiting[o])
    && !HasEntry(s.entries, t)
    && (forall c :: 0 <= c < 2 && s.cur[c] == t ==> step == DoSwitch(c))
    && t !in s'.cur
  }

  lemma FreeIsSafe(s: Sys, step: Step, t: nat)
    requires Inv(s) && CanHappen(s, step) && Frees(s, step, t)
    ensures t < MAX_THREADS && s.pool[t].used && Unreferenced(s, step, t)
    ensures Next(s, step).freed == s.freed + [s.pool[t].tid]
  {
    assert Ok(ViewOf(s, t));
    NotWaiting(s, t);
    if step.DoSwitch? {
      ReapLeavesQueues(s, step.c);
    } else {
      DoomedIsOff(s, t);
    }
  }

  lemma DoomedIsOff(s: Sys, t: nat)
    requires Shape(s) && ReadyLists(s) && t < MAX_THREADS && Ok(ViewOf(s, t)) && t in s.doomed
    ensures forall p :: 0 <= p < NUM_PRIORITIES ==> t !in s.ready[p]
    ensures t !in s.cur
  {
  }

  lemma NotWaiting(s: Sys, t: nat)
    requires Shape(s) && EntriesOk(s) && !Waits(s, t)
    ensures forall o :: 0 <= o < |s.waiting| ==> t !in s.waiting[o]
    ensures !HasEntry(s.entries, t)
  {
    assert !WaitsOnEvent(s, t);
  }

  lemma ReapLeavesQueues(s: Sys, c: nat)
    requires Inv(s) && c < 2 && Reaps(s, c)
    ensures forall p :: 0 <= p < NUM_PRIORITIES ==> s.cur[c] !in Switch(s, c).ready[p]
    ensures Switch(s, c).freed == s.freed + [s.pool[s.cur[c]].tid]
    ensures s.cur[c] !in Switch(s, c).cur
  {
    ReapedLists(s, c);
    ChoiceKeepsMembers(s, c);
    var k := SwitchFinds(s, c);
    assert Eligible(Departed(s, c).pool, c, s.cur[1 - c], Choice(s, c).1);
  }

  /** Other steps free nothing. */
  lemma OnlyFreesFree(s: Sys, step: Step)
    requires Inv(s) && CanHappen(s, step) && forall t :: !Frees(s, step, t)
    ensures Next(s, step).freed == s.freed
  {
    if step.DoSwitch? {
      assert !Frees(s, step, s.cur[step.c]);
      assert Departed(s, step.c).freed == s.freed;
    } else if step.DoFree? {
      assert Frees(s, step, step.t);
    }
  }

  /**
   Over every legal run: each incarnation is freed at most once, a thread ID in the log never
   belongs to a live TCB, and the next free, whichever it is, finds the thread unreferenced.
   */
  lemma FreedOnceAndUnreferenced(s: Sys, steps: seq<Step>, step: Step, t: nat)
    requires Inv(s) && LegalRun(s, steps)
    ensures NoDup(End(s, steps).freed)
    ensures forall i :: 0 <= i < MAX_THREADS && End(s, steps).pool[i].used ==>
            End(s, steps).pool[i].tid !in End(s, steps).freed
    ensures
      CanHappen(End(s, steps), step) && Frees(End(s, steps), step, t) ==>
        t < MAX_THREADS && Unreferenced(End(s, steps), step, t)
  {
    RunKeepsInv(s, steps);
    var e := End(s, steps);
    if CanHappen(e, step) && Frees(e, step, t) {
      FreeIsSafe(e, step, t);
    }
  }

  /** Spelled out: where a freed thread is not, before and after. */
  lemma FreedIsNowhere(s: Sys, steps: seq<Step>, step: Step, t: nat, e: Sys, e': Sys)
    requires Inv(s) && LegalRun(s, steps) && e == End(s, steps) && CanHappen(e, step) && e' == Next(e, step)
    requires t < MAX_THREADS && e.pool[t].used && !e'.pool[t].used
    ensures forall p :: 0 <= p < 8 ==> t !in e'.ready[p]
    ensures forall o :: 0 <= o < |e.waiting| == |e'.waiting| ==> t !in e.waiting[o] && t !in e'.waiting[o]
    ensures forall k :: 0 <= k < 16 && e.entries[k].Held? ==> e.entries[k].thread != t
    ensures t !in e'.cur && (t in e.cur ==> step.DoSwitch? && e.cur[step.c] == t)
    ensures t !in e.cur ==> forall p :: 0 <= p < 8 ==> t !in e.ready[p]
    ensures e'.freed == e.freed + [e.pool[t].tid] && e.pool[t].tid !in e.freed
  {
    RunKeepsInv(s, steps);
    if !Frees(e, step, t) {
      UsedStays(e, step, t);
    } else {
      FreeIsSafe(e, step, t);
    }
  }

  /** A slot in use is emptied by a free and by nothing else. */
  lemma UsedStays(s: Sys, step: Step, t: nat)
    requires Shape(s) && CanHappen(s, step) && t < MAX_THREADS && s.pool[t].used && !Frees(s, step, t)
    ensures Next(s, step).pool[t].used
  {
    if step.DoSwitch? {
      SwitchKeepsUsed(s, step.c, t, Departed(s, step.c));
    }
  }

  lemma SwitchKeepsUsed(s: Sys, c: nat, t: nat, d: Sys)
    requires Shape(s) && c < 2 && t < MAX_THREADS && s.pool[t].used && !(t == s.cur[c] && Reaps(s, c))
    requires d == Departed(s, c)
    ensures Switch(s, c).pool[t].used
  {
    assert d.pool[t].used;
  }

  /** A ZOMBIE has exactly one of the three parties of sched_kill to free it. */
  lemma ZombieHasOneReaper(s: Sys, steps: seq<Step>, t: nat)
    requires Inv(s) && LegalRun(s, steps) && t < MAX_THREADS && End(s, steps).pool[t].state == Zombie
    ensures
      var e := End(s, steps);
      var current, listed, doomed := t in e.cur, Waits(e, t), t in e.doomed;
      (current && !listed && !doomed) || (!current && listed && !doomed) || (!current && !listed && doomed)
  {
    RunKeepsInv(s, steps);
    assert Ok(ViewOf(End(s, steps), t));
  }

  // ---- who is where --------------------------------------------------------------------

  /** What the queues and the cores say about a thread after any legal run. */
  lemma CoresAndQueues(s: Sys, steps: seq<Step>, t: nat)
    requires Inv(s) && LegalRun(s, steps) && t < MAX_THREADS
    ensures
      var e := End(s, steps);
      && e.cur[0] != e.cur[1]
      && (e.pool[t].state == Running ==> (e.cur[0] == t) != (e.cur[1] == t))
      && (forall p :: 0 <= p < NUM_PRIORITIES && t in e.ready[p] ==>
            && (p == e.pool[t].priority || (p == 7 && e.pool[t].priority > 7))
            && (e.pool[t].state in {Ready, Running} || (e.pool[t].state == Zombie && t in e.cur)))
      && (forall p :: 0 <= p < NUM_PRIORITIES ==> NoDup(e.ready[p]))
  {
    RunKeepsInv(s, steps);
    assert Ok(ViewOf(End(s, steps), t));
  }

  /** Runnable threads and ZOMBIEs still on a core are all queued. */
  ghost predicate Full(s: Sys)
    requires Shape(s)
  {
    forall t :: 0 <= t < MAX_THREADS ==> Queued(s, t)
  }

  ghost predicate Queued(s: Sys, t: nat)
    requires Shape(s) && t < MAX_THREADS
  {
    s.pool[t].state in {Ready, Running} || (s.pool[t].state == Zombie && t in s.cur) ==> OnReady(s, t)
  }

  /** The caller of a blocking primitive is the last thread of its ready queue. */
  ghost predicate CallerLast(s: Sys, t: nat)
    requires Shape(s) && t < MAX_THREADS
  {
    var q := s.ready[Prio(s, t)];
    t in q && |Front(q, t)| == |q| - 1
  }

  /** Every step but the composed blocking path keeps all runnable threads queued. */
  lemma StepKeepsFull(s: Sys, step: Step)
    requires Inv(s) && Full(s) && CanHappen(s, step) && !step.DoBlock?
    ensures Full(Next(s, step))
  {
    var s' := Next(s, step);
    match step
    case DoSwitch(c) => SwitchKeepsFull(s, c);
    case DoKill(c, t) => KillKeepsFull(s, c, t);
    case DoSleep(c, wakeTime) => DropKeepsFull(s, s', s.cur[c]);
    case DoUnblock(o, t) => UnblockKeepsFull(s, o, t);
    case DoFree(t) => FreeKeepsFull(s, t);
    case DoCreate(priority, memory) => CreateKeepsFull(s, priority, memory);
    case DoWake(t) => WakeKeepsFull(s, t);
    case DoExit(c) => StateKeepsFull(s, s', s.cur[c]);
    case DoSetAffinity(c, affinity) => StateKeepsFull(s, s', s.cur[c]);
  }

  /** Changing the TCB of a runnable thread in place. */
  lemma StateKeepsFull(s: Sys, s': Sys, t: nat)
    requires Shape(s) && Full(s) && t < MAX_THREADS && Shape(s') && s'.ready == s.ready && s'.cur == s.cur
    requires s.pool[t].state in {Ready, Running} || (s.pool[t].state == Zombie && t in s.cur)
    requires s'.pool == s.pool[t := s'.pool[t]] && s'.pool[t].priority == s.pool[t].priority
    ensures Full(s')
  {
    forall x | 0 <= x < MAX_THREADS ensures Queued(s', x) { assert Queued(s, x); }
  }

  lemma WakeKeepsFull(s: Sys, t: nat)
    requires Shape(s) && Full(s) && t < MAX_THREADS
    ensures Full(Wake(s, t))
  {
    var s' := Wake(s, t);
    forall x | 0 <= x < MAX_THREADS ensures Queued(s', x) { assert Queued(s, x); }
  }

  /** Taking t off its queue on its way to a state in which it is not runnable. */
  lemma DropKeepsFull(s: Sys, s': Sys, t: nat)
    requires Shape(s) && ReadyLists(s) && Full(s) && t < MAX_THREADS && Shape(s')
    requires s'.ready == s.ready[Prio(s, t) := Remove(s.ready[Prio(s, t)], t)] && s'.cur == s.cur
    requires forall x :: 0 <= x < MAX_THREADS && x != t ==> s'.pool[x] == s.pool[x]
    requires s'.pool[t].state !in {Ready, Running} && (t in s.cur ==> s'.pool[t].state != Zombie)
    ensures Full(s')
  {
    assert NoDup(s.ready[Prio(s, t)]);
    forall x | 0 <= x < MAX_THREADS ensures Queued(s', x) { assert Queued(s, x); }
  }

  lemma KillKeepsFull(s: Sys, c: nat, t: nat)
    requires Inv(s) && Full(s) && CanHappen(s, DoKill(c, t))
    ensures Full(Kill(s, c, t))
  {
    if t != s.cur[0] && t != s.cur[1] && s.pool[t].state != Blocked && s.pool[t].state != Zombie {
      DoomKeepsFull(s, c, t);
    } else {
      MarkKeepsFull(s, c, t);
    }
  }

  lemma DoomKeepsFull(s: Sys, c: nat, t: nat)
    requires Shape(s) && ReadyLists(s) && Full(s) && c < 2 && t < MAX_THREADS
    requires t != s.cur[0] && t != s.cur[1] && s.pool[t].state != Blocked && s.pool[t].state != Zombie
    ensures Full(Kill(s, c, t))
  {
    DropKeepsFull(s, Kill(s, c, t), t);
  }

  lemma MarkKeepsFull(s: Sys, c: nat, t: nat)
    requires Shape(s) && Full(s) && s.resumed == [false, false] && CanHappen(s, DoKill(c, t))
    requires t == s.cur[0] || t == s.cur[1] || s.pool[t].state == Blocked || s.pool[t].state == Zombie
    ensures Full(Kill(s, c, t))
  {
    var s' := Kill(s, c, t);
    forall x | 0 <= x < MAX_THREADS ensures Queued(s', x) { assert Queued(s, x); }
  }

  lemma UnblockKeepsFull(s: Sys, o: nat, t: nat)
    requires Inv(s) && Full(s) && CanHappen(s, DoUnblock(o, t))
    ensures Full(Unblock(s, o, t))
  {
    var s' := Unblock(s, o, t);
    assert Waits(s, t);
    assert Ok(ViewOf(s, t));
    forall x | 0 <= x < MAX_THREADS ensures Queued(s', x) { assert Queued(s, x); }
  }

  lemma CreateKeepsFull(s: Sys, priority: nat, memory: bool)
    requires Inv(s) && Full(s)
    ensures Full(Create(s, priority, memory))
  {
    var s' := Create(s, priority, memory);
    forall x | 0 <= x < MAX_THREADS ensures Queued(s', x) { assert Queued(s, x); }
  }

  lemma FreeKeepsFull(s: Sys, t: nat)
    requires Shape(s) && Full(s) && t < MAX_THREADS
    ensures Full(FreeThread(s, t))
  {
    var s' := FreeThread(s, t);
    forall x | 0 <= x < MAX_THREADS ensures Queued(s', x) { assert Queued(s, x); }
  }

  /** Queued, while core c is between two threads. */
  ghost predicate QueuedOff(d: Sys, c: nat, x: nat)
    requires Shape(d) && c < 2 && x < MAX_THREADS
  {
    d.pool[x].state in {Ready, Running} || (d.pool[x].state == Zombie && x == d.cur[1 - c]) ==> OnReady(d, x)
  }

  lemma DepartedQueued(s: Sys, c: nat, x: nat)
    requires Inv(s) && Full(s) && c < 2 && x < MAX_THREADS
    ensures QueuedOff(Departed(s, c), c, x)
  {
    var t := s.cur[c];
    assert Queued(s, x);
    assert Ok(ViewOf(s, t));
    assert NoDup(s.ready[Prio(s, t)]);
  }

  lemma DispatchQueued(d: Sys, ready: seq<seq<nat>>, c: nat, t: nat, k: nat, x: nat)
    requires Shape(d) && c < 2 && |ready| == NUM_PRIORITIES && t < MAX_THREADS && x < MAX_THREADS && k < NUM_PRIORITIES
    requires forall j :: 0 <= j < NUM_PRIORITIES ==> SameMembers(d.ready[j], ready[j])
    requires t in d.ready[k] && ReadyLists(d) && QueuedOff(d, c, x)
    ensures Queued(SetState(d.(ready := ready), t, Running).(cur := d.cur[c := t], resumed := d.resumed[c := false]), x)
  {
    assert Prio(d, t) == k;
    assert SameMembers(d.ready[Prio(d, x)], ready[Prio(d, x)]);
  }

  lemma SwitchKeepsFull(s: Sys, c: nat)
    requires Inv(s) && Full(s) && c < 2
    ensures Full(Switch(s, c))
  {
    ChoiceKeepsMembers(s, c);
    var k := SwitchFinds(s, c);
    var d, ch := Departed(s, c), Choice(s, c);
    forall x | 0 <= x < MAX_THREADS
      ensures Queued(Switch(s, c), x)
    {
      DepartedQueued(s, c, x);
      DispatchQueued(d, ch.0, c, ch.1, k, x);
    }
  }

  /**
   The composed blocking path keeps all runnable threads queued exactly when the caller was
   the last thread of its ready queue.
   */
  lemma BlockKeepsFullIff(s: Sys, c: nat, o: nat, mask: bv32, all: bool)
    requires Inv(s) && Full(s) && CanHappen(s, DoBlock(c, o, mask, all))
    ensures Full(Block(s, c, o, mask, all)) <==> CallerLast(s, s.cur[c])
  {
    var t := s.cur[c];
    var q, f := s.ready[Prio(s, t)], Front(s.ready[Prio(s, t)], t);
    assert Queued(s, t);
    if |f| == |q| - 1 {
      assert q == f + [t];
      BlockLastKeepsFull(s, c, o, mask, all);
    } else {
      BlockDropsFollower(s, c, o, mask, all);
    }
  }

  lemma BlockLastKeepsFull(s: Sys, c: nat, o: nat, mask: bv32, all: bool)
    requires Shape(s) && Full(s) && c < 2 && o < |s.waiting|
    requires var t := s.cur[c]; s.ready[Prio(s, t)] == Front(s.ready[Prio(s, t)], t) + [t]
    ensures Full(Block(s, c, o, mask, all))
  {
    var t, s' := s.cur[c], Block(s, c, o, mask, all);
    BlockEffect(s, c, o, mask, all);
    forall x | 0 <= x < MAX_THREADS ensures Queued(s', x) { assert Queued(s, x); }
  }

  lemma FollowerOf(q: seq<nat>, t: nat) returns (x: nat)
    requires NoDup(q) && t in q && |Front(q, t)| != |q| - 1
    ensures x in q && x != t && x !in Front(q, t)
  {
    x := q[|Front(q, t)| + 1];
  }

  /** The thread right behind the caller stays runnable but is on no queue any more. */
  lemma BlockDropsFollower(s: Sys, c: nat, o: nat, mask: bv32, all: bool)
    requires Inv(s) && CanHappen(s, DoBlock(c, o, mask, all)) && OnReady(s, s.cur[c]) && !CallerLast(s, s.cur[c])
    ensures !Full(Block(s, c, o, mask, all))
  {
    var t, s' := s.cur[c], Block(s, c, o, mask, all);
    BlockEffect(s, c, o, mask, all);
    var q := s.ready[Prio(s, t)];
    assert NoDup(q);
    var x := FollowerOf(q, t);
    assert Prio(s', x) == Prio(s, x) == Prio(s, t);
    assert Ok(ViewOf(s, x));
    assert !Queued(s', x);
  }

  /**
   A switch always finds a thread: of the queued READY threads that fit the core and are
   not current on the other one, the first of the best priority, in queue order after the
   round-robin rotation.
   */
  lemma SwitchPicksBest(s: Sys, c: nat, x: nat)
    requires Inv(s) && c < 2 && x < MAX_THREADS
    ensures
      var d, s' := Departed(s, c), Switch(s, c);
      var t, out := s'.cur[c], if Reaps(s, c) then NULL else s.cur[c];
      && t < MAX_THREADS && s'.pool[t].state == Running && s'.cur[1 - c] == s.cur[1 - c]
      && Eligible(d.pool, c, s.cur[1 - c], t) && OnReady(d, t)
      && (OnReady(d, x) && Eligible(d.pool, c, s.cur[1 - c], x) ==>
            && Prio(d, t) <= Prio(d, x)
            && (Prio(d, x) == Prio(d, t) ==> x !in Front(Rotate(d.pool, out, d.ready[Prio(d, t)]), t)))
  {
    var d := Departed(s, c);
    var out := if Reaps(s, c) then NULL else s.cur[c];
    var i := SwitchFinds(s, c);
    var k := SelectSpec(d.pool, d.ready, c, s.cur[1 - c], out, 0);
    assert Prio(d, Choice(s, c).1) == k;
  }

  // ---- the two orders of the blocking path -----------------------------------------------

  /** The blocking path with its two calls the other way round. */
  function BlockSwapped(s: Sys, c: nat, o: nat, mask: bv32, all: bool): Sys
    requires Shape(s) && c < 2 && o < |s.waiting|
  {
    var t := s.cur[c];
    var e := if s.isEvent[o] then AllocEntry(s.entries, Held(t, mask, all)) else s.entries;
    WaiterEnqueue(SchedBlock(s.(entries := e), t), o, t)
  }

  lemma SwappedEffect(s: Sys, c: nat, o: nat, mask: bv32, all: bool)
    requires Shape(s) && c < 2 && o < |s.waiting|
    requires NoDup(s.ready[Prio(s, s.cur[c])])
    ensures
      var t, s' := s.cur[c], BlockSwapped(s, c, o, mask, all);
      && s'.ready == s.ready[Prio(s, t) := Remove(s.ready[Prio(s, t)], t)]
      && s' == Block(s, c, o, mask, all).(ready := s'.ready)
  {
    var t := s.cur[c];
    BlockEffect(s, c, o, mask, all);
    assert t !in Remove(s.ready[Prio(s, t)], t);
  }

  /**
   The caller ends last on the waiter list either way.  In the order the code uses, its
   ready queue becomes the part in front of the caller; with the calls swapped only the
   caller leaves the queue.  The two agree exactly when the caller was last.
   */
  lemma SwappedOrderLosesNobody(s: Sys, c: nat, o: nat, mask: bv32, all: bool)
    requires Inv(s) && CanHappen(s, DoBlock(c, o, mask, all)) && OnReady(s, s.cur[c])
    ensures
      var t := s.cur[c];
      var p, q := Prio(s, t), s.ready[Prio(s, t)];
      var rest := q[|Front(q, t)| + 1..];
      var coded, swapped := Block(s, c, o, mask, all), BlockSwapped(s, c, o, mask, all);
      && q == Front(q, t) + [t] + rest
      && coded.ready[p] == Front(q, t) && swapped.ready[p] == Front(q, t) + rest
      && coded.waiting[o] == swapped.waiting[o] == s.waiting[o] + [t]
      && (coded == swapped <==> rest == [])
  {
    var t := s.cur[c];
    BlockEffect(s, c, o, mask, all);
    SwappedEffect(s, c, o, mask, all);
    SplitAt(s.ready[Prio(s, t)], t);
    var coded, swapped := Block(s, c, o, mask, all), BlockSwapped(s, c, o, mask, all);
    assert coded == swapped <==> coded.ready == swapped.ready;
    assert coded.ready == swapped.ready <==> coded.ready[Prio(s, t)] == swapped.ready[Prio(s, t)];
  }

  lemma SplitAt(q: seq<nat>, t: nat)
    requires t in q
    ensures
      var f, rest := Front(q, t), q[|Front(q, t)| + 1..];
      && q == f + [t] + rest && Remove(q, t) == f + rest && (Remove(q, t) == f <==> rest == [])
  {
    var f := Front(q, t);
    assert q[..|f|] == f;
    RemoveAt(q, |f|);
    Recombine(q, |f|);
  }

  lemma Recombine(q: seq<nat>, i: nat)
    requires i < |q|
    ensures q == q[..i] + [q[i]] + q[i + 1..]
    ensures q[..i] + q[i + 1..] == q[..i] <==> q[i + 1..] == []
  {
    assert q[i + 1..] != [] ==> |q[..i] + q[i + 1..]| > |q[..i]|;
  }

  // ---- the guard on blocking ----------------------------------------------------------------

  /** Blocking keeps the invariant exactly when no idle thread is queued behind the caller. */
  lemma BlockKeepsInvIff(s: Sys, c: nat, o: nat, mask: bv32, all: bool)
    requires Inv(s) && CanHappen(s, DoBlock(c, o, mask, all))
    ensures Inv(Block(s, c, o, mask, all)) <==> !IdleBehind(s, s.cur[c])
  {
    if IdleBehind(s, s.cur[c]) {
      BlockDropsIdle(s, c, o, mask, all);
    } else {
      BlockKeepsInv(s, c, o, mask, all);
    }
  }

  lemma BlockDropsIdle(s: Sys, c: nat, o: nat, mask: bv32, all: bool)
    requires Shape(s) && ReadyLists(s) && c < 2 && o < |s.waiting| && IdleBehind(s, s.cur[c])
    ensures !Inv(Block(s, c, o, mask, all))
  {
    var d := IdleDropped(s, c, o, mask, all);
    NotSound(Block(s, c, o, mask, all), d);
  }

  lemma NotSound(s: Sys, d: nat)
    requires Shape(s) && d < 2 && !IdleOk(s, d)
    ensures !Inv(s)
  {
  }

  lemma IdleDropped(s: Sys, c: nat, o: nat, mask: bv32, all: bool) returns (d: nat)
    requires Shape(s) && ReadyLists(s) && c < 2 && o < |s.waiting| && IdleBehind(s, s.cur[c])
    ensures d < 2 && !OnReady(Block(s, c, o, mask, all), s.idle[d]) && !IdleOk(Block(s, c, o, mask, all), d)
  {
    var t, s' := s.cur[c], Block(s, c, o, mask, all);
    BlockEffect(s, c, o, mask, all);
    d :| 0 <= d < 2 && s.idle[d] in s.ready[Prio(s, t)] && s.idle[d] !in Front(s.ready[Prio(s, t)], t);
    assert Prio(s', s.idle[d]) == Prio(s, t);
  }

  /** A caller above the lowest priority never has an idle thread behind it. */
  lemma BetterPriorityIsSafe(s: Sys, t: nat)
    requires Inv(s) && t < MAX_THREADS && s.pool[t].priority < NUM_PRIORITIES - 1
    ensures !IdleBehind(s, t)
  {
  }

  // ---- start ----------------------------------------------------------------------------------

  function IdleTcb(c: nat): Tcb {
    Tcb(true, c + 1, NUM_PRIORITIES - 1, c, Running, false, 0)
  }

  /** Both cores scheduling, each on its idle thread. */
  function Boot(isEvent: seq<bool>): Sys {
    Sys([IdleTcb(0), IdleTcb(1)] + seq(MAX_THREADS - 2, _ => FREE_TCB),
        [[], [], [], [], [], [], [], [0, 1]],
        seq(|isEvent|, _ => []), isEvent, seq(MAX_THREADS, _ => Vacant),
        [0, 1], [0, 1], {}, [], 3, [false, false])
  }

  lemma BootIsSound(isEvent: seq<bool>)
    ensures Inv(Boot(isEvent)) && Full(Boot(isEvent))
  {
    var s := Boot(isEvent);
    assert forall x :: !Waits(s, x) && !WaitsOnEvent(s, x) && !HasEntry(s.entries, x);
    forall x | 0 <= x < MAX_THREADS
      ensures Ok(ViewOf(s, x)) && Queued(s, x)
    {
      assert s.pool[x] == if x < 2 then IdleTcb(x) else FREE_TCB;
    }
  }
}
