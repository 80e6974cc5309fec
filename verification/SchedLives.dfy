/**
 The life of one thread over whole runs: what a kill does to it, that a ZOMBIE never runs
 again, and how sleeping and starting place a thread.
 */
module SchedLives {
  import opened Links
  import opened SchedSpec
  import opened SchedInv
  import opened SchedRuns

  // ---- being killed --------------------------------------------------------------------

  /**
   What sched_kill does, by where the thread is: to itself, to the thread on the other core, to
   one on a waiter list, to one nobody else refers to, and to one that is dead already.
   */
  lemma KillByPlace(s: Sys, c: nat, t: nat, x: nat)
    requires Inv(s) && CanHappen(s, DoKill(c, t)) && x < MAX_THREADS
    ensures
      var s' := Kill(s, c, t);
      && (t == s.cur[c] || s.pool[t].state == Blocked || s.pool[t].state == Zombie ==> s'.doomed == s.doomed)
      && (t != s.cur[1 - c] ==> s'.pool[t] == s.pool[t].(state := Zombie))
      && (t == s.cur[1 - c] ==> s'.pool[t] == s.pool[t].(killPending := true) && s'.doomed == s.doomed)
      && (t !in s.cur && s.pool[t].state in {Ready, Sleeping} ==> !OnReady(s', t) && s'.doomed == s.doomed + {t})
      && (x != t ==> s'.pool[x] == s.pool[x] && OnReady(s', x) == OnReady(s, x))
      && s'.waiting == s.waiting && s'.entries == s.entries && s'.cur == s.cur
  {
    assert Ok(ViewOf(s, t));
    assert NoDup(s.ready[Prio(s, t)]);
  }

  /** No step brings a ZOMBIE back: it stays one until the step that frees it. */
  lemma ZombieStays(s: Sys, step: Step, t: nat)
    requires Inv(s) && CanHappen(s, step) && t < MAX_THREADS && s.pool[t].state == Zombie
    ensures
      var s' := Next(s, step);
      if Frees(s, step, t) then s'.freed == s.freed + [s.pool[t].tid]
      else s'.pool[t].state == Zombie && s'.pool[t].tid == s.pool[t].tid && s.freed <= s'.freed
  {
    assert Ok(ViewOf(s, t));
    if Frees(s, step, t) {
      FreeIsSafe(s, step, t);
    } else if step.DoSwitch? {
      SwitchKeepsZombie(s, step.c, t);
    } else {
      OtherStepsKeepZombie(s, step, t);
    }
  }

  lemma OtherStepsKeepZombie(s: Sys, step: Step, t: nat)
    requires Shape(s) && CanHappen(s, step) && !step.DoSwitch? && (step.DoFree? ==> step.t != t)
    requires t < MAX_THREADS && s.pool[t].state == Zombie && Ok(ViewOf(s, t))
    ensures Next(s, step).pool[t].state == Zombie && Next(s, step).pool[t].tid == s.pool[t].tid &&
            s.freed <= Next(s, step).freed
  {
    match step
    case DoBlock(c, o, mask, all) => BlockEffect(s, c, o, mask, all);
    case DoUnblock(o, x) => UnblockKeepsZombie(s, o, x, t);
    case DoKill(c, x) => KillKeepsZombie(s, c, x, t);
    case _ => TcbStepsKeepZombie(s, step, t);
  }

  lemma UnblockKeepsZombie(s: Sys, o: nat, x: nat, t: nat)
    requires Shape(s) && o < |s.waiting| && x < MAX_THREADS && t < MAX_THREADS && s.pool[t].state == Zombie
    ensures Unblock(s, o, x).pool[t] == s.pool[t] && Unblock(s, o, x).freed == s.freed
  {
  }

  lemma KillKeepsZombie(s: Sys, c: nat, x: nat, t: nat)
    requires Shape(s) && c < 2 && x < MAX_THREADS && t < MAX_THREADS && s.pool[t].state == Zombie
    ensures Kill(s, c, x).pool[t].state == Zombie && Kill(s, c, x).pool[t].tid == s.pool[t].tid
    ensures Kill(s, c, x).freed == s.freed
  {
  }

  lemma TcbStepsKeepZombie(s: Sys, step: Step, t: nat)
    requires Shape(s) && CanHappen(s, step) && (step.DoFree? ==> step.t != t)
    requires !step.DoSwitch? && !step.DoBlock? && !step.DoUnblock? && !step.DoKill?
    requires t < MAX_THREADS && s.pool[t].state == Zombie && s.pool[t].used
    ensures Next(s, step).pool[t].state == Zombie && Next(s, step).pool[t].tid == s.pool[t].tid &&
            s.freed <= Next(s, step).freed
  {
    if step.DoCreate? {
      assert FirstFree(s.pool) != t;
    }
  }

  lemma SwitchKeepsZombie(s: Sys, c: nat, t: nat)
    requires Inv(s) && c < 2 && t < MAX_THREADS && s.pool[t].state == Zombie && !Frees(s, DoSwitch(c), t)
    ensures Switch(s, c).pool[t].state == Zombie && Switch(s, c).pool[t].tid == s.pool[t].tid &&
            s.freed <= Switch(s, c).freed
  {
    var k := SwitchFinds(s, c);
    var d := Departed(s, c);
    assert d.pool[t].state == Zombie && d.pool[t].tid == s.pool[t].tid;
    assert Choice(s, c).1 != t;
  }

  lemma {:induction false} FreedGrows(s: Sys, steps: seq<Step>)
    requires Inv(s) && LegalRun(s, steps)
    ensures s.freed <= End(s, steps).freed
    decreases |steps|
  {
    if steps != [] {
      StepKeepsInv(s, steps[0]);
      StepFreedGrows(s, steps[0]);
      FreedGrows(Next(s, steps[0]), steps[1..]);
    }
  }

  lemma StepFreedGrows(s: Sys, step: Step)
    requires Inv(s) && CanHappen(s, step)
    ensures s.freed <= Next(s, step).freed
  {
    if t: nat :| Frees(s, step, t) {
      FreeIsSafe(s, step, t);
    } else {
      OnlyFreesFree(s, step);
    }
  }

  /**
   Over every legal run a killed thread's incarnation stays a ZOMBIE until it is freed, and then
   its ID is on record and belongs to no live thread: it never runs again.
   */
  lemma {:induction false} KilledNeverRunsAgain(s: Sys, steps: seq<Step>, t: nat)
    requires Inv(s) && LegalRun(s, steps) && t < MAX_THREADS && s.pool[t].state == Zombie
    ensures
      var e, id := End(s, steps), s.pool[t].tid;
      || (e.pool[t].state == Zombie && e.pool[t].tid == id)
      || (id in e.freed && forall x :: 0 <= x < MAX_THREADS && e.pool[x].used ==> e.pool[x].tid != id)
    decreases |steps|
  {
    RunKeepsInv(s, steps);
    if steps != [] {
      var next := Next(s, steps[0]);
      ZombieStays(s, steps[0], t);
      StepKeepsInv(s, steps[0]);
      if Frees(s, steps[0], t) {
        FreedGrows(next, steps[1..]);
        assert next.freed[|s.freed|] == s.pool[t].tid;
        assert next.freed[|s.freed|] in End(next, steps[1..]).freed;
      } else {
        KilledNeverRunsAgain(next, steps[1..], t);
      }
    }
  }

  /** A thread killed from the other core is dealt with at its core's next switch. */
  lemma PendingKillTakesEffect(s: Sys, c: nat)
    requires Inv(s) && c < 2 && s.pool[s.cur[c]].killPending
    ensures
      var t, s' := s.cur[c], Switch(s, c);
      if s.pool[t].state == Blocked then
        s'.pool[t].state == Zombie && !s'.pool[t].killPending && Waits(s', t) && t !in s'.cur
      else s'.freed == s.freed + [s.pool[t].tid] && t !in s'.cur
  {
    if s.pool[s.cur[c]].state == Blocked {
      BlockedIsHandedOver(s, c);
    } else {
      ReapLeavesQueues(s, c);
    }
  }

  lemma BlockedIsHandedOver(s: Sys, c: nat)
    requires Inv(s) && c < 2 && s.pool[s.cur[c]].killPending && s.pool[s.cur[c]].state == Blocked
    ensures
      var t, s' := s.cur[c], Switch(s, c);
      s'.pool[t].state == Zombie && !s'.pool[t].killPending && Waits(s', t) && t !in s'.cur
  {
    var t := s.cur[c];
    assert Ok(ViewOf(s, t));
    var k := SwitchFinds(s, c);
    assert Choice(s, c).1 != t;
    assert Waits(Switch(s, c), t) == Waits(s, t);
  }

  // ---- sleeping and starting ----------------------------------------------------------------

  /** sched_sleep takes exactly the caller off the ready queues. */
  lemma SleepLeavesQueue(s: Sys, c: nat, wakeTime: nat, x: nat)
    requires Inv(s) && CanHappen(s, DoSleep(c, wakeTime)) && x < MAX_THREADS
    ensures
      var t, s' := s.cur[c], Sleep(s, c, wakeTime);
      && s'.pool[t].state == Sleeping && s'.pool[t].wakeTime == wakeTime && !OnReady(s', t)
      && (x != t ==> s'.pool[x] == s.pool[x] && OnReady(s', x) == OnReady(s, x))
  {
    assert NoDup(s.ready[Prio(s, s.cur[c])]);
  }

  /** task_create_thread: an unused slot, a new ID, READY at the tail of its queue; or nothing at all. */
  lemma CreateStartsReady(s: Sys, priority: nat, memory: bool, x: nat)
    requires Inv(s) && x < MAX_THREADS
    ensures
      var s', i := Create(s, priority, memory), FirstFree(s.pool);
      if memory && i < 16 then
        && !s.pool[i].used && s'.pool[i].used && s'.pool[i].state == Ready && s'.pool[i].tid !in s.freed
        && (forall u :: 0 <= u < 16 && u != i && s'.pool[u].used ==> s'.pool[u].tid != s'.pool[i].tid)
        && s'.pool[i].priority == priority && s'.pool[i].affinity == -1
        && (priority < 8 ==> s'.ready[priority] == s.ready[priority] + [i])
        && (priority >= 8 ==> s'.ready[7] == s.ready[7] + [i])
        && (x != i ==> s'.pool[x] == s.pool[x] && OnReady(s', x) == OnReady(s, x))
      else s' == s && (!memory || forall u :: 0 <= u < 16 ==> s.pool[u].used)
  {
    CreateKeepsInv(s, priority, memory);
  }

  /** Ending itself and choosing a core change one field of the caller's TCB each, and nothing else. */
  lemma OwnCalls(s: Sys, c: nat, affinity: int, x: nat)
    requires Inv(s) && c < 2 && x < 16
    ensures
      var t, ended, moved := s.cur[c], Next(s, DoExit(c)), Next(s, DoSetAffinity(c, affinity));
      && ended.pool[x] == (if x == t then s.pool[t].(state := Zombie) else s.pool[x])
      && moved.pool[x] == (if x == t then s.pool[t].(affinity := affinity) else s.pool[x])
      && ended.ready == s.ready == moved.ready && ended.waiting == s.waiting == moved.waiting
      && ended.cur == s.cur == moved.cur && ended.freed == s.freed == moved.freed
  {
  }

  // ---- what can happen -----------------------------------------------------------------------

  /** A RUNNING thread that is not idle can make every call, and the kernel can do whatever it owes. */
  lemma CallsAreOpen(s: Sys, c: nat, t: nat, o: nat, n: nat, mask: bv32, all: bool)
    requires Inv(s) && c < 2 && t < MAX_THREADS && o < |s.waiting|
    ensures CanHappen(s, DoSwitch(c)) && CanHappen(s, DoCreate(n, true)) && CanHappen(s, DoCreate(n, false))
    ensures s.pool[s.cur[c]].state == Running && s.cur[c] !in s.idle ==>
              && CanHappen(s, DoBlock(c, o, mask, all)) && CanHappen(s, DoSleep(c, n)) && CanHappen(s, DoExit(c))
              && (forall a :: a in {-1, 0, 1} ==> CanHappen(s, DoSetAffinity(c, a)))
              && (s.pool[t].used && t !in s.idle ==> CanHappen(s, DoKill(c, t)))
    ensures s.pool[t].state == Sleeping ==> CanHappen(s, DoWake(t))
    ensures t in s.waiting[o] ==> CanHappen(s, DoUnblock(o, t))
    ensures t in s.doomed ==> CanHappen(s, DoFree(t))
  {
    assert Ok(ViewOf(s, t)) && Ok(ViewOf(s, s.cur[c]));
  }
}
