/**
 No wake-up is lost over whole runs, and those who got one are on their ready queues as long as
 only the last thread of a queue blocks.

 The units of one primitive (1 for a free mutex, a semaphore's count, a queue's messages or
 free slots), its waiter list, and any interleaving of its own operations with every other
 step of the machine.  A woken thread calls nothing else before it has tested again, which is
 what the retry loops of src/kernel/sync.c do.  Any thread may be killed, on the list or off
 it, but one that has the wake-up already: it would take it along.
 */
module SyncRuns {
  import opened Links
  import opened SchedSpec
  import opened SchedInv
  import opened SchedRuns
  import opened SchedTidy
  import opened Kernel
  import opened Wakeups
  import opened Sync

  datatype UnitState = UnitState(sys: Sys, units: nat, woken: set<nat>)

  datatype UnitStep =
    | Take(t: nat)        // t tests, finds a unit and takes it
    | Join(c: nat)        // the thread on core c tests, finds none and blocks
    | Give                // a unit is given back and wake_one passes it on
    | Other(step: Step)   // anything else the kernel does

  /** The thread that makes a call, for the steps that are calls. */
  ghost predicate CalledBy(s: Sys, step: Step, x: nat)
    requires Shape(s) && CanHappen(s, step)
  {
    (step.DoBlock? || step.DoSleep? || step.DoExit? || step.DoSetAffinity?) && s.cur[step.c] == x
  }

  ghost predicate CanUnit(u: UnitState, o: nat, step: UnitStep) {
    && Shape(u.sys) && WaitersInRange(u.sys) && o < |u.sys.waiting|
    && match step
       case Take(_) => u.units > 0
       case Join(c) => u.units == 0 && MayBlock(u.sys, c, o, 0, false)
       case Give =>
         var t := FirstLive(u.sys, u.sys.waiting[o]);
         0 <= t < MAX_THREADS ==> !u.sys.pool[t].killPending
       case Other(step) =>
         && Legal(u.sys, step) && (step.DoKill? ==> step.t !in u.woken)
         && (step.DoBlock? || step.DoUnblock? ==> step.o != o)
         && (forall x :: x in u.woken ==> !CalledBy(u.sys, step, x))
  }

  ghost function UnitNext(u: UnitState, o: nat, step: UnitStep): UnitState
    requires CanUnit(u, o, step)
  {
    match step
    case Take(t) => UnitState(u.sys, u.units - 1, u.woken - {t})
    case Join(c) => UnitState(Block(u.sys, c, o, 0, false), 0, u.woken - {u.sys.cur[c]})
    case Give => UnitState(WakeFirst(u.sys, o), u.units + 1, WokenBy(u.sys, o, u.woken))
    case Other(step) => UnitState(Next(u.sys, step), u.units, u.woken)
  }

  /** What the steps do: a unit taken, a thread listed, or a unit back and passed to the first live waiter. */
  lemma UnitEffect(u: UnitState, o: nat, step: UnitStep, i: nat)
    requires CanUnit(u, o, step) && Inv(u.sys) && !u.sys.isEvent[o] && i <= |u.sys.waiting[o]|
    requires forall j :: 0 <= j < |u.sys.waiting[o]| ==> u.sys.waiting[o][j] < MAX_THREADS
    requires forall j :: 0 <= j < i ==> u.sys.pool[u.sys.waiting[o][j]].state == Zombie
    requires i < |u.sys.waiting[o]| ==> u.sys.pool[u.sys.waiting[o][i]].state != Zombie
    ensures
      var (n, w) := (UnitNext(u, o, step), u.sys.waiting[o]);
      match step
      case Take(t) => n == UnitState(u.sys, u.units - 1, u.woken - {t})
      case Join(c) =>
        var t := u.sys.cur[c];
        && n.units == u.units == 0 && n.woken == u.woken - {t}
        && n.sys.waiting == u.sys.waiting[o := w + [t]]
        && n.sys.pool == u.sys.pool[t := u.sys.pool[t].(state := Blocked)]
      case Give =>
        && n.units == u.units + 1 && n.sys.waiting == u.sys.waiting[o := if i < |w| then w[i + 1..] else []]
        && (i == |w| ==> n.woken == u.woken)
        && (i < |w| ==>
              && n.woken == u.woken + {w[i]} && |n.sys.pool| == MAX_THREADS
              && n.sys.pool[w[i]] == u.sys.pool[w[i]].(state := Ready))
      case Other(_) => n.units == u.units && n.woken == u.woken
  {
    if step.Give? {
      WakeOneByPlace(u.sys, o, i);
      PartsOf(u.sys, u.sys.waiting[o], i);
    }
  }

  ghost predicate UnitRun(u: UnitState, o: nat, steps: seq<UnitStep>)
    decreases |steps|
  {
    steps != [] ==> CanUnit(u, o, steps[0]) && UnitRun(UnitNext(u, o, steps[0]), o, steps[1..])
  }

  ghost function UnitEnd(u: UnitState, o: nat, steps: seq<UnitStep>): UnitState
    requires UnitRun(u, o, steps)
    decreases |steps|
  {
    if steps == [] then u else UnitEnd(UnitNext(u, o, steps[0]), o, steps[1..])
  }

  /** Every woken thread is runnable and not about to die.  Whether it is queued as well is another matter. */
  ghost predicate Live(s: Sys, woken: set<nat>)
    requires Shape(s)
  {
    forall x :: x in woken ==> x < MAX_THREADS && Runnable(s.pool[x])
  }

  predicate Runnable(tcb: Tcb) {
    tcb.state in {Ready, Running} && !tcb.killPending
  }

  ghost predicate UnitInv(u: UnitState, o: nat) {
    && Shape(u.sys) && o < |u.sys.waiting| && !u.sys.isEvent[o]
    && NoLostWakeup(u.sys, o, u.units, u.woken)
    && Live(u.sys, u.woken)
    && Inv(u.sys)
  }

  /** A new mutex, semaphore or message queue end, whatever its units. */
  lemma UnitsStart(s: Sys, o: nat, units: nat)
    requires Inv(s) && o < |s.waiting| && !s.isEvent[o] && s.waiting[o] == []
    ensures UnitInv(UnitState(s, units, {}), o)
  {
  }

  /** A step that is neither the thread's own nor its end leaves it so. */
  lemma StaysRunnable(s: Sys, step: Step, x: nat)
    requires Shape(s) && CanHappen(s, step) && !CalledBy(s, step, x) && (step.DoKill? ==> step.t != x)
    requires x < MAX_THREADS && Runnable(s.pool[x]) && Ok(ViewOf(s, x))
    ensures Runnable(Next(s, step).pool[x])
  {
    match step
    case DoUnblock(o, t) => assert t == x ==> Waits(s, x);
    case DoCreate(_, _) => assert FirstFree(s.pool) != x;
    case DoSwitch(c) => SwitchStaysRunnable(s, c, x);
    case _ =>
  }

  lemma SwitchStaysRunnable(s: Sys, c: nat, x: nat)
    requires Shape(s) && c < 2 && x < MAX_THREADS && Runnable(s.pool[x])
    ensures Runnable(Switch(s, c).pool[x])
  {
  }

  lemma OtherKeepsLive(s: Sys, step: Step, woken: set<nat>)
    requires Shape(s) && CanHappen(s, step) && Views(s) && Live(s, woken)
    requires (step.DoKill? ==> step.t !in woken) && forall x :: x in woken ==> !CalledBy(s, step, x)
    ensures Live(Next(s, step), woken)
  {
    forall x | x in woken
      ensures x < MAX_THREADS && Runnable(Next(s, step).pool[x])
    {
      assert Ok(ViewOf(s, x));
      StaysRunnable(s, step, x);
    }
  }

  /** wake_one touches no woken thread, and the one it wakes is runnable. */
  lemma GiveKeepsLive(u: UnitState, o: nat)
    requires UnitInv(u, o) && CanUnit(u, o, Give)
    ensures Shape(WakeFirst(u.sys, o)) && Live(WakeFirst(u.sys, o), WokenBy(u.sys, o, u.woken))
  {
    var s, w := u.sys, u.sys.waiting[o];
    WakeOneSpec(s, o);
    forall x | x in WokenBy(s, o, u.woken)
      ensures x < MAX_THREADS && Runnable(WakeFirst(s, o).pool[x])
    {
      assert x in u.woken ==> x !in Dead(s, w);
      if x == FirstLive(s, w) {
        LiveIsNotDead(s, w);
      }
    }
  }

  lemma LiveIsNotDead(s: Sys, w: seq<nat>)
    requires NoDup(w) && FirstLive(s, w) != NULL
    ensures FirstLive(s, w) !in Dead(s, w)
  {
    ListSplits(s, w);
    assert w[|Dead(s, w)|] == FirstLive(s, w);
  }

  lemma UnitStepKeeps(u: UnitState, o: nat, step: UnitStep)
    requires UnitInv(u, o) && CanUnit(u, o, step)
    ensures UnitInv(UnitNext(u, o, step), o)
  {
    match step
    case Take(t) =>
      TakeKeeps(u.sys, o, u.units, u.woken, t);
    case Join(c) =>
      BlockEffect(u.sys, c, o, 0, false);
      JoinKeeps(u.sys, Block(u.sys, c, o, 0, false), o, u.woken, u.sys.cur[c]);
      OtherKeepsLive(u.sys, DoBlock(c, o, 0, false), u.woken - {u.sys.cur[c]});
      BlockKeepsInv(u.sys, c, o, 0, false);
    case Give =>
      GiveKeeps(u.sys, o, u.units, u.woken);
      GiveKeepsLive(u, o);
      WakeFirstFrame(u.sys, o);
    case Other(step) =>
      OthersKeep(u.sys, step, o, u.units, u.woken);
      OtherKeepsLive(u.sys, step, u.woken);
      StepKeepsInv(u.sys, step);
  }

  /**
   After every run, with kills of any thread that has not just been given a wake-up: while anybody
   waits, each available unit has its own woken thread, and that thread is runnable, not marked for
   death and not on the list.  `WokenAreQueued` says in which runs it is on its ready queue.
   */
  lemma {:induction false} NoWakeupIsLost(u: UnitState, o: nat, steps: seq<UnitStep>)
    requires UnitInv(u, o) && UnitRun(u, o, steps)
    ensures
      var e := UnitEnd(u, o, steps);
      && UnitInv(e, o)
      && (e.sys.waiting[o] != [] ==> e.units <= |e.woken|)
      && (forall x :: x in e.woken ==>
            && x !in e.sys.waiting[o] && x < MAX_THREADS
            && e.sys.pool[x].state in {Ready, Running} && !e.sys.pool[x].killPending)
    decreases |steps|
  {
    if steps != [] {
      UnitStepKeeps(u, o, steps[0]);
      NoWakeupIsLost(UnitNext(u, o, steps[0]), o, steps[1..]);
    }
  }

  // ---- and the woken threads are queued --------------------------------------------------------

  /** Whoever blocks, here or elsewhere, is the last thread of its ready queue. */
  ghost predicate TidyUnit(u: UnitState, o: nat, step: UnitStep)
    requires CanUnit(u, o, step)
  {
    match step
    case Join(c) => CallerLast(u.sys, u.sys.cur[c])
    case Other(step) => Tidy(u.sys, step)
    case _ => true
  }

  ghost predicate TidyUnits(u: UnitState, o: nat, steps: seq<UnitStep>)
    requires UnitRun(u, o, steps)
    decreases |steps|
  {
    steps != [] ==> TidyUnit(u, o, steps[0]) && TidyUnits(UnitNext(u, o, steps[0]), o, steps[1..])
  }

  /** Every runnable thread is queued after every step. */
  ghost predicate FullUnits(u: UnitState, o: nat, steps: seq<UnitStep>)
    requires UnitRun(u, o, steps)
    decreases |steps|
  {
    && Shape(u.sys) && Full(u.sys)
    && (steps != [] ==> FullUnits(UnitNext(u, o, steps[0]), o, steps[1..]))
  }

  /** wake_one queues the thread it wakes and takes nobody off a queue. */
  lemma WakeFirstKeepsFull(s: Sys, o: nat)
    requires Inv(s) && Full(s) && o < |s.waiting| && !s.isEvent[o]
    ensures WaitersInRange(s) && Shape(WakeFirst(s, o)) && Full(WakeFirst(s, o))
  {
    WakeOneSpec(s, o);
    var e := WakeFirst(s, o);
    forall x | 0 <= x < MAX_THREADS
      ensures Queued(e, x)
    {
      assert Queued(s, x);
    }
  }

  /** A blocking call ahead of another thread is exactly the step at which a runnable thread drops off its queue. */
  lemma UnitKeepsFullIff(u: UnitState, o: nat, step: UnitStep)
    requires UnitInv(u, o) && Full(u.sys) && CanUnit(u, o, step)
    ensures Shape(UnitNext(u, o, step).sys)
    ensures Full(UnitNext(u, o, step).sys) <==> TidyUnit(u, o, step)
  {
    match step
    case Take(t) =>
    case Join(c) => BlockKeepsFullIff(u.sys, c, o, 0, false);
    case Give => WakeFirstKeepsFull(u.sys, o);
    case Other(step) => StepKeepsFullIff(u.sys, step);
  }

  /**
   Over a run, all runnable threads stay queued exactly when nobody ever blocks ahead of another
   thread of its queue; then every woken thread is queued, so a switch can pick it and it tests.
   */
  lemma {:induction false} WokenAreQueued(u: UnitState, o: nat, steps: seq<UnitStep>)
    requires UnitInv(u, o) && Full(u.sys) && UnitRun(u, o, steps)
    ensures TidyUnits(u, o, steps) <==> FullUnits(u, o, steps)
    ensures
      var e := UnitEnd(u, o, steps);
      TidyUnits(u, o, steps) ==>
        UnitInv(e, o) && Full(e.sys) && forall x :: x in e.woken ==> x < MAX_THREADS && OnReady(e.sys, x)
    decreases |steps|
  {
    if steps != [] {
      UnitStepKeeps(u, o, steps[0]);
      UnitKeepsFullIff(u, o, steps[0]);
      if TidyUnit(u, o, steps[0]) {
        WokenAreQueued(UnitNext(u, o, steps[0]), o, steps[1..]);
      }
    } else {
      forall x | x in u.woken
        ensures x < MAX_THREADS && OnReady(u.sys, x)
      {
        assert Runnable(u.sys.pool[x]) && Queued(u.sys, x);
      }
    }
  }
}
