/**
 Concrete runs behind the guard of `SchedRuns.Legal`.

 From the start, a lowest-priority thread gets to block ahead of an idle thread.  The dropped
 idle thread leaves its core with nothing to run.  A switch that then finds no thread leaves a
 just-killed, just-blocked thread current; the next switch takes it for a self-killed one and
 frees it while it is still on a waiter list.
 */
module SchedHazard {
  import opened Links
  import opened SchedSpec
  import opened SchedInv
  import opened SchedRuns
  import opened SchedAdrift
  import opened SchedGuard

  // ---- the run ---------------------------------------------------------------------------------

  function Worker(tid: nat, priority: nat, state: ThreadState): Tcb {
    Tcb(true, tid, priority, AFFINITY_ANY, state, false, 0)
  }

  /** The queues when only the best and the lowest priority are in use. */
  function Queues(best: seq<nat>, lowest: seq<nat>): (q: seq<seq<nat>>)
    ensures |q| == NUM_PRIORITIES && forall p :: 0 <= p < NUM_PRIORITIES ==>
            q[p] == if p == 0 then best else if p == 7 then lowest else []
  {
    [best, [], [], [], [], [], [], lowest]
  }

  /** A pool of which at most the first four slots are in use. */
  function Pool(first: seq<Tcb>): (pool: seq<Tcb>)
    requires |first| == 4
    ensures |pool| == MAX_THREADS && forall i :: 0 <= i < MAX_THREADS ==>
            pool[i] == if i < 4 then first[i] else FREE_TCB
  {
    first + seq(MAX_THREADS - 4, _ => FREE_TCB)
  }

  lemma PoolSet(first: seq<Tcb>, i: nat, tcb: Tcb)
    requires |first| == 4 && i < 4
    ensures Pool(first)[i := tcb] == Pool(first[i := tcb])
  {
  }

  lemma QueuesSet(best: seq<nat>, lowest: seq<nat>, q: seq<nat>)
    ensures Queues(best, lowest)[0 := q] == Queues(q, lowest)
    ensures Queues(best, lowest)[7 := q] == Queues(best, q)
  {
  }

  /** The first four slots, the two queues in use, the waiter list and who is current. */
  function At(first: seq<Tcb>, best: seq<nat>, lowest: seq<nat>, waiting: seq<nat>, cur: seq<nat>): Sys
    requires |first| == 4
  {
    Sys(Pool(first), Queues(best, lowest), [waiting], [false], seq(MAX_THREADS, _ => Vacant), cur, [0, 1], {}, [],
        if first[3].used then 5 else if first[2].used then 4 else 3, [false, false])
  }

  function Begin(): Sys {
    At([IdleTcb(0), IdleTcb(1), FREE_TCB, FREE_TCB], [], [0, 1], [], [0, 1])
  }

  /** Slot 2 has been created with the lowest priority. */
  function Created2(): Sys {
    At([IdleTcb(0), IdleTcb(1), Worker(3, 7, Ready), FREE_TCB], [], [0, 1, 2], [], [0, 1])
  }

  /** Core 0 runs it; idle thread 0 has gone to the tail. */
  function Runs2(): Sys {
    At([IdleTcb(0).(state := Ready), IdleTcb(1), Worker(3, 7, Running), FREE_TCB], [], [1, 2, 0], [], [2, 1])
  }

  function Created3(): Sys {
    At([IdleTcb(0).(state := Ready), IdleTcb(1), Worker(3, 7, Running), Worker(4, 0, Ready)], [3], [1, 2, 0], [],
        [2, 1])
  }

  /** Slot 2 runs on core 0 with idle thread 0 behind it, slot 3 on core 1. */
  function Eve(): Sys {
    At([IdleTcb(0).(state := Ready), IdleTcb(1).(state := Ready), Worker(3, 7, Running), Worker(4, 0, Running)],
       [3], [1, 2, 0], [], [2, 3])
  }

  /** Slot 2 has blocked: idle thread 0 is on no queue. */
  function Blocked2(): Sys {
    At([IdleTcb(0).(state := Ready), IdleTcb(1).(state := Ready), Worker(3, 7, Blocked), Worker(4, 0, Running)],
       [3], [1], [2], [2, 3])
  }

  /** Slot 3 has killed it, and the switch on core 0 has found nobody. */
  function Stuck(): Sys {
    At([IdleTcb(0).(state := Ready), IdleTcb(1).(state := Ready), Worker(3, 7, Zombie), Worker(4, 0, Running)],
       [3], [1], [2], [2, 3]).(resumed := [true, false])
  }

  lemma CreateStep2()
    ensures Create(Begin(), 7, true) == Created2()
  {
    FirstFreeIs(Begin().pool, 2);
    PoolSet([IdleTcb(0), IdleTcb(1), FREE_TCB, FREE_TCB], 2, Worker(3, 7, Ready));
    assert Begin().ready[7] + [2] == [0, 1, 2];
    QueuesSet([], [0, 1], [0, 1, 2]);
  }

  lemma CreateStep3()
    ensures Create(Runs2(), 0, true) == Created3()
  {
    FirstFreeIs(Runs2().pool, 3);
    PoolSet([IdleTcb(0).(state := Ready), IdleTcb(1), Worker(3, 7, Running), FREE_TCB], 3, Worker(4, 0, Ready));
    assert Runs2().ready[0] + [3] == [3];
    QueuesSet([], [1, 2, 0], [3]);
  }

  /** A selection passes over an empty queue. */
  lemma SkipEmpty(pool: seq<Tcb>, ready: seq<seq<nat>>, c: nat, other: nat, out: int, p: nat)
    requires p < |ready| && ready[p] == []
    ensures Select(pool, ready, c, other, out, p) == Select(pool, ready, c, other, out, p + 1)
  {
    assert Rotate(pool, out, []) == [] && PickIn(pool, c, other, []) == NULL;
    assert ready[p := []] == ready;
  }

  lemma {:induction false} SelectFrom(pool: seq<Tcb>, ready: seq<seq<nat>>, c: nat, other: nat, out: int, p: nat,
          k: nat)
    requires p <= k <= |ready| && forall j :: p <= j < k ==> ready[j] == []
    ensures Select(pool, ready, c, other, out, p) == Select(pool, ready, c, other, out, k)
  {
    if p < k {
      SelectFrom(pool, ready, c, other, out, p, k - 1);
      SkipEmpty(pool, ready, c, other, out, k - 1);
    }
  }

  lemma RotatedPick(pool: seq<Tcb>)
    requires |pool| == MAX_THREADS && pool[0].state == Ready && pool[1].state == Running
    requires pool[2].state == Ready && pool[2].affinity == AFFINITY_ANY
    ensures Rotate(pool, 0, [0, 1, 2]) == [1, 2, 0] && PickIn(pool, 0, 1, [1, 2, 0]) == 2
  {
    assert [0, 1, 2][1..] + [0] == [1, 2, 0];
    assert [1, 2, 0][1..] == [2, 0];
  }

  lemma SwitchStep2()
    ensures Switch(Created2(), 0) == Runs2()
  {
    var d := Departed(Created2(), 0);
    PoolSet([IdleTcb(0), IdleTcb(1), Worker(3, 7, Ready), FREE_TCB], 0, IdleTcb(0).(state := Ready));
    PoolSet([IdleTcb(0).(state := Ready), IdleTcb(1), Worker(3, 7, Ready), FREE_TCB], 2, Worker(3, 7, Running));
    SelectFrom(d.pool, d.ready, 0, 1, 0, 0, 7);
    RotatedPick(d.pool);
    QueuesSet([], [0, 1, 2], [1, 2, 0]);
    assert Choice(Created2(), 0) == (Queues([], [1, 2, 0]), 2);
    assert Created2().cur[0 := 2] == [2, 1];
  }

  lemma SwitchStep3()
    ensures Switch(Created3(), 1) == Eve()
  {
    var d := Departed(Created3(), 1);
    PoolSet([IdleTcb(0).(state := Ready), IdleTcb(1), Worker(3, 7, Running), Worker(4, 0, Ready)], 1,
        IdleTcb(1).(state := Ready));
    PoolSet([IdleTcb(0).(state := Ready), IdleTcb(1).(state := Ready), Worker(3, 7, Running), Worker(4, 0, Ready)],
            3, Worker(4, 0, Running));
    assert PickIn(d.pool, 1, 2, [3]) == 3;
    QueuesSet([3], [1, 2, 0], [3]);
    assert Choice(Created3(), 1) == (Queues([3], [1, 2, 0]), 3);
    assert Created3().cur[1 := 3] == [2, 3];
  }

  lemma InFrontOf2()
    ensures Front([1, 2, 0], 2) == [1] && 0 !in [1]
  {
    assert [1, 2, 0][1..] == [2, 0];
  }

  /** Slot 2, of the lowest priority, blocks on core 0 as the only waiter. */
  lemma BlockedState(s: Sys)
    requires Shape(s) && s.waiting == [[]] && s.isEvent == [false] && s.cur[0] == 2 && s.pool[2].priority == 7
    ensures
      Block(s, 0, 0, 0, false)
      == s.(pool := s.pool[2 := s.pool[2].(state := Blocked)], ready := s.ready[7 := Front(s.ready[7], 2)],
          waiting := [[2]])
  {
    BlockEffect(s, 0, 0, 0, false);
    assert s.waiting[0] + [2] == [2];
    assert s.waiting[0 := [2]] == [[2]];
  }

  lemma BlockStep()
    ensures Block(Eve(), 0, 0, 0, false) == Blocked2()
  {
    BlockedState(Eve());
    InFrontOf2();
    PoolSet([IdleTcb(0).(state := Ready), IdleTcb(1).(state := Ready), Worker(3, 7, Running), Worker(4, 0, Running)],
            2, Worker(3, 7, Blocked));
    QueuesSet([3], [1, 2, 0], [1]);
  }

  lemma SwitchStep()
    ensures Switch(Kill(Blocked2(), 1, 2), 0) == Stuck()
  {
    PoolSet([IdleTcb(0).(state := Ready), IdleTcb(1).(state := Ready), Worker(3, 7, Blocked), Worker(4, 0, Running)],
            2, Worker(3, 7, Blocked).(killPending := true));
    PoolSet([IdleTcb(0).(state := Ready), IdleTcb(1).(state := Ready), Worker(3, 7, Blocked).(killPending := true),
        Worker(4, 0, Running)],
            2, Worker(3, 7, Zombie));
    var d := Departed(Kill(Blocked2(), 1, 2), 0);
    forall k, x | 0 <= k < |d.ready| && x in d.ready[k]
      ensures !Eligible(d.pool, 0, 3, x)
    {
      assert x == 3 || x == 1;
    }
    NothingFits(d.pool, d.ready, 0, 3, 2, 0);
    NothingMoves(d.pool, d.ready, 0, 3, 2, 0);
  }

  /** Queues in which the outgoing thread is not ahead of others come back unrotated. */
  lemma {:induction false} NothingMoves(pool: seq<Tcb>, ready: seq<seq<nat>>, c: nat, other: nat, out: int, p: nat)
    requires p <= |ready|
    requires forall k :: 0 <= k < |ready| ==> out !in ready[k] || |ready[k]| <= 1
    ensures Select(pool, ready, c, other, out, p).0 == ready
    decreases |ready| - p
  {
    if p < |ready| {
      assert Rotate(pool, out, ready[p]) == ready[p];
      assert ready[p := ready[p]] == ready;
      NothingMoves(pool, ready, c, other, out, p + 1);
    }
  }

  const PRELUDE := [DoCreate(7, true), DoSwitch(0), DoCreate(0, true), DoSwitch(1)]
  const HAZARD := [DoBlock(0, 0, 0, false), DoKill(1, 2), DoSwitch(0)]

  lemma FirstStep(s: Sys, step: Step, n: Sys, rest: seq<Step>, e: Sys)
    requires Shape(s) && CanHappen(s, step) && Next(s, step) == n && LeadsTo(n, rest, e)
    ensures LeadsTo(s, [step] + rest, e)
    ensures !step.DoBlock? && LegalRun(n, rest) ==> LegalRun(s, [step] + rest)
  {
    assert ([step] + rest)[1..] == rest;
  }

  lemma {:induction false} LegalEnd(s: Sys, steps: seq<Step>, e: Sys)
    requires LeadsTo(s, steps, e) && LegalRun(s, steps)
    ensures End(s, steps) == e
    decreases |steps|
  {
    if steps != [] {
      LegalEnd(Next(s, steps[0]), steps[1..], e);
    }
  }

  lemma BootIsBegin()
    ensures Boot([false]) == Begin()
  {
    assert Boot([false]).pool == Begin().pool;
    assert Boot([false]).waiting == Begin().waiting;
  }

  lemma PreludeRun()
    ensures LeadsTo(Begin(), PRELUDE, Eve()) && LegalRun(Begin(), PRELUDE)
  {
    CreateStep2();
    PreludeMiddle();
    FirstStep(Begin(), DoCreate(7, true), Created2(), PRELUDE[1..], Eve());
    assert PRELUDE == [DoCreate(7, true)] + PRELUDE[1..];
  }

  lemma PreludeMiddle()
    ensures LeadsTo(Created2(), PRELUDE[1..], Eve()) && LegalRun(Created2(), PRELUDE[1..])
  {
    SwitchStep2();
    PreludeEnd();
    FirstStep(Created2(), DoSwitch(0), Runs2(), [DoCreate(0, true), DoSwitch(1)], Eve());
    assert PRELUDE[1..] == [DoSwitch(0)] + [DoCreate(0, true), DoSwitch(1)];
  }

  lemma PreludeEnd()
    ensures LeadsTo(Runs2(), [DoCreate(0, true), DoSwitch(1)], Eve()) &&
            LegalRun(Runs2(), [DoCreate(0, true), DoSwitch(1)])
  {
    CreateStep3();
    SwitchStep3();
    FirstStep(Created3(), DoSwitch(1), Eve(), [], Eve());
    FirstStep(Runs2(), DoCreate(0, true), Created3(), [DoSwitch(1)], Eve());
  }

  /** From the start, four ordinary steps lead to the eve of the hazard. */
  lemma EveIsReached()
    ensures LegalRun(Boot([false]), PRELUDE) && End(Boot([false]), PRELUDE) == Eve()
    ensures Inv(Eve())
  {
    BootIsSound([false]);
    BootIsBegin();
    PreludeRun();
    LegalEnd(Begin(), PRELUDE, Eve());
    RunKeepsInv(Begin(), PRELUDE);
  }

  /** A blocking call, a kill and a switch lead from there to where the dead thread is stuck. */
  lemma HazardRun()
    ensures LeadsTo(Eve(), HAZARD, Stuck()) && LegalRun(Blocked2(), HAZARD[1..])
  {
    BlockStep();
    SwitchStep();
    var killed := Kill(Blocked2(), 1, 2);
    FirstStep(killed, DoSwitch(0), Stuck(), [], Stuck());
    FirstStep(Blocked2(), DoKill(1, 2), killed, [DoSwitch(0)], Stuck());
    FirstStep(Eve(), DoBlock(0, 0, 0, false), Blocked2(), [DoKill(1, 2), DoSwitch(0)], Stuck());
    assert HAZARD == [DoBlock(0, 0, 0, false)] + [DoKill(1, 2), DoSwitch(0)];
    assert HAZARD[1..] == [DoKill(1, 2), DoSwitch(0)];
  }

  /**
   From the start: a run whose only unguarded step is a blocking call by a lowest-priority thread
   with idle thread 0 behind it, and at whose end a switch frees a thread still on a waiter list.
   */
  lemma FreedWhileListed()
    ensures LegalRun(Boot([false]), PRELUDE) && End(Boot([false]), PRELUDE) == Eve()
    ensures Inv(Eve()) && IdleBehind(Eve(), 2) && Block(Eve(), 0, 0, 0, false) == Blocked2()
    ensures LeadsTo(Eve(), HAZARD, Stuck()) && LegalRun(Blocked2(), HAZARD[1..])
    ensures CanHappen(Stuck(), DoSwitch(0)) && Frees(Stuck(), DoSwitch(0), 2)
    ensures 2 in Stuck().waiting[0] && !Unreferenced(Stuck(), DoSwitch(0), 2)
  {
    EveIsReached();
    BlockStep();
    HazardRun();
    EveIsCut();
    StuckIsListed();
  }

  lemma EveIsCut()
    ensures IdleBehind(Eve(), 2)
  {
    InFrontOf2();
    assert Eve().pool[2] == Worker(3, 7, Running) && Eve().ready[7] == [1, 2, 0];
    assert Eve().idle[0] == 0;
  }

  lemma StuckIsListed()
    ensures CanHappen(Stuck(), DoSwitch(0)) && Frees(Stuck(), DoSwitch(0), 2)
    ensures 2 in Stuck().waiting[0] && !Unreferenced(Stuck(), DoSwitch(0), 2)
  {
    assert Stuck().waiting[0] == [2];
  }
}
