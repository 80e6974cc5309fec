/**
 Scheduler and pools side by side over whole runs: every thread the scheduler creates takes a slot
 and a stack from the pools of src/kernel/task.c, and every thread it frees gives them back.
 */
module TaskJoint {
  import opened Links
  import opened TaskSpec
  import opened TaskRuns
  import TaskKills
  import S = SchedSpec
  import SchedInv
  import SchedRuns

  datatype Joint = Joint(sys: S.Sys, ledger: Ledger)

  /** A scheduler step, with the process and the stack of a thread it creates; or a step of the pools alone. */
  datatype JointStep = Sched(step: S.Step, proc: int, stack: nat) | Pools(task: TaskStep)

  /** A creation that finds a TCB slot and memory. */
  predicate Creates(s: S.Sys, step: S.Step)
    requires |s.pool| == MAX_THREADS
  {
    step.DoCreate? && step.memory && S.FirstFree(s.pool) < MAX_THREADS
  }

  /** What a scheduler step asks of the pools: the slot search and the two frees of task.c and sched.c. */
  ghost function PoolSteps(s: S.Sys, j: JointStep): seq<TaskStep>
    requires S.Shape(s) && (j.Sched? ==> S.CanHappen(s, j.step))
  {
    match j
    case Pools(step) => [step]
    case Sched(step, proc, stack) =>
      if Creates(s, step) then [Spawn(S.FirstFree(s.pool), proc, stack)]
      else if step.DoFree? then [Reap(step.t)]
      else if step.DoSwitch? && S.Reaps(s, step.c) then [Reap(s.cur[step.c])]
      else []
  }

  /**
   kmalloc hands out a block that is not in use, and the new thread joins a live process.  Nothing is
   asked of the frees.
   */
  ghost predicate CanJoint(u: Joint, j: JointStep) {
    && S.Shape(u.sys) && Bounded(u.ledger.tasks)
    && match j
       case Sched(step, proc, stack) =>
         && SchedRuns.Legal(u.sys, step)
         && (Creates(u.sys, step) ==>
               && stack !in u.ledger.tasks.stacks && proc < MAX_PROCESSES
               && (proc >= 0 ==> u.ledger.tasks.processes[proc].used))
       case Pools(step) => (step.Found? || step.Condemn?) && CanStep(u.ledger, step)
  }

  ghost function JointNext(u: Joint, j: JointStep): (r: Joint)
    requires CanJoint(u, j)
    ensures S.Shape(r.sys)
  {
    var ps := PoolSteps(u.sys, j);
    Joint(if j.Sched? then S.Next(u.sys, j.step) else u.sys, if ps == [] then u.ledger else Step(u.ledger, ps[0]))
  }

  ghost predicate JointRun(u: Joint, js: seq<JointStep>)
    decreases |js|
  {
    && S.Shape(u.sys) && Bounded(u.ledger.tasks)
    && (js != [] ==> CanJoint(u, js[0]) && JointRun(JointNext(u, js[0]), js[1..]))
  }

  ghost function JointEnd(u: Joint, js: seq<JointStep>): Joint
    requires JointRun(u, js)
    decreases |js|
  {
    if js == [] then u else JointEnd(JointNext(u, js[0]), js[1..])
  }

  /** What the run asks of the pools, in order. */
  ghost function PoolRun(u: Joint, js: seq<JointStep>): seq<TaskStep>
    requires JointRun(u, js)
    decreases |js|
  {
    if js == [] then [] else PoolSteps(u.sys, js[0]) + PoolRun(JointNext(u, js[0]), js[1..])
  }

  /** The same slots are in use by the same IDs, and the frees of one are the returned stacks of the other. */
  ghost predicate JointInv(u: Joint) {
    && SchedInv.Inv(u.sys) && LedgerInv(u.ledger)
    && TaskKills.Matches(u.sys, u.ledger.tasks)
    && u.sys.nextTid == u.ledger.nextTid && u.sys.freed == u.ledger.returned
  }

  // ---- one step ------------------------------------------------------------------------------------

  /** Which slots are in use, by which IDs, after a scheduler step. */
  ghost predicate KeepsIds(s: S.Sys, s': S.Sys)
    requires S.Shape(s) && S.Shape(s')
  {
    && s'.nextTid == s.nextTid && s'.freed == s.freed
    && forall x :: 0 <= x < MAX_THREADS ==> s'.pool[x].used == s.pool[x].used && s'.pool[x].tid == s.pool[x].tid
  }

  /** The same, with slot t freed. */
  ghost predicate FreesId(s: S.Sys, s': S.Sys, t: nat)
    requires S.Shape(s) && S.Shape(s') && t < MAX_THREADS
  {
    && s'.nextTid == s.nextTid && s'.freed == s.freed + [s.pool[t].tid] && !s'.pool[t].used
    && forall x :: 0 <= x < MAX_THREADS && x != t ==>
         s'.pool[x].used == s.pool[x].used && s'.pool[x].tid == s.pool[x].tid
  }

  lemma OthersKeepIds(s: S.Sys, step: S.Step)
    requires S.Shape(s) && S.CanHappen(s, step) && !Creates(s, step) && !step.DoFree? && !step.DoSwitch?
    ensures KeepsIds(s, S.Next(s, step))
  {
    match step
    case DoBlock(c, o, mask, all) => SchedInv.BlockEffect(s, c, o, mask, all);
    case DoKill(c, t) => KillIds(s, c, t);
    case _ =>
  }

  lemma KillIds(s: S.Sys, c: nat, t: nat)
    requires S.Shape(s) && c < 2 && t < MAX_THREADS
    ensures S.Shape(S.Kill(s, c, t)) && KeepsIds(s, S.Kill(s, c, t))
  {
  }

  lemma SwitchIds(s: S.Sys, c: nat)
    requires S.Shape(s) && c < 2
    ensures if S.Reaps(s, c) then FreesId(s, S.Switch(s, c), s.cur[c]) else KeepsIds(s, S.Switch(s, c))
  {
    DepartedIds(s, c);
    DispatchIds(s, c);
  }

  lemma DepartedIds(s: S.Sys, c: nat)
    requires S.Shape(s) && c < 2
    ensures if S.Reaps(s, c) then FreesId(s, S.Departed(s, c), s.cur[c]) else KeepsIds(s, S.Departed(s, c))
  {
  }

  lemma DispatchIds(s: S.Sys, c: nat)
    requires S.Shape(s) && c < 2
    ensures KeepsIds(S.Departed(s, c), S.Switch(s, c))
  {
  }

  lemma SpawnMatches(s: S.Sys, s': S.Sys, l: Ledger, t: nat, proc: int, stack: nat)
    requires TaskKills.Matches(s, l.tasks) && s.nextTid == l.nextTid && S.Shape(s')
    requires InRange(l, Spawn(t, proc, stack))
    requires s'.pool == s.pool[t := s'.pool[t]] && s'.pool[t].used && s'.pool[t].tid == s.nextTid
    ensures TaskKills.Matches(s', Step(l, Spawn(t, proc, stack)).tasks)
  {
  }

  lemma ReapMatches(s: S.Sys, s': S.Sys, l: Ledger, t: nat)
    requires TaskKills.Matches(s, l.tasks) && S.Shape(s') && InRange(l, Reap(t))
    requires s.pool[t].used && FreesId(s, s', t) && s.freed == l.returned && s.nextTid == l.nextTid
    ensures TaskKills.Matches(s', Step(l, Reap(t)).tasks)
    ensures s'.freed == Step(l, Reap(t)).returned && s'.nextTid == Step(l, Reap(t)).nextTid
  {
  }

  /** What the scheduler asks of the pools is always possible: in particular it never frees a slot twice. */
  lemma PoolsCanFollow(u: Joint, j: JointStep)
    requires JointInv(u) && CanJoint(u, j)
    ensures forall i :: 0 <= i < |PoolSteps(u.sys, j)| ==> CanStep(u.ledger, PoolSteps(u.sys, j)[i])
  {
    if j.Sched? && (j.step.DoFree? || (j.step.DoSwitch? && S.Reaps(u.sys, j.step.c))) {
      FreedIsUsed(u.sys, j.step, if j.step.DoFree? then j.step.t else u.sys.cur[j.step.c]);
    }
  }

  lemma FreedIsUsed(s: S.Sys, step: S.Step, t: nat)
    requires SchedInv.Inv(s) && S.CanHappen(s, step) && SchedRuns.Frees(s, step, t)
    ensures t < MAX_THREADS && s.pool[t].used
  {
    SchedRuns.FreeIsSafe(s, step, t);
  }

  lemma SchedStepMatches(u: Joint, j: JointStep)
    requires JointInv(u) && CanJoint(u, j) && j.Sched?
    requires forall i :: 0 <= i < |PoolSteps(u.sys, j)| ==> CanStep(u.ledger, PoolSteps(u.sys, j)[i])
    ensures
      var r := JointNext(u, j);
      && TaskKills.Matches(r.sys, r.ledger.tasks)
      && r.sys.nextTid == r.ledger.nextTid && r.sys.freed == r.ledger.returned
  {
    var s, s' := u.sys, S.Next(u.sys, j.step);
    if Creates(s, j.step) {
      SpawnMatches(s, s', u.ledger, S.FirstFree(s.pool), j.proc, j.stack);
    } else if j.step.DoFree? {
      assert PoolSteps(s, j)[0] == Reap(j.step.t);
      ReapMatches(s, s', u.ledger, j.step.t);
    } else if j.step.DoSwitch? {
      SwitchIds(s, j.step.c);
      if S.Reaps(s, j.step.c) {
        assert PoolSteps(s, j)[0] == Reap(s.cur[j.step.c]);
        ReapMatches(s, s', u.ledger, s.cur[j.step.c]);
      }
    } else {
      OthersKeepIds(s, j.step);
    }
  }

  lemma JointStepKeeps(u: Joint, j: JointStep)
    requires JointInv(u) && CanJoint(u, j)
    ensures JointInv(JointNext(u, j))
  {
    PoolsCanFollow(u, j);
    var ps := PoolSteps(u.sys, j);
    if ps != [] {
      assert CanStep(u.ledger, ps[0]);
      StepKeepsLedger(u.ledger, ps[0]);
    }
    if j.Sched? {
      SchedStepMatches(u, j);
      SchedRuns.StepKeepsInv(u.sys, j.step);
    }
  }

  // ---- runs ----------------------------------------------------------------------------------------

  /**
   Along every legal run of the scheduler the pools follow: each create and each free is a possible
   step of theirs, both sides agree on who uses which slot, and the threads freed are, in order, those
   whose stacks went back.
   */
  lemma {:induction false} PoolsFollow(u: Joint, js: seq<JointStep>)
    requires JointInv(u) && JointRun(u, js)
    ensures JointInv(JointEnd(u, js))
    ensures TaskRun(u.ledger, PoolRun(u, js)) && TaskRuns.After(u.ledger, PoolRun(u, js)) == JointEnd(u, js).ledger
    decreases |js|
  {
    if js != [] {
      var next, ps := JointNext(u, js[0]), PoolSteps(u.sys, js[0]);
      PoolsCanFollow(u, js[0]);
      JointStepKeeps(u, js[0]);
      PoolsFollow(next, js[1..]);
      assert ps != [] ==> CanStep(u.ledger, ps[0]);
      RunFrom(u.ledger, ps, next.ledger, PoolRun(next, js[1..]));
    }
  }

  /** At most one step in front of a run. */
  lemma RunFrom(l: Ledger, ps: seq<TaskStep>, next: Ledger, rest: seq<TaskStep>)
    requires |ps| <= 1 && TaskRun(next, rest)
    requires if ps == [] then next == l else CanStep(l, ps[0]) && next == Step(l, ps[0])
    ensures TaskRun(l, ps + rest) && TaskRuns.After(l, ps + rest) == TaskRuns.After(next, rest)
  {
    if ps == [] {
      assert ps + rest == rest;
    } else {
      assert (ps + rest)[1..] == rest;
    }
  }

  /** The two idle threads have been created, on stacks a and b. */
  ghost function IdleLedger(a: nat, b: nat): (l: Ledger)
    requires a != b
    ensures l.nextTid == 3 && l.returned == [] && l.tasks.stacks == {a, b} && LedgerInv(l)
    ensures l.tasks.threads == Empty().tasks.threads[0 := Thread(true, 1, 0, a)][1 := Thread(true, 2, 0, b)]
  {
    EmptyIsSound();
    StepKeepsLedger(Empty(), Spawn(0, NULL, a));
    var l := Step(Empty(), Spawn(0, NULL, a));
    StepKeepsLedger(l, Spawn(1, NULL, b));
    Step(l, Spawn(1, NULL, b))
  }

  lemma BootMatches(isEvent: seq<bool>, a: nat, b: nat)
    requires a != b
    ensures JointInv(Joint(SchedRuns.Boot(isEvent), IdleLedger(a, b)))
  {
    SchedRuns.BootIsSound(isEvent);
  }

  /**
   From the start, over every legal run: a thread ID is freed at most once, exactly the IDs whose
   stacks are back are freed, and exactly the stacks of the threads in use are taken.
   */
  lemma FreedThreadsGaveBack(isEvent: seq<bool>, a: nat, b: nat, js: seq<JointStep>, id: nat, stack: nat)
    requires a != b && JointRun(Joint(SchedRuns.Boot(isEvent), IdleLedger(a, b)), js)
    ensures
      var e := JointEnd(Joint(SchedRuns.Boot(isEvent), IdleLedger(a, b)), js);
      && NoDup(e.sys.freed) && TaskKills.Matches(e.sys, e.ledger.tasks)
      && (id in e.sys.freed <==> id in e.ledger.taken && !LiveTid(e.ledger.tasks, id))
      && (stack in e.ledger.tasks.stacks <==> Held(e.ledger.tasks, stack))
  {
    BootMatches(isEvent, a, b);
    PoolsFollow(Joint(SchedRuns.Boot(isEvent), IdleLedger(a, b)), js);
    var e := JointEnd(Joint(SchedRuns.Boot(isEvent), IdleLedger(a, b)), js);
    IdsAreAccounted(e.ledger, id);
    StacksAreHeld(e.ledger, stack);
  }
}
