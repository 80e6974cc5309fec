/**
 Threads, processes and stacks over whole runs of create, condemn and free: every stack goes back
 to the heap once, none is lost, and a process lives as long as its threads.
 */
module TaskRuns {
  import opened Links
  import opened TaskSpec
  import TaskPool

  /**
   The pools with their history: the stack each thread ID was given, the IDs whose stack has gone
   back, and the PCB slots whose process has had a thread.
   */
  datatype Ledger = Ledger(tasks: Tasks, nextTid: nat, taken: map<nat, nat>, returned: seq<nat>, staffed: set<nat>)

  datatype TaskStep =
    | Spawn(t: nat, proc: int, stack: nat)    // task_create_thread, with kmalloc's answer
    | Found(k: nat, pid: nat)                 // task_create_process
    | Condemn(k: nat)                         // the mark task_kill_process leaves
    | Reap(t: nat)                            // task_free_thread

  ghost predicate Bounded(s: Tasks) {
    && Shape(s)
    && forall k :: 0 <= k < MAX_PROCESSES ==>
        |s.processes[k].threads| == MAX_THREADS && s.processes[k].count <= MAX_THREADS
  }

  /** The slots a step names exist. */
  ghost predicate InRange(l: Ledger, step: TaskStep) {
    && Bounded(l.tasks)
    && match step
       case Spawn(t, proc, _) => t < MAX_THREADS && proc < MAX_PROCESSES
       case Found(k, _) => k < MAX_PROCESSES
       case Condemn(k) => k < MAX_PROCESSES
       case Reap(t) => t < MAX_THREADS
  }

  ghost predicate CanStep(l: Ledger, step: TaskStep) {
    && InRange(l, step)
    && match step
       case Spawn(t, proc, stack) =>
         && !l.tasks.threads[t].used && stack !in l.tasks.stacks
         && (proc >= 0 ==> l.tasks.processes[proc].used)
       case Found(k, pid) =>
         !l.tasks.processes[k].used && pid != 0 && FindProcess(l.tasks.processes, pid) == MAX_PROCESSES
       case Condemn(k) => l.tasks.processes[k].used
       case Reap(t) => l.tasks.threads[t].used
  }

  ghost function Step(l: Ledger, step: TaskStep): Ledger
    requires InRange(l, step)
  {
    match step
    case Spawn(t, proc, stack) =>
      Ledger(CreateThread(l.tasks, t, l.nextTid, proc, stack), l.nextTid + 1, l.taken[l.nextTid := stack],
             l.returned, if proc >= 0 then l.staffed + {proc} else l.staffed)
    case Found(k, pid) => l.(tasks := CreateProcess(l.tasks, k, pid), staffed := l.staffed - {k})
    case Condemn(k) =>
      l.(tasks := l.tasks.(processes := l.tasks.processes[k := l.tasks.processes[k].(alive := false)]))
    case Reap(t) => l.(tasks := FreeThread(l.tasks, t), returned := l.returned + [l.tasks.threads[t].tid])
  }

  // ---- what the history says -------------------------------------------------------------------

  ghost predicate LiveTid(s: Tasks, id: nat)
    requires Shape(s)
  {
    exists t :: 0 <= t < MAX_THREADS && s.threads[t].used && s.threads[t].tid == id
  }

  ghost predicate Held(s: Tasks, stack: nat)
    requires Shape(s)
  {
    exists t :: 0 <= t < MAX_THREADS && s.threads[t].used && s.threads[t].stack == stack
  }

  /** A used thread still has the stack its ID was given, and its ID to itself. */
  ghost predicate Registered(l: Ledger, t: nat)
    requires Shape(l.tasks) && t < MAX_THREADS
  {
    var th := l.tasks.threads[t];
    th.used ==>
      && th.tid in l.taken && l.taken[th.tid] == th.stack && th.tid !in l.returned
      && forall u :: 0 <= u < MAX_THREADS && u != t && l.tasks.threads[u].used ==> l.tasks.threads[u].tid != th.tid
  }

  ghost predicate Accounted(l: Ledger, id: nat)
    requires Shape(l.tasks)
  {
    id < l.nextTid && (id in l.returned || LiveTid(l.tasks, id))
  }

  /** A process that has had a thread still has one; one without has never had any. */
  ghost predicate Peopled(l: Ledger, k: nat)
    requires Shape(l.tasks) && k < MAX_PROCESSES
  {
    l.tasks.processes[k].used ==> (l.tasks.processes[k].count > 0 <==> k in l.staffed)
  }

  ghost predicate LedgerInv(l: Ledger) {
    && TasksInv(l.tasks)
    && (forall t :: 0 <= t < MAX_THREADS ==> Registered(l, t))
    && (forall a :: a in l.tasks.stacks ==> Held(l.tasks, a))
    && (forall id :: id in l.taken ==> Accounted(l, id))
    && NoDup(l.returned) && (forall id :: id in l.returned ==> id in l.taken)
    && (forall k :: 0 <= k < MAX_PROCESSES ==> Peopled(l, k))
  }

  /** task_init */
  function Empty(): Ledger {
    Ledger(Tasks(seq(MAX_THREADS, _ => FREE_THREAD), seq(MAX_PROCESSES, _ => FreeProcess()), {}), 1, map[], [], {})
  }

  lemma EmptyIsSound()
    ensures LedgerInv(Empty())
  {
    var s := Empty().tasks;
    forall k | 0 <= k < MAX_PROCESSES ensures Owns(s, k) {}
  }

  lemma InvIsBounded(s: Tasks)
    requires TasksInv(s)
    ensures Bounded(s)
  {
    forall k | 0 <= k < MAX_PROCESSES
      ensures |s.processes[k].threads| == MAX_THREADS && s.processes[k].count <= MAX_THREADS
    {
      assert Owns(s, k);
    }
  }

  // ---- each step keeps it ------------------------------------------------------------------------

  lemma StepKeepsTasks(l: Ledger, step: TaskStep)
    requires TasksInv(l.tasks) && CanStep(l, step)
    ensures TasksInv(Step(l, step).tasks)
  {
    match step
    case Spawn(t, proc, stack) => CreateKeepsInv(l.tasks, t, l.nextTid, proc, stack);
    case Found(k, pid) => CreateProcessKeepsInv(l.tasks, k, pid);
    case Condemn(k) => TaskPool.AliveKeepsInv(l.tasks, k);
    case Reap(t) => FreeKeepsInv(l.tasks, t);
  }

  lemma StepKeepsRegistered(l: Ledger, step: TaskStep, t: nat)
    requires LedgerInv(l) && CanStep(l, step) && t < MAX_THREADS
    ensures Shape(Step(l, step).tasks) && Registered(Step(l, step), t)
  {
    assert Registered(l, t);
    if step.Spawn? {
      assert forall id :: id in l.taken ==> Accounted(l, id);
      forall u | 0 <= u < MAX_THREADS && l.tasks.threads[u].used
        ensures l.tasks.threads[u].tid < l.nextTid
      {
        assert Registered(l, u);
      }
      assert l.nextTid !in l.taken;
    } else if step.Reap? {
      assert Registered(l, step.t);
    }
  }

  lemma StepKeepsHeld(l: Ledger, step: TaskStep, a: nat)
    requires LedgerInv(l) && CanStep(l, step) && a in Step(l, step).tasks.stacks
    ensures Shape(Step(l, step).tasks) && Held(Step(l, step).tasks, a)
  {
    var s, s' := l.tasks, Step(l, step).tasks;
    if step.Spawn? && a == step.stack {
      assert s'.threads[step.t].used;
    } else {
      assert Held(s, a);
      var u :| 0 <= u < MAX_THREADS && s.threads[u].used && s.threads[u].stack == a;
      assert s'.threads[u] == s.threads[u];
    }
  }

  lemma StepKeepsAccounted(l: Ledger, step: TaskStep, id: nat)
    requires LedgerInv(l) && CanStep(l, step) && id in Step(l, step).taken
    ensures Shape(Step(l, step).tasks) && Accounted(Step(l, step), id)
  {
    var l' := Step(l, step);
    if step.Spawn? && id == l.nextTid {
      assert l'.tasks.threads[step.t].used;
    } else {
      assert Accounted(l, id);
      if id !in l.returned {
        var u :| 0 <= u < MAX_THREADS && l.tasks.threads[u].used && l.tasks.threads[u].tid == id;
        if step.Reap? && u == step.t {
          assert l'.returned[|l.returned|] == id;
        } else {
          assert l'.tasks.threads[u] == l.tasks.threads[u];
        }
      } else if step.Reap? {
        assert id in l.returned + [l.tasks.threads[step.t].tid];
      }
    }
  }

  lemma StepKeepsPeopled(l: Ledger, step: TaskStep, k: nat)
    requires LedgerInv(l) && CanStep(l, step) && k < MAX_PROCESSES
    ensures Shape(Step(l, step).tasks) && Peopled(Step(l, step), k)
  {
    assert Peopled(l, k) && Owns(l.tasks, k);
    if step.Spawn? && step.proc == k {
      LinkHasRoom(l.tasks, step.t, k);
    } else if step.Reap? {
      OwnerOf(l.tasks, step.t);
    }
  }

  lemma StepKeepsLedger(l: Ledger, step: TaskStep)
    requires LedgerInv(l) && CanStep(l, step)
    ensures LedgerInv(Step(l, step))
  {
    var l' := Step(l, step);
    StepKeepsTasks(l, step);
    forall t | 0 <= t < MAX_THREADS ensures Registered(l', t) { StepKeepsRegistered(l, step, t); }
    forall a | a in l'.tasks.stacks ensures Held(l'.tasks, a) { StepKeepsHeld(l, step, a); }
    forall id | id in l'.taken ensures Accounted(l', id) { StepKeepsAccounted(l, step, id); }
    forall k | 0 <= k < MAX_PROCESSES ensures Peopled(l', k) { StepKeepsPeopled(l, step, k); }
    if step.Reap? {
      assert Registered(l, step.t);
    }
  }

  // ---- runs ---------------------------------------------------------------------------------------

  ghost predicate TaskRun(l: Ledger, steps: seq<TaskStep>)
    decreases |steps|
  {
    steps != [] ==> CanStep(l, steps[0]) && TaskRun(Step(l, steps[0]), steps[1..])
  }

  ghost function After(l: Ledger, steps: seq<TaskStep>): Ledger
    requires TaskRun(l, steps)
    decreases |steps|
  {
    if steps == [] then l else After(Step(l, steps[0]), steps[1..])
  }

  lemma {:induction false} RunKeepsLedger(l: Ledger, steps: seq<TaskStep>)
    requires LedgerInv(l) && TaskRun(l, steps)
    ensures LedgerInv(After(l, steps))
    decreases |steps|
  {
    if steps != [] {
      StepKeepsLedger(l, steps[0]);
      RunKeepsLedger(Step(l, steps[0]), steps[1..]);
    }
  }

  lemma StacksAreHeld(l: Ledger, a: nat)
    requires LedgerInv(l)
    ensures a in l.tasks.stacks <==> Held(l.tasks, a)
  {
    if Held(l.tasks, a) {
      var t :| 0 <= t < MAX_THREADS && l.tasks.threads[t].used && l.tasks.threads[t].stack == a;
      assert ThreadOk(l.tasks, t);
    }
  }

  lemma IdsAreAccounted(l: Ledger, id: nat)
    requires LedgerInv(l)
    ensures id in l.taken <==> id in l.returned || LiveTid(l.tasks, id)
    ensures !(id in l.returned && LiveTid(l.tasks, id))
    ensures forall t :: 0 <= t < MAX_THREADS && l.tasks.threads[t].used && l.tasks.threads[t].tid == id ==>
              id in l.taken && l.tasks.threads[t].stack == l.taken[id]
  {
    forall t | 0 <= t < MAX_THREADS && l.tasks.threads[t].used && l.tasks.threads[t].tid == id
      ensures id in l.taken && id !in l.returned && l.tasks.threads[t].stack == l.taken[id]
    {
      assert Registered(l, t);
    }
    if id in l.taken {
      assert Accounted(l, id);
    }
  }

  /**
   After every run from task_init: the stacks taken from the heap are exactly those of the used
   threads, no two of which share one; each thread ID ever given out either still has its stack or
   has given it back, once; and nobody gave back a stack it was not given.
   */
  lemma StacksGoBackOnce(steps: seq<TaskStep>, a: nat, id: nat)
    requires TaskRun(Empty(), steps)
    ensures
      var e := After(Empty(), steps);
      && TasksInv(e.tasks)
      && (a in e.tasks.stacks <==> Held(e.tasks, a))
      && NoDup(e.returned)
      && (id in e.taken <==> id in e.returned || LiveTid(e.tasks, id))
      && !(id in e.returned && LiveTid(e.tasks, id))
      && (forall t :: 0 <= t < MAX_THREADS && e.tasks.threads[t].used && e.tasks.threads[t].tid == id ==>
            id in e.taken && e.tasks.threads[t].stack == e.taken[id])
  {
    EmptyIsSound();
    RunKeepsLedger(Empty(), steps);
    StacksAreHeld(After(Empty(), steps), a);
    IdsAreAccounted(After(Empty(), steps), id);
  }

  /** After every run from task_init: a live process that has had a thread still has one. */
  lemma ProcessLivesWithItsThreads(steps: seq<TaskStep>, k: nat)
    requires TaskRun(Empty(), steps) && k < MAX_PROCESSES
    ensures
      var e := After(Empty(), steps);
      && Shape(e.tasks)
      && (e.tasks.processes[k].used ==>
            (k in e.staffed <==>
              exists t :: 0 <= t < MAX_THREADS && e.tasks.threads[t].used &&
                  e.tasks.threads[t].pid == e.tasks.processes[k].pid))
  {
    EmptyIsSound();
    RunKeepsLedger(Empty(), steps);
    var s := After(Empty(), steps).tasks;
    assert Owns(s, k) && Peopled(After(Empty(), steps), k);
    if s.processes[k].used && s.processes[k].count > 0 {
      assert Members(s.processes[k])[0] in Members(s.processes[k]);
    }
  }

  /** The bounds every step asks for hold after every run, so they rule out no call. */
  lemma RunStaysBounded(steps: seq<TaskStep>)
    requires TaskRun(Empty(), steps)
    ensures Bounded(After(Empty(), steps).tasks)
  {
    EmptyIsSound();
    RunKeepsLedger(Empty(), steps);
    InvIsBounded(After(Empty(), steps).tasks);
  }
}
