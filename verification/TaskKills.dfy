/**
 Killing a thread or a whole process: task_kill_thread and task_kill_process of src/kernel/task.c
 between the scheduler, which decides when a thread may be freed, and the pools, which free it.
 */
module TaskKills {
  import opened SchedInv
  import opened TaskSpec
  import S = SchedSpec
  import Kernel
  import TaskPool

  /** Scheduler and pools agree on which TCB slots are in use, and by which thread. */
  ghost predicate Matches(s: S.Sys, p: Tasks) {
    && S.Shape(s) && Shape(p)
    && forall t :: 0 <= t < MAX_THREADS ==>
         s.pool[t].used == p.threads[t].used && (s.pool[t].used ==> s.pool[t].tid == p.threads[t].tid)
  }

  /** The threads sched_kill hands back to its caller: on no core and on no waiter list. */
  ghost predicate Handed(s: S.Sys, t: nat)
    requires S.Shape(s) && t < MAX_THREADS
  {
    t !in s.cur && s.pool[t].state in {S.Ready, S.Sleeping}
  }

  /** task_kill_thread: sched_kill, and the free if it is handed back. */
  ghost function KillOne(s: S.Sys, c: nat, t: nat): (r: S.Sys)
    requires S.Shape(s) && c < 2 && t < MAX_THREADS
    ensures S.Shape(r)
  {
    var k := S.Kill(s, c, t);
    if Handed(s, t) then S.FreeThread(k, t) else k
  }

  /** The threads of a snapshot, one after the other. */
  ghost function KillEach(s: S.Sys, c: nat, ts: seq<int>): (r: S.Sys)
    requires S.Shape(s) && c < 2 && forall i :: 0 <= i < |ts| ==> 0 <= ts[i] < MAX_THREADS
    ensures S.Shape(r)
    decreases |ts|
  {
    if ts == [] then s else KillEach(KillOne(s, c, ts[0]), c, ts[1..])
  }

  /** A dead thread that somebody else will free: marked on the other core, or a ZOMBIE. */
  predicate Dying(tcb: S.Tcb) {
    tcb.state == S.Zombie || tcb.killPending
  }

  lemma KillOneKeeps(s: S.Sys, c: nat, t: nat)
    requires Inv(s) && S.CanHappen(s, S.DoKill(c, t))
    ensures Inv(KillOne(s, c, t))
  {
    KillKeepsInv(s, c, t);
    if Handed(s, t) {
      SchedInv.FreeKeepsInv(S.Kill(s, c, t), t);
    }
  }

  lemma KillOneEffect(s: S.Sys, c: nat, t: nat, x: nat)
    requires S.Shape(s) && S.CanHappen(s, S.DoKill(c, t)) && x < MAX_THREADS && Ok(ViewOf(s, t))
    requires s.resumed == [false, false]
    ensures KillOne(s, c, t).cur == s.cur && KillOne(s, c, t).idle == s.idle && KillOne(s, c, t).doomed == s.doomed
    ensures KillOne(s, c, t).resumed == s.resumed
    ensures x != t ==> KillOne(s, c, t).pool[x] == s.pool[x]
    ensures Handed(s, t) ==> KillOne(s, c, t).pool[t] == S.FREE_TCB
    ensures !Handed(s, t) ==>
              Dying(KillOne(s, c, t).pool[t]) && KillOne(s, c, t).pool[t].tid == s.pool[t].tid &&
                  KillOne(s, c, t).pool[t].used
    ensures KillOne(s, c, t).pool[s.cur[c]].state in {S.Running, S.Zombie}
  {
  }

  /** The snapshot of a process: distinct used threads, none of them idle. */
  ghost predicate Victims(s: S.Sys, ts: seq<int>)
    requires S.Shape(s)
  {
    && (forall i :: 0 <= i < |ts| ==> 0 <= ts[i] < MAX_THREADS && Victim(s, ts[i]))
    && (forall i, j :: 0 <= i < j < |ts| ==> ts[i] != ts[j])
  }

  ghost predicate Victim(s: S.Sys, t: nat)
    requires S.Shape(s) && t < MAX_THREADS
  {
    s.pool[t].used && t !in s.idle
  }

  ghost predicate KillerRuns(s: S.Sys, c: nat)
    requires S.Shape(s)
  {
    c < 2 && s.cur[c] !in s.idle && s.pool[s.cur[c]].state in {S.Running, S.Zombie}
  }

  ghost predicate Killable(s: S.Sys, c: nat, ts: seq<int>) {
    Inv(s) && KillerRuns(s, c) && Victims(s, ts)
  }

  /**
   Killing a process frees at once exactly those of its threads that were READY or SLEEPING and on no
   core, marks all the others, and touches nobody else.
   */
  lemma {:induction false} KillEachKeeps(s: S.Sys, c: nat, ts: seq<int>, x: nat)
    requires Killable(s, c, ts) && x < MAX_THREADS
    ensures Inv(KillEach(s, c, ts))
    ensures
      var e := KillEach(s, c, ts);
      if x !in ts then e.pool[x] == s.pool[x]
      else if Handed(s, x) then e.pool[x] == S.FREE_TCB
      else e.pool[x].used && e.pool[x].tid == s.pool[x].tid && Dying(e.pool[x])
    decreases |ts|
  {
    if ts != [] {
      FirstVictim(s, c, ts);
      KillOneEffect(s, c, ts[0], x);
      KillEachKeeps(KillOne(s, c, ts[0]), c, ts[1..], x);
      assert x in ts <==> x == ts[0] || x in ts[1..];
      assert ts[0] !in ts[1..];
    }
  }

  lemma KillOneMatches(s: S.Sys, p: Tasks, p': Tasks, c: nat, t: nat)
    requires Matches(s, p) && c < 2 && t < MAX_THREADS && Shape(p')
    requires forall u :: 0 <= u < MAX_THREADS && u != t ==> p'.threads[u] == p.threads[u]
    requires if Handed(s, t) then !p'.threads[t].used else p'.threads[t] == p.threads[t]
    ensures Matches(KillOne(s, c, t), p')
  {
  }

  lemma HandedIs(s: S.Sys, c: nat, t: nat)
    requires S.Shape(s) && c < 2 && t < MAX_THREADS
    requires s.pool[t].state != S.New && (s.pool[t].state == S.Running ==> t in s.cur)
    ensures Handed(s, t) <==>
              && s.cur[c] != t && s.cur[1 - c] != t && s.pool[t].state != S.Blocked && s.pool[t].state != S.Zombie
  {
  }

  /** What task_kill_thread asks of its victim; one that another killer has doomed is left alone. */
  ghost predicate MayKill(s: S.Sys, c: nat, t: nat) {
    && S.Shape(s) && Kernel.Disjoint(s) && S.CanHappen(s, S.DoKill(c, t))
    && s.pool[t].state != S.New && (s.pool[t].state == S.Running ==> t in s.cur)
  }

  /** The threads of ts can be killed in turn. */
  ghost predicate KillsInTurn(s: S.Sys, c: nat, ts: seq<int>)
    decreases |ts|
  {
    ts != [] ==> 0 <= ts[0] < MAX_THREADS && MayKill(s, c, ts[0]) && KillsInTurn(KillOne(s, c, ts[0]), c, ts[1..])
  }

  lemma {:induction false} KillableInTurn(s: S.Sys, c: nat, ts: seq<int>)
    requires Killable(s, c, ts)
    ensures KillsInTurn(s, c, ts)
    decreases |ts|
  {
    if ts != [] {
      FirstVictim(s, c, ts);
      KillableInTurn(KillOne(s, c, ts[0]), c, ts[1..]);
    }
  }

  /** The scheduler's half of task_kill_thread: sched_kill, and its TCB if it is handed back. */
  method SchedKill(k: Kernel.Scheduler, c: nat, t: nat) returns (freeNow: bool)
    requires k.Rep() && Kernel.Disjoint(k.abs) && c < 2 && t < MAX_THREADS
    requires k.abs.pool[t].state != S.New && (k.abs.pool[t].state == S.Running ==> t in k.abs.cur)
    modifies k`abs, k.link, k.readyHead, k.pool
    ensures k.Rep() && k.abs == KillOne(old(k.abs), c, t)
    ensures freeNow == Handed(old(k.abs), t)
  {
    HandedIs(k.abs, c, t);
    freeNow := k.Kill(c, t);
    if freeNow {
      k.FreeTcb(t);
    }
  }

  /** The pools' half: task_free_thread. */
  method PoolFree(p: TaskPool.Pool, ghost k: Kernel.Scheduler, t: nat)
    requires k.Rep() && p.Valid() && t < MAX_THREADS && p.threads[t].used
    modifies p, p.threads, p.processes, p.heap, p.heap.mem
    ensures k.Rep() && k.abs == old(k.abs)
    ensures p.Valid() && !p.threads[t].used
    ensures forall u :: 0 <= u < MAX_THREADS && u != t ==> p.threads[u] == old(p.threads[u])
    ensures forall i :: 0 <= i < MAX_PROCESSES && p.processes[i].alive ==> old(p.processes[i].alive)
  {
    p.FreeThread(t);
  }

  /** task_kill_thread, called on core c. */
  method KillThread(p: TaskPool.Pool, k: Kernel.Scheduler, c: nat, t: nat)
    requires k.Rep() && p.Valid() && Matches(k.abs, p.Abs())
    requires MayKill(k.abs, c, t)
    modifies k`abs, k.link, k.readyHead, k.pool
    modifies p, p.threads, p.processes, p.heap, p.heap.mem
    ensures k.Rep() && k.abs == KillOne(old(k.abs), c, t)
    ensures p.Valid() && Matches(k.abs, p.Abs())
    ensures p.threads[t].used == !Handed(old(k.abs), t)
    ensures forall i :: 0 <= i < MAX_PROCESSES && p.processes[i].alive ==> old(p.processes[i].alive)
  {
    ghost var s, before := k.abs, p.Abs();
    var freeNow := SchedKill(k, c, t);
    if freeNow {
      PoolFree(p, k, t);
    }
    KillOneMatches(s, before, p.Abs(), c, t);
  }

  /** task_kill_process, called on core c, over a snapshot of the process's threads. */
  method KillProcess(p: TaskPool.Pool, k: Kernel.Scheduler, c: nat, proc: nat) returns (ghost victims: seq<int>)
    requires k.Rep() && p.Valid() && Matches(k.abs, p.Abs())
    requires proc < MAX_PROCESSES && p.processes[proc].used
    requires Killable(k.abs, c, Members(p.processes[proc]))
    modifies k`abs, k.link, k.readyHead, k.pool
    modifies p, p.threads, p.processes, p.heap, p.heap.mem
    ensures victims == Members(old(p.processes[proc])) && Killable(old(k.abs), c, victims)
    ensures k.Rep() && k.abs == KillEach(old(k.abs), c, victims)
    ensures p.Valid() && Matches(k.abs, p.Abs())
    ensures !p.processes[proc].alive
  {
    victims := Members(p.processes[proc]);
    p.Condemn(proc);
    var snapshot := Snapshot(p, proc);
    KillableInTurn(k.abs, c, snapshot);
    KillSnapshot(p, k, c, proc, snapshot);
  }

  /** The loop of task_kill_process. */
  method KillSnapshot(p: TaskPool.Pool, k: Kernel.Scheduler, c: nat, ghost proc: nat, snapshot: seq<int>)
    requires k.Rep() && p.Valid() && Matches(k.abs, p.Abs()) && proc < MAX_PROCESSES
    requires !p.processes[proc].alive
    requires c < 2 && KillsInTurn(k.abs, c, snapshot) && forall i :: 0 <= i < |snapshot| ==>
             0 <= snapshot[i] < MAX_THREADS
    modifies k`abs, k.link, k.readyHead, k.pool
    modifies p, p.threads, p.processes, p.heap, p.heap.mem
    ensures k.Rep() && k.abs == KillEach(old(k.abs), c, snapshot)
    ensures p.Valid() && Matches(k.abs, p.Abs())
    ensures !p.processes[proc].alive
  {
    ghost var s, now, rest := k.abs, k.abs, snapshot;
    var i := 0;
    while i < |snapshot|
      invariant 0 <= i <= |snapshot| && rest == snapshot[i..] && now == k.abs
      invariant k.Rep() && p.Valid() && Matches(k.abs, p.Abs())
      invariant KillsInTurn(now, c, rest) && S.Shape(now) && KillEach(now, c, rest) == KillEach(s, c, snapshot)
      invariant !p.processes[proc].alive
    {
      now, rest := KillOne(now, c, rest[0]), rest[1..];
      KillThread(p, k, c, snapshot[i]);
      i := i + 1;
    }
  }

  /** The thread array as it is before the frees start compacting it. */
  method Snapshot(p: TaskPool.Pool, proc: nat) returns (ts: seq<int>)
    requires p.Rep() && proc < MAX_PROCESSES && p.processes[proc].count <= |p.processes[proc].threads|
    ensures ts == Members(p.processes[proc])
  {
    ts := p.processes[proc].threads[..p.processes[proc].count];
  }

  /** What killing the first thread of a snapshot asks for, and what it leaves for the rest. */
  lemma FirstVictim(s: S.Sys, c: nat, ts: seq<int>)
    requires Killable(s, c, ts) && ts != []
    ensures
      var t := ts[0];
      && 0 <= t < MAX_THREADS && Kernel.Disjoint(s) && S.CanHappen(s, S.DoKill(c, t))
      && s.pool[t].state != S.New && (s.pool[t].state == S.Running ==> t in s.cur)
      && Killable(KillOne(s, c, t), c, ts[1..]) && KillEach(s, c, ts) == KillEach(KillOne(s, c, t), c, ts[1..])
  {
    var t := ts[0];
    assert Victim(s, t);
    assert Ok(ViewOf(s, t));
    Kernel.InvIsDisjoint(s);
    KillOneKeeps(s, c, t);
    RestAreVictims(s, c, ts);
  }

  lemma RestAreVictims(s: S.Sys, c: nat, ts: seq<int>)
    requires S.Shape(s) && KillerRuns(s, c) && Victims(s, ts) && ts != [] && Ok(ViewOf(s, ts[0])) &&
             S.CanHappen(s, S.DoKill(c, ts[0])) && s.resumed == [false, false]
    ensures Victims(KillOne(s, c, ts[0]), ts[1..]) && KillerRuns(KillOne(s, c, ts[0]), c)
  {
    var s' := KillOne(s, c, ts[0]);
    assert Victim(s, ts[0]);
    KillOneEffect(s, c, ts[0], 0);
    forall i | 0 <= i < |ts[1..]|
      ensures Victim(s', ts[1..][i])
    {
      assert Victim(s, ts[i + 1]) && ts[0] != ts[i + 1];
      KillOneEffect(s, c, ts[0], ts[i + 1]);
    }
  }
}
