/**
 Threads, processes and stacks of src/kernel/task.c on values: which process a thread belongs
 to, which PIDs are live, and which heap block is whose stack.
 */
module TaskSpec {
  import opened Links

  const MAX_THREADS: nat := 16
  const MAX_PROCESSES: nat := 8

  /** A TCB slot, as far as ownership goes; stack is the address kmalloc returned. */
  datatype Thread = Thread(used: bool, tid: nat, pid: nat, stack: nat)

  const FREE_THREAD := Thread(false, 0, 0, 0)

  /** A PCB slot: threads holds TCB slots, NULL behind the first count of them. */
  datatype Process = Process(used: bool, pid: nat, alive: bool, count: nat, threads: seq<int>)

  function FreeProcess(): Process {
    Process(false, 0, false, 0, seq(MAX_THREADS, _ => NULL))
  }

  datatype Range = Range(base: nat, limit: nat, next: nat)

  datatype Tasks = Tasks(threads: seq<Thread>, processes: seq<Process>, stacks: set<nat>)

  /** task_find_process, with the number of slots for "not found". */
  function FindProcess(ps: seq<Process>, pid: nat): (i: nat)
    ensures i <= |ps|
    ensures i < |ps| ==> ps[i].used && ps[i].pid == pid
    ensures forall k :: 0 <= k < i ==> !(ps[k].used && ps[k].pid == pid)
  {
    if ps == [] || (ps[0].used && ps[0].pid == pid) then 0 else 1 + FindProcess(ps[1..], pid)
  }

  ghost predicate LivePid(ps: seq<Process>, pid: nat) {
    exists i :: 0 <= i < |ps| && ps[i].used && ps[i].pid == pid
  }

  /** The TCB slots a process has linked. */
  ghost function Members(p: Process): seq<int> {
    if p.count <= |p.threads| then p.threads[..p.count] else []
  }

  ghost predicate Shape(s: Tasks) {
    |s.threads| == MAX_THREADS && |s.processes| == MAX_PROCESSES
  }

  /** threads[] is a duplicate-free prefix of TCB slots and NULL behind it. */
  ghost predicate Compacted(p: Process) {
    && |p.threads| == MAX_THREADS && p.count <= MAX_THREADS
    && (forall i :: 0 <= i < p.count ==> 0 <= p.threads[i] < MAX_THREADS)
    && (forall i :: p.count <= i < MAX_THREADS ==> p.threads[i] == NULL)
    && (forall i, j :: 0 <= i < j < p.count ==> p.threads[i] != p.threads[j])
    && (!p.used ==> p == FreeProcess())
  }

  /** A process lists exactly the used threads that carry its PID. */
  ghost predicate Owns(s: Tasks, k: nat)
    requires Shape(s) && k < MAX_PROCESSES
  {
    var p := s.processes[k];
    Compacted(p) &&
    (p.used ==> p.pid != 0 && forall t :: 0 <= t < MAX_THREADS ==>
      (t in Members(p) <==> s.threads[t].used && s.threads[t].pid == p.pid))
  }

  ghost predicate DistinctPids(ps: seq<Process>) {
    forall i, j :: 0 <= i < j < |ps| && ps[i].used && ps[j].used ==> ps[i].pid != ps[j].pid
  }

  /** A used thread's process is live, and its stack is a live heap block of its own. */
  ghost predicate ThreadOk(s: Tasks, t: nat)
    requires Shape(s) && t < MAX_THREADS
  {
    s.threads[t].used ==>
      && (s.threads[t].pid == 0 || LivePid(s.processes, s.threads[t].pid))
      && s.threads[t].stack in s.stacks
      && forall u :: 0 <= u < MAX_THREADS && u != t && s.threads[u].used ==> s.threads[u].stack != s.threads[t].stack
  }

  ghost predicate TasksInv(s: Tasks) {
    && Shape(s) && DistinctPids(s.processes)
    && (forall k :: 0 <= k < MAX_PROCESSES ==> Owns(s, k))
    && (forall t :: 0 <= t < MAX_THREADS ==> ThreadOk(s, t))
  }

  // ---- the operations ----------------------------------------------------------------------

  /** A thread linked behind a process's other threads. */
  function Linked(p: Process, t: nat): Process
    requires |p.threads| == MAX_THREADS
  {
    if p.count < MAX_THREADS then p.(threads := p.threads[p.count := t], count := p.count + 1) else p
  }

  /** task_create_thread in slot t, with the stack kmalloc returned; proc is a PCB slot or NULL. */
  function CreateThread(s: Tasks, t: nat, tid: nat, proc: int, stack: nat): Tasks
    requires Shape(s) && t < MAX_THREADS && proc < MAX_PROCESSES
    requires proc >= 0 ==> |s.processes[proc].threads| == MAX_THREADS
  {
    var pid := if proc >= 0 then s.processes[proc].pid else 0;
    Tasks(s.threads[t := Thread(true, tid, pid, stack)],
          if proc >= 0 then s.processes[proc := Linked(s.processes[proc], t)] else s.processes,
          s.stacks + {stack})
  }

  /** task_create_process in slot k. */
  function CreateProcess(s: Tasks, k: nat, pid: nat): Tasks
    requires Shape(s) && k < MAX_PROCESSES
  {
    s.(processes := s.processes[k := FreeProcess().(used := true, pid := pid, alive := true)])
  }

  function IndexIn(q: seq<int>, t: int): (i: nat)
    ensures i <= |q|
    ensures i < |q| ==> q[i] == t
    ensures forall k :: 0 <= k < i ==> q[k] != t
  {
    if q == [] || q[0] == t then 0 else 1 + IndexIn(q[1..], t)
  }

  /** threads[] without position i, shifted down. */
  function Dropped(p: Process, i: nat): Process
    requires |p.threads| == MAX_THREADS && i < p.count <= MAX_THREADS
  {
    p.(count := p.count - 1, threads := p.threads[..i] + p.threads[i + 1..p.count] + [NULL] + p.threads[p.count..])
  }

  /** Every slot behind position i holds what its neighbour held; the last one is NULL. */
  lemma DroppedAt(p: Process, i: nat)
    requires |p.threads| == MAX_THREADS && i < p.count <= MAX_THREADS
    ensures |Dropped(p, i).threads| == MAX_THREADS
    ensures forall x :: 0 <= x < MAX_THREADS ==>
              Dropped(p, i).threads[x] == if i <= x < p.count - 1 then p.threads[x + 1]
                  else if x == p.count - 1 then NULL else p.threads[x]
  {
    var a, b, c := p.threads[..i], p.threads[i + 1..p.count], p.threads[p.count..];
    assert |a| == i && |b| == p.count - 1 - i && |c| == MAX_THREADS - p.count;
    assert Dropped(p, i).threads == a + b + [NULL] + c;
  }

  /** The unlinking of task_free_thread. */
  function Unlinked(p: Process, t: nat): Process
    requires |p.threads| == MAX_THREADS && p.count <= MAX_THREADS
  {
    var i := IndexIn(p.threads[..p.count], t);
    if i < p.count then Dropped(p, i) else p
  }

  /** task_free_thread */
  function FreeThread(s: Tasks, t: nat): Tasks
    requires Shape(s) && t < MAX_THREADS
    requires forall k :: 0 <= k < MAX_PROCESSES ==>
             |s.processes[k].threads| == MAX_THREADS && s.processes[k].count <= MAX_THREADS
  {
    var k := FindProcess(s.processes, s.threads[t].pid);
    var rest := s.(threads := s.threads[t := FREE_THREAD], stacks := s.stacks - {s.threads[t].stack});
    if k == MAX_PROCESSES then rest
    else
      var p := Unlinked(s.processes[k], t);
      rest.(processes := s.processes[k := if p.count == 0 then FreeProcess() else p])
  }

  // ---- what they keep --------------------------------------------------------------------------

  lemma FindIs(ps: seq<Process>, pid: nat, k: nat)
    requires DistinctPids(ps) && k < |ps| && ps[k].used && ps[k].pid == pid
    ensures FindProcess(ps, pid) == k
  {
  }

  function SetOf(q: seq<int>): (r: set<int>)
    ensures forall x: int :: x in r <==> x in q
    ensures NoDup(q) ==> |r| == |q|
  {
    if q == [] then {} else SetOf(q[..|q| - 1]) + {q[|q| - 1]}
  }

  /** Distinct slots below n that leave one slot out number fewer than n. */
  lemma RoomForOne(q: seq<int>, t: nat, n: nat)
    requires t < n && t !in q && NoDup(q)
    requires forall i :: 0 <= i < |q| ==> 0 <= q[i] < n
    ensures |q| < n
  {
    var a, b := SetOf(q), FirstNumbers(n) - {t};
    forall x: int | x in a
      ensures x in b
    {
      assert x in q;
    }
    SubsetCount(a, b);
  }

  /** The bound test on thread_count never drops a link: there is always room for a new thread. */
  lemma LinkHasRoom(s: Tasks, t: nat, proc: nat)
    requires TasksInv(s) && t < MAX_THREADS && !s.threads[t].used && proc < MAX_PROCESSES
    ensures s.processes[proc].count < MAX_THREADS
    ensures t !in Members(s.processes[proc])
  {
    var p := s.processes[proc];
    assert Owns(s, proc);
    RoomForOne(Members(p), t, MAX_THREADS);
  }

  lemma LinkedMembers(p: Process, t: nat)
    requires Compacted(p) && p.used && p.count < MAX_THREADS && t < MAX_THREADS && t !in Members(p)
    ensures Compacted(Linked(p, t)) && Members(Linked(p, t)) == Members(p) + [t]
  {
  }

  lemma CreateKeepsInv(s: Tasks, t: nat, tid: nat, proc: int, stack: nat)
    requires TasksInv(s) && t < MAX_THREADS && !s.threads[t].used && proc < MAX_PROCESSES && stack !in s.stacks
    requires proc >= 0 ==> s.processes[proc].used
    ensures proc >= 0 ==> |s.processes[proc].threads| == MAX_THREADS
    ensures TasksInv(CreateThread(s, t, tid, proc, stack))
  {
    forall k | 0 <= k < MAX_PROCESSES ensures Compacted(s.processes[k]) { assert Owns(s, k); }
    var s' := CreateThread(s, t, tid, proc, stack);
    if proc >= 0 {
      LinkHasRoom(s, t, proc);
      LinkedMembers(s.processes[proc], t);
    }
    forall k | 0 <= k < MAX_PROCESSES
      ensures Owns(s', k)
    {
      assert Owns(s, k);
      if proc >= 0 && k != proc {
        assert Owns(s, proc);
      }
    }
    forall u | 0 <= u < MAX_THREADS
      ensures s.threads[u].used ==> s.threads[u].stack in s.stacks
    {
      assert ThreadOk(s, u);
    }
    forall u | 0 <= u < MAX_THREADS
      ensures ThreadOk(s', u)
    {
      assert ThreadOk(s, u);
      CreatedIsLive(s, s', t, proc, u);
    }
  }

  lemma CreatedIsLive(s: Tasks, s': Tasks, t: nat, proc: int, u: nat)
    requires Shape(s) && Shape(s') && t < MAX_THREADS && u < MAX_THREADS && proc < MAX_PROCESSES && ThreadOk(s, u)
    requires forall k :: 0 <= k < MAX_PROCESSES ==>
             s'.processes[k].used == s.processes[k].used && s'.processes[k].pid == s.processes[k].pid
    requires u != t ==> s'.threads[u] == s.threads[u]
    requires u == t ==>
             s'.threads[t].pid == 0 ||
             (proc >= 0 && s.processes[proc].used && s'.threads[t].pid == s.processes[proc].pid)
    ensures s'.threads[u].used ==> s'.threads[u].pid == 0 || LivePid(s'.processes, s'.threads[u].pid)
  {
    if u != t && s.threads[u].used && s.threads[u].pid != 0 {
      var k :| 0 <= k < |s.processes| && s.processes[k].used && s.processes[k].pid == s.threads[u].pid;
      assert s'.processes[k].used && s'.processes[k].pid == s.threads[u].pid;
    }
    if u == t && proc >= 0 && s'.threads[t].pid != 0 {
      assert s'.processes[proc].used && s'.processes[proc].pid == s'.threads[t].pid;
    }
  }

  lemma CreateProcessKeepsInv(s: Tasks, k: nat, pid: nat)
    requires TasksInv(s) && k < MAX_PROCESSES && !s.processes[k].used && pid != 0 &&
             FindProcess(s.processes, pid) == MAX_PROCESSES
    ensures TasksInv(CreateProcess(s, k, pid))
  {
    var s' := CreateProcess(s, k, pid);
    forall i | 0 <= i < MAX_PROCESSES
      ensures Owns(s', i)
    {
      assert Owns(s, i);
      if i == k {
        forall t | 0 <= t < MAX_THREADS
          ensures !(s.threads[t].used && s.threads[t].pid == pid)
        {
          assert ThreadOk(s, t);
        }
      }
    }
    forall t | 0 <= t < MAX_THREADS
      ensures ThreadOk(s', t)
    {
      assert ThreadOk(s, t);
      if s.threads[t].used && s.threads[t].pid != 0 {
        var i :| 0 <= i < |s.processes| && s.processes[i].used && s.processes[i].pid == s.threads[t].pid;
        assert s'.processes[i].used && s'.processes[i].pid == s.threads[t].pid;
      }
    }
  }

  /** Compaction removes t and nothing else, and leaves no gap. */
  lemma UnlinkedMembers(p: Process, t: nat)
    requires Compacted(p) && p.used && t in Members(p)
    ensures
      var r := Unlinked(p, t);
      && Compacted(r) && r.count == p.count - 1 && r.used && r.pid == p.pid
      && forall u: int :: u in Members(r) <==> u in Members(p) && u != t
  {
    var q := Members(p);
    var i := IndexIn(q, t);
    var x :| 0 <= x < |q| && q[x] == t;
    DroppedMembers(p, i);
    WithoutOne(q, i);
    DroppedCompacted(p, i);
  }

  lemma DroppedMembers(p: Process, i: nat)
    requires |p.threads| == MAX_THREADS && i < p.count <= MAX_THREADS
    ensures Members(Dropped(p, i)) == Members(p)[..i] + Members(p)[i + 1..]
  {
    DroppedAt(p, i);
  }

  lemma WithoutOne(q: seq<int>, i: nat)
    requires i < |q| && forall j, k :: 0 <= j < k < |q| ==> q[j] != q[k]
    ensures forall u: int :: u in q[..i] + q[i + 1..] <==> u in q && u != q[i]
  {
    var r := q[..i] + q[i + 1..];
    forall u: int | u in q && u != q[i]
      ensures u in r
    {
      var y :| 0 <= y < |q| && q[y] == u;
      assert r[if y < i then y else y - 1] == u;
    }
  }

  lemma DroppedCompacted(p: Process, i: nat)
    requires Compacted(p) && p.used && i < p.count
    ensures Compacted(Dropped(p, i))
  {
    DroppedAt(p, i);
  }

  /** The process a used thread belongs to, if any. */
  lemma OwnerOf(s: Tasks, t: nat)
    requires TasksInv(s) && t < MAX_THREADS && s.threads[t].used
    ensures
      var k := FindProcess(s.processes, s.threads[t].pid);
      && (k == MAX_PROCESSES <==> s.threads[t].pid == 0)
      && (k < MAX_PROCESSES ==> t in Members(s.processes[k]))
  {
    assert ThreadOk(s, t);
    var k := FindProcess(s.processes, s.threads[t].pid);
    if k < MAX_PROCESSES {
      assert Owns(s, k);
    }
  }

  lemma FreeKeepsInv(s: Tasks, t: nat)
    requires TasksInv(s) && t < MAX_THREADS && s.threads[t].used
    ensures forall k :: 0 <= k < MAX_PROCESSES ==>
            |s.processes[k].threads| == MAX_THREADS && s.processes[k].count <= MAX_THREADS
    ensures TasksInv(FreeThread(s, t))
  {
    forall k | 0 <= k < MAX_PROCESSES ensures Compacted(s.processes[k]) { assert Owns(s, k); }
    forall i | 0 <= i < MAX_PROCESSES
      ensures Owns(FreeThread(s, t), i)
    {
      FreeKeepsOwner(s, t, i);
    }
    forall u | 0 <= u < MAX_THREADS
      ensures ThreadOk(FreeThread(s, t), u)
    {
      FreeKeepsThread(s, t, u);
    }
    assert DistinctPids(FreeThread(s, t).processes);
  }

  lemma FreeKeepsOwner(s: Tasks, t: nat, i: nat)
    requires TasksInv(s) && t < MAX_THREADS && s.threads[t].used && i < MAX_PROCESSES
    requires forall k :: 0 <= k < MAX_PROCESSES ==>
             |s.processes[k].threads| == MAX_THREADS && s.processes[k].count <= MAX_THREADS
    ensures Owns(FreeThread(s, t), i)
  {
    assert Owns(s, i);
    OwnerOf(s, t);
    if i == FindProcess(s.processes, s.threads[t].pid) {
      UnlinkedMembers(s.processes[i], t);
    }
  }

  lemma FreeKeepsThread(s: Tasks, t: nat, u: nat)
    requires TasksInv(s) && t < MAX_THREADS && s.threads[t].used && u < MAX_THREADS
    requires forall k :: 0 <= k < MAX_PROCESSES ==>
             |s.processes[k].threads| == MAX_THREADS && s.processes[k].count <= MAX_THREADS
    ensures ThreadOk(FreeThread(s, t), u)
  {
    assert ThreadOk(s, u) && ThreadOk(s, t);
    if s.threads[u].used && u != t && s.threads[u].pid != 0 {
      StillLive(s, t, u);
    }
  }

  /** The process of another thread outlives the free. */
  lemma StillLive(s: Tasks, t: nat, u: nat)
    requires TasksInv(s) && t < MAX_THREADS && s.threads[t].used && u < MAX_THREADS && u != t && s.threads[u].used &&
             s.threads[u].pid != 0
    requires forall k :: 0 <= k < MAX_PROCESSES ==>
             |s.processes[k].threads| == MAX_THREADS && s.processes[k].count <= MAX_THREADS
    ensures LivePid(FreeThread(s, t).processes, s.threads[u].pid)
  {
    var s' := FreeThread(s, t);
    OwnerOf(s, u);
    OwnerOf(s, t);
    var j, k := FindProcess(s.processes, s.threads[u].pid), FindProcess(s.processes, s.threads[t].pid);
    assert Owns(s, j);
    if j == k {
      UnlinkedMembers(s.processes[k], t);
      assert u in Members(Unlinked(s.processes[k], t));
    }
    assert s'.processes[j].used && s'.processes[j].pid == s.threads[u].pid;
  }

  /** A thread other than t that is still linked once t is not. */
  lemma SomeoneLeft(s: Tasks, t: nat, k: nat) returns (u: nat)
    requires Shape(s) && t < MAX_THREADS && k < MAX_PROCESSES && Owns(s, k) && s.processes[k].used &&
             t in Members(s.processes[k])
    requires Unlinked(s.processes[k], t).count > 0
    ensures u < MAX_THREADS && u != t && s.threads[u].used && s.threads[u].pid == s.processes[k].pid
  {
    var p, r := s.processes[k], Unlinked(s.processes[k], t);
    UnlinkedMembers(p, t);
    u := r.threads[0];
    assert Members(r)[0] == u;
    assert u in Members(r);
  }

  /** A process goes with its last thread: exactly when the freed one was all it had. */
  lemma ProcessGoesWithLastThread(s: Tasks, t: nat)
    requires TasksInv(s) && t < MAX_THREADS && s.threads[t].used && s.threads[t].pid != 0
    ensures forall k :: 0 <= k < MAX_PROCESSES ==>
            |s.processes[k].threads| == MAX_THREADS && s.processes[k].count <= MAX_THREADS
    ensures
      LivePid(FreeThread(s, t).processes, s.threads[t].pid) <==>
        exists u :: 0 <= u < MAX_THREADS && u != t && s.threads[u].used && s.threads[u].pid == s.threads[t].pid
  {
    FreeKeepsInv(s, t);
    OwnerOf(s, t);
    var pid, s' := s.threads[t].pid, FreeThread(s, t);
    var k := FindProcess(s.processes, pid);
    assert Owns(s, k) && Owns(s', k);
    UnlinkedMembers(s.processes[k], t);
    var r := Unlinked(s.processes[k], t);
    if r.count > 0 {
      var u := SomeoneLeft(s, t, k);
      StillLive(s, t, u);
    } else {
      assert Members(r) == [] && !s'.processes[k].used;
    }
  }
}
