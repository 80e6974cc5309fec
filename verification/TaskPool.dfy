/**
 The thread and process pools of src/kernel/task.c on top of the kernel heap: every stack is a
 block of `Heap.KHeap`, taken when its thread is created and given back when it is freed.
 */
module TaskPool {
  import opened Links
  import opened Bytes
  import opened TaskSpec
  import Heap
  import HeapBlocks

  class Pool {
    const threads: array<Thread>        // tcb_pool and tcb_used
    const processes: array<Process>     // pcb_pool and pcb_used
    const ranges: array<Range>          // pid_ranges
    const heap: Heap.KHeap
    var nextTid: nat
    ghost var stacks: set<nat>          // the heap blocks that are stacks

    /** task_init */
    constructor (heap: Heap.KHeap)
      requires heap.Valid()
      ensures Valid() && this.heap == heap && fresh(threads) && fresh(processes) && fresh(ranges)
      ensures ranges.Length == 4 && forall r :: 0 <= r < 4 ==> 0 < ranges[r].base <= ranges[r].next <= ranges[r].limit
      ensures forall t :: 0 <= t < MAX_THREADS ==> !threads[t].used
      ensures nextTid == 1
    {
      this.heap := heap;
      threads := new Thread[MAX_THREADS](_ => FREE_THREAD);
      processes := new Process[MAX_PROCESSES](_ => FreeProcess());
      ranges := new Range[4] [Range(10, 49, 10), Range(50, 99, 50), Range(100, 199, 100), Range(200, 299, 200)];
      nextTid := 1;
      stacks := {};
      new;
      assert forall k :: 0 <= k < MAX_PROCESSES ==> Owns(Abs(), k);
    }

    ghost function Abs(): Tasks
      reads this, threads, processes
    {
      Tasks(threads[..], processes[..], stacks)
    }

    /** Every stack is a live heap block. */
    ghost predicate Rep()
      reads this, threads, processes, heap, heap.mem
    {
      Shape(Abs()) && heap.Valid() && stacks <= heap.live.Keys
    }

    ghost predicate Valid()
      reads this, threads, processes, heap, heap.mem
    {
      Rep() && TasksInv(Abs())
    }

    /** task_find_process */
    method Find(pid: nat) returns (k: int)
      requires Rep()
      ensures FindProcess(processes[..], pid) == (if k < 0 then MAX_PROCESSES else k) && -1 <= k < MAX_PROCESSES
    {
      k := 0;
      while k < MAX_PROCESSES
        invariant 0 <= k <= MAX_PROCESSES
        invariant forall j :: 0 <= j < k ==> !(processes[..][j].used && processes[..][j].pid == pid)
      {
        if processes[k].used && processes[k].pid == pid {
          FirstProcess(processes[..], pid, k);
          return;
        }
        k := k + 1;
      }
      FirstProcess(processes[..], pid, k);
      k := -1;
    }

    /** task_alloc_pid: the next PID of the range that is not live, 0 when all are. */
    method AllocPid(range: int) returns (pid: nat)
      requires Rep() && ranges.Length == 4
      requires forall r :: 0 <= r < 4 ==> 0 < ranges[r].base <= ranges[r].next <= ranges[r].limit
      modifies ranges
      ensures !(0 <= range < 4) ==> pid == 0
      ensures forall r :: 0 <= r < 4 ==>
                && ranges[r].base == old(ranges[r].base) && ranges[r].limit == old(ranges[r].limit)
                && ranges[r].base <= ranges[r].next <= ranges[r].limit
      ensures 0 <= range < 4 && pid != 0 ==>
                ranges[range].base <= pid <= ranges[range].limit && FindProcess(processes[..], pid) == MAX_PROCESSES
      ensures 0 <= range < 4 && pid == 0 ==>
                forall p :: ranges[range].base <= p <= ranges[range].limit ==>
                    FindProcess(processes[..], p) < MAX_PROCESSES
    {
      if range < 0 || range >= 4 {
        return 0;
      }
      var r := ranges[range];
      var span := r.limit - r.base + 1;
      var cursor := r.next;
      var i := 0;
      while i < span
        invariant 0 <= i <= span && r.base <= cursor <= r.limit
        invariant ranges[..] == old(ranges[..])
        invariant cursor == Turned(r, i)
        invariant forall j :: 0 <= j < i ==> FindProcess(processes[..], Turned(r, j)) < MAX_PROCESSES
      {
        var candidate := cursor;
        cursor := if cursor == r.limit then r.base else cursor + 1;
        var k := Find(candidate);
        if k < 0 {
          ranges[range] := r.(next := cursor);
          return candidate;
        }
        i := i + 1;
      }
      forall p | r.base <= p <= r.limit
        ensures FindProcess(processes[..], p) < MAX_PROCESSES
      {
        var j := if p >= r.next then p - r.next else p - r.next + span;
        assert Turned(r, j) == p;
      }
      pid := 0;
    }

    /** task_create_process; NULL when the PID is 0 or live, or no PCB is left. */
    method CreateProcess(pid: nat) returns (k: int)
      requires Valid()
      modifies processes
      ensures Valid() && -1 <= k < MAX_PROCESSES
      ensures k < 0 <==>
              || pid == 0 || LivePid(old(processes[..]), pid)
              || forall i :: 0 <= i < 8 ==> old(processes[..])[i].used
      ensures k < 0 ==> Abs() == old(Abs())
      ensures k >= 0 ==> !old(processes[..])[k].used && Abs() == TaskSpec.CreateProcess(old(Abs()), k, pid)
      ensures k >= 0 ==>
                && processes[k].used && processes[k].pid == pid && processes[k].alive && processes[k].count == 0
                && forall j :: 0 <= j < 8 && j != k ==> processes[j] == old(processes[j])
    {
      ghost var s := Abs();
      var found := Find(pid);
      if pid == 0 || found >= 0 {
        return -1;
      }
      k := 0;
      while k < MAX_PROCESSES && processes[k].used
        invariant 0 <= k <= MAX_PROCESSES && forall j :: 0 <= j < k ==> s.processes[j].used
      {
        k := k + 1;
      }
      if k == MAX_PROCESSES {
        return -1;
      }
      processes[k] := FreeProcess().(used := true, pid := pid, alive := true);
      CreateProcessKeepsInv(s, k, pid);
      assert Abs() == TaskSpec.CreateProcess(s, k, pid);
    }

    /** task_create_thread for the process in PCB slot proc, or for none; NULL when a pool is exhausted. */
    method CreateThread(proc: int, stackSize: nat) returns (slot: int)
      requires Valid() && proc < MAX_PROCESSES && (proc >= 0 ==> processes[proc].used) && stackSize < TWO_TO_THE_32
      modifies this, threads, processes, heap, heap.mem
      ensures Valid() && -1 <= slot < MAX_THREADS
      ensures slot < 0 ==> Abs() == old(Abs()) && heap.live == old(heap.live)
      ensures (forall t :: 0 <= t < 16 ==> old(threads[..])[t].used) ==> slot < 0
      ensures stackSize == 0 ==> slot < 0
      ensures 0 < stackSize <= TWO_TO_THE_32 - 8 && (exists t :: 0 <= t < 16 && !old(threads[..])[t].used) ==>
                (slot < 0 <==> HeapBlocks.Align8(stackSize) > HeapBlocks.Largest(old(heap.blocks)))
      ensures slot >= 0 ==>
                && !old(threads[..])[slot].used && threads[slot].stack !in old(heap.live)
                && (proc >= 0 ==>
                    |old(Abs()).processes[proc].threads| == MAX_THREADS && slot in Members(processes[proc]))
                && Abs() == TaskSpec.CreateThread(old(Abs()), slot, old(nextTid), proc, threads[slot].stack)
    {
      ghost var s := Abs();
      slot := FreeSlot();
      if slot < 0 {
        return;
      }
      var stack := heap.Kmalloc(stackSize);
      if stack == 0 {
        return -1;
      }
      assert Owns(s, if proc >= 0 then proc else 0);
      CreateKeepsInv(s, slot, nextTid, proc, stack);
      Install(slot, proc, stack);
      if proc >= 0 {
        LinkHasRoom(s, slot, proc);
        LinkedMembers(s.processes[proc], slot);
      }
    }

    method FreeSlot() returns (slot: int)
      requires Rep()
      ensures -1 <= slot < MAX_THREADS && (slot >= 0 ==> !threads[slot].used)
      ensures slot < 0 ==> forall t :: 0 <= t < MAX_THREADS ==> threads[t].used
    {
      slot := 0;
      while slot < MAX_THREADS && threads[slot].used
        invariant 0 <= slot <= MAX_THREADS && forall t :: 0 <= t < slot ==> threads[t].used
      {
        slot := slot + 1;
      }
      if slot == MAX_THREADS {
        return -1;
      }
    }

    /** Fill the TCB and link it into its process. */
    method Install(slot: nat, proc: int, stack: nat)
      requires Shape(Abs()) && slot < MAX_THREADS && proc < MAX_PROCESSES
      requires proc >= 0 ==> |processes[proc].threads| == MAX_THREADS
      modifies this, threads, processes
      ensures Abs() == TaskSpec.CreateThread(old(Abs()), slot, old(nextTid), proc, stack)
    {
      ghost var s, tid := Abs(), nextTid;
      var pid := if proc >= 0 then processes[proc].pid else 0;
      threads[slot] := Thread(true, nextTid, pid, stack);
      nextTid := nextTid + 1;
      if proc >= 0 && processes[proc].count < MAX_THREADS {
        var p := processes[proc];
        processes[proc] := p.(threads := p.threads[p.count := slot], count := p.count + 1);
      }
      stacks := stacks + {stack};
      assert processes[..] == TaskSpec.CreateThread(s, slot, tid, proc, stack).processes;
      assert Abs() == TaskSpec.CreateThread(s, slot, tid, proc, stack);
    }

    /** task_free_thread */
    method FreeThread(t: nat)
      requires Valid() && t < MAX_THREADS && threads[t].used
      modifies this, threads, processes, heap, heap.mem
      ensures Valid()
      ensures forall k :: 0 <= k < MAX_PROCESSES ==>
              |old(Abs()).processes[k].threads| == MAX_THREADS && old(Abs()).processes[k].count <= MAX_THREADS
      ensures Abs() == TaskSpec.FreeThread(old(Abs()), t)
      ensures !threads[t].used && forall u :: 0 <= u < MAX_THREADS && u != t ==> threads[u] == old(threads[u])
      ensures forall k :: 0 <= k < MAX_PROCESSES && processes[k].alive ==> old(processes[k].alive)
      ensures heap.live == old(heap.live) - {old(threads[..])[t].stack} && old(threads[..])[t].stack in old(heap.live)
    {
      ghost var s := Abs();
      FreeKeepsInv(s, t);
      ghost var after := TaskSpec.FreeThread(s, t);
      FreeSpares(s, t, after);
      var pid := threads[t].pid;
      var k := Find(pid);
      if k >= 0 {
        Unlink(k, t);
      }
      var stack := threads[t].stack;
      threads[t] := FREE_THREAD;
      heap.Kfree(stack);
      stacks := stacks - {stack};
      if k >= 0 && processes[k].count == 0 {
        processes[k] := FreeProcess();
      }
      assert threads[..] == after.threads && stacks == after.stacks;
      assert processes[..] == after.processes;
    }

    /** The compaction loop: shift the pointers behind t down one slot. */
    method Unlink(k: nat, t: nat)
      requires Shape(Abs()) && k < MAX_PROCESSES && |processes[k].threads| == MAX_THREADS &&
               processes[k].count <= MAX_THREADS
      modifies processes
      ensures processes[..] == old(processes[..])[k := Unlinked(old(processes[..])[k], t)]
    {
      ghost var before := processes[..];
      var p := processes[k];
      var i := 0;
      while i < p.count && p.threads[i] != t
        invariant 0 <= i <= p.count && forall x :: 0 <= x < i ==> p.threads[x] != t
      {
        i := i + 1;
      }
      FirstIndex(p.threads[..p.count], t, i);
      if i < p.count {
        var shifted := ShiftDown(p.threads, i, p.count - 1);
        assert shifted == Dropped(p, i).threads;
        processes[k] := p.(count := p.count - 1, threads := shifted);
      } else {
        assert before == before[k := p];
      }
    }

    /** The mark task_kill_process leaves. */
    method Condemn(k: nat)
      requires Valid() && k < MAX_PROCESSES && processes[k].used
      modifies processes
      ensures Valid() && Abs() == old(Abs()).(processes := old(processes[..])[k := old(processes[k]).(alive := false)])
      ensures processes[k] == old(processes[k]).(alive := false) && |processes[k].threads| == MAX_THREADS &&
              processes[k].count <= MAX_THREADS
    {
      ghost var s := Abs();
      assert Owns(s, k);
      processes[k] := processes[k].(alive := false);
      AliveKeepsInv(s, k);
      assert Abs() == s.(processes := s.processes[k := s.processes[k].(alive := false)]);
    }
  }

  /** The cursor of a range after i steps round it. */
  function Turned(r: Range, i: nat): nat
    requires r.base <= r.next <= r.limit
  {
    if r.next + i <= r.limit then r.next + i else r.next + i - (r.limit - r.base + 1)
  }

  lemma FirstProcess(ps: seq<Process>, pid: nat, k: nat)
    requires k <= |ps| && (k < |ps| ==> ps[k].used && ps[k].pid == pid)
    requires forall j :: 0 <= j < k ==> !(ps[j].used && ps[j].pid == pid)
    ensures FindProcess(ps, pid) == k
  {
  }

  /** The inner loop: position i to last - 1 take over their neighbours, and last becomes NULL. */
  method ShiftDown(before: seq<int>, i: nat, last: nat) returns (threads: seq<int>)
    requires i <= last < |before|
    ensures |threads| == |before|
    ensures threads == before[..i] + before[i + 1..last + 1] + [NULL] + before[last + 1..]
  {
    threads := before;
    var j := i;
    while j < last
      invariant i <= j <= last && |threads| == |before|
      invariant threads[..i] == before[..i] && threads[j..] == before[j..]
      invariant threads[i..j] == before[i + 1..j + 1]
    {
      ghost var was := threads;
      assert was[j + 1] == was[j..][1] == before[j..][1] == before[j + 1];
      threads := threads[j := threads[j + 1]];
      Shifted(before, was, threads, i, j);
      j := j + 1;
    }
    Joined(before, threads, i, last);
    threads := threads[last := NULL];
  }

  /** One step of the inner loop. */
  lemma Shifted(before: seq<int>, q: seq<int>, r: seq<int>, i: nat, j: nat)
    requires i <= j && j + 1 < |before| == |q| && r == q[j := before[j + 1]]
    requires q[..i] == before[..i] && q[j..] == before[j..] && q[i..j] == before[i + 1..j + 1]
    ensures r[..i] == before[..i] && r[j + 1..] == before[j + 1..] && r[i..j + 1] == before[i + 1..j + 2]
  {
    assert r[..i] == q[..i];
    assert r[j + 1..] == q[j..][1..] == before[j..][1..];
    assert r[i..j + 1] == q[i..j] + [before[j + 1]] == before[i + 1..j + 1] + [before[j + 1]];
  }

  /** Its end. */
  lemma Joined(before: seq<int>, q: seq<int>, i: nat, last: nat)
    requires i <= last < |before| == |q|
    requires q[..i] == before[..i] && q[last..] == before[last..] && q[i..last] == before[i + 1..last + 1]
    ensures q[last := NULL] == before[..i] + before[i + 1..last + 1] + [NULL] + before[last + 1..]
  {
    var r := q[last := NULL];
    assert r == q[..i] + q[i..last] + [NULL] + q[last..][1..];
    assert before[last..][1..] == before[last + 1..];
  }

  lemma FirstIndex(q: seq<int>, t: int, i: nat)
    requires i <= |q| && (i < |q| ==> q[i] == t) && forall k :: 0 <= k < i ==> q[k] != t
    ensures IndexIn(q, t) == i
  {
  }

  /** What a free leaves alone. */
  lemma FreeSpares(s: Tasks, t: nat, after: Tasks)
    requires TasksInv(s) && t < MAX_THREADS && s.threads[t].used
    requires forall k :: 0 <= k < MAX_PROCESSES ==>
             |s.processes[k].threads| == MAX_THREADS && s.processes[k].count <= MAX_THREADS
    requires after == TaskSpec.FreeThread(s, t)
    ensures s.threads[t].stack in s.stacks && |after.processes| == MAX_PROCESSES
    ensures after.threads == s.threads[t := FREE_THREAD]
    ensures forall k :: 0 <= k < MAX_PROCESSES && after.processes[k].alive ==> s.processes[k].alive
  {
    assert ThreadOk(s, t);
  }

  lemma AliveKeepsInv(s: Tasks, k: nat)
    requires TasksInv(s) && k < MAX_PROCESSES && s.processes[k].used
    ensures TasksInv(s.(processes := s.processes[k := s.processes[k].(alive := false)]))
  {
    var s' := s.(processes := s.processes[k := s.processes[k].(alive := false)]);
    forall i | 0 <= i < MAX_PROCESSES ensures Owns(s', i) { assert Owns(s, i); }
    forall t | 0 <= t < MAX_THREADS
      ensures ThreadOk(s', t)
    {
      assert ThreadOk(s, t);
      if s.threads[t].used && s.threads[t].pid != 0 {
        var i :| 0 <= i < |s.processes| && s.processes[i].used && s.processes[i].pid == s.threads[t].pid;
        assert s'.processes[i].used && s'.processes[i].pid == s.threads[t].pid;
      }
    }
  }
}
