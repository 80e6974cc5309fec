/**
 Which thread a switch picks and what it leaves on the queues, in terms of the TCBs alone: priority,
 state and affinity.
 */
module SchedOrder {
  import opened Links
  import opened SchedSpec
  import opened SchedInv
  import opened SchedRuns

  /** x can be put on core c: READY, or RUNNING there, not marked for death, not pinned or current elsewhere. */
  ghost predicate CanTake(s: Sys, c: nat, x: nat)
    requires Shape(s) && c < 2 && x < MAX_THREADS
  {
    && (s.pool[x].state == Ready || (s.pool[x].state == Running && x == s.cur[c]))
    && !s.pool[x].killPending && (s.pool[x].affinity == -1 || s.pool[x].affinity == c) && x != s.cur[1 - c]
  }

  /** The thread that leaves core c still belongs to its queue. */
  lemma CandidateStays(s: Sys, c: nat, x: nat, p: nat)
    requires Inv(s) && c < 2 && x < MAX_THREADS && CanTake(s, c, x) && p < NUM_PRIORITIES && x in s.ready[p]
    ensures var d := Departed(s, c); OnReady(d, x) && Eligible(d.pool, c, s.cur[1 - c], x)
    ensures Departed(s, c).pool[x].priority == s.pool[x].priority
  {
    assert Prio(s, x) == p;
    if Reaps(s, c) {
      assert x != s.cur[c];
    }
  }

  lemma ChosenCould(s: Sys, c: nat, t: nat)
    requires Inv(s) && c < 2 && t < MAX_THREADS
    requires OnReady(Departed(s, c), t) && Eligible(Departed(s, c).pool, c, s.cur[1 - c], t)
    ensures CanTake(s, c, t) && OnReady(s, t) && Departed(s, c).pool[t].priority == s.pool[t].priority
  {
    assert Ok(ViewOf(s, t)) && Ok(ViewOf(s, s.cur[c]));
    assert NoDup(s.ready[Prio(s, s.cur[c])]);
  }

  /**
   A switch always finds a thread that fits the core, and no queued thread that fits has a better
   priority; priorities from 7 on count as 7.
   */
  lemma SwitchPicksUrgent(s: Sys, c: nat, x: nat, p: nat)
    requires Inv(s) && c < 2 && x < MAX_THREADS && p < NUM_PRIORITIES && x in s.ready[p] && CanTake(s, c, x)
    ensures
      var t := Switch(s, c).cur[c];
      && t < MAX_THREADS && CanTake(s, c, t) && Switch(s, c).pool[t].state == Running
      && (s.pool[t].priority <= s.pool[x].priority || s.pool[x].priority >= 7)
  {
    SwitchPicksBest(s, c, x);
    CandidateStays(s, c, x, p);
    ChosenCould(s, c, Switch(s, c).cur[c]);
  }

  // ---- taking turns ------------------------------------------------------------------------------

  lemma RotateMoves(pool: seq<Tcb>, out: int, q: seq<nat>)
    ensures Rotate(pool, out, q)
         == if q != [] && q[0] == out && out < |pool| && pool[out].state == Ready then q[1..] + [q[0]] else q
  {
    if |q| == 1 {
      assert q[1..] + [q[0]] == q;
    }
  }

  /** A selection from queue p on rotates the queues up to the one it chooses from, and no other. */
  lemma {:induction false} SelectQueues(pool: seq<Tcb>, ready: seq<seq<nat>>, c: nat, other: nat, out: int, p: nat)
    returns (k: nat)
    requires p <= |ready|
    ensures
      var (r, t) := Select(pool, ready, c, other, out, p);
      && p <= k <= |ready|
      && (t != NULL ==>
            && k < |ready| && t >= 0 && t in ready[k]
            && forall x :: x in Front(r[k], t) ==> !Eligible(pool, c, other, x))
      && forall j :: 0 <= j < |ready| ==> r[j] == if p <= j <= k then Rotate(pool, out, ready[j]) else ready[j]
    decreases |ready| - p
  {
    k := p;
    if p < |ready| {
      var q := Rotate(pool, out, ready[p]);
      assert SameMembers(ready[p], q);
      if PickIn(pool, c, other, q) == NULL {
        k := SelectQueues(pool, ready[p := q], c, other, out, p + 1);
      }
    }
  }

  lemma ChoiceIs(s: Sys, c: nat, d: Sys, e: Sys, t: nat)
    requires Inv(s) && c < 2 && d == Departed(s, c) && e == Switch(s, c) && t == e.cur[c]
    ensures t < MAX_THREADS && Choice(s, c) == (e.ready, t) && ReadyLists(d) && d.cur == s.cur
    ensures Eligible(d.pool, c, s.cur[1 - c], t)
  {
    var i := SwitchFinds(s, c);
  }

  lemma PickKeepsPriority(s: Sys, c: nat, d: Sys, e: Sys, t: nat)
    requires Inv(s) && c < 2 && d == Departed(s, c) && e == Switch(s, c) && t == e.cur[c] && t < MAX_THREADS
    requires Eligible(d.pool, c, s.cur[1 - c], t)
    ensures d.pool[t].priority == e.pool[t].priority == s.pool[t].priority
  {
  }

  /** And it is on the queue its priority names. */
  lemma PickedQueue(s: Sys, c: nat, d: Sys, e: Sys, t: nat, k: nat)
    requires Inv(s) && c < 2 && d == Departed(s, c) && e == Switch(s, c) && t == e.cur[c] && t < MAX_THREADS
    requires k < NUM_PRIORITIES && t in d.ready[k]
    ensures k == Clamp(s.pool[t].priority) == Clamp(e.pool[t].priority)
  {
    ChoiceIs(s, c, d, e, t);
    PickKeepsPriority(s, c, d, e, t);
  }

  /** What a switch selects: the thread t on queue k of what the outgoing thread leaves. */
  lemma SwitchSelects(s: Sys, c: nat, d: Sys, out: int, e: Sys, t: nat, other: nat) returns (k: nat)
    requires Inv(s) && c < 2 && d == Departed(s, c) && e == Switch(s, c) && t == e.cur[c]
    requires other == s.cur[1 - c] && out == if Reaps(s, c) then NULL else s.cur[c]
    ensures k < NUM_PRIORITIES && t < MAX_THREADS && t in d.ready[k]
    ensures forall x :: x in Front(e.ready[k], t) ==> !Eligible(d.pool, c, other, x)
    ensures forall j :: 0 <= j < NUM_PRIORITIES ==>
              e.ready[j] == if j <= k then Rotate(d.pool, out, d.ready[j]) else d.ready[j]
  {
    ChoiceIs(s, c, d, e, t);
    k := SelectQueues(d.pool, d.ready, c, other, out, 0);
  }

  /** The outgoing thread is dead, and has not just blocked. */
  ghost predicate Buries(tcb: Tcb) {
    if tcb.killPending then tcb.state != Blocked else tcb.state == Zombie
  }

  /**
   Round robin: what a switch does to each ready queue.  A dead outgoing thread leaves it; a runnable
   one at its head goes behind all its peers, unless the core goes to a better priority; nothing else
   moves.
   */
  lemma SwitchTakesTurns(s: Sys, c: nat, q: nat)
    requires Inv(s) && c < 2 && q < NUM_PRIORITIES
    ensures
      var t, x, was, now := s.cur[c], Switch(s, c).cur[c], s.ready[q], Switch(s, c).ready[q];
      now ==
        if Buries(s.pool[t]) then Remove(was, t)
        else if was != [] && was[0] == t && !s.pool[t].killPending && s.pool[t].state in {Ready, Running}
                && !(x < MAX_THREADS && s.pool[x].priority < q) then was[1..] + [t]
        else was
  {
    var d := Departed(s, c);
    var out := if Reaps(s, c) then NULL else s.cur[c];
    var k := SwitchSelects(s, c, d, out, Switch(s, c), Switch(s, c).cur[c], s.cur[1 - c]);
    PickedQueue(s, c, d, Switch(s, c), Switch(s, c).cur[c], k);
    RotateMoves(d.pool, out, d.ready[q]);
    DepartedQueue(s, c, q);
  }

  lemma DepartedQueue(s: Sys, c: nat, q: nat)
    requires Inv(s) && c < 2 && q < NUM_PRIORITIES
    ensures Departed(s, c).ready[q] == if Reaps(s, c) then Remove(s.ready[q], s.cur[c]) else s.ready[q]
  {
    var t := s.cur[c];
    assert q != Prio(s, t) ==> t !in s.ready[q];
  }

  /** Whoever stands in front of the thread picked has been passed over. */
  lemma PassedOver(s: Sys, c: nat, d: Sys, e: Sys, t: nat, x: nat, q: nat)
    requires Inv(s) && c < 2 && d == Departed(s, c) && e == Switch(s, c) && t == e.cur[c] && q < NUM_PRIORITIES
    requires t in e.ready[q] && x in Front(e.ready[q], t)
    ensures x in d.ready[q] && !Eligible(d.pool, c, s.cur[1 - c], x)
  {
    var k := SwitchSelects(s, c, d, if Reaps(s, c) then NULL else s.cur[c], e, t, s.cur[1 - c]);
    PickedQueue(s, c, d, e, t, k);
    SwitchKeepsInv(s, c);
    assert Prio(e, t) == q;
    assert SameMembers(d.ready[q], e.ready[q]);
    FrontMember(e.ready[q], t, x);
  }

  /** The thread picked is the first on its queue, as the switch leaves it, that could be. */
  lemma SwitchPicksFirst(s: Sys, c: nat, x: nat, q: nat)
    requires Inv(s) && c < 2 && x < MAX_THREADS && q < NUM_PRIORITIES
    requires Switch(s, c).cur[c] in Switch(s, c).ready[q] && x in Front(Switch(s, c).ready[q], Switch(s, c).cur[c])
    ensures !CanTake(s, c, x)
  {
    PassedOver(s, c, Departed(s, c), Switch(s, c), Switch(s, c).cur[c], x, q);
    DepartedQueue(s, c, q);
    if CanTake(s, c, x) {
      CandidateStays(s, c, x, q);
    }
  }

  lemma FrontMember(q: seq<nat>, t: nat, x: nat)
    requires x in Front(q, t)
    ensures x in q
  {
  }
}
