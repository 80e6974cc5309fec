/**
 An idle thread that was cut off its queue while it runs on its own core, with nobody else to run
 there.  Putting it back on the queue would restore the invariant, so what the other core does is
 covered by the lemmas of `SchedInv`; it frees a slot, and a new thread can take the stranded core.
 */
module SchedStranded {
  import opened Links
  import opened SchedSpec
  import opened SchedInv
  import opened SchedSafety
  import opened SchedAdrift

  const LOWEST: nat := NUM_PRIORITIES - 1

  /** s with idle thread d back at the end of its queue. */
  function Mend(s: Sys, d: nat): Sys
    requires Shape(s) && d < 2
  {
    SetReady(s, LOWEST, s.ready[LOWEST] + [s.idle[d]])
  }

  /** Idle thread d runs on core d, and all that is wrong is that it is on no queue; c is the other core. */
  ghost predicate Stranded(s: Sys, c: nat, d: nat) {
    Shape(s) && d < 2 && c == 1 - d && s.cur[d] == s.idle[d] && Inv(Mend(s, d))
  }

  lemma NoDupAppend(q: seq<nat>, i: nat)
    ensures NoDup(q + [i]) <==> NoDup(q) && i !in q
  {
    var r := q + [i];
    assert forall j :: 0 <= j < |q| ==> r[j] == q[j];
    assert r[|q|] == i;
  }

  /** Only the idle thread is off its queue. */
  lemma AppendedReady(s: Sys, c: nat, d: nat)
    requires Stranded(s, c, d)
    ensures !OnReady(s, s.idle[d]) && ReadyLists(s)
    ensures forall x :: 0 <= x < MAX_THREADS ==> (OnReady(Mend(s, d), x) <==> OnReady(s, x) || x == s.idle[d])
  {
    var m := Mend(s, d);
    assert IdleOk(m, d);
    NoDupAppend(s.ready[LOWEST], s.idle[d]);
    forall p | 0 <= p < NUM_PRIORITIES
      ensures NoDup(s.ready[p]) && forall x :: x in s.ready[p] ==> x < MAX_THREADS && Prio(s, x) == p
    {
      assert NoDup(m.ready[p]);
      assert forall x :: x in s.ready[p] ==> x in m.ready[p] && Prio(m, x) == Prio(s, x);
    }
  }

  lemma StrandedFloats(s: Sys, c: nat, d: nat)
    requires Stranded(s, c, d)
    ensures Afloat(s, d)
  {
    var m := Mend(s, d);
    AppendedReady(s, c, d);
    UsedOnes(m);
    assert IdleOk(m, d) && IdleOk(m, c);
  }

  lemma SlotIsEnough(s: Sys, c: nat, d: nat)
    requires Stranded(s, c, d) && (FirstFree(s.pool) < MAX_THREADS || Choice(s, d).1 != NULL)
    ensures !FreesSafely(s)
  {
    StrandedFloats(s, c, d);
    if FirstFree(s.pool) < MAX_THREADS {
      NewcomerIsLast(s, d);
    } else {
      AdriftFreesUnsafely(s, d);
    }
  }

  // ---- the other core goes on as ever ----------------------------------------------------------

  lemma {:induction false} RemoveBeforeLast(q: seq<nat>, t: nat, i: nat)
    requires t != i
    ensures Remove(q + [i], t) == Remove(q, t) + [i]
  {
    if q != [] && q[0] != t {
      RemoveBeforeLast(q[1..], t, i);
      assert (q + [i])[1..] == q[1..] + [i];
    } else if q != [] {
      assert (q + [i])[1..] == q[1..] + [i];
    } else {
      assert [i][1..] == [];
    }
  }

  /** Core c leaves its thread in the same way with and without the idle thread queued. */
  lemma DepartedMends(s: Sys, c: nat, d: nat)
    requires Shape(s) && d < 2 && c == 1 - d && s.cur[c] != s.idle[d]
    ensures Departed(Mend(s, d), c) == Mend(Departed(s, c), d)
  {
    RemoveBeforeLast(s.ready[LOWEST], s.cur[c], s.idle[d]);
    var e, f := Departed(Mend(s, d), c), Mend(Departed(s, c), d);
    assert e.ready == f.ready;
  }

  /** The idle thread of core d does not fit the other core; its own still does. */
  lemma OtherFinds(s: Sys, c: nat, d: nat) returns (k: nat)
    requires Stranded(s, c, d)
    ensures
      var f, t := Departed(s, c), Choice(s, c).1;
      && Between(Mend(f, d), c) && f.cur == s.cur && f.idle == s.idle
      && k < NUM_PRIORITIES && 0 <= t < MAX_THREADS && t in f.ready[k] && Eligible(f.pool, c, s.cur[d], t)
  {
    var f := Departed(s, c);
    OtherMends(s, c, d);
    var i := s.idle[c];
    assert IdleOk(Mend(f, d), c);
    StillQueued(f, d, i);
    k := SelectSpec(f.pool, f.ready, c, s.cur[d], if Reaps(s, c) then NULL else s.cur[c], 0);
    assert Eligible(f.pool, c, s.cur[d], i);
    assert i in f.ready[Prio(f, i)];
  }

  lemma OtherMends(s: Sys, c: nat, d: nat)
    requires Stranded(s, c, d)
    ensures var f := Departed(s, c); Between(Mend(f, d), c) && f.cur == s.cur && f.idle == s.idle
  {
    var k := SwitchFinds(Mend(s, d), c);
    DepartedMends(s, c, d);
  }

  lemma StillQueued(f: Sys, d: nat, i: nat)
    requires Shape(f) && d < 2 && i < MAX_THREADS && i != f.idle[d] && OnReady(Mend(f, d), i)
    ensures OnReady(f, i)
  {
    assert Prio(Mend(f, d), i) == Prio(f, i);
  }

  lemma SwitchKeepsStranded(s: Sys, c: nat, d: nat)
    requires Stranded(s, c, d)
    ensures var w := Switch(s, c); Stranded(w, c, d) && w.pool[w.cur[c]].state == Running
  {
    var k := OtherFinds(s, c, d);
    ChoiceKeepsMembers(s, c);
    var f, ch := Departed(s, c), Choice(s, c);
    DispatchStranded(f, ch.0, c, d, ch.1, k);
  }

  lemma DispatchStranded(f: Sys, ready: seq<seq<nat>>, c: nat, d: nat, t: nat, k: nat)
    requires Shape(f) && d < 2 && c == 1 - d && f.cur[d] == f.idle[d] && Between(Mend(f, d), c)
    requires |ready| == NUM_PRIORITIES && k < NUM_PRIORITIES && t < MAX_THREADS
    requires forall j :: 0 <= j < NUM_PRIORITIES ==> SameMembers(f.ready[j], ready[j])
    requires t in f.ready[k] && Eligible(f.pool, c, f.cur[d], t)
    ensures Stranded(SetState(f.(ready := ready), t, Running).(cur := f.cur[c := t],
                resumed := f.resumed[c := false]), c, d)
  {
    var m := Mend(f, d);
    var ready' := ready[LOWEST := ready[LOWEST] + [f.idle[d]]];
    AppendKeepsMembers(f.ready[LOWEST], ready[LOWEST], f.idle[d], m.ready[LOWEST]);
    DispatchFrom(m, ready', c, t, k);
  }

  lemma AppendKeepsMembers(q: seq<nat>, r: seq<nat>, i: nat, qi: seq<nat>)
    requires SameMembers(q, r) && qi == q + [i]
    ensures SameMembers(qi, r + [i])
  {
    NoDupAppend(q, i);
    NoDupAppend(r, i);
  }

  /** The thread of the other core exits, and its slot is free. */
  lemma WorkerLeaves(s: Sys, c: nat, d: nat)
    requires Stranded(s, c, d) && s.pool[s.cur[c]].state == Running && s.cur[c] !in s.idle
    ensures !FreesSafely(s)
  {
    ExitKeepsInv(Mend(s, d), c);
    assert Mend(Next(s, DoExit(c)), d) == Next(Mend(s, d), DoExit(c));
    ZombieLeaves(Next(s, DoExit(c)), c, d);
    WrongEarlier(s, DoExit(c));
  }

  lemma ZombieLeaves(e: Sys, c: nat, d: nat)
    requires Stranded(e, c, d) && e.pool[e.cur[c]].state == Zombie
    ensures !FreesSafely(e)
  {
    ReapIsEnough(e, c, d);
    WrongAfterSwitch(e, c);
  }

  lemma ReapIsEnough(e: Sys, c: nat, d: nat)
    requires Stranded(e, c, d) && e.pool[e.cur[c]].state == Zombie
    ensures !FreesSafely(Switch(e, c))
  {
    SwitchKeepsStranded(e, c, d);
    ReapGivesSlot(e, c, d);
    SlotIsEnough(Switch(e, c), c, d);
  }

  lemma ReapGivesSlot(e: Sys, c: nat, d: nat)
    requires Stranded(e, c, d) && e.pool[e.cur[c]].state == Zombie
    ensures FirstFree(Switch(e, c).pool) < MAX_THREADS
  {
    ReapedIsUnused(e, c);
  }

  lemma ReapedIsUnused(e: Sys, c: nat)
    requires Shape(e) && c < 2 && Reaps(e, c)
    ensures !Switch(e, c).pool[e.cur[c]].used
  {
    var f := Departed(e, c);
    var k := SelectSpec(f.pool, f.ready, c, e.cur[1 - c], NULL, 0);
  }

  // ---- the blocked caller comes back ------------------------------------------------------------

  lemma UnblockKeepsStranded(s: Sys, c: nat, d: nat, o: nat, t: nat)
    requires Stranded(s, c, d) && CanHappen(s, DoUnblock(o, t))
    ensures Stranded(Unblock(s, o, t), c, d)
  {
    UnblockKeepsInv(Mend(s, d), o, t);
    UnblockMends(s, d, o, t);
    Reordered(Unblock(Mend(s, d), o, t), Mend(Unblock(s, o, t), d));
  }

  lemma UnblockMends(s: Sys, d: nat, o: nat, t: nat)
    requires Shape(s) && d < 2 && o < |s.waiting| && t < MAX_THREADS
    ensures
      var v, m := Unblock(Mend(s, d), o, t), Mend(Unblock(s, o, t), d);
      m == v.(ready := m.ready) && forall k :: 0 <= k < NUM_PRIORITIES ==> SameMembers(v.ready[k], m.ready[k])
  {
    SwapLast(s.ready[LOWEST], s.idle[d], t);
  }

  lemma SwapLast(q: seq<nat>, a: nat, b: nat)
    ensures SameMembers(q + [a] + [b], q + [b] + [a])
  {
    NoDupAppend(q, a);
    NoDupAppend(q, b);
    NoDupAppend(q + [a], b);
    NoDupAppend(q + [b], a);
  }

  /** The invariant does not depend on the order of the queues. */
  lemma Reordered(d: Sys, e: Sys)
    requires Inv(d) && |e.ready| == NUM_PRIORITIES && e == d.(ready := e.ready)
    requires forall k :: 0 <= k < NUM_PRIORITIES ==> SameMembers(d.ready[k], e.ready[k])
    ensures Inv(e)
  {
    PermuteReady(d, e);
    forall x | 0 <= x < MAX_THREADS
      ensures Ok(ViewOf(e, x))
    {
      assert Ok(ViewOf(d, x));
    }
  }

  /** With nobody to choose on core d, every queued thread that is not current waits for the other core. */
  lemma AllFitOther(s: Sys, c: nat, d: nat, x: nat)
    requires Stranded(s, c, d) && Choice(s, d).1 == NULL && x < MAX_THREADS && OnReady(s, x) && x !in s.cur
    ensures s.pool[x].state == Ready && s.pool[x].affinity == c
  {
    assert Ok(ViewOf(Mend(s, d), x)) && IdleOk(Mend(s, d), d);
    AppendedReady(s, c, d);
    var f := Departed(s, d);
    var k := SelectSpec(f.pool, f.ready, d, s.cur[c], s.cur[d], 0);
    assert x in f.ready[Prio(s, x)];
    assert !Eligible(f.pool, d, s.cur[c], x);
  }

  /** The outgoing idle thread becomes READY and stays queued. */
  lemma IdleDeparts(s: Sys, c: nat, d: nat)
    requires Stranded(s, c, d) && s.cur[c] == s.idle[c]
    ensures
      var i, f := s.idle[c], Departed(s, c);
      && !Reaps(s, c) && f.ready == s.ready && f.pool == s.pool[i := f.pool[i]] && f.pool[i].state == Ready
      && NoDup(s.ready[LOWEST]) && i in s.ready[LOWEST] && f.pool[i].priority == s.pool[i].priority
  {
    AppendedReady(s, c, d);
    assert IdleOk(Mend(s, d), c) && IdleOk(Mend(s, d), d);
    StillQueued(s, d, s.idle[c]);
  }

  /** If core c chose its idle thread again, it has passed over one ahead of it. */
  lemma PassedOver(s: Sys, c: nat, d: nat, t: nat) returns (h: nat)
    requires Stranded(s, c, d) && s.cur[c] == s.idle[c] && t in s.ready[LOWEST] && t != s.idle[c]
    requires Choice(s, c).1 == s.idle[c]
    ensures h in s.ready[LOWEST] && h != s.idle[c]
    ensures !Eligible(Departed(s, c).pool, c, s.cur[d], h)
  {
    var i, q, f := s.idle[c], s.ready[LOWEST], Departed(s, c);
    IdleDeparts(s, c, d);
    var k := SelectSpec(f.pool, f.ready, c, s.cur[d], i, 0);
    QueuedOnce(s, c, d, i, k);
    h := AheadOfIdle(f.pool, i, q, t);
  }

  lemma QueuedOnce(s: Sys, c: nat, d: nat, i: nat, k: nat)
    requires Stranded(s, c, d) && i < MAX_THREADS && i in s.ready[LOWEST] && k < NUM_PRIORITIES && i in s.ready[k]
    ensures k == LOWEST
  {
    AppendedReady(s, c, d);
  }

  /** With another thread on its queue and nobody to choose on core d, the other idle thread gives way. */
  lemma IdleGivesWay(s: Sys, c: nat, d: nat, t: nat)
    requires Stranded(s, c, d) && Choice(s, d).1 == NULL && s.cur[c] == s.idle[c]
    requires t in s.ready[LOWEST] && t != s.idle[c]
    ensures Choice(s, c).1 != s.idle[c]
  {
    if Choice(s, c).1 == s.idle[c] {
      var h := PassedOver(s, c, d, t);
      HeadFits(s, c, d, h);
    }
  }

  lemma HeadFits(s: Sys, c: nat, d: nat, h: nat)
    requires Stranded(s, c, d) && Choice(s, d).1 == NULL && s.cur[c] == s.idle[c]
    requires h in s.ready[LOWEST] && h != s.idle[c]
    ensures Eligible(Departed(s, c).pool, c, s.cur[d], h)
  {
    AppendedReady(s, c, d);
    IdleDeparts(s, c, d);
    assert h < MAX_THREADS && Prio(s, h) == LOWEST && OnReady(s, h);
    AllFitOther(s, c, d, h);
  }

  /** After the rotation somebody else is ahead of the outgoing idle thread. */
  lemma AheadOfIdle(pool: seq<Tcb>, i: nat, q: seq<nat>, t: nat) returns (h: nat)
    requires i < |pool| && pool[i].state == Ready && i in q && t in q && t != i && NoDup(q)
    ensures h in q && h != i && h in Front(Rotate(pool, i, q), i)
  {
    if q[0] == i {
      h := t;
      var r := Rotate(pool, i, q);
      assert q == [i] + q[1..] && r == q[1..] + [i];
      assert i !in q[1..];
      FrontOfLast(q[1..], i);
    } else {
      h := q[0];
    }
  }

  lemma {:induction false} FrontOfLast(q: seq<nat>, i: nat)
    requires i !in q
    ensures Front(q + [i], i) == q
  {
    if q != [] {
      FrontOfLast(q[1..], i);
      assert (q + [i])[1..] == q[1..] + [i];
    }
  }

  // ---- the caller blocked and left core d with nobody to choose ----------------------------------

  /** The idle thread of core d never runs on the other core. */
  lemma NotTheStranded(s: Sys, c: nat, d: nat)
    requires Stranded(s, c, d)
    ensures s.cur[c] != s.idle[d]
  {
    assert IdleOk(Mend(s, d), d);
  }

  /** Whoever core c runs next, if it is not its idle thread, leaves and frees a slot. */
  lemma NextOneLeaves(s: Sys, c: nat, d: nat)
    requires Stranded(s, c, d) && Choice(s, c).1 != s.idle[c]
    ensures !FreesSafely(s)
  {
    ChosenLeaves(s, c, d);
    WrongAfterSwitch(s, c);
  }

  lemma ChosenLeaves(s: Sys, c: nat, d: nat)
    requires Stranded(s, c, d) && Choice(s, c).1 != s.idle[c]
    ensures !FreesSafely(Switch(s, c))
  {
    SwitchKeepsStranded(s, c, d);
    ChosenWorks(s, c, d);
    WorkerLeaves(Switch(s, c), c, d);
  }

  lemma ChosenWorks(s: Sys, c: nat, d: nat)
    requires Stranded(s, c, d) && Choice(s, c).1 != s.idle[c] && Stranded(Switch(s, c), c, d)
    ensures Switch(s, c).cur[c] !in Switch(s, c).idle
  {
    OtherInRange(s, c, d);
    NotTheStranded(Switch(s, c), c, d);
  }

  lemma OtherInRange(s: Sys, c: nat, d: nat)
    requires Stranded(s, c, d)
    ensures 0 <= Choice(s, c).1 < MAX_THREADS
  {
    var k := OtherFinds(s, c, d);
  }

  /** A thread queued with the idle thread of core c gets to run on one of the cores. */
  lemma QueuedLeaves(s: Sys, c: nat, d: nat, t: nat)
    requires Stranded(s, c, d) && s.cur[c] == s.idle[c] && t in s.ready[LOWEST] && t != s.idle[c]
    ensures !FreesSafely(s)
  {
    if Choice(s, d).1 != NULL {
      SlotIsEnough(s, c, d);
    } else {
      IdleGivesWay(s, c, d, t);
      NextOneLeaves(s, c, d);
    }
  }

  /** The blocked caller, of the lowest priority, is woken once core c has left it. */
  lemma CallerReturns(s: Sys, c: nat, d: nat, o: nat, t: nat)
    requires Stranded(s, c, d) && s.cur[c] == s.idle[c] && CanHappen(s, DoUnblock(o, t)) && Prio(s, t) == LOWEST
    requires t !in s.idle
    ensures !FreesSafely(s)
  {
    UnblockKeepsStranded(s, c, d, o, t);
    if s.pool[t].state == Zombie {
      DeadCallerGivesSlot(s, c, d, o, t);
    } else {
      QueuedLeaves(Unblock(s, o, t), c, d, t);
    }
    WrongEarlier(s, DoUnblock(o, t));
  }

  lemma DeadCallerGivesSlot(s: Sys, c: nat, d: nat, o: nat, t: nat)
    requires Stranded(s, c, d) && CanHappen(s, DoUnblock(o, t)) && s.pool[t].state == Zombie
    requires Stranded(Unblock(s, o, t), c, d)
    ensures !FreesSafely(Unblock(s, o, t))
  {
    var u := Unblock(s, o, t);
    FreeKeepsInv(Mend(u, d), t);
    assert FreeThread(Mend(u, d), t) == Mend(FreeThread(u, t), d);
    assert !FreeThread(u, t).pool[t].used;
    SlotIsEnough(FreeThread(u, t), c, d);
    WrongEarlier(u, DoFree(t));
  }

  /** From right after the blocking call. */
  lemma StrandedIsUnsafe(s: Sys, c: nat, d: nat, o: nat)
    requires Stranded(s, c, d) && o < |s.waiting| && s.cur[c] in s.waiting[o] && s.cur[c] !in s.idle
    requires s.pool[s.cur[c]].state == Blocked && Prio(s, s.cur[c]) == LOWEST
    ensures !FreesSafely(s)
  {
    if Choice(s, c).1 != s.idle[c] {
      NextOneLeaves(s, c, d);
    } else {
      CallerAside(s, c, d, o);
      WrongAfterSwitch(s, c);
    }
  }

  lemma CallerAside(s: Sys, c: nat, d: nat, o: nat)
    requires Stranded(s, c, d) && o < |s.waiting| && s.cur[c] in s.waiting[o] && s.cur[c] !in s.idle
    requires s.pool[s.cur[c]].state == Blocked && Prio(s, s.cur[c]) == LOWEST && Choice(s, c).1 == s.idle[c]
    ensures !FreesSafely(Switch(s, c))
  {
    CallerSteppedAside(s, c, d);
    SwitchKeepsStranded(s, c, d);
    CallerReturns(Switch(s, c), c, d, o, s.cur[c]);
  }

  /** The switch away from a blocked thread leaves it on its waiter list. */
  lemma CallerSteppedAside(s: Sys, c: nat, d: nat)
    requires Stranded(s, c, d) && s.pool[s.cur[c]].state == Blocked && s.cur[c] !in s.idle
    requires Choice(s, c).1 == s.idle[c]
    ensures
      var t, w := s.cur[c], Switch(s, c);
      && w.cur[c] == w.idle[c] && w.waiting == s.waiting && w.idle == s.idle && Prio(w, t) == Prio(s, t)
  {
  }
}
