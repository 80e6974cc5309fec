/**
 A core whose idle thread is off its queue.  If somebody fits the core, that thread can kill whoever
 else could run there and exit; if nobody does, the current thread goes on and can exit.  Either way
 it is freed while it is still current.
 */
module SchedAdrift {
  import opened Links
  import opened SchedSpec
  import opened SchedInv
  import opened SchedRuns
  import opened SchedSafety

  // ---- a core whose idle thread is off its queue ------------------------------------------

  /** The idle thread of core d is on no queue, and the other one does not fit core d. */
  ghost predicate Adrift(s: Sys, d: nat) {
    && Shape(s) && d < 2 && ReadyLists(s) && s.cur[0] != s.cur[1]
    && (forall x :: 0 <= x < MAX_THREADS && OnReady(s, x) ==> s.pool[x].used)
    && !OnReady(s, s.idle[d]) && s.pool[s.idle[1 - d]].affinity == 1 - d
  }

  /** A queued thread that core d could run in place of its current one. */
  ghost predicate Spare(s: Sys, d: nat, x: nat)
    requires Shape(s) && d < 2 && x < MAX_THREADS
  {
    OnReady(s, x) && s.pool[x].state == Ready && x !in s.cur && x != s.idle[1 - d]
  }

  /** Core d runs a thread that is not idle, and nobody in a slot below y is spare. */
  ghost predicate Driven(s: Sys, d: nat, y: nat) {
    && Adrift(s, d) && y <= MAX_THREADS
    && s.pool[s.cur[d]].state == Running && s.cur[d] !in s.idle
    && forall x :: 0 <= x < y ==> !Spare(s, d, x)
  }

  lemma KillSpare(s: Sys, d: nat, y: nat)
    requires Driven(s, d, y) && y < MAX_THREADS && Spare(s, d, y)
    ensures Legal(s, DoKill(d, y)) && Driven(Kill(s, d, y), d, y + 1)
  {
    var s' := Kill(s, d, y);
    assert NoDup(s.ready[Prio(s, y)]);
    forall x | 0 <= x < MAX_THREADS
      ensures Prio(s', x) == Prio(s, x) && (OnReady(s', x) <==> OnReady(s, x) && x != y)
    {
    }
    forall x | 0 <= x < y + 1
      ensures !Spare(s', d, x)
    {
      assert x < y ==> !Spare(s, d, x);
    }
  }

  /** The running thread kills everybody else its core could run, and exits. */
  lemma {:induction false} LastOneLeaves(s: Sys, d: nat, y: nat)
    requires Driven(s, d, y)
    ensures !FreesSafely(s)
    decreases MAX_THREADS - y
  {
    if y == MAX_THREADS {
      forall k, x | 0 <= k < NUM_PRIORITIES && x in s.ready[k] && x != s.cur[d]
        ensures !Eligible(s.pool, d, s.cur[1 - d], x)
      {
        assert OnReady(s, x) && !Spare(s, d, x);
      }
      LeavesForGood(s, d);
    } else if Spare(s, d, y) {
      KillSpare(s, d, y);
      LastOneLeaves(Kill(s, d, y), d, y + 1);
      WrongEarlier(s, DoKill(d, y));
    } else {
      LastOneLeaves(s, d, y + 1);
    }
  }

  /** The current thread of core d exits, is reaped at the next switch, and stays current for want of another. */
  lemma LeavesForGood(s: Sys, d: nat)
    requires Shape(s) && d < 2 && Acts(s, d) && s.cur[d] !in s.idle
    requires forall k, x :: 0 <= k < NUM_PRIORITIES && x in s.ready[k] && x != s.cur[d] ==>
               !Eligible(s.pool, d, s.cur[1 - d], x)
    ensures !FreesSafely(s)
  {
    var e := Next(s, DoExit(d));
    var f := Departed(e, d);
    forall k, x | 0 <= k < NUM_PRIORITIES && x in f.ready[k]
      ensures !Eligible(f.pool, d, s.cur[1 - d], x)
    {
      assert x in s.ready[k];
    }
    NothingFits(f.pool, f.ready, d, e.cur[1 - d], NULL, 0);
    assert Switch(e, d).cur[d] == e.cur[d];
    WrongNow(e, DoSwitch(d), e.cur[d]);
    WrongEarlier(s, DoExit(d));
  }

  /** With no queued thread that fits the core, a selection finds none. */
  lemma {:induction false} NothingFits(pool: seq<Tcb>, ready: seq<seq<nat>>, c: nat, other: nat, out: int, p: nat)
    requires p <= |ready|
    requires forall k, x :: 0 <= k < |ready| && x in ready[k] ==> !Eligible(pool, c, other, x)
    ensures Select(pool, ready, c, other, out, p).1 == NULL
  {
    var k := SelectSpec(pool, ready, c, other, out, p);
  }

  // ---- getting there from the blocking call -------------------------------------------------

  /** Adrift, with idle and current threads that are in use. */
  ghost predicate Afloat(s: Sys, d: nat) {
    && Adrift(s, d)
    && s.pool[s.idle[d]].used && s.pool[s.idle[1 - d]].used && s.pool[s.cur[0]].used && s.pool[s.cur[1]].used
    && !s.pool[s.idle[d]].killPending && s.pool[s.idle[d]].state in {Ready, Running} && s.cur[d] != s.idle[1 - d]
  }

  /** Queued and current threads are in use. */
  lemma UsedOnes(s: Sys)
    requires Shape(s) && Views(s)
    ensures forall x :: 0 <= x < MAX_THREADS && (OnReady(s, x) || x == s.cur[0] || x == s.cur[1]) ==> s.pool[x].used
  {
    forall x | 0 <= x < MAX_THREADS && (OnReady(s, x) || x == s.cur[0] || x == s.cur[1])
      ensures s.pool[x].used
    {
      assert Ok(ViewOf(s, x));
    }
  }

  /** An unused slot is on no queue. */
  lemma UnusedIsOff(s: Sys, d: nat, i: nat, p: nat)
    requires Adrift(s, d) && i < MAX_THREADS && !s.pool[i].used && p < NUM_PRIORITIES
    ensures i !in s.ready[p]
  {
    assert !OnReady(s, i);
  }

  lemma CreateKeepsAfloat(s: Sys, d: nat)
    requires Afloat(s, d) && FirstFree(s.pool) < MAX_THREADS
    ensures Afloat(Create(s, 0, true), d)
    ensures Spare(Create(s, 0, true), d, FirstFree(s.pool))
    ensures Create(s, 0, true).pool[FirstFree(s.pool)].affinity == AFFINITY_ANY
  {
    var i, s' := FirstFree(s.pool), Create(s, 0, true);
    forall p | 0 <= p < NUM_PRIORITIES ensures i !in s.ready[p] { UnusedIsOff(s, d, i, p); }
    JoinedReady(s, s', i);
  }

  /** Slot i, so far on no queue, gets a TCB of priority 0 and joins queue 0. */
  lemma JoinedReady(s: Sys, s': Sys, i: nat)
    requires Shape(s) && Shape(s') && ReadyLists(s) && i < MAX_THREADS && s'.pool == s.pool[i := s'.pool[i]]
    requires s'.pool[i].priority == 0 && s'.ready == s.ready[0 := s.ready[0] + [i]]
    requires forall p :: 0 <= p < NUM_PRIORITIES ==> i !in s.ready[p]
    ensures ReadyLists(s')
    ensures forall x :: 0 <= x < MAX_THREADS ==> (OnReady(s', x) <==> OnReady(s, x) || x == i)
  {
  }

  /** A switch that finds a thread for core d finds one that is not idle. */
  lemma SwitchRuns(s: Sys, d: nat)
    requires Afloat(s, d) && Choice(s, d).1 != NULL
    ensures Driven(Switch(s, d), d, 0)
  {
    DepartedAdrift(s, d);
    ChoiceKeepsMembers(s, d);
    var k := ChosenFrom(s, d);
    DispatchAdrift(Departed(s, d), Choice(s, d).0, d, Choice(s, d).1, k);
  }

  lemma ChosenFrom(s: Sys, d: nat) returns (k: nat)
    requires Shape(s) && d < 2 && Choice(s, d).1 != NULL
    ensures
      var f, x := Departed(s, d), Choice(s, d).1;
      k < NUM_PRIORITIES && 0 <= x < MAX_THREADS && x in f.ready[k] && Eligible(f.pool, d, f.cur[1 - d], x)
  {
    var f := Departed(s, d);
    k := SelectSpec(f.pool, f.ready, d, s.cur[1 - d], if Reaps(s, d) then NULL else s.cur[d], 0);
  }

  lemma DepartedAdrift(s: Sys, d: nat)
    requires Afloat(s, d)
    ensures Adrift(Departed(s, d), d)
  {
    var t, f := s.cur[d], Departed(s, d);
    assert NoDup(s.ready[Prio(s, t)]);
    if Reaps(s, d) {
      assert f.ready == s.ready[Prio(s, t) := Remove(s.ready[Prio(s, t)], t)];
      assert forall p :: 0 <= p < NUM_PRIORITIES ==> t !in f.ready[p];
    }
    assert forall x :: 0 <= x < MAX_THREADS && OnReady(f, x) ==> OnReady(s, x);
  }

  lemma DispatchAdrift(f: Sys, ready: seq<seq<nat>>, d: nat, x: nat, k: nat)
    requires Adrift(f, d) && |ready| == NUM_PRIORITIES && x < MAX_THREADS && k < NUM_PRIORITIES && x in f.ready[k]
    requires forall j :: 0 <= j < NUM_PRIORITIES ==> SameMembers(f.ready[j], ready[j])
    requires Eligible(f.pool, d, f.cur[1 - d], x)
    ensures Driven(SetState(f.(ready := ready), x, Running).(cur := f.cur[d := x],
              resumed := f.resumed[d := false]), d, 0)
  {
    var s' := SetState(f.(ready := ready), x, Running).(cur := f.cur[d := x], resumed := f.resumed[d := false]);
    forall y | 0 <= y < MAX_THREADS
      ensures Prio(s', y) == Prio(f, y) && OnReady(s', y) == OnReady(f, y)
    {
      assert SameMembers(f.ready[Prio(f, y)], ready[Prio(f, y)]);
    }
  }

  /** If somebody fits the core, a free can go wrong. */
  lemma AdriftFreesUnsafely(s: Sys, d: nat)
    requires Afloat(s, d) && Choice(s, d).1 != NULL
    ensures !FreesSafely(s)
  {
    SwitchRuns(s, d);
    LastOneLeaves(Switch(s, d), d, 0);
    WrongEarlier(s, DoSwitch(d));
  }

  /** A new thread gives core d something to run. */
  lemma CreateGivesChoice(s: Sys, d: nat)
    requires Afloat(s, d) && FirstFree(s.pool) < MAX_THREADS
    ensures Choice(Create(s, 0, true), d).1 != NULL
  {
    var i, s' := FirstFree(s.pool), Create(s, 0, true);
    CreateKeepsAfloat(s, d);
    SpareIsChosen(s', d, i);
  }

  lemma SpareIsChosen(s: Sys, d: nat, i: nat)
    requires Adrift(s, d) && i < MAX_THREADS && Spare(s, d, i) && s.pool[i].affinity == AFFINITY_ANY
    ensures Choice(s, d).1 != NULL
  {
    var f, out := Departed(s, d), if Reaps(s, d) then NULL else s.cur[d];
    assert NoDup(s.ready[Prio(s, s.cur[d])]);
    assert f.pool[i] == s.pool[i] && OnReady(f, i);
    assert Eligible(f.pool, d, s.cur[1 - d], i);
    var k := SelectSpec(f.pool, f.ready, d, s.cur[1 - d], out, 0);
    assert i in f.ready[Prio(f, i)];
  }

  /** A free slot is enough as well: a new thread fits. */
  lemma NewcomerIsLast(s: Sys, d: nat)
    requires Afloat(s, d) && FirstFree(s.pool) < MAX_THREADS
    ensures !FreesSafely(s)
  {
    CreateKeepsAfloat(s, d);
    CreateGivesChoice(s, d);
    AdriftFreesUnsafely(Create(s, 0, true), d);
    WrongEarlier(s, DoCreate(0, true));
  }

  // ---- nobody fits: the thread of the core goes on --------------------------------------------

  /** With nobody to choose, no queued thread but the current one is eligible. */
  lemma NobodyFits(s: Sys, d: nat)
    requires Shape(s) && d < 2 && Choice(s, d).1 == NULL && !Reaps(s, d)
    ensures
      var w := Switch(s, d);
      && w.pool == s.pool[s.cur[d] := OutTcb(s.pool[s.cur[d]])] && w.cur == s.cur && w.idle == s.idle
      && w.waiting == s.waiting && w.isEvent == s.isEvent && w.entries == s.entries && w.resumed[d]
      && forall k, x :: 0 <= k < NUM_PRIORITIES && x in w.ready[k] ==>
           x in s.ready[k] && !Eligible(w.pool, d, s.cur[1 - d], x)
  {
    var f, w := Departed(s, d), Switch(s, d);
    ChoiceKeepsMembers(s, d);
    var k := SelectSpec(f.pool, f.ready, d, s.cur[1 - d], s.cur[d], 0);
    forall p, x | 0 <= p < NUM_PRIORITIES && x in w.ready[p]
      ensures x in s.ready[p] && !Eligible(w.pool, d, s.cur[1 - d], x)
    {
      assert SameMembers(f.ready[p], w.ready[p]);
    }
  }

  /** A reaped thread that nobody replaces stays current. */
  lemma ReapedStays(s: Sys, d: nat)
    requires Shape(s) && d < 2 && Choice(s, d).1 == NULL && Reaps(s, d)
    ensures !FreesSafely(s)
  {
    assert Switch(s, d).cur[d] == s.cur[d];
    WrongNow(s, DoSwitch(d), s.cur[d]);
  }

  /** The thread of core d, listed or not, is not idle and nobody fits: it goes on, and out. */
  lemma LonelyLeaves(s: Sys, d: nat)
    requires Shape(s) && d < 2 && s.cur[d] !in s.idle && s.pool[s.cur[d]].state != New && Choice(s, d).1 == NULL
    requires s.pool[s.cur[d]].state == Blocked ==> Waits(s, s.cur[d])
    ensures !FreesSafely(s)
  {
    var x, w := s.cur[d], Switch(s, d);
    if Reaps(s, d) {
      ReapedStays(s, d);
    } else {
      NobodyFits(s, d);
      if s.pool[x].state == Blocked {
        ListedLeaves(w, d);
      } else {
        LeavesForGood(w, d);
      }
      WrongEarlier(s, DoSwitch(d));
    }
  }

  /** A resumed thread that is still listed: dead, it is freed there; alive, it is woken and leaves. */
  lemma ListedLeaves(w: Sys, d: nat)
    requires Shape(w) && d < 2 && w.cur[d] !in w.idle && Waits(w, w.cur[d]) && w.resumed[d]
    requires w.pool[w.cur[d]].state == Blocked ||
             (w.pool[w.cur[d]].state == Zombie && !w.pool[w.cur[d]].killPending)
    requires forall k, x :: 0 <= k < NUM_PRIORITIES && x in w.ready[k] ==> !Eligible(w.pool, d, w.cur[1 - d], x)
    ensures !FreesSafely(w)
  {
    var x := w.cur[d];
    var o :| 0 <= o < |w.waiting| && x in w.waiting[o];
    if w.pool[x].state == Zombie {
      WrongNow(w, DoSwitch(d), x);
    } else {
      LeavesForGood(Unblock(w, o, x), d);
      WrongEarlier(w, DoUnblock(o, x));
    }
  }
}
