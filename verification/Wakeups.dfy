/**
 What the three wake-up operations do to a sound state: the wake loop of isr_systick,
 wake_one, and event_flags_set.  Each is a sequence of machine steps, so each keeps the
 invariant; here is what they wake, in which order, and what they leave listed.
 */
module Wakeups {
  import opened Links
  import opened SchedSpec
  import opened SchedInv
  import opened Kernel

  // ---- isr_systick ---------------------------------------------------------------------

  predicate Due(s: Sys, t: nat, now: nat) {
    t < |s.pool| && s.pool[t].used && s.pool[t].state == Sleeping && s.pool[t].wakeTime <= now
  }

  lemma {:induction false} WakeLoopKeepsInv(s: Sys, now: nat, i: nat)
    requires i <= MAX_THREADS && Inv(s)
    ensures Inv(WakeFrom(s, now, i))
    decreases MAX_THREADS - i
  {
    if i < MAX_THREADS {
      if Due(s, i, now) {
        WakeKeepsInv(s, i);
        WakeLoopKeepsInv(Wake(s, i), now, i + 1);
      } else {
        WakeLoopKeepsInv(s, now, i + 1);
      }
    }
  }

  /** Exactly the expired sleepers become READY and are queued; nothing else changes. */
  lemma {:induction false} WakeLoopWakesDue(s: Sys, now: nat, i: nat, t: nat)
    requires Shape(s) && i <= MAX_THREADS && t < MAX_THREADS
    ensures
      var e := WakeFrom(s, now, i);
      && Shape(e)
      && (i <= t && Due(s, t, now) ==> e.pool[t] == s.pool[t].(state := Ready) && OnReady(e, t))
      && (!(i <= t && Due(s, t, now)) ==> e.pool[t] == s.pool[t] && OnReady(e, t) == OnReady(s, t))
      && e == s.(pool := e.pool, ready := e.ready)
    decreases MAX_THREADS - i
  {
    if i < MAX_THREADS {
      if Due(s, i, now) {
        WakeLoopWakesDue(Wake(s, i), now, i + 1, t);
      } else {
        WakeLoopWakesDue(s, now, i + 1, t);
      }
    }
  }

  // ---- wake_one --------------------------------------------------------------------------

  /** The first live waiter of a list, NULL when all are ZOMBIEs. */
  function FirstLive(s: Sys, w: seq<nat>): (r: int)
    ensures r != NULL ==> 0 <= r && r in w
  {
    if w == [] then NULL
    else if w[0] < |s.pool| && s.pool[w[0]].state == Zombie then FirstLive(s, w[1..])
    else w[0]
  }

  /** The waiters behind the first live one. */
  function AfterLive(s: Sys, w: seq<nat>): seq<nat> {
    if w == [] then []
    else if w[0] < |s.pool| && s.pool[w[0]].state == Zombie then AfterLive(s, w[1..])
    else w[1..]
  }

  /** A waiter list is the ZOMBIEs in front, the first live waiter if there is one, and the rest. */
  lemma {:induction false} ListSplits(s: Sys, w: seq<nat>)
    ensures w == Dead(s, w) + (if FirstLive(s, w) == NULL then [] else [FirstLive(s, w)]) + AfterLive(s, w)
  {
    if w != [] {
      assert w == [w[0]] + w[1..];
      if w[0] < |s.pool| && s.pool[w[0]].state == Zombie {
        ListSplits(s, w[1..]);
      }
    }
  }

  /** The ZOMBIEs in front of the first live waiter. */
  function Dead(s: Sys, w: seq<nat>): (r: seq<nat>)
    ensures r <= w && forall i :: 0 <= i < |r| ==> r[i] < |s.pool| && s.pool[r[i]].state == Zombie
  {
    if w == [] then []
    else if w[0] < |s.pool| && s.pool[w[0]].state == Zombie then [w[0]] + Dead(s, w[1..])
    else []
  }

  function TidsOf(pool: seq<Tcb>, w: seq<nat>): seq<nat>
    requires forall i :: 0 <= i < |w| ==> w[i] < |pool|
  {
    if w == [] then [] else [pool[w[0]].tid] + TidsOf(pool, w[1..])
  }

  lemma {:induction false} SameTids(pool: seq<Tcb>, z: nat, tcb: Tcb, w: seq<nat>)
    requires z < |pool| && forall i :: 0 <= i < |w| ==> w[i] < |pool| && w[i] != z
    ensures TidsOf(pool[z := tcb], w) == TidsOf(pool, w)
  {
    if w != [] {
      SameTids(pool, z, tcb, w[1..]);
    }
  }

  lemma DeliverKeepsInv(s: Sys, o: nat, t: nat)
    requires Inv(s) && o < |s.waiting| && t in s.waiting[o] && t < MAX_THREADS
    ensures Inv(Deliver(s, o, t))
  {
    UnblockKeepsInv(s, o, t);
    if s.pool[t].state == Zombie {
      FreeKeepsInv(Unblock(s, o, t), t);
    }
  }

  lemma RemoveFirst(q: seq<nat>)
    requires q != []
    ensures Remove(q, q[0]) == q[1..]
  {
  }

  /** Freeing a ZOMBIE at the front of a list changes nothing for the rest of it. */
  lemma SkipZombie(s: Sys, o: nat)
    requires Shape(s) && WaitLists(s) && o < |s.waiting| && !s.isEvent[o] && s.waiting[o] != []
    requires s.waiting[o][0] < MAX_THREADS && s.pool[s.waiting[o][0]].state == Zombie
    ensures
      var w, u := s.waiting[o], Deliver(s, o, s.waiting[o][0]);
      && u == s.(waiting := s.waiting[o := w[1..]], pool := s.pool[w[0] := FREE_TCB], doomed := u.doomed,
                 freed := s.freed + [s.pool[w[0]].tid])
      && w[0] !in w[1..] && FirstLive(u, w[1..]) == FirstLive(s, w) && AfterLive(u, w[1..]) == AfterLive(s, w)
      && Dead(s, w) == [w[0]] + Dead(u, w[1..]) && w[0] !in Dead(u, w[1..]) && FirstLive(s, w) != w[0]
  {
    var w := s.waiting[o];
    RemoveFirst(w);
    assert NoDup(w);
    SameLive(s, Deliver(s, o, w[0]), w[1..], w[0]);
  }

  /** The state after wake_one: t is the live waiter it wakes, dead are the ZOMBIEs it frees on the way. */
  ghost predicate WokeOne(s: Sys, e: Sys, t: int, dead: seq<nat>)
    requires Shape(s) && Shape(e) && forall i :: 0 <= i < |dead| ==> dead[i] < MAX_THREADS
  {
    && t < MAX_THREADS
    && e.freed == s.freed + TidsOf(s.pool, dead)
    && e.ready == (if t < 0 then s.ready else s.ready[Prio(s, t) := s.ready[Prio(s, t)] + [t]])
    && (e.cur, e.idle, e.isEvent, e.entries, e.nextTid, e.resumed)
       == (s.cur, s.idle, s.isEvent, s.entries, s.nextTid, s.resumed)
    && forall x :: 0 <= x < MAX_THREADS ==>
         e.pool[x] == if x in dead then FREE_TCB else if x == t then s.pool[x].(state := Ready) else s.pool[x]
  }

  /**
   wake_one frees the ZOMBIEs in front of the first live waiter, in order, and hands the wake-up
   to that waiter; the ones behind it stay listed, and nobody else is touched.
   */
  lemma {:induction false} WakeOneSpec(s: Sys, o: nat)
    requires Inv(s) && o < |s.waiting| && !s.isEvent[o]
    ensures forall x :: x in s.waiting[o] ==> x < MAX_THREADS
    ensures Inv(WakeFirst(s, o)) && WakeFirst(s, o).waiting == s.waiting[o := AfterLive(s, s.waiting[o])]
    ensures WokeOne(s, WakeFirst(s, o), FirstLive(s, s.waiting[o]), Dead(s, s.waiting[o]))
    decreases |s.waiting[o]|
  {
    var w := s.waiting[o];
    if w != [] {
      assert w[0] in w;
      DeliverKeepsInv(s, o, w[0]);
      if s.pool[w[0]].state == Zombie {
        RemoveFirst(w);
        WakeOneSpec(Deliver(s, o, w[0]), o);
        WakesPast(s, o, WakeFirst(s, o));
      } else {
        WakesHead(s, o);
      }
    }
  }

  /** With a live waiter in front, wake_one is a single wake-up. */
  lemma WakesHead(s: Sys, o: nat)
    requires Shape(s) && o < |s.waiting| && !s.isEvent[o] && s.waiting[o] != [] && s.waiting[o][0] < MAX_THREADS
    requires forall x :: x in s.waiting[o] ==> x < MAX_THREADS
    requires s.pool[s.waiting[o][0]].state != Zombie
    ensures WakeFirst(s, o) == Deliver(s, o, s.waiting[o][0]) &&
            WakeFirst(s, o).waiting == s.waiting[o := AfterLive(s, s.waiting[o])]
    ensures WokeOne(s, WakeFirst(s, o), FirstLive(s, s.waiting[o]), Dead(s, s.waiting[o]))
  {
    RemoveFirst(s.waiting[o]);
  }

  /** What wake_one does behind a ZOMBIE at the front is what it does with it. */
  lemma WakesPast(s: Sys, o: nat, e: Sys)
    requires Shape(s) && WaitLists(s) && o < |s.waiting| && !s.isEvent[o] && s.waiting[o] != [] && Shape(e)
    requires s.waiting[o][0] < MAX_THREADS && s.pool[s.waiting[o][0]].state == Zombie
    requires
      var u := Deliver(s, o, s.waiting[o][0]);
      && Shape(u) && o < |u.waiting| && e.waiting == u.waiting[o := AfterLive(u, u.waiting[o])]
      && WokeOne(u, e, FirstLive(u, u.waiting[o]), Dead(u, u.waiting[o]))
    ensures e.waiting == s.waiting[o := AfterLive(s, s.waiting[o])]
    ensures WokeOne(s, e, FirstLive(s, s.waiting[o]), Dead(s, s.waiting[o]))
  {
    var w := s.waiting[o];
    var u := Deliver(s, o, w[0]);
    SkipZombie(s, o);
    assert u.waiting[o] == w[1..];
    var t, dead := FirstLive(u, w[1..]), Dead(u, w[1..]);
    assert FirstLive(s, w) == t && Dead(s, w) == [w[0]] + dead && AfterLive(s, w) == AfterLive(u, w[1..]);
    WokeOnePast(s, u, e, w[0], t, dead);
  }

  lemma WokeOnePast(s: Sys, u: Sys, e: Sys, z: nat, t: int, dead: seq<nat>)
    requires Shape(s) && Shape(u) && Shape(e) && z < MAX_THREADS && t != z
    requires z !in dead && forall i :: 0 <= i < |dead| ==> dead[i] < MAX_THREADS
    requires u.pool == s.pool[z := FREE_TCB] && u.freed == s.freed + [s.pool[z].tid] && u.ready == s.ready
    requires (u.cur, u.idle, u.isEvent, u.entries, u.nextTid, u.resumed)
             == (s.cur, s.idle, s.isEvent, s.entries, s.nextTid, s.resumed)
    requires WokeOne(u, e, t, dead)
    ensures WokeOne(s, e, t, [z] + dead)
  {
    SameTids(s.pool, z, FREE_TCB, dead);
    assert ([z] + dead)[1..] == dead;
  }

  lemma {:induction false} SameLive(s: Sys, u: Sys, w: seq<nat>, t: nat)
    requires t < |s.pool| == |u.pool| && u.pool == s.pool[t := u.pool[t]] && t !in w
    ensures FirstLive(u, w) == FirstLive(s, w) && AfterLive(u, w) == AfterLive(s, w) && Dead(u, w) == Dead(s, w)
  {
    if w != [] {
      SameLive(s, u, w[1..], t);
    }
  }

  /** When the first i waiters are dead and the next is not, these are the parts of the list. */
  lemma {:induction false} PartsOf(s: Sys, w: seq<nat>, i: nat)
    requires i <= |w| && forall j :: 0 <= j < |w| ==> w[j] < |s.pool|
    requires forall j :: 0 <= j < i ==> s.pool[w[j]].state == Zombie
    requires i < |w| ==> s.pool[w[i]].state != Zombie
    ensures Dead(s, w) == w[..i] && FirstLive(s, w) == (if i < |w| then w[i] else NULL)
    ensures AfterLive(s, w) == if i < |w| then w[i + 1..] else []
  {
    if i > 0 {
      PartsOf(s, w[1..], i - 1);
      assert w[..i] == [w[0]] + w[1..][..i - 1];
    }
  }

  lemma {:induction false} TidsAt(pool: seq<Tcb>, w: seq<nat>)
    requires forall i :: 0 <= i < |w| ==> w[i] < |pool|
    ensures |TidsOf(pool, w)| == |w| && forall i :: 0 <= i < |w| ==> TidsOf(pool, w)[i] == pool[w[i]].tid
  {
    if w != [] {
      TidsAt(pool, w[1..]);
    }
  }

  /**
   wake_one by position: with i dead waiters in front, they are freed in order, the next one becomes
   READY at the tail of a ready queue, and the list goes on behind it.
   */
  lemma WakeOneByPlace(s: Sys, o: nat, i: nat)
    requires Inv(s) && o < |s.waiting| && !s.isEvent[o] && i <= |s.waiting[o]|
    requires forall j :: 0 <= j < |s.waiting[o]| ==> s.waiting[o][j] < MAX_THREADS
    requires forall j :: 0 <= j < i ==> s.pool[s.waiting[o][j]].state == Zombie
    requires i < |s.waiting[o]| ==> s.pool[s.waiting[o][i]].state != Zombie
    ensures forall x :: x in s.waiting[o] ==> x < MAX_THREADS
    ensures
      var w, e := s.waiting[o], WakeFirst(s, o);
      && e.waiting == s.waiting[o := if i < |w| then w[i + 1..] else []]
      && |e.freed| == |s.freed| + i && |e.pool| == MAX_THREADS
      && (forall j :: 0 <= j < i ==> e.freed[|s.freed| + j] == s.pool[w[j]].tid && !e.pool[w[j]].used)
      && (i < |w| ==>
            && e.pool[w[i]] == s.pool[w[i]].(state := Ready)
            && exists p :: 0 <= p < 8 && e.ready == s.ready[p := s.ready[p] + [w[i]]])
  {
    var w, e := s.waiting[o], WakeFirst(s, o);
    WakeOneSpec(s, o);
    PartsOf(s, w, i);
    TidsAt(s.pool, w[..i]);
    assert forall j :: 0 <= j < i ==> w[j] in w[..i];
    if i < |w| {
      assert w[i] !in w[..i];
      assert e.ready == s.ready[Prio(s, w[i]) := s.ready[Prio(s, w[i])] + [w[i]]];
    }
  }

  // ---- event_flags_set ---------------------------------------------------------------------

  /** The waiters whose condition the flags do not meet, in order. */
  function Kept(s: Sys, w: seq<nat>, flags: bv32): (r: seq<nat>)
    ensures forall x :: x in r ==> x in w && !Wakes(s, x, flags)
    ensures forall x :: x in w && !Wakes(s, x, flags) ==> x in r
  {
    if w == [] then []
    else if Wakes(s, w[0], flags) then Kept(s, w[1..], flags)
    else [w[0]] + Kept(s, w[1..], flags)
  }

  /** The live waiters of priority p whose condition the flags meet, in order. */
  function Woken(s: Sys, w: seq<nat>, flags: bv32, p: nat): seq<nat>
    requires Shape(s) && forall x :: x in w ==> x < MAX_THREADS
  {
    if w == [] then []
    else
      assert w[0] in w && forall x :: x in w[1..] ==> x in w;
      var rest := Woken(s, w[1..], flags, p);
      if Wakes(s, w[0], flags) && s.pool[w[0]].state != Zombie && Prio(s, w[0]) == p then [w[0]] + rest else rest
  }

  lemma MaskFrame(es: seq<Entry>, t: nat, x: nat)
    requires DistinctEntries(es) && x != t
    ensures WaitMask(FreeEntry(es, t), x) == WaitMask(es, x)
  {
    var k, j := FindEntry(es, t), FindEntry(es, x);
    var r := FreeEntry(es, t);
    assert forall i :: 0 <= i < |es| && i != k ==> r[i] == es[i];
    if j < |es| {
      assert r[j] == es[j];
      assert FindEntry(r, x) == j;
    } else {
      assert FindEntry(r, x) == |r|;
    }
  }

  /** Dealing with t does not change what the other waiters wait for, or their rank. */
  lemma {:induction false} RestFrame(s: Sys, u: Sys, t: nat, w: seq<nat>, flags: bv32, p: nat)
    requires Shape(s) && Shape(u) && t < MAX_THREADS && t !in w && DistinctEntries(s.entries)
    requires u.entries == FreeEntry(s.entries, t) && u.pool == s.pool[t := u.pool[t]]
    requires forall x :: x in w ==> x < MAX_THREADS
    ensures Kept(u, w, flags) == Kept(s, w, flags) && Woken(u, w, flags, p) == Woken(s, w, flags, p)
  {
    if w != [] {
      assert w[0] in w && forall x :: x in w[1..] ==> x in w;
      MaskFrame(s.entries, t, w[0]);
      RestFrame(s, u, t, w[1..], flags, p);
    }
  }

  /** The waiter at position i has left list o; a live one has joined the tail of its ready queue. */
  ghost predicate Delivered(s: Sys, u: Sys, o: nat, i: nat) {
    && Shape(s) && Shape(u) && o < |s.waiting| && i < |s.waiting[o]|
    && var w, t := s.waiting[o], s.waiting[o][i];
    && (forall x :: x in w ==> x < MAX_THREADS) && t < MAX_THREADS
    && u.waiting == s.waiting[o := w[..i] + w[i + 1..]] && u.isEvent == s.isEvent
    && u.entries == FreeEntry(s.entries, t) && u.pool == s.pool[t := u.pool[t]]
    && u.ready == (if s.pool[t].state == Zombie then s.ready else s.ready[Prio(s, t) := s.ready[Prio(s, t)] + [t]])
    && t !in w[..i] && t !in w[i + 1..]
    && DistinctEntries(s.entries)
  }

  lemma DeliverEffect(s: Sys, o: nat, i: nat)
    requires Inv(s) && o < |s.waiting| && s.isEvent[o] && i < |s.waiting[o]|
    ensures WaitersInRange(s) && s.waiting[o][i] < MAX_THREADS
    ensures
      var u := Deliver(s, o, s.waiting[o][i]);
      Inv(u) && Delivered(s, u, o, i) && |u.waiting| == |s.waiting| && |u.waiting[o]| == |s.waiting[o]| - 1
  {
    var w, t := s.waiting[o], s.waiting[o][i];
    assert t in w;
    assert NoDup(w);
    RemoveAt(w, i);
    DeliverKeepsInv(s, o, t);
  }

  lemma {:induction false} SetFlagsKeepsInv(s: Sys, o: nat, flags: bv32, i: nat)
    requires Inv(s) && o < |s.waiting| && s.isEvent[o] && i <= |s.waiting[o]|
    ensures WaitersInRange(s) && Inv(WakeSatisfied(s, o, flags, i))
    decreases |s.waiting[o]| - i
  {
    if i < |s.waiting[o]| {
      DeliverEffect(s, o, i);
      if Wakes(s, s.waiting[o][i], flags) {
        SetFlagsKeepsInv(Deliver(s, o, s.waiting[o][i]), o, flags, i);
      } else {
        SetFlagsKeepsInv(s, o, flags, i + 1);
      }
    }
  }

  /** What is left to do after one delivery reads the same before and after it: which waiters stay. */
  lemma DeliverRest(s: Sys, u: Sys, o: nat, flags: bv32, i: nat)
    requires Delivered(s, u, o, i) && Wakes(s, s.waiting[o][i], flags)
    ensures
      var w := s.waiting[o];
      s.waiting[o := w[..i] + Kept(s, w[i..], flags)] ==
          u.waiting[o := u.waiting[o][..i] + Kept(u, u.waiting[o][i..], flags)]
  {
    var w := s.waiting[o];
    TailOf(w, i + 1);
    SplicedTail(w, u.waiting[o], i);
    RestFrame(s, u, w[i], w[i + 1..], flags, 0);
    WokenHead(s, w, flags, i, 0);
  }

  /** And who is woken, in which order. */
  lemma DeliverOrder(s: Sys, u: Sys, o: nat, flags: bv32, i: nat, p: nat)
    requires Delivered(s, u, o, i) && p < NUM_PRIORITIES && Wakes(s, s.waiting[o][i], flags)
    ensures forall x :: x in s.waiting[o][i..] || x in u.waiting[o][i..] ==> x < MAX_THREADS
    ensures s.ready[p] + Woken(s, s.waiting[o][i..], flags, p) == u.ready[p] + Woken(u, u.waiting[o][i..], flags, p)
  {
    var w := s.waiting[o];
    TailOf(w, i);
    TailOf(w, i + 1);
    SplicedTail(w, u.waiting[o], i);
    RestFrame(s, u, w[i], w[i + 1..], flags, p);
    WokenHead(s, w, flags, i, p);
    var head := if s.pool[w[i]].state != Zombie && Prio(s, w[i]) == p then [w[i]] else [];
    assert u.ready[p] == s.ready[p] + head;
    Reassociate(s.ready[p], head, Woken(s, w[i + 1..], flags, p));
  }

  lemma Reassociate(a: seq<nat>, b: seq<nat>, c: seq<nat>)
    ensures a + (b + c) == (a + b) + c
  {
  }

  /** A list without its position i. */
  lemma SplicedTail(w: seq<nat>, v: seq<nat>, i: nat)
    requires i < |w| && v == w[..i] + w[i + 1..]
    ensures v[..i] == w[..i] && v[i..] == w[i + 1..]
  {
  }

  /** The satisfied waiter at position i is not kept, and woken first if it is live. */
  lemma WokenHead(s: Sys, w: seq<nat>, flags: bv32, i: nat, p: nat)
    requires Shape(s) && i < |w| && Wakes(s, w[i], flags) && forall x :: x in w ==> x < MAX_THREADS
    ensures forall x :: x in w[i..] || x in w[i + 1..] ==> x < MAX_THREADS
    ensures Kept(s, w[i..], flags) == Kept(s, w[i + 1..], flags) && w[i] < MAX_THREADS
    ensures
      Woken(s, w[i..], flags, p)
      == (if s.pool[w[i]].state != Zombie && Prio(s, w[i]) == p then [w[i]] else []) + Woken(s, w[i + 1..], flags, p)
  {
    TailOf(w, i);
    TailOf(w, i + 1);
    assert w[i] in w;
  }

  lemma TailOf(w: seq<nat>, i: nat)
    requires i <= |w|
    ensures forall x :: x in w[i..] ==> x in w
    ensures i < |w| ==> w[i..][0] == w[i] && w[i..][1..] == w[i + 1..]
  {
  }

  /** event_flags_set takes exactly the satisfied waiters off its list; the rest keep their order. */
  lemma {:induction false} SetFlagsList(s: Sys, o: nat, flags: bv32, i: nat)
    requires Inv(s) && o < |s.waiting| && s.isEvent[o] && i <= |s.waiting[o]|
    ensures WaitersInRange(s)
    ensures WakeSatisfied(s, o, flags, i).waiting
         == s.waiting[o := s.waiting[o][..i] + Kept(s, s.waiting[o][i..], flags)]
    decreases |s.waiting[o]| - i
  {
    var w := s.waiting[o];
    KeptSkips(s, w, flags, i);
    if i == |w| {
    } else if Wakes(s, w[i], flags) {
      DeliverEffect(s, o, i);
      DeliverRest(s, Deliver(s, o, w[i]), o, flags, i);
      SetFlagsList(Deliver(s, o, w[i]), o, flags, i);
    } else {
      SetFlagsList(s, o, flags, i + 1);
    }
  }

  lemma KeptSkips(s: Sys, w: seq<nat>, flags: bv32, i: nat)
    requires i <= |w|
    ensures i == |w| ==> w[..i] + Kept(s, w[i..], flags) == w
    ensures i < |w| && !Wakes(s, w[i], flags) ==>
            w[..i + 1] + Kept(s, w[i + 1..], flags) == w[..i] + Kept(s, w[i..], flags)
  {
    if i < |w| {
      assert w[i..][0] == w[i] && w[i..][1..] == w[i + 1..];
    }
  }

  /** The live ones among them join the tails of their ready queues in list order. */
  lemma {:induction false} SetFlagsOrder(s: Sys, o: nat, flags: bv32, i: nat, p: nat)
    requires Inv(s) && o < |s.waiting| && s.isEvent[o] && i <= |s.waiting[o]| && p < NUM_PRIORITIES
    ensures WaitersInRange(s) && (forall x :: x in s.waiting[o][i..] ==> x < MAX_THREADS)
    ensures Shape(WakeSatisfied(s, o, flags, i))
    ensures WakeSatisfied(s, o, flags, i).ready[p] == s.ready[p] + Woken(s, s.waiting[o][i..], flags, p)
    decreases |s.waiting[o]| - i
  {
    var w := s.waiting[o];
    assert forall x :: x in w[i..] ==> x in w;
    if i == |w| {
    } else if Wakes(s, w[i], flags) {
      DeliverEffect(s, o, i);
      DeliverOrder(s, Deliver(s, o, w[i]), o, flags, i, p);
      SetFlagsOrder(Deliver(s, o, w[i]), o, flags, i, p);
    } else {
      SetFlagsOrder(s, o, flags, i + 1, p);
      TailOf(w, i);
    }
  }

  /** No listed waiter has its condition met. */
  ghost predicate NoneSatisfied(s: Sys, o: nat, flags: bv32) {
    o < |s.waiting| && forall t :: t in s.waiting[o] ==> !Wakes(s, t, flags)
  }

  lemma {:induction false} SetLeavesNoneSatisfied(s: Sys, o: nat, flags: bv32, i: nat)
    requires Inv(s) && o < |s.waiting| && s.isEvent[o] && i <= |s.waiting[o]|
    requires forall t :: t in s.waiting[o][..i] ==> !Wakes(s, t, flags)
    ensures WaitersInRange(s) && NoneSatisfied(WakeSatisfied(s, o, flags, i), o, flags)
    decreases |s.waiting[o]| - i
  {
    var w := s.waiting[o];
    if i < |w| {
      var t := w[i];
      if Wakes(s, t, flags) {
        DeliverEffect(s, o, i);
        var u := Deliver(s, o, t);
        forall x | x in u.waiting[o][..i]
          ensures !Wakes(u, x, flags)
        {
          assert u.waiting[o][..i] == w[..i];
          MaskFrame(s.entries, t, x);
        }
        SetLeavesNoneSatisfied(u, o, flags, i);
      } else {
        assert w[..i + 1] == w[..i] + [t];
        SetLeavesNoneSatisfied(s, o, flags, i + 1);
      }
    } else {
      assert w[..i] == w;
    }
  }

  // ---- on the bits ------------------------------------------------------------------------------

  /** The slot of a thread is where its mask is looked up. */
  lemma MaskOfSlot(es: seq<Entry>, k: nat)
    requires DistinctEntries(es) && k < |es| && es[k].Held?
    ensures WaitMask(es, es[k].thread) == (es[k].mask, es[k].all)
  {
    var j := FindEntry(es, es[k].thread);
    assert j <= k;
  }

  lemma {:induction false} WokenHas(s: Sys, w: seq<nat>, flags: bv32, t: nat)
    requires Shape(s) && (forall x :: x in w ==> x < MAX_THREADS) && t in w
    requires Wakes(s, t, flags) && s.pool[t].state != Zombie
    ensures t in Woken(s, w, flags, Prio(s, t))
  {
    if w[0] != t {
      assert t in w[1..] && forall x :: x in w[1..] ==> x in w;
      WokenHas(s, w[1..], flags, t);
    }
  }

  /**
   event_flags_set, slot by slot: the thread of slot k leaves the list exactly if all, or any, of the
   flags it asked for are set now; if it is alive it is queued.
   */
  lemma SetFlagsTakes(s: Sys, o: nat, flags: bv32, k: nat)
    requires Inv(s) && o < |s.waiting| && s.isEvent[o]
    requires k < |s.entries| && s.entries[k].Held? && s.entries[k].thread in s.waiting[o]
    ensures WaitersInRange(s) && s.entries[k].thread < MAX_THREADS
    ensures
      var (e, w) := (WakeSatisfied(s, o, flags, 0), s.entries[k]);
      && o < |e.waiting| && |e.ready| == NUM_PRIORITIES
      && (w.thread in e.waiting[o] <==> if w.all then flags & w.mask != w.mask else flags & w.mask == 0)
      && (w.thread !in e.waiting[o] && s.pool[w.thread].state != Zombie ==>
            exists p :: 0 <= p < NUM_PRIORITIES && w.thread in e.ready[p])
  {
    SlotLeavesOrStays(s, o, flags, k);
  }

  lemma SlotLeavesOrStays(s: Sys, o: nat, flags: bv32, k: nat)
    requires Inv(s) && o < |s.waiting| && s.isEvent[o]
    requires k < |s.entries| && s.entries[k].Held? && s.entries[k].thread in s.waiting[o]
    ensures WaitersInRange(s) && s.entries[k].thread < MAX_THREADS
    ensures
      var (e, w) := (WakeSatisfied(s, o, flags, 0), s.entries[k]);
      && o < |e.waiting| && |e.ready| == NUM_PRIORITIES
      && (w.thread in e.waiting[o] <==> !Satisfied(flags, w.mask, w.all))
      && (w.thread !in e.waiting[o] && s.pool[w.thread].state != Zombie ==>
            exists p :: 0 <= p < NUM_PRIORITIES && w.thread in e.ready[p])
  {
    var t := s.entries[k].thread;
    var list := s.waiting[o];
    MaskOfSlot(s.entries, k);
    SetFlagsList(s, o, flags, 0);
    assert list[..0] + Kept(s, list[0..], flags) == Kept(s, list, flags);
    SetFlagsOrder(s, o, flags, 0, 0);
    if Wakes(s, t, flags) && s.pool[t].state != Zombie {
      TakenIsQueued(s, o, flags, t);
    }
  }

  lemma TakenIsQueued(s: Sys, o: nat, flags: bv32, t: nat)
    requires Inv(s) && o < |s.waiting| && s.isEvent[o] && t in s.waiting[o] && t < MAX_THREADS
    requires Wakes(s, t, flags) && s.pool[t].state != Zombie
    ensures WaitersInRange(s) && |WakeSatisfied(s, o, flags, 0).ready| == NUM_PRIORITIES
    ensures t in WakeSatisfied(s, o, flags, 0).ready[Prio(s, t)]
  {
    SetFlagsOrder(s, o, flags, 0, Prio(s, t));
    assert s.waiting[o][0..] == s.waiting[o];
    WokenHas(s, s.waiting[o], flags, t);
  }
}
