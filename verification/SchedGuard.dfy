/**
 The guard of `SchedRuns.Legal` is exact: a blocking call that cuts an idle thread off its
 queue is the only step after which the scheduler can go wrong, and after it, it can.
 */
module SchedGuard {
  import opened Links
  import opened SchedSpec
  import opened SchedInv
  import opened SchedRuns
  import opened SchedSafety
  import opened SchedAdrift
  import opened SchedStranded

  // ---- the state after the blocking call ---------------------------------------------------

  /** What makes an idle thread one, apart from being queued. */
  ghost predicate IdleTcbOk(s: Sys, c: nat)
    requires Shape(s) && c < 2
  {
    var t := s.idle[c];
    && s.pool[t].used && s.pool[t].affinity == c && !s.pool[t].killPending && s.pool[t].state in {Ready, Running}
    && Prio(s, t) == LOWEST && s.cur[1 - c] != t
  }

  /** The invariant, but for idle threads that may be off their queue. */
  ghost predicate Severed(b: Sys) {
    && Shape(b)
    && b.cur[0] != b.cur[1] && b.idle[0] != b.idle[1] && b.resumed == [false, false]
    && Views(b) && ReadyLists(b) && WaitLists(b) && EntriesOk(b) && Tids(b)
    && IdleTcbOk(b, 0) && IdleTcbOk(b, 1)
  }

  lemma BlockSevers(s: Sys, c: nat, o: nat, mask: bv32, all: bool)
    requires Inv(s) && CanHappen(s, DoBlock(c, o, mask, all))
    ensures Severed(Block(s, c, o, mask, all))
  {
    BlockKeepsEntries(s, c, o, mask, all);
    BlockKeepsReady(s, c, o, mask, all);
    BlockKeepsWaiting(s, c, o, mask, all);
    BlockKeepsViews(s, c, o, mask, all);
    BlockKeepsTids(s, c, o, mask, all);
    BlockKeepsIdleTcbs(s, c, o, mask, all);
  }

  lemma BlockKeepsIdleTcbs(s: Sys, c: nat, o: nat, mask: bv32, all: bool)
    requires Shape(s) && IdleOk(s, 0) && IdleOk(s, 1) && CanHappen(s, DoBlock(c, o, mask, all))
    ensures IdleTcbOk(Block(s, c, o, mask, all), 0) && IdleTcbOk(Block(s, c, o, mask, all), 1)
  {
    BlockEffect(s, c, o, mask, all);
  }

  /** The caller of the lowest priority is blocked and listed, and idle thread d is off its queue. */
  ghost predicate CutAt(b: Sys, c: nat, o: nat, d: nat) {
    && Severed(b) && c < 2 && d < 2 && o < |b.waiting|
    && b.cur[c] in b.waiting[o] && b.pool[b.cur[c]].state == Blocked && Prio(b, b.cur[c]) == LOWEST
    && b.cur[c] !in b.idle && !OnReady(b, b.idle[d])
  }

  lemma BlockCuts(s: Sys, c: nat, o: nat, mask: bv32, all: bool) returns (d: nat)
    requires Inv(s) && CanHappen(s, DoBlock(c, o, mask, all)) && IdleBehind(s, s.cur[c])
    ensures CutAt(Block(s, c, o, mask, all), c, o, d)
  {
    BlockSevers(s, c, o, mask, all);
    BlockedCaller(s, c, o, mask, all);
    d := IdleDropped(s, c, o, mask, all);
  }

  lemma BlockedCaller(s: Sys, c: nat, o: nat, mask: bv32, all: bool)
    requires Inv(s) && CanHappen(s, DoBlock(c, o, mask, all)) && IdleBehind(s, s.cur[c])
    ensures
      var t, b := s.cur[c], Block(s, c, o, mask, all);
      && t in b.waiting[o] && b.pool[t].state == Blocked && Prio(b, t) == LOWEST && t !in b.idle
      && b.cur == s.cur && b.idle == s.idle && |b.waiting| == |s.waiting|
  {
    BlockEffect(s, c, o, mask, all);
    IdlesAreLowest(s, s.cur[c]);
  }

  lemma IdlesAreLowest(s: Sys, t: nat)
    requires Shape(s) && ReadyLists(s) && IdleOk(s, 0) && IdleOk(s, 1) && t < MAX_THREADS && IdleBehind(s, t)
    ensures Prio(s, t) == LOWEST
  {
    var d :| 0 <= d < 2 && s.idle[d] in s.ready[Prio(s, t)];
  }

  // ---- and what it leads to ------------------------------------------------------------------

  lemma SeveredFloats(b: Sys, d: nat)
    requires Severed(b) && d < 2 && !OnReady(b, b.idle[d])
    ensures Afloat(b, d)
  {
    UsedOnes(b);
  }

  /** Idle thread d was cut off while another thread runs on core d. */
  lemma CutAlone(b: Sys, d: nat)
    requires Severed(b) && d < 2 && !OnReady(b, b.idle[d]) && b.cur[d] !in b.idle
    ensures !FreesSafely(b)
  {
    if Choice(b, d).1 != NULL {
      SeveredFloats(b, d);
      AdriftFreesUnsafely(b, d);
    } else {
      assert Ok(ViewOf(b, b.cur[d]));
      LonelyLeaves(b, d);
    }
  }

  /** Idle thread d alone was cut off: put back, it would restore the invariant. */
  lemma Mended(b: Sys, d: nat)
    requires Severed(b) && d < 2 && !OnReady(b, b.idle[d]) && OnReady(b, b.idle[1 - d])
    ensures Inv(Mend(b, d))
  {
    var m := Mend(b, d);
    NoDupAppend(b.ready[LOWEST], b.idle[d]);
    forall x | 0 <= x < MAX_THREADS
      ensures Ok(ViewOf(m, x))
    {
      assert Ok(ViewOf(b, x));
      assert Waits(m, x) == Waits(b, x);
    }
    assert forall x :: WaitsOnEvent(m, x) == WaitsOnEvent(b, x);
  }

  /** Once idle threads are cut off, a free can go wrong. */
  lemma CutIsUnsafe(b: Sys, c: nat, o: nat, d: nat)
    requires CutAt(b, c, o, d)
    ensures !FreesSafely(b)
  {
    if b.cur[d] !in b.idle {
      CutAlone(b, d);
    } else if !OnReady(b, b.idle[c]) {
      CutAlone(b, c);
    } else {
      assert d == 1 - c;
      Mended(b, d);
      StrandedIsUnsafe(b, c, d, o);
    }
  }

  // ---- the exact condition --------------------------------------------------------------------

  /**
   After a blocking call no free can go wrong exactly if no idle thread was queued behind the
   caller.
   */
  lemma BlockFreesSafelyIff(s: Sys, c: nat, o: nat, mask: bv32, all: bool)
    requires Inv(s) && CanHappen(s, DoBlock(c, o, mask, all))
    ensures FreesSafely(Block(s, c, o, mask, all)) <==> !IdleBehind(s, s.cur[c])
  {
    if IdleBehind(s, s.cur[c]) {
      var d := BlockCuts(s, c, o, mask, all);
      CutIsUnsafe(Block(s, c, o, mask, all), c, o, d);
    } else {
      BlockKeepsInv(s, c, o, mask, all);
      SoundIsSafe(Block(s, c, o, mask, all));
      SafeFreesSafely(Block(s, c, o, mask, all));
    }
  }

  /** The same for frees and switches together. */
  lemma BlockIsSafeIff(s: Sys, c: nat, o: nat, mask: bv32, all: bool)
    requires Inv(s) && CanHappen(s, DoBlock(c, o, mask, all))
    ensures Safe(Block(s, c, o, mask, all)) <==> !IdleBehind(s, s.cur[c])
  {
    BlockFreesSafelyIff(s, c, o, mask, all);
    if IdleBehind(s, s.cur[c]) {
      if Safe(Block(s, c, o, mask, all)) {
        SafeFreesSafely(Block(s, c, o, mask, all));
      }
    } else {
      BlockKeepsInv(s, c, o, mask, all);
      SoundIsSafe(Block(s, c, o, mask, all));
    }
  }

  /** Taking steps from s, guarded or not, ends in e. */
  ghost predicate LeadsTo(s: Sys, steps: seq<Step>, e: Sys)
    decreases |steps|
  {
    && Shape(s)
    && if steps == [] then s == e else CanHappen(s, steps[0]) && LeadsTo(Next(s, steps[0]), steps[1..], e)
  }

  /** Every state on the way is safe. */
  ghost predicate SafeAllAlong(s: Sys, steps: seq<Step>)
    requires Run(s, steps)
    decreases |steps|
  {
    Safe(s) && (steps != [] ==> SafeAllAlong(Next(s, steps[0]), steps[1..]))
  }

  /** From no state on the way can a free go wrong. */
  ghost predicate FreesSafelyAllAlong(s: Sys, steps: seq<Step>)
    requires Run(s, steps)
    decreases |steps|
  {
    FreesSafely(s) && (steps != [] ==> FreesSafelyAllAlong(Next(s, steps[0]), steps[1..]))
  }

  /**
   Of the runs the code allows, exactly the legal ones never pass through a state from which a
   thread can be freed while something refers to it.  In those, no core ever finds nothing to run.
   */
  lemma {:induction false} LegalIffSafe(s: Sys, steps: seq<Step>)
    requires Inv(s) && Run(s, steps)
    ensures LegalRun(s, steps) <==> FreesSafelyAllAlong(s, steps)
    ensures LegalRun(s, steps) <==> SafeAllAlong(s, steps)
    decreases |steps|
  {
    SoundIsSafe(s);
    SafeFreesSafely(s);
    if steps != [] {
      var step := steps[0];
      if Legal(s, step) {
        StepKeepsInv(s, step);
        LegalIffSafe(Next(s, step), steps[1..]);
      } else {
        BlockFreesSafelyIff(s, step.c, step.o, step.mask, step.all);
        BlockIsSafeIff(s, step.c, step.o, step.mask, step.all);
        assert !FreesSafely(Next(s, step)) && !Safe(Next(s, step));
      }
    }
  }
}
