/**
 Who stays on a ready queue over whole runs.

 A blocking call by a thread with others behind it cuts those off their queue.  Without such calls
 every runnable thread is queued, always; with one, a thread that is cut off is never run again.
 */
module SchedTidy {
  import opened Links
  import opened SchedSpec
  import opened SchedInv
  import opened SchedRuns

  // ---- the exact runs in which nobody is cut off ------------------------------------------------

  /** Only the last thread of a ready queue blocks. */
  ghost predicate Tidy(s: Sys, step: Step)
    requires Shape(s) && CanHappen(s, step)
  {
    step.DoBlock? ==> CallerLast(s, s.cur[step.c])
  }

  ghost predicate TidyRun(s: Sys, steps: seq<Step>)
    requires Run(s, steps)
    decreases |steps|
  {
    steps != [] ==> Tidy(s, steps[0]) && TidyRun(Next(s, steps[0]), steps[1..])
  }

  ghost predicate FullAllAlong(s: Sys, steps: seq<Step>)
    requires Run(s, steps)
    decreases |steps|
  {
    Full(s) && (steps != [] ==> FullAllAlong(Next(s, steps[0]), steps[1..]))
  }

  /** One step keeps every runnable thread queued exactly when it is tidy. */
  lemma StepKeepsFullIff(s: Sys, step: Step)
    requires Inv(s) && Full(s) && CanHappen(s, step)
    ensures Full(Next(s, step)) <==> Tidy(s, step)
  {
    if step.DoBlock? {
      BlockKeepsFullIff(s, step.c, step.o, step.mask, step.all);
    } else {
      StepKeepsFull(s, step);
    }
  }

  /** A caller with nobody behind it has no idle thread behind it: tidy steps are legal. */
  lemma TidyIsLegal(s: Sys, step: Step)
    requires Inv(s) && CanHappen(s, step) && Tidy(s, step)
    ensures Legal(s, step)
  {
    if step.DoBlock? {
      var t := s.cur[step.c];
      var q, f := s.ready[Prio(s, t)], Front(s.ready[Prio(s, t)], t);
      assert q == f + [t];
    }
  }

  /** Of all runs, exactly the tidy ones keep every runnable thread queued after every step; they are legal. */
  lemma {:induction false} TidyIffFull(s: Sys, steps: seq<Step>)
    requires Inv(s) && Full(s) && Run(s, steps)
    ensures TidyRun(s, steps) <==> FullAllAlong(s, steps)
    ensures TidyRun(s, steps) ==> LegalRun(s, steps) && Full(End(s, steps))
    decreases |steps|
  {
    if steps != [] {
      StepKeepsFullIff(s, steps[0]);
      if Tidy(s, steps[0]) {
        TidyIsLegal(s, steps[0]);
        StepKeepsInv(s, steps[0]);
        TidyIffFull(Next(s, steps[0]), steps[1..]);
      } else {
        NotFullNow(Next(s, steps[0]), steps[1..]);
      }
    }
  }

  lemma NotFullNow(s: Sys, steps: seq<Step>)
    requires Run(s, steps) && !Full(s)
    ensures !FullAllAlong(s, steps)
  {
  }

  /** After a tidy run a thread is queued exactly if it can run, or is a ZOMBIE still on a core. */
  lemma QueuedIffRunnable(s: Sys, steps: seq<Step>, t: nat)
    requires Inv(s) && Full(s) && Run(s, steps) && TidyRun(s, steps) && t < MAX_THREADS
    ensures LegalRun(s, steps)
    ensures
      var e := End(s, steps);
      OnReady(e, t) <==> e.pool[t].state in {Ready, Running} || (e.pool[t].state == Zombie && t in e.cur)
  {
    TidyIffFull(s, steps);
    RunKeepsInv(s, steps);
    var e := End(s, steps);
    assert Ok(ViewOf(e, t)) && Queued(e, t);
  }

  // ---- a thread that is cut off stays off ---------------------------------------------------------

  /** READY, on no core and on no queue. */
  ghost predicate CutOff(s: Sys, t: nat)
    requires Shape(s) && t < MAX_THREADS
  {
    s.pool[t].state == Ready && t !in s.cur && !OnReady(s, t)
  }

  /** Who was queued behind a blocking caller is cut off at once, or when it leaves the core it is on. */
  lemma BlockCutsOff(s: Sys, c: nat, o: nat, mask: bv32, all: bool, x: nat)
    requires Inv(s) && CanHappen(s, DoBlock(c, o, mask, all)) && x < MAX_THREADS
    requires var t := s.cur[c]; x != t && x in s.ready[Prio(s, t)] && x !in Front(s.ready[Prio(s, t)], t)
    ensures !OnReady(Block(s, c, o, mask, all), x)
    ensures x !in s.cur ==> CutOff(Block(s, c, o, mask, all), x)
  {
    var t, b := s.cur[c], Block(s, c, o, mask, all);
    BlockEffect(s, c, o, mask, all);
    assert Ok(ViewOf(s, x));
    assert Prio(b, x) == Prio(s, x) == Prio(s, t);
  }

  /** Nothing but a kill changes it: no wake-up reaches it and no switch picks it. */
  lemma StepKeepsCutOff(s: Sys, step: Step, t: nat)
    requires Inv(s) && CanHappen(s, step) && t < MAX_THREADS && CutOff(s, t) && (step.DoKill? ==> step.t != t)
    ensures CutOff(Next(s, step), t) && Next(s, step).pool[t] == s.pool[t]
  {
    assert Ok(ViewOf(s, t));
    match step
    case DoSwitch(c) => SwitchKeepsCutOff(s, c, t);
    case DoKill(c, x) => KillKeepsCutOff(s, c, x, t);
    case DoBlock(c, o, mask, all) => BlockKeepsCutOff(s, c, o, mask, all, t);
    case DoUnblock(o, x) =>
      assert x == t ==> Waits(s, t);
      OtherKeepsCutOff(s, step, t);
    case _ => OtherKeepsCutOff(s, step, t);
  }

  lemma OtherKeepsCutOff(s: Sys, step: Step, t: nat)
    requires Shape(s) && CanHappen(s, step) && !step.DoSwitch? && !step.DoKill? && !step.DoBlock?
    requires t < MAX_THREADS && CutOff(s, t) && s.pool[t].used && t !in s.doomed && (step.DoUnblock? ==> step.t != t)
    ensures CutOff(Next(s, step), t) && Next(s, step).pool[t] == s.pool[t]
  {
    if step.DoCreate? {
      CreateKeepsCutOff(s, step, t);
    }
  }

  lemma BlockKeepsCutOff(s: Sys, c: nat, o: nat, mask: bv32, all: bool, t: nat)
    requires Shape(s) && CanHappen(s, DoBlock(c, o, mask, all)) && t < MAX_THREADS && CutOff(s, t)
    ensures CutOff(Block(s, c, o, mask, all), t) && Block(s, c, o, mask, all).pool[t] == s.pool[t]
  {
    BlockEffect(s, c, o, mask, all);
  }

  lemma CreateKeepsCutOff(s: Sys, step: Step, t: nat)
    requires Shape(s) && step.DoCreate? && t < MAX_THREADS && CutOff(s, t) && s.pool[t].used
    ensures CutOff(Next(s, step), t) && Next(s, step).pool[t] == s.pool[t]
  {
    assert FirstFree(s.pool) != t;
  }

  lemma KillKeepsCutOff(s: Sys, c: nat, x: nat, t: nat)
    requires Shape(s) && c < 2 && x < MAX_THREADS && t < MAX_THREADS && CutOff(s, t) && x != t
    ensures CutOff(Kill(s, c, x), t) && Kill(s, c, x).pool[t] == s.pool[t]
  {
    assert Prio(Kill(s, c, x), t) == Prio(s, t);
  }

  lemma SwitchKeepsCutOff(s: Sys, c: nat, t: nat)
    requires Inv(s) && c < 2 && t < MAX_THREADS && CutOff(s, t)
    ensures CutOff(Switch(s, c), t) && Switch(s, c).pool[t] == s.pool[t]
  {
    var k := SwitchFinds(s, c);
    ChoiceKeepsMembers(s, c);
    DepartedKeepsOff(s, c, t);
    DispatchKeepsOff(Departed(s, c), Choice(s, c).0, c, Choice(s, c).1, k, t);
  }

  lemma DepartedKeepsOff(s: Sys, c: nat, t: nat)
    requires Shape(s) && c < 2 && t < MAX_THREADS && CutOff(s, t)
    ensures CutOff(Departed(s, c), t) && Departed(s, c).pool[t] == s.pool[t]
  {
    assert Prio(Departed(s, c), t) == Prio(s, t);
  }

  lemma DispatchKeepsOff(d: Sys, ready: seq<seq<nat>>, c: nat, x: nat, k: nat, t: nat)
    requires Shape(d) && ReadyLists(d) && c < 2 && |ready| == NUM_PRIORITIES && x < MAX_THREADS && t < MAX_THREADS
    requires k < NUM_PRIORITIES && x in d.ready[k] && CutOff(d, t)
    requires forall j :: 0 <= j < NUM_PRIORITIES ==> SameMembers(d.ready[j], ready[j])
    ensures
      var e := SetState(d.(ready := ready), x, Running).(cur := d.cur[c := x], resumed := d.resumed[c := false]);
      CutOff(e, t) && e.pool[t] == d.pool[t]
  {
    assert Prio(d, x) == k;
    assert SameMembers(d.ready[Prio(d, t)], ready[Prio(d, t)]);
  }

  /** No step of the run kills t. */
  ghost predicate Spares(steps: seq<Step>, t: nat) {
    forall i :: 0 <= i < |steps| && steps[i].DoKill? ==> steps[i].t != t
  }

  /** Over every legal run that does not kill it, a thread that is cut off neither runs nor changes. */
  lemma {:induction false} CutOffForGood(s: Sys, steps: seq<Step>, t: nat)
    requires Inv(s) && LegalRun(s, steps) && t < MAX_THREADS && CutOff(s, t) && Spares(steps, t)
    ensures CutOff(End(s, steps), t) && End(s, steps).pool[t] == s.pool[t]
    decreases |steps|
  {
    if steps != [] {
      assert steps[0].DoKill? ==> steps[0].t != t;
      StepKeepsCutOff(s, steps[0], t);
      StepKeepsInv(s, steps[0]);
      assert forall i :: 0 <= i < |steps[1..]| ==> steps[1..][i] == steps[i + 1];
      CutOffForGood(Next(s, steps[0]), steps[1..], t);
    }
  }
}
