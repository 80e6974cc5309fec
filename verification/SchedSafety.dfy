/**
 What it means that the scheduler can go wrong: some run leads to the free of a thread that
 something still refers to, or to a switch that finds nobody.
 */
module SchedSafety {
  import opened Links
  import opened SchedSpec
  import opened SchedInv
  import opened SchedRuns

  /** Whatever the step frees is unreferenced, and a switch finds a thread to run. */
  ghost predicate GoesWell(s: Sys, step: Step)
    requires Shape(s) && CanHappen(s, step)
  {
    && (forall t: nat :: Frees(s, step, t) ==> t < MAX_THREADS && Unreferenced(s, step, t))
    && (step.DoSwitch? ==> Choice(s, step.c).1 != NULL)
  }

  /** Some legal run leads from s to e. */
  ghost predicate Reaches(s: Sys, e: Sys) {
    exists steps :: LegalRun(s, steps) && End(s, steps) == e
  }

  /** No legal run from s comes to a step that goes wrong. */
  ghost predicate Safe(s: Sys) {
    forall e, step :: Reaches(s, e) && Shape(e) && CanHappen(e, step) ==> GoesWell(e, step)
  }

  /** No legal run from s comes to the free of a thread that something still refers to. */
  ghost predicate FreesSafely(s: Sys) {
    forall e, step, t: nat :: Reaches(s, e) && Shape(e) && CanHappen(e, step) && Frees(e, step, t) ==>
      t < MAX_THREADS && Unreferenced(e, step, t)
  }

  lemma SafeFreesSafely(s: Sys)
    requires Safe(s)
    ensures FreesSafely(s)
  {
    forall e, step, t: nat | Reaches(s, e) && Shape(e) && CanHappen(e, step) && Frees(e, step, t)
      ensures t < MAX_THREADS && Unreferenced(e, step, t)
    {
      assert GoesWell(e, step);
    }
  }

  lemma SoundIsSafe(s: Sys)
    requires Inv(s)
    ensures Safe(s)
  {
    forall e, step | Reaches(s, e) && Shape(e) && CanHappen(e, step)
      ensures GoesWell(e, step)
    {
      var steps :| LegalRun(s, steps) && End(s, steps) == e;
      RunKeepsInv(s, steps);
      SoundGoesWell(e, step);
    }
  }

  lemma SoundGoesWell(s: Sys, step: Step)
    requires Inv(s) && CanHappen(s, step)
    ensures GoesWell(s, step)
  {
    forall t: nat | Frees(s, step, t)
      ensures t < MAX_THREADS && Unreferenced(s, step, t)
    {
      FreeIsSafe(s, step, t);
    }
    if step.DoSwitch? {
      var k := SwitchFinds(s, step.c);
    }
  }

  /** What can be reached later can be reached from here. */
  lemma ReachesEarlier(s: Sys, step: Step, e: Sys)
    requires Shape(s) && Legal(s, step) && Reaches(Next(s, step), e)
    ensures Reaches(s, e)
  {
    var steps :| LegalRun(Next(s, step), steps) && End(Next(s, step), steps) == e;
    assert ([step] + steps)[1..] == steps;
    assert LegalRun(s, [step] + steps) && End(s, [step] + steps) == e;
  }

  lemma ReachesSelf(s: Sys)
    requires Shape(s)
    ensures Reaches(s, s)
  {
    assert LegalRun(s, []) && End(s, []) == s;
  }

  lemma WrongEarlier(s: Sys, step: Step)
    requires Shape(s) && Legal(s, step)
    ensures !FreesSafely(Next(s, step)) ==> !FreesSafely(s)
  {
    if !FreesSafely(Next(s, step)) {
      var e, last, t: nat :| Reaches(Next(s, step), e) && Shape(e) && CanHappen(e, last) && Frees(e, last, t)
                             && !(t < MAX_THREADS && Unreferenced(e, last, t));
      ReachesEarlier(s, step, e);
    }
  }

  lemma WrongAfterSwitch(s: Sys, c: nat)
    requires Shape(s) && c < 2
    ensures !FreesSafely(Switch(s, c)) ==> !FreesSafely(s)
  {
    assert Next(s, DoSwitch(c)) == Switch(s, c) && Legal(s, DoSwitch(c));
    WrongEarlier(s, DoSwitch(c));
  }

  lemma WrongNow(s: Sys, step: Step, t: nat)
    requires Shape(s) && CanHappen(s, step) && Frees(s, step, t)
    requires !(t < MAX_THREADS && Unreferenced(s, step, t))
    ensures !FreesSafely(s)
  {
    ReachesSelf(s);
  }
}
