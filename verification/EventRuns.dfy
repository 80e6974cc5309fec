/**
 Event flags over whole runs: one event_flags object among everything else the kernel does.

 Its own operations interleave with every other step of the machine: switches, kills, creations,
 frees, sleeps, and the blocking and waking of every other primitive.  asked records what each
 thread asked for when it last blocked here.
 */
module EventRuns {
  import opened SchedSpec
  import opened SchedInv
  import opened SchedRuns
  import opened Wakeups
  import opened Sync

  datatype EventState = EventState(sys: Sys, flags: bv32, asked: map<nat, (bv32, bool)>)

  datatype EventStep =
    | SetFlags(mask: bv32)
    | ClearFlags(mask: bv32)
    | Wait(c: nat, mask: bv32, all: bool)    // one round of event_flags_wait on core c
    | Other(step: Step)                      // anything else the kernel does

  ghost predicate CanEvent(u: EventState, o: nat, step: EventStep) {
    && Shape(u.sys) && WaitersInRange(u.sys) && o < |u.sys.waiting|
    && match step
       case SetFlags(_) => true
       case ClearFlags(_) => true
       case Wait(c, mask, all) =>
         MayCall(u.sys, c, o, mask, all) && (Satisfied(u.flags, mask, all) || MayBlock(u.sys, c, o, mask, all))
       case Other(step) => Legal(u.sys, step) && (step.DoBlock? || step.DoUnblock? ==> step.o != o)
  }

  ghost function EventNext(u: EventState, o: nat, step: EventStep): EventState
    requires CanEvent(u, o, step)
  {
    match step
    case SetFlags(mask) => EventState(WakeSatisfied(u.sys, o, u.flags | mask, 0), u.flags | mask, u.asked)
    case ClearFlags(mask) => u.(flags := u.flags & !mask)
    case Wait(c, mask, all) =>
      if Satisfied(u.flags, mask, all) then u
      else EventState(Block(u.sys, c, o, mask, all), u.flags, u.asked[u.sys.cur[c] := (mask, all)])
    case Other(step) => u.(sys := Next(u.sys, step))
  }

  /** Setting flags adds them and walks the list with all that are set (`Wakeups.SetFlagsTakes`). */
  lemma SetEffect(u: EventState, o: nat, step: EventStep, n: EventState)
    requires CanEvent(u, o, step) && step.SetFlags? && n == EventNext(u, o, step)
    ensures n.flags == u.flags | step.mask && n.asked == u.asked && n.sys == WakeSatisfied(u.sys, o, n.flags, 0)
  {
  }

  /** A round of waiting ends at once if what it asks for is set; else the caller is listed. */
  lemma WaitEffect(u: EventState, o: nat, step: EventStep, n: EventState)
    requires CanEvent(u, o, step) && step.Wait? && n == EventNext(u, o, step)
    ensures Satisfied(u.flags, step.mask, step.all) ==> n == u
    ensures !Satisfied(u.flags, step.mask, step.all) ==> Asleep(u, o, u.sys.cur[step.c], step.mask, step.all, n)
  {
  }

  /** t has asked for this and sleeps on the list. */
  ghost predicate Asleep(u: EventState, o: nat, t: nat, mask: bv32, all: bool, n: EventState)
    requires o < |u.sys.waiting| && t < |u.sys.pool|
  {
    && n.flags == u.flags && n.asked == u.asked[t := (mask, all)]
    && n.sys.waiting == u.sys.waiting[o := u.sys.waiting[o] + [t]]
    && n.sys.pool == u.sys.pool[t := u.sys.pool[t].(state := Blocked)]
  }

  lemma ClearEffect(u: EventState, o: nat, step: EventStep, n: EventState)
    requires CanEvent(u, o, step) && step.ClearFlags? && n == EventNext(u, o, step)
    ensures n == EventState(u.sys, u.flags & !step.mask, u.asked)
  {
  }

  ghost predicate EventRun(u: EventState, o: nat, steps: seq<EventStep>)
    decreases |steps|
  {
    steps != [] ==> CanEvent(u, o, steps[0]) && EventRun(EventNext(u, o, steps[0]), o, steps[1..])
  }

  ghost function EventEnd(u: EventState, o: nat, steps: seq<EventStep>): EventState
    requires EventRun(u, o, steps)
    decreases |steps|
  {
    if steps == [] then u else EventEnd(EventNext(u, o, steps[0]), o, steps[1..])
  }

  /** What the pool records for a listed thread is what it asked for, and the flags do not meet it. */
  ghost predicate StillWaits(u: EventState, t: nat) {
    && t in u.asked && WaitMask(u.sys.entries, t) == u.asked[t]
    && !Satisfied(u.flags, u.asked[t].0, u.asked[t].1)
  }

  ghost predicate AllStillWait(u: EventState, o: nat) {
    o < |u.sys.waiting| == |u.sys.isEvent| && u.sys.isEvent[o] && forall t :: t in u.sys.waiting[o] ==> StillWaits(u, t)
  }

  ghost predicate EventInv(u: EventState, o: nat) {
    Inv(u.sys) && AllStillWait(u, o)
  }

  /** A new event_flags object, whatever its flags. */
  lemma EventStarts(s: Sys, o: nat, flags: bv32)
    requires Inv(s) && o < |s.waiting| && s.isEvent[o] && s.waiting[o] == []
    ensures EventInv(EventState(s, flags, map[]), o)
  {
  }

  lemma InvInRange(s: Sys)
    requires Shape(s) && WaitLists(s)
    ensures WaitersInRange(s)
  {
  }

  /** Steps that are not this object's leave its list and what is recorded for it alone. */
  lemma OthersKeepMasks(s: Sys, step: Step, o: nat, x: nat)
    requires Inv(s) && CanHappen(s, step) && (step.DoBlock? || step.DoUnblock? ==> step.o != o)
    requires o < |s.waiting| && x in s.waiting[o]
    ensures WaitMask(Next(s, step).entries, x) == WaitMask(s.entries, x)
  {
    if step.DoBlock? {
      BlockKeepsMask(s, step.c, step.o, step.mask, step.all, x);
    } else if step.DoUnblock? {
      assert x != step.t;
      MaskFrame(s.entries, step.t, x);
    }
  }

  lemma BlockKeepsMask(s: Sys, c: nat, o: nat, mask: bv32, all: bool, x: nat)
    requires Inv(s) && CanHappen(s, DoBlock(c, o, mask, all)) && Waits(s, x)
    ensures WaitMask(Block(s, c, o, mask, all).entries, x) == WaitMask(s.entries, x)
  {
    CallerHasRoom(s, c, o, mask, all);
    BlockedMask(s, c, o, mask, all, x);
  }

  lemma CallerHasRoom(s: Sys, c: nat, o: nat, mask: bv32, all: bool)
    requires Inv(s) && CanHappen(s, DoBlock(c, o, mask, all))
    ensures !Waits(s, s.cur[c]) && Vacant in s.entries && !HasEntry(s.entries, s.cur[c])
  {
    assert Ok(ViewOf(s, s.cur[c]));
    AllocCannotFail(s, s.cur[c]);
  }

  lemma BlockedMask(s: Sys, c: nat, o: nat, mask: bv32, all: bool, x: nat)
    requires Shape(s) && c < 2 && o < |s.waiting| && x != s.cur[c]
    requires Vacant in s.entries && !HasEntry(s.entries, s.cur[c])
    ensures WaitMask(Block(s, c, o, mask, all).entries, x) == WaitMask(s.entries, x)
  {
    BlockEffect(s, c, o, mask, all);
    AllocMask(s.entries, s.cur[c], mask, all, x);
  }

  /** No step that is not this object's makes a listed waiter's condition true. */
  lemma OthersKeepNone(s: Sys, step: Step, o: nat, flags: bv32)
    requires Inv(s) && CanHappen(s, step) && (step.DoBlock? || step.DoUnblock? ==> step.o != o)
    requires NoneSatisfied(s, o, flags)
    ensures NoneSatisfied(Next(s, step), o, flags)
  {
    var s' := Next(s, step);
    OtherList(s, step, o);
    forall x | x in s'.waiting[o]
      ensures !Wakes(s', x, flags)
    {
      OthersKeepMasks(s, step, o, x);
    }
  }

  lemma OtherList(s: Sys, step: Step, o: nat)
    requires Shape(s) && CanHappen(s, step) && (step.DoBlock? || step.DoUnblock? ==> step.o != o) && o < |s.waiting|
    ensures Next(s, step).waiting[o] == s.waiting[o] && |Next(s, step).waiting| == |s.waiting|
    ensures Next(s, step).isEvent == s.isEvent
  {
    if step.DoBlock? {
      BlockEffect(s, step.c, step.o, step.mask, step.all);
    }
  }

  /** Those event_flags_set leaves listed were listed before, with the same mask. */
  lemma {:induction false} SetKeepsMasks(s: Sys, o: nat, flags: bv32, i: nat, x: nat)
    requires Inv(s) && o < |s.waiting| && s.isEvent[o] && i <= |s.waiting[o]| && WaitersInRange(s)
    requires o < |WakeSatisfied(s, o, flags, i).waiting| && x in WakeSatisfied(s, o, flags, i).waiting[o]
    ensures x in s.waiting[o] && WaitMask(WakeSatisfied(s, o, flags, i).entries, x) == WaitMask(s.entries, x)
    decreases |s.waiting[o]| - i
  {
    var w := s.waiting[o];
    if i < |w| {
      if Wakes(s, w[i], flags) {
        var u := Deliver(s, o, w[i]);
        DeliverOn(s, u, o, i);
        SetKeepsMasks(u, o, flags, i, x);
        DeliveredMask(s, u, o, i, x);
      } else {
        SetKeepsMasks(s, o, flags, i + 1, x);
      }
    }
  }

  lemma DeliverOn(s: Sys, u: Sys, o: nat, i: nat)
    requires Inv(s) && o < |s.waiting| && s.isEvent[o] && i < |s.waiting[o]| && s.waiting[o][i] < MAX_THREADS
    requires u == Deliver(s, o, s.waiting[o][i])
    ensures Inv(u) && WaitersInRange(u) && Delivered(s, u, o, i) && o < |u.waiting| && u.isEvent[o] &&
            i <= |u.waiting[o]| < |s.waiting[o]|
  {
    DeliverEffect(s, o, i);
    InvInRange(u);
  }

  lemma DeliveredMask(s: Sys, u: Sys, o: nat, i: nat, x: nat)
    requires Delivered(s, u, o, i) && x in u.waiting[o]
    ensures x in s.waiting[o] && WaitMask(u.entries, x) == WaitMask(s.entries, x)
  {
    var w := s.waiting[o];
    assert x in w[..i] || x in w[i + 1..];
    MaskFrame(s.entries, w[i], x);
  }

  lemma SetKeeps(u: EventState, o: nat, step: EventStep)
    requires EventInv(u, o) && CanEvent(u, o, step) && step.SetFlags?
    ensures EventInv(EventNext(u, o, step), o)
  {
    var flags := u.flags | step.mask;
    SetFlagsKeepsInv(u.sys, o, flags, 0);
    SetFlagsFrame(u.sys, o, flags, 0);
    SetLeavesNoneSatisfied(u.sys, o, flags, 0);
    var e := WakeSatisfied(u.sys, o, flags, 0);
    forall t | t in e.waiting[o]
      ensures t in u.sys.waiting[o] && WaitMask(e.entries, t) == WaitMask(u.sys.entries, t)
    {
      SetKeepsMasks(u.sys, o, flags, 0, t);
    }
    UnsatisfiedStay(u, EventState(e, flags, u.asked), o);
  }

  lemma UnsatisfiedStay(u: EventState, u': EventState, o: nat)
    requires AllStillWait(u, o) && u'.asked == u.asked && u'.sys.isEvent == u.sys.isEvent &&
             |u'.sys.waiting| == |u.sys.waiting|
    requires forall t :: t in u'.sys.waiting[o] ==>
             t in u.sys.waiting[o] && WaitMask(u'.sys.entries, t) == WaitMask(u.sys.entries, t)
    requires NoneSatisfied(u'.sys, o, u'.flags)
    ensures AllStillWait(u', o)
  {
    forall t | t in u'.sys.waiting[o]
      ensures StillWaits(u', t)
    {
      assert StillWaits(u, t);
      assert !Wakes(u'.sys, t, u'.flags);
    }
  }

  lemma ClearKeeps(u: EventState, o: nat, step: EventStep)
    requires EventInv(u, o) && CanEvent(u, o, step) && step.ClearFlags?
    ensures EventInv(EventNext(u, o, step), o)
  {
    ClearStays(u, o, step.mask);
    assert EventNext(u, o, step).sys == u.sys;
  }

  lemma ClearStays(u: EventState, o: nat, mask: bv32)
    requires AllStillWait(u, o)
    ensures AllStillWait(u.(flags := u.flags & !mask), o)
  {
    forall t | t in u.sys.waiting[o]
      ensures StillWaits(u.(flags := u.flags & !mask), t)
    {
      assert StillWaits(u, t);
      FewerFlags(u.flags, mask, u.asked[t].0, u.asked[t].1);
    }
  }

  lemma WaitKeeps(u: EventState, o: nat, step: EventStep)
    requires EventInv(u, o) && CanEvent(u, o, step) && step.Wait?
    ensures EventInv(EventNext(u, o, step), o)
  {
    if !Satisfied(u.flags, step.mask, step.all) {
      BlockKeepsInv(u.sys, step.c, o, step.mask, step.all);
      WaitIsAsked(u, o, step.c, step.mask, step.all);
    }
  }

  lemma WaitIsAsked(u: EventState, o: nat, c: nat, mask: bv32, all: bool)
    requires EventInv(u, o) && CanEvent(u, o, Wait(c, mask, all)) && !Satisfied(u.flags, mask, all)
    ensures AllStillWait(EventNext(u, o, Wait(c, mask, all)), o)
  {
    BlockEffect(u.sys, c, o, mask, all);
    CallerHasRoom(u.sys, c, o, mask, all);
    JoinIsAsked(u, EventNext(u, o, Wait(c, mask, all)), o, u.sys.cur[c], mask, all);
  }

  lemma JoinIsAsked(u: EventState, u': EventState, o: nat, t: nat, mask: bv32, all: bool)
    requires AllStillWait(u, o) && !Satisfied(u.flags, mask, all) && Vacant in u.sys.entries &&
             !HasEntry(u.sys.entries, t)
    requires u'.sys.waiting == u.sys.waiting[o := u.sys.waiting[o] + [t]] && u'.sys.isEvent == u.sys.isEvent
    requires u'.sys.entries == AllocEntry(u.sys.entries, Held(t, mask, all))
    requires u'.flags == u.flags && u'.asked == u.asked[t := (mask, all)]
    ensures AllStillWait(u', o)
  {
    var s := u.sys;
    forall x | x in u'.sys.waiting[o]
      ensures StillWaits(u', x)
    {
      AllocMask(s.entries, t, mask, all, x);
      assert x != t ==> x in s.waiting[o] && StillWaits(u, x);
    }
  }

  lemma OtherKeeps(u: EventState, o: nat, step: EventStep)
    requires EventInv(u, o) && CanEvent(u, o, step) && step.Other?
    ensures EventInv(EventNext(u, o, step), o)
  {
    var u' := EventNext(u, o, step);
    StepKeepsInv(u.sys, step.step);
    OtherList(u.sys, step.step, o);
    forall t | t in u'.sys.waiting[o]
      ensures StillWaits(u', t)
    {
      assert StillWaits(u, t);
      OthersKeepMasks(u.sys, step.step, o, t);
    }
  }

  lemma EventStepKeeps(u: EventState, o: nat, step: EventStep)
    requires EventInv(u, o) && CanEvent(u, o, step)
    ensures EventInv(EventNext(u, o, step), o)
  {
    match step
    case SetFlags(_) => SetKeeps(u, o, step);
    case ClearFlags(_) => ClearKeeps(u, o, step);
    case Wait(_, _, _) => WaitKeeps(u, o, step);
    case Other(_) => OtherKeeps(u, o, step);
  }

  lemma {:induction false} EventRunKeeps(u: EventState, o: nat, steps: seq<EventStep>)
    requires EventInv(u, o) && EventRun(u, o, steps)
    ensures EventInv(EventEnd(u, o, steps), o)
    decreases |steps|
  {
    if steps != [] {
      EventStepKeeps(u, o, steps[0]);
      EventRunKeeps(EventNext(u, o, steps[0]), o, steps[1..]);
    }
  }

  /**
   After every run, kills included: a thread listed on the object has a slot of the pool that records
   what it asked for, and the flags do not meet it: not all of them are set, or none is.
   */
  lemma NobodyWaitsInVain(u: EventState, o: nat, steps: seq<EventStep>, e: EventState, t: nat)
    requires EventInv(u, o) && EventRun(u, o, steps) && e == EventEnd(u, o, steps)
    requires o < |e.sys.waiting| && t in e.sys.waiting[o]
    ensures t in e.asked && Held(t, e.asked[t].0, e.asked[t].1) in e.sys.entries
    ensures if e.asked[t].1 then e.flags & e.asked[t].0 != e.asked[t].0 else e.flags & e.asked[t].0 == 0
  {
    EventRunKeeps(u, o, steps);
    ListedIsUnmet(e, o, t);
  }

  lemma ListedIsUnmet(e: EventState, o: nat, t: nat)
    requires EventInv(e, o) && t in e.sys.waiting[o]
    ensures t in e.asked && Held(t, e.asked[t].0, e.asked[t].1) in e.sys.entries
    ensures if e.asked[t].1 then e.flags & e.asked[t].0 != e.asked[t].0 else e.flags & e.asked[t].0 == 0
  {
    Listed(e, o, t);
    SlotOfWaiter(e.sys, o, t);
    Unmet(e, t);
  }

  lemma Listed(e: EventState, o: nat, t: nat)
    requires AllStillWait(e, o) && t in e.sys.waiting[o]
    ensures StillWaits(e, t)
  {
  }

  lemma Unmet(e: EventState, t: nat)
    requires StillWaits(e, t)
    ensures if e.asked[t].1 then e.flags & e.asked[t].0 != e.asked[t].0 else e.flags & e.asked[t].0 == 0
  {
  }

  lemma SlotOfWaiter(s: Sys, o: nat, t: nat)
    requires Inv(s) && o < |s.waiting| && s.isEvent[o] && t in s.waiting[o]
    ensures Held(t, WaitMask(s.entries, t).0, WaitMask(s.entries, t).1) in s.entries
  {
    assert WaitsOnEvent(s, t);
    var k :| 0 <= k < |s.entries| && s.entries[k].Held? && s.entries[k].thread == t;
    MaskOfSlot(s.entries, k);
    assert s.entries[k] in s.entries;
  }
}
