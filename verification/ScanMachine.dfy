/**
 Continuous scanning of src/kernel/wifi.c over the triple buffer of src/kernel/scanbuf.c: the
 radio callback, the poll thread, consumers and control calls as one interleaving machine.

 A step is the smallest thing another thread can observe half done: event flags are set and
 cleared on their own, and the poll thread sets READY only after it has dropped g_cont_lock.
 */
module ScanMachine {
  import opened Links

  const MAX_RESULTS: nat := 16

  /** One network: its address, its signal, and whatever else a report says about it. */
  datatype Result = Result(bssid: nat, rssi: int, channel: nat, extra: nat)

  datatype ScanList = ScanList(items: seq<Result>, seqNo: nat, dropped: nat, windowMs: nat)

  datatype Buf = Buf(fill: nat, ready: nat, held: nat, news: bool, seqNo: nat, dropped: nat)

  // ---- scanbuf.c -------------------------------------------------------------------------

  const EMPTY_BUF := Buf(0, 1, 2, false, 0, 0)

  /** scanbuf_publish */
  function Publish(b: Buf): Buf {
    Buf(b.ready, b.fill, b.held, true, b.seqNo + 1, if b.news then b.dropped + 1 else b.dropped)
  }

  /** scanbuf_take on a fresh window. */
  function Take(b: Buf): Buf {
    Buf(b.fill, b.held, b.ready, false, b.seqNo, b.dropped)
  }

  /** fill, ready and held are the three lists in some order. */
  predicate Roles(b: Buf) {
    && b.fill < 3 && b.ready < 3 && b.held < 3
    && b.fill != b.ready && b.ready != b.held && b.held != b.fill
  }

  // ---- the radio callback --------------------------------------------------------------------

  /** The slot of an address, or the number of slots. */
  function SlotOf(items: seq<Result>, bssid: nat): (k: nat)
    ensures k <= |items|
    ensures k < |items| ==> items[k].bssid == bssid
    ensures forall j :: 0 <= j < k ==> items[j].bssid != bssid
  {
    if items == [] || items[0].bssid == bssid then 0 else 1 + SlotOf(items[1..], bssid)
  }

  /** scan_result_cb on the list it fills. */
  function Report(items: seq<Result>, r: Result): seq<Result> {
    var k := SlotOf(items, r.bssid);
    if k < |items| then
      if r.rssi < 0 then items[k := items[k].(rssi := r.rssi, extra := r.extra)] else items
    else if |items| >= MAX_RESULTS then items
    else items + [r]
  }

  function ReportAll(items: seq<Result>, rs: seq<Result>): seq<Result>
    decreases |rs|
  {
    if rs == [] then items else ReportAll(Report(items, rs[0]), rs[1..])
  }

  function Addresses(items: seq<Result>): seq<nat> {
    seq(|items|, k requires 0 <= k < |items| => items[k].bssid)
  }

  /** The addresses heard, each once, in the order they were first heard. */
  function FirstHeard(heard: seq<nat>, rs: seq<Result>): seq<nat>
    decreases |rs|
  {
    if rs == [] then heard
    else FirstHeard(if rs[0].bssid in heard then heard else heard + [rs[0].bssid], rs[1..])
  }

  function Upto(s: seq<nat>, n: nat): seq<nat> {
    if |s| < n then s else s[..n]
  }

  lemma ReportAddresses(items: seq<Result>, r: Result)
    ensures
      var a := Addresses(items);
      Addresses(Report(items, r)) == if r.bssid in a || |a| >= MAX_RESULTS then a else a + [r.bssid]
  {
    var k, a := SlotOf(items, r.bssid), Addresses(items);
    if k < |items| {
      assert a[k] == r.bssid;
    }
    assert r.bssid in a ==> exists j :: 0 <= j < |a| && a[j] == r.bssid;
  }

  lemma {:induction false} FirstHeardDistinct(heard: seq<nat>, rs: seq<Result>)
    requires NoDup(heard)
    ensures NoDup(FirstHeard(heard, rs))
    decreases |rs|
  {
    if rs != [] {
      var x := rs[0].bssid;
      if x !in heard {
        var next := heard + [x];
        assert forall i :: 0 <= i < |heard| ==> heard[i] in heard;
        assert NoDup(next);
        FirstHeardDistinct(next, rs[1..]);
        assert FirstHeard(heard, rs) == FirstHeard(next, rs[1..]);
      } else {
        FirstHeardDistinct(heard, rs[1..]);
      }
    }
  }

  lemma {:induction false} ReportsFollow(items: seq<Result>, rs: seq<Result>, heard: seq<nat>)
    requires Addresses(items) == Upto(heard, MAX_RESULTS)
    ensures Addresses(ReportAll(items, rs)) == Upto(FirstHeard(heard, rs), MAX_RESULTS)
    decreases |rs|
  {
    if rs != [] {
      var r := rs[0];
      var next := if r.bssid in heard then heard else heard + [r.bssid];
      ReportAddresses(items, r);
      if r.bssid in heard && r.bssid !in Addresses(items) {
        assert |heard| >= MAX_RESULTS;
      }
      ReportsFollow(Report(items, r), rs[1..], next);
    }
  }

  /**
   Whatever the radio reports, in whatever order and however often: from an empty list on, the
   list holds each address once, in the order first heard, up to its capacity.
   */
  lemma ListHoldsFirstHeard(rs: seq<Result>)
    ensures
      var a := Addresses(ReportAll([], rs));
      && a == Upto(FirstHeard([], rs), 16) && NoDup(a)
      && (forall x: nat :: x in FirstHeard([], rs) <==> exists i :: 0 <= i < |rs| && rs[i].bssid == x)
  {
    ReportsFollow([], rs, []);
    FirstHeardDistinct([], rs);
    forall x: nat
      ensures x in FirstHeard([], rs) <==> exists i :: 0 <= i < |rs| && rs[i].bssid == x
    {
      FirstHeardIs([], rs, x);
    }
  }

  lemma {:induction false} FirstHeardIs(heard: seq<nat>, rs: seq<Result>, x: nat)
    ensures x in FirstHeard(heard, rs) <==> x in heard || exists i :: 0 <= i < |rs| && rs[i].bssid == x
    decreases |rs|
  {
    if rs != [] {
      FirstHeardIs(if rs[0].bssid in heard then heard else heard + [rs[0].bssid], rs[1..], x);
      assert (exists i :: 0 <= i < |rs| && rs[i].bssid == x) <==>
             rs[0].bssid == x || exists i :: 0 <= i < |rs[1..]| && rs[1..][i].bssid == x by {
        if i :| 0 <= i < |rs| && rs[i].bssid == x && i > 0 {
          assert rs[1..][i - 1].bssid == x;
        }
        if i :| 0 <= i < |rs[1..]| && rs[1..][i].bssid == x {
          assert rs[i + 1].bssid == x;
        }
      }
    }
  }

  /** The first report of an address is rs[f]. */
  ghost predicate FirstAt(rs: seq<Result>, bssid: nat, f: nat) {
    f < |rs| && rs[f].bssid == bssid && forall j :: 0 <= j < f ==> rs[j].bssid != bssid
  }

  /** Its last one with a reading, or the first one when none has, is rs[l]. */
  ghost predicate LatestAt(rs: seq<Result>, bssid: nat, f: nat, l: nat) {
    && f <= l < |rs| && rs[l].bssid == bssid && (l == f || rs[l].rssi < 0)
    && forall j :: l < j < |rs| && rs[j].bssid == bssid ==> rs[j].rssi >= 0
  }

  /** Channel from the first report, signal and the rest from the latest. */
  ghost predicate Shown(x: Result, rs: seq<Result>) {
    exists f: nat, l: nat :: FirstAt(rs, x.bssid, f) && LatestAt(rs, x.bssid, f, l)
                             && x.channel == rs[f].channel && x.rssi == rs[l].rssi && x.extra == rs[l].extra
  }

  ghost predicate HasEntry(items: seq<Result>, bssid: nat) {
    exists k :: 0 <= k < |items| && items[k].bssid == bssid
  }

  ghost predicate Apart(items: seq<Result>) {
    forall i, j :: 0 <= i < j < |items| ==> items[i].bssid != items[j].bssid
  }

  /** Every entry shows what was reported, and while there is room everything reported has an entry. */
  ghost predicate Tracks(items: seq<Result>, rs: seq<Result>) {
    && Apart(items)
    && (forall k :: 0 <= k < |items| ==> Shown(items[k], rs))
    && (|items| < MAX_RESULTS ==> forall j :: 0 <= j < |rs| ==> HasEntry(items, rs[j].bssid))
  }

  lemma ShownStays(x: Result, rs: seq<Result>, r: Result)
    requires Shown(x, rs) && (r.bssid != x.bssid || r.rssi >= 0)
    ensures Shown(x, rs + [r])
  {
    var f: nat, l: nat :| FirstAt(rs, x.bssid, f) && LatestAt(rs, x.bssid, f, l)
                          && x.channel == rs[f].channel && x.rssi == rs[l].rssi && x.extra == rs[l].extra;
    assert FirstAt(rs + [r], x.bssid, f) && LatestAt(rs + [r], x.bssid, f, l);
  }

  lemma ShownAnew(x: Result, rs: seq<Result>, r: Result)
    requires Shown(x, rs) && r.bssid == x.bssid && r.rssi < 0
    ensures Shown(x.(rssi := r.rssi, extra := r.extra), rs + [r])
  {
    var f: nat :| FirstAt(rs, x.bssid, f) && x.channel == rs[f].channel;
    assert FirstAt(rs + [r], x.bssid, f) && LatestAt(rs + [r], x.bssid, f, |rs|);
  }

  lemma KeepsEntries(items: seq<Result>, r: Result, bssid: nat)
    ensures HasEntry(items, bssid) ==> HasEntry(Report(items, r), bssid)
    ensures |Report(items, r)| < MAX_RESULTS ==> HasEntry(Report(items, r), r.bssid)
  {
    var after, k := Report(items, r), SlotOf(items, r.bssid);
    if i :| 0 <= i < |items| && items[i].bssid == bssid {
      assert after[i].bssid == bssid;
    }
    if |after| < MAX_RESULTS {
      assert after[k].bssid == r.bssid;
    }
  }

  lemma ReportShows(items: seq<Result>, rs: seq<Result>, r: Result, i: nat)
    requires Tracks(items, rs) && i < |Report(items, r)|
    ensures Shown(Report(items, r)[i], rs + [r])
  {
    var more, k := rs + [r], SlotOf(items, r.bssid);
    if i == |items| {
      forall j | 0 <= j < |rs|
        ensures rs[j].bssid != r.bssid
      {
        assert HasEntry(items, rs[j].bssid);
      }
      assert FirstAt(more, r.bssid, |rs|) && LatestAt(more, r.bssid, |rs|, |rs|);
    } else if i == k && r.rssi < 0 {
      ShownAnew(items[i], rs, r);
    } else {
      ShownStays(items[i], rs, r);
    }
  }

  lemma ReportApart(items: seq<Result>, r: Result)
    requires Apart(items)
    ensures Apart(Report(items, r))
  {
  }

  lemma ReportTracks(items: seq<Result>, rs: seq<Result>, r: Result)
    requires Tracks(items, rs)
    ensures Tracks(Report(items, r), rs + [r])
  {
    var after, more := Report(items, r), rs + [r];
    ReportApart(items, r);
    forall i | 0 <= i < |after|
      ensures Shown(after[i], more)
    {
      ReportShows(items, rs, r, i);
    }
    if |after| < MAX_RESULTS {
      forall j | 0 <= j < |more|
        ensures HasEntry(after, more[j].bssid)
      {
        KeepsEntries(items, r, more[j].bssid);
      }
    }
  }

  lemma {:induction false} ReportsTrack(items: seq<Result>, before: seq<Result>, rs: seq<Result>, all: seq<Result>)
    requires Tracks(items, before) && all == before + rs
    ensures Tracks(ReportAll(items, rs), all)
    decreases |rs|
  {
    if rs == [] {
      assert all == before;
    } else {
      var next, done := Report(items, rs[0]), before + [rs[0]];
      assert Tracks(next, done) by {
        ReportTracks(items, before, rs[0]);
      }
      assert all == done + rs[1..];
      ReportsTrack(next, done, rs[1..], all);
    }
  }

  /**
   And every entry is current: its signal is that of the latest report of its address that had a
   reading, its channel that of the first.
   */
  lemma ListShowsLatest(rs: seq<Result>, k: nat)
    requires k < |ReportAll([], rs)|
    ensures Shown(ReportAll([], rs)[k], rs)
  {
    ReportsTrack([], [], rs, rs);
  }

  // ---- the machine --------------------------------------------------------------------------------

  /** Who is inside g_cont_lock, and how far. */
  datatype Holder =
    | Free
    | Waiting(cleared: bool, done: bool)   // wifi_scan_wait: READY cleared, buffer looked at
    | Polling(published: bool)             // cont_poll
    | Starting(stage: nat)                 // wifi_scan_start: 1 lists reset, 2 g_cont set
    | Stopping                             // wifi_scan_stop

  datatype Window = Window(seqNo: nat, dropped: nat)

  datatype Machine = Machine(
    lists: seq<ScanList>,
    sb: Buf,
    cont: bool,             // g_cont
    passCont: bool,         // g_pass_cont
    flagReady: bool,        // CONT_EV_READY
    flagStop: bool,         // CONT_EV_STOP
    holder: Holder,
    stopDue: bool,          // cont_stop_locked has cleared g_cont and is about to set STOP
    clearDue: bool,         // wifi_scan_start has set g_cont and is about to clear the flags
    pending: bool,          // cont_poll has published and is about to set READY
    taken: seq<Window>)     // the windows taken in this session

  datatype ScanStep =
    | Lock(h: Holder)
    | ClearReady
    | TryTake
    | StopCont
    | SetStop
    | InitSession
    | SetCont
    | ClearBoth
    | PublishWindow(ms: nat)
    | RestartPass
    | Unlock
    | SetReady
    | Hear(r: Result)       // the callback, at any time
    | OneShot               // wifi_scan takes the radio over

  ghost predicate CanStep(m: Machine, step: ScanStep) {
    match step
    case Lock(h) =>
      m.holder == Free && h in {Waiting(false, false), Polling(false), Starting(0), Stopping} &&
          (h == Polling(false) ==> !m.pending)
    case ClearReady => m.holder == Waiting(false, false)
    case TryTake => m.holder == Waiting(true, false)
    case StopCont => m.holder in {Polling(false), Starting(0), Starting(2), Stopping} && !m.stopDue && !m.clearDue
    case SetStop => m.stopDue
    case InitSession => m.holder == Starting(0) && !m.cont && !m.stopDue
    case SetCont => m.holder == Starting(1)
    case ClearBoth => m.clearDue
    case PublishWindow(_) => m.holder == Polling(false) && m.cont && !m.stopDue
    case RestartPass => m.holder.Polling? && m.cont
    case Unlock => m.holder != Free && !m.stopDue && !m.clearDue && (m.holder.Waiting? ==> m.holder.done)
    case SetReady => m.pending
    case Hear(_) => true
    case OneShot => !m.cont && m.holder != Starting(1)
  }

  /** The end of a window: publish, stamp the published list, empty the new fill list. */
  function EndWindow(m: Machine, ms: nat): Machine
    requires |m.lists| == 3 && Roles(m.sb)
  {
    var sb := Publish(m.sb);
    var full := m.lists[m.sb.fill].(windowMs := ms, seqNo := sb.seqNo, dropped := sb.dropped);
    m.(sb := sb, lists := m.lists[sb.ready := full][sb.fill := m.lists[sb.fill].(items := [])])
  }

  function Next(m: Machine, step: ScanStep): Machine
    requires |m.lists| == 3 && (m.cont || m.passCont ==> Roles(m.sb)) && CanStep(m, step)
  {
    match step
    case Lock(h) => m.(holder := h)
    case ClearReady => m.(flagReady := false, holder := Waiting(true, false))
    case TryTake =>
      var n := m.(holder := Waiting(true, true));
      if m.cont && m.sb.news then
        var l := m.lists[m.sb.ready];
        n.(sb := Take(m.sb), taken := m.taken + [Window(l.seqNo, l.dropped)])
      else n
    case StopCont => m.(cont := false, stopDue := true)
    case SetStop => m.(flagStop := true, stopDue := false)
    case InitSession =>
      m.(sb := EMPTY_BUF, lists := seq(3, k requires 0 <= k < 3 => m.lists[k].(items := [])), passCont := true,
         taken := [], holder := Starting(1))
    case SetCont => m.(cont := true, clearDue := true, holder := Starting(2))
    case ClearBoth => m.(flagReady := false, flagStop := false, clearDue := false)
    case PublishWindow(ms) => EndWindow(m, ms).(holder := Polling(true))
    case RestartPass => m.(passCont := true)
    case Unlock => m.(holder := Free, pending := m.pending || m.holder == Polling(true))
    case SetReady => m.(flagReady := true, pending := false)
    case Hear(r) =>
      if m.passCont then
        var l := m.lists[m.sb.fill];
        m.(lists := m.lists[m.sb.fill := l.(items := Report(l.items, r))])
      else m
    case OneShot => m.(passCont := false)
  }

  /** After wifi_init: not running, STOP set. */
  function Boot(): Machine {
    Machine(seq(3, _ => ScanList([], 0, 0, 0)), Buf(0, 0, 0, false, 0, 0), false, false, false, true, Free, false,
        false, false, [])
  }

  // ---- the invariant ------------------------------------------------------------------------------------

  /** A fresh window is news that somebody is about to hear of. */
  ghost predicate NewsTravels(m: Machine) {
    m.cont && m.sb.news ==>
      m.flagReady || m.pending || m.holder == Polling(true) || m.holder == Waiting(true, false)
  }

  /** STOP mirrors g_cont except between the two halves of a start or a stop. */
  ghost predicate StopMirrors(m: Machine) {
    && (!m.stopDue && !m.clearDue ==> (m.flagStop <==> !m.cont))
    && (m.stopDue ==> !m.cont && !m.clearDue && m.holder != Free && !m.holder.Waiting?)
    && (m.clearDue ==> m.cont && !m.sb.news && m.holder == Starting(2))
  }

  /** The k-th window taken is the (k + dropped)-th published. */
  ghost predicate Accounted(m: Machine) {
    && |m.lists| == 3 && Roles(m.sb)
    && m.sb.seqNo == |m.taken| + m.sb.dropped + (if m.sb.news then 1 else 0)
    && (forall k :: 0 <= k < |m.taken| ==>
        m.taken[k].seqNo == k + 1 + m.taken[k].dropped && m.taken[k].dropped <= m.sb.dropped)
    && (forall j, k :: 0 <= j < k < |m.taken| ==> m.taken[j].dropped <= m.taken[k].dropped)
    && (m.sb.news ==> m.lists[m.sb.ready].seqNo == m.sb.seqNo && m.lists[m.sb.ready].dropped == m.sb.dropped)
  }

  ghost predicate MachineInv(m: Machine) {
    && |m.lists| == 3
    && (m.cont || m.passCont || m.holder == Starting(1) ==> Accounted(m))
    && (m.holder == Starting(1) ==> !m.sb.news && !m.cont && !m.stopDue)
    && NewsTravels(m) && StopMirrors(m)
  }

  lemma BootIsSound()
    ensures MachineInv(Boot())
  {
  }

  /** Publishing and taking move the roles and keep the books. */
  lemma EndWindowAccounts(m: Machine, ms: nat)
    requires Accounted(m)
    ensures Accounted(EndWindow(m, ms)) && EndWindow(m, ms).sb.news
  {
  }

  /** What was being filled becomes the ready window, stamped; the new fill list starts empty. */
  lemma EndWindowHandsOver(m: Machine, ms: nat)
    requires Accounted(m)
    ensures
      var e := EndWindow(m, ms);
      && e.lists[e.sb.ready].items == m.lists[m.sb.fill].items && e.lists[e.sb.ready].windowMs == ms
      && e.lists[e.sb.fill].items == [] && e.sb.held == m.sb.held && e.lists[e.sb.held] == m.lists[m.sb.held]
      && (e.sb.dropped > m.sb.dropped <==> m.sb.news)
  {
  }

  lemma TakeAccounts(m: Machine)
    requires Accounted(m) && m.sb.news
    ensures
      var l := m.lists[m.sb.ready];
      Accounted(m.(sb := Take(m.sb), taken := m.taken + [Window(l.seqNo, l.dropped)]))
  {
  }

  lemma StepKeepsInv(m: Machine, step: ScanStep)
    requires MachineInv(m) && CanStep(m, step)
    ensures MachineInv(Next(m, step))
  {
    match step
    case PublishWindow(ms) => EndWindowAccounts(m, ms);
    case TryTake => if m.cont && m.sb.news { TakeAccounts(m); }
    case Hear(r) => HearKeepsInv(m, r);
    case InitSession => InitKeepsInv(m);
    case _ => ControlKeepsInv(m, step);
  }

  lemma HearKeepsInv(m: Machine, r: Result)
    requires MachineInv(m)
    ensures MachineInv(Next(m, Hear(r)))
  {
  }

  lemma InitKeepsInv(m: Machine)
    requires MachineInv(m) && CanStep(m, InitSession)
    ensures MachineInv(Next(m, InitSession))
  {
  }

  /** The steps on flags, lock and radio. */
  lemma ControlKeepsInv(m: Machine, step: ScanStep)
    requires MachineInv(m) && CanStep(m, step)
    requires !step.PublishWindow? && !step.TryTake? && !step.Hear? && !step.InitSession?
    ensures MachineInv(Next(m, step))
  {
  }

  ghost predicate MachineRun(m: Machine, steps: seq<ScanStep>)
    decreases |steps|
  {
    steps != [] ==>
      && |m.lists| == 3 && (m.cont || m.passCont ==> Roles(m.sb)) && CanStep(m, steps[0])
      && MachineRun(Next(m, steps[0]), steps[1..])
  }

  ghost function MachineEnd(m: Machine, steps: seq<ScanStep>): Machine
    requires MachineRun(m, steps)
    decreases |steps|
  {
    if steps == [] then m else MachineEnd(Next(m, steps[0]), steps[1..])
  }

  lemma {:induction false} RunKeepsInv(m: Machine, steps: seq<ScanStep>)
    requires MachineInv(m) && MachineRun(m, steps)
    ensures MachineInv(MachineEnd(m, steps))
    decreases |steps|
  {
    if steps != [] {
      StepKeepsInv(m, steps[0]);
      RunKeepsInv(Next(m, steps[0]), steps[1..]);
    }
  }

  lemma {:induction false} RunAppend(m: Machine, steps: seq<ScanStep>, step: ScanStep)
    requires MachineRun(m, steps)
    requires var e := MachineEnd(m, steps); |e.lists| == 3 && (e.cont || e.passCont ==> Roles(e.sb)) && CanStep(e, step)
    ensures MachineRun(m, steps + [step]) && MachineEnd(m, steps + [step]) == Next(MachineEnd(m, steps), step)
    decreases |steps|
  {
    var longer := steps + [step];
    if steps != [] {
      assert longer[1..] == steps[1..] + [step];
      RunAppend(Next(m, steps[0]), steps[1..], step);
    } else {
      assert longer[1..] == [];
    }
  }

  // ---- what a window holds -----------------------------------------------------------------------

  /** The reports heard since the fill list was last started on, after one step. */
  function HeardBy(m: Machine, step: ScanStep, heard: seq<Result>): seq<Result> {
    if step.PublishWindow? || step.InitSession? then []
    else if step.Hear? && m.passCont then heard + [step.r]
    else heard
  }

  ghost function Heard(m: Machine, steps: seq<ScanStep>, heard: seq<Result>): seq<Result>
    requires MachineRun(m, steps)
    decreases |steps|
  {
    if steps == [] then heard else Heard(Next(m, steps[0]), steps[1..], HeardBy(m, steps[0], heard))
  }

  ghost predicate Fills(m: Machine, heard: seq<Result>) {
    |m.lists| == 3 && m.sb.fill < 3 && m.lists[m.sb.fill].items == ReportAll([], heard)
  }

  lemma {:induction false} ReportOneMore(items: seq<Result>, rs: seq<Result>, r: Result)
    ensures ReportAll(items, rs + [r]) == Report(ReportAll(items, rs), r)
    decreases |rs|
  {
    var longer := rs + [r];
    if rs != [] {
      assert longer[1..] == rs[1..] + [r];
      ReportOneMore(Report(items, rs[0]), rs[1..], r);
    } else {
      assert longer[1..] == [];
    }
  }

  lemma StepFills(m: Machine, step: ScanStep, heard: seq<Result>)
    requires MachineInv(m) && CanStep(m, step) && Fills(m, heard)
    ensures Fills(Next(m, step), HeardBy(m, step, heard))
  {
    match step
    case Hear(r) => ReportOneMore([], heard, r);
    case PublishWindow(ms) => EndWindowHandsOver(m, ms);
    case _ =>
  }

  lemma {:induction false} RunFills(m: Machine, steps: seq<ScanStep>, heard: seq<Result>)
    requires MachineInv(m) && Fills(m, heard) && MachineRun(m, steps)
    ensures Fills(MachineEnd(m, steps), Heard(m, steps, heard))
    decreases |steps|
  {
    if steps != [] {
      StepFills(m, steps[0], heard);
      StepKeepsInv(m, steps[0]);
      RunFills(Next(m, steps[0]), steps[1..], HeardBy(m, steps[0], heard));
    }
  }

  /**
   Whatever the interleaving, a window published holds exactly what was heard since the one before:
   every address once, the first sixteen, and each as it was reported last.
   */
  lemma WindowShowsWhatWasHeard(steps: seq<ScanStep>, ms: nat, k: nat)
    requires MachineRun(Boot(), steps) && CanStep(MachineEnd(Boot(), steps), PublishWindow(ms))
    ensures
      var (e, heard) := (MachineEnd(Boot(), steps), Heard(Boot(), steps, []));
      && |e.lists| == 3 && Roles(e.sb)
      && var (n, was) := (Next(e, PublishWindow(ms)), e.sb.fill);
      && n.sb.ready == was && n.lists[was].windowMs == ms
      && Addresses(n.lists[was].items) == Upto(FirstHeard([], heard), 16)
      && (k < |n.lists[was].items| ==> Shown(n.lists[was].items[k], heard))
  {
    var (e, heard) := (MachineEnd(Boot(), steps), Heard(Boot(), steps, []));
    BootIsSound();
    RunKeepsInv(Boot(), steps);
    RunFills(Boot(), steps, []);
    EndWindowHandsOver(e, ms);
    ListHoldsFirstHeard(heard);
    if k < |ReportAll([], heard)| {
      ListShowsLatest(heard, k);
    }
  }

  // ---- the promises ----------------------------------------------------------------------------------------

  /** A consumer in event_flags_wait is asleep exactly while neither flag is set. */
  predicate Asleep(m: Machine) {
    !m.flagReady && !m.flagStop
  }

  /**
   Whatever the interleaving: whenever g_cont_lock is free, STOP is set exactly when scanning
   is off, and a fresh window while scanning is on means READY is set or about to be.  So a
   consumer sleeps on only while there is nothing to tell it, or for that one moment.
   */
  lemma NeverAsleepOnNews(steps: seq<ScanStep>)
    requires MachineRun(Boot(), steps)
    ensures
      var e := MachineEnd(Boot(), steps);
      e.holder == Free ==>
        && (e.flagStop <==> !e.cont)
        && (e.cont && e.sb.news ==> e.flagReady || e.pending)
        && (Asleep(e) && !e.pending ==> e.cont && !e.sb.news)
  {
    BootIsSound();
    RunKeepsInv(Boot(), steps);
  }

  /**
   Within a session the k-th window taken is number k + dropped, the numbers rise strictly,
   and no window goes missing uncounted.
   */
  lemma WindowsAreNumbered(steps: seq<ScanStep>, j: nat, k: nat)
    requires MachineRun(Boot(), steps)
    ensures
      var e := MachineEnd(Boot(), steps);
      e.cont ==>
        && Roles(e.sb)
        && e.sb.seqNo == |e.taken| + e.sb.dropped + (if e.sb.news then 1 else 0)
        && (k < |e.taken| ==> e.taken[k].seqNo == k + 1 + e.taken[k].dropped)
        && (j < k < |e.taken| ==> e.taken[j].seqNo < e.taken[k].seqNo)
  {
    BootIsSound();
    RunKeepsInv(Boot(), steps);
  }

  /** Between two takes of a session nothing writes the list the consumer holds. */
  lemma HeldListUntouched(m: Machine, step: ScanStep)
    requires MachineInv(m) && CanStep(m, step) && (m.cont || m.passCont) && step != TryTake && step != InitSession
    ensures Next(m, step).sb.held == m.sb.held && Next(m, step).lists[m.sb.held] == m.lists[m.sb.held]
  {
    match step
    case PublishWindow(ms) => EndWindowHandsOver(m, ms);
    case _ =>
  }

  /** A take hands over exactly the window published last, as it was published. */
  lemma ReadyListUntouched(m: Machine, step: ScanStep)
    requires MachineInv(m) && CanStep(m, step) && (m.cont || m.passCont) && m.sb.news
    requires step != TryTake && step != InitSession && !step.PublishWindow?
    ensures Next(m, step).sb.ready == m.sb.ready && Next(m, step).lists[m.sb.ready] == m.lists[m.sb.ready]
  {
  }
}
