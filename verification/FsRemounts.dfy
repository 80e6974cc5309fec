/**
 What a remount in the middle of a write finds.

 superblock_flush saves every file's size as it stands in RAM.  While a file is being written its
 size in RAM runs ahead of its sector, and any call that flushes on behalf of another file puts
 that size on flash.
 */
module FsRemounts {
  import opened Bytes
  import opened FsSpec
  import opened FsProps
  import opened FsSteps
  import opened FsRuns

  /** The directory entry on flash differs from the one in RAM in its size only. */
  predicate SameButSize(saved: Entry, e: Entry) {
    saved.(size := e.size) == e && saved.size <= BLOCK_SIZE && (!e.used ==> saved == e)
  }

  /** The directory on flash is the one in RAM, but for sizes. */
  ghost predicate SavedNames(s: State)
    requires Shape(s)
  {
    && Mountable(s.flash[0]) && Value(s.flash[0][8..12]) == s.count
    && forall j :: 0 <= j < |s.files| ==> SameButSize(DecodeFiles(s.flash[0][12..], |s.files|)[j], s.files[j])
  }

  lemma SavedIsSavedNames(s: State)
    requires Shape(s) && FilesOk(s.files) && Saved(s)
    ensures SavedNames(s)
  {
    forall j | 0 <= j < |s.files|
      ensures SameButSize(s.files[j], s.files[j])
    {
      assert EntryOk(s.files[j], j);
    }
  }

  /** A flush on the way makes flash agree with RAM. */
  lemma FlushSavesNames(s: State)
    requires Sound(s)
    ensures Sound(Flush(s)) && SavedNames(Flush(s))
  {
    FlushKeeps(s);
    FlushSaves(s);
    SavedIsSavedNames(Flush(s));
  }

  lemma OpenFileKeepsNames(s: State, n: seq<Byte>, mode: bv32)
    requires Sound(s) && SavedNames(s) && 0 !in n
    ensures Sound(OpenFile(s, n, mode).state) && SavedNames(OpenFile(s, n, mode).state)
  {
    OpenFileKeeps(s, n, mode);
    var r := OpenFile(s, n, mode);
    if r.state != s {
      CreateKeeps(s, n, r.code);
      FlushSavesNames(Created(s, n, r.code));
    }
  }

  lemma OpenOnKeepsSaved(s: State, i: nat, mode: bv32)
    requires Sound(s) && SavedNames(s) && i < |s.files| && s.files[i].used
    ensures SavedNames(OpenOn(s, i, mode).state)
  {
    OpenOnKeeps(s, i, mode);
    SizesChange(s, OpenOn(s, i, mode).state);
  }

  lemma OpenKeepsNames(s: State, n: seq<Byte>, mode: bv32)
    requires Sound(s) && SavedNames(s) && 0 !in n
    ensures SavedNames(Open(s, n, mode).state)
  {
    OpenFileKeepsNames(s, n, mode);
    var r := OpenFile(s, n, mode);
    if r.code >= 0 {
      OpenOnKeepsSaved(r.state, r.code, mode);
    }
  }

  /** Changing sizes in RAM only. */
  lemma SizesChange(s: State, s': State)
    requires Sound(s) && SavedNames(s) && Sound(s') && s'.flash[0] == s.flash[0] && s'.count == s.count &&
             |s'.files| == |s.files|
    requires forall j :: 0 <= j < |s.files| ==> s'.files[j] == s.files[j].(size := s'.files[j].size)
    ensures SavedNames(s')
  {
    forall j | 0 <= j < |s.files|
      ensures SameButSize(DecodeFiles(s.flash[0][12..], |s.files|)[j], s'.files[j])
    {
      assert SameButSize(DecodeFiles(s.flash[0][12..], |s.files|)[j], s.files[j]);
      assert EntryOk(s.files[j], j) && EntryOk(s'.files[j], j);
    }
  }

  lemma CloseKeepsNames(s: State, fd: nat)
    requires Sound(s) && SavedNames(s) && IsOpen(s, fd)
    ensures SavedNames(Close(s, fd))
  {
    CloseKeepsSound(s, fd);
    if s.fds[fd].dirty {
      CloseSaves(s, fd);
      SavedIsSavedNames(Close(s, fd));
    } else {
      SizesChange(s, Close(s, fd));
    }
  }

  lemma WriteKeepsNames(s: State, fd: int, data: seq<Byte>)
    requires Sound(s) && SavedNames(s) && Sound(Step(s, DoWrite(fd, data)))
    ensures SavedNames(Step(s, DoWrite(fd, data)))
  {
    SizesChange(s, Step(s, DoWrite(fd, data)));
  }

  lemma DeleteKeepsNames(s: State, n: seq<Byte>)
    requires Sound(s) && Find(s.files, n) < |s.files|
    ensures SavedNames(Delete(s, n))
  {
    RemoveKeeps(s, Find(s.files, n));
    FlushSavesNames(Removed(s, Find(s.files, n)));
  }

  lemma FormatSavesNames(s: State)
    requires Shape(s)
    ensures Sound(Format(s)) && SavedNames(Format(s))
  {
    FormatKeepsSound(s);
    FlushSaves(Wiped(s));
    SavedIsSavedNames(Format(s));
  }

  /** Every call keeps the directory on flash up to date, but for sizes. */
  lemma StepKeepsNames(s: State, op: Op)
    requires Sound(s) && SavedNames(s) && IsCall(op)
    ensures SavedNames(Step(s, op))
  {
    StepKeepsSound(s, op);
    match op
    case DoOpen(name, mode) => OpenKeepsNames(s, Strip(name), mode);
    case DoRead(fd, n) => SizesChange(s, Step(s, op));
    case DoWrite(fd, data) => WriteKeepsNames(s, fd, data);
    case DoClose(fd) =>
      if IsOpen(s, fd) {
        CloseKeepsNames(s, fd);
      }
    case DoDelete(name) =>
      if Find(s.files, Strip(name)) < |s.files| {
        DeleteKeepsNames(s, Strip(name));
      }
    case DoFormat => FormatSavesNames(s);
  }

  /** After any sequence of calls on a formatted filesystem. */
  lemma {:induction false} RunKeepsNames(s: State, ops: seq<Op>)
    requires Sound(s) && SavedNames(s) && AllCalls(ops)
    ensures SavedNames(After(s, ops))
    decreases |ops|
  {
    if ops != [] {
      StepKeepsSound(s, ops[0]);
      StepKeepsNames(s, ops[0]);
      RunKeepsNames(Step(s, ops[0]), ops[1..]);
    }
  }

  // ---- what a remount reads ----------------------------------------------------------------------

  /** The size a remount gives file i. */
  function SavedSize(s: State, i: nat): nat
    requires Shape(s) && i < |s.files|
  {
    DecodeFiles(s.flash[0][12..], |s.files|)[i].size
  }

  /** What name m holds after a remount. */
  ghost function Remount(s: State, m: seq<Byte>): Lookup
    requires Shape(s)
  {
    if Shape(Init(s)) && FilesOk(Init(s).files) then View(Init(s), m) else Missing
  }

  /** A remount finds a file under its name, with its sector cut at the saved size. */
  lemma RemountReads(s: State, m: seq<Byte>, i: nat)
    requires Sound(s) && SavedNames(s) && i < |s.files| && Find(s.files, m) == i
    ensures Shape(Init(s)) && FilesOk(Init(s).files) && SavedSize(s, i) <= BLOCK_SIZE
    ensures Remount(s, m) == Found(s.flash[1 + i][..SavedSize(s, i)])
  {
    var r := Init(s);
    forall j | 0 <= j < |s.files|
      ensures EntryOk(r.files[j], j) && Encodable(r.files[j]) && r.files[j].used == s.files[j].used &&
              r.files[j].name == s.files[j].name
    {
      assert SameButSize(r.files[j], s.files[j]) && EntryOk(s.files[j], j);
    }
    FindIs(r.files, m, i);
  }

  /** The call flushes the superblock without touching the writer's file: it creates or deletes another one. */
  ghost predicate FlushesForAnother(s: State, op: Op, m: seq<Byte>)
    requires Shape(s)
  {
    match op
    case DoOpen(name, mode) =>
      && Find(s.files, Strip(name)) == |s.files| && Creating(mode) && FirstUnused(s.files) < |s.files|
      && Stored(Strip(name)) != m
    case DoDelete(name) => Find(s.files, Strip(name)) < |s.files| && Strip(name) != m
    case _ => false
  }

  lemma FlushedStep(s: State, op: Op, m: seq<Byte>)
    requires Sound(s) && IsCall(op) && s.owner != -1 && Find(s.files, m) == s.owner && FlushesForAnother(s, op, m)
    ensures
      var r := Step(s, op);
      && Sound(r) && Saved(r) && |r.files| == |s.files| && Find(r.files, m) == s.owner
      && r.files[s.owner].size == s.files[s.owner].size && r.flash[1 + s.owner] == s.flash[1 + s.owner]
  {
    StepKeepsSound(s, op);
    if op.DoOpen? {
      CreateFlushes(s, Strip(op.name), op.mode, m);
    } else {
      DeleteFlushes(s, Strip(op.name), m);
    }
  }

  lemma CreateFlushes(s: State, n: seq<Byte>, mode: bv32, m: seq<Byte>)
    requires Sound(s) && 0 !in n && s.owner != -1 && Find(s.files, m) == s.owner
    requires Find(s.files, n) == |s.files| && Creating(mode) && FirstUnused(s.files) < |s.files| && Stored(n) != m
    ensures
      var r := Open(s, n, mode).state;
      && Saved(r) && Find(r.files, m) == s.owner
      && r.files[s.owner] == s.files[s.owner] && r.flash[1 + s.owner] == s.flash[1 + s.owner]
  {
    var j := FirstUnused(s.files);
    var c := Created(s, n, j);
    FlushSaves(c);
    FindFrame(s.files, j, c.files[j], m);
    OpenOnBusy(Flush(c), j, mode);
  }

  /** While there is a writer, the rest of fs_open touches nothing but the descriptor table. */
  lemma OpenOnBusy(s: State, i: nat, mode: bv32)
    requires Shape(s) && i < |s.files| && s.owner != -1
    ensures OpenOn(s, i, mode).state == s.(fds := OpenOn(s, i, mode).state.fds)
  {
  }

  lemma DeleteFlushes(s: State, n: seq<Byte>, m: seq<Byte>)
    requires Sound(s) && s.owner != -1 && Find(s.files, m) == s.owner && Find(s.files, n) < |s.files| && n != m
    ensures
      var r := Delete(s, n);
      && Saved(r) && Find(r.files, m) == s.owner
      && r.files[s.owner] == s.files[s.owner] && r.flash[1 + s.owner] == s.flash[1 + s.owner]
  {
    var i := Find(s.files, n);
    FlushSaves(Removed(s, i));
    FindFrame(s.files, i, FREE_ENTRY, m);
  }

  /**
   A remount right after another file is created or deleted reads under the open writer's name what
   a remount right before would have read, its last committed bytes, exactly when the writer's size
   in RAM is the size saved before.
   */
  lemma FlushShowsSizeIff(s: State, op: Op, m: seq<Byte>)
    requires Sound(s) && SavedNames(s) && IsCall(op) && s.owner != -1 && Find(s.files, m) == s.owner &&
             FlushesForAnother(s, op, m)
    ensures s.files[s.owner].size <= BLOCK_SIZE && Shape(Step(s, op))
    ensures Remount(Step(s, op), m) == Found(s.flash[1 + s.owner][..s.files[s.owner].size])
    ensures Remount(Step(s, op), m) == Remount(s, m) <==> s.files[s.owner].size == SavedSize(s, s.owner)
  {
    var r := Step(s, op);
    OwnerIsUsed(s);
    assert EntryOk(s.files[s.owner], s.owner);
    FlushedStep(s, op, m);
    SavedIsSavedNames(r);
    RemountReads(s, m, s.owner);
    RemountReads(r, m, s.owner);
    CutsDiffer(s.flash[1 + s.owner], s.files[s.owner].size, SavedSize(s, s.owner));
  }

  lemma CutsDiffer(sector: Sector, a: nat, b: nat)
    requires a <= BLOCK_SIZE && b <= BLOCK_SIZE
    ensures sector[..a] == sector[..b] <==> a == b
  {
    assert |sector[..a]| == a && |sector[..b]| == b;
  }

  const CREATE_WRITE: bv32 := 0x0E

  /** Creating a file on a formatted filesystem: its entry, descriptor and sector. */
  lemma FirstFile(s: State, n: seq<Byte>)
    requires Shape(s) && |s.files| >= 1 && 0 !in n && |n| < NAME_MAX
    ensures
      var f, r := Format(s), Open(Format(s), n, CREATE_WRITE).state;
      && Sound(f) && Sound(r) && SavedNames(r) && r.files == f.files[0 := Entry(true, n, 0, 0, 1)]
      && r.owner == 0 && SavedSize(r, 0) == 0 && r.flash[1] == Blank() &&
          r.fds[0] == Fd(true, false, 0, 0, CREATE_WRITE)
  {
    var f := Format(s);
    FormatSavesNames(s);
    OpenKeepsSound(f, n, CREATE_WRITE);
    OpenKeepsNames(f, n, CREATE_WRITE);
    assert FirstUnused(f.files) == 0 && FirstFd(f.fds) == 0;
    var c := Created(f, n, 0);
    FlushSaves(c);
    assert c.files[0].(size := 0) == c.files[0];
  }

  /** One write to it. */
  lemma FirstWrite(r: State, data: seq<Byte>)
    requires Sound(r) && SavedNames(r) && |r.files| >= 1 && r.files[0].used && r.files[0].size == 0 && r.owner == 0
    requires r.fds[0] == Fd(true, false, 0, 0, CREATE_WRITE) && 0 < |data| <= BLOCK_SIZE
    ensures
      var e := Step(r, DoWrite(0, data));
      && Sound(e) && SavedNames(e) && e.owner == 0 && e.flash == r.flash
      && e.files == r.files[0 := r.files[0].(size := |data|)]
  {
    StepKeepsSound(r, DoWrite(0, data));
    StepKeepsNames(r, DoWrite(0, data));
  }

  /** Create a file and write to it. */
  function Interrupted(a: seq<Byte>, data: seq<Byte>): seq<Op> {
    [DoOpen(a, CREATE_WRITE), DoWrite(0, data)]
  }

  /**
   From a format: a file is created and written, but not closed.  A remount would read it as empty,
   as nothing was committed; once another file has been created, a remount reads as many bytes as were
   written, all of them erased flash.
   */
  lemma UnsavedSizeShows(s: State, a: seq<Byte>, b: seq<Byte>, data: seq<Byte>)
    requires Shape(s) && |s.files| >= 2 && 0 !in a && 0 !in b && a != b
    requires |a| <= 15 && |b| <= 15 && 0 < |data| <= BLOCK_SIZE
    requires (a == [] || a[0] != 47) && (b == [] || b[0] != 47)
    ensures Sound(Format(s)) && AllCalls(Interrupted(a, data))
    ensures
      var e := After(Format(s), Interrupted(a, data));
      && Remount(e, a) == Found([])
      && Shape(Step(e, DoOpen(b, CREATE_WRITE)))
      && Remount(Step(e, DoOpen(b, CREATE_WRITE)), a) == Found(seq(|data|, _ => ERASED))
  {
    StripDenotes(a, a);
    StripDenotes(b, b);
    FirstFile(s, a);
    TwoSteps(Format(s), DoOpen(a, CREATE_WRITE), DoWrite(0, data));
    WrittenThenOther(Open(Format(s), a, CREATE_WRITE).state, a, b, data);
  }

  /** The write to the first file, and then the second one. */
  lemma WrittenThenOther(r: State, a: seq<Byte>, b: seq<Byte>, data: seq<Byte>)
    requires Sound(r) && SavedNames(r) && |r.files| >= 2 && r.files[0] == Entry(true, a, 0, 0, 1) && r.owner == 0
    requires forall j :: 1 <= j < |r.files| ==> !r.files[j].used
    requires r.fds[0] == Fd(true, false, 0, 0, CREATE_WRITE) && r.flash[1] == Blank() && SavedSize(r, 0) == 0
    requires 0 < |data| <= BLOCK_SIZE && 0 !in b && Strip(b) == b && a != b && |b| < NAME_MAX
    ensures
      var e := Step(r, DoWrite(0, data));
      && Sound(e) && Remount(e, a) == Found([]) && Shape(Step(e, DoOpen(b, CREATE_WRITE)))
      && Remount(Step(e, DoOpen(b, CREATE_WRITE)), a) == Found(seq(|data|, _ => ERASED))
  {
    FirstWrite(r, data);
    OneFile(Step(r, DoWrite(0, data)).files, a, b);
    SecondFile(Step(r, DoWrite(0, data)), a, b, |data|);
  }

  /** Creating another file while the first, of n bytes so far, has nothing committed. */
  lemma SecondFile(e: State, a: seq<Byte>, b: seq<Byte>, n: nat)
    requires Sound(e) && SavedNames(e) && |e.files| >= 2 && e.owner == 0 && e.files[0] == Entry(true, a, n, 0, 1)
    requires Find(e.files, a) == 0 && Find(e.files, Strip(b)) == |e.files| && FirstUnused(e.files) < |e.files|
    requires e.flash[1] == Blank() && SavedSize(e, 0) == 0
    requires 0 !in b && Strip(b) != a && |Strip(b)| < NAME_MAX
    ensures Remount(e, a) == Found([]) && Shape(Step(e, DoOpen(b, CREATE_WRITE)))
    ensures Remount(Step(e, DoOpen(b, CREATE_WRITE)), a) == Found(seq(n, _ => ERASED))
  {
    NothingCommitted(e, a);
    SecondFlushes(e, a, b);
    AfterSecond(e, a, DoOpen(b, CREATE_WRITE), n);
  }

  lemma AfterSecond(e: State, a: seq<Byte>, op: Op, n: nat)
    requires Sound(e) && SavedNames(e) && |e.files| >= 2 && e.files[0] == Entry(true, a, n, 0, 1) && n <= BLOCK_SIZE
    requires Find(e.files, a) == 0 == e.owner && SavedSize(e, 0) == 0 && e.flash[1] == Blank()
    requires IsCall(op) && FlushesForAnother(e, op, a)
    ensures Shape(Step(e, op)) && Remount(Step(e, op), a) == Found(seq(n, _ => ERASED))
  {
    FlushShowsSizeIff(e, op, a);
    BlankCut(n);
  }

  lemma NothingCommitted(e: State, a: seq<Byte>)
    requires Sound(e) && SavedNames(e) && |e.files| >= 1 && e.files[0].used && e.files[0].name == a
    requires e.flash[1] == Blank() && SavedSize(e, 0) == 0
    ensures Remount(e, a) == Found([]) && e.files[0].size <= BLOCK_SIZE
  {
    FindIs(e.files, a, 0);
    assert EntryOk(e.files[0], 0);
    RemountReads(e, a, 0);
  }

  lemma SecondFlushes(e: State, a: seq<Byte>, b: seq<Byte>)
    requires Shape(e) && Find(e.files, Strip(b)) == |e.files| && FirstUnused(e.files) < |e.files|
    requires 0 !in b && Strip(b) != a && |Strip(b)| < NAME_MAX
    ensures IsCall(DoOpen(b, CREATE_WRITE)) && FlushesForAnother(e, DoOpen(b, CREATE_WRITE), a)
  {
  }

  /** A directory with one file, in its first slot. */
  lemma OneFile(files: seq<Entry>, a: seq<Byte>, b: seq<Byte>)
    requires |files| >= 2 && files[0].used && files[0].name == a && a != b
    requires forall j :: 1 <= j < |files| ==> !files[j].used
    ensures Find(files, a) == 0 && Find(files, b) == |files| && FirstUnused(files) == 1
  {
    FindIs(files, a, 0);
    FindIs(files, b, |files|);
  }

  lemma BlankCut(n: nat)
    requires n <= BLOCK_SIZE
    ensures Blank()[..n] == seq(n, _ => ERASED) && Blank()[..0] == []
  {
  }

  lemma TwoSteps(s: State, x: Op, y: Op)
    requires Sound(s) && IsCall(x) && IsCall(y)
    ensures Sound(Step(s, x)) && AllCalls([x, y]) && After(s, [x, y]) == Step(Step(s, x), y)
  {
    StepKeepsSound(s, x);
    assert [x, y][1..] == [y] && [y][1..] == [];
    assert After(Step(s, x), [y]) == Step(Step(s, x), y);
  }
}
