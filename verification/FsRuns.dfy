/**
 The filesystem over whole sequences of calls: other files are never disturbed, a commit
 survives a remount, and written bytes read back in any chunking.
 */
module FsRuns {
  import opened Bytes
  import opened FsSpec
  import opened FsProps
  import opened FsSteps
  import opened FsViews

  // ---- sequences of operations ---------------------------------------------------------------

  datatype Op =
    | DoOpen(name: seq<Byte>, mode: bv32)
    | DoRead(fd: int, n: nat)
    | DoWrite(fd: int, data: seq<Byte>)
    | DoClose(fd: int)
    | DoDelete(name: seq<Byte>)
    | DoFormat

  /** Names are C strings. */
  predicate IsCall(op: Op) {
    op.DoOpen? || op.DoDelete? ==> 0 !in op.name
  }

  /** The state after one call; a call on a descriptor or a name that is not there fails. */
  ghost function Step(s: State, op: Op): State
    requires Sound(s) && IsCall(op)
  {
    match op
    case DoOpen(name, mode) => OpenCall(s, name, mode).state
    case DoRead(fd, n) => if IsOpen(s, fd) && s.files[s.fds[fd].file].size <= BLOCK_SIZE then Read(s, fd, n).0 else s
    case DoWrite(fd, data) => if IsOpen(s, fd) then Write(s, fd, data).state else s
    case DoClose(fd) => if IsOpen(s, fd) then Close(s, fd) else s
    case DoDelete(name) => if Find(s.files, Strip(name)) < |s.files| then Delete(s, Strip(name)) else s
    case DoFormat => Format(s)
  }

  lemma StepKeepsSound(s: State, op: Op)
    requires Sound(s) && IsCall(op)
    ensures Sound(Step(s, op))
  {
    match op
    case DoOpen(name, mode) => OpenKeepsSound(s, Strip(name), mode);
    case DoRead(fd, n) => if IsOpen(s, fd) && s.files[s.fds[fd].file].size <= BLOCK_SIZE { ReadKeepsSound(s, fd, n); }
    case DoWrite(fd, data) => if IsOpen(s, fd) { WriteKeepsSound(s, fd, data); }
    case DoClose(fd) => if IsOpen(s, fd) { CloseKeepsSound(s, fd); }
    case DoDelete(name) => if Find(s.files, Strip(name)) < |s.files| { DeleteKeepsSound(s, Strip(name)); }
    case DoFormat => FormatKeepsSound(s);
  }

  /** The call is about name m: it opens or deletes it, writes to its file, or formats. */
  ghost predicate Concerns(s: State, op: Op, m: seq<Byte>)
    requires Shape(s)
  {
    match op
    case DoOpen(name, _) => Denotes(name, m) || exists n :: Denotes(name, n) && |n| > 15 && n[..15] == m
    case DoRead(_, _) => false
    case DoWrite(fd, _) => IsOpen(s, fd) && s.fds[fd].file == Find(s.files, m)
    case DoClose(_) => false
    case DoDelete(name) => Denotes(name, m)
    case DoFormat => true
  }

  lemma StepKeepsOthers(s: State, op: Op, m: seq<Byte>)
    requires Sound(s) && IsCall(op) && !Concerns(s, op, m) && Sound(Step(s, op))
    ensures View(Step(s, op), m) == View(s, m)
  {
    match op
    case DoOpen(name, mode) =>
      StripDenotes(name, m);
      StripDenotes(name, Strip(name));
      OpenKeepsOthers(s, Strip(name), mode, m);
    case DoRead(fd, n) => if IsOpen(s, fd) && s.files[s.fds[fd].file].size <= BLOCK_SIZE { ReadKeepsView(s, fd, n, m); }
    case DoWrite(fd, data) => if IsOpen(s, fd) { WriteKeepsOthers(s, fd, data, m); }
    case DoClose(fd) => if IsOpen(s, fd) { CloseKeepsView(s, fd, m); }
    case DoDelete(name) =>
      StripDenotes(name, m);
      if Find(s.files, Strip(name)) < |s.files| { DeleteKeepsOthers(s, Strip(name), m); }
  }

  ghost predicate AllCalls(ops: seq<Op>) {
    forall i :: 0 <= i < |ops| ==> IsCall(ops[i])
  }

  ghost function After(s: State, ops: seq<Op>): (e: State)
    requires Sound(s) && AllCalls(ops)
    ensures Sound(e)
    decreases |ops|
  {
    if ops == [] then s
    else
      StepKeepsSound(s, ops[0]);
      After(Step(s, ops[0]), ops[1..])
  }

  ghost predicate RunAvoids(s: State, ops: seq<Op>, m: seq<Byte>)
    requires Sound(s) && AllCalls(ops)
    decreases |ops|
  {
    ops != [] ==>
      && !Concerns(s, ops[0], m)
      && (StepKeepsSound(s, ops[0]);
          RunAvoids(Step(s, ops[0]), ops[1..], m))
  }

  /** No sequence of calls about other names changes what m holds. */
  lemma {:induction false} RunKeepsOthers(s: State, ops: seq<Op>, m: seq<Byte>)
    requires Sound(s) && AllCalls(ops) && RunAvoids(s, ops, m)
    ensures View(After(s, ops), m) == View(s, m)
    decreases |ops|
  {
    if ops != [] {
      StepKeepsSound(s, ops[0]);
      StepKeepsOthers(s, ops[0], m);
      RunKeepsOthers(Step(s, ops[0]), ops[1..], m);
    }
  }

  // ---- names -----------------------------------------------------------------------------------

  /** The call creates a file whose stored name is in use: the name was longer than its field. */
  ghost predicate Clashes(s: State, op: Op)
    requires Shape(s)
  {
    && op.DoOpen? && Creating(op.mode) && FirstUnused(s.files) < |s.files|
    && Find(s.files, Strip(op.name)) == |s.files| && Find(s.files, Stored(Strip(op.name))) < |s.files|
  }

  lemma ShortNamesDoNotClash(s: State, op: Op)
    requires Shape(s) && (op.DoOpen? ==> |Strip(op.name)| < NAME_MAX)
    ensures !Clashes(s, op)
  {
  }

  /** A call keeps names distinct exactly when it does not create one that is in use. */
  lemma StepKeepsUniqueIff(s: State, op: Op)
    requires Sound(s) && IsCall(op) && UniqueNames(s.files)
    ensures UniqueNames(Step(s, op).files) <==> !Clashes(s, op)
  {
    if op.DoOpen? {
      OpenKeepsUniqueIff(s, Strip(op.name), op.mode);
    } else {
      StepKeepsSound(s, op);
      SameDirectorySize(s, op);
      forall k | 0 <= k < |s.files|
        ensures KeepsName(s.files[k], Step(s, op).files[k])
      {
        OtherKeepsName(s, op, k);
      }
      FewerNames(s.files, Step(s, op).files);
    }
  }

  /** What is in use afterwards was in use before, under the same name. */
  predicate KeepsName(e: Entry, e': Entry) {
    e'.used ==> e.used && e'.name == e.name
  }

  lemma SameDirectorySize(s: State, op: Op)
    requires Sound(s) && IsCall(op)
    ensures |Step(s, op).files| == |s.files|
  {
  }

  lemma OtherKeepsName(s: State, op: Op, k: nat)
    requires Sound(s) && IsCall(op) && !op.DoOpen? && k < |s.files| == |Step(s, op).files|
    ensures KeepsName(s.files[k], Step(s, op).files[k])
  {
    match op
    case DoDelete(name) => assert Find(s.files, Strip(name)) < |s.files| ==>
        Delete(s, Strip(name)).files == Removed(s, Find(s.files, Strip(name))).files;
    case DoFormat => assert Format(s).files == Wiped(s).files;
    case _ =>
  }

  lemma FewerNames(files: seq<Entry>, files': seq<Entry>)
    requires UniqueNames(files) && |files'| == |files|
    requires forall k :: 0 <= k < |files| ==> KeepsName(files[k], files'[k])
    ensures UniqueNames(files')
  {
  }

  lemma SameNames(files: seq<Entry>, files': seq<Entry>)
    requires |files'| == |files| && forall k :: 0 <= k < |files| ==>
             files'[k].used == files[k].used && files'[k].name == files[k].name
    ensures UniqueNames(files') <==> UniqueNames(files)
  {
  }

  lemma OpenKeepsUniqueIff(s: State, n: seq<Byte>, mode: bv32)
    requires Sound(s) && 0 !in n && UniqueNames(s.files)
    ensures
      UniqueNames(Open(s, n, mode).state.files) <==>
        !(Creating(mode) && FirstUnused(s.files) < |s.files| && Find(s.files, n) == |s.files| &&
            Find(s.files, Stored(n)) < |s.files|)
  {
    OpenFileKeeps(s, n, mode);
    var r := OpenFile(s, n, mode);
    if r.code >= 0 {
      if Find(s.files, n) == |s.files| {
        CreateKeepsUniqueIff(s, n, r.code);
      }
      OpenOnKeepsNames(r.state, r.code, mode);
    }
  }

  lemma OpenOnKeepsNames(s: State, i: nat, mode: bv32)
    requires Shape(s) && i < |s.files|
    ensures UniqueNames(OpenOn(s, i, mode).state.files) <==> UniqueNames(s.files)
  {
    SameNames(s.files, OpenOn(s, i, mode).state.files);
  }

  ghost predicate NoClash(s: State, ops: seq<Op>)
    requires Sound(s) && AllCalls(ops)
    decreases |ops|
  {
    ops != [] ==>
      && !Clashes(s, ops[0])
      && (StepKeepsSound(s, ops[0]);
          NoClash(Step(s, ops[0]), ops[1..]))
  }

  ghost predicate UniqueAllAlong(s: State, ops: seq<Op>)
    requires Sound(s) && AllCalls(ops)
    decreases |ops|
  {
    && UniqueNames(s.files)
    && (ops != [] ==>
          (StepKeepsSound(s, ops[0]);
           UniqueAllAlong(Step(s, ops[0]), ops[1..])))
  }

  /** Over a whole run names stay distinct exactly when no call creates one that is in use. */
  lemma {:induction false} RunKeepsUniqueIff(s: State, ops: seq<Op>)
    requires Sound(s) && AllCalls(ops) && UniqueNames(s.files)
    ensures UniqueAllAlong(s, ops) <==> NoClash(s, ops)
    ensures NoClash(s, ops) ==> UniqueNames(After(s, ops).files)
    decreases |ops|
  {
    if ops != [] {
      StepKeepsSound(s, ops[0]);
      StepKeepsUniqueIff(s, ops[0]);
      if !Clashes(s, ops[0]) {
        RunKeepsUniqueIff(Step(s, ops[0]), ops[1..]);
      }
    }
  }

  ghost predicate ShortNames(ops: seq<Op>) {
    forall i :: 0 <= i < |ops| && ops[i].DoOpen? ==> |Strip(ops[i].name)| < NAME_MAX
  }

  lemma {:induction false} ShortNamesNoClash(s: State, ops: seq<Op>)
    requires Sound(s) && AllCalls(ops) && ShortNames(ops)
    ensures NoClash(s, ops)
    decreases |ops|
  {
    if ops != [] {
      StepKeepsSound(s, ops[0]);
      ShortNamesDoNotClash(s, ops[0]);
      ShortNamesNoClash(Step(s, ops[0]), ops[1..]);
    }
  }

  /**
   After any sequence of calls on a formatted filesystem, deleting a name makes it missing exactly if
   it is not stored twice.  No name is while no call creates one that is in use, which no call with a
   name of up to 15 characters does.
   */
  lemma DeletedIsMissingIff(s: State, ops: seq<Op>, name: seq<Byte>)
    requires Shape(s) && AllCalls(ops) && 0 !in name
    ensures Sound(Format(s)) && (ShortNames(ops) ==> NoClash(Format(s), ops))
    ensures
      var a := After(Format(s), ops);
      var e := Step(a, DoDelete(name));
      && Sound(e) && (View(e, Strip(name)) == Missing <==> AtMostOnce(a.files, Strip(name)))
      && (NoClash(Format(s), ops) ==> UniqueNames(a.files) && AtMostOnce(a.files, Strip(name)))
  {
    FormatKeepsSound(s);
    RunKeepsUniqueIff(Format(s), ops);
    if ShortNames(ops) {
      ShortNamesNoClash(Format(s), ops);
    }
    DeleteCallIff(After(Format(s), ops), name);
  }

  lemma DeleteCallIff(s: State, name: seq<Byte>)
    requires Sound(s) && 0 !in name
    ensures var e := Step(s, DoDelete(name)); Sound(e) && (View(e, Strip(name)) == Missing <==>
              AtMostOnce(s.files, Strip(name)))
    ensures UniqueNames(s.files) ==> AtMostOnce(s.files, Strip(name))
  {
    StepKeepsSound(s, DoDelete(name));
    if Find(s.files, Strip(name)) < |s.files| {
      DeleteRemovesIff(s, Strip(name));
    }
  }

  // ---- the pending write ----------------------------------------------------------------------

  /** The writer's unsaved data: its descriptor, the buffer, and its file's entry. */
  ghost predicate SamePending(s: State, s': State, w: nat) {
    && |s.fds| == |s'.fds| && w < |s.fds| && 0 <= s.owner < |s.files| == |s'.files|
    && s'.owner == s.owner && s'.buffer == s.buffer && s'.fds[w] == s.fds[w] && s'.files[s.owner] == s.files[s.owner]
  }

  /** The call is by the writer itself, deletes its file, or formats. */
  ghost predicate DisturbsWriter(s: State, op: Op, w: nat)
    requires Shape(s) && w < |s.fds|
  {
    match op
    case DoOpen(_, _) => false
    case DoRead(fd, _) => fd == w
    case DoWrite(fd, _) => fd == w
    case DoClose(fd) => fd == w
    case DoDelete(name) => Find(s.files, Strip(name)) == s.fds[w].file
    case DoFormat => true
  }

  /** Other calls, creating and deleting other files among them, leave the unsaved data alone. */
  lemma StepKeepsPending(s: State, op: Op, w: nat)
    requires Sound(s) && IsCall(op) && s.owner != -1 && w < MAX_FDS && OnlyWriter(s.fds, w, s.owner) &&
             !DisturbsWriter(s, op, w)
    ensures SamePending(s, Step(s, op), w)
  {
    OwnerIsUsed(s);
    match op
    case DoOpen(name, mode) => OpenKeepsPending(s, Strip(name), mode, w);
    case DoRead(fd, n) =>
    case DoWrite(fd, data) =>
    case DoClose(fd) =>
      if IsOpen(s, fd) {
        assert FdOk(s.files, s.fds[fd]);
      }
    case DoDelete(name) =>
  }

  lemma OpenKeepsPending(s: State, n: seq<Byte>, mode: bv32, w: nat)
    requires Sound(s) && 0 !in n && s.owner != -1 && s.files[s.owner].used && w < MAX_FDS &&
             OnlyWriter(s.fds, w, s.owner)
    ensures SamePending(s, Open(s, n, mode).state, w)
  {
    OpenFileKeeps(s, n, mode);
  }

  // ---- remounting -----------------------------------------------------------------------------

  /** A dirty close leaves the directory of RAM on flash. */
  lemma CloseSaves(s: State, fd: nat)
    requires Sound(s) && IsOpen(s, fd) && s.fds[fd].dirty
    ensures Saved(Close(s, fd))
  {
    FlushSaves(Committed(s, s.fds[fd].file));
  }

  /** With no writer and a saved directory, fs_init brings back the same files. */
  lemma InitReloads(s: State, m: seq<Byte>)
    requires Sound(s) && Saved(s) && s.owner == -1
    ensures Sound(Init(s)) && View(Init(s), m) == View(s, m) && Init(s).files == s.files
  {
    var r := Init(s);
    assert r.files == s.files && r.count == s.count && r.owner == -1 && r.flash == s.flash;
    assert forall k :: 0 <= k < MAX_FDS ==> FdOk(r.files, r.fds[k]);
  }

  /** Right after the commit of a written file, a remount yields the same names and bytes. */
  lemma CommitSurvivesRemount(s: State, fd: nat, m: seq<Byte>)
    requires Sound(s) && IsOpen(s, fd) && s.fds[fd].dirty
    ensures Sound(Close(s, fd)) && Sound(Init(Close(s, fd)))
    ensures View(Init(Close(s, fd)), m) == View(s, m)
  {
    assert FdOk(s.files, s.fds[fd]);
    CloseKeepsSound(s, fd);
    CloseSaves(s, fd);
    CloseKeepsView(s, fd, m);
    InitReloads(Close(s, fd), m);
  }

  // ---- chunks ----------------------------------------------------------------------------------

  function Concat(chunks: seq<seq<Byte>>): seq<Byte> {
    if chunks == [] then [] else chunks[0] + Concat(chunks[1..])
  }

  function Sum(sizes: seq<nat>): nat {
    if sizes == [] then 0 else sizes[0] + Sum(sizes[1..])
  }

  /** The first n bytes, or all of them. */
  function Prefix(b: seq<Byte>, n: nat): seq<Byte> {
    if n < |b| then b[..n] else b
  }

  ghost function WriteAll(s: State, fd: nat, chunks: seq<seq<Byte>>): State
    requires Shape(s) && IsOpen(s, fd)
    decreases |chunks|
  {
    if chunks == [] then s else WriteAll(Write(s, fd, chunks[0]).state, fd, chunks[1..])
  }

  /** A write-mode descriptor at the end of its file. */
  ghost predicate AtEnd(s: State, fd: nat) {
    Sound(s) && IsOpen(s, fd) && IsWriter(s.fds[fd]) && s.fds[fd].pos == |Content(s, s.fds[fd].file)|
  }

  lemma PutAtEnd(bytes: seq<Byte>, data: seq<Byte>)
    requires |bytes| <= BLOCK_SIZE
    ensures Put(bytes, |bytes|, data) == Prefix(bytes + data, BLOCK_SIZE)
  {
  }

  lemma PrefixAgain(a: seq<Byte>, b: seq<Byte>, c: seq<Byte>)
    requires |a| <= BLOCK_SIZE
    ensures Prefix(Prefix(a + b, BLOCK_SIZE) + c, BLOCK_SIZE) == Prefix(a + (b + c), BLOCK_SIZE)
  {
    assert a + b + c == a + (b + c);
  }

  /** One write at the end of the file. */
  lemma WriteAppends(s: State, fd: nat, data: seq<Byte>)
    requires AtEnd(s, fd)
    ensures
      var i, s' := s.fds[fd].file, Write(s, fd, data).state;
      && AtEnd(s', fd) && s'.fds[fd].file == i && |s'.files| == |s.files| && s'.files[i].name == s.files[i].name
      && Content(s', i) == Prefix(Content(s, i) + data, BLOCK_SIZE)
      && (|Content(s', i)| > |Content(s, i)| ==> s'.fds[fd].dirty)
      && (s.fds[fd].dirty ==> s'.fds[fd].dirty)
  {
    var i := s.fds[fd].file;
    WriteKeepsSound(s, fd, data);
    WriteContent(s, fd, data, i);
    PutAtEnd(Content(s, i), data);
  }

  /** Any chunking of writes at the end appends the concatenation, cut at one sector. */
  lemma {:induction false} WriteAllAppends(s: State, fd: nat, chunks: seq<seq<Byte>>)
    requires AtEnd(s, fd)
    ensures
      var i, s' := s.fds[fd].file, WriteAll(s, fd, chunks);
      && AtEnd(s', fd) && s'.fds[fd].file == i && |s'.files| == |s.files| && s'.files[i].name == s.files[i].name
      && Content(s', i) == Prefix(Content(s, i) + Concat(chunks), BLOCK_SIZE)
      && (|Content(s', i)| > |Content(s, i)| ==> s'.fds[fd].dirty)
      && (s.fds[fd].dirty ==> s'.fds[fd].dirty)
    decreases |chunks|
  {
    var i := s.fds[fd].file;
    assert EntryOk(s.files[i], i);
    if chunks == [] {
      assert Content(s, i) + [] == Content(s, i);
    } else {
      WriteAppends(s, fd, chunks[0]);
      WriteAllAppends(Write(s, fd, chunks[0]).state, fd, chunks[1..]);
      PrefixAgain(Content(s, i), chunks[0], Concat(chunks[1..]));
    }
  }

  ghost function ReadAll(s: State, fd: nat, sizes: seq<nat>): seq<Byte>
    requires Sound(s) && IsOpen(s, fd)
    decreases |sizes|
  {
    var file := s.files[s.fds[fd].file];
    if sizes == [] || file.size > BLOCK_SIZE then []
    else
      ReadKeepsSound(s, fd, sizes[0]);
      Read(s, fd, sizes[0]).1 + ReadAll(Read(s, fd, sizes[0]).0, fd, sizes[1..])
  }

  /** Nobody is writing the file this descriptor reads. */
  ghost predicate Quiet(s: State, fd: nat) {
    Sound(s) && IsOpen(s, fd) && s.owner != s.fds[fd].file && s.fds[fd].pos <= |Content(s, s.fds[fd].file)|
  }

  lemma ReadReturns(s: State, fd: nat, n: nat)
    requires Quiet(s, fd) && s.files[s.fds[fd].file].size <= BLOCK_SIZE
    ensures
      var o := s.fds[fd];
      var rest, (s', b) := Content(s, o.file)[o.pos..], Read(s, fd, n);
      && b == Prefix(rest, n) && Quiet(s', fd) && s'.fds[fd].file == o.file
      && Content(s', o.file) == Content(s, o.file) && s'.fds[fd].pos == o.pos + |b|
  {
    ReadKeepsSound(s, fd, n);
    var o := s.fds[fd];
    assert Source(s, fd) == s.flash[1 + o.file];
    ReadCut(s.flash[1 + o.file], s.files[o.file].size, o.pos, n);
    ReadMoves(s, fd, n, Read(s, fd, n).0);
  }

  lemma ReadMoves(s: State, fd: nat, n: nat, s': State)
    requires Quiet(s, fd) && s.files[s.fds[fd].file].size <= BLOCK_SIZE && s' == Read(s, fd, n).0
    ensures Quiet(s', fd) && s'.fds[fd].file == s.fds[fd].file
    ensures Content(s', s.fds[fd].file) == Content(s, s.fds[fd].file)
  {
    ReadKeepsSound(s, fd, n);
  }

  /** The bytes a read hands over are the next ones of the file. */
  lemma ReadCut(sector: Sector, size: nat, pos: nat, n: nat)
    requires pos <= size <= BLOCK_SIZE
    ensures sector[pos..pos + ReadLen(size, pos, n)] == Prefix(sector[..size][pos..], n)
  {
  }

  lemma PrefixSum(rest: seq<Byte>, a: nat, b: nat)
    ensures Prefix(rest, a) + Prefix(rest[|Prefix(rest, a)|..], b) == Prefix(rest, a + b)
  {
  }

  lemma ReadAllUnfolds(s: State, fd: nat, sizes: seq<nat>)
    requires Sound(s) && IsOpen(s, fd) && sizes != [] && s.files[s.fds[fd].file].size <= BLOCK_SIZE
    ensures Sound(Read(s, fd, sizes[0]).0)
    ensures ReadAll(s, fd, sizes) == Read(s, fd, sizes[0]).1 + ReadAll(Read(s, fd, sizes[0]).0, fd, sizes[1..])
  {
    ReadKeepsSound(s, fd, sizes[0]);
  }

  /** Reading n bytes and then k more. */
  lemma NextChunk(b: seq<Byte>, pos: nat, n: nat, k: nat)
    requires pos <= |b|
    ensures pos + |Prefix(b[pos..], n)| <= |b|
    ensures Prefix(b[pos..], n) + Prefix(b[pos + |Prefix(b[pos..], n)|..], k) == Prefix(b[pos..], n + k)
  {
    assert b[pos + |Prefix(b[pos..], n)|..] == b[pos..][|Prefix(b[pos..], n)|..];
    PrefixSum(b[pos..], n, k);
  }

  /** One read, and what is left for the reads after it. */
  lemma ReadChunk(s: State, fd: nat, n: nat, k: nat)
    requires Quiet(s, fd) && s.files[s.fds[fd].file].size <= BLOCK_SIZE
    ensures
      var o, (s', b) := s.fds[fd], Read(s, fd, n);
      && Quiet(s', fd)
      && b + Prefix(Content(s', s'.fds[fd].file)[s'.fds[fd].pos..], k) == Prefix(Content(s, o.file)[o.pos..], n + k)
  {
    ReadReturns(s, fd, n);
    NextChunk(Content(s, s.fds[fd].file), s.fds[fd].pos, n, k);
  }

  /** Any chunking of reads returns the bytes from the descriptor's position on. */
  lemma {:induction false} ReadAllReturns(s: State, fd: nat, sizes: seq<nat>)
    requires Quiet(s, fd)
    ensures
      var o := s.fds[fd];
      ReadAll(s, fd, sizes) == Prefix(Content(s, o.file)[o.pos..], Sum(sizes))
    decreases |sizes|
  {
    var o := s.fds[fd];
    assert FdOk(s.files, o) && EntryOk(s.files[o.file], o.file);
    if sizes != [] {
      ReadChunk(s, fd, sizes[0], Sum(sizes[1..]));
      ReadAllUnfolds(s, fd, sizes);
      ReadAllReturns(Read(s, fd, sizes[0]).0, fd, sizes[1..]);
    }
  }

  // ---- the round trip ----------------------------------------------------------------------------

  const READ_ONLY: bv32 := 0x01

  /** Open a file by this name and in this mode, write the chunks, and close again. */
  ghost function Store(s: State, name: seq<Byte>, mode: bv32, chunks: seq<seq<Byte>>): State
    requires Sound(s) && 0 !in name && OpenCall(s, name, mode).code >= 0
  {
    OpenKeepsSound(s, Strip(name), mode);
    var o := OpenCall(s, name, mode);
    if !IsOpen(o.state, o.code) then o.state
    else
      var w := WriteAll(o.state, o.code, chunks);
      if Shape(w) && IsOpen(w, o.code) then Close(w, o.code) else w
  }

  /** What was there before a truncating or appending open. */
  ghost function Kept(s: State, n: seq<Byte>, mode: bv32): seq<Byte>
    requires Sound(s)
  {
    if mode & 0x08 != 0 then [] else BytesOr(View(s, n))
  }

  /** After a store, name n holds the kept prefix and the written bytes, cut at 4096. */
  lemma StoreHolds(s: State, name: seq<Byte>, n: seq<Byte>, mode: bv32, chunks: seq<seq<Byte>>)
    requires Sound(s) && 0 !in name && Denotes(name, n) && |n| < NAME_MAX && OpenCall(s, name, mode).code >= 0
    requires Writing(mode) && (Truncating(mode) || Appending(mode))
    ensures
      var e := Store(s, name, mode, chunks);
      && Sound(e) && e.owner == -1 && FirstFd(e.fds) < MAX_FDS
      && View(e, n) == Found(Prefix(Kept(s, n, mode) + Concat(chunks), BLOCK_SIZE))
      && (|View(e, n).bytes| > |Kept(s, n, mode)| ==> Saved(e))
  {
    StripDenotes(name, n);
    OpenKeepsSound(s, n, mode);
    OpenSucceedsIff(s, n, mode);
    OpenOwnName(s, n, mode);
    OpenDescriptor(s, n, mode);
    var Outcome(s1, fd) := Open(s, n, mode);
    StoreFrom(s1, n, fd, chunks);
  }

  lemma StoreFrom(s: State, n: seq<Byte>, fd: nat, chunks: seq<seq<Byte>>)
    requires AtEnd(s, fd) && s.fds[fd].file == Find(s.files, n)
    ensures
      var i, w := s.fds[fd].file, WriteAll(s, fd, chunks);
      && Sound(w) && IsOpen(w, fd) && Sound(Close(w, fd)) && Close(w, fd).owner == -1 &&
          FirstFd(Close(w, fd).fds) < MAX_FDS
      && View(Close(w, fd), n) == Found(Prefix(Content(s, i) + Concat(chunks), BLOCK_SIZE))
      && (|View(Close(w, fd), n).bytes| > |Content(s, i)| ==> Saved(Close(w, fd)))
  {
    var i, w := s.fds[fd].file, WriteAll(s, fd, chunks);
    WriteAllAppends(s, fd, chunks);
    WriteAllKeepsFind(s, fd, chunks, n);
    CloseKeepsSound(w, fd);
    assert !Close(w, fd).fds[fd].used;
    CloseKeepsView(w, fd, n);
    if w.fds[fd].dirty {
      CloseSaves(w, fd);
    }
  }

  lemma {:induction false} WriteAllKeepsFind(s: State, fd: nat, chunks: seq<seq<Byte>>, n: seq<Byte>)
    requires AtEnd(s, fd)
    ensures Shape(WriteAll(s, fd, chunks)) && Find(WriteAll(s, fd, chunks).files, n) == Find(s.files, n)
    decreases |chunks|
  {
    if chunks != [] {
      var s' := Write(s, fd, chunks[0]).state;
      WriteAppends(s, fd, chunks[0]);
      FindIs(s'.files, n, Find(s.files, n));
      WriteAllKeepsFind(s', fd, chunks[1..], n);
    }
  }

  /** Open a file by this name for reading and read in these sizes. */
  ghost function Fetch(s: State, name: seq<Byte>, sizes: seq<nat>): seq<Byte>
    requires Sound(s) && 0 !in name && OpenCall(s, name, READ_ONLY).code >= 0
  {
    OpenKeepsSound(s, Strip(name), READ_ONLY);
    var o := OpenCall(s, name, READ_ONLY);
    if IsOpen(o.state, o.code) then ReadAll(o.state, o.code, sizes) else []
  }

  lemma FetchReturns(s: State, name: seq<Byte>, n: seq<Byte>, sizes: seq<nat>)
    requires Sound(s) && 0 !in name && Denotes(name, n) && |n| < NAME_MAX
    requires s.owner == -1 && View(s, n).Found? && FirstFd(s.fds) < MAX_FDS
    ensures OpenCall(s, name, READ_ONLY).code >= 0
    ensures Fetch(s, name, sizes) == Prefix(View(s, n).bytes, Sum(sizes))
  {
    assert !Writing(READ_ONLY);
    StripDenotes(name, n);
    OpenKeepsSound(s, n, READ_ONLY);
    OpenSucceedsIff(s, n, READ_ONLY);
    OpenOwnName(s, n, READ_ONLY);
    OpenDescriptor(s, n, READ_ONLY);
    var Outcome(s1, fd) := Open(s, n, READ_ONLY);
    ReadAllReturns(s1, fd, sizes);
  }

  /**
   The round trip: bytes written in any chunking to a truncating or appending descriptor and
   closed read back in any chunking, also after a remount when the close committed anything.  The
   writer and the reader may each put one slash in front of the name.
   */
  lemma WrittenBytesReadBack(s: State, n: seq<Byte>, wname: seq<Byte>, rname: seq<Byte>, mode: bv32,
          chunks: seq<seq<Byte>>, sizes: seq<nat>)
    requires Sound(s) && 0 !in n && |n| <= 15
    requires wname == [47] + n || (wname == n && (n == [] || n[0] != 47))
    requires rname == [47] + n || (rname == n && (n == [] || n[0] != 47))
    requires OpenCall(s, wname, mode).code >= 0
    requires mode & 0x02 != 0 && (mode & 0x08 != 0 || mode & 0x10 != 0)
    ensures
      var e, bytes := Store(s, wname, mode, chunks), Prefix(Kept(s, n, mode) + Concat(chunks), BLOCK_SIZE);
      && Sound(e)
      && OpenCall(e, rname, READ_ONLY).code >= 0 && Fetch(e, rname, sizes) == Prefix(bytes, Sum(sizes))
      && (|bytes| > |Kept(s, n, mode)| ==>
            Sound(Init(e)) && OpenCall(Init(e), rname, READ_ONLY).code >= 0 &&
                Fetch(Init(e), rname, sizes) == Prefix(bytes, Sum(sizes)))
  {
    StoreHolds(s, wname, n, mode, chunks);
    var e, bytes := Store(s, wname, mode, chunks), Prefix(Kept(s, n, mode) + Concat(chunks), BLOCK_SIZE);
    FetchReturns(e, rname, n, sizes);
    if |bytes| > |Kept(s, n, mode)| {
      InitReloads(e, n);
      assert !Init(e).fds[0].used;
      FetchReturns(Init(e), rname, n, sizes);
    }
  }
}
