/**
 What each filesystem operation does to the view, what it leaves alone, and what holds over
 whole sequences of operations.
 */
module FsViews {
  import opened Bytes
  import opened FsSpec
  import opened FsProps
  import opened FsSteps

  // ---- one operation -------------------------------------------------------------------------

  lemma ReadKeepsView(s: State, fd: nat, n: nat, m: seq<Byte>)
    requires Sound(s) && IsOpen(s, fd) && s.files[s.fds[fd].file].size <= BLOCK_SIZE
    ensures View(Read(s, fd, n).0, m) == View(s, m)
  {
  }

  /** While nobody has written, committing or dropping the buffer makes no difference. */
  lemma DropKeepsContent(s: State, i: nat)
    requires Sound(s) && i < |s.files| && (forall k :: 0 <= k < MAX_FDS ==> !s.fds[k].dirty)
    ensures Content(s, i) == Content(s.(owner := -1), i)
  {
    assert EntryOk(s.files[i], i);
  }

  /** The erase and program of fs_close store the buffer as the file's sector. */
  lemma CommitKeepsContent(s: State, i: nat, w: nat)
    requires Sound(s) && i < |s.files| && s.owner == w
    ensures Content(s, i) == Content(Flush(Committed(s, w)), i)
  {
    ProgramBlank(s.buffer);
    assert Flush(Committed(s, w)).flash[1 + w] == s.buffer;
  }

  /** fs_close commits: no name's bytes change, not even those of the file that was open. */
  lemma CloseKeepsView(s: State, fd: nat, m: seq<Byte>)
    requires Sound(s) && IsOpen(s, fd) && Sound(Close(s, fd))
    ensures View(Close(s, fd), m) == View(s, m)
  {
    var o, s', i := s.fds[fd], Close(s, fd), Find(s.files, m);
    assert FdOk(s.files, o);
    if IsWriter(o) {
      WriterOwns(s, fd);
      if i < |s.files| {
        if o.dirty {
          CommitKeepsContent(s, i, o.file);
        } else {
          NonWritersClean(s, fd);
          DropKeepsContent(s, i);
        }
      }
    }
  }

  lemma NonWritersClean(s: State, fd: nat)
    requires FdsOk(s.files, s.fds) && fd < |s.fds| && OnlyWriter(s.fds, fd, s.fds[fd].file) && !s.fds[fd].dirty
    ensures forall k :: 0 <= k < |s.fds| ==> !s.fds[k].dirty
  {
    forall k | 0 <= k < |s.fds|
      ensures !s.fds[k].dirty
    {
      assert FdOk(s.files, s.fds[k]);
    }
  }

  /** bytes with data put at pos, cut at one sector. */
  function Put(bytes: seq<Byte>, pos: nat, data: seq<Byte>): (r: seq<Byte>)
    requires pos <= |bytes| <= BLOCK_SIZE
    ensures pos + WriteLen(pos, |data|) <= |r| <= BLOCK_SIZE
  {
    var end := pos + WriteLen(pos, |data|);
    bytes[..pos] + data[..end - pos] + if end <= |bytes| then bytes[end..] else []
  }

  /** fs_write changes the bytes of the writer's file and of no other. */
  lemma WriteContent(s: State, fd: nat, data: seq<Byte>, j: nat)
    requires Sound(s) && IsOpen(s, fd) && IsWriter(s.fds[fd]) && j < |s.files| && Sound(Write(s, fd, data).state)
    ensures
      var o := s.fds[fd];
      && o.pos <= |Content(s, o.file)| <= BLOCK_SIZE
      && Content(Write(s, fd, data).state, j)
         == if j == o.file then Put(Content(s, j), o.pos, data) else Content(s, j)
  {
    var o, s' := s.fds[fd], Write(s, fd, data).state;
    assert FdOk(s.files, o);
    assert EntryOk(s.files[o.file], o.file);
    WriterOwns(s, fd);
    if j == o.file {
      var size, len := s.files[j].size, WriteLen(o.pos, |data|);
      PutInBuffer(s.buffer, size, o.pos, data);
      assert len == 0 ==> s' == s;
    }
  }

  lemma PutInBuffer(buffer: Sector, size: nat, pos: nat, data: seq<Byte>)
    requires pos <= size <= BLOCK_SIZE
    ensures
      var end := pos + WriteLen(pos, |data|);
      (buffer[..pos] + data[..end - pos] + buffer[end..])[..if end > size then end else size] ==
          Put(buffer[..size], pos, data)
    ensures WriteLen(pos, |data|) == 0 ==> Put(buffer[..size], pos, data) == buffer[..size]
  {
  }

  lemma WriteKeepsOthers(s: State, fd: nat, data: seq<Byte>, m: seq<Byte>)
    requires Sound(s) && IsOpen(s, fd) && Find(s.files, m) != s.fds[fd].file && Sound(Write(s, fd, data).state)
    ensures View(Write(s, fd, data).state, m) == View(s, m)
  {
    var i, o, s' := Find(s.files, m), s.fds[fd], Write(s, fd, data).state;
    if Write(s, fd, data).code > 0 {
      FindIs(s'.files, m, i);
      if i < |s.files| {
        WriteContent(s, fd, data, i);
      }
    }
  }

  /** fs_delete removes one file; what the other names mean stays. */
  lemma DeleteKeepsOthers(s: State, n: seq<Byte>, m: seq<Byte>)
    requires Sound(s) && Find(s.files, n) < |s.files| && m != n && Sound(Delete(s, n))
    ensures View(Delete(s, n), m) == View(s, m)
  {
    var i, j := Find(s.files, n), Find(s.files, m);
    FindFrame(s.files, i, FREE_ENTRY, m);
    if j < |s.files| {
      var r := Removed(s, i);
      RemoveKeeps(s, i);
      ContentFrame(s, r, j);
      FlushKeepsContent(r, j);
    }
  }

  lemma FlushKeepsContent(s: State, j: nat)
    requires Sound(s) && j < |s.files|
    ensures FilesOk(Flush(s).files) && Content(Flush(s), j) == Content(s, j)
  {
    assert Flush(s).flash[1 + j] == s.flash[1 + j];
  }

  /** Names in use are distinct. */
  ghost predicate UniqueNames(files: seq<Entry>) {
    forall i, j :: 0 <= i < j < |files| && files[i].used && files[j].used ==> files[i].name != files[j].name
  }

  /** No two files in use have name n. */
  ghost predicate AtMostOnce(files: seq<Entry>, n: seq<Byte>) {
    forall i, j :: 0 <= i < j < |files| && files[i].used && files[j].used && files[i].name == n ==> files[j].name != n
  }

  /** fs_delete on a stored name removes its first file, so the name is missing exactly if there was just one. */
  lemma DeleteRemovesIff(s: State, n: seq<Byte>)
    requires Sound(s) && Find(s.files, n) < |s.files| && Sound(Delete(s, n))
    ensures View(Delete(s, n), n) == Missing <==> AtMostOnce(s.files, n)
  {
    var i, files := Find(s.files, n), Delete(s, n).files;
    assert files == s.files[i := FREE_ENTRY];
    if AtMostOnce(s.files, n) {
      FindIs(files, n, |s.files|);
    } else {
      var j, k :| 0 <= j < k < |s.files| && s.files[j].used && s.files[k].used && s.files[j].name == n
                  && s.files[k].name == n;
      assert i <= j && files[k] == s.files[k];
    }
  }

  /**
   Creating a file keeps names distinct exactly when its stored name is not in use.  That is
   so for every name of up to 15 characters, which are the ones find_file can find again.
   */
  lemma CreateKeepsUniqueIff(s: State, n: seq<Byte>, j: nat)
    requires Sound(s) && UniqueNames(s.files) && 0 !in n && j < |s.files| && !s.files[j].used
    ensures UniqueNames(Created(s, n, j).files) <==> Find(s.files, Stored(n)) == |s.files|
  {
    var c, i := Created(s, n, j), Find(s.files, Stored(n));
    if i < |s.files| {
      assert c.files[i] == s.files[i] && c.files[j].name == c.files[i].name;
      assert !UniqueNames(c.files);
    }
  }

  // ---- fs_open ----------------------------------------------------------------------------------

  function BytesOr(v: Lookup): seq<Byte> {
    if v.Found? then v.bytes else []
  }

  lemma OpenFileOthers(s: State, n: seq<Byte>, mode: bv32, m: seq<Byte>)
    requires Sound(s) && 0 !in n && m != Stored(n) && FilesOk(OpenFile(s, n, mode).state.files)
    ensures View(OpenFile(s, n, mode).state, m) == View(s, m)
  {
    var j := FirstUnused(s.files);
    if OpenFile(s, n, mode).state != s {
      CreateKeeps(s, n, j);
      assert OpenFile(s, n, mode).state == Flush(Created(s, n, j));
      CreatedView(s, n, j, m);
      FlushKeepsView(Created(s, n, j), m);
    }
  }

  lemma CreatedOwn(s: State, n: seq<Byte>, j: nat)
    requires Sound(s) && 0 !in n && j < |s.files| && !s.files[j].used && Find(s.files, n) == |s.files| && |n| < NAME_MAX
    ensures
      var f := Flush(Created(s, n, j));
      FilesOk(f.files) && Find(f.files, n) == j && View(f, n) == Found([])
  {
    CreateKeeps(s, n, j);
    CreatedView(s, n, j, n);
    FlushKeepsView(Created(s, n, j), n);
  }

  lemma FlushKeepsView(s: State, m: seq<Byte>)
    requires Sound(s)
    ensures FilesOk(Flush(s).files) && Flush(s).files == s.files && View(Flush(s), m) == View(s, m)
  {
    var j := Find(s.files, m);
    if j < |s.files| {
      FlushKeepsContent(s, j);
    }
  }

  /** A new file shows up empty under its stored name; nothing else changes. */
  lemma CreatedView(s: State, n: seq<Byte>, j: nat, m: seq<Byte>)
    requires Sound(s) && 0 !in n && j < |s.files| && !s.files[j].used && Find(s.files, n) == |s.files|
    requires FilesOk(Created(s, n, j).files)
    ensures m != Stored(n) ==> View(Created(s, n, j), m) == View(s, m)
    ensures |n| < NAME_MAX ==> Find(Created(s, n, j).files, n) == j && View(Created(s, n, j), n) == Found([])
  {
    var c := Created(s, n, j);
    if m != Stored(n) {
      FindFrame(s.files, j, c.files[j], m);
      var x := Find(s.files, m);
      if x < |s.files| {
        ContentFrame(s, c, x);
      }
    }
    if |n| < NAME_MAX {
      FindIs(c.files, n, j);
      assert Content(c, j) == [];
    }
  }

  lemma ClaimView(s: State, i: nat, mode: bv32, m: seq<Byte>)
    requires Sound(s) && s.owner == -1 && i < |s.files| && s.files[i].used && FilesOk(Claim(s, i, mode).files)
    ensures
      var c := Claim(s, i, mode);
      && Find(c.files, m) == Find(s.files, m)
      && View(c, m) == if Find(s.files, m) == i && Truncating(mode) then Found([]) else View(s, m)
  {
    FindIs(Claim(s, i, mode).files, m, Find(s.files, m));
  }

  /** Giving a truncated or untouched buffer up again. */
  lemma UnclaimView(s: State, i: nat, mode: bv32, m: seq<Byte>)
    requires Sound(s) && s.owner == -1 && i < |s.files| && FilesOk(Claim(s, i, mode).files)
    ensures View(Claim(s, i, mode).(owner := -1), m) == View(Claim(s, i, mode), m)
  {
    assert EntryOk(s.files[i], i);
  }

  /** Once the file is known, fs_open changes nothing but that file. */
  lemma OpenOnView(s: State, i: nat, mode: bv32, m: seq<Byte>)
    requires Sound(s) && i < |s.files| && s.files[i].used && FilesOk(OpenOn(s, i, mode).state.files)
    ensures
      View(OpenOn(s, i, mode).state, m)
        == if Find(s.files, m) == i && Writing(mode) && Truncating(mode) && s.owner == -1 then Found([]) else View(s, m)
  {
    if Writing(mode) && s.owner == -1 {
      ClaimFiles(s, i, mode);
      ClaimView(s, i, mode, m);
      UnclaimView(s, i, mode, m);
    }
  }

  /** fs_open changes the view at no name but its own. */
  lemma OpenKeepsOthers(s: State, n: seq<Byte>, mode: bv32, m: seq<Byte>)
    requires Sound(s) && 0 !in n && m != n && m != Stored(n) && Sound(Open(s, n, mode).state)
    ensures View(Open(s, n, mode).state, m) == View(s, m)
  {
    OpenFileKeeps(s, n, mode);
    OpenFileOthers(s, n, mode, m);
    var r := OpenFile(s, n, mode);
    if r.code >= 0 {
      assert r.state.files[r.code].name == n || r.state.files[r.code].name == Stored(n);
      OpenOnView(r.state, r.code, mode, m);
    }
  }

  /** The name has a file, or fs_open may create one. */
  ghost predicate Reachable(s: State, n: seq<Byte>, mode: bv32)
    requires Shape(s)
  {
    Find(s.files, n) < |s.files| || (Creating(mode) && FirstUnused(s.files) < |s.files|)
  }

  /** When fs_open succeeds. */
  lemma OpenSucceedsIff(s: State, n: seq<Byte>, mode: bv32)
    requires Sound(s) && 0 !in n
    ensures
      Open(s, n, mode).code >= 0 <==>
        Reachable(s, n, mode) && (Writing(mode) ==> s.owner == -1) && FirstFd(s.fds) < MAX_FDS
  {
    OpenFileKeeps(s, n, mode);
  }

  /** find_file never finds a name longer than the stored ones. */
  lemma LongIsMissing(files: seq<Entry>, n: seq<Byte>)
    requires FilesOk(files) && |n| >= NAME_MAX
    ensures Find(files, n) == |files|
  {
  }

  /** What fs_open does to its own name, successful or not. */
  lemma OpenOwnName(s: State, n: seq<Byte>, mode: bv32)
    requires Sound(s) && 0 !in n && Sound(Open(s, n, mode).state)
    ensures View(Open(s, n, mode).state, n) ==
              (if |n| >= NAME_MAX || !Reachable(s, n, mode) then Missing
               else if Writing(mode) && Truncating(mode) && s.owner == -1 then Found([])
               else Found(BytesOr(View(s, n))))
  {
    if |n| >= NAME_MAX {
      LongIsMissing(Open(s, n, mode).state.files, n);
    } else {
      OpenShortName(s, n, mode);
    }
  }

  lemma OpenShortName(s: State, n: seq<Byte>, mode: bv32)
    requires Sound(s) && 0 !in n && |n| < NAME_MAX && FilesOk(Open(s, n, mode).state.files)
    ensures View(Open(s, n, mode).state, n) ==
              (if !Reachable(s, n, mode) then Missing
               else if Writing(mode) && Truncating(mode) && s.owner == -1 then Found([])
               else Found(BytesOr(View(s, n))))
  {
    if Find(s.files, n) < |s.files| {
      OpenOnOwn(s, Find(s.files, n), mode, n, View(s, n).bytes);
    } else if Creating(mode) && FirstUnused(s.files) < |s.files| {
      OpenNewName(s, n, mode);
    }
  }

  lemma OpenNewName(s: State, n: seq<Byte>, mode: bv32)
    requires Sound(s) && 0 !in n && |n| < NAME_MAX && Find(s.files, n) == |s.files|
    requires Creating(mode) && FirstUnused(s.files) < |s.files|
    ensures FilesOk(Open(s, n, mode).state.files) && View(Open(s, n, mode).state, n) == Found([])
  {
    var j := FirstUnused(s.files);
    CreateKeeps(s, n, j);
    FlushKeeps(Created(s, n, j));
    CreatedOwn(s, n, j);
    OpenOnOwn(Flush(Created(s, n, j)), j, mode, n, []);
  }

  /** The file fs_open works on is the one the name stands for. */
  lemma OpenedFile(s: State, n: seq<Byte>, mode: bv32)
    requires Sound(s) && 0 !in n && |n| < NAME_MAX && OpenFile(s, n, mode).code >= 0
    ensures Find(OpenFile(s, n, mode).state.files, n) == OpenFile(s, n, mode).code
  {
    if Find(s.files, n) == |s.files| {
      CreatedOwn(s, n, FirstUnused(s.files));
    }
  }

  lemma OpenOnOwn(s: State, i: nat, mode: bv32, n: seq<Byte>, bytes: seq<Byte>)
    requires Sound(s) && Find(s.files, n) == i < |s.files| && View(s, n) == Found(bytes)
    ensures FilesOk(OpenOn(s, i, mode).state.files)
    ensures View(OpenOn(s, i, mode).state, n) ==
            Found(if Writing(mode) && Truncating(mode) && s.owner == -1 then [] else bytes)
  {
    OpenOnKeeps(s, i, mode);
    OpenOnView(s, i, mode, n);
  }

  /** The descriptor a successful fs_open returns: on its name's file, at its start or its end. */
  lemma OpenDescriptor(s: State, n: seq<Byte>, mode: bv32)
    requires Sound(s) && 0 !in n && Sound(Open(s, n, mode).state) && Open(s, n, mode).code >= 0
    ensures
      var Outcome(s', fd) := Open(s, n, mode);
      var i := if |n| < NAME_MAX then Find(s'.files, n) else FirstUnused(s.files);
      && i < |s.files| && s'.files[i].name == Stored(n) && fd == FirstFd(s.fds)
      && (var pos := if Writing(mode) && Appending(mode) then |Content(s', i)| else 0;
          s'.fds == s.fds[fd := Fd(true, false, i, pos, mode)])
      && s'.owner == if Writing(mode) then i else s.owner
  {
    OpenFileKeeps(s, n, mode);
    var r := OpenFile(s, n, mode);
    if |n| < NAME_MAX {
      OpenedFile(s, n, mode);
    } else {
      LongIsMissing(s.files, n);
    }
    OpenOnDescriptor(r.state, r.code, mode);
  }

  lemma OpenOnDescriptor(s: State, i: nat, mode: bv32)
    requires Sound(s) && i < |s.files| && s.files[i].used && Sound(OpenOn(s, i, mode).state) &&
             OpenOn(s, i, mode).code >= 0
    ensures
      var Outcome(s', fd) := OpenOn(s, i, mode);
      && (forall m :: Find(s'.files, m) == Find(s.files, m)) && s'.files[i].name == s.files[i].name &&
          fd == FirstFd(s.fds)
      && (var pos := if Writing(mode) && Appending(mode) then |Content(s', i)| else 0;
          s'.fds == s.fds[fd := Fd(true, false, i, pos, mode)])
      && s'.owner == if Writing(mode) then i else s.owner
  {
    assert EntryOk(s.files[i], i);
    if Writing(mode) {
      ClaimFiles(s, i, mode);
      forall m
        ensures Find(Claim(s, i, mode).files, m) == Find(s.files, m)
      {
        ClaimView(s, i, mode, m);
      }
    }
  }

  /**
   A failed fs_open leaves its own name alone except in two cases: it may have created the
   file first, and with the descriptor table full it has already truncated it.
   */
  lemma FailedOpenIff(s: State, n: seq<Byte>, mode: bv32)
    requires Sound(s) && 0 !in n && Sound(Open(s, n, mode).state) && Open(s, n, mode).code < 0
    ensures
      View(Open(s, n, mode).state, n) != View(s, n) <==>
        || (|n| < NAME_MAX && View(s, n) == Missing && Reachable(s, n, mode))
        || (View(s, n).Found? && View(s, n).bytes != [] && Writing(mode) && Truncating(mode) && s.owner == -1)
  {
    if |n| >= NAME_MAX {
      LongIsMissing(s.files, n);
    }
    OpenOwnName(s, n, mode);
  }
}
