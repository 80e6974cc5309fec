/**
 Every filesystem operation keeps `FsProps.Sound`, and changes the view at no name but its
 own.  Reading and closing change the view nowhere.
 */
module FsSteps {
  import opened Bytes
  import opened FsSpec
  import opened FsProps

  lemma {:induction false} CountSet(files: seq<Entry>, i: nat, e: Entry)
    requires i < |files|
    ensures CountUsed(files[i := e]) + (if files[i].used then 1 else 0) == CountUsed(files) + if e.used then 1 else 0
  {
    var last := |files| - 1;
    if i < last {
      assert files[i := e][..last] == files[..last][i := e];
      CountSet(files[..last], i, e);
    } else {
      assert files[i := e][..last] == files[..last];
    }
  }

  /** The writer's file is a used one. */
  lemma OwnerIsUsed(s: State)
    requires FdsOk(s.files, s.fds) && WriterOk(s.fds, s.owner) && s.owner != -1
    ensures 0 <= s.owner < |s.files| && s.files[s.owner].used
  {
    var k :| 0 <= k < |s.fds| && OnlyWriter(s.fds, k, s.owner);
    assert FdOk(s.files, s.fds[k]);
  }

  // ---- fs_open ----------------------------------------------------------------------------

  /** superblock_flush writes only the superblock's sector. */
  lemma FlushKeeps(s: State)
    requires Sound(s)
    ensures Sound(Flush(s)) && Flush(s).flash[1..] == s.flash[1..]
  {
    assert forall k :: 1 <= k < |s.flash| ==> Flush(s).flash[k] == s.flash[k];
  }

  lemma StoredFits(n: seq<Byte>)
    requires 0 !in n
    ensures |Stored(n)| < NAME_MAX && 0 !in Stored(n)
  {
    assert forall x :: x in Stored(n) ==> x in n;
  }

  lemma CreateKeeps(s: State, n: seq<Byte>, j: nat)
    requires Sound(s) && 0 !in n && j < |s.files| && !s.files[j].used
    ensures Sound(Created(s, n, j))
  {
    var e := Entry(true, Stored(n), 0, j, 1);
    StoredFits(n);
    CountSet(s.files, j, e);
    SetEntry(s.files, s.fds, j, e);
    if s.owner != -1 {
      OwnerIsUsed(s);
    }
  }

  /** Replacing entry j while no descriptor depends on what changes. */
  lemma SetEntry(files: seq<Entry>, fds: seq<Fd>, j: nat, e: Entry)
    requires FilesOk(files) && FdsOk(files, fds) && j < |files| && EntryOk(e, j)
    requires forall k :: 0 <= k < |fds| && fds[k].used && fds[k].file == j ==>
               e.used && (Writing(fds[k].mode) ==> fds[k].pos <= e.size)
    ensures FilesOk(files[j := e]) && FdsOk(files[j := e], fds) && AllEncodable(files[j := e])
  {
    var files' := files[j := e];
    forall k | 0 <= k < |files'|
      ensures EntryOk(files'[k], k)
    {
      assert EntryOk(files[k], k);
    }
    forall k | 0 <= k < |fds|
      ensures FdOk(files', fds[k])
    {
      assert FdOk(files, fds[k]);
    }
    forall k | 0 <= k < |files'|
      ensures Encodable(files'[k])
    {
      assert EntryOk(files'[k], k);
    }
  }

  /** Looking a file up, or creating it, leaves the descriptors and the pending data alone. */
  lemma OpenFileKeeps(s: State, n: seq<Byte>, mode: bv32)
    requires Sound(s) && 0 !in n
    ensures Sound(OpenFile(s, n, mode).state)
    ensures
      var r, i := OpenFile(s, n, mode), Find(s.files, n);
      && (i < |s.files| ==> r == Outcome(s, i))
      && (r.code < 0 ==> r.state == s)
      && (r.code >= 0 && i == |s.files| ==> !s.files[r.code].used && r.state == Flush(Created(s, n, r.code)))
      && r.state.fds == s.fds && r.state.buffer == s.buffer && r.state.owner == s.owner
  {
    var i, j := Find(s.files, n), FirstUnused(s.files);
    if i == |s.files| && Creating(mode) && j < |s.files| {
      CreateKeeps(s, n, j);
      FlushKeeps(Created(s, n, j));
    }
  }

  /** Putting descriptor o in a closed slot. */
  lemma InstallFds(files: seq<Entry>, fds: seq<Fd>, k: nat, o: Fd, owner: int)
    requires FdsOk(files, fds) && k < |fds| && !fds[k].used && FdOk(files, o) && o.used
    requires WriterOk(fds, if IsWriter(o) then -1 else owner)
    ensures FdsOk(files, fds[k := o]) && WriterOk(fds[k := o], if IsWriter(o) then o.file else owner)
  {
    var fds' := fds[k := o];
    if IsWriter(o) {
      assert OnlyWriter(fds', k, o.file);
    } else if owner != -1 {
      var w :| 0 <= w < |fds| && OnlyWriter(fds, w, owner);
      assert OnlyWriter(fds', w, owner);
    }
  }

  lemma NoneDirty(files: seq<Entry>, fds: seq<Fd>)
    requires FdsOk(files, fds) && WriterOk(fds, -1)
    ensures forall k :: 0 <= k < |fds| ==> !fds[k].dirty
  {
    forall k | 0 <= k < |fds|
      ensures !fds[k].dirty
    {
      assert FdOk(files, fds[k]);
    }
  }

  /** The claimed buffer, with the writer's descriptor in place. */
  lemma ClaimKeeps(s: State, i: nat, mode: bv32, k: nat, pos: nat)
    requires Sound(s) && s.owner == -1 && i < |s.files| && s.files[i].used && Writing(mode)
    requires k < MAX_FDS && !s.fds[k].used && pos <= BLOCK_SIZE && pos <= Claim(s, i, mode).files[i].size
    ensures var c := Claim(s, i, mode); Sound(c.(fds := c.fds[k := Fd(true, false, i, pos, mode)]))
  {
    var c := Claim(s, i, mode);
    ClaimFiles(s, i, mode);
    InstallFds(c.files, c.fds, k, Fd(true, false, i, pos, mode), -1);
    NoneDirty(s.files, s.fds);
  }

  lemma ClaimFiles(s: State, i: nat, mode: bv32)
    requires Sound(s) && s.owner == -1 && i < |s.files| && s.files[i].used
    ensures
      var c := Claim(s, i, mode);
      FilesOk(c.files) && FdsOk(c.files, c.fds) && c.count == CountUsed(c.files)
  {
    var e := s.files[i].(size := 0);
    CountSet(s.files, i, e);
    assert EntryOk(s.files[i], i);
    SetEntry(s.files, s.fds, i, e);
  }

  lemma OpenOnKeeps(s: State, i: nat, mode: bv32)
    requires Sound(s) && i < |s.files| && s.files[i].used
    ensures Sound(OpenOn(s, i, mode).state)
  {
    if !(Writing(mode) && s.owner != -1) {
      var s2 := if Writing(mode) then Claim(s, i, mode) else s;
      var k := FirstFd(s2.fds);
      assert EntryOk(s.files[i], i);
      if k < MAX_FDS {
        var pos := if Writing(mode) && Appending(mode) then s2.files[i].size else 0;
        if Writing(mode) {
          ClaimKeeps(s, i, mode, k, pos);
        } else {
          InstallFds(s.files, s.fds, k, Fd(true, false, i, pos, mode), s.owner);
        }
      } else if Writing(mode) {
        ClaimFiles(s, i, mode);
      }
    }
  }

  lemma OpenKeepsSound(s: State, n: seq<Byte>, mode: bv32)
    requires Sound(s) && 0 !in n
    ensures Sound(Open(s, n, mode).state)
  {
    OpenFileKeeps(s, n, mode);
    var r := OpenFile(s, n, mode);
    if r.code >= 0 {
      OpenOnKeeps(r.state, r.code, mode);
    }
  }

  // ---- fs_read and fs_write -----------------------------------------------------------------

  /** Updating an open descriptor in place, without changing its file or mode. */
  lemma UpdateFd(files: seq<Entry>, fds: seq<Fd>, k: nat, o: Fd, owner: int)
    requires FdsOk(files, fds) && WriterOk(fds, owner) && k < |fds| && fds[k].used && FdOk(files, o)
    requires o.used && o.file == fds[k].file && o.mode == fds[k].mode
    ensures FdsOk(files, fds[k := o]) && WriterOk(fds[k := o], owner)
  {
    if owner != -1 {
      var w :| 0 <= w < |fds| && OnlyWriter(fds, w, owner);
      assert OnlyWriter(fds[k := o], w, owner);
    }
  }

  lemma ReadKeepsSound(s: State, fd: nat, n: nat)
    requires Sound(s) && IsOpen(s, fd) && s.files[s.fds[fd].file].size <= BLOCK_SIZE
    ensures Sound(Read(s, fd, n).0)
  {
    var o := s.fds[fd];
    var len := ReadLen(s.files[o.file].size, o.pos, n);
    assert FdOk(s.files, o);
    UpdateFd(s.files, s.fds, fd, o.(pos := if len == 0 then o.pos else o.pos + len), s.owner);
  }

  /** The writer's file is the one its descriptor names. */
  lemma WriterOwns(s: State, fd: nat)
    requires WriterOk(s.fds, s.owner) && fd < |s.fds| && IsWriter(s.fds[fd])
    ensures s.owner == s.fds[fd].file && OnlyWriter(s.fds, fd, s.owner)
  {
    var w :| 0 <= w < |s.fds| && OnlyWriter(s.fds, w, s.owner);
  }

  lemma WriteKeepsSound(s: State, fd: nat, data: seq<Byte>)
    requires Sound(s) && IsOpen(s, fd)
    ensures Sound(Write(s, fd, data).state)
  {
    var s', o := Write(s, fd, data).state, s.fds[fd];
    if Write(s, fd, data).code > 0 {
      assert FdOk(s.files, o);
      assert EntryOk(s.files[o.file], o.file);
      CountSet(s.files, o.file, s'.files[o.file]);
      SetEntry(s.files, s.fds, o.file, s'.files[o.file]);
      UpdateFd(s'.files, s.fds, fd, s'.fds[fd], s.owner);
      assert s'.fds[fd].dirty;
    }
  }

  // ---- fs_close ------------------------------------------------------------------------------

  /** Closing the writer's descriptor, or one that is not a writer's. */
  lemma CloseFd(files: seq<Entry>, fds: seq<Fd>, k: nat, owner: int)
    requires FdsOk(files, fds) && WriterOk(fds, owner) && k < |fds| && fds[k].used
    ensures
      var fds' := fds[k := fds[k].(used := false, dirty := false)];
      FdsOk(files, fds') && WriterOk(fds', if IsWriter(fds[k]) then -1 else owner)
  {
    var fds' := fds[k := fds[k].(used := false, dirty := false)];
    if owner != -1 {
      var w :| 0 <= w < |fds| && OnlyWriter(fds, w, owner);
      if w != k {
        assert OnlyWriter(fds', w, owner);
      }
    }
  }

  lemma CloseKeepsSound(s: State, fd: nat)
    requires Sound(s) && IsOpen(s, fd)
    ensures Sound(Close(s, fd)) && Close(s, fd).owner == (if IsWriter(s.fds[fd]) then -1 else s.owner)
  {
    var o := s.fds[fd];
    assert FdOk(s.files, o);
    CloseFd(s.files, s.fds, fd, s.owner);
    if IsWriter(o) {
      WriterOwns(s, fd);
    } else if s.owner != -1 {
      OwnerIsUsed(s);
      assert !o.dirty;
      var s' := Close(s, fd);
      assert forall k :: 0 <= k < MAX_FDS && k != fd ==> s'.fds[k] == s.fds[k];
    }
  }

  // ---- fs_delete and fs_format -----------------------------------------------------------------

  lemma CloseAllKeeps(files: seq<Entry>, fds: seq<Fd>, i: nat, owner: int)
    requires FdsOk(files, fds) && WriterOk(fds, owner) && -1 <= owner
    ensures FdsOk(files, CloseAll(fds, i)) && WriterOk(CloseAll(fds, i), if owner == i then -1 else owner)
    ensures forall k :: 0 <= k < |fds| && CloseAll(fds, i)[k].used ==> CloseAll(fds, i)[k].file != i
  {
    var fds' := CloseAll(fds, i);
    forall k | 0 <= k < |fds|
      ensures FdOk(files, fds'[k])
    {
      assert FdOk(files, fds[k]);
    }
    if owner != -1 {
      var w :| 0 <= w < |fds| && OnlyWriter(fds, w, owner);
      if owner != i {
        assert OnlyWriter(fds', w, owner);
      }
    }
  }

  lemma DeleteKeepsSound(s: State, n: seq<Byte>)
    requires Sound(s) && Find(s.files, n) < |s.files|
    ensures Sound(Delete(s, n))
  {
    var i := Find(s.files, n);
    RemoveKeeps(s, i);
    FlushKeeps(Removed(s, i));
  }

  lemma RemoveKeeps(s: State, i: nat)
    requires Sound(s) && i < |s.files| && s.files[i].used
    ensures Sound(Removed(s, i))
  {
    CloseAllKeeps(s.files, s.fds, i, s.owner);
    CountSet(s.files, i, FREE_ENTRY);
    SetEntry(s.files, CloseAll(s.fds, i), i, FREE_ENTRY);
    if s.owner != -1 && s.owner != i {
      DeleteKeepsDirty(s, i);
    }
  }

  /** The writer of another file keeps its pending data. */
  lemma DeleteKeepsDirty(s: State, i: nat)
    requires Sound(s) && s.owner != -1 && s.owner != i
    ensures forall k :: 0 <= k < |s.fds| && s.fds[k].dirty ==> CloseAll(s.fds, i)[k] == s.fds[k]
  {
    forall k | 0 <= k < |s.fds| && s.fds[k].dirty
      ensures CloseAll(s.fds, i)[k] == s.fds[k]
    {
      assert FdOk(s.files, s.fds[k]);
      WriterOwns(s, k);
    }
  }

  lemma {:induction false} CountFree(files: seq<Entry>)
    requires forall i :: 0 <= i < |files| ==> files[i] == FREE_ENTRY
    ensures CountUsed(files) == 0
  {
    if files != [] {
      CountFree(files[..|files| - 1]);
    }
  }

  lemma FormatKeepsSound(s: State)
    requires Shape(s)
    ensures Sound(Format(s)) && forall m :: View(Format(s), m) == Missing
  {
    CountFree(Format(s).files);
    assert forall k :: 0 <= k < MAX_FDS ==> !Format(s).fds[k].used;
  }
}
