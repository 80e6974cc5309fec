/**
 fs_open and fs_delete as their callers see them: names with or without a leading slash, modes as
 bits, and the directory entry and descriptor a call ends up with.
 */
module FsNames {
  import opened Bytes
  import opened FsSpec
  import opened FsProps
  import opened FsSteps
  import opened FsViews
  import opened FsRuns

  /** A file of this name is stored. */
  ghost predicate Known(files: seq<Entry>, n: seq<Byte>) {
    exists i :: 0 <= i < |files| && files[i].used && files[i].name == n
  }

  lemma KnownIs(files: seq<Entry>, n: seq<Byte>)
    ensures Known(files, n) <==> Find(files, n) < |files|
  {
  }

  lemma SomeFree(files: seq<Entry>, fds: seq<Fd>)
    ensures FirstUnused(files) < |files| <==> exists i :: 0 <= i < |files| && !files[i].used
    ensures FirstFd(fds) < |fds| <==> exists k :: 0 <= k < |fds| && !fds[k].used
  {
  }

  /** When fs_open succeeds: bit 2 asks for creation, bit 1 for the one write buffer. */
  lemma OpenCallSucceedsIff(s: State, name: seq<Byte>, n: seq<Byte>, mode: bv32)
    requires Sound(s) && 0 !in name && Denotes(name, n)
    ensures
      OpenCall(s, name, mode).code >= 0 <==>
        && (Known(s.files, n) || (mode & 0x04 != 0 && exists i :: 0 <= i < |s.files| && !s.files[i].used))
        && (mode & 0x02 == 0 || s.owner == -1)
        && (exists k :: 0 <= k < 8 && !s.fds[k].used)
  {
    StripDenotes(name, n);
    KnownIs(s.files, n);
    SomeFree(s.files, s.fds);
    OpenSucceedsIff(s, n, mode);
  }

  /**
   What a successful fs_open returns: a descriptor that was free, on the file of that name, or on a
   new empty one whose name is cut to 15 characters.  Bit 3 empties the file, bit 4 starts at its end.
   */
  lemma OpenCallReaches(s: State, name: seq<Byte>, n: seq<Byte>, mode: bv32)
    requires Sound(s) && 0 !in name && Denotes(name, n) && OpenCall(s, name, mode).code >= 0
    ensures
      var (e, fd) := (OpenCall(s, name, mode).state, OpenCall(s, name, mode).code);
      var o := e.fds[fd];
      && |e.fds| == |s.fds| && |e.files| == |s.files| && !s.fds[fd].used && o.used && o.mode == mode
      && o.file < |e.files|
      && (var (was, f) := (s.files[o.file], e.files[o.file]);
          && f.used && f.name == (if |n| <= 15 then n else n[..15])
          && (if Known(s.files, n) then was.used && was.name == n else !was.used)
          && f.size == (if was.used && (mode & 0x02 == 0 || mode & 0x08 == 0) then was.size else 0)
          && o.pos == (if mode & 0x02 != 0 && mode & 0x10 != 0 then f.size else 0)
          && e.owner == (if mode & 0x02 != 0 then o.file else s.owner))
  {
    StripDenotes(name, n);
    KnownIs(s.files, n);
    if |n| > 15 {
      LongIsMissing(s.files, n);
    }
  }

  /** One leading slash makes no difference. */
  lemma SlashIsOptional(s: State, a: seq<Byte>, mode: bv32)
    requires Sound(s) && 0 !in a && (a == [] || a[0] != 47)
    ensures OpenCall(s, [47] + a, mode) == OpenCall(s, a, mode)
    ensures Step(s, DoOpen([47] + a, mode)) == Step(s, DoOpen(a, mode))
    ensures Step(s, DoDelete([47] + a)) == Step(s, DoDelete(a))
  {
    StripDenotes([47] + a, a);
    StripDenotes(a, a);
  }

  /** Two opens reach the same file exactly if they name the same file, slash or not. */
  lemma SameFileIff(s: State, a: seq<Byte>, n: seq<Byte>, b: seq<Byte>, m: seq<Byte>, mode: bv32, mode': bv32)
    requires Sound(s) && 0 !in a && 0 !in b && Denotes(a, n) && Denotes(b, m) && |n| <= 15 && |m| <= 15
    requires OpenCall(s, a, mode).code >= 0 && OpenCall(OpenCall(s, a, mode).state, b, mode').code >= 0
    ensures
      var first := OpenCall(s, a, mode);
      var second := OpenCall(first.state, b, mode');
      && |first.state.fds| == |second.state.fds| == 8
      && (second.state.fds[second.code].file == first.state.fds[first.code].file <==> n == m)
  {
    var first := OpenCall(s, a, mode);
    StripDenotes(a, n);
    StripDenotes(b, m);
    OpenKeepsSound(s, n, mode);
    OpenCallReaches(s, a, n, mode);
    OpenKeepsSound(first.state, m, mode');
    OpenCallReaches(first.state, b, m, mode');
    OpenDescriptor(s, n, mode);
    OpenDescriptor(first.state, m, mode');
    if n == m {
      StillFound(first.state, m, mode');
    }
  }

  /** Opening a stored name does not move it. */
  lemma StillFound(s: State, n: seq<Byte>, mode: bv32)
    requires Sound(s) && 0 !in n && Find(s.files, n) < |s.files|
    ensures Find(Open(s, n, mode).state.files, n) == Find(s.files, n)
  {
    var i := Find(s.files, n);
    FindIs(Open(s, n, mode).state.files, n, i);
  }

  predicate Erased(sector: Sector) {
    forall k :: 0 <= k < 4096 ==> sector[k] == 255
  }

  /** File i is gone: its entry free, its sector erased, its descriptors closed, its unsaved bytes dropped. */
  ghost predicate Gone(s: State, e: State, i: nat)
    requires Shape(s) && Shape(e) && i < |s.files| == |e.files|
  {
    && e.files == s.files[i := FREE_ENTRY]
    && Erased(e.flash[1 + i])
    && (forall k :: 0 <= k < 8 ==> (e.fds[k].used <==> s.fds[k].used && s.fds[k].file != i))
    && e.owner == (if s.owner == i then -1 else s.owner)
    && forall j :: 0 < j < |s.flash| && j != 1 + i ==> e.flash[j] == s.flash[j]
  }

  /** fs_delete removes a file of that name and touches no other. */
  lemma DeleteCallFrees(s: State, name: seq<Byte>, n: seq<Byte>, e: State)
    requires Sound(s) && 0 !in name && Denotes(name, n) && e == Step(s, DoDelete(name))
    ensures Shape(e) && |e.files| == |s.files|
    ensures if Known(s.files, n)
            then exists i :: 0 <= i < |s.files| && s.files[i].used && s.files[i].name == n && Gone(s, e, i)
            else e == s
  {
    StripDenotes(name, n);
    KnownIs(s.files, n);
    if Known(s.files, n) {
      var i := Find(s.files, n);
      assert Gone(s, e, i);
    }
  }

  /** fs_write needs bit 1 and room in the sector, and says how much it took. */
  lemma WriteResult(s: State, fd: nat, data: seq<Byte>)
    requires Shape(s) && IsOpen(s, fd)
    ensures
      var (o, r) := (s.fds[fd], Write(s, fd, data));
      && r.code == (if data == [] then 0 else if o.mode & 0x02 == 0 || o.pos >= 4096 then -1
                    else if o.pos + |data| <= 4096 then |data| else 4096 - o.pos)
      && (r.code <= 0 ==> r.state == s)
      && (r.code > 0 ==> r.state.fds[fd].pos == o.pos + r.code)
  {
  }
}
