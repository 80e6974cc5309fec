/**
 src/kernel/fs.c as it runs: tables scanned and updated in place, one shared buffer, flash
 sectors erased and programmed.  Every call is proved against `FsSpec`.
 */
module Fs {
  import opened Bytes
  import opened FsSpec
  import opened FsProps
  import opened FsSteps

  class FileSystem {
    const files: array<Entry>      // superblock_ram->files
    const fds: array<Fd>           // open_fds
    const buffer: array<Byte>      // fs_buffer
    const flash: array<Sector>     // the superblock's sector, then one per file
    const tail: seq<Byte>          // the don't-care bytes behind the superblock mirror
    var count: nat                 // superblock_ram->file_count
    var owner: int                 // scratch_owner
    ghost var erased: set<nat>     // sectors erased since they were last programmed

    ghost function Abs(): State
      requires buffer.Length == BLOCK_SIZE
      reads this, files, fds, buffer, flash
    {
      State(count, files[..], tail, fds[..], buffer[..], owner, flash[..])
    }

    ghost predicate Rep()
      reads this, files, fds, buffer, flash
    {
      && buffer.Length == BLOCK_SIZE && Shape(Abs())
      && forall s :: s in erased ==> s < flash.Length && flash[s] == Blank()
    }

    ghost predicate Valid()
      reads this, files, fds, buffer, flash
    {
      Rep() && Sound(Abs())
    }

    /** Power on: zeroed tables in front of whatever the flash sectors hold. */
    constructor (image: seq<Sector>, tail: seq<Byte>)
      requires 0 < |image| <= MAX_FILES + 1 && 12 + 32 * (|image| - 1) + |tail| == ProgSize(|image| - 1)
      ensures Valid() && flash[..] == image && erased == {} && owner == -1
      ensures forall i :: 0 <= i < files.Length ==> !files[i].used
      ensures fresh(files) && fresh(fds) && fresh(buffer) && fresh(flash)
    {
      files := new Entry[|image| - 1](_ => FREE_ENTRY);
      fds := new Fd[MAX_FDS](_ => Fd(false, false, 0, 0, 0));
      buffer := new Byte[BLOCK_SIZE](_ => 0);
      flash := new Sector[|image|](k requires 0 <= k < |image| => image[k]);
      this.tail := tail;
      count, owner, erased := 0, -1, {};
      new;
      CountFree(files[..]);
      assert flash[..] == image;
    }

    // ---- flash -------------------------------------------------------------------------------

    /** flash_erase_sector */
    method EraseSector(s: nat)
      requires Rep() && s < flash.Length
      modifies flash, `erased
      ensures Rep() && Abs() == old(Abs()).(flash := old(Abs()).flash[s := Blank()]) && erased == old(erased) + {s}
    {
      flash[s] := Blank();
      erased := erased + {s};
    }

    /** flash_range_program: only ever on a sector erased since it was last programmed. */
    method ProgramSector(s: nat, data: seq<Byte>)
      requires Rep() && s in erased && |data| <= BLOCK_SIZE
      modifies flash, `erased
      ensures Rep() && Abs() == old(Abs()).(flash := old(Abs()).flash[s := Programmed(Blank(), data)])
      ensures erased == old(erased) - {s}
    {
      flash[s] := Programmed(flash[s], data);
      erased := erased - {s};
    }

    /** superblock_flush */
    method SuperblockFlush()
      requires Rep()
      modifies flash, `erased
      ensures Rep() && Abs() == Flush(old(Abs()))
    {
      ImageFits(files.Length);
      var image := Image(count, files[..]) + tail;
      EraseSector(0);
      ProgramSector(0, image);
    }

    // ---- table scans -----------------------------------------------------------------------------

    /** find_file */
    method FindFile(name: seq<Byte>) returns (i: int)
      requires Rep()
      ensures Find(files[..], name) == (if i < 0 then files.Length else i) && -1 <= i < files.Length
    {
      i := 0;
      while i < files.Length
        invariant 0 <= i <= files.Length
        invariant forall k :: 0 <= k < i ==> !(files[..][k].used && files[..][k].name == name)
      {
        if files[i].used && files[i].name == name {
          FindIs(files[..], name, i);
          return;
        }
        i := i + 1;
      }
      FindIs(files[..], name, i);
      i := -1;
    }

    /** alloc_file_entry */
    method AllocFileEntry() returns (i: int)
      requires Rep()
      ensures FirstUnused(files[..]) == (if i < 0 then files.Length else i) && -1 <= i < files.Length
    {
      i := 0;
      while i < files.Length
        invariant 0 <= i <= files.Length
        invariant forall k :: 0 <= k < i ==> files[..][k].used
      {
        if !files[i].used {
          return;
        }
        i := i + 1;
      }
      i := -1;
    }

    /** alloc_open_fd */
    method AllocOpenFd() returns (k: int)
      requires Rep()
      ensures FirstFd(fds[..]) == (if k < 0 then MAX_FDS else k) && -1 <= k < MAX_FDS
    {
      k := 0;
      while k < MAX_FDS
        invariant 0 <= k <= MAX_FDS
        invariant forall j :: 0 <= j < k ==> fds[..][j].used
      {
        if !fds[k].used {
          return;
        }
        k := k + 1;
      }
      k := -1;
    }

    // ---- fs_open -------------------------------------------------------------------------------------

    /** The first half of fs_open: find the file, or create it and persist the directory. */
    method LocateFile(n: seq<Byte>, mode: bv32) returns (i: int)
      requires Rep() && 0 !in n
      modifies this, files, flash
      ensures Rep() && Outcome(Abs(), i) == OpenFile(old(Abs()), n, mode)
    {
      i := FindFile(n);
      if i < 0 {
        if mode & 0x04 == 0 {
          return -1;
        }
        i := AllocFileEntry();
        if i < 0 {
          return -1;
        }
        CreateEntry(n, i);
        SuperblockFlush();
      }
    }

    method CreateEntry(n: seq<Byte>, i: nat)
      requires Rep() && 0 !in n && i < files.Length
      modifies this`count, files
      ensures Rep() && Abs() == Created(old(Abs()), n, i)
    {
      ghost var s := Abs();
      files[i] := Entry(true, if |n| < 16 then n else n[..15], 0, i, 1);
      count := (count + 1) % TWO_TO_THE_32;
      assert Abs() == Created(s, n, i);
    }

    /** Claim the buffer for file i: blank when truncating, else the file's sector. */
    method ClaimBuffer(i: nat, mode: bv32)
      requires Rep() && i < files.Length
      modifies this`owner, files, buffer
      ensures Rep() && Abs() == Claim(old(Abs()), i, mode)
    {
      ghost var s := Abs();
      owner := i;
      if mode & 0x08 != 0 {
        forall k | 0 <= k < BLOCK_SIZE {
          buffer[k] := 0;
        }
        files[i] := files[i].(size := 0);
        assert buffer[..] == seq(BLOCK_SIZE, _ => 0);
      } else {
        forall k | 0 <= k < BLOCK_SIZE {
          buffer[k] := flash[1 + i][k];
        }
        assert buffer[..] == s.flash[1 + i];
      }
      assert Abs() == Claim(s, i, mode);
    }

    /** The second half of fs_open. */
    method OpenAt(i: nat, mode: bv32) returns (fd: int)
      requires Rep() && i < files.Length
      modifies this`owner, files, buffer, fds
      ensures Rep() && Outcome(Abs(), fd) == OpenOn(old(Abs()), i, mode)
    {
      var writing := mode & 0x02 != 0;
      if writing {
        if owner != -1 {
          return -1;
        }
        ClaimBuffer(i, mode);
      }
      fd := AllocOpenFd();
      if fd < 0 {
        if writing {
          owner := -1;
        }
        return;
      }
      var pos := 0;
      if writing && mode & 0x10 != 0 {
        pos := files[i].size;
      }
      fds[fd] := Fd(true, false, i, pos, mode);
    }

    /** The test on the first character in fs_open and fs_delete. */
    method WithoutSlash(name: seq<Byte>) returns (n: seq<Byte>)
      requires 0 !in name
      ensures n == Strip(name) && 0 !in n && forall m :: Denotes(name, m) <==> m == n
    {
      n := name;
      if |n| > 0 && n[0] == 47 {
        n := n[1..];
      }
      forall m
        ensures Denotes(name, m) <==> m == n
      {
        StripDenotes(name, m);
      }
    }

    /** fs_open */
    method Open(name: seq<Byte>, mode: bv32) returns (fd: int)
      requires Valid() && 0 !in name
      modifies this, files, flash, buffer, fds
      ensures Rep() && Outcome(Abs(), fd) == OpenCall(old(Abs()), name, mode)
      ensures forall n :: Denotes(name, n) ==> Outcome(Abs(), fd) == FsSpec.Open(old(Abs()), n, mode)
      ensures Valid()
    {
      var n := WithoutSlash(name);
      OpenKeepsSound(Abs(), n, mode);
      var i := LocateFile(n, mode);
      if i < 0 {
        return -1;
      }
      fd := OpenAt(i, mode);
    }

    // ---- fs_read and fs_write ---------------------------------------------------------------------------

    /** fs_read; the bytes it copies out are data. */
    method Read(fd: int, n: nat) returns (result: int, data: seq<Byte>)
      requires Valid()
      modifies fds
      ensures Valid()
      ensures !IsOpen(old(Abs()), fd) ==> result == -1 && data == [] && Abs() == old(Abs())
      ensures IsOpen(old(Abs()), fd) ==>
                && old(Abs()).files[old(Abs()).fds[fd].file].size <= BLOCK_SIZE
                && (Abs(), data) == FsSpec.Read(old(Abs()), fd, n) && result == |data|
    {
      result, data := -1, [];
      ghost var s := Abs();
      if fd < 0 || fd >= MAX_FDS || !fds[fd].used {
        return;
      }
      assert FdOk(s.files, s.fds[fd]);
      assert EntryOk(s.files[s.fds[fd].file], s.fds[fd].file);
      ReadKeepsSound(s, fd, n);
      data := ReadOut(fd, n);
      result := |data|;
    }

    /** The locked section of fs_read. */
    method ReadOut(fd: nat, n: nat) returns (data: seq<Byte>)
      requires Rep() && IsOpen(Abs(), fd) && files[fds[fd].file].size <= BLOCK_SIZE
      modifies fds
      ensures Rep() && (Abs(), data) == FsSpec.Read(old(Abs()), fd, n)
    {
      ghost var s := Abs();
      data := [];
      if n == 0 {
        return;
      }
      var o := fds[fd];
      var size := files[o.file].size;
      var available := if size > o.pos then size - o.pos else 0;
      var toRead := if n < available then n else available;
      if toRead > 0 {
        if o.file == owner && o.dirty {
          data := buffer[o.pos..o.pos + toRead];
        } else {
          data := flash[1 + o.file][o.pos..o.pos + toRead];
        }
        fds[fd] := o.(pos := o.pos + toRead);
        assert Abs() == FsSpec.Read(s, fd, n).0;
      }
    }

    /** fs_write */
    method Write(fd: int, data: seq<Byte>) returns (result: int)
      requires Valid()
      modifies fds, files, buffer
      ensures Valid()
      ensures !IsOpen(old(Abs()), fd) ==> result == -1 && Abs() == old(Abs())
      ensures IsOpen(old(Abs()), fd) ==> Outcome(Abs(), result) == FsSpec.Write(old(Abs()), fd, data)
    {
      result := -1;
      if fd < 0 || fd >= MAX_FDS || !fds[fd].used {
        return;
      }
      assert FdOk(Abs().files, Abs().fds[fd]);
      WriteKeepsSound(Abs(), fd, data);
      result := WriteIn(fd, data);
    }

    /** The locked section of fs_write. */
    method WriteIn(fd: nat, data: seq<Byte>) returns (result: int)
      requires Rep() && IsOpen(Abs(), fd)
      modifies fds, files, buffer
      ensures Rep() && Outcome(Abs(), result) == FsSpec.Write(old(Abs()), fd, data)
    {
      result := -1;
      if data == [] {
        return 0;
      }
      if fds[fd].mode & 0x02 != 0 {
        var remaining := if BLOCK_SIZE > fds[fd].pos then BLOCK_SIZE - fds[fd].pos else 0;
        var toWrite := if |data| < remaining then |data| else remaining;
        if toWrite > 0 {
          Accumulate(fd, data[..toWrite]);
          result := toWrite;
        }
      }
    }

    /** Copy the bytes into the buffer and move the descriptor, and the file's end, behind them. */
    method Accumulate(fd: nat, data: seq<Byte>)
      requires Rep() && IsOpen(Abs(), fd) && Writing(fds[fd].mode) && 0 < |data| && fds[fd].pos + |data| <= BLOCK_SIZE
      modifies fds, files, buffer
      ensures Rep() && Abs() == FsSpec.Write(old(Abs()), fd, data).state
    {
      ghost var s := Abs();
      var o := fds[fd];
      assert Encodable(s.files[o.file]);
      forall k | 0 <= k < |data| {
        buffer[o.pos + k] := data[k];
      }
      assert buffer[..] == s.buffer[..o.pos] + data + s.buffer[o.pos + |data|..];
      var pos := o.pos + |data|;
      fds[fd] := o.(pos := pos, dirty := true);
      if pos > files[o.file].size {
        files[o.file] := files[o.file].(size := pos);
      }
      assert data[..|data|] == data;
      assert Abs() == FsSpec.Write(s, fd, data).state;
    }

    // ---- fs_close, fs_delete, fs_format, fs_init ------------------------------------------------------------

    /** fs_close */
    method Close(fd: int) returns (rc: int)
      requires Valid()
      modifies this`owner, this`erased, fds, flash
      ensures Valid()
      ensures !IsOpen(old(Abs()), fd) ==> rc == -1 && Abs() == old(Abs())
      ensures IsOpen(old(Abs()), fd) ==> rc == 0 && Abs() == FsSpec.Close(old(Abs()), fd)
    {
      if fd < 0 || fd >= MAX_FDS || !fds[fd].used {
        return -1;
      }
      assert FdOk(Abs().files, Abs().fds[fd]);
      CloseKeepsSound(Abs(), fd);
      CloseOpen(fd);
      rc := 0;
    }

    method CloseOpen(fd: nat)
      requires Rep() && IsOpen(Abs(), fd)
      modifies this`owner, this`erased, fds, flash
      ensures Rep() && Abs() == FsSpec.Close(old(Abs()), fd)
    {
      ghost var s := Abs();
      var o := fds[fd];
      if o.dirty {
        Commit(o.file);
        SuperblockFlush();
      }
      if o.mode & 0x02 != 0 && owner == o.file {
        owner := -1;
      }
      fds[fd] := o.(used := false, dirty := false);
      assert Abs() == FsSpec.Close(s, fd);
    }

    /** The erase and program of fs_close. */
    method Commit(i: nat)
      requires Rep() && i < files.Length
      modifies this`owner, this`erased, flash
      ensures Rep() && Abs() == Committed(old(Abs()), i)
    {
      EraseSector(1 + i);
      ProgramSector(1 + i, buffer[..]);
      owner := -1;
    }

    /** Force-close the descriptors of file i. */
    method CloseFds(i: nat)
      requires Rep()
      modifies fds
      ensures Rep() && Abs() == old(Abs()).(fds := CloseAll(old(Abs()).fds, i))
    {
      ghost var s := Abs();
      var k := 0;
      while k < MAX_FDS
        invariant 0 <= k <= MAX_FDS
        invariant forall j :: 0 <= j < MAX_FDS ==> fds[j] == if j < k then CloseAll(s.fds, i)[j] else s.fds[j]
      {
        if fds[k].used && fds[k].file == i {
          fds[k] := fds[k].(used := false, dirty := false);
        }
        k := k + 1;
      }
      assert fds[..] == CloseAll(s.fds, i);
    }

    /** fs_delete */
    method Delete(name: seq<Byte>) returns (rc: int)
      requires Valid() && 0 !in name
      modifies this, fds, files, flash
      ensures Valid()
      ensures rc == if Find(old(Abs()).files, Strip(name)) < |old(Abs()).files| then 0 else -1
      ensures forall n :: Denotes(name, n) ==>
                if Find(old(Abs()).files, n) < |old(Abs()).files| then
                  rc == 0 && Abs() == FsSpec.Delete(old(Abs()), n)
                else rc == -1 && Abs() == old(Abs())
    {
      var n := WithoutSlash(name);
      var i := FindFile(n);
      if i < 0 {
        return -1;
      }
      DeleteKeepsSound(Abs(), n);
      RemoveFile(i);
      SuperblockFlush();
      rc := 0;
    }

    method RemoveFile(i: nat)
      requires Rep() && i < files.Length
      modifies this, fds, files, flash
      ensures Rep() && Abs() == Removed(old(Abs()), i)
    {
      ghost var s := Abs();
      CloseFds(i);
      if owner == i {
        owner := -1;
      }
      files[i] := FREE_ENTRY;
      if count > 0 {
        count := count - 1;
      }
      assert AllEncodable(files[..]);
      EraseSector(1 + i);
      assert Abs() == Removed(s, i);
    }

    /** The loops of fs_format: close every descriptor, erase every sector, empty the directory. */
    method WipeAll()
      requires Rep()
      modifies this, fds, files, flash
      ensures Rep() && Abs() == Wiped(old(Abs()))
    {
      ghost var s := Abs();
      var k := 0;
      while k < MAX_FDS
        invariant 0 <= k <= MAX_FDS && Rep() && Abs() == s.(fds := fds[..])
        invariant forall j :: 0 <= j < MAX_FDS ==> fds[j] == if j < k then s.fds[j].(used := false, dirty := false)
                  else s.fds[j]
      {
        fds[k] := fds[k].(used := false, dirty := false);
        k := k + 1;
      }
      owner := -1;
      EraseAll();
      forall i | 0 <= i < files.Length {
        files[i] := FREE_ENTRY;
      }
      count := 0;
      assert files[..] == Wiped(s).files && fds[..] == Wiped(s).fds;
    }

    method EraseAll()
      requires Rep()
      modifies flash, `erased
      ensures Rep() && Abs() == old(Abs()).(flash := seq(|old(Abs()).flash|, _ => Blank()))
      ensures forall k :: 0 <= k < flash.Length ==> k in erased
    {
      ghost var s := Abs();
      var k := 0;
      while k < flash.Length
        invariant 0 <= k <= flash.Length && Rep()
        invariant forall j :: 0 <= j < k ==> flash[j] == Blank() && j in erased
        invariant Abs() == s.(flash := flash[..])
      {
        EraseSector(k);
        k := k + 1;
      }
      assert flash[..] == seq(|s.flash|, _ => Blank());
    }

    /** fs_format */
    method Format()
      requires Rep()
      modifies this, fds, files, flash
      ensures Rep() && Abs() == FsSpec.Format(old(Abs()))
      ensures Valid()
    {
      FormatKeepsSound(Abs());
      WipeAll();
      SuperblockFlush();
    }

    /** fs_init: load the directory from flash, or format when there is none. */
    method Init()
      requires Rep()
      modifies this, fds, files, flash
      ensures buffer.Length == BLOCK_SIZE && Abs() == FsSpec.Init(old(Abs()))
      ensures AllEncodable(Abs().files) ==> Rep()
    {
      ghost var s := Abs();
      ImageFits(files.Length);
      forall k | 0 <= k < MAX_FDS {
        fds[k] := Fd(false, false, 0, 0, 0);
      }
      owner := -1;
      assert fds[..] == seq(MAX_FDS, _ => Fd(false, false, 0, 0, 0));
      if Word(flash[0], 0) == 0x50494353 && Word(flash[0], 4) == 1 {
        var loaded := DecodeFiles(flash[0][12..], files.Length);
        forall i | 0 <= i < files.Length {
          files[i] := loaded[i];
        }
        assert files[..] == loaded;
        count := Word(flash[0], 8);
      } else {
        Format();
      }
    }
  }
}
