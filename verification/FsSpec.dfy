/**
 The flash filesystem of src/kernel/fs.c on values: the superblock mirror, the open
 descriptors, the one write buffer, and NOR flash.  `Fs` proves the code against these
 functions and `FsProps` proves what they promise.
 */
module FsSpec {
  import opened Bytes

  const BLOCK_SIZE: nat := 4096
  const PAGE_SIZE: nat := 256
  const MAX_FDS: nat := 8
  const NAME_MAX: nat := 16
  const MAX_FILES: nat := 127
  const MAGIC: nat := 0x50494353
  const VERSION: nat := 1

  // ---- NOR flash -----------------------------------------------------------------------

  /** Bitwise AND of the lowest bits bits. */
  function And(a: nat, b: nat, bits: nat): (r: nat)
    ensures r <= a
  {
    if bits == 0 then 0 else (a % 2) * (b % 2) + 2 * And(a / 2, b / 2, bits - 1)
  }

  function Pow2(n: nat): nat {
    if n == 0 then 1 else 2 * Pow2(n - 1)
  }

  /** AND with all ones changes nothing. */
  lemma {:induction false} AndOnes(b: nat, bits: nat)
    requires b < Pow2(bits)
    ensures And(Pow2(bits) - 1, b, bits) == b
  {
    if bits > 0 {
      AndOnes(b / 2, bits - 1);
    }
  }

  /** Bit i of a number. */
  predicate IsSet(a: nat, i: nat) {
    if i == 0 then a % 2 == 1 else IsSet(a / 2, i - 1)
  }

  lemma {:induction false} AndBits(a: nat, b: nat, bits: nat, i: nat)
    requires i < bits
    ensures IsSet(And(a, b, bits), i) <==> IsSet(a, i) && IsSet(b, i)
  {
    var rest := And(a / 2, b / 2, bits - 1);
    assert a % 2 == 1 && b % 2 == 1 ==> And(a, b, bits) == 1 + 2 * rest;
    assert a % 2 == 0 || b % 2 == 0 ==> And(a, b, bits) == 2 * rest;
    if i > 0 {
      AndBits(a / 2, b / 2, bits - 1, i - 1);
    }
  }

  const ERASED: Byte := 255

  type Sector = s: seq<Byte> | |s| == BLOCK_SIZE witness seq(BLOCK_SIZE, _ => 0)

  function Blank(): Sector {
    seq(BLOCK_SIZE, _ => ERASED)
  }

  /** flash_range_program clears bits: every byte becomes the AND of old and new. */
  function Programmed(before: Sector, data: seq<Byte>): (r: Sector)
    requires |data| <= BLOCK_SIZE
  {
    seq(BLOCK_SIZE, k requires 0 <= k < BLOCK_SIZE => if k < |data| then And(before[k], data[k], 8) else before[k])
  }

  /** NOR flash: programming only ever clears bits, and only under the data. */
  lemma ProgramClears(before: Sector, data: seq<Byte>, k: nat, i: nat)
    requires |data| <= BLOCK_SIZE && k < |before| && i < 8
    ensures IsSet(Programmed(before, data)[k], i) <==> IsSet(before[k], i) && (k < |data| ==> IsSet(data[k], i))
  {
    if k < |data| {
      AndBits(before[k], data[k], 8, i);
    }
  }

  /** On an erased sector, programming stores the data. */
  lemma ProgramBlank(data: seq<Byte>)
    requires |data| <= BLOCK_SIZE
    ensures Programmed(Blank(), data) == data + Blank()[|data|..]
  {
    var r := Programmed(Blank(), data);
    forall k | 0 <= k < |data|
      ensures r[k] == data[k]
    {
      assert Pow2(8) == 256;
      AndOnes(data[k], 8);
    }
  }

  // ---- the directory ---------------------------------------------------------------------

  /** fs_entry_t; the name without its NUL padding. */
  datatype Entry = Entry(used: bool, name: seq<Byte>, size: nat, startBlock: nat, blockCount: nat)

  const FREE_ENTRY := Entry(false, [], 0, 0, 0)

  datatype Fd = Fd(used: bool, dirty: bool, file: nat, pos: nat, mode: bv32)

  datatype State = State(
    count: nat,              // superblock_ram->file_count
    files: seq<Entry>,       // superblock_ram->files
    tail: seq<Byte>,         // what pads the mirror to whole pages
    fds: seq<Fd>,            // open_fds
    buffer: Sector,          // fs_buffer
    owner: int,              // scratch_owner
    flash: seq<Sector>)      // the superblock's sector, then one per file

  /** The state after a call, and its return value. */
  datatype Outcome = Outcome(state: State, code: int)

  function Strip(name: seq<Byte>): seq<Byte> {
    if name != [] && name[0] == 47 then name[1..] else name
  }

  /** A caller's name stands for file n: one leading slash is dropped. */
  predicate Denotes(name: seq<Byte>, n: seq<Byte>) {
    name == [47] + n || (name == n && (n == [] || n[0] != 47))
  }

  lemma StripDenotes(name: seq<Byte>, n: seq<Byte>)
    ensures Denotes(name, n) <==> Strip(name) == n
    ensures 0 !in name && Denotes(name, n) ==> 0 !in n
  {
    assert name != [] ==> name == [name[0]] + name[1..];
  }

  /** What strncpy leaves of a name in a directory entry. */
  function Stored(name: seq<Byte>): seq<Byte> {
    if |name| < NAME_MAX then name else name[..NAME_MAX - 1]
  }

  /** find_file, with the number of slots for "not found". */
  function Find(files: seq<Entry>, name: seq<Byte>): (i: nat)
    ensures i <= |files|
    ensures i < |files| ==> files[i].used && files[i].name == name
    ensures forall k :: 0 <= k < i ==> !(files[k].used && files[k].name == name)
  {
    if files == [] || (files[0].used && files[0].name == name) then 0 else 1 + Find(files[1..], name)
  }

  /** alloc_file_entry, with the number of slots for "directory full". */
  function FirstUnused(files: seq<Entry>): (i: nat)
    ensures i <= |files|
    ensures i < |files| ==> !files[i].used
    ensures forall k :: 0 <= k < i ==> files[k].used
  {
    if files == [] || !files[0].used then 0 else 1 + FirstUnused(files[1..])
  }

  /** alloc_open_fd, with the number of slots for "table full". */
  function FirstFd(fds: seq<Fd>): (k: nat)
    ensures k <= |fds|
    ensures k < |fds| ==> !fds[k].used
    ensures forall j :: 0 <= j < k ==> fds[j].used
  {
    if fds == [] || !fds[0].used then 0 else 1 + FirstFd(fds[1..])
  }

  // ---- the on-flash superblock --------------------------------------------------------------

  /** A name padded with NULs to its field. */
  function Pad(name: seq<Byte>): (r: seq<Byte>)
    requires |name| <= NAME_MAX
    ensures |r| == NAME_MAX
  {
    name + seq(NAME_MAX - |name|, _ => 0)
  }

  function UpToNul(b: seq<Byte>): (r: seq<Byte>)
    ensures |r| <= |b|
  {
    if b == [] || b[0] == 0 then [] else [b[0]] + UpToNul(b[1..])
  }

  predicate Encodable(e: Entry) {
    && |e.name| < NAME_MAX && 0 !in e.name
    && e.size < TWO_TO_THE_32 && e.startBlock < TWO_TO_THE_32 && e.blockCount < TWO_TO_THE_32
  }

  /** The 32 bytes of an fs_entry_t. */
  function EncodeEntry(e: Entry): (r: seq<Byte>)
    requires Encodable(e)
    ensures |r| == 32
  {
    [if e.used then 1 else 0] + Pad(e.name) + [0, 0, 0]
    + BytesOf(e.size) + BytesOf(e.startBlock) + BytesOf(e.blockCount)
  }

  function DecodeEntry(b: seq<Byte>): Entry
    requires |b| == 32
  {
    Entry(b[0] != 0, UpToNul(b[1..17]), Value(b[20..24]), Value(b[24..28]), Value(b[28..32]))
  }

  ghost predicate AllEncodable(files: seq<Entry>) {
    forall i :: 0 <= i < |files| ==> Encodable(files[i])
  }

  function EncodeFiles(files: seq<Entry>): (r: seq<Byte>)
    requires AllEncodable(files)
    ensures |r| == 32 * |files|
  {
    if files == [] then [] else EncodeEntry(files[0]) + EncodeFiles(files[1..])
  }

  function DecodeFiles(b: seq<Byte>, n: nat): (r: seq<Entry>)
    requires |b| >= 32 * n
    ensures |r| == n
  {
    if n == 0 then [] else [DecodeEntry(b[..32])] + DecodeFiles(b[32..], n - 1)
  }

  /** fs_superblock_t as bytes. */
  function Image(count: nat, files: seq<Entry>): (r: seq<Byte>)
    requires count < TWO_TO_THE_32 && AllEncodable(files)
    ensures |r| == 12 + 32 * |files|
  {
    BytesOf(MAGIC) + BytesOf(VERSION) + BytesOf(count) + EncodeFiles(files)
  }

  /** SUPERBLOCK_PROG_SIZE */
  function ProgSize(n: nat): nat {
    (12 + 32 * n + PAGE_SIZE - 1) / PAGE_SIZE * PAGE_SIZE
  }

  lemma ImageFits(n: nat)
    requires n <= MAX_FILES
    ensures 12 + 32 * n <= ProgSize(n) <= BLOCK_SIZE
  {
  }

  /** The directory fits into its one sector for up to 127 files. */
  lemma DirectoryFitsIff(n: nat)
    ensures ProgSize(n) <= 4096 <==> n <= 127
    ensures ProgSize(n) <= BLOCK_SIZE <==> n <= MAX_FILES
    ensures ProgSize(n) % 256 == 0 && 12 + 32 * n <= ProgSize(n) < 12 + 32 * n + 256
  {
  }

  ghost predicate Shape(s: State) {
    && |s.files| <= MAX_FILES && |s.fds| == MAX_FDS && |s.flash| == |s.files| + 1
    && 12 + 32 * |s.files| + |s.tail| == ProgSize(|s.files|)
    && -1 <= s.owner < |s.files|
    && s.count < TWO_TO_THE_32 && AllEncodable(s.files)
  }

  // ---- the operations ------------------------------------------------------------------------

  /** superblock_flush: erase, then program the padded mirror. */
  function Flush(s: State): (r: State)
    requires Shape(s)
    ensures Shape(r)
  {
    ImageFits(|s.files|);
    s.(flash := s.flash[0 := Programmed(Blank(), Image(s.count, s.files) + s.tail)])
  }

  /** Every descriptor closed, every sector erased, the directory empty. */
  function Wiped(s: State): (r: State)
    requires Shape(s)
    ensures Shape(r)
  {
    s.(count := 0, files := seq(|s.files|, _ => FREE_ENTRY), owner := -1,
       fds := seq(MAX_FDS, k requires 0 <= k < MAX_FDS => s.fds[k].(used := false, dirty := false)),
       flash := seq(|s.flash|, _ => Blank()))
  }

  /** fs_format */
  function Format(s: State): (r: State)
    requires Shape(s)
    ensures Shape(r)
  {
    Flush(Wiped(s))
  }

  /** The superblock on flash is recognised as valid. */
  predicate Mountable(sector: Sector) {
    Value(sector[0..4]) == MAGIC && Value(sector[4..8]) == VERSION
  }

  /** fs_init */
  function Init(s: State): State
    requires Shape(s)
  {
    var closed := s.(fds := seq(MAX_FDS, _ => Fd(false, false, 0, 0, 0)), owner := -1);
    if Mountable(s.flash[0]) then
      closed.(count := Value(s.flash[0][8..12]), files := DecodeFiles(s.flash[0][12..], |s.files|))
    else Format(closed)
  }

  predicate Writing(mode: bv32) { mode & 0x02 != 0 }
  predicate Creating(mode: bv32) { mode & 0x04 != 0 }
  predicate Truncating(mode: bv32) { mode & 0x08 != 0 }
  predicate Appending(mode: bv32) { mode & 0x10 != 0 }

  /** A new, empty file in slot j. */
  function Created(s: State, n: seq<Byte>, j: nat): (r: State)
    requires Shape(s) && 0 !in n && j < |s.files|
    ensures Shape(r)
  {
    s.(files := s.files[j := Entry(true, Stored(n), 0, j, 1)], count := (s.count + 1) % TWO_TO_THE_32)
  }

  /** The file fs_open works on: found, created, or -1. */
  function OpenFile(s: State, n: seq<Byte>, mode: bv32): (r: Outcome)
    requires Shape(s) && 0 !in n
    ensures Shape(r.state) && |r.state.files| == |s.files| && -1 <= r.code < |s.files|
    ensures r.code >= 0 ==> r.state.files[r.code].used
  {
    var i, j := Find(s.files, n), FirstUnused(s.files);
    if i < |s.files| then Outcome(s, i)
    else if !Creating(mode) || j == |s.files| then Outcome(s, -1)
    else Outcome(Flush(Created(s, n, j)), j)
  }

  /** A write-mode open takes the buffer over. */
  function Claim(s: State, i: nat, mode: bv32): (r: State)
    requires Shape(s) && i < |s.files|
    ensures Shape(r)
  {
    if Truncating(mode) then
      s.(owner := i, buffer := seq(BLOCK_SIZE, _ => 0), files := s.files[i := s.files[i].(size := 0)])
    else s.(owner := i, buffer := s.flash[1 + i])
  }

  /** fs_open, for a name already stripped of its leading slash. */
  function Open(s: State, n: seq<Byte>, mode: bv32): (r: Outcome)
    requires Shape(s) && 0 !in n
    ensures Shape(r.state) && |r.state.files| == |s.files| && -1 <= r.code < MAX_FDS
    ensures r.code >= 0 ==> r.state.fds[r.code].used
  {
    var Outcome(s1, i) := OpenFile(s, n, mode);
    if i < 0 then Outcome(s1, -1) else OpenOn(s1, i, mode)
  }

  /** fs_open */
  function OpenCall(s: State, name: seq<Byte>, mode: bv32): (r: Outcome)
    requires Shape(s) && 0 !in name
    ensures Shape(r.state) && -1 <= r.code < MAX_FDS
  {
    Open(s, Strip(name), mode)
  }

  /** The rest of fs_open, once file i has been found or created. */
  function OpenOn(s: State, i: nat, mode: bv32): (r: Outcome)
    requires Shape(s) && i < |s.files|
    ensures Shape(r.state) && |r.state.files| == |s.files| && -1 <= r.code < MAX_FDS
    ensures r.code >= 0 ==> r.state.fds[r.code].used
  {
    if Writing(mode) && s.owner != -1 then Outcome(s, -1)
    else
      var s2 := if Writing(mode) then Claim(s, i, mode) else s;
      var k := FirstFd(s2.fds);
      if k == MAX_FDS then Outcome(if Writing(mode) then s2.(owner := -1) else s2, -1)
      else
        var pos := if Writing(mode) && Appending(mode) then s2.files[i].size else 0;
        Outcome(s2.(fds := s2.fds[k := Fd(true, false, i, pos, mode)]), k)
  }

  predicate IsOpen(s: State, fd: int) {
    0 <= fd < |s.fds| && s.fds[fd].used && s.fds[fd].file < |s.files|
  }

  /** How many of n bytes a read at pos of a file of this size returns. */
  function ReadLen(size: nat, pos: nat, n: nat): nat {
    var available := if size > pos then size - pos else 0;
    if n < available then n else available
  }

  /** Where fs_read takes its bytes from. */
  function Source(s: State, fd: nat): Sector
    requires Shape(s) && IsOpen(s, fd)
  {
    if s.fds[fd].file == s.owner && s.fds[fd].dirty then s.buffer else s.flash[1 + s.fds[fd].file]
  }

  /** fs_read on an open descriptor. */
  function Read(s: State, fd: nat, n: nat): (r: (State, seq<Byte>))
    requires Shape(s) && IsOpen(s, fd) && s.files[s.fds[fd].file].size <= BLOCK_SIZE
    ensures Shape(r.0)
  {
    var o := s.fds[fd];
    var len := ReadLen(s.files[o.file].size, o.pos, n);
    if len == 0 then (s, [])
    else (s.(fds := s.fds[fd := o.(pos := o.pos + len)]), Source(s, fd)[o.pos..o.pos + len])
  }

  /** How many of n bytes a write at pos stores. */
  function WriteLen(pos: nat, n: nat): nat {
    var remaining := if BLOCK_SIZE > pos then BLOCK_SIZE - pos else 0;
    if n < remaining then n else remaining
  }

  /** fs_write on an open descriptor, and its result. */
  function Write(s: State, fd: nat, data: seq<Byte>): (r: Outcome)
    requires Shape(s) && IsOpen(s, fd)
    ensures Shape(r.state)
  {
    var o := s.fds[fd];
    var len := WriteLen(o.pos, |data|);
    if data == [] then Outcome(s, 0)
    else if !Writing(o.mode) || len == 0 then Outcome(s, -1)
    else
      var pos := o.pos + len;
      var e := s.files[o.file];
      assert AllEncodable(s.files) && Encodable(e);
      Outcome(s.(buffer := s.buffer[..o.pos] + data[..len] + s.buffer[pos..],
          fds := s.fds[fd := o.(pos := pos, dirty := true)],
          files := s.files[o.file := e.(size := if pos > e.size then pos else e.size)]), len)
  }

  /** The buffer programmed into file i's erased sector, and given up. */
  function Committed(s: State, i: nat): (r: State)
    requires Shape(s) && i < |s.files|
    ensures Shape(r)
  {
    s.(flash := s.flash[1 + i := Programmed(Blank(), s.buffer)], owner := -1)
  }

  /** fs_close on an open descriptor, when no flash call fails. */
  function Close(s: State, fd: nat): (r: State)
    requires Shape(s) && IsOpen(s, fd)
    ensures Shape(r)
  {
    var o := s.fds[fd];
    var s1 :=
      if o.dirty then Flush(Committed(s, o.file))
      else if Writing(o.mode) && s.owner == o.file then s.(owner := -1)
      else s;
    s1.(fds := s1.fds[fd := o.(used := false, dirty := false)])
  }

  /** The descriptor table with every descriptor of file i closed. */
  function CloseAll(fds: seq<Fd>, i: nat): (r: seq<Fd>)
    ensures |r| == |fds|
  {
    seq(|fds|, k requires 0 <= k < |fds| =>
          if fds[k].used && fds[k].file == i then fds[k].(used := false, dirty := false) else fds[k])
  }

  /** fs_delete of an existing file, for a name already stripped of its leading slash. */
  function Delete(s: State, n: seq<Byte>): (r: State)
    requires Shape(s) && Find(s.files, n) < |s.files|
    ensures Shape(r)
  {
    Flush(Removed(s, Find(s.files, n)))
  }

  /** File i gone from the directory, its descriptors closed, its sector erased. */
  function Removed(s: State, i: nat): (r: State)
    requires Shape(s) && i < |s.files|
    ensures Shape(r)
  {
    s.(files := s.files[i := FREE_ENTRY], count := if s.count > 0 then s.count - 1 else 0,
       fds := CloseAll(s.fds, i), owner := if s.owner == i then -1 else s.owner, flash := s.flash[1 + i := Blank()])
  }
}
