/**
 What the filesystem promises: a map from names to byte strings with one pending write
 buffer, and a flash image from which the same map comes back.
 */
module FsProps {
  import opened Bytes
  import opened FsSpec

  // ---- the invariant -------------------------------------------------------------------------

  ghost predicate EntryOk(e: Entry, i: nat) {
    && |e.name| < NAME_MAX && 0 !in e.name
    && (e.used ==> e.size <= BLOCK_SIZE && e.startBlock == i && e.blockCount == 1)
    && (!e.used ==> e == FREE_ENTRY)
  }

  ghost predicate FilesOk(files: seq<Entry>) {
    |files| <= MAX_FILES && forall i :: 0 <= i < |files| ==> EntryOk(files[i], i)
  }

  ghost predicate FdOk(files: seq<Entry>, o: Fd) {
    && (o.used ==> o.file < |files| && files[o.file].used && o.pos <= BLOCK_SIZE)
    && (o.dirty ==> o.used && Writing(o.mode))
    && (o.used && Writing(o.mode) ==> o.pos <= files[o.file].size)
  }

  ghost predicate FdsOk(files: seq<Entry>, fds: seq<Fd>) {
    forall k :: 0 <= k < |fds| ==> FdOk(files, fds[k])
  }

  predicate IsWriter(o: Fd) {
    o.used && Writing(o.mode)
  }

  /** scratch_owner names a file exactly when one write-mode descriptor exists, and it is that one's. */
  ghost predicate WriterOk(fds: seq<Fd>, owner: int) {
    && (owner == -1 ==> forall k :: 0 <= k < |fds| ==> !IsWriter(fds[k]))
    && (owner != -1 ==> exists k :: 0 <= k < |fds| && OnlyWriter(fds, k, owner))
  }

  ghost predicate OnlyWriter(fds: seq<Fd>, k: nat, owner: int)
    requires k < |fds|
  {
    IsWriter(fds[k]) && fds[k].file == owner && forall j :: 0 <= j < |fds| && j != k ==> !IsWriter(fds[j])
  }

  /** Until something is written, the buffer agrees with the file it was claimed for. */
  ghost predicate BufferOk(s: State)
    requires Shape(s)
  {
    s.owner != -1 && (forall k :: 0 <= k < MAX_FDS ==> !s.fds[k].dirty) && s.files[s.owner].size <= BLOCK_SIZE ==>
      s.buffer[..s.files[s.owner].size] == s.flash[1 + s.owner][..s.files[s.owner].size]
  }

  function CountUsed(files: seq<Entry>): (r: nat)
    ensures r <= |files|
  {
    if files == [] then 0 else CountUsed(files[..|files| - 1]) + if files[|files| - 1].used then 1 else 0
  }

  ghost predicate Sound(s: State) {
    && Shape(s) && FilesOk(s.files) && FdsOk(s.files, s.fds) && WriterOk(s.fds, s.owner)
    && BufferOk(s) && s.count == CountUsed(s.files)
  }

  // ---- the view ----------------------------------------------------------------------------------

  /** The bytes of file i, the pending ones included. */
  ghost function Content(s: State, i: nat): seq<Byte>
    requires Shape(s) && FilesOk(s.files) && i < |s.files|
  {
    if !s.files[i].used then []
    else if s.owner == i then s.buffer[..s.files[i].size]
    else s.flash[1 + i][..s.files[i].size]
  }

  datatype Lookup = Missing | Found(bytes: seq<Byte>)

  /** The file system as a map from names to bytes. */
  ghost function View(s: State, name: seq<Byte>): Lookup
    requires Shape(s) && FilesOk(s.files)
  {
    var i := Find(s.files, name);
    if i < |s.files| then Found(Content(s, i)) else Missing
  }

  lemma FindIs(files: seq<Entry>, name: seq<Byte>, i: nat)
    requires i <= |files| && (i < |files| ==> files[i].used && files[i].name == name)
    requires forall k :: 0 <= k < i ==> !(files[k].used && files[k].name == name)
    ensures Find(files, name) == i
  {
  }

  /** Changing entry i matters only to the names it had and has. */
  lemma FindFrame(files: seq<Entry>, i: nat, e: Entry, m: seq<Byte>)
    requires i < |files| && !(files[i].used && files[i].name == m) && !(e.used && e.name == m)
    ensures Find(files[i := e], m) == Find(files, m)
  {
    FindIs(files[i := e], m, Find(files, m));
  }

  /** A file outside the change keeps its bytes. */
  lemma ContentFrame(s: State, s': State, j: nat)
    requires Shape(s) && FilesOk(s.files) && Shape(s') && FilesOk(s'.files) && j < |s.files| == |s'.files|
    requires s'.files[j] == s.files[j] && s'.flash[1 + j] == s.flash[1 + j]
    requires s.owner == j <==> s'.owner == j
    requires s.owner == j ==> s'.buffer == s.buffer
    ensures Content(s', j) == Content(s, j)
  {
  }

  // ---- the flash image ---------------------------------------------------------------------------

  lemma {:induction false} UpToNulPads(name: seq<Byte>, k: nat)
    requires 0 !in name
    ensures UpToNul(name + seq(k, _ => 0)) == name
  {
    var b := name + seq(k, _ => 0);
    if name == [] {
      assert k > 0 ==> b[0] == 0;
    } else {
      assert b[0] == name[0] && name[0] in name && b[1..] == name[1..] + seq(k, _ => 0);
      UpToNulPads(name[1..], k);
      assert name == [name[0]] + name[1..];
    }
  }

  /** A directory entry survives the trip through flash. */
  lemma EntryRoundTrip(e: Entry)
    requires Encodable(e)
    ensures DecodeEntry(EncodeEntry(e)) == e
  {
    var b := EncodeEntry(e);
    assert b[1..17] == Pad(e.name);
    UpToNulPads(e.name, NAME_MAX - |e.name|);
    assert b[20..24] == BytesOf(e.size) && b[24..28] == BytesOf(e.startBlock) && b[28..32] == BytesOf(e.blockCount);
  }

  lemma Cut(a: seq<Byte>, b: seq<Byte>, c: seq<Byte>)
    ensures (a + b + c)[..|a|] == a && (a + b + c)[|a|..] == b + c
  {
  }

  lemma {:induction false} FilesRoundTrip(files: seq<Entry>, rest: seq<Byte>)
    requires AllEncodable(files)
    ensures DecodeFiles(EncodeFiles(files) + rest, |files|) == files
  {
    if files != [] {
      Cut(EncodeEntry(files[0]), EncodeFiles(files[1..]), rest);
      EntryRoundTrip(files[0]);
      FilesRoundTrip(files[1..], rest);
    }
  }

  /** The flash superblock holds exactly the directory in RAM. */
  ghost predicate Saved(s: State)
    requires Shape(s)
  {
    Mountable(s.flash[0]) && Value(s.flash[0][8..12]) == s.count && DecodeFiles(s.flash[0][12..], |s.files|) == s.files
  }

  lemma HeadOf(a: seq<Byte>, b: seq<Byte>, c: seq<Byte>, d: seq<Byte>)
    requires |a| == |b| == |c| == 4
    ensures var m := a + b + c + d; m[0..4] == a && m[4..8] == b && m[8..12] == c && m[12..] == d
    ensures var m := a + b + c + d; m[12..12 + |d|] == d
  {
  }

  /** superblock_flush writes an image that mounts to the directory it was taken from. */
  lemma FlushSaves(s: State)
    requires Shape(s)
    ensures Saved(Flush(s))
  {
    ImageFits(|s.files|);
    var data := Image(s.count, s.files) + s.tail;
    ProgramBlank(data);
    var sector := Flush(s).flash[0];
    var rest := s.tail + Blank()[|data|..];
    var files := EncodeFiles(s.files) + rest;
    assert sector == BytesOf(MAGIC) + BytesOf(VERSION) + BytesOf(s.count) + files;
    HeadOf(BytesOf(MAGIC), BytesOf(VERSION), BytesOf(s.count), files);
    FilesRoundTrip(s.files, rest);
  }

  lemma {:induction false} EncodedAt(files: seq<Entry>, i: nat)
    requires AllEncodable(files) && i < |files|
    ensures EncodeFiles(files)[32 * i..32 * i + 32] == EncodeEntry(files[i])
  {
    var first, rest := EncodeEntry(files[0]), EncodeFiles(files[1..]);
    if i == 0 {
      assert (first + rest)[..32] == first;
    } else {
      EncodedAt(files[1..], i - 1);
      assert (first + rest)[32 * i..32 * i + 32] == rest[32 * (i - 1)..32 * (i - 1) + 32];
    }
  }

  /** An fs_entry_t in memory: flag, name up to its NUL, three words. */
  ghost predicate EntryAt(m: seq<Byte>, at: nat, e: Entry)
    requires at + 32 <= |m|
  {
    && m[at] == (if e.used then 1 else 0)
    && |e.name| < 16 && m[at + 1..at + 1 + |e.name|] == e.name && m[at + 1 + |e.name|] == 0
    && Word(m, at + 20) == e.size && Word(m, at + 24) == e.startBlock && Word(m, at + 28) == e.blockCount
  }

  lemma EncodesAt(m: seq<Byte>, at: nat, e: Entry, b: seq<Byte>)
    requires Encodable(e) && b == EncodeEntry(e) && at + 32 <= |m| && m[at..at + 32] == b
    ensures EntryAt(m, at, e)
  {
    EncodedName(e);
    SliceOf(m, at, b, 0, 1);
    SliceOf(m, at, b, 1, 2 + |e.name|);
    assert m[at + 1..at + 2 + |e.name|][..|e.name|] == m[at + 1..at + 1 + |e.name|];
    SliceOf(m, at, b, 20, 24);
    SliceOf(m, at, b, 24, 28);
    SliceOf(m, at, b, 28, 32);
    assert m[at..at + 1][0] == m[at];
  }

  lemma SliceOf(m: seq<Byte>, at: nat, b: seq<Byte>, i: nat, j: nat)
    requires i <= j <= |b| && at + |b| <= |m| && m[at..at + |b|] == b
    ensures m[at + i..at + j] == b[i..j]
  {
    forall k | i <= k < j
      ensures m[at + k] == b[k]
    {
      assert m[at..at + |b|][k] == m[at + k];
    }
  }

  lemma EncodedName(e: Entry)
    requires Encodable(e)
    ensures
      var b := EncodeEntry(e);
      && b[0..1] == [if e.used then 1 else 0] && b[1..2 + |e.name|] == e.name + [0]
      && b[20..24] == BytesOf(e.size) && b[24..28] == BytesOf(e.startBlock) && b[28..32] == BytesOf(e.blockCount)
  {
    assert EncodeEntry(e)[1..17] == Pad(e.name);
    assert Pad(e.name)[..1 + |e.name|] == e.name + [0];
    SliceOf(EncodeEntry(e), 1, Pad(e.name), 0, 1 + |e.name|);
  }

  lemma MagicBytes()
    ensures BytesOf(MAGIC) == [0x53, 0x43, 0x49, 0x50] && BytesOf(VERSION) == [1, 0, 0, 0]
  {
  }

  lemma ImageParts(count: nat, files: seq<Entry>, n: seq<Byte>)
    requires count < TWO_TO_THE_32 && AllEncodable(files) && n == BytesOf(count)
    ensures
      var m := Image(count, files);
      m[0..4] == BytesOf(MAGIC) && m[4..8] == BytesOf(VERSION) && m[8..12] == n
    ensures Image(count, files)[12..12 + 32 * |files|] == EncodeFiles(files)
  {
    HeadOf(BytesOf(MAGIC), BytesOf(VERSION), n, EncodeFiles(files));
  }

  lemma EntrySlice(m: seq<Byte>, es: seq<Byte>, i: nat, b: seq<Byte>)
    requires 32 * i + 32 <= |es| && es[32 * i..32 * i + 32] == b
    requires 12 + |es| <= |m| && m[12..12 + |es|] == es
    ensures m[12 + 32 * i..12 + 32 * i + 32] == b
  {
    SliceOf(m, 12, es, 32 * i, 32 * i + 32);
  }

  lemma ImageEntry(m: seq<Byte>, files: seq<Entry>, i: nat, es: seq<Byte>, at: nat)
    requires AllEncodable(files) && i < |files| && es == EncodeFiles(files) && at == 12 + 32 * i
    requires 12 + |es| <= |m| && m[12..12 + |es|] == es
    ensures EntryAt(m, at, files[i])
  {
    var b := EncodeEntry(files[i]);
    EncodedAt(files, i);
    EntrySlice(m, es, i, b);
    EncodesAt(m, at, files[i], b);
  }

  /** fs_superblock_t: the magic number and version 1, the count, then 32 bytes an entry. */
  lemma ImageLayout(count: nat, files: seq<Entry>, i: nat)
    requires count < TWO_TO_THE_32 && AllEncodable(files) && i < |files|
    ensures
      var m := Image(count, files);
      && m[0..4] == [0x53, 0x43, 0x49, 0x50] && m[4..8] == [1, 0, 0, 0] && Word(m, 8) == count
      && EntryAt(m, 12 + 32 * i, files[i])
  {
    MagicBytes();
    ImageParts(count, files, BytesOf(count));
    ImageEntry(Image(count, files), files, i, EncodeFiles(files), 12 + 32 * i);
  }

  lemma EntryMoves(m: seq<Byte>, m': seq<Byte>, at: nat, e: Entry)
    requires at + 32 <= |m| <= |m'| && m'[..|m|] == m && EntryAt(m, at, e)
    ensures EntryAt(m', at, e)
  {
    assert forall k :: 0 <= k < |m| ==> m'[k] == m[k];
    assert m'[at + 1..at + 1 + |e.name|] == m[at + 1..at + 1 + |e.name|];
    assert m'[at + 20..at + 24] == m[at + 20..at + 24];
    assert m'[at + 24..at + 28] == m[at + 24..at + 28];
    assert m'[at + 28..at + 32] == m[at + 28..at + 32];
  }

  /** Where superblock_flush puts what. */
  lemma FlushLayout(s: State, i: nat)
    requires Shape(s) && i < |s.files|
    ensures
      var m := Flush(s).flash[0];
      && |m| == 4096 && m[0..4] == [0x53, 0x43, 0x49, 0x50] && m[4..8] == [1, 0, 0, 0] && Word(m, 8) == s.count
      && EntryAt(m, 12 + 32 * i, s.files[i])
  {
    ImageFits(|s.files|);
    var image, m := Image(s.count, s.files), Flush(s).flash[0];
    ProgramBlank(image + s.tail);
    assert m[0..|image|] == image;
    ImageLayout(s.count, s.files, i);
    SliceOf(m, 0, image, 0, 4);
    SliceOf(m, 0, image, 4, 8);
    SliceOf(m, 0, image, 8, 12);
    EntryMoves(image, m, 12 + 32 * i, s.files[i]);
  }
}
