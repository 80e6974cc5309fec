/**
 The kernel heap of src/kernel/mem.c byte for byte: headers inside the managed array,
 linked by 32-bit addresses.  Every operation is proved against `HeapBlocks`.
 */
module Heap {
  import opened Bytes
  import opened HeapBlocks

  /** struct heap_block: size at 0, free at 4, next at 8. */
  datatype Header = Header(size: nat, free: bool, next: nat)

  function HeaderAt(m: seq<Byte>, off: nat): Header
    requires off + HEADER_SIZE <= |m|
  {
    Header(Word(m, off), m[off + 4] != 0, Word(m, off + 8))
  }

  /** The header block i of bs must have, for a heap array at address base. */
  function HeaderOf(base: nat, bs: seq<Block>, i: nat): Header
    requires i < |bs|
  {
    Header(bs[i].size, bs[i].free, if i + 1 < |bs| then base + bs[i + 1].off else 0)
  }

  ghost predicate Encodes(m: seq<Byte>, base: nat, bs: seq<Block>, i: nat)
    requires i < |bs|
  {
    bs[i].off + HEADER_SIZE <= |m| && HeaderAt(m, bs[i].off) == HeaderOf(base, bs, i)
  }

  /** The chain of headers in the array spells out the blocks. */
  ghost predicate Rep(m: seq<Byte>, base: nat, bs: seq<Block>) {
    && |m| == HEAP_SIZE && Tiles(bs)
    && forall i :: 0 <= i < |bs| ==> Encodes(m, base, bs, i)
  }

  /** k is a payload byte of the used block with this offset and size. */
  predicate InPayload(off: nat, size: nat, k: nat) {
    off + HEADER_SIZE <= k < off + HEADER_SIZE + size
  }

  /** Only bytes of the headers at a and b differ. */
  ghost predicate OnlyHeaders(m: seq<Byte>, m': seq<Byte>, a: nat, b: nat) {
    && |m| == |m'|
    && forall k :: 0 <= k < |m| && !(a <= k < a + HEADER_SIZE) && !(b <= k < b + HEADER_SIZE) ==> m'[k] == m[k]
  }

  /** Writing the headers at a and b leaves every other header alone. */
  lemma HeaderFrame(m: seq<Byte>, m': seq<Byte>, a: nat, b: nat, off: nat)
    requires OnlyHeaders(m, m', a, b) && off + HEADER_SIZE <= |m|
    requires off + HEADER_SIZE <= a || a + HEADER_SIZE <= off
    requires off + HEADER_SIZE <= b || b + HEADER_SIZE <= off
    ensures HeaderAt(m', off) == HeaderAt(m, off)
  {
    assert m'[off..off + 4] == m[off..off + 4] && m'[off + 8..off + 12] == m[off + 8..off + 12];
  }

  /** The writes of a split: a new header in the payload of free block i, then i's size and next. */
  lemma SplitRep(m: seq<Byte>, m': seq<Byte>, base: nat, bs: seq<Block>, i: nat, n: nat)
    requires Rep(m, base, bs) && i < |bs| && n <= bs[i].size && n % 8 == 0 && Splits(bs[i], n)
    requires OnlyHeaders(m, m', bs[i].off, bs[i].off + HEADER_SIZE + n)
    requires TileAt(bs, i) && HeaderAt(m', bs[i].off) == Header(n, true, base + bs[i].off + HEADER_SIZE + n) &&
             bs[i].free
    requires HeaderAt(m', bs[i].off + HEADER_SIZE + n) ==
             Header(bs[i].size - n - HEADER_SIZE, true, HeaderOf(base, bs, i).next)
    ensures Rep(m', base, Split(bs, i, n))
  {
    var r := Split(bs, i, n);
    SplitTiles(bs, i, n);
    assert Encodes(m', base, r, i) && Encodes(m', base, r, i + 1);
    forall k | 0 <= k < |r|
      ensures Encodes(m', base, r, k)
    {
      if k != i && k != i + 1 {
        SplitKeepsOther(m, m', base, bs, i, n, if k < i then k else k - 1);
        SplitMovesOther(m', base, bs, i, n, r, k);
      }
    }
  }

  /** The other blocks keep their headers at their places. */
  lemma SplitMovesOther(m': seq<Byte>, base: nat, bs: seq<Block>, i: nat, n: nat, r: seq<Block>, k: nat)
    requires i < |bs| && n <= bs[i].size && Splits(bs[i], n) && r == Split(bs, i, n) && k < |r| && k != i && k != i + 1
    requires var j := if k < i then k else k - 1;
             bs[j].off + HEADER_SIZE <= |m'| && HeaderAt(m', bs[j].off) == HeaderOf(base, bs, j)
    ensures Encodes(m', base, r, k)
  {
    var j := if k < i then k else k - 1;
    assert r[k] == bs[j] && HeaderOf(base, r, k) == HeaderOf(base, bs, j);
  }

  /** A split writes into no other block's header. */
  lemma SplitKeepsOther(m: seq<Byte>, m': seq<Byte>, base: nat, bs: seq<Block>, i: nat, n: nat, j: nat)
    requires Rep(m, base, bs) && i < |bs| && n <= bs[i].size && n % 8 == 0 && Splits(bs[i], n) && j < |bs| && j != i
    requires OnlyHeaders(m, m', bs[i].off, bs[i].off + HEADER_SIZE + n) && |m'| == |m|
    ensures bs[j].off + HEADER_SIZE <= |m| && HeaderAt(m', bs[j].off) == HeaderAt(m, bs[j].off) == HeaderOf(base, bs, j)
  {
    AllApart(bs);
    assert Encodes(m, base, bs, j) && TileAt(bs, j) && TileAt(bs, i);
    HeaderFrame(m, m', bs[i].off, bs[i].off + HEADER_SIZE + n, bs[j].off);
  }

  /** The writes of a merge: block i's size and next. */
  lemma MergeRep(m: seq<Byte>, m': seq<Byte>, base: nat, bs: seq<Block>, i: nat)
    requires Rep(m, base, bs) && i + 1 < |bs| && OnlyHeaders(m, m', bs[i].off, bs[i].off) && TileAt(bs, i)
    requires HeaderAt(m', bs[i].off) == Header(bs[i].size + HEADER_SIZE + bs[i + 1].size, bs[i].free,
             HeaderOf(base, bs, i + 1).next)
    ensures Rep(m', base, Merge(bs, i))
  {
    var r := Merge(bs, i);
    MergeTiles(bs, i);
    assert Encodes(m', base, r, i);
    AllApart(bs);
    forall k | 0 <= k < |r|
      ensures Encodes(m', base, r, k)
    {
      if k != i {
        var j := if k < i then k else k + 1;
        assert Encodes(m, base, bs, j) && TileAt(bs, j) && TileAt(bs, i);
        HeaderFrame(m, m', bs[i].off, bs[i].off, bs[j].off);
      }
    }
  }

  /** The write of block i's free flag. */
  lemma FlagRep(m: seq<Byte>, m': seq<Byte>, base: nat, bs: seq<Block>, i: nat, free: bool)
    requires Rep(m, base, bs) && i < |bs| && OnlyHeaders(m, m', bs[i].off, bs[i].off)
    requires Encodes(m', base, bs[i := bs[i].(free := free)], i)
    ensures Rep(m', base, bs[i := bs[i].(free := free)])
  {
    var r := bs[i := bs[i].(free := free)];
    SetFreeTiles(bs, i, free);
    AllApart(bs);
    forall k | 0 <= k < |r|
      ensures Encodes(m', base, r, k)
    {
      if k != i {
        assert Encodes(m, base, bs, k) && TileAt(bs, k) && TileAt(bs, i);
        HeaderFrame(m, m', bs[i].off, bs[i].off, bs[k].off);
      }
    }
  }

  /** No byte of a live payload differs, except in the payload at offset but. */
  ghost predicate PayloadsKept(m: seq<Byte>, m': seq<Byte>, bs: seq<Block>, but: int) {
    && |m| == |m'|
    && forall off, size, k: nat :: Used(bs, off, size) && off != but && InPayload(off, size, k) && k < |m| ==>
        m'[k] == m[k]
  }

  /** Writes inside free block i touch no live payload. */
  lemma InsideFreeKeepsPayloads(m: seq<Byte>, m': seq<Byte>, bs: seq<Block>, i: nat)
    requires Tiles(bs) && i < |bs| && bs[i].free && |m| == |m'|
    requires forall k :: 0 <= k < |m| && !(bs[i].off <= k < End(bs[i])) ==> m'[k] == m[k]
    ensures PayloadsKept(m, m', bs, -1)
  {
    AllApart(bs);
    forall off, size, k: nat | Used(bs, off, size) && InPayload(off, size, k) && k < |m|
      ensures m'[k] == m[k]
    {
      var j :| 0 <= j < |bs| && bs[j] == Block(off, size, false);
      assert j != i;
    }
  }

  /** Writes to the headers of blocks i and p touch no live payload. */
  lemma HeadersKeepPayloads(m: seq<Byte>, m': seq<Byte>, bs: seq<Block>, i: nat, p: nat, but: int)
    requires Tiles(bs) && i < |bs| && p < |bs| && OnlyHeaders(m, m', bs[i].off, bs[p].off)
    ensures PayloadsKept(m, m', bs, but)
  {
    AllApart(bs);
    forall off, size, k: nat | Used(bs, off, size) && InPayload(off, size, k) && k < |m|
      ensures m'[k] == m[k]
    {
      var j :| 0 <= j < |bs| && bs[j] == Block(off, size, false);
    }
  }

  /** p is an address kmalloc handed out for n bytes and kfree has not taken back. */
  ghost predicate LiveAt(base: nat, bs: seq<Block>, p: nat, n: nat) {
    p >= base + HEADER_SIZE && UsedFor(bs, p - base - HEADER_SIZE, n)
  }

  ghost predicate UsedFor(bs: seq<Block>, off: nat, n: nat) {
    exists size :: n <= size < n + 48 && Used(bs, off, size)
  }

  /** The used blocks are exactly the live allocations, each as large as asked for or hardly larger. */
  ghost predicate LiveOk(base: nat, bs: seq<Block>, live: map<nat, nat>) {
    && (forall p :: p in live ==> LiveAt(base, bs, p, live[p]))
    && (forall off, size :: Used(bs, off, size) ==> base + off + HEADER_SIZE in live)
  }

  lemma UsedOffset(bs: seq<Block>, i: nat, n: nat)
    requires Tiles(bs) && i < |bs| && UsedFor(bs, bs[i].off, n)
    ensures !bs[i].free
  {
    AllApart(bs);
    var size :| n <= size < n + 48 && Used(bs, bs[i].off, size);
    var j :| 0 <= j < |bs| && bs[j] == Block(bs[i].off, size, false);
  }

  /** The books after block i has been allocated. */
  lemma AllocateBooks(base: nat, bs: seq<Block>, live: map<nat, nat>, i: nat, n: nat, ptr: nat)
    requires LiveOk(base, bs, live) && Tiles(bs) && NoAdjacentFree(bs) && base % 8 == 0
    requires i < |bs| && bs[i].free && n <= bs[i].size && n % 8 == 0 && ptr == base + bs[i].off + HEADER_SIZE
    ensures ptr !in live && ptr % 8 == 0
    ensures NoAdjacentFree(Allocate(bs, i, n)) && LiveOk(base, Allocate(bs, i, n), live[ptr := n])
  {
    assert TileAt(bs, i);
    AllocateLive(base, bs, live, i, n);
    AllocateKeeps(bs, i, n);
  }

  lemma AllocateLive(base: nat, bs: seq<Block>, live: map<nat, nat>, i: nat, n: nat)
    requires LiveOk(base, bs, live) && Tiles(bs) && i < |bs| && bs[i].free && n <= bs[i].size
    ensures base + bs[i].off + HEADER_SIZE !in live
    ensures LiveOk(base, Allocate(bs, i, n), live[base + bs[i].off + HEADER_SIZE := n])
  {
    var r, p := Allocate(bs, i, n), base + bs[i].off + HEADER_SIZE;
    if p in live {
      assert LiveAt(base, bs, p, live[p]);
      UsedOffset(bs, i, live[p]);
    }
    var now := live[p := n];
    forall x | x in now
      ensures LiveAt(base, r, x, now[x])
    {
      if x == p {
        AllocateTakes(bs, i, n);
        AllocateUses(bs, i, n, bs[i].off, r[i].size);
        assert Used(r, bs[i].off, r[i].size);
      } else {
        var size :| live[x] <= size < live[x] + 48 && Used(bs, x - base - HEADER_SIZE, size);
        AllocateUses(bs, i, n, x - base - HEADER_SIZE, size);
      }
    }
    forall off, size | Used(r, off, size)
      ensures base + off + HEADER_SIZE in now
    {
      AllocateUses(bs, i, n, off, size);
    }
  }

  lemma ReleaseLive(base: nat, bs: seq<Block>, live: map<nat, nat>, i: nat)
    requires LiveOk(base, bs, live) && Tiles(bs) && i < |bs| && !bs[i].free
    ensures LiveOk(base, Release(bs, i), live - {base + bs[i].off + HEADER_SIZE})
  {
    var p, r := base + bs[i].off + HEADER_SIZE, Release(bs, i);
    var now := live - {p};
    forall x | x in now
      ensures LiveAt(base, r, x, now[x])
    {
      assert LiveAt(base, bs, x, live[x]);
      var size :| live[x] <= size < live[x] + 48 && Used(bs, x - base - HEADER_SIZE, size);
      ReleaseUses(bs, i, x - base - HEADER_SIZE, size);
    }
    forall off, size | Used(r, off, size)
      ensures base + off + HEADER_SIZE in now
    {
      ReleaseUses(bs, i, off, size);
    }
  }

  /** Once everything has been freed, in whatever order, one free block is left. */
  lemma NothingLiveIsInitial(base: nat, bs: seq<Block>)
    requires Tiles(bs) && NoAdjacentFree(bs) && LiveOk(base, bs, map[])
    ensures bs == INITIAL
  {
    AllFreeIsInitial(bs);
  }

  /** Payloads of two live allocations never share a byte. */
  lemma LivePayloadsDisjoint(bs: seq<Block>, a: nat, sizeA: nat, b: nat, sizeB: nat, k: nat)
    requires Tiles(bs) && Used(bs, a, sizeA) && Used(bs, b, sizeB) && a != b
    ensures !(InPayload(a, sizeA, k) && InPayload(b, sizeB, k))
    ensures a % 8 == 0 && a + HEADER_SIZE + sizeA <= HEAP_SIZE
  {
    var i :| 0 <= i < |bs| && bs[i] == Block(a, sizeA, false);
    var j :| 0 <= j < |bs| && bs[j] == Block(b, sizeB, false);
    assert TileAt(bs, i);
    AllApart(bs);
  }

  function Max(a: nat, b: nat): nat {
    if a > b then a else b
  }

  lemma StatsStep(bs: seq<Block>, i: nat)
    requires i < |bs|
    ensures Total(bs[i..], true) == (if bs[i].free then HEADER_SIZE + bs[i].size else 0) + Total(bs[i + 1..], true)
    ensures Total(bs[i..], false) == (if bs[i].free then 0 else HEADER_SIZE + bs[i].size) + Total(bs[i + 1..], false)
    ensures Largest(bs[i..]) == if bs[i].free then Max(bs[i].size, Largest(bs[i + 1..])) else Largest(bs[i + 1..])
  {
    assert bs[i..][0] == bs[i] && bs[i..][1..] == bs[i + 1..];
  }

  lemma FitSkips(bs: seq<Block>, n: nat, i: nat)
    requires i <= |bs| && (forall k :: 0 <= k < i ==> !(bs[k].free && bs[k].size >= n))
    requires i < |bs| ==> bs[i].free && bs[i].size >= n
    ensures FirstFit(bs, n) == i
  {
  }

  lemma InitialRep(m: seq<Byte>, base: nat)
    requires |m| == HEAP_SIZE && HeaderAt(m, 0) == Header(HEAP_SIZE - HEADER_SIZE, true, 0)
    ensures Rep(m, base, INITIAL) && NoAdjacentFree(INITIAL) && LiveOk(base, INITIAL, map[])
  {
    assert TileAt(INITIAL, 0);
  }

  /** Where the search for n bytes stops is the first fit, and it runs out exactly if n is too large. */
  lemma FitFound(bs: seq<Block>, n: nat, i: nat)
    requires i <= |bs| && (i < |bs| ==> bs[i].free && bs[i].size >= n)
    requires forall k :: 0 <= k < i ==> !(bs[k].free && bs[k].size >= n)
    ensures i == FirstFit(bs, n) && (n > 0 ==> (i == |bs| <==> n > Largest(bs)))
  {
    FitSkips(bs, n, i);
    if n > 0 {
      FailsIffTooLarge(bs, n);
    }
  }

  class KHeap {
    const base: nat            // address of heap_memory
    const mem: array<Byte>     // heap_memory
    var head: nat              // heap_head
    ghost var blocks: seq<Block>
    ghost var live: map<nat, nat>

    ghost predicate Valid()
      reads this, mem
    {
      && 0 < base && base % 8 == 0 && base + HEAP_SIZE <= TWO_TO_THE_32 && head == base
      && Rep(mem[..], base, blocks) && NoAdjacentFree(blocks) && LiveOk(base, blocks, live)
    }

    /** kmem_init */
    constructor (base: nat)
      requires 0 < base && base % 8 == 0 && base + HEAP_SIZE <= TWO_TO_THE_32
      ensures Valid() && this.base == base && blocks == INITIAL && live == map[] && fresh(mem)
    {
      this.base := base;
      mem := new Byte[HEAP_SIZE](_ => 0);
      head := base;
      blocks := INITIAL;
      live := map[];
      new;
      StoreSize(head, HEAP_SIZE - HEADER_SIZE);
      StoreFree(head, true);
      StoreNext(head, 0);
      InitialRep(mem[..], base);
    }

    ghost predicate At(blk: nat)
      reads mem
    {
      mem.Length == HEAP_SIZE && base <= blk && blk - base + HEADER_SIZE <= HEAP_SIZE
    }

    /** The header a block pointer refers to. */
    function Load(blk: nat): Header
      requires At(blk)
      reads mem
    {
      HeaderAt(mem[..], blk - base)
    }

    method StoreWord(at: nat, v: nat)
      requires at + 4 <= mem.Length && v < TWO_TO_THE_32
      modifies mem
      ensures Word(mem[..], at) == v
      ensures forall k :: 0 <= k < mem.Length && !(at <= k < at + 4) ==> mem[k] == old(mem[k])
    {
      var b := BytesOf(v);
      mem[at], mem[at + 1], mem[at + 2], mem[at + 3] := b[0], b[1], b[2], b[3];
      assert mem[..][at..at + 4] == b;
    }

    method StoreSize(blk: nat, size: nat)
      requires At(blk) && size < TWO_TO_THE_32
      modifies mem
      ensures Load(blk) == old(Load(blk)).(size := size)
      ensures OnlyHeaders(old(mem[..]), mem[..], blk - base, blk - base)
    {
      StoreWord(blk - base, size);
      WordFrame(old(mem[..]), mem[..], blk - base, blk - base + 4, blk - base + 8);
    }

    method StoreFree(blk: nat, free: bool)
      requires At(blk)
      modifies mem
      ensures Load(blk) == old(Load(blk)).(free := free)
      ensures OnlyHeaders(old(mem[..]), mem[..], blk - base, blk - base)
    {
      mem[blk - base + 4] := if free then 1 else 0;
      WordFrame(old(mem[..]), mem[..], blk - base + 4, blk - base + 5, blk - base);
      WordFrame(old(mem[..]), mem[..], blk - base + 4, blk - base + 5, blk - base + 8);
    }

    method StoreNext(blk: nat, next: nat)
      requires At(blk) && next < TWO_TO_THE_32
      modifies mem
      ensures Load(blk) == old(Load(blk)).(next := next)
      ensures OnlyHeaders(old(mem[..]), mem[..], blk - base, blk - base)
    {
      StoreWord(blk - base + 8, next);
      WordFrame(old(mem[..]), mem[..], blk - base + 8, blk - base + 12, blk - base);
    }

    /** The header of block i, read through its address. */
    lemma BlockAt(i: nat)
      requires Valid() && i < |blocks|
      ensures At(base + blocks[i].off) && Load(base + blocks[i].off) == HeaderOf(base, blocks, i)
      ensures TileAt(blocks, i) && (i + 1 < |blocks| ==> TileAt(blocks, i + 1))
    {
      assert Encodes(mem[..], base, blocks, i);
    }

    /** kmalloc; 0 is NULL. */
    method Kmalloc(size: nat) returns (ptr: nat)
      requires Valid() && size < TWO_TO_THE_32
      modifies this`blocks, this`live, mem
      ensures Valid()
      ensures size == 0 ==> ptr == 0
      ensures 0 < size <= TWO_TO_THE_32 - 8 ==> (ptr == 0 <==> Align8(size) > Largest(old(blocks)))
      ensures ptr == 0 ==> blocks == old(blocks) && live == old(live) && mem[..] == old(mem[..])
      ensures ptr != 0 ==>
                && ptr % 8 == 0 && ptr !in old(live) && live == old(live)[ptr := Align8(size)]
                && FirstFit(old(blocks), Align8(size)) < |old(blocks)|
                && ptr == base + old(blocks)[FirstFit(old(blocks), Align8(size))].off + HEADER_SIZE
                && blocks == Allocate(old(blocks), FirstFit(old(blocks), Align8(size)), Align8(size))
                && Total(old(blocks), false) + Align8(size) + 16 <= Total(blocks, false) <
                   Total(old(blocks), false) + Align8(size) + 64
      ensures PayloadsKept(old(mem[..]), mem[..], old(blocks), -1)
    {
      if size == 0 {
        return 0;
      }
      ghost var bs := blocks;
      ptr := AllocateAligned(Align8(size));
      if ptr != 0 {
        AllocateTakes(bs, FirstFit(bs, Align8(size)), Align8(size));
      }
    }

    /** The locked section of kmalloc. */
    method AllocateAligned(n: nat) returns (ptr: nat)
      requires Valid() && n % 8 == 0
      modifies this`blocks, this`live, mem
      ensures Valid()
      ensures n > 0 ==> (ptr == 0 <==> n > Largest(old(blocks)))
      ensures ptr == 0 ==> blocks == old(blocks) && live == old(live) && mem[..] == old(mem[..])
      ensures ptr != 0 ==>
                && ptr % 8 == 0 && ptr !in old(live) && live == old(live)[ptr := n]
                && FirstFit(old(blocks), n) < |old(blocks)|
                && ptr == base + old(blocks)[FirstFit(old(blocks), n)].off + HEADER_SIZE
                && blocks == Allocate(old(blocks), FirstFit(old(blocks), n), n)
      ensures PayloadsKept(old(mem[..]), mem[..], old(blocks), -1)
    {
      ghost var i;
      var blk;
      blk, i := FindFit(n);
      if blk == 0 {
        return 0;
      }
      ptr := Take(blk, n, i);
    }

    /** The first-fit search of kmalloc. */
    method FindFit(n: nat) returns (blk: nat, ghost i: nat)
      requires Valid()
      ensures i == FirstFit(blocks, n)
      ensures n > 0 ==> (blk == 0 <==> n > Largest(blocks))
      ensures blk != 0 ==> i < |blocks| && blocks[i].free && blocks[i].size >= n
      ensures blk == if i < |blocks| then base + blocks[i].off else 0
    {
      blk, i := head, 0;
      var fits := false;
      while blk != 0 && !fits
        invariant 0 <= i <= |blocks|
        invariant blk == if i < |blocks| then base + blocks[i].off else 0
        invariant forall k :: 0 <= k < i ==> !(blocks[k].free && blocks[k].size >= n)
        invariant fits ==> i < |blocks| && blocks[i].free && blocks[i].size >= n
        decreases |blocks| - i, !fits
      {
        var next;
        fits, next := LookAt(blk, n, i);
        if !fits {
          blk, i := next, i + 1;
        }
      }
      FitFound(blocks, n, i);
    }

    /** Whether a block is free and large enough, and the one behind it. */
    method LookAt(blk: nat, n: nat, ghost i: nat) returns (fits: bool, next: nat)
      requires Valid() && i < |blocks| && blk == base + blocks[i].off
      ensures fits == (blocks[i].free && blocks[i].size >= n)
      ensures next == if i + 1 < |blocks| then base + blocks[i + 1].off else 0
    {
      BlockAt(i);
      fits, next := Load(blk).free && Load(blk).size >= n, Load(blk).next;
    }

    /** The rest of kmalloc, once a fitting free block has been found: split it, mark it used. */
    method Take(blk: nat, n: nat, ghost i: nat) returns (ptr: nat)
      requires Valid() && i < |blocks| && blk == base + blocks[i].off
      requires blocks[i].free && blocks[i].size >= n && n % 8 == 0
      modifies this`blocks, this`live, mem
      ensures Valid() && blocks == Allocate(old(blocks), i, n)
      ensures ptr == blk + HEADER_SIZE && ptr % 8 == 0 && ptr !in old(live) && live == old(live)[ptr := n]
      ensures PayloadsKept(old(mem[..]), mem[..], old(blocks), -1)
    {
      ghost var m, bs := mem[..], blocks;
      HeaderIs(i);
      ptr := blk + HEADER_SIZE;
      AllocateBooks(base, bs, live, i, n, ptr);
      CutAndMark(blk, n, i);
      live := live[ptr := n];
      ghost var m' := mem[..];
      InsideFreeKeepsPayloads(m, m', bs, i);
      assert mem[..] == m';
    }

    /** Split block i if what is left over is worth it, and mark it used. */
    method CutAndMark(blk: nat, n: nat, ghost i: nat)
      requires Valid() && i < |blocks| && blk == base + blocks[i].off && At(blk)
      requires blocks[i].free && blocks[i].size >= n && n % 8 == 0
      modifies this`blocks, mem
      ensures Rep(mem[..], base, blocks) && blocks == Allocate(old(blocks), i, n)
      ensures forall k :: 0 <= k < mem.Length && !(old(blocks)[i].off <= k < End(old(blocks)[i])) ==>
              mem[k] == old(mem[k])
    {
      HeaderIs(i);
      var leftover := Load(blk).size - n;
      if leftover >= HEADER_SIZE + SPLIT_THRESHOLD {
        CarveOut(blk, n, i);
      }
      SetFlag(blk, i, false);
    }

    /** The header of the new block of a split. */
    method NewBlock(newBlk: nat, size: nat, next: nat)
      requires At(newBlk) && size < TWO_TO_THE_32 && next < TWO_TO_THE_32
      modifies mem
      ensures Load(newBlk) == Header(size, true, next)
      ensures OnlyHeaders(old(mem[..]), mem[..], newBlk - base, newBlk - base)
    {
      StoreSize(newBlk, size);
      StoreFree(newBlk, true);
      StoreNext(newBlk, next);
    }

    /** blk is cut to n bytes and a new block is linked in behind it. */
    method Carve(blk: nat, n: nat)
      requires At(blk) && At(blk + HEADER_SIZE + n) && n + HEADER_SIZE <= Load(blk).size &&
               base + HEAP_SIZE <= TWO_TO_THE_32
      modifies mem
      ensures Load(blk) == Header(n, old(Load(blk).free), blk + HEADER_SIZE + n)
      ensures Load(blk + HEADER_SIZE + n) == Header(old(Load(blk).size) - n - HEADER_SIZE, true, old(Load(blk).next))
      ensures OnlyHeaders(old(mem[..]), mem[..], blk - base, blk - base + HEADER_SIZE + n)
    {
      var leftover := Load(blk).size - n;
      var newBlk := blk + HEADER_SIZE + n;
      NewBlock(newBlk, leftover - HEADER_SIZE, Load(blk).next);
      ghost var m1 := mem[..];
      HeaderFrame(old(mem[..]), m1, newBlk - base, newBlk - base, blk - base);
      StoreSize(blk, n);
      StoreNext(blk, newBlk);
      HeaderFrame(m1, mem[..], blk - base, blk - base, newBlk - base);
    }

    /** blk->free = free, for block i. */
    method SetFlag(blk: nat, ghost i: nat, free: bool)
      requires Rep(mem[..], base, blocks) && i < |blocks| && blk == base + blocks[i].off
      modifies this`blocks, mem
      ensures blocks == old(blocks)[i := old(blocks)[i].(free := free)] && Rep(mem[..], base, blocks)
      ensures OnlyHeaders(old(mem[..]), mem[..], blk - base, blk - base)
    {
      ghost var m := mem[..];
      HeaderIs(i);
      StoreFree(blk, free);
      FlagRep(m, mem[..], base, blocks, i, free);
      blocks := blocks[i := blocks[i].(free := free)];
    }

    /** The split of kmalloc. */
    method CarveOut(blk: nat, n: nat, ghost i: nat)
      requires Valid() && i < |blocks| && blk == base + blocks[i].off && At(blk)
      requires blocks[i].free && blocks[i].size >= n && n % 8 == 0 && Splits(blocks[i], n)
      modifies this`blocks, mem
      ensures Rep(mem[..], base, blocks) && blocks == Split(old(blocks), i, n)
      ensures forall k :: 0 <= k < mem.Length && !(old(blocks)[i].off <= k < End(old(blocks)[i])) ==>
              mem[k] == old(mem[k])
    {
      ghost var m := mem[..];
      BlockAt(i);
      Carve(blk, n);
      SplitRep(m, mem[..], base, blocks, i, n);
      blocks := Split(blocks, i, n);
    }

    /** kfree of an address kmalloc returned, or of NULL. */
    method Kfree(ptr: nat)
      requires Valid() && (ptr == 0 || ptr in live)
      modifies this`blocks, this`live, mem
      ensures Valid() && live == old(live) - {ptr}
      ensures ptr == 0 ==> blocks == old(blocks) && mem[..] == old(mem[..])
      ensures ptr != 0 ==>
                exists i :: 0 <= i < |old(blocks)| && !old(blocks)[i].free &&
                    ptr == base + old(blocks)[i].off + HEADER_SIZE
                            && blocks == Release(old(blocks), i)
      ensures PayloadsKept(old(mem[..]), mem[..], old(blocks), ptr - base - HEADER_SIZE)
      ensures live == map[] ==> blocks == INITIAL
      ensures ptr != 0 ==>
                Total(blocks, false) + old(live)[ptr] + 16 <= Total(old(blocks), false) <
                Total(blocks, false) + old(live)[ptr] + 64
    {
      if ptr == 0 {
        LiveIsNotNull();
        if live == map[] { NothingLiveIsInitial(base, blocks); }
        return;
      }
      ghost var i := LiveBlock(ptr);
      ReleaseReturns(blocks, i);
      FreeLive(ptr, i);
      assert !old(blocks)[i].free && ptr == base + old(blocks)[i].off + HEADER_SIZE;
    }

    /** kfree of a live allocation, which is block i. */
    method FreeLive(ptr: nat, ghost i: nat)
      requires Valid() && ptr in live && i < |blocks| && !blocks[i].free && ptr == base + blocks[i].off + HEADER_SIZE
      modifies this`blocks, this`live, mem
      ensures Valid() && live == old(live) - {ptr} && blocks == Release(old(blocks), i)
      ensures PayloadsKept(old(mem[..]), mem[..], old(blocks), ptr - base - HEADER_SIZE)
      ensures live == map[] ==> blocks == INITIAL
    {
      ghost var m, bs := mem[..], blocks;
      ReleaseBlock(ptr - HEADER_SIZE, i);
      live := live - {ptr};
      ReleaseLive(base, bs, old(live), i);
      ReleaseKeeps(bs, i);
      HeadersKeepPayloads(m, mem[..], bs, i, if i > 0 then i - 1 else i, ptr - base - HEADER_SIZE);
      if live == map[] { NothingLiveIsInitial(base, blocks); }
    }

    lemma LiveIsNotNull()
      requires Valid()
      ensures 0 !in live
    {
    }

    /** The block a live address belongs to. */
    lemma LiveBlock(ptr: nat) returns (i: nat)
      requires Valid() && ptr in live
      ensures i < |blocks| && ptr == base + blocks[i].off + HEADER_SIZE && !blocks[i].free
      ensures live[ptr] <= blocks[i].size < live[ptr] + 48
    {
      assert LiveAt(base, blocks, ptr, live[ptr]);
      var size :| live[ptr] <= size < live[ptr] + 48 && Used(blocks, ptr - base - HEADER_SIZE, size);
      i :| 0 <= i < |blocks| && blocks[i] == Block(ptr - base - HEADER_SIZE, size, false);
    }

    /** Mark the block free and coalesce, forward and then backward. */
    method ReleaseBlock(blk: nat, ghost i: nat)
      requires Valid() && i < |blocks| && blk == base + blocks[i].off
      modifies this`blocks, mem
      ensures blocks == Release(old(blocks), i) && Rep(mem[..], base, blocks)
      ensures OnlyHeaders(old(mem[..]), mem[..], old(blocks)[i].off, old(blocks)[if i > 0 then i - 1 else i].off)
    {
      BlockAt(i);
      ghost var bs, m := blocks, mem[..];
      SetFlag(blk, i, true);
      CoalesceForward(blk, i);
      ghost var f := blocks;
      assert f[..i] == bs[..i];
      var prev;
      prev := FindPrev(blk, i);
      if prev != 0 && Load(prev).free {
        assert f[i - 1] == f[..i][i - 1] == bs[i - 1];
        MergeNext(prev, blk, i - 1);
      }
    }

    /** blk takes over the size and the link of the block behind it. */
    method Absorb(blk: nat, next: nat)
      requires At(blk) && At(next) && blk + HEADER_SIZE <= next &&
               Load(blk).size + HEADER_SIZE + Load(next).size < TWO_TO_THE_32
      modifies mem
      ensures Load(blk) == Header(old(Load(blk).size) + HEADER_SIZE + old(Load(next).size), old(Load(blk).free),
              old(Load(next).next))
      ensures OnlyHeaders(old(mem[..]), mem[..], blk - base, blk - base)
    {
      StoreSize(blk, Load(blk).size + HEADER_SIZE + Load(next).size);
      HeaderFrame(old(mem[..]), mem[..], blk - base, blk - base, next - base);
      StoreNext(blk, Load(next).next);
    }

    /** Block i absorbs its successor. */
    method MergeNext(blk: nat, next: nat, ghost i: nat)
      requires Rep(mem[..], base, blocks) && base + HEAP_SIZE <= TWO_TO_THE_32
      requires i + 1 < |blocks| && blk == base + blocks[i].off && next == base + blocks[i + 1].off
      modifies this`blocks, mem
      ensures blocks == Merge(old(blocks), i) && Rep(mem[..], base, blocks)
      ensures OnlyHeaders(old(mem[..]), mem[..], old(blocks)[i].off, old(blocks)[i].off)
    {
      ghost var m := mem[..];
      HeaderIs(i);
      HeaderIs(i + 1);
      Absorb(blk, next);
      MergeRep(m, mem[..], base, blocks, i);
      blocks := Merge(blocks, i);
    }

    lemma HeaderIs(i: nat)
      requires Rep(mem[..], base, blocks) && i < |blocks|
      ensures At(base + blocks[i].off) && Load(base + blocks[i].off) == HeaderOf(base, blocks, i)
      ensures TileAt(blocks, i)
    {
      assert Encodes(mem[..], base, blocks, i);
    }

    /** The forward loop of kfree. */
    method CoalesceForward(blk: nat, ghost i: nat)
      requires Rep(mem[..], base, blocks) && base + HEAP_SIZE <= TWO_TO_THE_32 && 0 < base
      requires i < |blocks| && blk == base + blocks[i].off
      modifies this`blocks, mem
      ensures blocks == MergeForward(old(blocks), i) && Rep(mem[..], base, blocks)
      ensures OnlyHeaders(old(mem[..]), mem[..], old(blocks)[i].off, old(blocks)[i].off)
    {
      ghost var start := blocks;
      var next, nextFree := Successor(blk, i);
      while next != 0 && nextFree
        invariant Rep(mem[..], base, blocks) && i < |blocks| && blocks[i].off == start[i].off
        invariant next == if i + 1 < |blocks| then base + blocks[i + 1].off else 0
        invariant i + 1 < |blocks| ==> nextFree == blocks[i + 1].free
        invariant MergeForward(start, i) == MergeForward(blocks, i)
        invariant OnlyHeaders(old(mem[..]), mem[..], start[i].off, start[i].off)
        decreases |blocks|
      {
        MergeNext(blk, next, i);
        next, nextFree := Successor(blk, i);
      }
    }

    /** blk->next, and its free flag when there is one. */
    method Successor(blk: nat, ghost i: nat) returns (next: nat, free: bool)
      requires Rep(mem[..], base, blocks) && i < |blocks| && blk == base + blocks[i].off && 0 < base
      ensures next == if i + 1 < |blocks| then base + blocks[i + 1].off else 0
      ensures i + 1 < |blocks| ==> free == blocks[i + 1].free
    {
      HeaderIs(i);
      next, free := Load(blk).next, false;
      if next != 0 {
        HeaderIs(i + 1);
        free := Load(next).free;
      }
    }

    /** The walk of kfree to the block in front of blk. */
    method FindPrev(blk: nat, ghost i: nat) returns (prev: nat)
      requires Rep(mem[..], base, blocks) && 0 < base && head == base
      requires i < |blocks| && blk == base + blocks[i].off
      ensures prev == if i > 0 then base + blocks[i - 1].off else 0
      ensures i > 0 ==> At(prev) && Load(prev) == HeaderOf(base, blocks, i - 1)
    {
      prev := 0;
      var cur := head;
      ghost var k := 0;
      HeaderIs(0);
      while cur != 0 && cur != blk
        invariant 0 <= k <= i && cur == base + blocks[k].off
        invariant At(cur) && Load(cur) == HeaderOf(base, blocks, k)
        invariant prev == if k > 0 then base + blocks[k - 1].off else 0
        invariant k > 0 ==> At(prev) && Load(prev) == HeaderOf(base, blocks, k - 1)
        decreases i - k
      {
        prev := cur;
        cur := Load(cur).next;
        k := k + 1;
        HeaderIs(k);
      }
      if k < i {
        Apart(blocks, k, i);
      }
    }

    /** kmem_stats */
    method Stats() returns (used: nat, freeBytes: nat, largest: nat)
      requires Valid()
      ensures used == Total(blocks, false) && freeBytes == Total(blocks, true) && used + freeBytes == HEAP_SIZE
      ensures largest == Largest(blocks)
    {
      used, freeBytes, largest := 0, 0, 0;
      var blk := head;
      ghost var i := 0;
      BlockAt(0);
      assert blocks[0..] == blocks;
      while blk != 0
        invariant 0 <= i <= |blocks|
        invariant blk == if i < |blocks| then base + blocks[i].off else 0
        invariant i < |blocks| ==> At(blk) && Load(blk) == HeaderOf(base, blocks, i)
        invariant used + Total(blocks[i..], false) == Total(blocks, false)
        invariant freeBytes + Total(blocks[i..], true) == Total(blocks, true)
        invariant Largest(blocks) == Max(largest, Largest(blocks[i..]))
        decreases |blocks| - i
      {
        StatsStep(blocks, i);
        var b := Load(blk);
        if b.free {
          freeBytes := freeBytes + HEADER_SIZE + b.size;
          if b.size > largest {
            largest := b.size;
          }
        } else {
          used := used + HEADER_SIZE + b.size;
        }
        blk := b.next;
        i := i + 1;
        if i < |blocks| {
          BlockAt(i);
        }
      }
      TotalsAddUp(blocks);
    }
  }
}
