/**
 The block structure of the kernel heap of src/kernel/mem.c: what kmalloc and kfree do to
 the sequence of blocks, in address order.  `Heap` ties it to the bytes.
 */
module HeapBlocks {
  import opened Bytes

  const HEAP_SIZE: nat := 65536
  const HEADER_SIZE: nat := 16
  const SPLIT_THRESHOLD: nat := 32

  /** off is the offset of the header, size the payload that follows it. */
  datatype Block = Block(off: nat, size: nat, free: bool)

  function End(b: Block): nat {
    b.off + HEADER_SIZE + b.size
  }

  /** The blocks cover the heap without gaps, on 8-byte boundaries. */
  ghost predicate Tiles(bs: seq<Block>) {
    && bs != [] && bs[0].off == 0
    && forall i :: 0 <= i < |bs| ==> TileAt(bs, i)
  }

  /** Block i is aligned and ends where the next one, or the heap, does. */
  ghost predicate TileAt(bs: seq<Block>, i: nat)
    requires i < |bs|
  {
    && bs[i].off % 8 == 0 && bs[i].size % 8 == 0 && End(bs[i]) <= HEAP_SIZE
    && End(bs[i]) == NextOff(bs, i)
  }

  function NextOff(bs: seq<Block>, i: nat): nat
    requires i < |bs|
  {
    if i + 1 < |bs| then bs[i + 1].off else HEAP_SIZE
  }

  ghost predicate NoAdjacentFree(bs: seq<Block>) {
    forall i :: 0 <= i < |bs| - 1 ==> !(bs[i].free && bs[i + 1].free)
  }

  /** Blocks do not overlap: neither headers nor payloads. */
  lemma {:induction false} Apart(bs: seq<Block>, i: nat, j: nat)
    requires Tiles(bs) && i < j < |bs|
    ensures End(bs[i]) <= bs[j].off
    decreases j - i
  {
    assert TileAt(bs, i);
    if i + 1 < j {
      Apart(bs, i + 1, j);
    }
  }

  lemma AllApart(bs: seq<Block>)
    requires Tiles(bs)
    ensures forall i, j :: 0 <= i < j < |bs| ==> End(bs[i]) <= bs[j].off
  {
    forall i, j | 0 <= i < j < |bs|
      ensures End(bs[i]) <= bs[j].off
    {
      Apart(bs, i, j);
    }
  }

  /** ALIGN8 on a 32-bit size. */
  function Align8(size: nat): (r: nat)
    requires size < TWO_TO_THE_32
    ensures r % 8 == 0 && r < TWO_TO_THE_32
    ensures r >= size <==> size <= TWO_TO_THE_32 - 8
    ensures size <= TWO_TO_THE_32 - 8 ==> r < size + 8
  {
    (size + 7) % TWO_TO_THE_32 / 8 * 8
  }

  // ---- kmalloc ------------------------------------------------------------------------

  /** The first free block of at least n bytes. */
  function FirstFit(bs: seq<Block>, n: nat): (i: nat)
    ensures i <= |bs|
    ensures i < |bs| ==> bs[i].free && bs[i].size >= n
    ensures forall k :: 0 <= k < i ==> !(bs[k].free && bs[k].size >= n)
  {
    if bs == [] || (bs[0].free && bs[0].size >= n) then 0 else 1 + FirstFit(bs[1..], n)
  }

  predicate Splits(b: Block, n: nat)
    requires n <= b.size
  {
    b.size - n >= HEADER_SIZE + SPLIT_THRESHOLD
  }

  /** Block i is cut to n bytes and the rest becomes a free block. */
  function Split(bs: seq<Block>, i: nat, n: nat): seq<Block>
    requires i < |bs| && n <= bs[i].size && Splits(bs[i], n)
  {
    bs[..i] + [bs[i].(size := n), Block(bs[i].off + HEADER_SIZE + n, bs[i].size - n - HEADER_SIZE, true)] + bs[i + 1..]
  }

  function Allocate(bs: seq<Block>, i: nat, n: nat): (r: seq<Block>)
    requires i < |bs| && n <= bs[i].size
    ensures i < |r| && r[i].off == bs[i].off && !r[i].free && r[i].size >= n
  {
    var cut := if Splits(bs[i], n) then Split(bs, i, n) else bs;
    cut[i := cut[i].(free := false)]
  }

  lemma SplitTiles(bs: seq<Block>, i: nat, n: nat)
    requires Tiles(bs) && i < |bs| && n <= bs[i].size && n % 8 == 0 && Splits(bs[i], n)
    ensures Tiles(Split(bs, i, n))
  {
    var r := Split(bs, i, n);
    forall k | 0 <= k < |r|
      ensures TileAt(r, k)
    {
      if i <= k <= i + 1 {
        SplitHalves(bs, i, n, r);
      } else {
        SplitElsewhere(bs, i, n, r, k);
      }
    }
  }

  lemma SplitHalves(bs: seq<Block>, i: nat, n: nat, r: seq<Block>)
    requires Tiles(bs) && i < |bs| && n <= bs[i].size && n % 8 == 0 && Splits(bs[i], n) && r == Split(bs, i, n)
    ensures TileAt(r, i) && TileAt(r, i + 1)
  {
    assert TileAt(bs, i);
    assert NextOff(r, i + 1) == NextOff(bs, i);
  }

  lemma SplitElsewhere(bs: seq<Block>, i: nat, n: nat, r: seq<Block>, k: nat)
    requires Tiles(bs) && i < |bs| && n <= bs[i].size && Splits(bs[i], n) && r == Split(bs, i, n)
    requires k < |r| && !(i <= k <= i + 1)
    ensures TileAt(r, k)
  {
    var j := if k < i then k else k - 1;
    assert TileAt(bs, j) && r[k] == bs[j] && NextOff(r, k) == NextOff(bs, j);
  }

  lemma SetFreeTiles(bs: seq<Block>, i: nat, free: bool)
    requires Tiles(bs) && i < |bs|
    ensures Tiles(bs[i := bs[i].(free := free)])
  {
    var r := bs[i := bs[i].(free := free)];
    forall k | 0 <= k < |r|
      ensures TileAt(r, k)
    {
      assert TileAt(bs, k);
    }
  }

  /** kmalloc keeps the heap tiled and coalesced. */
  lemma AllocateKeeps(bs: seq<Block>, i: nat, n: nat)
    requires Tiles(bs) && NoAdjacentFree(bs) && i < |bs| && bs[i].free && n <= bs[i].size && n % 8 == 0
    ensures Tiles(Allocate(bs, i, n)) && NoAdjacentFree(Allocate(bs, i, n))
  {
    if Splits(bs[i], n) {
      SplitTiles(bs, i, n);
      SetFreeTiles(Split(bs, i, n), i, false);
      SplitKeepsApart(bs, i, n);
    } else {
      SetFreeTiles(bs, i, false);
    }
  }

  lemma SplitKeepsApart(bs: seq<Block>, i: nat, n: nat)
    requires NoAdjacentFree(bs) && i < |bs| && bs[i].free && n <= bs[i].size && Splits(bs[i], n)
    ensures NoAdjacentFree(Allocate(bs, i, n))
  {
    var r := Allocate(bs, i, n);
    forall k | 0 <= k < |r| - 1
      ensures !(r[k].free && r[k + 1].free)
    {
      if k < i {
        assert !(bs[k].free && bs[k + 1].free);
      } else if k > i {
        assert k < |bs| ==> !(bs[k - 1].free && bs[k].free);
      }
    }
  }

  // ---- kfree --------------------------------------------------------------------------

  /** Block i swallows its successor. */
  function Merge(bs: seq<Block>, i: nat): (r: seq<Block>)
    requires i + 1 < |bs|
    ensures |r| == |bs| - 1
  {
    bs[..i] + [bs[i].(size := bs[i].size + HEADER_SIZE + bs[i + 1].size)] + bs[i + 2..]
  }

  function MergeForward(bs: seq<Block>, i: nat): (r: seq<Block>)
    requires i < |bs|
    ensures i < |r| <= |bs| && r[..i] == bs[..i] && r[i].off == bs[i].off && r[i].free == bs[i].free
    decreases |bs|
  {
    if i + 1 < |bs| && bs[i + 1].free then MergeForward(Merge(bs, i), i) else bs
  }

  function Release(bs: seq<Block>, i: nat): seq<Block>
    requires i < |bs|
  {
    var f := MergeForward(bs[i := bs[i].(free := true)], i);
    if i > 0 && f[i - 1].free then Merge(f, i - 1) else f
  }

  lemma MergeTiles(bs: seq<Block>, i: nat)
    requires Tiles(bs) && i + 1 < |bs|
    ensures Tiles(Merge(bs, i))
  {
    var r := Merge(bs, i);
    forall k | 0 <= k < |r|
      ensures TileAt(r, k)
    {
      assert TileAt(bs, if k < i then k else k + 1) && TileAt(bs, i);
    }
  }

  /** No two free neighbours, except that block i may have free ones. */
  ghost predicate FreeOnlyAround(bs: seq<Block>, i: nat) {
    forall k :: 0 <= k < |bs| - 1 && k + 1 != i && k != i ==> !(bs[k].free && bs[k + 1].free)
  }

  lemma {:induction false} MergeForwardKeeps(bs: seq<Block>, i: nat)
    requires Tiles(bs) && i < |bs| && bs[i].free && FreeOnlyAround(bs, i)
    ensures
      var r := MergeForward(bs, i);
      Tiles(r) && FreeOnlyAround(r, i) && (i + 1 < |r| ==> !r[i + 1].free)
    decreases |bs|
  {
    if i + 1 < |bs| && bs[i + 1].free {
      MergeTiles(bs, i);
      var m := Merge(bs, i);
      forall k | 0 <= k < |m| - 1 && k + 1 != i && k != i
        ensures !(m[k].free && m[k + 1].free)
      {
        var j := if k < i then k else k + 1;
        assert m[k] == bs[j] && m[k + 1] == bs[j + 1];
      }
      MergeForwardKeeps(m, i);
    }
  }

  /** kfree keeps the heap tiled and coalesced. */
  lemma ReleaseKeeps(bs: seq<Block>, i: nat)
    requires Tiles(bs) && NoAdjacentFree(bs) && i < |bs|
    ensures Tiles(Release(bs, i)) && NoAdjacentFree(Release(bs, i))
  {
    var start := bs[i := bs[i].(free := true)];
    SetFreeTiles(bs, i, true);
    MergeForwardKeeps(start, i);
    var f := MergeForward(start, i);
    assert f[..i] == bs[..i];
    if i > 0 {
      assert f[i - 1] == f[..i][i - 1] == bs[..i][i - 1] == bs[i - 1];
    }
    if i > 1 {
      assert f[i - 2] == f[..i][i - 2] == bs[..i][i - 2] == bs[i - 2];
      assert !(bs[i - 2].free && bs[i - 2 + 1].free);
    }
    if i > 0 && f[i - 1].free {
      MergeTiles(f, i - 1);
      MergeBackKeepsApart(f, i);
    }
  }

  lemma MergeBackKeepsApart(f: seq<Block>, i: nat)
    requires 0 < i < |f| && f[i - 1].free && FreeOnlyAround(f, i)
    requires (i + 1 < |f| ==> !f[i + 1].free) && (i > 1 ==> !f[i - 2].free)
    ensures NoAdjacentFree(Merge(f, i - 1))
  {
    var r := Merge(f, i - 1);
    forall k | 0 <= k < |r| - 1
      ensures !(r[k].free && r[k + 1].free)
    {
      if k + 1 < i - 1 {
        assert !(f[k].free && f[k + 1].free);
      } else if k >= i {
        assert !(f[k + 1].free && f[k + 1 + 1].free);
      }
    }
  }

  // ---- what is live ----------------------------------------------------------------------

  /** A used block with this header offset and payload size. */
  ghost predicate Used(bs: seq<Block>, off: nat, size: nat) {
    Block(off, size, false) in bs
  }

  /** Allocation adds one used block and leaves every other one in place. */
  lemma AllocateUses(bs: seq<Block>, i: nat, n: nat, off: nat, size: nat)
    requires i < |bs| && bs[i].free && n <= bs[i].size
    ensures
      var r := Allocate(bs, i, n);
      Used(r, off, size) <==> Used(bs, off, size) || (off == bs[i].off && size == r[i].size)
  {
    var r := Allocate(bs, i, n);
    var b := Block(off, size, false);
    if b in bs {
      var k :| 0 <= k < |bs| && bs[k] == b;
      if k < i || !Splits(bs[i], n) {
        assert r[k] == b;
      } else {
        assert r[k + 1] == b;
      }
    }
    if b in r {
      var k :| 0 <= k < |r| && r[k] == b;
      if k < i || !Splits(bs[i], n) {
        assert k != i ==> bs[k] == b;
      } else if k > i {
        assert bs[k - 1] == b;
      }
    }
    assert r[i] == Block(bs[i].off, r[i].size, false);
  }

  lemma MergeUses(bs: seq<Block>, i: nat, off: nat, size: nat)
    requires i + 1 < |bs| && bs[i].free && bs[i + 1].free
    ensures Used(Merge(bs, i), off, size) <==> Used(bs, off, size)
  {
    var b, r := Block(off, size, false), Merge(bs, i);
    if b in bs {
      var k :| 0 <= k < |bs| && bs[k] == b;
      assert r[if k < i then k else k - 1] == b;
    }
    if b in r {
      var k :| 0 <= k < |r| && r[k] == b;
      assert b == bs[if k < i then k else k + 1];
    }
  }

  lemma {:induction false} MergeForwardUses(bs: seq<Block>, i: nat, off: nat, size: nat)
    requires i < |bs| && bs[i].free
    ensures Used(MergeForward(bs, i), off, size) <==> Used(bs, off, size)
    decreases |bs|
  {
    if i + 1 < |bs| && bs[i + 1].free {
      MergeUses(bs, i, off, size);
      MergeForwardUses(Merge(bs, i), i, off, size);
    }
  }

  /** Release removes exactly block i from the used ones. */
  lemma ReleaseUses(bs: seq<Block>, i: nat, off: nat, size: nat)
    requires Tiles(bs) && i < |bs| && !bs[i].free
    ensures Used(Release(bs, i), off, size) <==> Used(bs, off, size) && off != bs[i].off
  {
    var b, start := Block(off, size, false), bs[i := bs[i].(free := true)];
    AllApart(bs);
    if b in bs {
      var k :| 0 <= k < |bs| && bs[k] == b;
      assert k != i ==> start[k] == b && off != bs[i].off;
    }
    if b in start {
      var k :| 0 <= k < |start| && start[k] == b;
      assert k != i && bs[k] == b;
    }
    MergeForwardUses(start, i, off, size);
    var f := MergeForward(start, i);
    if i > 0 && f[i - 1].free {
      MergeUses(f, i - 1, off, size);
    }
  }

  // ---- totals ----------------------------------------------------------------------------

  /** The bytes of the used (or free) blocks, headers included. */
  function Total(bs: seq<Block>, free: bool): nat {
    if bs == [] then 0
    else (if bs[0].free == free then HEADER_SIZE + bs[0].size else 0) + Total(bs[1..], free)
  }

  /** The largest free payload, 0 when there is none. */
  function Largest(bs: seq<Block>): nat {
    if bs == [] then 0
    else
      var rest := Largest(bs[1..]);
      if bs[0].free && bs[0].size > rest then bs[0].size else rest
  }

  lemma {:induction false} LargestIs(bs: seq<Block>)
    ensures forall k :: 0 <= k < |bs| && bs[k].free ==> bs[k].size <= Largest(bs)
    ensures Largest(bs) == 0 || exists k :: 0 <= k < |bs| && bs[k].free && bs[k].size == Largest(bs)
  {
    if bs != [] {
      LargestIs(bs[1..]);
      assert forall k :: 0 < k < |bs| ==> bs[k] == bs[1..][k - 1];
      if Largest(bs) == Largest(bs[1..]) && Largest(bs) != 0 {
        var k :| 0 <= k < |bs[1..]| && bs[1..][k].free && bs[1..][k].size == Largest(bs);
        assert bs[k + 1].free && bs[k + 1].size == Largest(bs);
      }
    }
  }

  lemma {:induction false} TotalsFrom(bs: seq<Block>, k: nat)
    requires Tiles(bs) && k < |bs|
    ensures Total(bs[k..], true) + Total(bs[k..], false) == HEAP_SIZE - bs[k].off
    decreases |bs| - k
  {
    assert bs[k..][1..] == bs[k + 1..];
    assert TileAt(bs, k);
    if k + 1 < |bs| {
      TotalsFrom(bs, k + 1);
    }
  }

  /** Used and free bytes always add up to the whole heap. */
  lemma TotalsAddUp(bs: seq<Block>)
    requires Tiles(bs)
    ensures Total(bs, true) + Total(bs, false) == HEAP_SIZE
  {
    TotalsFrom(bs, 0);
    assert bs[0..] == bs;
  }

  /** kmalloc of a non-zero rounded size fails exactly when it exceeds the largest free block. */
  lemma FailsIffTooLarge(bs: seq<Block>, n: nat)
    requires n > 0
    ensures FirstFit(bs, n) == |bs| <==> n > Largest(bs)
  {
    LargestIs(bs);
  }

  const INITIAL: seq<Block> := [Block(0, HEAP_SIZE - HEADER_SIZE, true)]

  /** A coalesced heap with nothing in use is the initial heap. */
  lemma AllFreeIsInitial(bs: seq<Block>)
    requires Tiles(bs) && NoAdjacentFree(bs) && forall off, size :: !Used(bs, off, size)
    ensures bs == INITIAL
  {
    assert |bs| > 1 ==> !(bs[0].free && bs[0 + 1].free);
    assert TileAt(bs, 0);
    forall k | 0 <= k < |bs|
      ensures bs[k].free
    {
      assert bs[k] in bs;
      assert !Used(bs, bs[k].off, bs[k].size);
    }
  }

  // ---- what a call costs ----------------------------------------------------------------------

  lemma {:induction false} TotalAppend(a: seq<Block>, b: seq<Block>, free: bool)
    ensures Total(a + b, free) == Total(a, free) + Total(b, free)
  {
    if a == [] {
      assert a + b == b;
    } else {
      assert (a + b)[1..] == a[1..] + b;
      TotalAppend(a[1..], b, free);
    }
  }

  /** The total of a heap in three parts. */
  lemma TotalAround(a: seq<Block>, mid: seq<Block>, c: seq<Block>, free: bool)
    ensures Total(a + mid + c, free) == Total(a, free) + Total(mid, free) + Total(c, free)
  {
    TotalAppend(a + mid, c, free);
    TotalAppend(a, mid, free);
  }

  lemma TotalOfTwo(b: Block, c: Block, free: bool)
    ensures Total([b], free) == if b.free == free then HEADER_SIZE + b.size else 0
    ensures Total([b, c], free) == Total([b], free) + Total([c], free)
  {
    assert [b, c][1..] == [c];
  }

  /**
   kmalloc of n bytes uses up n bytes and a header, and less than another 48 bytes: what is left over
   of the block found becomes a free block of its own when that is 48 bytes or more.
   */
  lemma AllocateTakes(bs: seq<Block>, i: nat, n: nat)
    requires i < |bs| && bs[i].free && n <= bs[i].size
    ensures
      var r := Allocate(bs, i, n);
      && Total(bs, false) + n + 16 <= Total(r, false) < Total(bs, false) + n + 64
      && n <= r[i].size < n + 48
  {
    var r := Allocate(bs, i, n);
    if Splits(bs[i], n) {
      assert r == bs[..i] + [r[i], r[i + 1]] + bs[i + 1..];
      TotalOfTwo(r[i], r[i + 1], false);
      TotalOfTwo(r[i + 1], r[i + 1], false);
      TotalReplaced(bs, i, [r[i], r[i + 1]]);
    } else {
      assert r == bs[..i] + [r[i]] + bs[i + 1..];
      TotalOfTwo(r[i], r[i], false);
      TotalReplaced(bs, i, [r[i]]);
    }
  }

  /** Free block i replaced by others. */
  lemma TotalReplaced(bs: seq<Block>, i: nat, mid: seq<Block>)
    requires i < |bs| && bs[i].free
    ensures Total(bs[..i] + mid + bs[i + 1..], false) == Total(bs, false) + Total(mid, false)
  {
    assert bs == bs[..i] + [bs[i]] + bs[i + 1..];
    TotalAround(bs[..i], [bs[i]], bs[i + 1..], false);
    TotalAround(bs[..i], mid, bs[i + 1..], false);
    TotalOfTwo(bs[i], bs[i], false);
  }

  lemma MergeTotal(bs: seq<Block>, i: nat)
    requires i + 1 < |bs| && bs[i].free && bs[i + 1].free
    ensures Total(Merge(bs, i), false) == Total(bs, false)
  {
    var r, a, c := Merge(bs, i), bs[..i], bs[i + 2..];
    assert bs == a + [bs[i], bs[i + 1]] + c;
    assert r == a + [r[i]] + c;
    TotalAround(a, [bs[i], bs[i + 1]], c, false);
    TotalAround(a, [r[i]], c, false);
    TotalOfTwo(bs[i], bs[i + 1], false);
    TotalOfTwo(bs[i + 1], bs[i + 1], false);
    TotalOfTwo(r[i], r[i], false);
  }

  lemma {:induction false} MergeForwardTotal(bs: seq<Block>, i: nat)
    requires i < |bs| && bs[i].free
    ensures Total(MergeForward(bs, i), false) == Total(bs, false)
    decreases |bs|
  {
    if i + 1 < |bs| && bs[i + 1].free {
      MergeTotal(bs, i);
      MergeForwardTotal(Merge(bs, i), i);
    }
  }

  /** Marking used block i free. */
  lemma FreedTotal(bs: seq<Block>, i: nat, freed: seq<Block>)
    requires i < |bs| && !bs[i].free && freed == bs[i := bs[i].(free := true)]
    ensures Total(freed, false) + bs[i].size + 16 == Total(bs, false)
  {
    var a, c := bs[..i], bs[i + 1..];
    assert bs == a + [bs[i]] + c && freed == a + [freed[i]] + c;
    TotalAround(a, [bs[i]], c, false);
    TotalAround(a, [freed[i]], c, false);
    TotalOfTwo(bs[i], bs[i], false);
    TotalOfTwo(freed[i], freed[i], false);
  }

  /** kfree gives back the block and its header, and merging costs nothing. */
  lemma ReleaseReturns(bs: seq<Block>, i: nat)
    requires i < |bs| && !bs[i].free
    ensures Total(Release(bs, i), false) + bs[i].size + 16 == Total(bs, false)
  {
    var freed := bs[i := bs[i].(free := true)];
    FreedTotal(bs, i, freed);
    MergeForwardTotal(freed, i);
    var f := MergeForward(freed, i);
    if i > 0 && f[i - 1].free {
      MergeTotal(f, i - 1);
    }
  }

  /** On the initial heap a request of m bytes after one of n fails only if it exceeds what n has left. */
  lemma SecondRequest(n: nat, m: nat)
    requires 0 < n <= 65520 && 0 < m
    ensures
      var r := Allocate(INITIAL, 0, n);
      FirstFit(r, m) < |r| <==> n + m <= 65504 && n <= 65472
  {
    var r := Allocate(INITIAL, 0, n);
    assert |r| <= 2 && r[1..] == if |r| == 2 then [r[1]] else [];
    if |r| == 2 {
      assert [r[1]][1..] == [];
    }
  }
}
