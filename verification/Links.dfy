/**
 Singly linked lists threaded through one `next` cell per TCB.

 A TCB is named by its slot in the TCB pool, and `NULL` is -1.  `Chain` says that
 following the cells from a head visits exactly the slots of a sequence and then
 ends.  Ready queues and waiter lists share the cells, so an operation on one list
 states which cells it may write; `ChainFrame` carries every other list across it.
 */
module Links {

  const NULL: int := -1

  ghost predicate NoDup(q: seq<int>) {
    forall i, j :: 0 <= i < j < |q| ==> q[i] != q[j]
  }

  /** The cell value that must follow position i of q. */
  function After(q: seq<nat>, i: nat): int {
    if i + 1 < |q| then q[i + 1] else NULL
  }

  /** The cell value of a walk at position i of q, and of the pointer that trails it. */
  function CursorAt(q: seq<nat>, i: nat): int {
    if i < |q| then q[i] else NULL
  }

  function TrailAt(q: seq<nat>, i: nat): int
    requires i <= |q|
  {
    if i == 0 then NULL else q[i - 1]
  }

  ghost predicate Chain(link: seq<int>, head: int, q: seq<nat>) {
    && head == (if q == [] then NULL else q[0])
    && forall i :: 0 <= i < |q| ==> q[i] < |link| && link[q[i]] == After(q, i)
  }

  /** q without the first occurrence of t. */
  function Remove(q: seq<nat>, t: nat): (r: seq<nat>)
    ensures t !in q ==> r == q
    ensures t in q ==> |r| == |q| - 1
    ensures forall x :: x in r ==> x in q
    ensures NoDup(q) ==> NoDup(r) && forall x :: x in r <==> x in q && x != t
  {
    if q == [] then []
    else
      assert forall x :: x in q <==> x == q[0] || x in q[1..];
      assert NoDup(q) ==> NoDup(q[1..]) && q[0] !in q[1..];
      if q[0] == t then q[1..]
      else
        var r := Remove(q[1..], t);
        assert NoDup(q) ==> q[0] !in r;
        [q[0]] + r
  }

  /** The part of q in front of the first occurrence of t; all of q when t is absent. */
  function Front(q: seq<nat>, t: nat): (r: seq<nat>)
    ensures r <= q && t !in r
    ensures t in q ==> |r| < |q| && q[|r|] == t
    ensures t !in q ==> r == q
  {
    if q == [] || q[0] == t then []
    else
      var r := Front(q[1..], t);
      assert t in q ==> t in q[1..];
      [q[0]] + r
  }

  /** A sequence that the cells spell out visits no slot twice: the list is acyclic. */
  lemma {:induction false} ChainIsAcyclic(link: seq<int>, head: int, q: seq<nat>)
    requires Chain(link, head, q)
    ensures NoDup(q)
  {
    forall i, j | 0 <= i < j < |q|
      ensures q[i] != q[j]
    {
      SameSlotSameRest(link, head, q, i, j);
    }
  }

  lemma {:induction false} SameSlotSameRest(link: seq<int>, head: int, q: seq<nat>, i: nat, j: nat)
    requires Chain(link, head, q) && i < j < |q|
    ensures q[i] != q[j]
    decreases |q| - j
  {
    assert link[q[i]] == After(q, i) && link[q[j]] == After(q, j);
    if j + 1 < |q| {
      SameSlotSameRest(link, head, q, i + 1, j + 1);
    }
  }

  /** The cells determine the list. */
  lemma {:induction false} ChainIsUnique(link: seq<int>, head: int, q: seq<nat>, r: seq<nat>)
    requires Chain(link, head, q) && Chain(link, head, r)
    ensures q == r
    decreases |q|
  {
    if q != [] && r != [] {
      var h := link[q[0]];
      TailChain(link, head, q);
      TailChain(link, head, r);
      ChainIsUnique(link, h, q[1..], r[1..]);
      assert q == [q[0]] + q[1..] && r == [r[0]] + r[1..];
    }
  }

  lemma TailChain(link: seq<int>, head: int, q: seq<nat>)
    requires Chain(link, head, q) && q != []
    ensures Chain(link, link[q[0]], q[1..])
  {
    forall i | 0 <= i < |q[1..]|
      ensures q[1..][i] < |link| && link[q[1..][i]] == After(q[1..], i)
    {
      assert link[q[i + 1]] == After(q, i + 1);
    }
  }

  /** Writes outside a list leave it as it was. */
  lemma ChainFrame(link: seq<int>, link': seq<int>, head: int, q: seq<nat>)
    requires Chain(link, head, q) && |link'| == |link|
    requires forall x :: x in q && x < |link| ==> link'[x] == link[x]
    ensures Chain(link', head, q)
  {
  }

  /** Storing NULL in the cell of a list member drops everything behind it. */
  lemma ChainCut(link: seq<int>, head: int, q: seq<nat>, t: nat)
    requires Chain(link, head, q) && t in q
    ensures Chain(link[t := NULL], head, Front(q, t) + [t])
  {
    ChainIsAcyclic(link, head, q);
    var f := Front(q, t);
    var r := f + [t];
    assert r <= q;
    forall i | 0 <= i < |r|
      ensures r[i] < |link| && link[t := NULL][r[i]] == After(r, i)
    {
      assert r[i] == q[i];
      assert link[q[i]] == After(q, i);
    }
  }

  /** Append t at the tail: the walk of sched_add_thread_raw and of waiter_enqueue. */
  method AppendTail(link: array<int>, heads: array<int>, h: nat, t: nat, ghost q: seq<nat>)
    requires link != heads && h < heads.Length && t < link.Length
    requires Chain(link[..][t := NULL], heads[h], q) && t !in q
    modifies link, heads
    ensures Chain(link[..], heads[h], q + [t])
    ensures forall x :: 0 <= x < link.Length && x !in q && x != t ==> link[x] == old(link[x])
    ensures forall k :: 0 <= k < heads.Length && k != h ==> heads[k] == old(heads[k])
  {
    link[t] := NULL;
    assert link[..] == old(link[..])[t := NULL];
    if heads[h] == NULL {
      heads[h] := t;
      return;
    }
    var cur := heads[h];
    ghost var i := 0;
    while link[cur] != NULL
      invariant 0 <= i < |q| && cur == q[i]
      invariant link[..] == old(link[..])[t := NULL]
      decreases |q| - i
    {
      assert link[..][q[i]] == After(q, i);
      cur := link[cur];
      i := i + 1;
    }
    assert link[..][q[i]] == After(q, i);
    ghost var before := link[..];
    link[cur] := t;
    assert link[..] == before[cur := t];
    AppendedChain(before, heads[h], q, t);
  }

  lemma AppendedChain(link: seq<int>, head: int, q: seq<nat>, t: nat)
    requires q != [] && Chain(link, head, q) && t < |link| && t !in q && link[t] == NULL
    ensures Chain(link[q[|q| - 1] := t], head, q + [t])
  {
    ChainIsAcyclic(link, head, q);
    var r := q + [t];
    var link' := link[q[|q| - 1] := t];
    forall i | 0 <= i < |r|
      ensures r[i] < |link'| && link'[r[i]] == After(r, i)
    {
      if i < |q| {
        assert link[q[i]] == After(q, i);
      }
    }
  }

  /** Take t out of the list if it is there: the walk of sched_remove_thread_raw. */
  method Unlink(link: array<int>, heads: array<int>, h: nat, t: nat, ghost q: seq<nat>)
    requires link != heads && h < heads.Length
    requires Chain(link[..], heads[h], q)
    modifies link, heads
    ensures Chain(link[..], heads[h], Remove(q, t))
    ensures t in q ==> t < link.Length && link[t] == NULL
    ensures t !in q ==> link[..] == old(link[..]) && heads[..] == old(heads[..])
    ensures forall x :: 0 <= x < link.Length && x !in q ==> link[x] == old(link[x])
    ensures forall k :: 0 <= k < heads.Length && k != h ==> heads[k] == old(heads[k])
  {
    var prev, cur;
    ghost var i;
    prev, cur, i := Locate(link, heads[h], t, q);
    if cur != NULL {
      Bypass(link, heads, h, prev, q, i);
      RemoveAt(q, i);
    }
  }

  /** Walk to t, remembering the member in front of it. */
  method Locate(link: array<int>, head: int, t: nat, ghost q: seq<nat>) returns (prev: int, cur: int, ghost i: nat)
    requires Chain(link[..], head, q)
    ensures i <= |q| && t !in q[..i] && cur == (if i < |q| then t else NULL) && (i < |q| ==> q[i] == t)
    ensures prev == (if i == 0 then NULL else q[i - 1])
    ensures cur == NULL ==> t !in q
  {
    prev, cur, i := NULL, head, 0;
    while cur != NULL && cur != t
      invariant 0 <= i <= |q| && cur == (if i < |q| then q[i] else NULL)
      invariant prev == (if i == 0 then NULL else q[i - 1])
      invariant t !in q[..i]
      decreases |q| - i
    {
      assert link[..][q[i]] == After(q, i);
      prev := cur;
      cur := link[cur];
      i := i + 1;
    }
    assert q[..|q|] == q;
  }

  /** Splice position i out of the list: its predecessor takes over its cell. */
  method Bypass(link: array<int>, heads: array<int>, h: nat, prev: int, ghost q: seq<nat>, ghost i: nat)
    requires link != heads && h < heads.Length && i < |q|
    requires Chain(link[..], heads[h], q)
    requires prev == (if i == 0 then NULL else q[i - 1])
    modifies link, heads
    ensures Chain(link[..], heads[h], q[..i] + q[i + 1..])
    ensures q[i] < link.Length && link[q[i]] == NULL
    ensures forall x :: 0 <= x < link.Length && x !in q ==> link[x] == old(link[x])
    ensures forall k :: 0 <= k < heads.Length && k != h ==> heads[k] == old(heads[k])
  {
    ghost var before, head := link[..], heads[h];
    UnlinkedChain(before, head, q, i);
    if prev == NULL {
      var cur := heads[h];
      heads[h] := link[cur];
      link[cur] := NULL;
      assert link[..] == before[q[i] := NULL];
    } else {
      var cur := link[prev];
      assert before[q[i - 1]] == After(q, i - 1);
      link[prev] := link[cur];
      link[cur] := NULL;
      assert link[..] == before[q[i - 1] := before[q[i]]][q[i] := NULL];
    }
  }

  lemma {:induction false} RemoveAt(q: seq<nat>, i: nat)
    requires i < |q| && q[i] !in q[..i]
    ensures Remove(q, q[i]) == q[..i] + q[i + 1..]
  {
    if i > 0 {
      assert q[0] == q[..i][0];
      assert q[1..][..i - 1] == q[..i][1..];
      RemoveAt(q[1..], i - 1);
      assert q[..i] + q[i + 1..] == [q[0]] + (q[1..][..i - 1] + q[1..][i..]);
    }
  }

  lemma UnlinkedChain(link: seq<int>, head: int, q: seq<nat>, i: nat)
    requires Chain(link, head, q) && i < |q|
    ensures
      var cut := if i == 0 then link else link[q[i - 1] := link[q[i]]];
      Chain(cut[q[i] := NULL], if i == 0 then link[q[0]] else head, q[..i] + q[i + 1..])
  {
    ChainIsAcyclic(link, head, q);
    var r := q[..i] + q[i + 1..];
    var cut := if i == 0 then link else link[q[i - 1] := link[q[i]]];
    var link' := cut[q[i] := NULL];
    assert link[q[i]] == After(q, i);
    forall k | 0 <= k < |r|
      ensures r[k] < |link'| && link'[r[k]] == After(r, k)
    {
      var j := if k < i then k else k + 1;
      assert r[k] == q[j] && link[q[j]] == After(q, j) && q[j] != q[i];
      AfterSplice(q, i, k);
    }
  }

  /** Who follows position k once position i is spliced out. */
  lemma AfterSplice(q: seq<nat>, i: nat, k: nat)
    requires i < |q| && k < |q| - 1
    ensures
      var r := q[..i] + q[i + 1..];
      && |r| == |q| - 1 && r[k] == q[if k < i then k else k + 1]
      && After(r, k) == if k < i - 1 then After(q, k) else if k < i then After(q, i) else After(q, k + 1)
  {
  }

  /** Take the head off a list: waiter_dequeue. */
  method Dequeue(link: array<int>, heads: array<int>, h: nat, ghost q: seq<nat>) returns (t: int)
    requires link != heads && h < heads.Length
    requires Chain(link[..], heads[h], q)
    modifies link, heads
    ensures q == [] ==> t == NULL && link[..] == old(link[..]) && heads[..] == old(heads[..])
    ensures q != [] ==> t == q[0] && Chain(link[..], heads[h], q[1..])
    ensures forall x :: 0 <= x < link.Length && x !in q ==> link[x] == old(link[x])
    ensures forall k :: 0 <= k < heads.Length && k != h ==> heads[k] == old(heads[k])
  {
    if heads[h] == NULL {
      return NULL;
    }
    t := heads[h];
    ghost var before := link[..];
    ChainIsAcyclic(before, heads[h], q);
    TailChain(before, heads[h], q);
    heads[h] := link[t];
    link[t] := NULL;
    assert link[..] == before[t := NULL];
    ChainFrame(before, link[..], heads[h], q[1..]);
  }

  // ---- counting --------------------------------------------------------------------------

  function FirstNumbers(n: nat): (r: set<nat>)
    ensures |r| == n && forall x: nat :: x in r <==> x < n
  {
    if n == 0 then {} else FirstNumbers(n - 1) + {n - 1}
  }

  lemma SubsetCount(a: set<int>, b: set<int>)
    requires a <= b
    ensures |a| <= |b|
  {
    assert b * a == a && |b| == |b - a| + |b * a|;
  }
}
