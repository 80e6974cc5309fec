/** Bytes and little-endian 32-bit words, as they lie in memory and in flash. */
module Bytes {
  const TWO_TO_THE_32: nat := 0x1_0000_0000

  type Byte = x: nat | x < 256

  /** The number some little-endian bytes stand for. */
  function Value(b: seq<Byte>): nat {
    if b == [] then 0 else b[0] as nat + 256 * Value(b[1..])
  }

  lemma WordValue(b: seq<Byte>)
    requires |b| == 4
    ensures Value(b) == b[0] as nat + 256 * b[1] as nat + 65536 * b[2] as nat + 16777216 * b[3] as nat
  {
    assert b[1..][0] == b[1] && b[1..][1..] == b[2..] && b[2..][1..] == b[3..] && b[3..][1..] == [];
    assert Value(b[3..]) == b[3] as nat;
    assert Value(b[2..]) == b[2] as nat + 256 * b[3] as nat;
  }

  /** A 32-bit word. */
  function Word(m: seq<Byte>, at: nat): (w: nat)
    requires at + 4 <= |m|
    ensures w < TWO_TO_THE_32
  {
    WordValue(m[at..at + 4]);
    Value(m[at..at + 4])
  }

  function Pow256(n: nat): nat {
    if n == 0 then 1 else 256 * Pow256(n - 1)
  }

  /** The n lowest bytes of a number. */
  function LowBytes(v: nat, n: nat): (b: seq<Byte>)
    ensures |b| == n
    ensures v < Pow256(n) ==> Value(b) == v
  {
    if n == 0 then [] else [v % 256] + LowBytes(v / 256, n - 1)
  }

  /** The four bytes of a 32-bit number. */
  function BytesOf(v: nat): (b: seq<Byte>)
    requires v < TWO_TO_THE_32
    ensures |b| == 4 && Value(b) == v
  {
    assert Pow256(4) == TWO_TO_THE_32;
    LowBytes(v, 4)
  }

  /** Bytes written next to a word leave it alone. */
  lemma WordFrame(m: seq<Byte>, m': seq<Byte>, lo: nat, hi: nat, at: nat)
    requires |m| == |m'| && at + 4 <= |m| && (hi <= at || at + 4 <= lo)
    requires forall k :: 0 <= k < |m| && !(lo <= k < hi) ==> m'[k] == m[k]
    ensures Word(m', at) == Word(m, at)
  {
    assert m'[at..at + 4] == m[at..at + 4];
  }
}
