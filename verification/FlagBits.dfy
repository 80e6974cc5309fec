/** Event masks as sets of flags: what it means for all or any of the flags of a mask to be set. */
module FlagBits {

  /** A single flag. */
  predicate Flag(m: bv32) {
    m != 0 && m & (m - 1) == 0
  }

  predicate Has(flags: bv32, m: bv32) {
    flags & m == m
  }

  /** The lowest flag of a mask. */
  lemma LowestFlag(x: bv32) returns (m: bv32)
    requires x != 0
    ensures Flag(m) && Has(x, m)
  {
    m := x & (!x + 1);
  }

  lemma FlagInBoth(a: bv32, b: bv32, m: bv32)
    requires Flag(m)
    ensures Has(a & b, m) <==> Has(a, m) && Has(b, m)
    ensures Has(!a, m) <==> !Has(a, m)
    ensures a & b == 0 ==> !(Has(a, m) && Has(b, m))
  {
  }

  lemma AllMissesNone(flags: bv32, mask: bv32)
    requires flags & mask == mask
    ensures mask & !flags == 0
  {
    assert (flags & mask) & !flags == 0;
  }

  lemma MissesNoneIsAll(flags: bv32, mask: bv32)
    requires mask & !flags == 0
    ensures flags & mask == mask
  {
    assert (flags & mask) | (mask & !flags) == mask;
  }

  /** The test for all flags of a mask says that none of them is missing. */
  lemma NoneMissing(flags: bv32, mask: bv32)
    ensures flags & mask == mask <==> mask & !flags == 0
  {
    if flags & mask == mask {
      AllMissesNone(flags, mask);
    }
    if mask & !flags == 0 {
      MissesNoneIsAll(flags, mask);
    }
  }

  /** And that is the case exactly if each of them is set. */
  lemma AllSet(flags: bv32, mask: bv32)
    ensures mask & !flags == 0 <==> forall m :: Flag(m) && Has(mask, m) ==> Has(flags, m)
  {
    if mask & !flags == 0 {
      forall m | Flag(m) && Has(mask, m)
        ensures Has(flags, m)
      {
        FlagInBoth(mask, !flags, m);
        FlagInBoth(flags, 0, m);
      }
    } else {
      var m := LowestFlag(mask & !flags);
      FlagInBoth(mask, !flags, m);
      FlagInBoth(flags, 0, m);
    }
  }

  /** The test for any flag of a mask: the two have one in common. */
  lemma AnySet(flags: bv32, mask: bv32)
    ensures flags & mask != 0 <==> exists m :: Flag(m) && Has(mask, m) && Has(flags, m)
  {
    if flags & mask != 0 {
      var m := LowestFlag(flags & mask);
      FlagInBoth(flags, mask, m);
    } else {
      forall m | Flag(m)
        ensures !(Has(mask, m) && Has(flags, m))
      {
        FlagInBoth(flags, mask, m);
      }
    }
  }
}
