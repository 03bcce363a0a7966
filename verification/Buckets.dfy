/**
 The histogram's buckets: each power of two split into eight. Indexes and values are 64-bit
 in the source; everything here holds for all of them.
 */
module Buckets {

  const SUB_BUCKET_BITS: nat := 3
  const SUB_BUCKETS: nat := 8
  const U64_MAX: nat := 0xFFFF_FFFF_FFFF_FFFF

  function Pow2(n: nat): (p: nat)
    ensures p > 0
  {
    if n == 0 then 1 else 2 * Pow2(n - 1)
  }

  /** `63 - leading_zeros`. */
  function Log2(n: nat): (k: nat)
    requires n > 0
    ensures Pow2(k) <= n < 2 * Pow2(k)
  {
    if n == 1 then 0 else 1 + Log2(n / 2)
  }

  function BucketIndex(ns: nat): (index: nat)
  {
    if ns < SUB_BUCKETS then ns
    else
      var octave := Log2(ns);
      LogAtLeast(ns, SUB_BUCKET_BITS);
      var sub := ns / Pow2(octave - SUB_BUCKET_BITS) % SUB_BUCKETS;
      octave * SUB_BUCKETS + sub
  }

  function BucketBounds(index: nat): (bounds: (nat, nat))
    ensures bounds.0 <= bounds.1
  {
    if index < SUB_BUCKETS then (index, index)
    else
      var octave := index / SUB_BUCKETS;
      if octave < SUB_BUCKET_BITS then (0, 0)
      else
        var sub := index % SUB_BUCKETS;
        var shift := octave - SUB_BUCKET_BITS;
        var lower := (SUB_BUCKETS + sub) * Pow2(shift);
        (lower, lower + (Pow2(shift) - 1))
  }

  /** Indexes that values produce: 8 to 23 are skipped. */
  predicate Produced(index: nat)
  {
    index < SUB_BUCKETS || SUB_BUCKET_BITS * SUB_BUCKETS <= index
  }

  lemma {:induction false} PowMonotone(a: nat, b: nat)
    requires a <= b
    ensures Pow2(a) <= Pow2(b)
  {
    if a < b {
      PowMonotone(a, b - 1);
    }
  }

  lemma LogAtLeast(n: nat, k: nat)
    requires n >= Pow2(k)
    ensures Log2(n) >= k
  {
    if Log2(n) < k {
      PowMonotone(Log2(n) + 1, k);
    }
  }

  lemma LogAtMost(n: nat, k: nat)
    requires 0 < n < Pow2(k + 1)
    ensures Log2(n) <= k
  {
    if Log2(n) > k {
      PowMonotone(k + 1, Log2(n));
    }
  }

  lemma LogUnique(n: nat, k: nat)
    requires Pow2(k) <= n < 2 * Pow2(k)
    ensures n > 0 && Log2(n) == k
  {
    LogAtLeast(n, k);
    LogAtMost(n, k);
  }

  /** How a value from eight up divides into octave, sub-bucket and rest. */
  lemma Decompose(ns: nat) returns (shift: nat, sub: nat, rest: nat)
    requires ns >= SUB_BUCKETS
    ensures sub < SUB_BUCKETS && rest < Pow2(shift) && ns == (SUB_BUCKETS + sub) * Pow2(shift) + rest
    ensures BucketIndex(ns) == (shift + SUB_BUCKET_BITS) * SUB_BUCKETS + sub
  {
    var octave := Log2(ns);
    LogAtLeast(ns, SUB_BUCKET_BITS);
    shift := octave - SUB_BUCKET_BITS;
    var unit := Pow2(shift);
    EightTimes(shift);
    DivBetween(ns, unit, SUB_BUCKETS, 2 * SUB_BUCKETS);
    sub, rest := DivMod(ns, unit);
    IndexIs(ns, shift);
  }

  lemma IndexIs(ns: nat, shift: nat)
    requires ns >= SUB_BUCKETS && Log2(ns) == shift + SUB_BUCKET_BITS
    ensures BucketIndex(ns) == (shift + SUB_BUCKET_BITS) * SUB_BUCKETS + ns / Pow2(shift) % SUB_BUCKETS
  {
  }

  lemma EightTimes(shift: nat)
    ensures Pow2(shift + SUB_BUCKET_BITS) == SUB_BUCKETS * Pow2(shift)
  {
    assert Pow2(shift + 1) == 2 * Pow2(shift) && Pow2(shift + 2) == 4 * Pow2(shift);
  }

  lemma DivMod(ns: nat, unit: nat) returns (sub: nat, rest: nat)
    requires unit > 0 && SUB_BUCKETS <= ns / unit < 2 * SUB_BUCKETS
    ensures sub < SUB_BUCKETS && rest < unit && ns == (SUB_BUCKETS + sub) * unit + rest
    ensures ns / unit % SUB_BUCKETS == sub
  {
    var top := ns / unit;
    sub, rest := top - SUB_BUCKETS, ns % unit;
    assert ns == top * unit + rest;
  }

  lemma DivBetween(n: nat, d: nat, lo: nat, hi: nat)
    requires d > 0 && lo * d <= n < hi * d
    ensures lo <= n / d < hi
  {
    var q := n / d;
    assert n == q * d + n % d;
    if q < lo {
      MulMonotone(q + 1, lo, d);
    }
    if q >= hi {
      MulMonotone(hi, q, d);
    }
  }

  lemma MulMonotone(a: nat, b: nat, d: nat)
    requires a <= b
    ensures a * d <= b * d
  {
  }

  /** Every value lies in its bucket. */
  lemma BoundsContainTheirValues(ns: nat)
    ensures Produced(BucketIndex(ns)) && BucketBounds(BucketIndex(ns)).0 <= ns <= BucketBounds(BucketIndex(ns)).1
  {
    if ns >= SUB_BUCKETS {
      var shift, sub, rest := Decompose(ns);
      var index := BucketIndex(ns);
      assert index / SUB_BUCKETS == shift + SUB_BUCKET_BITS && index % SUB_BUCKETS == sub;
    }
  }

  /** Conversely, every value between a produced index's bounds has that index. */
  lemma BoundsDetermineTheIndex(index: nat, ns: nat)
    requires Produced(index) && BucketBounds(index).0 <= ns <= BucketBounds(index).1
    ensures BucketIndex(ns) == index
  {
    if index >= SUB_BUCKETS {
      var shift, sub := index / SUB_BUCKETS - SUB_BUCKET_BITS, index % SUB_BUCKETS;
      PartsDetermineTheIndex(ns, shift, sub);
    }
  }

  lemma PartsDetermineTheIndex(ns: nat, shift: nat, sub: nat)
    requires sub < SUB_BUCKETS
    requires (SUB_BUCKETS + sub) * Pow2(shift) <= ns < (SUB_BUCKETS + sub) * Pow2(shift) + Pow2(shift)
    ensures BucketIndex(ns) == (shift + SUB_BUCKET_BITS) * SUB_BUCKETS + sub
  {
    var unit := Pow2(shift);
    EightTimes(shift);
    InOctave(ns, unit, sub);
    LogUnique(ns, shift + SUB_BUCKET_BITS);
    QuotientIs(ns, unit, SUB_BUCKETS + sub);
    IndexIs(ns, shift);
  }

  lemma InOctave(ns: nat, unit: nat, sub: nat)
    requires sub < SUB_BUCKETS && 0 < unit && (SUB_BUCKETS + sub) * unit <= ns < (SUB_BUCKETS + sub) * unit + unit
    ensures SUB_BUCKETS <= SUB_BUCKETS * unit <= ns < 2 * SUB_BUCKETS * unit
  {
    MulMonotone(SUB_BUCKETS, SUB_BUCKETS + sub, unit);
    MulMonotone(SUB_BUCKETS + sub + 1, 2 * SUB_BUCKETS, unit);
  }

  lemma QuotientIs(n: nat, d: nat, q: nat)
    requires d > 0 && q * d <= n < q * d + d
    ensures n / d == q
  {
    DivBetween(n, d, q, q + 1);
  }

  /** The buckets partition the values: each value lies between the bounds of one produced index. */
  lemma BucketsPartitionValues(ns: nat, index: nat)
    requires Produced(index)
    ensures BucketBounds(index).0 <= ns <= BucketBounds(index).1 <==> BucketIndex(ns) == index
  {
    BoundsContainTheirValues(ns);
    if BucketBounds(index).0 <= ns <= BucketBounds(index).1 {
      BoundsDetermineTheIndex(index, ns);
    }
  }

  /** Larger values have no smaller index. */
  lemma IndexIsMonotone(a: nat, b: nat)
    requires a <= b
    ensures BucketIndex(a) <= BucketIndex(b)
  {
    if b < SUB_BUCKETS {
    } else if a < SUB_BUCKETS {
      var shift, sub, rest := Decompose(b);
    } else {
      var s1, u1, r1 := Decompose(a);
      var s2, u2, r2 := Decompose(b);
      if BucketIndex(b) < BucketIndex(a) {
        OrderedParts(s1, u1, s2, u2, r2);
      }
    }
  }

  /** The next bucket starts where this one ends, so a larger (shift, sub) is a larger value. */
  lemma OrderedParts(s1: nat, u1: nat, s2: nat, u2: nat, r2: nat)
    requires u1 < SUB_BUCKETS && u2 < SUB_BUCKETS && r2 < Pow2(s2)
    requires s2 < s1 || (s2 == s1 && u2 < u1)
    ensures (SUB_BUCKETS + u2) * Pow2(s2) + r2 < (SUB_BUCKETS + u1) * Pow2(s1)
  {
    if s2 < s1 {
      PowMonotone(s2 + 1, s1);
    }
    OrderedProducts(Pow2(s1), u1, Pow2(s2), u2, r2);
  }

  lemma OrderedProducts(p1: nat, u1: nat, p2: nat, u2: nat, r2: nat)
    requires u1 < SUB_BUCKETS && u2 < SUB_BUCKETS && r2 < p2
    requires p1 >= 2 * p2 || (p1 == p2 && u2 < u1)
    ensures (SUB_BUCKETS + u2) * p2 + r2 < (SUB_BUCKETS + u1) * p1
  {
    assert (SUB_BUCKETS + u2) * p2 + p2 == (SUB_BUCKETS + u2 + 1) * p2;
    if p1 >= 2 * p2 {
      MulMonotone(SUB_BUCKETS + u2 + 1, 2 * SUB_BUCKETS, p2);
      MulMonotone(SUB_BUCKETS, SUB_BUCKETS + u1, p1);
    } else {
      MulMonotone(SUB_BUCKETS + u2 + 1, SUB_BUCKETS + u1, p2);
    }
  }

  function Mid(index: nat): (m: nat)
  {
    var (lower, upper) := BucketBounds(index);
    lower + (upper - lower) / 2
  }

  function Distance(a: nat, b: nat): (d: nat)
  {
    if a >= b then a - b else b - a
  }

  /** A value is within a sixteenth of itself of its bucket's midpoint. */
  lemma MidpointIsClose(ns: nat)
    ensures 16 * Distance(Mid(BucketIndex(ns)), ns) <= ns
  {
    BoundsContainTheirValues(ns);
    if ns >= SUB_BUCKETS {
      var shift, sub, rest := Decompose(ns);
      var unit := Pow2(shift);
      assert BucketBounds(BucketIndex(ns)) == ((SUB_BUCKETS + sub) * unit, (SUB_BUCKETS + sub) * unit + (unit - 1));
      MulMonotone(SUB_BUCKETS, SUB_BUCKETS + sub, unit);
      if shift > 0 {
        assert unit == 2 * Pow2(shift - 1);
      }
    }
  }

  /** No 64-bit value has an index above 511. */
  lemma IndexFits(ns: nat)
    requires ns <= U64_MAX
    ensures BucketIndex(ns) < 64 * SUB_BUCKETS
  {
    if ns >= SUB_BUCKETS {
      var shift, sub, rest := Decompose(ns);
      if shift >= 61 {
        PowMonotone(61, shift);
        PowSixtyOne();
        MulMonotone(SUB_BUCKETS, SUB_BUCKETS + sub, Pow2(shift));
      }
    }
  }

  lemma PowSixtyOne()
    ensures Pow2(61) == 0x2000_0000_0000_0000
  {
    assert Pow2(10) == 1024;
    PowAdds(10, 10); PowAdds(20, 10); PowAdds(30, 10); PowAdds(40, 10); PowAdds(50, 10); PowAdds(60, 1);
  }

  lemma {:induction false} PowAdds(a: nat, b: nat)
    ensures Pow2(a + b) == Pow2(a) * Pow2(b)
  {
    if b > 0 {
      PowAdds(a, b - 1);
    }
  }
}
