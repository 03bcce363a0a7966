/**
 The histogram of durations: what it holds after any order of additions and merges, and how
 close its quantiles are to the samples themselves.
 */
module Histograms {
  import opened Buckets

  const U32_MAX: nat := 0xFFFF_FFFF

  datatype Bucket = Bucket(index: nat, n: nat)

  datatype Value = Value(count: nat, sum: nat, min: nat, max: nat, buckets: seq<Bucket>)

  function Cap(n: nat, max: nat): (r: nat)
  {
    if n <= max then n else max
  }

  function Lesser(a: nat, b: nat): (r: nat) { if a < b then a else b }

  function Greater(a: nat, b: nat): (r: nat) { if a > b then a else b }

  // --------------------------------------------------------------- the samples

  function Sum(xs: seq<nat>): (s: nat)
  {
    if xs == [] then 0 else Sum(xs[..|xs| - 1]) + xs[|xs| - 1]
  }

  /** How many samples fall in bucket `index`. */
  function In(xs: seq<nat>, index: nat): (n: nat)
  {
    if xs == [] then 0 else In(xs[..|xs| - 1], index) + (if BucketIndex(xs[|xs| - 1]) == index then 1 else 0)
  }

  lemma {:induction false} SumAppend(xs: seq<nat>, ys: seq<nat>)
    ensures Sum(xs + ys) == Sum(xs) + Sum(ys)
  {
    if ys == [] {
      assert xs + ys == xs;
    } else {
      SumAppend(xs, ys[..|ys| - 1]);
      assert (xs + ys)[..|xs + ys| - 1] == xs + ys[..|ys| - 1];
    }
  }

  lemma {:induction false} InAppend(xs: seq<nat>, ys: seq<nat>, index: nat)
    ensures In(xs + ys, index) == In(xs, index) + In(ys, index)
  {
    if ys == [] {
      assert xs + ys == xs;
    } else {
      InAppend(xs, ys[..|ys| - 1], index);
      assert (xs + ys)[..|xs + ys| - 1] == xs + ys[..|ys| - 1];
    }
  }

  lemma {:induction false} InSome(xs: seq<nat>, index: nat)
    ensures In(xs, index) > 0 <==> exists k :: 0 <= k < |xs| && BucketIndex(xs[k]) == index
  {
    if xs != [] {
      var last := |xs| - 1;
      InSome(xs[..last], index);
      if In(xs[..last], index) > 0 {
        var k :| 0 <= k < last && BucketIndex(xs[..last][k]) == index;
        assert BucketIndex(xs[k]) == index;
      } else if exists k :: 0 <= k < |xs| && BucketIndex(xs[k]) == index {
        var k :| 0 <= k < |xs| && BucketIndex(xs[k]) == index;
        assert k < last ==> xs[..last][k] == xs[k];
      }
    }
  }

  // ------------------------------------------------- what a histogram represents

  ghost predicate Sorted(b: seq<Bucket>)
  {
    forall i, j :: 0 <= i < j < |b| ==> b[i].index < b[j].index
  }

  ghost predicate IsMin(xs: seq<nat>, m: nat)
  {
    m in xs && forall k :: 0 <= k < |xs| ==> m <= xs[k]
  }

  ghost predicate IsMax(xs: seq<nat>, m: nat)
  {
    m in xs && forall k :: 0 <= k < |xs| ==> xs[k] <= m
  }

  /** The buckets list exactly the indexes in use, in order, each with its capped count. */
  ghost predicate Tallies(b: seq<Bucket>, xs: seq<nat>)
  {
    && Sorted(b)
    && (forall k :: 0 <= k < |b| ==> b[k].n > 0 && b[k].n == Cap(In(xs, b[k].index), 0xFFFF_FFFF))
    && (forall index :: In(xs, index) > 0 ==> exists k :: 0 <= k < |b| && b[k].index == index)
  }

  ghost predicate Represents(v: Value, xs: seq<nat>)
  {
    && v.count == |xs| && v.sum == Cap(Sum(xs), 0xFFFF_FFFF_FFFF_FFFF)
    && (if xs == [] then v.min == 0 && v.max == 0 else IsMin(xs, v.min) && IsMax(xs, v.max))
    && Tallies(v.buckets, xs)
  }

  // -------------------------------------------------------------- it is canonical

  lemma TakeOut(ys: seq<nat>, k: nat)
    requires k < |ys|
    ensures multiset(ys[..k] + ys[k + 1..]) == multiset(ys) - multiset{ys[k]}
  {
    assert ys == ys[..k] + [ys[k]] + ys[k + 1..];
  }

  lemma {:induction false} SumOfMultiset(xs: seq<nat>, ys: seq<nat>)
    requires multiset(xs) == multiset(ys)
    ensures Sum(xs) == Sum(ys) && forall index :: In(xs, index) == In(ys, index)
    decreases |xs|
  {
    if xs == [] {
      assert |ys| == |multiset(ys)| == 0;
    } else {
      var last := |xs| - 1;
      assert xs[last] in multiset(ys);
      var k :| 0 <= k < |ys| && ys[k] == xs[last];
      TakeOut(xs, last);
      assert xs[..last] + xs[last + 1..] == xs[..last];
      TakeOut(ys, k);
      SumOfMultiset(xs[..last], ys[..k] + ys[k + 1..]);
      MoveToEnd(ys, k);
    }
  }

  lemma MoveToEnd(ys: seq<nat>, k: nat)
    requires k < |ys|
    ensures var rest := ys[..k] + ys[k + 1..];
            && Sum(ys) == Sum(rest) + ys[k]
            && forall index :: In(ys, index) == In(rest, index) + (if BucketIndex(ys[k]) == index then 1 else 0)
  {
    var a, b := ys[..k], ys[k + 1..];
    assert ys == a + [ys[k]] + b;
    SumAppend(a + [ys[k]], b);
    SumAppend(a, b);
    forall index
      ensures In(ys, index) == In(a + b, index) + (if BucketIndex(ys[k]) == index then 1 else 0)
    {
      InAppend(a + [ys[k]], b, index);
      InAppend(a, b, index);
      assert (a + [ys[k]])[..k] == a;
    }
    assert (a + [ys[k]])[..k] == a;
  }

  ghost predicate Lists(b: seq<Bucket>, a: seq<Bucket>)
  {
    forall i :: 0 <= i < |a| ==> a[i] in b
  }

  lemma LastsAgree(a: seq<Bucket>, b: seq<Bucket>)
    requires Sorted(a) && Sorted(b) && Lists(b, a) && Lists(a, b) && a != [] && b != []
    ensures a[|a| - 1] == b[|b| - 1]
  {
    var m, n := |a| - 1, |b| - 1;
    assert a[m] in b && b[n] in a;
    var j :| 0 <= j < |b| && b[j] == a[m];
    var i :| 0 <= i < |a| && a[i] == b[n];
  }

  lemma ListsButLast(a: seq<Bucket>, b: seq<Bucket>)
    requires Sorted(a) && Sorted(b) && Lists(b, a) && a != [] && b != [] && a[|a| - 1] == b[|b| - 1]
    ensures Lists(b[..|b| - 1], a[..|a| - 1])
  {
    forall i | 0 <= i < |a| - 1
      ensures a[i] in b[..|b| - 1]
    {
      var j :| 0 <= j < |b| && b[j] == a[i];
      assert a[i].index < a[|a| - 1].index;
      assert b[..|b| - 1][j] == a[i];
    }
  }

  lemma NonEmpty(a: seq<Bucket>, b: seq<Bucket>)
    requires Lists(a, b)
    ensures b != [] ==> a != []
  {
    assert b != [] ==> b[0] in a;
  }

  /** Both without their last bucket, which is the same. */
  lemma ButLast(a: seq<Bucket>, b: seq<Bucket>)
    requires Sorted(a) && Sorted(b) && Lists(b, a) && Lists(a, b) && a != [] && b != []
    ensures a[|a| - 1] == b[|b| - 1]
    ensures Sorted(a[..|a| - 1]) && Sorted(b[..|b| - 1])
    ensures Lists(b[..|b| - 1], a[..|a| - 1]) && Lists(a[..|a| - 1], b[..|b| - 1])
  {
    LastsAgree(a, b);
    ListsButLast(a, b);
    ListsButLast(b, a);
  }

  /** Sorted buckets that list each other are the same. */
  lemma {:induction false} SameBuckets(a: seq<Bucket>, b: seq<Bucket>)
    requires Sorted(a) && Sorted(b) && Lists(b, a) && Lists(a, b)
    ensures a == b
    decreases |a|
  {
    NonEmpty(a, b);
    NonEmpty(b, a);
    if a != [] {
      ButLast(a, b);
      SameBuckets(a[..|a| - 1], b[..|b| - 1]);
      assert a == a[..|a| - 1] + [a[|a| - 1]];
      assert b == b[..|b| - 1] + [b[|b| - 1]];
    }
  }

  lemma TalliesMatch(a: seq<Bucket>, xs: seq<nat>, b: seq<Bucket>, ys: seq<nat>)
    requires Tallies(a, xs) && Tallies(b, ys) && forall index :: In(xs, index) == In(ys, index)
    ensures Lists(b, a)
  {
    forall i | 0 <= i < |a|
      ensures a[i] in b
    {
      assert In(ys, a[i].index) > 0;
      var j :| 0 <= j < |b| && b[j].index == a[i].index;
      assert b[j] == a[i];
    }
  }

  /** Histograms of the same samples, in whatever order and however they came together, are equal. */
  lemma HistogramsAreCanonical(v: Value, xs: seq<nat>, w: Value, ys: seq<nat>)
    requires Represents(v, xs) && Represents(w, ys) && multiset(xs) == multiset(ys)
    ensures v == w
  {
    SumOfMultiset(xs, ys);
    assert |xs| == |multiset(xs)| == |multiset(ys)| == |ys|;
    TalliesMatch(v.buckets, xs, w.buckets, ys);
    TalliesMatch(w.buckets, ys, v.buckets, xs);
    SameBuckets(v.buckets, w.buckets);
    if xs != [] {
      assert v.min in multiset(xs) && w.min in multiset(ys) && v.max in multiset(xs) && w.max in multiset(ys);
    }
  }

  // ---------------------------------------------------------- adding and merging

  /** The count listed under an index, 0 if none is. */
  ghost function Look(b: seq<Bucket>, index: nat): (n: nat)
  {
    if b == [] then 0 else if b[|b| - 1].index == index then b[|b| - 1].n else Look(b[..|b| - 1], index)
  }

  lemma {:induction false} LookFinds(b: seq<Bucket>, k: nat)
    requires Sorted(b) && k < |b|
    ensures Look(b, b[k].index) == b[k].n
  {
    if k < |b| - 1 {
      LookFinds(b[..|b| - 1], k);
      assert b[k].index < b[|b| - 1].index;
    }
  }

  lemma {:induction false} LookMisses(b: seq<Bucket>, index: nat)
    requires forall k :: 0 <= k < |b| ==> b[k].index != index
    ensures Look(b, index) == 0
  {
    if b != [] {
      LookMisses(b[..|b| - 1], index);
    }
  }

  lemma {:induction false} LookListed(b: seq<Bucket>, index: nat)
    requires Look(b, index) > 0
    ensures exists k :: 0 <= k < |b| && b[k].index == index
  {
    if b[|b| - 1].index != index {
      LookListed(b[..|b| - 1], index);
      var k :| 0 <= k < |b| - 1 && b[..|b| - 1][k].index == index;
      assert b[k].index == index;
    }
  }

  ghost predicate Positive(b: seq<Bucket>)
  {
    forall k :: 0 <= k < |b| ==> b[k].n > 0
  }

  lemma LooksTally(b: seq<Bucket>, xs: seq<nat>)
    requires Sorted(b) && Positive(b) && forall index :: Look(b, index) == Cap(In(xs, index), U32_MAX)
    ensures Tallies(b, xs)
  {
    forall k | 0 <= k < |b|
      ensures b[k].n == Cap(In(xs, b[k].index), U32_MAX)
    {
      LookFinds(b, k);
    }
    forall index | In(xs, index) > 0
      ensures exists k :: 0 <= k < |b| && b[k].index == index
    {
      LookListed(b, index);
    }
  }

  lemma TallyLooks(b: seq<Bucket>, xs: seq<nat>, index: nat)
    requires Tallies(b, xs)
    ensures Look(b, index) == Cap(In(xs, index), U32_MAX)
  {
    if k :| 0 <= k < |b| && b[k].index == index {
      LookFinds(b, k);
    } else {
      LookMisses(b, index);
    }
  }

  /** `Ok(at)` when found, else `Err(at)`: where to insert it. */
  method BinarySearch(b: seq<Bucket>, index: nat) returns (found: bool, at: nat)
    requires Sorted(b)
    ensures at <= |b| && (found ==> at < |b| && b[at].index == index)
    ensures !found ==>
              (forall k :: 0 <= k < at ==> b[k].index < index) && (forall k :: at <= k < |b| ==> b[k].index > index)
  {
    var lo, hi := 0, |b|;
    while lo < hi
      invariant 0 <= lo <= hi <= |b|
      invariant forall k :: 0 <= k < lo ==> b[k].index < index
      invariant forall k :: hi <= k < |b| ==> b[k].index > index
    {
      var mid := (lo + hi) / 2;
      if b[mid].index == index {
        return true, mid;
      } else if b[mid].index < index {
        lo := mid + 1;
      } else {
        hi := mid;
      }
    }
    return false, lo;
  }

  lemma {:induction false} LookUpdated(b: seq<Bucket>, at: nat, n: nat, index: nat)
    requires Sorted(b) && at < |b|
    ensures Sorted(b[at := b[at].(n := n)])
    ensures Look(b[at := b[at].(n := n)], index) == if index == b[at].index then n else Look(b, index)
  {
    var c := b[at := b[at].(n := n)];
    if index == b[at].index {
      LookFinds(c, at);
    } else if k :| 0 <= k < |b| && b[k].index == index {
      LookFinds(b, k);
      LookFinds(c, k);
    } else {
      LookMisses(b, index);
      LookMisses(c, index);
    }
  }

  lemma InsertedSorted(b: seq<Bucket>, at: nat, e: Bucket)
    requires Sorted(b) && at <= |b|
    requires (forall k :: 0 <= k < at ==> b[k].index < e.index) && (forall k :: at <= k < |b| ==> b[k].index > e.index)
    ensures Sorted(b[..at] + [e] + b[at..])
  {
    var c := b[..at] + [e] + b[at..];
    forall i, j | 0 <= i < j < |c|
      ensures c[i].index < c[j].index
    {
      assert i < at ==> c[i] == b[i];
      assert i > at ==> c[i] == b[i - 1];
      assert j < at ==> c[j] == b[j];
      assert j > at ==> c[j] == b[j - 1];
    }
  }

  lemma LookInserted(b: seq<Bucket>, at: nat, e: Bucket, index: nat)
    requires Sorted(b) && at <= |b| && Sorted(b[..at] + [e] + b[at..])
    ensures Look(b[..at] + [e] + b[at..], index) == if index == e.index then e.n else Look(b, index)
  {
    var c := b[..at] + [e] + b[at..];
    if index == e.index {
      LookFinds(c, at);
    } else if k :| 0 <= k < |b| && b[k].index == index {
      var k' := if k < at then k else k + 1;
      assert c[k'] == b[k];
      LookFinds(b, k);
      LookFinds(c, k');
    } else {
      LookMisses(b, index);
      forall k | 0 <= k < |c|
        ensures c[k].index != index
      {
        assert k < at ==> c[k] == b[k];
        assert k > at ==> c[k] == b[k - 1];
      }
      LookMisses(c, index);
    }
  }

  /** Adds `n` under an index, saturating, and leaves the other counts alone. */
  method Bump(b: seq<Bucket>, index: nat, n: nat) returns (c: seq<Bucket>)
    requires Sorted(b) && Positive(b) && 0 < n <= U32_MAX
    ensures Sorted(c) && Positive(c)
    ensures forall i :: Look(c, i) == if i == index then Cap(Look(b, i) + n, U32_MAX) else Look(b, i)
  {
    var found, at := BinarySearch(b, index);
    if found {
      c := b[at := b[at].(n := Cap(b[at].n + n, U32_MAX))];
      LookFinds(b, at);
      forall i
        ensures Sorted(c) && Look(c, i) == if i == index then Cap(Look(b, i) + n, U32_MAX) else Look(b, i)
      {
        LookUpdated(b, at, Cap(b[at].n + n, U32_MAX), i);
      }
    } else {
      c := b[..at] + [Bucket(index, n)] + b[at..];
      LookMisses(b, index);
      InsertedSorted(b, at, Bucket(index, n));
      forall i
        ensures Sorted(c) && Look(c, i) == if i == index then Cap(Look(b, i) + n, U32_MAX) else Look(b, i)
      {
        LookInserted(b, at, Bucket(index, n), i);
      }
    }
  }

  class Histogram {
    var count: nat
    var sumNs: nat
    var minNs: nat
    var maxNs: nat
    var buckets: seq<Bucket>

    ghost function Now(): (v: Value)
      reads this
    {
      Value(count, sumNs, minNs, maxNs, buckets)
    }

    constructor ()
      ensures Represents(Now(), [])
    {
      count, sumNs, minNs, maxNs, buckets := 0, 0, 0, 0, [];
    }

    method AddNs(ns: nat, ghost xs: seq<nat>)
      requires Represents(Now(), xs)
      modifies this
      ensures Represents(Now(), xs + [ns])
    {
      AddedExtremes(xs, ns, minNs, maxNs);
      if count == 0 {
        minNs, maxNs := ns, ns;
      } else {
        minNs, maxNs := Lesser(minNs, ns), Greater(maxNs, ns);
      }
      count := count + 1;
      sumNs := Cap(sumNs + ns, U64_MAX);
      var more := Bump(buckets, BucketIndex(ns), 1);
      BumpedTally(buckets, more, xs, ns);
      buckets := more;
    }

    /** Adds every bucket of `other` to this histogram. */
    method Merge(other: Histogram, ghost xs: seq<nat>, ghost ys: seq<nat>)
      requires Represents(Now(), xs) && Represents(other.Now(), ys) && other != this
      modifies this
      ensures Represents(Now(), xs + ys)
    {
      if other.count == 0 {
        assert xs + ys == xs;
        return;
      }
      if count == 0 {
        assert xs + ys == ys;
        count, sumNs, minNs, maxNs, buckets := other.count, other.sumNs, other.minNs, other.maxNs, other.buckets;
        return;
      }
      SumAppend(xs, ys);
      Extremes(xs, ys, minNs, maxNs, other.minNs, other.maxNs);
      count := count + other.count;
      sumNs := Cap(sumNs + other.sumNs, U64_MAX);
      minNs, maxNs := Lesser(minNs, other.minNs), Greater(maxNs, other.maxNs);
      var merged := MergeBuckets(buckets, other.buckets);
      MergedTally(buckets, other.buckets, merged, xs, ys);
      buckets := merged;
    }

    /**
     The value at rank `target`, the source's `max(ceil(q * count), 1)`: between the extremes always,
     and within a sixteenth of the exact one whenever the bucket that answers is the one to ask.
     */
    method Quantile(target: nat, ghost xs: seq<nat>) returns (v: Quantiled)
      requires Represents(Now(), xs) && target >= 1
      ensures v.None? <==> xs == []
      ensures v.At? ==> minNs <= v.ns <= maxNs && (target >= |xs| ==> v.ns == maxNs)
      ensures forall ys: seq<nat> ::
                v.At? && Reliable(buckets, xs, target) && Arranges(ys, xs) ==> Accurate(v.ns, target, ys)
    {
      if count == 0 {
        return None;
      }
      assert minNs in xs && maxNs in xs;
      if target >= count {
        MaxIsLast(Now(), xs, target);
        return At(maxNs);
      }
      var seen := 0;
      for k := 0 to |buckets|
        invariant seen == Seen(buckets, k) < target && Answering(buckets, target, k) == Answering(buckets, target, 0)
      {
        seen := seen + buckets[k].n;
        if seen >= target {
          BucketAnswers(Now(), xs, target, k);
          return At(Clamp(Mid(buckets[k].index), minNs, maxNs));
        }
      }
      return At(maxNs);
    }

    /** The value at quantile `q`. */
    method QuantileOf(q: real, ghost xs: seq<nat>) returns (v: Quantiled)
      requires Represents(Now(), xs)
      ensures v.None? <==> xs == []
      ensures v.At? ==> minNs <= v.ns <= maxNs && (q >= 1.0 ==> v.ns == maxNs)
      ensures forall r: nat, ys: seq<nat> ::
                v.At? && IsRank(q, |xs|, r) && Reliable(buckets, xs, r) && Arranges(ys, xs) ==> Accurate(v.ns, r, ys)
    {
      v := Quantile(Rank(q, count), xs);
      RankIsTheLeast(q, |xs|);
    }
  }

  /** `ys` is the samples in ascending order. */
  ghost predicate Arranges(ys: seq<nat>, xs: seq<nat>)
  {
    Ordered(ys) && multiset(ys) == multiset(xs)
  }

  /** The rank that a quantile asks for, without the rounding of floats: `max(ceil(q * count), 1)`, with `q` brought
        into [0, 1]. */
  function Rank(q: real, count: nat): (target: nat)
    ensures target >= 1
  {
    var product := Within(q) * count as real;
    var ceiling := -((-product).Floor);
    if ceiling < 1 then 1 else ceiling
  }

  /** The end of [0, 1] nearer to `q`, if it lies outside. */
  function Within(q: real): (r: real)
    ensures 0.0 <= r <= 1.0 && (0.0 <= q <= 1.0 ==> r == q) && (q <= 0.0 ==> r == 0.0) && (q >= 1.0 ==> r == 1.0)
  {
    if q < 0.0 then 0.0 else if q > 1.0 then 1.0 else q
  }

  /** `r` samples, at least one, make up the share `q` of `n`. */
  predicate Suffices(q: real, n: nat, r: nat)
  {
    r >= 1 && r as real >= Within(q) * n as real
  }

  /** `r` samples make up the share and one less, unless that is none, do not. */
  predicate IsRank(q: real, n: nat, r: nat)
  {
    Suffices(q, n, r) && (r > 1 ==> !Suffices(q, n, r - 1))
  }

  /** The rank computed is the least one whose samples make up the share. */
  lemma RankIsTheLeast(q: real, n: nat)
    ensures IsRank(q, n, Rank(q, n)) && Rank(q, n) <= (if n > 1 then n else 1)
    ensures forall r: nat :: Suffices(q, n, r) ==> Rank(q, n) <= r
    ensures forall r: nat :: IsRank(q, n, r) ==> r == Rank(q, n)
  {
    var product := Within(q) * n as real;
    assert product <= n as real;
    var floor := (-product).Floor;
    assert floor as real <= -product < (floor + 1) as real;
  }

  /** How many samples are no larger than `x`. */
  function NoLarger(ys: seq<nat>, x: nat): (n: nat)
  {
    if ys == [] then 0 else NoLarger(ys[..|ys| - 1], x) + (if ys[|ys| - 1] <= x then 1 else 0)
  }

  lemma {:induction false} FirstAreNoLarger(ys: seq<nat>, r: nat, x: nat)
    requires r <= |ys| && forall i :: 0 <= i < r ==> ys[i] <= x
    ensures NoLarger(ys, x) >= r
  {
    if ys != [] {
      FirstAreNoLarger(ys[..|ys| - 1], if r == |ys| then r - 1 else r, x);
    }
  }

  /** How many samples are smaller than `x`. */
  function Smaller(ys: seq<nat>, x: nat): (n: nat)
  {
    if ys == [] then 0 else Smaller(ys[..|ys| - 1], x) + (if ys[|ys| - 1] < x then 1 else 0)
  }

  lemma {:induction false} OnlyFirstAreSmaller(ys: seq<nat>, r: nat, x: nat)
    requires r <= |ys| && forall i :: r <= i < |ys| ==> ys[i] >= x
    ensures Smaller(ys, x) <= r
  {
    if ys != [] {
      OnlyFirstAreSmaller(ys[..|ys| - 1], if r == |ys| then r - 1 else r, x);
    }
  }

  /** On the samples: at least the share `q` of them are no larger than the one of that rank, and fewer than that
        share are smaller, unless it is the smallest. */
  lemma TheRankDividesTheSamples(q: real, ys: seq<nat>, r: nat)
    requires Ordered(ys) && ys != [] && IsRank(q, |ys|, r)
    ensures r <= |ys| && NoLarger(ys, ys[r - 1]) as real >= Within(q) * |ys| as real
    ensures r > 1 ==> Smaller(ys, ys[r - 1]) as real < Within(q) * |ys| as real
  {
    RankIsTheLeast(q, |ys|);
    FirstAreNoLarger(ys, r, ys[r - 1]);
    OnlyFirstAreSmaller(ys, r - 1, ys[r - 1]);
  }

  datatype Quantiled = None | At(ns: nat)

  /** Within a sixteenth of the sample of rank `target`, which for a rank past the end is the last. */
  ghost predicate Accurate(ns: nat, target: nat, ys: seq<nat>)
    requires target >= 1
  {
    var r := Lesser(target, |ys|);
    r >= 1 && 16 * Distance(ns, ys[r - 1]) <= ys[r - 1] && (r == |ys| ==> ns == ys[r - 1])
  }

  lemma SameLength(xs: seq<nat>, ys: seq<nat>)
    requires multiset(xs) == multiset(ys)
    ensures |xs| == |ys|
  {
    assert |xs| == |multiset(xs)| && |ys| == |multiset(ys)|;
  }

  /** What a histogram represents does not depend on the order of the samples. */
  lemma RepresentsAnyOrder(v: Value, xs: seq<nat>, ys: seq<nat>)
    requires Represents(v, xs) && multiset(xs) == multiset(ys)
    ensures Represents(v, ys) && forall index :: In(ys, index) == In(xs, index)
  {
    SumOfMultiset(xs, ys);
    SameLength(xs, ys);
    if xs != [] {
      assert v.min in multiset(xs) && v.max in multiset(xs);
      assert v.min in multiset(ys) && v.max in multiset(ys);
      forall k | 0 <= k < |ys|
        ensures v.min <= ys[k] <= v.max
      {
        assert ys[k] in multiset(ys);
        assert ys[k] in multiset(xs);
        assert ys[k] in xs;
      }
    }
  }

  lemma MaxIsLast(v: Value, xs: seq<nat>, target: nat)
    requires Represents(v, xs) && xs != [] && target >= |xs|
    ensures forall ys: seq<nat> :: Arranges(ys, xs) ==> Accurate(v.max, target, ys)
  {
    forall ys: seq<nat> | Arranges(ys, xs)
      ensures Accurate(v.max, target, ys)
    {
      RepresentsAnyOrder(v, xs, ys);
      var k :| 0 <= k < |ys| && ys[k] == v.max;
      assert ys[k] <= ys[|ys| - 1] <= v.max;
    }
  }

  lemma BucketAnswers(v: Value, xs: seq<nat>, r: nat, k: nat)
    requires Represents(v, xs) && 1 <= r < |xs|
    requires k < |v.buckets| && Seen(v.buckets, k) < r <= Seen(v.buckets, k + 1)
    ensures var ns := Clamp(Mid(v.buckets[k].index), v.min, v.max);
            forall ys: seq<nat> ::
              Below(xs, v.buckets[k].index) < r && Arranges(ys, xs) ==> Accurate(ns, r, ys)
  {
    forall ys: seq<nat> | Below(xs, v.buckets[k].index) < r && Arranges(ys, xs)
      ensures Accurate(Clamp(Mid(v.buckets[k].index), v.min, v.max), r, ys)
    {
      RepresentsAnyOrder(v, xs, ys);
      SameLength(xs, ys);
      SameBelow(xs, ys, v.buckets[k].index);
      BucketAnswerIsAccurate(v, ys, r, k);
    }
  }

  lemma AddedExtremes(xs: seq<nat>, ns: nat, a: nat, b: nat)
    requires xs != [] ==> IsMin(xs, a) && IsMax(xs, b)
    ensures Sum(xs + [ns]) == Sum(xs) + ns
    ensures if xs == [] then IsMin(xs + [ns], ns) && IsMax(xs + [ns], ns)
            else IsMin(xs + [ns], Lesser(a, ns)) && IsMax(xs + [ns], Greater(b, ns))
  {
    assert (xs + [ns])[..|xs|] == xs;
    Extremes(xs, [ns], a, b, ns, ns);
  }

  lemma Extremes(xs: seq<nat>, ys: seq<nat>, a: nat, b: nat, c: nat, d: nat)
    requires ys != [] && IsMin(ys, c) && IsMax(ys, d)
    requires xs != [] ==> IsMin(xs, a) && IsMax(xs, b)
    ensures if xs == [] then IsMin(xs + ys, c) && IsMax(xs + ys, d)
            else IsMin(xs + ys, Lesser(a, c)) && IsMax(xs + ys, Greater(b, d))
  {
    var all := xs + ys;
    forall k | 0 <= k < |all|
      ensures all[k] == if k < |xs| then xs[k] else ys[k - |xs|]
    {
    }
  }

  lemma BumpedTally(b: seq<Bucket>, c: seq<Bucket>, xs: seq<nat>, ns: nat)
    requires Tallies(b, xs) && Sorted(c) && Positive(c)
    requires forall i :: Look(c, i) == if i == BucketIndex(ns) then Cap(Look(b, i) + 1, U32_MAX) else Look(b, i)
    ensures Tallies(c, xs + [ns])
  {
    forall index
      ensures Look(c, index) == Cap(In(xs + [ns], index), U32_MAX)
    {
      TallyLooks(b, xs, index);
      assert (xs + [ns])[..|xs|] == xs;
    }
    LooksTally(c, xs + [ns]);
  }

  method MergeBuckets(b: seq<Bucket>, other: seq<Bucket>) returns (c: seq<Bucket>)
    requires Sorted(b) && Positive(b) && Sorted(other) && Positive(other)
    requires forall k :: 0 <= k < |other| ==> other[k].n <= U32_MAX
    ensures Sorted(c) && Positive(c)
    ensures forall i ::
              Look(c, i) == if Look(other, i) == 0 then Look(b, i) else Cap(Look(b, i) + Look(other, i), U32_MAX)
  {
    c := b;
    for j := 0 to |other|
      invariant Sorted(c) && Positive(c)
      invariant forall i ::
                  Look(c, i) == if Look(other[..j], i) == 0 then Look(b, i)
                                else Cap(Look(b, i) + Look(other[..j], i), U32_MAX)
    {
      ghost var was := c;
      c := Bump(c, other[j].index, other[j].n);
      forall i
        ensures Look(c, i) == if Look(other[..j + 1], i) == 0 then Look(b, i)
                              else Cap(Look(b, i) + Look(other[..j + 1], i), U32_MAX)
      {
        NextLook(other, j, i);
      }
    }
    assert other[..|other|] == other;
  }

  lemma NextLook(other: seq<Bucket>, j: nat, i: nat)
    requires Sorted(other) && j < |other|
    ensures Look(other[..j + 1], i) == if other[j].index == i then other[j].n else Look(other[..j], i)
    ensures Look(other[..j], other[j].index) == 0
  {
    assert other[..j + 1][..j] == other[..j];
    LookMisses(other[..j], other[j].index);
  }

  lemma MergedTally(b: seq<Bucket>, other: seq<Bucket>, c: seq<Bucket>, xs: seq<nat>, ys: seq<nat>)
    requires Tallies(b, xs) && Tallies(other, ys) && Sorted(c) && Positive(c)
    requires forall i ::
               Look(c, i) == if Look(other, i) == 0 then Look(b, i) else Cap(Look(b, i) + Look(other, i), U32_MAX)
    ensures Tallies(c, xs + ys)
  {
    forall index
      ensures Look(c, index) == Cap(In(xs + ys, index), U32_MAX)
    {
      TallyLooks(b, xs, index);
      TallyLooks(other, ys, index);
      InAppend(xs, ys, index);
    }
    LooksTally(c, xs + ys);
  }

  /** Merging is the union of samples, so the order and the grouping of merges do not matter. */
  lemma MergeIsAHomomorphism(xs: seq<nat>, ys: seq<nat>, zs: seq<nat>, xy: Value, yx: Value, left: Value, right: Value)
    requires Represents(xy, xs + ys) && Represents(yx, ys + xs)
    requires Represents(left, (xs + ys) + zs) && Represents(right, xs + (ys + zs))
    ensures xy == yx && left == right
  {
    HistogramsAreCanonical(xy, xs + ys, yx, ys + xs);
    assert (xs + ys) + zs == xs + (ys + zs);
    HistogramsAreCanonical(left, (xs + ys) + zs, right, xs + (ys + zs));
  }

  // ------------------------------------------------------------------ quantiles

  /** How many samples have an index below `index`. */
  function Below(xs: seq<nat>, index: nat): (n: nat)
  {
    if xs == [] then 0 else Below(xs[..|xs| - 1], index) + (if BucketIndex(xs[|xs| - 1]) < index then 1 else 0)
  }

  /** How many samples lie below does not depend on their order. */
  lemma {:induction false} SameBelow(xs: seq<nat>, ys: seq<nat>, index: nat)
    requires forall i :: In(ys, i) == In(xs, i)
    ensures Below(ys, index) == Below(xs, index)
  {
    if index == 0 {
      NothingBelowZero(xs);
      NothingBelowZero(ys);
    } else {
      SameBelow(xs, ys, index - 1);
      BelowNext(xs, index - 1);
      BelowNext(ys, index - 1);
    }
  }

  lemma {:induction false} BelowNext(xs: seq<nat>, index: nat)
    ensures Below(xs, index + 1) == Below(xs, index) + In(xs, index)
  {
    if xs != [] {
      BelowNext(xs[..|xs| - 1], index);
    }
  }

  lemma {:induction false} NoneBetween(xs: seq<nat>, i: nat, j: nat)
    requires i <= j && forall k :: 0 <= k < |xs| ==> BucketIndex(xs[k]) < i || j <= BucketIndex(xs[k])
    ensures Below(xs, j) == Below(xs, i)
  {
    if xs != [] {
      assert BucketIndex(xs[|xs| - 1]) < i || j <= BucketIndex(xs[|xs| - 1]);
      NoneBetween(xs[..|xs| - 1], i, j);
    }
  }

  lemma {:induction false} AtMostBelow(xs: seq<nat>, index: nat, m: nat)
    requires m <= |xs| && forall k :: m <= k < |xs| ==> BucketIndex(xs[k]) >= index
    ensures Below(xs, index) <= m
  {
    if m < |xs| {
      AtMostBelow(xs[..|xs| - 1], index, m);
      assert BucketIndex(xs[|xs| - 1]) >= index;
    } else if xs != [] {
      AtMostBelow(xs[..|xs| - 1], index, m - 1);
    }
  }

  lemma {:induction false} AtLeastBelow(xs: seq<nat>, index: nat, m: nat)
    requires m <= |xs| && forall k :: 0 <= k < m ==> BucketIndex(xs[k]) < index
    ensures Below(xs, index) >= m
  {
    if m < |xs| {
      AtLeastBelow(xs[..|xs| - 1], index, m);
    } else if xs != [] {
      assert BucketIndex(xs[|xs| - 1]) < index;
      AtLeastBelow(xs[..|xs| - 1], index, m - 1);
    }
  }

  /** The counts of the first `k` buckets. */
  function Seen(b: seq<Bucket>, k: nat): (n: nat)
    requires k <= |b|
  {
    if k == 0 then 0 else Seen(b, k - 1) + b[k - 1].n
  }

  /** The bucket at which the loop of `quantile` stops, from the `from`-th on; past the last if it runs through. */
  function Answering(b: seq<Bucket>, target: nat, from: nat): (k: nat)
    requires from <= |b|
    ensures from <= k <= |b|
    decreases |b| - from
  {
    if from == |b| || Seen(b, from + 1) >= target then from else Answering(b, target, from + 1)
  }

  lemma {:induction false} AnsweringReaches(b: seq<Bucket>, target: nat, from: nat)
    requires from <= |b| && Seen(b, from) < target
    ensures var k := Answering(b, target, from);
            Seen(b, k) < target && (k < |b| ==> target <= Seen(b, k + 1))
    decreases |b| - from
  {
    if from < |b| && Seen(b, from + 1) < target {
      AnsweringReaches(b, target, from + 1);
    }
  }

  /** Fewer samples lie below the answering bucket than the rank asks for; or the rank asks for the last one. */
  ghost predicate Reliable(b: seq<Bucket>, xs: seq<nat>, target: nat)
  {
    var k := Answering(b, target, 0);
    target >= |xs| || (k < |b| && Below(xs, b[k].index) < target)
  }

  /** Nothing lies between one bucket and the next. */
  lemma NextBucket(b: seq<Bucket>, xs: seq<nat>, k: nat)
    requires Tallies(b, xs) && k < |b|
    ensures Below(xs, b[k].index) == if k == 0 then 0 else Below(xs, b[k - 1].index + 1)
  {
    var from := if k == 0 then 0 else b[k - 1].index + 1;
    forall m | 0 <= m < |xs|
      ensures BucketIndex(xs[m]) < from || b[k].index <= BucketIndex(xs[m])
    {
      Listed(b, xs, m);
    }
    NoneBetween(xs, from, b[k].index);
    NothingBelowZero(xs);
  }

  /** The buckets never count more than there is, and up to one after only clean ones they count all there is. */
  lemma {:induction false} SeenIsBelow(b: seq<Bucket>, xs: seq<nat>, k: nat)
    requires Tallies(b, xs) && k < |b|
    ensures Seen(b, k) <= Below(xs, b[k].index) && Seen(b, k + 1) <= Below(xs, b[k].index + 1)
    ensures Clean(b, k) ==> Seen(b, k) == Below(xs, b[k].index)
    ensures Clean(b, k + 1) ==> Seen(b, k + 1) == Below(xs, b[k].index + 1)
  {
    BelowNext(xs, b[k].index);
    NextBucket(b, xs, k);
    if k > 0 {
      SeenIsBelow(b, xs, k - 1);
    }
  }

  /** None of the first `k` buckets has saturated, as far as their counts tell. */
  ghost predicate Clean(b: seq<Bucket>, k: nat)
    requires k <= |b|
  {
    forall j :: 0 <= j < k ==> b[j].n < U32_MAX
  }

  /** No sample lies above the last bucket. */
  lemma LastBucket(b: seq<Bucket>, xs: seq<nat>)
    requires Tallies(b, xs) && xs != []
    ensures b != [] && Below(xs, b[|b| - 1].index + 1) == |xs|
  {
    Listed(b, xs, 0);
    var top := b[|b| - 1].index + 1;
    forall m | 0 <= m < |xs|
      ensures BucketIndex(xs[m]) < top
    {
      Listed(b, xs, m);
    }
    AtLeastBelow(xs, top, |xs|);
    AtMostBelow(xs, top, |xs|);
  }

  /** What a caller can see: if no bucket before the one that answers has saturated, the answer is reliable. */
  lemma CleanBucketsAreReliable(b: seq<Bucket>, xs: seq<nat>, target: nat)
    requires Tallies(b, xs) && target >= 1 && Clean(b, Answering(b, target, 0))
    ensures Reliable(b, xs, target)
  {
    var k := Answering(b, target, 0);
    AnsweringReaches(b, target, 0);
    if target < |xs| {
      if k < |b| {
        SeenIsBelow(b, xs, k);
      } else {
        LastBucket(b, xs);
        SeenIsBelow(b, xs, |b| - 1);
      }
    }
  }

  lemma Listed(b: seq<Bucket>, xs: seq<nat>, m: nat)
    requires Tallies(b, xs) && m < |xs|
    ensures exists j :: 0 <= j < |b| && b[j].index == BucketIndex(xs[m])
  {
    InSome(xs, BucketIndex(xs[m]));
  }

  lemma {:induction false} NothingBelowZero(xs: seq<nat>)
    ensures Below(xs, 0) == 0
  {
    if xs != [] {
      NothingBelowZero(xs[..|xs| - 1]);
    }
  }

  ghost predicate Ordered(xs: seq<nat>)
  {
    forall i, j :: 0 <= i <= j < |xs| ==> xs[i] <= xs[j]
  }

  /** A bucket up to which there are `r` samples is the bucket of the r-th smallest one if and only if fewer than `r`
        lie below it. */
  lemma BucketOfRank(xs: seq<nat>, index: nat, r: nat)
    requires Ordered(xs) && 1 <= r <= |xs| && r <= Below(xs, index + 1)
    ensures index == BucketIndex(xs[r - 1]) <==> Below(xs, index) < r
  {
    var own := BucketIndex(xs[r - 1]);
    forall m | 0 <= m < |xs|
      ensures m < r ==> BucketIndex(xs[m]) < own + 1
      ensures m >= r - 1 ==> BucketIndex(xs[m]) >= own
    {
      if m < r { IndexIsMonotone(xs[m], xs[r - 1]); }
      if m >= r - 1 { IndexIsMonotone(xs[r - 1], xs[m]); }
    }
    AtMostBelow(xs, own, r - 1);
    AtLeastBelow(xs, own + 1, r);
    if index < own {
      BelowMonotone(xs, index + 1, own);
    } else if own < index {
      BelowMonotone(xs, own + 1, index);
    }
  }

  /** The bucket that answers for rank `r` is the bucket of the r-th smallest sample if and only if fewer than `r`
        samples lie below it, saturated or not. */
  lemma AnswersItsBucketExactly(b: seq<Bucket>, xs: seq<nat>, r: nat, k: nat)
    requires Tallies(b, xs) && Ordered(xs) && 1 <= r <= |xs|
    requires k < |b| && Seen(b, k) < r <= Seen(b, k + 1)
    ensures b[k].index == BucketIndex(xs[r - 1]) <==> Below(xs, b[k].index) < r
  {
    SeenIsBelow(b, xs, k);
    BucketOfRank(xs, b[k].index, r);
  }

  /** When the loop runs through, the largest sample is returned; it is of the bucket of the r-th smallest one if and
        only if fewer than `r` samples lie below the last bucket. */
  lemma RunsThroughExactly(b: seq<Bucket>, xs: seq<nat>, r: nat)
    requires Tallies(b, xs) && Ordered(xs) && 1 <= r <= |xs| && b != []
    ensures b[|b| - 1].index == BucketIndex(xs[|xs| - 1])
    ensures BucketIndex(xs[|xs| - 1]) == BucketIndex(xs[r - 1]) <==> Below(xs, b[|b| - 1].index) < r
  {
    LastBucket(b, xs);
    SeenIsBelow(b, xs, |b| - 1);
    NotAllBelow(b, xs, |b| - 1);
    BucketOfRank(xs, b[|b| - 1].index, |xs|);
    BucketOfRank(xs, b[|b| - 1].index, r);
  }

  /** A listed bucket holds a sample. */
  lemma NotAllBelow(b: seq<Bucket>, xs: seq<nat>, k: nat)
    requires Tallies(b, xs) && k < |b|
    ensures Below(xs, b[k].index) < Below(xs, b[k].index + 1)
  {
    BelowNext(xs, b[k].index);
  }

  lemma {:induction false} BelowMonotone(xs: seq<nat>, i: nat, j: nat)
    requires i <= j
    ensures Below(xs, i) <= Below(xs, j)
  {
    if xs != [] {
      BelowMonotone(xs[..|xs| - 1], i, j);
    }
  }

  function Clamp(m: nat, lo: nat, hi: nat): (r: nat)
  {
    if m < lo then lo else if m > hi then hi else m
  }

  /** What `quantile` returns for rank `r` when the bucket that reaches it is the k-th. */
  lemma BucketAnswerIsAccurate(v: Value, xs: seq<nat>, r: nat, k: nat)
    requires Represents(v, xs) && Ordered(xs) && 1 <= r <= |xs| && k < |v.buckets|
    requires Seen(v.buckets, k) < r <= Seen(v.buckets, k + 1) && Below(xs, v.buckets[k].index) < r
    ensures 16 * Distance(Clamp(Mid(v.buckets[k].index), v.min, v.max), xs[r - 1]) <= xs[r - 1]
  {
    AnswersItsBucketExactly(v.buckets, xs, r, k);
    MidpointIsClose(xs[r - 1]);
    assert v.min <= xs[r - 1] <= v.max;
  }

  // ------------------------------------------------------------- saturated buckets

  function Copies(n: nat, x: nat): (xs: seq<nat>)
    ensures |xs| == n && forall i :: 0 <= i < n ==> xs[i] == x
  {
    seq(n, _ => x)
  }

  lemma {:induction false} InCopies(n: nat, x: nat, index: nat)
    ensures In(Copies(n, x), index) == if BucketIndex(x) == index then n else 0
  {
    if n > 0 {
      InCopies(n - 1, x, index);
      assert Copies(n, x)[..n - 1] == Copies(n - 1, x);
    }
  }

  lemma IndexesOf1And100()
    ensures BucketIndex(1) == 1 && BucketIndex(100) == 52
  {
    EightTimes(3);
    assert Pow2(3) == 8 && Pow2(6) == 64;
    LogUnique(100, 6);
    IndexIs(100, 3);
  }

  /** Twice as many samples of 1 as a bucket can count, and one of 100. */
  function Crowded(): (xs: seq<nat>)
  {
    Copies(2 * U32_MAX, 1) + [100]
  }

  lemma CrowdedCounts(index: nat)
    ensures In(Crowded(), index) == if index == 1 then 2 * U32_MAX else if index == 52 then 1 else 0
  {
    IndexesOf1And100();
    InAppend(Copies(2 * U32_MAX, 1), [100], index);
    InCopies(2 * U32_MAX, 1, index);
    assert [100][..0] == [];
    assert In([100], index) == if index == 52 then 1 else 0;
  }

  /** Beyond that accuracy is lost: the saturated bucket falls short of a rank among its own samples, no other reaches
        it, and the largest sample is returned for it. */
  lemma ASaturatedBucketMisleads(v: Value)
    requires v == Value(2 * U32_MAX + 1, Cap(Sum(Crowded()), U64_MAX), 1, 100, [Bucket(1, U32_MAX), Bucket(52, 1)])
    ensures Represents(v, Crowded()) && Ordered(Crowded()) && !Reliable(v.buckets, Crowded(), 2 * U32_MAX)
    ensures Seen(v.buckets, |v.buckets|) < 2 * U32_MAX < |Crowded()| && !Accurate(v.max, 2 * U32_MAX, Crowded())
  {
    var xs := Crowded();
    forall index
      ensures In(xs, index) == if index == 1 then 2 * U32_MAX else if index == 52 then 1 else 0
    {
      CrowdedCounts(index);
    }
    assert xs[0] == 1 && xs[2 * U32_MAX] == 100;
    CrowdedTallies(v.buckets);
    NobodyAnswers(v.buckets);
  }

  lemma NobodyAnswers(b: seq<Bucket>)
    requires b == [Bucket(1, U32_MAX), Bucket(52, 1)]
    ensures Seen(b, 2) == U32_MAX + 1 && Answering(b, 2 * U32_MAX, 0) == 2
  {
    assert Seen(b, 0) == 0 && Seen(b, 1) == U32_MAX;
    assert Answering(b, 2 * U32_MAX, 2) == 2;
    assert Answering(b, 2 * U32_MAX, 1) == 2;
  }

  lemma CrowdedTallies(b: seq<Bucket>)
    requires b == [Bucket(1, U32_MAX), Bucket(52, 1)]
    ensures Tallies(b, Crowded())
  {
    forall index | In(Crowded(), index) > 0
      ensures exists k :: 0 <= k < |b| && b[k].index == index
    {
      CrowdedCounts(index);
      assert b[0].index == 1 && b[1].index == 52;
    }
    CrowdedCounts(1);
    CrowdedCounts(52);
  }
}
