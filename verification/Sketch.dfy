/**
 The count-min sketch that estimates how often a hash was seen: rows of counters,
 every counter halved after each `threshold` increments. Which cell of a row a hash
 uses is a parameter, so what is proved holds for every indexing.
 */
module Sketches {

  const U32_MAX: nat := 0xFFFF_FFFF

  datatype Counts = Counts(counters: seq<seq<nat>>, increments: nat)

  type Indexing = (nat, nat) -> nat

  ghost predicate Fits(c: Counts, index: Indexing, width: nat)
  {
    && (forall row :: 0 <= row < |c.counters| ==> |c.counters[row]| == width)
    && (forall hash: nat, row: nat :: index(hash, row) < width)
  }

  function Add(n: nat): (r: nat)
  {
    if n < U32_MAX then n + 1 else n
  }

  function BumpRow(cells: seq<nat>, i: nat): (r: seq<nat>)
  {
    if i < |cells| then cells[i := Add(cells[i])] else cells
  }

  function Bumped(c: seq<seq<nat>>, index: Indexing, hash: nat): (r: seq<seq<nat>>)
  {
    seq(|c|, row requires 0 <= row < |c| => BumpRow(c[row], index(hash, row)))
  }

  function HalveRow(cells: seq<nat>): (r: seq<nat>)
  {
    seq(|cells|, i requires 0 <= i < |cells| => cells[i] / 2)
  }

  function Halved(c: seq<seq<nat>>): (r: seq<seq<nat>>)
  {
    seq(|c|, row requires 0 <= row < |c| => HalveRow(c[row]))
  }

  function Incremented(c: Counts, index: Indexing, threshold: nat, hash: nat): (r: Counts)
  {
    var bumped := Bumped(c.counters, index, hash);
    if c.increments + 1 >= threshold then Counts(Halved(bumped), 0) else Counts(bumped, c.increments + 1)
  }

  function CellAt(c: seq<seq<nat>>, row: nat, i: nat): (n: nat)
  {
    if row < |c| && i < |c[row]| then c[row][i] else 0
  }

  /** The smallest of the hash's cells in the first `rows` rows. */
  function MinOver(c: seq<seq<nat>>, index: Indexing, hash: nat, rows: nat): (m: nat)
    requires 0 < rows
  {
    var last := CellAt(c, rows - 1, index(hash, rows - 1));
    if rows == 1 then last
    else
      var m := MinOver(c, index, hash, rows - 1);
      if m < last then m else last
  }

  function EstimateOf(c: Counts, index: Indexing, hash: nat): (m: nat)
  {
    if |c.counters| == 0 then 0 else MinOver(c.counters, index, hash, |c.counters|)
  }

  // ---------------------------------------------------- the estimate's meaning

  /** A history of increments and how it leaves the sketch. */
  function Counted(c: Counts, index: Indexing, threshold: nat, seen: seq<nat>): (r: Counts)
  {
    if seen == [] then c
    else Incremented(Counted(c, index, threshold, seen[..|seen| - 1]), index, threshold, seen[|seen| - 1])
  }

  /** How many increments ago the counters were last halved. */
  function SinceHalving(threshold: nat, n: nat): (i: nat)
  {
    if n == 0 then 0
    else
      var i := SinceHalving(threshold, n - 1) + 1;
      if i >= threshold then 0 else i
  }

  /** A hash's own count, halved whenever the sketch is. */
  function Aged(threshold: nat, seen: seq<nat>, hash: nat): (n: nat)
  {
    if seen == [] then 0
    else
      var last := |seen| - 1;
      var n := Aged(threshold, seen[..last], hash) + (if seen[last] == hash then 1 else 0);
      if SinceHalving(threshold, last) + 1 >= threshold then n / 2 else n
  }

  /** The same in 32 bits, as a counter of the hash's own would hold it. */
  function AgedCounter(threshold: nat, seen: seq<nat>, hash: nat): (n: nat)
  {
    if seen == [] then 0
    else
      var last := |seen| - 1;
      var n := AgedCounter(threshold, seen[..last], hash);
      var m := if seen[last] == hash then Add(n) else n;
      if SinceHalving(threshold, last) + 1 >= threshold then m / 2 else m
  }

  function Zero(depth: nat, width: nat): (c: Counts)
  {
    Counts(seq(depth, _ => seq(width, _ => 0)), 0)
  }

  /** As many counters, all of them zero. */
  function Reset(c: Counts): (r: Counts)
  {
    Counts(seq(|c.counters|, row requires 0 <= row < |c.counters| => seq(|c.counters[row]|, _ => 0)), 0)
  }

  lemma IncrementKeepsShape(c: Counts, index: Indexing, threshold: nat, hash: nat)
    ensures Reset(Incremented(c, index, threshold, hash)) == Reset(c)
  {
    var r := Incremented(c, index, threshold, hash);
    var bumped := Bumped(c.counters, index, hash);
    assert |r.counters| == |bumped| == |c.counters|;
    forall row | 0 <= row < |c.counters|
      ensures Reset(r).counters[row] == Reset(c).counters[row]
    {
      assert bumped[row] == BumpRow(c.counters[row], index(hash, row));
      assert Halved(bumped)[row] == HalveRow(bumped[row]);
    }
  }

  ghost predicate Bounded(c: seq<seq<nat>>, max: nat)
  {
    forall row, i :: 0 <= row < |c| && 0 <= i < |c[row]| ==> c[row][i] <= max
  }

  lemma IncrementBounded(c: Counts, index: Indexing, threshold: nat, hash: nat)
    requires Bounded(c.counters, threshold + c.increments) && c.increments <= threshold
    ensures var r := Incremented(c, index, threshold, hash);
            Bounded(r.counters, threshold + r.increments) && (r.increments < threshold || r.increments == 0)
  {
    var b := Bumped(c.counters, index, hash);
    forall row, i | 0 <= row < |b| && 0 <= i < |b[row]|
      ensures b[row][i] <= threshold + c.increments + 1
    {
      assert b[row] == BumpRow(c.counters[row], index(hash, row));
      assert c.counters[row][i] <= threshold + c.increments;
    }
    if c.increments + 1 >= threshold {
      forall row, i | 0 <= row < |b| && 0 <= i < |b[row]|
        ensures Halved(b)[row][i] <= threshold
      {
        assert b[row][i] <= 2 * threshold + 1;
      }
    }
  }

  /** No counter ever exceeds the threshold by more than the increments since the last
      halving, so none reaches twice the threshold. */
  lemma {:induction false} CountersStayBounded(depth: nat, width: nat, index: Indexing, threshold: nat, seen: seq<nat>)
    ensures var c := Counted(Zero(depth, width), index, threshold, seen);
            && c.increments == SinceHalving(threshold, |seen|)
            && Bounded(c.counters, threshold + c.increments)
            && (c.increments < threshold || c.increments == 0)
            && (threshold > 0 ==> Bounded(c.counters, 2 * threshold - 1))
  {
    if seen == [] {
    } else {
      var last := |seen| - 1;
      CountersStayBounded(depth, width, index, threshold, seen[..last]);
      IncrementBounded(Counted(Zero(depth, width), index, threshold, seen[..last]), index, threshold, seen[last]);
    }
  }

  /** What a cell counts: every increment of a hash that uses it, aged with the sketch. */
  ghost function CellCount(threshold: nat, seen: seq<nat>, uses: iset<nat>): (n: nat)
  {
    if seen == [] then 0
    else
      var last := |seen| - 1;
      var n := CellCount(threshold, seen[..last], uses);
      var m := if seen[last] in uses then Add(n) else n;
      if SinceHalving(threshold, last) + 1 >= threshold then m / 2 else m
  }

  ghost function UsersOf(index: Indexing, row: nat, i: nat): (users: iset<nat>)
  {
    iset h: nat | index(h, row) == i
  }

  /** A cell holds exactly the aged count of its users. */
  lemma {:induction false} CellsCountTheirUsers(depth: nat, width: nat, index: Indexing, threshold: nat,
                                                seen: seq<nat>, row: nat, i: nat)
    requires row < depth && i < width
    ensures var c := Counted(Zero(depth, width), index, threshold, seen);
            && |c.counters| == depth && |c.counters[row]| == width && c.increments == SinceHalving(threshold, |seen|)
            && c.counters[row][i] == CellCount(threshold, seen, UsersOf(index, row, i))
  {
    if seen == [] {
    } else {
      var last := |seen| - 1;
      var c := Counted(Zero(depth, width), index, threshold, seen[..last]);
      CellsCountTheirUsers(depth, width, index, threshold, seen[..last], row, i);
      var b := Bumped(c.counters, index, seen[last]);
      assert b[row] == BumpRow(c.counters[row], index(seen[last], row));
      assert b[row][i] == if seen[last] in UsersOf(index, row, i) then Add(c.counters[row][i]) else c.counters[row][i];
      assert Halved(b)[row] == HalveRow(b[row]);
    }
  }

  /** More users, no smaller a count; no other user seen, the same count. */
  lemma {:induction false} CellCountOfOne(threshold: nat, seen: seq<nat>, uses: iset<nat>, hash: nat)
    requires hash in uses
    ensures CellCount(threshold, seen, uses) >= AgedCounter(threshold, seen, hash)
    ensures (forall k :: 0 <= k < |seen| && seen[k] in uses ==> seen[k] == hash) ==>
              CellCount(threshold, seen, uses) == AgedCounter(threshold, seen, hash)
  {
    if seen != [] {
      CellCountOfOne(threshold, seen[..|seen| - 1], uses, hash);
    }
  }

  lemma {:induction false} MinOverIsLeast(c: seq<seq<nat>>, index: Indexing, hash: nat, rows: nat)
    requires 0 < rows
    ensures forall row: nat :: row < rows ==> MinOver(c, index, hash, rows) <= CellAt(c, row, index(hash, row))
    ensures exists row: nat :: row < rows && MinOver(c, index, hash, rows) == CellAt(c, row, index(hash, row))
  {
    if rows > 1 {
      MinOverIsLeast(c, index, hash, rows - 1);
      var m := MinOver(c, index, hash, rows - 1);
      var row: nat :| row < rows - 1 && m == CellAt(c, row, index(hash, row));
      if m < CellAt(c, rows - 1, index(hash, rows - 1)) {
        assert MinOver(c, index, hash, rows) == CellAt(c, row, index(hash, row));
      } else {
        assert MinOver(c, index, hash, rows) == CellAt(c, rows - 1, index(hash, rows - 1));
      }
    } else {
      assert MinOver(c, index, hash, rows) == CellAt(c, 0, index(hash, 0));
    }
  }

  /** The estimate is never below what a counter of the hash's own would hold, and is that when some row keeps the
        hash apart from every other hash seen. */
  lemma EstimateIsAtLeastTheCounter(depth: nat, width: nat, index: Indexing, threshold: nat, seen: seq<nat>, hash: nat)
    requires depth > 0
    requires forall h: nat, row: nat :: index(h, row) < width
    ensures var c := Counted(Zero(depth, width), index, threshold, seen);
            && EstimateOf(c, index, hash) >= AgedCounter(threshold, seen, hash)
            && ((exists row: nat :: row < depth && Apart(index, row, seen, hash)) ==>
                EstimateOf(c, index, hash) == AgedCounter(threshold, seen, hash))
  {
    var c := Counted(Zero(depth, width), index, threshold, seen);
    forall row: nat | row < depth
      ensures |c.counters| == depth && CellAt(c.counters, row, index(hash, row)) >= AgedCounter(threshold, seen, hash)
      ensures Apart(index, row, seen, hash) ==>
                CellAt(c.counters, row, index(hash, row)) == AgedCounter(threshold, seen, hash)
    {
      var i := index(hash, row);
      CellsCountTheirUsers(depth, width, index, threshold, seen, row, i);
      CellCountOfOne(threshold, seen, UsersOf(index, row, i), hash);
    }
    CellsCountTheirUsers(depth, width, index, threshold, seen, 0, index(hash, 0));
    MinOverIsLeast(c.counters, index, hash, depth);
  }

  /** No other hash seen shares the hash's cell in this row. */
  ghost predicate Apart(index: Indexing, row: nat, seen: seq<nat>, hash: nat)
  {
    forall k :: 0 <= k < |seen| && index(seen[k], row) == index(hash, row) ==> seen[k] == hash
  }

  // ------------------------------------------------------------ saturation

  /** The highest threshold at which no counter can saturate. */
  const SAFE: nat := 0x8000_0000

  /** A hash's own count stays below its threshold, but for the increments since the last halving. */
  lemma {:induction false} AgedIsBounded(threshold: nat, seen: seq<nat>, hash: nat)
    ensures SinceHalving(threshold, |seen|) < threshold || SinceHalving(threshold, |seen|) == 0
    ensures threshold > 0 ==> Aged(threshold, seen, hash) <= threshold - 1 + SinceHalving(threshold, |seen|)
    ensures threshold == 0 ==> Aged(threshold, seen, hash) == 0
  {
    if seen != [] {
      AgedIsBounded(threshold, seen[..|seen| - 1], hash);
    }
  }

  lemma {:induction false} SafeCountersAreExact(threshold: nat, seen: seq<nat>, hash: nat)
    requires threshold <= SAFE
    ensures AgedCounter(threshold, seen, hash) == Aged(threshold, seen, hash)
  {
    if seen != [] {
      SafeCountersAreExact(threshold, seen[..|seen| - 1], hash);
      AgedIsBounded(threshold, seen[..|seen| - 1], hash);
    }
  }

  /** Up to that threshold the sketch never underestimates a hash's aged count. */
  lemma EstimateNeverUnderestimates(depth: nat, width: nat, index: Indexing, threshold: nat, seen: seq<nat>, hash: nat)
    requires depth > 0 && threshold <= SAFE
    requires forall h: nat, row: nat :: index(h, row) < width
    ensures var c := Counted(Zero(depth, width), index, threshold, seen);
            && EstimateOf(c, index, hash) >= Aged(threshold, seen, hash)
            && ((exists row: nat :: row < depth && Apart(index, row, seen, hash)) ==>
                EstimateOf(c, index, hash) == Aged(threshold, seen, hash))
  {
    EstimateIsAtLeastTheCounter(depth, width, index, threshold, seen, hash);
    SafeCountersAreExact(threshold, seen, hash);
  }

  function Repeated(hash: nat, n: nat): (seen: seq<nat>)
    ensures |seen| == n
  {
    if n == 0 then [] else Repeated(hash, n - 1) + [hash]
  }

  function Climb(threshold: nat, hash: nat, n: nat): (c: nat)
  {
    Aged(threshold, Repeated(hash, n), hash)
  }

  lemma OneMore(threshold: nat, hash: nat, n: nat)
    ensures Climb(threshold, hash, n + 1)
            == if SinceHalving(threshold, n) + 1 >= threshold then (Climb(threshold, hash, n) + 1) / 2
               else Climb(threshold, hash, n) + 1
    ensures SinceHalving(threshold, n + 1) == if SinceHalving(threshold, n) + 1 >= threshold then 0
                                              else SinceHalving(threshold, n) + 1
  {
    assert Repeated(hash, n + 1)[..n] == Repeated(hash, n);
  }

  /** From a halving on, counts add up one by one until the next. */
  lemma {:induction false} WithinARound(threshold: nat, hash: nat, n: nat, j: nat)
    requires threshold > 0 && SinceHalving(threshold, n) == 0 && j < threshold
    ensures SinceHalving(threshold, n + j) == j && Climb(threshold, hash, n + j) == Climb(threshold, hash, n) + j
  {
    if j > 0 {
      WithinARound(threshold, hash, n, j - 1);
      var before := n + (j - 1);
      OneMore(threshold, hash, before);
      assert n + j == before + 1;
    }
  }

  lemma ARound(threshold: nat, hash: nat, n: nat)
    requires threshold > 0 && SinceHalving(threshold, n) == 0
    ensures SinceHalving(threshold, n + threshold) == 0
    ensures Climb(threshold, hash, n + threshold) == (Climb(threshold, hash, n) + threshold) / 2
  {
    WithinARound(threshold, hash, n, threshold - 1);
    OneMore(threshold, hash, n + threshold - 1);
  }

  /** Round by round the count halves its distance to the threshold. */
  lemma {:induction false} ClimbsToTheThreshold(threshold: nat, hash: nat, n: nat) returns (m: nat)
    requires threshold > 0 && SinceHalving(threshold, n) == 0
    ensures SinceHalving(threshold, m) == 0 && Climb(threshold, hash, m) == threshold - 1
    decreases threshold - Climb(threshold, hash, n)
  {
    AgedIsBounded(threshold, Repeated(hash, n), hash);
    if Climb(threshold, hash, n) == threshold - 1 {
      m := n;
    } else {
      ARound(threshold, hash, n);
      m := ClimbsToTheThreshold(threshold, hash, n + threshold);
    }
  }

  lemma {:induction false} CountersFit(depth: nat, width: nat, index: Indexing, threshold: nat, seen: seq<nat>)
    ensures var c := Counted(Zero(depth, width), index, threshold, seen); Bounded(c.counters, U32_MAX)
  {
    if seen != [] {
      var last := |seen| - 1;
      CountersFit(depth, width, index, threshold, seen[..last]);
      FitsAgain(Counted(Zero(depth, width), index, threshold, seen[..last]), index, threshold, seen[last]);
    }
  }

  lemma FitsAgain(c: Counts, index: Indexing, threshold: nat, hash: nat)
    requires Bounded(c.counters, U32_MAX)
    ensures Bounded(Incremented(c, index, threshold, hash).counters, U32_MAX)
  {
    var b := Bumped(c.counters, index, hash);
    forall row, i | 0 <= row < |b| && 0 <= i < |b[row]|
      ensures b[row][i] <= U32_MAX
    {
      assert b[row] == BumpRow(c.counters[row], index(hash, row));
      assert c.counters[row][i] <= U32_MAX;
    }
  }

  /** Beyond it there is a history, one hash seen again and again, that every sketch underestimates. */
  lemma AHighThresholdUnderestimates(depth: nat, width: nat, index: Indexing, threshold: nat,
                                     hash: nat) returns (seen: seq<nat>)
    requires depth > 0 && threshold > SAFE
    ensures EstimateOf(Counted(Zero(depth, width), index, threshold, seen), index, hash) < Aged(threshold, seen, hash)
  {
    var m := ClimbsToTheThreshold(threshold, hash, 0);
    WithinARound(threshold, hash, m, threshold - 1);
    seen := Repeated(hash, m + (threshold - 1));
    assert Aged(threshold, seen, hash) == 2 * threshold - 2;
    EstimateFits(depth, width, index, threshold, seen, hash);
  }

  lemma EstimateFits(depth: nat, width: nat, index: Indexing, threshold: nat, seen: seq<nat>, hash: nat)
    ensures EstimateOf(Counted(Zero(depth, width), index, threshold, seen), index, hash) <= U32_MAX
  {
    var c := Counted(Zero(depth, width), index, threshold, seen);
    CountersFit(depth, width, index, threshold, seen);
    if |c.counters| > 0 {
      MinOverIsLeast(c.counters, index, hash, |c.counters|);
      assert CellAt(c.counters, 0, index(hash, 0)) <= U32_MAX;
    }
  }

  class Sketch {
    var counters: seq<seq<nat>>
    var increments: nat
    const width: nat
    const threshold: nat
    const index: Indexing

    ghost function Now(): (c: Counts)
      reads this
    {
      Counts(counters, increments)
    }

    ghost predicate Valid()
      reads this
    {
      Fits(Now(), index, width)
    }

    /** Four rows; `width` is the power of two that `new` picks from the threshold. */
    constructor (threshold: nat, width: nat, index: Indexing)
      requires forall hash: nat, row: nat :: index(hash, row) < width
      ensures Valid() && Now() == Zero(4, width)
      ensures this.threshold == threshold && this.width == width && this.index == index
    {
      this.threshold, this.width, this.index := threshold, width, index;
      counters, increments := seq(4, _ => seq(width, _ => 0)), 0;
    }

    method Increment(hash: nat)
      requires Valid()
      modifies this
      ensures Valid() && Now() == Incremented(old(Now()), index, threshold, hash)
    {
      ghost var was := counters;
      for row := 0 to |counters|
        invariant |counters| == |was| && increments == old(increments)
        invariant forall r :: 0 <= r < row ==> counters[r] == BumpRow(was[r], index(hash, r))
        invariant forall r :: row <= r < |was| ==> counters[r] == was[r]
      {
        var i := index(hash, row);
        var cells: seq<nat> := counters[row];
        counters := counters[row := cells[i := Add(cells[i])]];
      }
      assert counters == Bumped(was, index, hash);
      increments := increments + 1;
      if increments >= threshold {
        increments := 0;
        Halve();
      }
    }

    method Halve()
      modifies this`counters
      ensures counters == Halved(old(counters))
    {
      ghost var was := counters;
      for row := 0 to |counters|
        invariant |counters| == |was|
        invariant forall r :: 0 <= r < row ==> counters[r] == HalveRow(was[r])
        invariant forall r :: row <= r < |was| ==> counters[r] == was[r]
      {
        var cells: seq<nat> := counters[row];
        for i := 0 to |cells|
          invariant |cells| == |was[row]|
          invariant forall j :: 0 <= j < i ==> cells[j] == was[row][j] / 2
          invariant forall j :: i <= j < |cells| ==> cells[j] == was[row][j]
        {
          cells := cells[i := cells[i] / 2];
        }
        assert cells == HalveRow(was[row]);
        counters := counters[row := cells];
      }
    }

    method Estimate(hash: nat) returns (m: nat)
      requires Valid()
      ensures m == EstimateOf(Now(), index, hash)
    {
      if |counters| == 0 {
        return 0;
      }
      m := counters[0][index(hash, 0)];
      for row := 1 to |counters|
        invariant m == MinOver(counters, index, hash, row)
      {
        var cell := counters[row][index(hash, row)];
        m := if m < cell then m else cell;
      }
    }

    method Clear()
      requires Valid()
      modifies this
      ensures Valid() && Now() == Zero(|old(counters)|, width) == Reset(old(Now()))
    {
      increments := 0;
      ghost var was := counters;
      for row := 0 to |counters|
        invariant |counters| == |was| && increments == 0
        invariant forall r :: 0 <= r < |was| ==> |counters[r]| == width
        invariant forall r :: 0 <= r < row ==> counters[r] == seq(width, _ => 0)
      {
        counters := counters[row := seq(|counters[row]|, _ => 0)];
      }
      assert counters == Zero(|was|, width).counters == Reset(old(Now())).counters;
    }
  }
}
