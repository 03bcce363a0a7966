/**
 Where the slab ends: with 2^32 - 1 entries in use the next slot's index is the one that stands for no slot, and a
 list that holds only that entry reads as empty.
 */
module SlabLimit {
  import opened Options
  import opened Residents
  import opened Slabs
  import opened SlabRuns

  /** The slab hands out a real slot if and only if one is free or it is not yet that long. */
  lemma RoomExactlyWhenTheSlotIsReal(m: Image)
    requires WellFormed(m) && m.loose == None
    ensures m.free != [] || |m.links| < 0xFFFF_FFFF <==> NextId(m.free, m.generations).slot != NIL
  {
    if m.free != [] {
      assert m.free[|m.free| - 1] < |m.links|;
    }
  }

  /** A slab of `n` entries, all in list `seg`, none free. */
  ghost function Full(n: nat, seg: nat): (m: Image)
    requires seg < SEGMENTS
  {
    var links := seq(n,
                     i requires 0 <= i < n =>
                         Link(if i + 1 < n then i + 1 else NIL, if i > 0 then i - 1 else NIL, seg, 0));
    Image(links, seq(n, _ => Some(0)), seq(n, _ => 0), [],
          [EMPTY, EMPTY, EMPTY][seg := List(if n > 0 then n - 1 else NIL, if n > 0 then 0 else NIL, 0)],
          [[], [], []][seg := seq(n, i => i)], None, seq(n, _ => 0),
          map i: nat | 0 <= i < n :: NodeId(0, i) := Item(0, 0))
  }

  /** Allocating one more entry and pushing it to the same list. */
  lemma OneMore(n: nat, seg: nat)
    requires n < NIL && seg < SEGMENTS
    ensures IsPush(Grown(Full(n, seg), 0, 0), seg, n, Full(n + 1, seg))
  {
    var m, m' := Full(n, seg), Full(n + 1, seg);
    var g := Grown(m, 0, 0);
    assert g.lists[seg].head == if n > 0 then n - 1 else NIL;
    var r := PushedImage(g, seg, n);
    assert r.links == m'.links;
    assert r.payload == m'.payload && r.costs == m'.costs && r.generations == m'.generations;
    assert r.lists == m'.lists;
    assert m.order[seg] + [n] == m'.order[seg];
    assert r.order == m'.order;
    assert r.resident == m'.resident;
  }

  /** The slab as it is created. */
  const CREATED := Image([], [], [], [], [EMPTY, EMPTY, EMPTY], [[], [], []], None, [], map[])

  /** Some run of the slab's operations leads from its creation to `m`. */
  ghost predicate Reached(m: Image)
  {
    exists ms, ops :: Run(ms, ops) && ms[0] == CREATED && ms[|ops|] == m
  }

  lemma LongerRun(ms: seq<Image>, ops: seq<Op>, op: Op, m': Image)
    requires Run(ms, ops) && WellFormed(ms[|ops|]) && Leads(ms[|ops|], op, m')
    ensures Run(ms + [m'], ops + [op])
  {
    var longer, more := ms + [m'], ops + [op];
    forall k | 0 <= k < |more|
      ensures WellFormed(longer[k]) && Leads(longer[k], more[k], longer[k + 1])
    {
      if k < |ops| {
        assert WellFormed(ms[k]) && Leads(ms[k], ops[k], ms[k + 1]);
        assert longer[k] == ms[k] && longer[k + 1] == ms[k + 1] && more[k] == ops[k];
      } else {
        assert longer[k] == ms[k] && longer[k + 1] == m' && more[k] == op;
      }
    }
    assert longer[0] == ms[0];
  }

  lemma ReachedNext(m: Image, op: Op, m': Image)
    requires Reached(m) && WellFormed(m) && Leads(m, op, m')
    ensures Reached(m') && WellFormed(m')
  {
    var ms, ops :| Run(ms, ops) && ms[0] == CREATED && ms[|ops|] == m;
    StepKeeps(m, op, m');
    LongerRun(ms, ops, op, m');
    Closes(ms + [m'], ops + [op], m');
  }

  lemma Closes(ms: seq<Image>, ops: seq<Op>, m: Image)
    requires Run(ms, ops) && ms[0] == CREATED && ms[|ops|] == m
    ensures Reached(m)
  {
  }

  /** A slab fills up to any length by admissions alone. */
  lemma {:induction false} FullReached(n: nat, seg: nat)
    requires n <= NIL && seg < SEGMENTS
    ensures WellFormed(Full(n, seg)) && Reached(Full(n, seg))
  {
    if n == 0 {
      var m := Full(n, seg);
      assert m.links == [] && m.payload == [] && m.costs == [] && m.generations == [] && m.resident == map[];
      assert m.order[seg] == [] && m.order == CREATED.order && m.lists == CREATED.lists;
      Closes([m], [], m);
    } else {
      var m := Full(n - 1, seg);
      FullReached(n - 1, seg);
      ReachedNext(m, Grow(0, 0), Grown(m, 0, 0));
      OneMore(n - 1, seg);
      ReachedNext(Grown(m, 0, 0), Push(seg), Full(n, seg));
    }
  }

  /** The input that goes wrong, at the end of a run: a full slab takes one more entry, pushes it to another list, and
        that list reads as empty although its cost is counted. */
  lemma AFullSlabLosesTheNextEntry(seg: nat, to: nat, hash: nat, cost: nat)
    requires seg < SEGMENTS && to < SEGMENTS && seg != to
    ensures var m := Full(NIL, seg);
            && Reached(m) && WellFormed(m) && NextId(m.free, m.generations).slot == NIL
            && IsGrowth(m, hash, cost, Grown(m, hash, cost))
            && PushedImage(Grown(m, hash, cost), to, NIL).lists[to] == List(NIL, NIL, cost)
            && PushedImage(Grown(m, hash, cost), to, NIL).order[to] == [NIL]
  {
    FullReached(NIL, seg);
  }
}
