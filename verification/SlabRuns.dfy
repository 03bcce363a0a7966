/** Node ids over whole runs of a slab: what becomes of an id after its node was released. */
module SlabRuns {
  import opened Options
  import opened Residents
  import opened Slabs

  datatype Op =
    | Recycle(p: nat, cost: nat)
    | Grow(p: nat, cost: nat)
    | Release
    | Push(seg: nat)
    | Unlink(seg: nat, k: nat)
    | Recost(seg: nat, k: nat, cost: nat)

  ghost predicate Enabled(m: Image, op: Op)
  {
    match op
    case Recycle(_, _) => m.loose == None && m.free != []
    case Grow(_, _) => m.loose == None && m.free == [] && |m.links| < NIL
    case Release => m.loose.Some?
    case Push(seg) => m.loose.Some? && seg < SEGMENTS
    case Unlink(seg, k) => m.loose == None && seg < SEGMENTS && seg < |m.order| && k < |m.order[seg]|
    case Recost(seg, k, _) => m.loose == None && seg < SEGMENTS && seg < |m.order| && k < |m.order[seg]|
  }

  /** The steps, which are what the slab's methods promise. */
  ghost predicate Leads(m: Image, op: Op, m': Image)
    requires WellFormed(m)
  {
    Enabled(m, op) &&
    match op
    case Recycle(p, cost) => IsRecycle(m, p, cost, m')
    case Grow(p, cost) => IsGrowth(m, p, cost, m')
    case Release => m' == ReleasedImage(m, m.loose.value)
    case Push(seg) => IsPush(m, seg, m.loose.value, m')
    case Unlink(seg, k) => IsUnlink(m, seg, k, m')
    case Recost(seg, k, cost) => IsRecost(m, seg, k, cost, m')
  }

  ghost predicate Releases(m: Image, op: Op, slot: nat)
  {
    op.Release? && m.loose == Some(slot)
  }

  /** Each step keeps the slab well formed, and moves on the generation of the slot it releases, no other. */
  lemma StepKeeps(m: Image, op: Op, m': Image)
    requires WellFormed(m) && Leads(m, op, m')
    ensures WellFormed(m') && |m.links| <= |m'.links|
    ensures forall slot: nat :: slot < |m.links| ==>
              m'.generations[slot] == if Releases(m, op, slot) then (m.generations[slot] + 1) % GENERATIONS
                                      else m.generations[slot]
  {
    match op
    case Recycle(p, cost) => RecycleKeeps(m, p, cost);
    case Grow(p, cost) => GrowKeeps(m, p, cost);
    case Release =>
      assert Slot(m.loose.value);
      ReleaseKeeps(m, m.loose.value);
    case Push(seg) => PushKeeps(m, seg, m.loose.value);
    case Unlink(seg, k) => UnlinkKeeps(m, seg, k);
    case Recost(seg, k, cost) => SetCostKeeps(m, seg, k, cost);
  }

  ghost predicate Run(ms: seq<Image>, ops: seq<Op>)
  {
    && |ms| == |ops| + 1 && WellFormed(ms[0])
    && forall k :: 0 <= k < |ops| ==> WellFormed(ms[k]) && Leads(ms[k], ops[k], ms[k + 1])
  }

  /** How often a run releases the slot. */
  ghost function Count(ms: seq<Image>, ops: seq<Op>, slot: nat): (n: nat)
    requires |ms| == |ops| + 1
  {
    if ops == [] then 0
    else
      var last := |ops| - 1;
      Count(ms[..|ms| - 1], ops[..last], slot) + (if Releases(ms[last], ops[last], slot) then 1 else 0)
  }

  lemma {:induction false} GenerationsCountReleases(ms: seq<Image>, ops: seq<Op>, slot: nat)
    requires Run(ms, ops) && slot < |ms[0].links|
    ensures WellFormed(ms[|ops|]) && slot < |ms[|ops|].links|
    ensures ms[|ops|].generations[slot] == Released(ms[0].generations[slot], Count(ms, ops, slot))
  {
    if ops != [] {
      var last := |ops| - 1;
      GenerationsCountReleases(ms[..|ms| - 1], ops[..last], slot);
      OneStepCounts(ms[last], ops[last], ms[last + 1], slot, ms[0].generations[slot],
                    Count(ms[..|ms| - 1], ops[..last], slot));
    }
  }

  lemma OneStepCounts(m: Image, op: Op, m': Image, slot: nat, g: nat, n: nat)
    requires WellFormed(m) && Leads(m, op, m') && slot < |m.links| && m.generations[slot] == Released(g, n)
    ensures WellFormed(m') && slot < |m'.links|
    ensures m'.generations[slot] == Released(g, n + (if Releases(m, op, slot) then 1 else 0))
  {
    StepKeeps(m, op, m');
  }

  /** In every run from a state where `id` is a node, once its slot has been released the id resolves
      again only if the slot has been recycled a multiple of 2^32 times. */
  lemma ReleasedIdsStayDead(ms: seq<Image>, ops: seq<Op>, id: NodeId)
    requires Run(ms, ops) && id in ms[0].resident && id.generation < GENERATIONS && ms[|ops|].loose == None
    ensures var n := Count(ms, ops, id.slot);
            && (Resolve(ms[|ops|].links, id).Some? ==> n % GENERATIONS == 0)
            && (0 < n < GENERATIONS ==> Resolve(ms[|ops|].links, id) == None && id !in ms[|ops|].resident)
  {
    var m := ms[|ops|];
    GenerationsCountReleases(ms, ops, id.slot);
    assert Slot(id.slot);
    StaleIdsStayStale(m.links, id, Count(ms, ops, id.slot));
    ResolveFindsResidents(m, id);
  }

  /** And as long as its slot has not been released, it resolves. */
  lemma {:induction false} HeldIdsStayAlive(ms: seq<Image>, ops: seq<Op>, id: NodeId)
    requires Run(ms, ops) && id in ms[0].resident && Count(ms, ops, id.slot) == 0
    ensures WellFormed(ms[|ops|]) && id in ms[|ops|].resident
    ensures ms[|ops|].loose == None ==> Resolve(ms[|ops|].links, id) == Some(id.slot)
  {
    if ops != [] {
      var last := |ops| - 1;
      HeldIdsStayAlive(ms[..|ms| - 1], ops[..last], id);
      StepHolds(ms[last], ops[last], ms[last + 1], id);
    }
    if ms[|ops|].loose == None {
      ResolveFindsResidents(ms[|ops|], id);
    }
  }

  lemma StepHolds(m: Image, op: Op, m': Image, id: NodeId)
    requires WellFormed(m) && Leads(m, op, m') && id in m.resident && !Releases(m, op, id.slot)
    ensures WellFormed(m') && id in m'.resident
  {
    StepKeeps(m, op, m');
  }
}
