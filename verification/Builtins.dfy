/**
 The built-in policies behind one interface, stated in what a shard can see: the
 nodes held, the victims named, and how much eviction cannot reach.
 */
module Builtins {
  import opened Options
  import opened Residents
  import opened Sums
  import opened Slabs
  import opened ReadRings
  import Policies
  import opened TinyLfu
  import opened S3Fifo

  datatype Builtin = Tiny(t: HTinyLfu) | S3(s: HS3Fifo)

  ghost function SlabOf(b: Builtin): (slab: Slab)
  {
    match b case Tiny(t) => t.slab case S3(s) => s.slab
  }

  /** What the policy owns. */
  ghost function Parts(b: Builtin): (r: set<object>)
  {
    match b case Tiny(t) => {t.slab, t.sketch} case S3(s) => {s, s.slab}
  }

  ghost predicate Ok(b: Builtin)
    reads Parts(b)
  {
    match b case Tiny(t) => t.Valid() case S3(s) => s.Valid()
  }

  ghost function Held(b: Builtin): (m: Resident)
    reads SlabOf(b)
  {
    SlabOf(b).resident
  }

  /** The policy as one value. */
  ghost function MindOf(b: Builtin): (m: Policies.Mind)
    reads Parts(b), SlabOf(b)
    requires |SlabOf(b).order| == SEGMENTS
  {
    match b
    case Tiny(t) => Policies.OfTiny(t.Abs(), t.P(), t.Allot())
    case S3(s) => Policies.OfS3(s.Abs(), s.smallTarget, s.ghostCap, s.Allot())
  }

  ghost function CostsOf(m: Resident): (c: map<NodeId, nat>)
  {
    map id | id in m :: m[id].cost
  }

  ghost function Weight(m: Resident): (w: nat)
  {
    Sum(CostsOf(m))
  }

  /** What a fresh entry may leave out of reach. */
  ghost function WindowTarget(b: Builtin): (c: nat)
  {
    match b case Tiny(t) => t.windowTarget case S3(s) => 0
  }

  lemma WeightWithout(m: Resident, id: NodeId)
    requires id in m
    ensures Weight(m) == m[id].cost + Weight(m - {id})
  {
    SumWithout(CostsOf(m), id);
    assert CostsOf(m - {id}) == CostsOf(m) - {id};
  }

  lemma WeightWith(m: Resident, id: NodeId, item: Item)
    ensures Weight(m[id := item]) == item.cost + Weight(m - {id})
    ensures id !in m ==> Weight(m[id := item]) == item.cost + Weight(m)
  {
    SumWith(CostsOf(m), id, item.cost);
    assert CostsOf(m[id := item]) == CostsOf(m)[id := item.cost];
    assert CostsOf(m - {id}) == CostsOf(m) - {id};
  }

  lemma {:induction false} WeightFreed(m: Resident, out: seq<Victim>)
    requires Named(m, out)
    ensures Weight(m) == Freed(m, out) + Weight(m - NodesOf(out))
  {
    if out == [] {
      assert m - NodesOf(out) == m;
    } else {
      var last := |out| - 1;
      var first := out[..last];
      assert out == first + [out[last]];
      FreedAppend(m, first, out[last]);
      WeightFreed(m, first);
      NodesOfAppend(first, out[last]);
      assert out[last].node !in NodesOf(first);
      WeightWithout(m - NodesOf(first), out[last].node);
      assert m - NodesOf(first) - {out[last].node} == m - NodesOf(out);
    }
  }

  /** The nodes weigh what the list they fill costs. */
  lemma {:induction false} WeightOfList(m: Resident, costs: seq<nat>, generations: seq<nat>, s: seq<nat>)
    requires |costs| == |generations| && Below(s, |costs|) && Distinct(s)
    requires forall k {:trigger s[k]} ::
               0 <= k < |s| ==> IdOf(generations, s[k]) in m && m[IdOf(generations, s[k])].cost == costs[s[k]]
    requires forall id {:trigger id in m} ::
               id in m ==> id.slot in s && id.slot < |generations| && id == IdOf(generations, id.slot)
    ensures Weight(m) == Total(costs, s)
  {
    if s == [] {
      assert m == map[];
    } else {
      var id, rest := IdOf(generations, s[0]), s[1..];
      WeightWithout(m, id);
      forall k {:trigger rest[k]} | 0 <= k < |rest|
        ensures IdOf(generations, rest[k]) in m - {id} && (m - {id})[IdOf(generations, rest[k])].cost == costs[rest[k]]
      {
        assert rest[k] == s[k + 1];
      }
      forall other {:trigger other in m - {id}} | other in m - {id}
        ensures other.slot in rest
      {
        assert s == [s[0]] + rest;
      }
      WeightOfList(m - {id}, costs, generations, rest);
    }
  }

  /** All three lists, one after the other. */
  ghost function Chain(order: seq<seq<nat>>): (s: seq<nat>)
    requires |order| == SEGMENTS
  {
    order[0] + order[1] + order[2]
  }

  lemma ChainDistinct(m: Image)
    requires WellFormed(m) && m.loose == None
    ensures Distinct(Chain(m.order)) && Below(Chain(m.order), |m.costs|)
    ensures Total(m.costs, Chain(m.order)) == m.lists[0].cost + m.lists[1].cost + m.lists[2].cost
  {
    Facts(m, 0);
    Facts(m, 1);
    Facts(m, 2);
    forall seg: nat, k: nat, other: nat | seg < other < SEGMENTS && k < |m.order[seg]|
      ensures m.order[seg][k] !in m.order[other]
    {
      Elsewhere(m, seg, k, other);
    }
    TotalAppend(m.costs, m.order[0], m.order[1]);
    TotalAppend(m.costs, m.order[0] + m.order[1], m.order[2]);
  }

  lemma InChain(m: Image, id: NodeId)
    requires WellFormed(m) && m.loose == None && id in m.resident
    ensures id.slot in Chain(m.order) && id.slot < |m.generations| && id == IdOf(m.generations, id.slot)
  {
    var seg, k := Locate(m, id);
    assert m.order[seg][k] in m.order[seg];
  }

  lemma ChainHolds(m: Image, k: nat)
    requires WellFormed(m) && m.loose == None && k < |Chain(m.order)|
    ensures var i := Chain(m.order)[k];
            i < |m.generations| == |m.costs| && IdOf(m.generations, i) in m.resident &&
                m.resident[IdOf(m.generations, i)].cost == m.costs[i]
  {
    Facts(m, 0);
    Facts(m, 1);
    Facts(m, 2);
    var a, b := |m.order[0]|, |m.order[1]|;
    if k < a {
      assert Chain(m.order)[k] == m.order[0][k];
    } else if k < a + b {
      assert Chain(m.order)[k] == m.order[1][k - a];
    } else {
      assert Chain(m.order)[k] == m.order[2][k - a - b];
    }
  }

  /** The policy's nodes weigh what its three lists cost. */
  lemma WeightOfSlab(m: Image)
    requires WellFormed(m) && m.loose == None
    ensures Weight(m.resident) == m.lists[0].cost + m.lists[1].cost + m.lists[2].cost
  {
    var s := Chain(m.order);
    ChainDistinct(m);
    forall k {:trigger s[k]} | 0 <= k < |s|
      ensures IdOf(m.generations, s[k]) in m.resident && m.resident[IdOf(m.generations, s[k])].cost == m.costs[s[k]]
    {
      ChainHolds(m, k);
    }
    forall id {:trigger id in m.resident} | id in m.resident
      ensures id.slot in s && id.slot < |m.generations| && id == IdOf(m.generations, id.slot)
    {
      InChain(m, id);
    }
    WeightOfList(m.resident, m.costs, m.generations, s);
  }

  /** Which is what TinyLFU's queues cost. */
  lemma WeightOfQueues(m: Image)
    requires WellFormed(m) && m.loose == None
    ensures Weight(m.resident) == TinyModel.HeldCost(QueuesOf(TinyLfu.View(m.payload, m.costs, m.generations), m.order))
  {
    WeightOfSlab(m);
    Header(m, 0);
    Header(m, 1);
    Header(m, 2);
  }

  lemma WindowOnly(m: Image)
    requires WellFormed(m) && m.loose == None && m.order[TinyModel.PROBATION] == []
    requires m.order[TinyModel.PROTECTED] == []
    ensures Weight(m.resident) ==
            TinyModel.Cost(QueuesOf(TinyLfu.View(m.payload, m.costs, m.generations), m.order)[TinyModel.WINDOW])
  {
    WeightOfQueues(m);
  }

  /** Whether a policy that holds `w` after an admission rejects nobody: S3-FIFO never does. */
  ghost predicate Roomy(b: Builtin, w: nat)
  {
    b.Tiny? ==> w <= b.t.mainCapacity
  }

  /** A policy with fewer entries than slot indexes has a slot for one more. */
  lemma RoomForOneMore(b: Builtin)
    requires Ok(b) && |Held(b)| < NIL
    ensures SlabOf(b).HasRoom()
  {
    if SlabOf(b).free == [] {
      FullSlab(SlabOf(b).Now());
    }
  }

  /** Admits an entry not resident; `out` names the entries rejected on the way, possibly this one. */
  method Admit(b: Builtin, hash: nat, cost: nat) returns (id: NodeId, out: seq<Victim>)
    requires Ok(b) && SlabOf(b).HasRoom()
    modifies Parts(b)
    ensures Ok(b) && id !in old(Held(b))
    ensures var m := old(Held(b))[id := Item(hash, cost)]; Named(m, out) && Held(b) == m - NodesOf(out)
    ensures Policies.OutOfReach(MindOf(b)) <= WindowTarget(b) && id == Policies.IdNext(old(MindOf(b)))
    ensures Policies.Ruling(MindOf(b), out) == Policies.Decided(old(MindOf(b)), Policies.Admit(hash, cost))
    ensures Roomy(b, old(Weight(Held(b))) + cost) ==> out == []
  {
    Policies.LookInto(MindOf(b), Policies.Admit(hash, cost));
    match b
    case Tiny(t) =>
      WeightOfQueues(t.slab.Now());
      ghost var s := t.Abs();
      id, out := t.AdmitKey(hash, cost);
      if Roomy(b, old(Weight(Held(b))) + cost) {
        TinyModel.AdmitsAll(s, t.P(), id, hash, cost);
      }
    case S3(s) =>
      id := s.AdmitKey(hash, cost);
      out := [];
      assert Held(b) == old(Held(b))[id := Item(hash, cost)] - NodesOf(out);
  }

  method Update(b: Builtin, id: NodeId, cost: nat)
    requires Ok(b)
    modifies Parts(b)
    ensures Ok(b) && MindOf(b) == Policies.Decided(old(MindOf(b)), Policies.Update(id, cost)).mind
    ensures Held(b) == if id in old(Held(b)) then old(Held(b))[id := Item(old(Held(b))[id].hash, cost)]
                       else old(Held(b))
  {
    Policies.LookInto(MindOf(b), Policies.Update(id, cost));
    match b
    case Tiny(t) => t.Update(id, cost);
    case S3(s) => s.Update(id, cost);
  }

  method Remove(b: Builtin, id: NodeId)
    requires Ok(b)
    modifies Parts(b)
    ensures Ok(b) && Held(b) == old(Held(b)) - {id}
    ensures MindOf(b) == Policies.Decided(old(MindOf(b)), Policies.Remove(id)).mind
  {
    Policies.LookInto(MindOf(b), Policies.Remove(id));
    match b
    case Tiny(t) => t.Remove(id);
    case S3(s) => s.Remove(id);
  }

  /** Evicts until `want` is released or nothing within reach is left. */
  method Evict(b: Builtin, want: nat) returns (out: seq<Victim>)
    requires Ok(b)
    modifies Parts(b)
    ensures Ok(b) && Named(old(Held(b)), out) && Held(b) == old(Held(b)) - NodesOf(out)
    ensures Policies.OutOfReach(MindOf(b)) == Policies.OutOfReach(old(MindOf(b)))
    ensures Freed(old(Held(b)), out) >= want || Weight(Held(b)) == Policies.OutOfReach(MindOf(b))
    ensures Policies.Ruling(MindOf(b), out) == Policies.Decided(old(MindOf(b)), Policies.Evict(want))
    ensures Tight(old(Held(b)), out, want)
  {
    Policies.LookInto(MindOf(b), Policies.Evict(want));
    match b
    case Tiny(t) =>
      TinyModel.EvictFrees(t.Queued(), t.P(), want);
      out := t.EvictNodes(want);
      if Freed(old(Held(b)), out) < want {
        WindowOnly(t.slab.Now());
      }
    case S3(s) =>
      out := s.Evict(want);
  }

  /** Applies the reads recorded in `ring`; S3-FIFO has had them at the time. */
  method ApplyReads(b: Builtin, ring: ReadRing)
    requires Ok(b) && ring.Valid()
    modifies Parts(b), ring, ring.slots
    ensures Ok(b) && ring.Valid() && Held(b) == old(Held(b)) && SlabOf(b).free == old(SlabOf(b).free)
    ensures |SlabOf(b).links| == old(|SlabOf(b).links|)
    ensures MindOf(b) == Caught(b, old(MindOf(b)), old(ring.pending))
    ensures ring.pending == if b.Tiny? then [] else old(ring.pending)
  {
    match b
    case Tiny(t) =>
      Policies.ReadAllTiny(t.Abs(), t.P(), t.Allot(), Ids(ring.pending));
      t.ApplyReads(ring);
    case S3(s) =>
  }

  /** The policy with the reads logged for it applied; S3-FIFO has none logged. */
  ghost function Caught(b: Builtin, m: Policies.Mind, pending: seq<nat>): (r: Policies.Mind)
  {
    if b.Tiny? then Policies.ReadAll(m, Ids(pending)) else m
  }

  /** A read of a node, applied at once. */
  method ApplyRead(b: Builtin, id: NodeId)
    requires Ok(b)
    modifies Parts(b)
    ensures Ok(b) && Held(b) == old(Held(b)) && MindOf(b) == Policies.Read(old(MindOf(b)), id)
  {
    Policies.LookInto(MindOf(b), Policies.Touch(id));
    match b
    case Tiny(t) => t.TouchNode(id);
    case S3(s) => s.Touch(id);
  }

  method Clear(b: Builtin)
    requires Ok(b)
    modifies Parts(b)
    ensures Ok(b) && Held(b) == map[] && MindOf(b) == Policies.Cleared(old(MindOf(b)))
  {
    Policies.LookInto(MindOf(b), Policies.Clear);
    match b
    case Tiny(t) => t.Clear();
    case S3(s) => s.Clear();
  }
}
