/** A read of an entry under TinyLFU, as the handles make it: into the ring, or applied at once when it is full. */
module Reads {
  import opened Slabs
  import opened TinyLfu
  import opened ReadRings
  import opened LazyReads
  import opened Allotting
  import opened Residents

  lemma NobodysId(node: nat)
    requires node <= NO_NODE
    ensures Split(node) == NOBODY <==> node == NO_NODE
  {
    JoinSplit(node, NOBODY);
  }

  lemma ReadsLazily(s: TinyModel.State, ring: seq<NodeId>, p: TinyModel.Params, id: NodeId, t: TinyModel.State,
                    left: seq<NodeId>, slots: Slots, depth: nat, width: nat)
    requires if id == NOBODY then t == s && left == ring
             else if |ring| < RING then t == s && left == ring + [id]
             else t == TinyModel.Touch(TinyModel.TouchAll(s, p, ring), p, id) && left == []
    ensures Lazy(t, slots, left) == LazyStep(Lazy(s, slots, ring), p, depth, width, Reading(id))
  {
  }

  /** Does what a read does to the policy and its ring in `LazyReads`. */
  method ReadNode(t: HTinyLfu, ring: ReadRing, node: nat)
    requires t.Valid() && ring.Valid() && node <= NO_NODE
    modifies t.slab`links, t.slab`lists, t.slab`order, t.slab`loose, t.sketch, ring, ring.slots
    ensures t.Valid() && ring.Valid()
    ensures forall slots, depth: nat, width: nat :: Lazy(t.Abs(), slots, Ids(ring.pending))
              == LazyStep(Lazy(old(t.Abs()), slots, Ids(old(ring.pending))), t.P(), depth, width, Reading(Split(node)))
    ensures t.slab.free == old(t.slab.free) && t.slab.generations == old(t.slab.generations)
  {
    NobodysId(node);
    IdsAppend(ring.pending, node);
    var ok := ring.Push(node);
    if !ok {
      t.ApplyReads(ring);
      t.TouchNode(Split(node));
    }
    forall slots, depth: nat, width: nat
      ensures Lazy(t.Abs(), slots, Ids(ring.pending))
              == LazyStep(Lazy(old(t.Abs()), slots, Ids(old(ring.pending))), t.P(), depth, width, Reading(Split(node)))
    {
      ReadsLazily(old(t.Abs()), Ids(old(ring.pending)), t.P(), Split(node), t.Abs(), Ids(ring.pending), slots, depth,
                  width);
    }
  }
}
