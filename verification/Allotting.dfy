/** The ids that a slab hands out and takes back, as far as they depend on its free slots and generations. */
module Allotting {
  import opened Residents
  import opened Slabs

  /** What the slab allocates from: its free slots, the last freed last, and the generation of every slot. */
  datatype Slots = Slots(free: seq<nat>, generations: seq<nat>)

  function Taken(a: Slots): (r: Slots)
  {
    if a.free == [] then a.(generations := a.generations + [0]) else a.(free := a.free[..|a.free| - 1])
  }

  function Given(a: Slots, id: NodeId): (r: Slots)
  {
    if id.slot < |a.generations|
    then Slots(a.free + [id.slot], a.generations[id.slot := (a.generations[id.slot] + 1) % GENERATIONS]) else a
  }

  function GivenAll(a: Slots, victims: seq<Victim>): (r: Slots)
  {
    if victims == [] then a else Given(GivenAll(a, victims[..|victims| - 1]), victims[|victims| - 1].node)
  }

  lemma {:induction false} GivenMore(a: Slots, first: seq<Victim>, more: seq<Victim>)
    ensures GivenAll(a, first + more) == GivenAll(GivenAll(a, first), more)
  {
    if more == [] {
      assert first + more == first;
    } else {
      var last := |more| - 1;
      GivenMore(a, first, more[..last]);
      assert (first + more)[..|first + more| - 1] == first + more[..last];
    }
  }

  lemma GivenOne(a: Slots, v: Victim)
    ensures GivenAll(a, [v]) == Given(a, v.node)
  {
    assert [v][..0] == [];
  }

  /** Releasing a slot takes its id back. */
  lemma ReleaseGives(m: Image, i: nat)
    requires WellFormed(m) && i < |m.links|
    ensures var r := ReleasedImage(m, i);
            Slots(r.free, r.generations) == Given(Slots(m.free, m.generations), IdOf(m.generations, i))
  {
    assert Slot(i);
  }
}
