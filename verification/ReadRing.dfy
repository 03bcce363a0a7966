/**
 Reads recorded as packed node ids under the shard's read lock, lossy once full
 until the next drain. Here one thread at a time; `RingRace` has many.
 */
module ReadRings {

  const RING: nat := 256
  const NO_NODE: nat := 0xFFFF_FFFF_FFFF_FFFF

  class ReadRing {
    const slots: array<nat>
    var cursor: nat
    /** The reads recorded since the last drain, oldest first. */
    ghost var pending: seq<nat>

    ghost predicate Valid()
      reads this, slots
    {
      && slots.Length == RING && |pending| == (if cursor < RING then cursor else RING)
      && (forall i :: 0 <= i < |pending| ==> slots[i] == pending[i] + 1)
      && (forall i :: |pending| <= i < RING ==> slots[i] == 0)
    }

    constructor ()
      ensures Valid() && pending == [] && fresh(slots)
    {
      slots := new nat[RING](_ => 0);
      cursor, pending := 0, [];
    }

    /** False, with nothing recorded, exactly when the ring is full. */
    method Push(node: nat) returns (ok: bool)
      requires Valid()
      modifies this, slots
      ensures Valid()
      ensures ok <==> node == NO_NODE || |old(pending)| < 256
      ensures pending == if node != NO_NODE && ok then old(pending) + [node] else old(pending)
    {
      if node == NO_NODE {
        return true;
      }
      if cursor >= RING {
        return false;
      }
      var i := cursor;
      cursor := cursor + 1;
      if i < RING {
        slots[i] := node + 1;
        pending := pending + [node];
        return true;
      } else {
        return false;
      }
    }

    /** Hands over the recorded reads in order and leaves the ring empty. */
    method Drain() returns (nodes: seq<nat>)
      requires Valid()
      modifies this, slots
      ensures Valid() && nodes == old(pending) && pending == []
    {
      var n := if cursor < RING then cursor else RING;
      cursor := 0;
      nodes := [];
      for i := 0 to n
        invariant cursor == 0 && pending == old(pending)
        invariant nodes == pending[..i]
        invariant forall j :: 0 <= j < i ==> slots[j] == 0
        invariant forall j :: i <= j < RING ==> slots[j] == old(slots[j])
      {
        var v := slots[i];
        slots[i] := 0;
        if v != 0 {
          nodes := nodes + [v - 1];
        }
      }
      pending := [];
    }
  }
}
