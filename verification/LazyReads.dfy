/**
 TinyLFU's reads are logged in the ring and applied before the next write. On every
 single-threaded run that is indistinguishable, at each write, from applying every
 read at once.
 */
module LazyReads {
  import opened Slabs
  import opened Residents
  import opened Sketches
  import opened TinyModel
  import opened Allotting
  import opened ReadRings

  /** The id no node has: generation and slot all ones. */
  const NOBODY := NodeId(0xFFFF_FFFF, 0xFFFF_FFFF)

  datatype Write = Admitting(hash: nat, cost: nat) | Updating(id: NodeId, cost: nat) | Removing(id: NodeId)
    | Evicting(want: nat)

  datatype Op = Reading(id: NodeId) | Writing(w: Write) | Clearing

  datatype Eager = Eager(state: State, slots: Slots)

  datatype Lazy = Lazy(state: State, slots: Slots, ring: seq<NodeId>)

  /** A write, which hands out ids and takes them back as the slab does. */
  function Apply(e: Eager, p: Params, w: Write): (r: Eager)
  {
    match w
    case Admitting(hash, cost) =>
      var a := Admit(e.state, p, NextId(e.slots.free, e.slots.generations), hash, cost);
      Eager(a.state, GivenAll(Taken(e.slots), Names(a.victims)))
    case Updating(id, cost) => e.(state := Update(e.state, p, id, cost))
    case Removing(id) => Eager(Remove(e.state, id), if Where(e.state.q, id) < 3 then Given(e.slots, id) else e.slots)
    case Evicting(want) =>
      var v := Evict(e.state.q, p, want);
      Eager(e.state.(q := v.q), GivenAll(e.slots, Names(v.victims)))
  }

  function Cleared(depth: nat, width: nat): (r: Eager)
  {
    Eager(State([[], [], []], Zero(depth, width)), Slots([], []))
  }

  /** Every read applied when it happens. */
  function EagerStep(e: Eager, p: Params, depth: nat, width: nat, op: Op): (r: Eager)
  {
    match op
    case Reading(id) => e.(state := Touch(e.state, p, id))
    case Writing(w) => Apply(e, p, w)
    case Clearing => Cleared(depth, width)
  }

  /** What the lazy policy amounts to: itself with its ring applied. */
  function Caught(l: Lazy, p: Params): (e: Eager)
  {
    Eager(TouchAll(l.state, p, l.ring), l.slots)
  }

  /** A read goes to the ring, or through `apply_deferred` when the ring is full; a write
      applies the ring first; a clear leaves the ring as it is. */
  function LazyStep(l: Lazy, p: Params, depth: nat, width: nat, op: Op): (r: Lazy)
  {
    match op
    case Reading(id) =>
      if id == NOBODY then l
      else if |l.ring| < RING then l.(ring := l.ring + [id])
      else l.(state := Touch(TouchAll(l.state, p, l.ring), p, id), ring := [])
    case Writing(w) =>
      var e := Apply(Caught(l, p), p, w);
      Lazy(e.state, e.slots, [])
    case Clearing =>
      var e := Cleared(depth, width);
      Lazy(e.state, e.slots, l.ring)
  }

  function EagerRun(p: Params, depth: nat, width: nat, ops: seq<Op>): (r: Eager)
  {
    if ops == [] then Cleared(depth, width)
    else EagerStep(EagerRun(p, depth, width, ops[..|ops| - 1]), p, depth, width, ops[|ops| - 1])
  }

  function LazyRun(p: Params, depth: nat, width: nat, ops: seq<Op>): (r: Lazy)
  {
    if ops == [] then Lazy(Cleared(depth, width).state, Cleared(depth, width).slots, [])
    else LazyStep(LazyRun(p, depth, width, ops[..|ops| - 1]), p, depth, width, ops[|ops| - 1])
  }

  // --------------------------------------------------- no node is called NOBODY

  ghost predicate Absent(q: Queues, id: NodeId)
  {
    forall seg, k :: 0 <= seg < 3 && 0 <= k < |q[seg]| ==> q[seg][k].id != id
  }

  lemma MoveKeepsAbsent(q: Queues, from: nat, k: nat, to: nat, id: NodeId)
    requires from < 3 && to < 3 && k < |q[from]| && Absent(q, id)
    ensures Absent(Move(q, from, k, to), id)
  {
  }

  lemma {:induction false} MaintainKeepsAbsent(q: Queues, cap: nat, id: NodeId)
    requires Absent(q, id)
    ensures Absent(Maintain(q, cap), id)
    decreases |q[PROTECTED]|
  {
    if Cost(q[PROTECTED]) > cap && q[PROTECTED] != [] {
      MoveKeepsAbsent(q, PROTECTED, 0, PROBATION, id);
      MaintainKeepsAbsent(Move(q, PROTECTED, 0, PROBATION), cap, id);
    }
  }

  lemma TouchAtKeepsAbsent(q: Queues, seg: nat, k: nat, cap: nat, id: NodeId)
    requires seg < 3 && k < |q[seg]| && Absent(q, id)
    ensures Absent(TouchAt(q, seg, k, cap), id)
  {
    if seg == PROBATION {
      MoveKeepsAbsent(q, PROBATION, k, PROTECTED, id);
      MaintainKeepsAbsent(Move(q, PROBATION, k, PROTECTED), cap, id);
    } else {
      MoveKeepsAbsent(q, seg, k, seg, id);
    }
  }

  lemma {:induction false} SettleKeepsAbsent(s: State, p: Params, id: NodeId)
    requires Absent(s.q, id)
    ensures Absent(Settle(s, p).state.q, id)
    decreases |s.q[WINDOW]|
  {
    if Cost(s.q[WINDOW]) > p.windowTarget && s.q[WINDOW] != [] {
      MoveKeepsAbsent(s.q, WINDOW, 0, PROBATION, id);
      SettleKeepsAbsent(AdmitTurn(s, p).state, p, id);
    }
  }

  lemma {:induction false} TrimKeepsAbsent(q: Queues, seg: nat, want: nat, id: NodeId)
    requires seg < 3 && Absent(q, id)
    ensures Absent(Trim(q, seg, want).q, id)
    decreases |q[seg]|
  {
    if want > 0 && q[seg] != [] {
      TrimKeepsAbsent(q[seg := Drop(q[seg], 0)], seg, Minus(want, q[seg][0].cost), id);
    }
  }

  lemma TouchKeepsAbsent(s: State, p: Params, id: NodeId, who: NodeId)
    requires Absent(s.q, who)
    ensures Absent(Touch(s, p, id).q, who)
  {
    var seg := Where(s.q, id);
    if seg < 3 {
      TouchAtKeepsAbsent(s.q, seg, Find(s.q[seg], id), p.protCapacity, who);
    }
  }

  lemma ApplyKeepsAbsent(e: Eager, p: Params, w: Write, who: NodeId)
    requires Absent(e.state.q, who) && (w.Admitting? ==> NextId(e.slots.free, e.slots.generations) != who)
    ensures Absent(Apply(e, p, w).state.q, who)
  {
    var s := e.state;
    match w
    case Admitting(hash, cost) =>
      SettleKeepsAbsent(State(s.q[WINDOW := s.q[WINDOW] + [Node(NextId(e.slots.free, e.slots.generations), hash,
                                                                cost)]], Seen(s.sketch, p, hash)), p, who);
    case Updating(id, cost) =>
      var seg := Where(s.q, id);
      if seg < 3 {
        var k := Find(s.q[seg], id);
        TouchAtKeepsAbsent(s.q[seg := s.q[seg][k := s.q[seg][k].(cost := cost)]], seg, k, p.protCapacity, who);
      }
    case Removing(id) =>
    case Evicting(want) =>
      MaintainKeepsAbsent(s.q, p.protCapacity, who);
      TrimKeepsAbsent(Maintain(s.q, p.protCapacity), PROBATION, want, who);
      var a := Trim(Maintain(s.q, p.protCapacity), PROBATION, want);
      TrimKeepsAbsent(a.q, PROTECTED, Minus(want, a.freed), who);
  }

  // ----------------------------------------------------------- the slab's slots

  ghost predicate SlotsOk(a: Slots)
  {
    forall i :: i in a.free ==> i < |a.generations|
  }

  lemma {:induction false} GivenAllKeeps(a: Slots, victims: seq<Victim>)
    requires SlotsOk(a)
    ensures SlotsOk(GivenAll(a, victims)) && |GivenAll(a, victims).generations| == |a.generations|
  {
    if victims != [] {
      GivenAllKeeps(a, victims[..|victims| - 1]);
    }
  }

  lemma TakenKeeps(a: Slots)
    requires SlotsOk(a)
    ensures SlotsOk(Taken(a)) && NextId(a.free, a.generations).slot < |Taken(a).generations|
  {
    if a.free != [] {
      var r, last := Taken(a), a.free[|a.free| - 1];
      assert last in a.free;
      forall i | i in r.free
        ensures i < |r.generations|
      {
        assert i in a.free;
      }
    }
  }

  lemma ApplyKeepsSlots(e: Eager, p: Params, w: Write)
    requires SlotsOk(e.slots)
    ensures SlotsOk(Apply(e, p, w).slots)
    ensures w.Admitting? ==> |Apply(e, p, w).slots.generations| > NextId(e.slots.free, e.slots.generations).slot
  {
    match w
    case Admitting(hash, cost) =>
      TakenKeeps(e.slots);
      var a := Admit(e.state, p, NextId(e.slots.free, e.slots.generations), hash, cost);
      GivenAllKeeps(Taken(e.slots), Names(a.victims));
    case Evicting(want) => GivenAllKeeps(e.slots, Names(Evict(e.state.q, p, want).victims));
    case _ =>
  }

  // ------------------------------------------------------------ the theorem

  lemma {:induction false} TouchNothing(s: State, p: Params, ids: seq<NodeId>)
    requires s.q == [[], [], []]
    ensures TouchAll(s, p, ids) == s
  {
    if ids != [] {
      TouchNothing(s, p, ids[..|ids| - 1]);
    }
  }

  /** The slab never grows past the slot index that stands for none. */
  ghost predicate FitsTheSlab(p: Params, depth: nat, width: nat, ops: seq<Op>)
  {
    |EagerRun(p, depth, width, ops).slots.generations| <= NIL &&
        (ops != [] ==> FitsTheSlab(p, depth, width, ops[..|ops| - 1]))
  }

  /** Applying the ring to the lazy policy gives the eager one, after every run of reads, writes and clears, ids
        included. So at each write, which starts by applying the ring, they agree. */
  lemma {:induction false} LazyReadsEqualEagerReads(p: Params, depth: nat, width: nat, ops: seq<Op>)
    requires FitsTheSlab(p, depth, width, ops)
    ensures var l, e := LazyRun(p, depth, width, ops), EagerRun(p, depth, width, ops);
            Caught(l, p) == e && |l.ring| <= RING && SlotsOk(e.slots) && Absent(e.state.q, NOBODY)
  {
    if ops != [] {
      var before, op := ops[..|ops| - 1], ops[|ops| - 1];
      LazyReadsEqualEagerReads(p, depth, width, before);
      var l, e := LazyRun(p, depth, width, before), EagerRun(p, depth, width, before);
      match op
      case Reading(id) =>
        TouchKeepsAbsent(e.state, p, id, NOBODY);
        assert (l.ring + [id])[..|l.ring|] == l.ring;
      case Writing(w) =>
        ApplyKeepsSlots(e, p, w);
        ApplyKeepsAbsent(e, p, w, NOBODY);
      case Clearing => TouchNothing(Cleared(depth, width).state, p, l.ring);
    }
  }
}
