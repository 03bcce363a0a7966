/**
 A built-in policy as one value: its queues, what it remembers, and what it hands ids out from. What a shard's
 operations ask of it are functions of that value.
 */
module Policies {
  import opened Residents
  import opened Slabs
  import opened Sketches
  import opened Allotting
  import TinyModel
  import S3Model

  datatype Mind =
    | OfTiny(t: TinyModel.State, p: TinyModel.Params, slots: Slots)
    | OfS3(s: S3Model.State, target: nat, cap: nat, slots: Slots)

  /** After an operation, with the entries it named. */
  datatype Ruling = Ruling(mind: Mind, out: seq<Victim>)

  /** The id of the next entry. */
  function IdNext(m: Mind): (id: NodeId)
  {
    NextId(m.slots.free, m.slots.generations)
  }

  datatype Call =
    | Admit(hash: nat, cost: nat)
    | Update(id: NodeId, cost: nat)
    | Remove(id: NodeId)
    | Evict(want: nat)
    | Touch(id: NodeId)
    | Clear

  function TinyDecision(t: TinyModel.State, p: TinyModel.Params, slots: Slots, call: Call): (r: Ruling)
  {
    match call
    case Admit(hash, cost) =>
      var a := TinyModel.Admit(t, p, NextId(slots.free, slots.generations), hash, cost);
      var out := TinyModel.Names(a.victims);
      Ruling(OfTiny(a.state, p, GivenAll(Taken(slots), out)), out)
    case Update(id, cost) => Ruling(OfTiny(TinyModel.Update(t, p, id, cost), p, slots), [])
    case Remove(id) =>
      Ruling(OfTiny(TinyModel.Remove(t, id), p, if TinyModel.Where(t.q, id) < 3 then Given(slots, id) else slots), [])
    case Evict(want) =>
      var e := TinyModel.Evict(t.q, p, want);
      var out := TinyModel.Names(e.victims);
      Ruling(OfTiny(t.(q := e.q), p, GivenAll(slots, out)), out)
    case Touch(id) => Ruling(OfTiny(TinyModel.Touch(t, p, id), p, slots), [])
    case Clear => Ruling(OfTiny(TinyModel.State([[], [], []], Reset(t.sketch)), p, Slots([], [])), [])
  }

  function S3Decision(s: S3Model.State, target: nat, cap: nat, slots: Slots, call: Call): (r: Ruling)
  {
    match call
    case Admit(hash, cost) =>
      var id := NextId(slots.free, slots.generations);
      Ruling(OfS3(S3Model.Admit(s, id, hash, cost), target, cap, Taken(slots)), [])
    case Update(id, cost) => Ruling(OfS3(S3Model.Update(s, id, cost), target, cap, slots), [])
    case Remove(id) =>
      Ruling(OfS3(S3Model.Remove(s, id), target, cap, if S3Model.Holds(s, id) then Given(slots, id) else slots), [])
    case Evict(want) =>
      var o := S3Model.Evict(s, want, 0, target, cap);
      var out := S3Model.Names(o.victims);
      Ruling(OfS3(o.state, target, cap, GivenAll(slots, out)), out)
    case Touch(id) => Ruling(OfS3(S3Model.Touch(s, id), target, cap, slots), [])
    case Clear => Ruling(OfS3(S3Model.INIT, target, cap, Slots([], [])), [])
  }

  /** What the policy does when it is called. */
  function Decision(m: Mind, call: Call): (r: Ruling)
  {
    match m
    case OfTiny(t, p, slots) => TinyDecision(t, p, slots, call)
    case OfS3(s, target, cap, slots) => S3Decision(s, target, cap, slots, call)
  }

  // A shard takes what its policy decides as it is. `Decided` is `Decision`, into which a proof looks only where it
  // says so.

  predicate Look(x: int) { true }

  ghost predicate IsDecision(m: Mind, call: Call, r: Ruling)
  {
    forall x {:trigger Look(x)} :: Look(x) ==> r == Decision(m, call)
  }

  ghost function Decided(m: Mind, call: Call): (r: Ruling)
  {
    assert IsDecision(m, call, Decision(m, call));
    var r :| IsDecision(m, call, r);
    r
  }

  lemma LookInto(m: Mind, call: Call)
    ensures Decided(m, call) == Decision(m, call)
  {
    assert Look(0);
  }

  /** The cost eviction never reaches: TinyLFU's window. */
  function OutOfReach(m: Mind): (c: nat)
  {
    match m
    case OfTiny(t, _, _) => TinyModel.Cost(t.q[TinyModel.WINDOW])
    case OfS3(_, _, _, _) => 0
  }

  /** A read of a node. */
  ghost function Read(m: Mind, id: NodeId): (r: Mind)
  {
    Decided(m, Touch(id)).mind
  }

  ghost function ReadAll(m: Mind, ids: seq<NodeId>): (r: Mind)
  {
    if ids == [] then m else Read(ReadAll(m, ids[..|ids| - 1]), ids[|ids| - 1])
  }

  ghost function RemovedAll(m: Mind, ids: seq<NodeId>): (r: Mind)
  {
    if ids == [] then m else Decided(RemovedAll(m, ids[..|ids| - 1]), Remove(ids[|ids| - 1])).mind
  }

  ghost function Cleared(m: Mind): (r: Mind)
  {
    Decided(m, Clear).mind
  }

  lemma {:induction false} ReadAllTiny(t: TinyModel.State, p: TinyModel.Params, slots: Slots, ids: seq<NodeId>)
    ensures ReadAll(OfTiny(t, p, slots), ids) == OfTiny(TinyModel.TouchAll(t, p, ids), p, slots)
  {
    if ids != [] {
      ReadAllTiny(t, p, slots, ids[..|ids| - 1]);
      LookInto(ReadAll(OfTiny(t, p, slots), ids[..|ids| - 1]), Touch(ids[|ids| - 1]));
    }
  }

  /** Reads of a policy just cleared name nobody. */
  lemma {:induction false} ReadsOfNobody(m: Mind, ids: seq<NodeId>)
    ensures ReadAll(Cleared(m), ids) == Cleared(m)
  {
    if ids != [] {
      ReadsOfNobody(m, ids[..|ids| - 1]);
      LookInto(m, Clear);
      LookInto(Cleared(m), Touch(ids[|ids| - 1]));
    }
  }

  /** A read keeps the sketch's shape. */
  lemma ReadKeepsShape(m: Mind, id: NodeId)
    ensures Cleared(Read(m, id)) == Cleared(m)
  {
    LookInto(m, Touch(id));
    LookInto(m, Clear);
    LookInto(Read(m, id), Clear);
    if m.OfTiny? {
      var seg := TinyModel.Where(m.t.q, id);
      if seg < 3 {
        IncrementKeepsShape(m.t.sketch, m.p.index, m.p.threshold, m.t.q[seg][TinyModel.Find(m.t.q[seg], id)].hash);
      }
    }
  }
}
