/**
 S3-FIFO as the shard runs it, on slab slots. `Abs` reads the two queues off the
 slab as debug_state does; every method is proved to do to `Abs` what `S3Model`
 does to plain sequences.
 */
module S3Fifo {
  import opened Options
  import opened Residents
  import opened Slabs
  import opened S3Model
  import opened Allotting

  const SMALL: nat := 0
  const MAIN: nat := 1

  /** The per-slot vectors a node is read from. */
  datatype View = View(payload: seq<Option<nat>>, costs: seq<nat>, generations: seq<nat>, freq: seq<nat>)

  /** The node in a slot; slots out of use read as a dummy. */
  ghost function NodeAt(v: View, i: nat): (n: Node)
  {
    if i < |v.payload| && i < |v.costs| && i < |v.generations| && i < |v.freq| && v.payload[i].Some?
    then Node(NodeId(v.generations[i], i), v.payload[i].value, v.costs[i], v.freq[i])
    else Node(NodeId(0, i), 0, 0, 0)
  }

  ghost function Nodes(v: View, s: seq<nat>): (q: seq<Node>)
  {
    seq(|s|, k requires 0 <= k < |s| => NodeAt(v, s[k]))
  }

  /** The queues and ghosts, as debug_state reports them. */
  ghost function StateOf(v: View, order: seq<seq<nat>>, ghosts: set<nat>, ghostOrder: seq<nat>): (s: State)
    requires |order| == SEGMENTS
  {
    State(Nodes(v, order[SMALL]), Nodes(v, order[MAIN]), ghosts, ghostOrder)
  }

  lemma NodesKept(v: View, v': View, s: seq<nat>)
    requires forall k {:trigger s[k]} :: 0 <= k < |s| ==> NodeAt(v', s[k]) == NodeAt(v, s[k])
    ensures Nodes(v', s) == Nodes(v, s)
  {
  }

  lemma NodesPushed(v: View, s: seq<nat>, i: nat)
    ensures Nodes(v, s + [i]) == Nodes(v, s) + [NodeAt(v, i)]
  {
  }

  lemma NodesWithout(v: View, s: seq<nat>, k: nat)
    requires k < |s|
    ensures Nodes(v, Without(s, k)) == Nodes(v, s)[..k] + Nodes(v, s)[k + 1..]
  {
  }

  /** The vectors after slot `i` was taken, recycled or new, for a node of frequency 0. */
  ghost function Placed(v: View, i: nat, hash: nat, cost: nat): (r: View)
  {
    View(if i < |v.payload| then v.payload[i := Some(hash)] else v.payload + [Some(hash)],
         if i < |v.costs| then v.costs[i := cost] else v.costs + [cost],
         if i < |v.generations| then v.generations else v.generations + [0],
         if i < |v.freq| then v.freq[i := 0] else v.freq + [0])
  }

  lemma AdmitRefines(v: View, order: seq<seq<nat>>, i: nat, hash: nat, cost: nat, seg: nat, ghosts: set<nat>,
                     ghostOrder: seq<nat>)
    requires |v.payload| == |v.costs| == |v.generations| <= |v.freq| && i <= |v.payload|
    requires |order| == SEGMENTS && Nowhere(order, i)
    requires seg == if hash in ghosts then MAIN else SMALL
    ensures var v' := Placed(v, i, hash, cost); var order' := order[seg := order[seg] + [i]];
            StateOf(v', order', ghosts - {hash}, ghostOrder)
            == Admit(StateOf(v, order, ghosts, ghostOrder), NodeId(v'.generations[i], i), hash, cost)
  {
    var v' := Placed(v, i, hash, cost);
    assert Seg(SMALL) && Seg(MAIN);
    NodesKept(v, v', order[SMALL]);
    NodesKept(v, v', order[MAIN]);
    NodesPushed(v', order[seg], i);
  }

  lemma RecostRefines(v: View, s: seq<nat>, i: nat, cost: nat)
    requires i < |v.payload| && i < |v.costs| && i < |v.generations| && i < |v.freq| && v.payload[i].Some?
    ensures Nodes(v.(costs := v.costs[i := cost]), s) == RecostNodes(Nodes(v, s), NodeId(v.generations[i], i), cost)
  {
  }

  lemma BumpRefines(v: View, s: seq<nat>, i: nat)
    requires i < |v.payload| && i < |v.costs| && i < |v.generations| && i < |v.freq| && v.payload[i].Some?
    ensures Nodes(v.(freq := if v.freq[i] < FREQ_MAX then v.freq[i := v.freq[i] + 1] else v.freq), s)
            == BumpNodes(Nodes(v, s), NodeId(v.generations[i], i))
  {
  }

  /** An id no node carries changes nothing. */
  lemma AbsentId(q: seq<Node>, id: NodeId, cost: nat)
    requires forall k :: 0 <= k < |q| ==> q[k].id != id
    ensures RecostNodes(q, id, cost) == q && BumpNodes(q, id) == q && DropNodes(q, id) == q
  {
    DropAbsent(q, id);
  }

  lemma {:induction false} NodesCost(v: View, s: seq<nat>)
    requires |v.payload| == |v.costs| == |v.generations| <= |v.freq| && Below(s, |v.costs|)
    requires forall k {:trigger s[k]} :: 0 <= k < |s| ==> v.payload[s[k]].Some?
    ensures Cost(Nodes(v, s)) == Total(v.costs, s)
  {
    if s != [] {
      NodesCost(v, s[1..]);
      assert Nodes(v, s)[1..] == Nodes(v, s[1..]);
    }
  }

  ghost function Then(named: seq<Node>, o: Outcome): (r: Outcome)
  {
    o.(victims := named + o.victims)
  }

  /** The loop has taken `out` out of `m0` and still has the rest of `s0`'s eviction to do. */
  ghost predicate Evicting(s0: State, m0: Resident, want: nat, target: nat, cap: nat,
                           s: State, held: Resident, named: seq<Node>, out: seq<Victim>, freed: nat)
  {
    && out == Names(named)
    && S3Model.Evict(s0, want, 0, target, cap) == Then(named, S3Model.Evict(s, want, freed, target, cap))
    && Named(m0, out) && held == m0 - NodesOf(out) && Freed(m0, out) == freed && Tight(m0, out, want)
  }

  lemma EvictingTurn(s0: State, m0: Resident, want: nat, target: nat, cap: nat, s: State, held: Resident,
                     named: seq<Node>,
                     out: seq<Victim>, freed: nat, o: Outcome, left: Resident, out': seq<Victim>, freed': nat)
    requires Evicting(s0, m0, want, target, cap, s, held, named, out, freed) && !Stops(s, want, freed)
    requires o == Step(s, target, cap) && Took(held, Names(o.victims), o.freed, left) && out' == out + Names(o.victims)
    requires freed' == freed + o.freed
    ensures Evicting(s0, m0, want, target, cap, o.state, left, named + o.victims, out', freed')
    ensures Potential(o.state) < Potential(s)
  {
    StepSpends(s, target, cap);
    TakingTurn(m0, out, held, Names(o.victims), o.freed, left, out', freed', want);
    EvictUnrolls(named, s, want, freed, target, cap, o);
  }

  lemma EvictingDone(s0: State, m0: Resident, want: nat, target: nat, cap: nat, s: State, held: Resident,
                     named: seq<Node>, out: seq<Victim>, freed: nat)
    requires Evicting(s0, m0, want, target, cap, s, held, named, out, freed) && Stops(s, want, freed)
    ensures S3Model.Evict(s0, want, 0, target, cap) == Outcome(s, named, freed)
  {
    assert named + [] == named;
  }

  lemma TakingTurn(m0: Resident, out: seq<Victim>, held: Resident, more: seq<Victim>, one: nat, left: Resident,
                   out': seq<Victim>, freed': nat, want: nat)
    requires Named(m0, out) && held == m0 - NodesOf(out) && Tight(m0, out, want) && Freed(m0, out) < want
    requires Took(held, more, one, left) && out' == out + more && freed' == Freed(m0, out) + one
    ensures Named(m0, out') && left == m0 - NodesOf(out') && Freed(m0, out') == freed' && Tight(m0, out', want)
  {
    TookOneMore(m0, out, held, more, one, left);
    TookTight(m0, out, held, more, one, left, want);
  }

  lemma EvictUnrolls(named: seq<Node>, s: State, want: nat, freed: nat, target: nat, cap: nat, o: Outcome)
    requires !Stops(s, want, freed) && o == Step(s, target, cap)
    ensures Then(named, S3Model.Evict(s, want, freed, target, cap))
            == Then(named + o.victims, S3Model.Evict(o.state, want, freed + o.freed, target, cap))
    ensures Names(named) + Names(o.victims) == Names(named + o.victims)
  {
    var rest := S3Model.Evict(o.state, want, freed + o.freed, target, cap);
    assert named + (o.victims + rest.victims) == named + o.victims + rest.victims;
    NamesAppend(named, o.victims);
  }

  ghost predicate InUse(v: View, i: nat)
  {
    i < |v.payload| && i < |v.costs| && i < |v.generations| && i < |v.freq| && v.payload[i].Some?
  }

  /** The oldest small entry, read since it came in, moves to the main queue. */
  lemma PromoteRefines(v: View, order: seq<seq<nat>>, ghosts: set<nat>, ghostOrder: seq<nat>, cap: nat)
    requires |order| == SEGMENTS && order[SMALL] != [] && Distinct(order[SMALL])
    requires var t := order[SMALL][0]; InUse(v, t) && v.freq[t] > 1 && t !in order[MAIN]
    ensures var t := order[SMALL][0];
            StateOf(v.(freq := v.freq[t := 0]), order[SMALL := Without(order[SMALL], 0)][MAIN := order[MAIN] + [t]],
                    ghosts, ghostOrder)
            == S3Model.EvictSmall(StateOf(v, order, ghosts, ghostOrder), cap).state
  {
    var t := order[SMALL][0];
    var v' := v.(freq := v.freq[t := 0]);
    WithoutDistinct(order[SMALL], 0);
    NodesWithout(v, order[SMALL], 0);
    NodesKept(v, v', Without(order[SMALL], 0));
    NodesKept(v, v', order[MAIN]);
    NodesPushed(v', order[MAIN], t);
  }

  /** The oldest main entry, read since its last turn, goes round again. */
  lemma RequeueRefines(v: View, order: seq<seq<nat>>, ghosts: set<nat>, ghostOrder: seq<nat>)
    requires |order| == SEGMENTS && order[MAIN] != [] && Distinct(order[MAIN])
    requires var t := order[MAIN][0]; InUse(v, t) && v.freq[t] > 0 && t !in order[SMALL]
    ensures var t := order[MAIN][0];
            StateOf(v.(freq := v.freq[t := v.freq[t] - 1]), order[MAIN := Without(order[MAIN], 0) + [t]], ghosts,
                    ghostOrder)
            == S3Model.EvictMain(StateOf(v, order, ghosts, ghostOrder)).state
  {
    var t := order[MAIN][0];
    var v' := v.(freq := v.freq[t := v.freq[t] - 1]);
    WithoutDistinct(order[MAIN], 0);
    NodesWithout(v, order[MAIN], 0);
    NodesKept(v, v', Without(order[MAIN], 0));
    NodesKept(v, v', order[SMALL]);
    NodesPushed(v', Without(order[MAIN], 0), t);
  }

  /** A node left its queue and its slot was released. */
  lemma DropAtRefines(v: View, order: seq<seq<nat>>, from: nat, k: nat, g: nat, ghosts: set<nat>, ghostOrder: seq<nat>)
    requires |order| == SEGMENTS && from <= 1 && k < |order[from]| && Distinct(order[from])
    requires order[from][k] !in order[1 - from] && order[from][k] < |v.payload| == |v.generations|
    ensures var t := order[from][k];
            var v' := v.(payload := v.payload[t := None], generations := v.generations[t := g]);
            var q := Nodes(v, order[from]); var q' := q[..k] + q[k + 1..];
            var s := StateOf(v, order, ghosts, ghostOrder);
            StateOf(v', order[from := Without(order[from], k)], ghosts, ghostOrder) == if from ==
                SMALL then s.(small := q') else s.(main := q')
  {
    var t := order[from][k];
    var v' := v.(payload := v.payload[t := None], generations := v.generations[t := g]);
    WithoutDistinct(order[from], k);
    NodesWithout(v, order[from], k);
    NodesKept(v, v', Without(order[from], k));
    NodesKept(v, v', order[1 - from]);
  }

  /** The oldest of a queue left it and its slot was released. */
  lemma DropOldestRefines(v: View, order: seq<seq<nat>>, from: nat, g: nat, ghosts: set<nat>, ghostOrder: seq<nat>)
    requires |order| == SEGMENTS && from <= 1 && order[from] != [] && Distinct(order[from])
    requires order[from][0] !in order[1 - from] && order[from][0] < |v.payload| == |v.generations|
    ensures var t := order[from][0];
            var v' := v.(payload := v.payload[t := None], generations := v.generations[t := g]);
            var s := StateOf(v, order, ghosts, ghostOrder);
            StateOf(v', order[from := Without(order[from], 0)], ghosts, ghostOrder)
            == if from == SMALL then s.(small := s.small[1..]) else s.(main := s.main[1..])
  {
    DropAtRefines(v, order, from, 0, g, ghosts, ghostOrder);
    var q := Nodes(v, order[from]);
    assert q[..0] + q[1..] == q[1..];
  }

  lemma RemoveRefines(v: View, order: seq<seq<nat>>, from: nat, k: nat, g: nat, ghosts: set<nat>, ghostOrder: seq<nat>)
    requires |order| == SEGMENTS && from <= 1 && k < |order[from]| && Distinct(order[from]) && InUse(v, order[from][k])
    requires order[from][k] !in order[1 - from] && |v.payload| == |v.generations|
    ensures var t := order[from][k];
            StateOf(v.(payload := v.payload[t := None], generations := v.generations[t := g]),
                    order[from := Without(order[from], k)], ghosts, ghostOrder)
            == S3Model.Remove(StateOf(v, order, ghosts, ghostOrder), NodeId(v.generations[t], t))
  {
    DropAtRefines(v, order, from, k, g, ghosts, ghostOrder);
    DropOne(Nodes(v, order[from]), k);
    DropAbsent(Nodes(v, order[1 - from]), NodeAt(v, order[from][k]).id);
  }

  ghost predicate AtMost(s: seq<nat>, n: nat)
  {
    forall k :: 0 <= k < |s| ==> s[k] <= n
  }

  class HS3Fifo {
    const slab: Slab
    const smallTarget: nat
    const ghostCap: nat
    var freq: seq<nat>
    var ghosts: set<nat>
    var ghostOrder: seq<nat>

    ghost function Look(): (v: View)
      reads this, slab
    {
      View(slab.payload, slab.costs, slab.generations, freq)
    }

    ghost function Abs(): (s: State)
      reads this, slab
      requires |slab.order| == SEGMENTS
    {
      StateOf(Look(), slab.order, ghosts, ghostOrder)
    }

    /** What ids are handed out from. */
    ghost function Allot(): (a: Slots)
      reads slab
    {
      Slots(slab.free, slab.generations)
    }

    ghost predicate Valid()
      reads this, slab
    {
      && slab.Valid() && slab.loose == None && slab.order[2] == []
      && |slab.links| <= |freq|
      && AtMost(freq, FREQ_MAX)
      && ghostCap > 0
      && GhostsOk(ghosts, ghostOrder, ghostCap)
    }

    constructor (capacity: nat)
      ensures Valid() && fresh(slab)
      ensures Abs() == INIT && slab.resident == map[] && Allot() == Slots([], [])
      ensures smallTarget == (if capacity / 10 > 1 then capacity / 10 else 1)
      ensures ghostCap == (if capacity > 1 then capacity else 1)
    {
      slab := new Slab();
      freq := [];
      smallTarget := if capacity / 10 > 1 then capacity / 10 else 1;
      ghosts, ghostOrder := {}, [];
      ghostCap := if capacity > 1 then capacity else 1;
    }

    /** Takes a slot for a new entry and puts it at the front of a queue. */
    method Place(seg: nat, hash: nat, cost: nat) returns (i: nat)
      requires Valid() && slab.HasRoom() && seg <= MAIN
      modifies this`freq, slab
      ensures slab.Valid() && slab.loose == None && |slab.links| <= |freq| && AtMost(freq, FREQ_MAX)
      ensures Look() == Placed(old(Look()), i, hash, cost)
      ensures slab.order == old(slab.order)[seg := old(slab.order)[seg] + [i]]
      ensures i <= |old(slab.payload)| && Nowhere(old(slab.order), i) && i < |slab.links| == |slab.generations|
      ensures var id := IdOf(slab.generations, i);
              && id !in old(slab.resident) && slab.resident == old(slab.resident)[id := Item(hash, cost)]
              && id == NextId(old(slab.free), old(slab.generations)) && Allot() == Taken(old(Allot()))
    {
      i := slab.Alloc(hash, cost);
      if i >= |freq| {
        freq := freq + [0];
      } else {
        freq := freq[i := 0];
      }
      slab.PushFront(seg, i);
    }

    method AdmitKey(hash: nat, cost: nat) returns (id: NodeId)
      requires Valid() && slab.HasRoom()
      modifies this, slab
      ensures Valid()
      ensures Abs() == Admit(old(Abs()), id, hash, cost)
      ensures id !in old(slab.resident) && slab.resident == old(slab.resident)[id := Item(hash, cost)]
      ensures id == NextId(old(slab.free), old(slab.generations)) && Allot() == Taken(old(Allot()))
    {
      ghost var was, order := Look(), slab.order;
      var seg := if hash in ghosts then MAIN else SMALL;
      var i := Place(seg, hash, cost);
      ghosts := ghosts - {hash};
      id := slab.Id(i);
      AdmitRefines(was, order, i, hash, cost, seg, old(ghosts), ghostOrder);
    }

    method Update(id: NodeId, cost: nat)
      requires Valid()
      modifies slab
      ensures Valid() && Abs() == S3Model.Update(old(Abs()), id, cost) && Allot() == old(Allot())
      ensures slab.resident ==
              if id in old(slab.resident) then old(slab.resident)[id := Item(old(slab.resident)[id].hash, cost)]
              else old(slab.resident)
    {
      ResolveFindsResidents(slab.Now(), id);
      var at := Resolve(slab.links, id);
      if at.Some? {
        ghost var seg, k := Locate(slab.Now(), id);
        RecostRefines(Look(), slab.order[SMALL], at.value, cost);
        RecostRefines(Look(), slab.order[MAIN], at.value, cost);
        slab.SetCost(at.value, cost, seg, k);
      } else {
        Unchanged(id, cost);
      }
    }

    lemma Unchanged(id: NodeId, cost: nat)
      requires Valid() && id !in slab.resident
      ensures S3Model.Update(Abs(), id, cost) == Abs() && S3Model.Touch(Abs(), id) == Abs()
      ensures S3Model.Remove(Abs(), id) == Abs()
    {
      Facts(slab.Now(), SMALL);
      Facts(slab.Now(), MAIN);
      AbsentId(Nodes(Look(), slab.order[SMALL]), id, cost);
      AbsentId(Nodes(Look(), slab.order[MAIN]), id, cost);
    }

    /** The queues hold exactly the resident nodes. */
    lemma HoldsResidents(id: NodeId)
      requires Valid()
      ensures Holds(Abs(), id) <==> id in slab.resident
    {
      Facts(slab.Now(), SMALL);
      Facts(slab.Now(), MAIN);
      if id in slab.resident {
        var seg, k := Locate(slab.Now(), id);
        assert Nodes(Look(), slab.order[seg])[k].id == id;
      }
    }

    /** A read, under the shard's read lock or its write lock. */
    method Touch(id: NodeId)
      requires Valid()
      modifies this`freq
      ensures Valid() && Abs() == S3Model.Touch(old(Abs()), id)
    {
      ResolveFindsResidents(slab.Now(), id);
      var at := Resolve(slab.links, id);
      if at.Some? {
        BumpRefines(Look(), slab.order[SMALL], at.value);
        BumpRefines(Look(), slab.order[MAIN], at.value);
        var f := freq[at.value];
        if f < FREQ_MAX {
          freq := freq[at.value := f + 1];
        }
      } else {
        Unchanged(id, 0);
      }
    }

    method Remove(id: NodeId)
      requires Valid()
      modifies slab
      ensures Valid() && Abs() == S3Model.Remove(old(Abs()), id)
      ensures slab.resident == old(slab.resident) - {id}
      ensures Allot() == if Holds(old(Abs()), id) then Given(old(Allot()), id) else old(Allot())
    {
      HoldsResidents(id);
      ResolveFindsResidents(slab.Now(), id);
      var at := Resolve(slab.links, id);
      if at.Some? {
        ghost var seg, k := Locate(slab.Now(), id);
        Facts(slab.Now(), seg);
        Elsewhere(slab.Now(), seg, k, 1 - seg);
        ghost var v, order := Look(), slab.order;
        slab.Unlink(at.value, seg, k);
        var _, _ := DropNode(at.value, []);
        RemoveRefines(v, order, seg, k, slab.generations[at.value], ghosts, ghostOrder);
      } else {
        Unchanged(id, 0);
        assert slab.resident == old(slab.resident) - {id};
      }
    }

    /** Adds a ghost after dropping the oldest, so a stale copy at the front cannot cancel the new one. */
    method Remember(hash: nat)
      requires ghostCap > 0 && GhostsOk(ghosts, ghostOrder, ghostCap)
      modifies this`ghosts, this`ghostOrder
      ensures GhostsOk(ghosts, ghostOrder, ghostCap) && hash in ghosts
      ensures forall small, main {:trigger State(small, main, ghosts, ghostOrder)} ::
                State(small, main, ghosts, ghostOrder)
                == S3Model.Remember(State(small, main, old(ghosts), old(ghostOrder)), hash, ghostCap)
    {
      RememberKeeps(State([], [], ghosts, ghostOrder), hash, ghostCap);
      if |ghostOrder| >= ghostCap {
        if |ghostOrder| > 0 {
          var oldest := ghostOrder[0];
          ghostOrder := ghostOrder[1..];
          ghosts := ghosts - {oldest};
        }
      }
      if hash !in ghosts {
        ghosts := ghosts + {hash};
        ghostOrder := ghostOrder + [hash];
      }
    }

    /** Releases a slot just unlinked and names its entry as a victim. */
    method DropNode(i: nat, out: seq<Victim>) returns (cost: nat, out': seq<Victim>)
      requires slab.Valid() && slab.loose == Some(i)
      modifies slab
      ensures slab.Valid() && slab.Now() == ReleasedImage(old(slab.Now()), i)
      ensures i < |old(slab.payload)| && old(slab.payload)[i].Some? && cost == old(slab.costs)[i]
      ensures out' == out + [Victim(old(slab.payload)[i].value, old(IdOf(slab.generations, i)))]
      ensures Allot() == Given(old(Allot()), old(IdOf(slab.generations, i)))
    {
      ReleaseGives(slab.Now(), i);
      cost := slab.costs[i];
      var id := slab.Id(i);
      var hash := slab.Release(i);
      out' := out + [Victim(hash, id)];
    }

    /** Unlinks the oldest entry of a queue. */
    method TakeOldest(seg: nat) returns (t: nat)
      requires Valid() && seg <= MAIN && slab.order[seg] != []
      modifies slab`links, slab`lists, slab`order, slab`loose
      ensures t == old(slab.order)[seg][0] && InUse(Look(), t) && t !in old(slab.order)[1 - seg]
      ensures Distinct(old(slab.order)[seg])
      ensures slab.Valid() && slab.loose == Some(t)
      ensures slab.order == old(slab.order)[seg := Without(old(slab.order)[seg], 0)]
      ensures |slab.payload| == |slab.generations|
    {
      Facts(slab.Now(), seg);
      Elsewhere(slab.Now(), seg, 0, 1 - seg);
      t := slab.lists[seg].tail;
      slab.Unlink(t, seg, 0);
    }

    /** Moves an unlinked entry on to the front of the main queue, with another frequency. */
    method Requeue(t: nat, f: nat)
      requires slab.Valid() && slab.loose == Some(t) && t < |freq| && f <= FREQ_MAX && AtMost(freq, FREQ_MAX)
      requires |slab.order| == SEGMENTS
      modifies this`freq, slab`links, slab`lists, slab`order, slab`loose
      ensures slab.Valid() && slab.loose == None && slab.order == old(slab.order)[MAIN := old(slab.order)[MAIN] + [t]]
      ensures freq == old(freq)[t := f] && AtMost(freq, FREQ_MAX) && |slab.links| == old(|slab.links|)
    {
      freq := freq[t := f];
      slab.PushFront(MAIN, t);
    }

    /** Evicts the oldest of the small queue or promotes it; returns the cost freed. */
    method EvictSmall(out: seq<Victim>) returns (freed: nat, out': seq<Victim>)
      requires Valid() && slab.order[SMALL] != []
      modifies this, slab
      ensures Valid()
      ensures var o := S3Model.EvictSmall(old(Abs()), ghostCap);
              && Abs() == o.state && freed == o.freed && out' == out + Names(o.victims)
              && Took(old(slab.resident), Names(o.victims), freed, slab.resident)
              && Allot() == GivenAll(old(Allot()), Names(o.victims))
    {
      ghost var v, order := Look(), slab.order;
      Facts(slab.Now(), SMALL);
      var t := TakeOldest(SMALL);
      if freq[t] > 1 {
        PromoteRefines(v, order, ghosts, ghostOrder, ghostCap);
        Requeue(t, 0);
        return 0, out;
      }
      var hash := slab.payload[t].value;
      freed, out' := DropNode(t, out);
      DropOldestRefines(v, order, SMALL, slab.generations[t], ghosts, ghostOrder);
      Remember(hash);
    }

    /** Evicts the oldest of the main queue or gives it another turn. */
    method EvictMain(out: seq<Victim>) returns (freed: nat, out': seq<Victim>)
      requires Valid() && slab.order[MAIN] != []
      modifies this, slab
      ensures Valid()
      ensures var o := S3Model.EvictMain(old(Abs()));
              && Abs() == o.state && freed == o.freed && out' == out + Names(o.victims)
              && Took(old(slab.resident), Names(o.victims), freed, slab.resident)
              && Allot() == GivenAll(old(Allot()), Names(o.victims))
    {
      ghost var v, order := Look(), slab.order;
      Facts(slab.Now(), MAIN);
      var t := TakeOldest(MAIN);
      var f := freq[t];
      if f > 0 {
        RequeueRefines(v, order, ghosts, ghostOrder);
        Requeue(t, f - 1);
        assert slab.order == order[MAIN := Without(order[MAIN], 0) + [t]];
        return 0, out;
      }
      freed, out' := DropNode(t, out);
      DropOldestRefines(v, order, MAIN, slab.generations[t], ghosts, ghostOrder);
    }

    /** One turn of the eviction loop, when there is an entry left. */
    method EvictTurn(out: seq<Victim>) returns (freed: nat, out': seq<Victim>, any: bool)
      requires Valid()
      modifies this, slab
      ensures Valid() && (any <==> old(Abs().small != [] || Abs().main != []))
      ensures !any ==> Abs() == old(Abs()) && out' == out && freed == 0 && slab.resident == old(slab.resident)
      ensures !any ==> Allot() == old(Allot())
      ensures any ==> var o := Step(old(Abs()), smallTarget, ghostCap);
              && Abs() == o.state && freed == o.freed && out' == out + Names(o.victims)
              && Took(old(slab.resident), Names(o.victims), freed, slab.resident)
              && Allot() == GivenAll(old(Allot()), Names(o.victims))
    {
      Facts(slab.Now(), SMALL);
      Facts(slab.Now(), MAIN);
      NodesCost(Look(), slab.order[SMALL]);
      var small, main := slab.lists[SMALL], slab.lists[MAIN];
      any := true;
      if small.tail != NIL && (small.cost > smallTarget || main.tail == NIL) {
        freed, out' := EvictSmall(out);
      } else if main.tail != NIL {
        freed, out' := EvictMain(out);
      } else {
        freed, out', any := 0, out, false;
      }
    }

    method Evict(want: nat) returns (out: seq<Victim>)
      requires Valid()
      modifies this, slab
      ensures Valid()
      ensures var o := S3Model.Evict(old(Abs()), want, 0, smallTarget, ghostCap);
              && Abs() == o.state && out == Names(o.victims)
              && Named(old(slab.resident), out) && slab.resident == old(slab.resident) - NodesOf(out)
              && Freed(old(slab.resident), out) == o.freed && Allot() == GivenAll(old(Allot()), out)
      ensures Tight(old(slab.resident), out, want)
      ensures Freed(old(slab.resident), out) >= want || slab.resident == map[]
    {
      EvictFreesEnough(Abs(), want, 0, smallTarget, ghostCap);
      out := [];
      var freed: nat := 0;
      ghost var s0, m0, s, named := Abs(), slab.resident, Abs(), [];
      assert slab.resident == m0 - NodesOf(out);
      while freed < want
        invariant Valid() && Abs() == s
        invariant Evicting(s0, m0, want, smallTarget, ghostCap, s, slab.resident, named, out, freed)
        invariant Allot() == GivenAll(old(Allot()), out)
        decreases Potential(s)
      {
        ghost var held, was := slab.resident, out;
        var one, any;
        one, out, any := EvictTurn(out);
        if !any {
          break;
        }
        ghost var o := Step(s, smallTarget, ghostCap);
        EvictingTurn(s0, m0, want, smallTarget, ghostCap, s, held, named, was, freed, o, slab.resident, out,
                     freed + one);
        GivenMore(old(Allot()), was, Names(o.victims));
        s, named, freed := o.state, named + o.victims, freed + one;
      }
      EvictingDone(s0, m0, want, smallTarget, ghostCap, s, slab.resident, named, out, freed);
      if Abs().small == [] && Abs().main == [] {
        NobodyLeft(slab.Now());
      }
    }

    /** Keeps the frequency vector, whose cells are reset as slots are taken again. */
    method Clear()
      requires Valid()
      modifies this, slab
      ensures Valid() && Abs() == INIT && slab.resident == map[] && Allot() == Slots([], [])
    {
      slab.Clear();
      ghosts, ghostOrder := {}, [];
    }
  }
}
