/**
 W-TinyLFU as the shard runs it, on slab slots. Every method is proved to do to the
 queues it represents what `TinyModel` does to plain sequences.
 */
module TinyLfu {
  import opened Options
  import opened Residents
  import opened Slabs
  import opened Sketches
  import opened TinyModel
  import opened Allotting
  import opened ReadRings

  /** The per-slot vectors a node is read from. */
  datatype View = View(payload: seq<Option<nat>>, costs: seq<nat>, generations: seq<nat>)

  ghost predicate InUse(v: View, i: nat)
  {
    i < |v.payload| && i < |v.costs| && i < |v.generations| && v.payload[i].Some?
  }

  /** The node in a slot; slots out of use read as a dummy. */
  ghost function NodeAt(v: View, i: nat): (n: Node)
  {
    if InUse(v, i) then Node(NodeId(v.generations[i], i), v.payload[i].value, v.costs[i]) else Node(NodeId(0, i), 0, 0)
  }

  ghost function Nodes(v: View, s: seq<nat>): (q: seq<Node>)
  {
    seq(|s|, k requires 0 <= k < |s| => NodeAt(v, s[k]))
  }

  ghost function QueuesOf(v: View, order: seq<seq<nat>>): (q: Queues)
    requires |order| == SEGMENTS
  {
    [Nodes(v, order[0]), Nodes(v, order[1]), Nodes(v, order[2])]
  }

  lemma QueueAt(v: View, order: seq<seq<nat>>, seg: nat)
    requires |order| == SEGMENTS && seg < SEGMENTS
    ensures QueuesOf(v, order)[seg] == Nodes(v, order[seg])
  {
  }

  lemma NodesKept(v: View, v': View, s: seq<nat>)
    requires forall k {:trigger s[k]} :: 0 <= k < |s| ==> NodeAt(v', s[k]) == NodeAt(v, s[k])
    ensures Nodes(v', s) == Nodes(v, s)
  {
  }

  lemma NodesPushed(v: View, s: seq<nat>, i: nat)
    ensures Nodes(v, s + [i]) == Nodes(v, s) + [NodeAt(v, i)]
  {
  }

  lemma NodesWithout(v: View, s: seq<nat>, k: nat)
    requires k < |s|
    ensures Nodes(v, Without(s, k)) == Drop(Nodes(v, s), k)
  {
  }

  lemma MoveRefines(v: View, order: seq<seq<nat>>, from: nat, k: nat, to: nat)
    requires |order| == SEGMENTS && from < SEGMENTS && to < SEGMENTS && k < |order[from]|
    ensures QueuesOf(v, Moved(order, from, k, to)) == Move(QueuesOf(v, order), from, k, to)
  {
    QueueAt(v, order, from);
    QueueAt(v, order, to);
    NodesWithout(v, order[from], k);
    NodesPushed(v, if to == from then Without(order[from], k) else order[to], order[from][k]);
  }

  /** A node left its queue and its slot was released. */
  lemma DropRefines(v: View, order: seq<seq<nat>>, from: nat, k: nat, g: nat)
    requires |order| == SEGMENTS && from < SEGMENTS && k < |order[from]| && Distinct(order[from])
    requires forall o :: 0 <= o < SEGMENTS && o != from ==> order[from][k] !in order[o]
    requires order[from][k] < |v.payload| == |v.generations|
    ensures var t := order[from][k]; var q := QueuesOf(v, order);
            QueuesOf(v.(payload := v.payload[t := None], generations := v.generations[t := g]),
                     order[from := Without(order[from], k)])
            == q[from := Drop(q[from], k)]
  {
    var t := order[from][k];
    var v' := v.(payload := v.payload[t := None], generations := v.generations[t := g]);
    QueueAt(v, order, from);
    WithoutDistinct(order[from], k);
    NodesWithout(v, order[from], k);
    NodesKept(v, v', Without(order[from], k));
    forall o | 0 <= o < SEGMENTS && o != from
      ensures Nodes(v', order[o]) == Nodes(v, order[o])
    {
      NodesKept(v, v', order[o]);
    }
  }

  ghost function Placed(v: View, i: nat, hash: nat, cost: nat): (r: View)
  {
    View(if i < |v.payload| then v.payload[i := Some(hash)] else v.payload + [Some(hash)],
         if i < |v.costs| then v.costs[i := cost] else v.costs + [cost],
         if i < |v.generations| then v.generations else v.generations + [0])
  }

  lemma PlaceRefines(v: View, order: seq<seq<nat>>, i: nat, hash: nat, cost: nat)
    requires |v.payload| == |v.costs| == |v.generations| && i <= |v.payload|
    requires |order| == SEGMENTS && Nowhere(order, i)
    ensures var v' := Placed(v, i, hash, cost); var q := QueuesOf(v, order);
            QueuesOf(v', order[WINDOW := order[WINDOW] + [i]])
            == q[WINDOW := q[WINDOW] + [Node(NodeId(v'.generations[i], i), hash, cost)]]
  {
    var v' := Placed(v, i, hash, cost);
    forall o | 0 <= o < SEGMENTS
      ensures Nodes(v', order[o]) == Nodes(v, order[o])
    {
      assert Seg(o);
      NodesKept(v, v', order[o]);
    }
    NodesPushed(v', order[WINDOW], i);
  }

  lemma RecostRefines(v: View, order: seq<seq<nat>>, seg: nat, k: nat, cost: nat)
    requires |order| == SEGMENTS && seg < SEGMENTS && k < |order[seg]| && Distinct(order[seg])
    requires InUse(v, order[seg][k])
    requires forall o :: 0 <= o < SEGMENTS && o != seg ==> order[seg][k] !in order[o]
    ensures var i := order[seg][k]; var q := QueuesOf(v, order);
            QueuesOf(v.(costs := v.costs[i := cost]), order) == q[seg := q[seg][k := q[seg][k].(cost := cost)]]
  {
    var i := order[seg][k];
    var v' := v.(costs := v.costs[i := cost]);
    QueueAt(v, order, seg);
    forall o | 0 <= o < SEGMENTS && o != seg
      ensures Nodes(v', order[o]) == Nodes(v, order[o])
    {
      NodesKept(v, v', order[o]);
    }
    assert Nodes(v', order[seg]) == Nodes(v, order[seg])[k := Nodes(v, order[seg])[k].(cost := cost)];
  }

  lemma {:induction false} NodesCost(v: View, s: seq<nat>)
    requires |v.payload| == |v.costs| == |v.generations| && Below(s, |v.costs|)
    requires forall k {:trigger s[k]} :: 0 <= k < |s| ==> v.payload[s[k]].Some?
    ensures Cost(Nodes(v, s)) == Total(v.costs, s)
  {
    if s != [] {
      NodesCost(v, s[1..]);
      assert Nodes(v, s)[1..] == Nodes(v, s[1..]);
    }
  }

  /** A list header's cost and tail, as the queue it represents has them. */
  ghost predicate Heads(l: List, payload: seq<Option<nat>>, q: seq<Node>)
  {
    && l.cost == Cost(q)
    && (l.tail == NIL <==> q == [])
    && (q != [] ==> l.tail < |payload| && payload[l.tail] == Some(q[0].hash))
  }

  ghost predicate Oldest(m: Image, seg: nat, n: Node)
    requires seg < |m.order| && seg < |m.lists| && m.order[seg] != []
  {
    var t := m.order[seg][0];
    && m.lists[seg].tail == t < |m.payload| == |m.costs| == |m.generations|
    && m.payload[t].Some? && n == Node(IdOf(m.generations, t), m.payload[t].value, m.costs[t])
  }

  /** What a list's header says of the queue it represents. */
  lemma Header(m: Image, seg: nat)
    requires WellFormed(m) && m.loose == None && seg < SEGMENTS
    ensures var q := QueuesOf(View(m.payload, m.costs, m.generations), m.order)[seg];
            && Heads(m.lists[seg], m.payload, q)
            && |q| == |m.order[seg]|
            && (q != [] ==> Oldest(m, seg, q[0]))
  {
    var v := View(m.payload, m.costs, m.generations);
    Facts(m, seg);
    QueueAt(v, m.order, seg);
    NodesCost(v, m.order[seg]);
  }

  /** A slot in one list is in no other. */
  lemma Alone(m: Image, seg: nat, k: nat)
    requires WellFormed(m) && m.loose == None && seg < SEGMENTS && k < |m.order[seg]|
    ensures forall o :: 0 <= o < SEGMENTS && o != seg ==> m.order[seg][k] !in m.order[o]
  {
    forall o | 0 <= o < SEGMENTS && o != seg
      ensures m.order[seg][k] !in m.order[o]
    {
      Elsewhere(m, seg, k, o);
    }
  }

  /** The model finds a node by its id exactly where the slab has it. */
  lemma FindRefines(m: Image, id: NodeId, seg: nat, k: nat)
    requires WellFormed(m) && m.loose == None
    requires id in m.resident && seg < SEGMENTS && k < |m.order[seg]| && m.order[seg][k] == id.slot
    ensures var q := QueuesOf(View(m.payload, m.costs, m.generations), m.order);
            Where(q, id) == seg && k < |q[seg]| && Find(q[seg], id) == k
  {
    var v := View(m.payload, m.costs, m.generations);
    var q := QueuesOf(v, m.order);
    ResolveFindsResidents(m, id);
    Facts(m, seg);
    Alone(m, seg, k);
    assert q[seg][k].id == id;
    forall o | 0 <= o < SEGMENTS && o != seg
      ensures Find(q[o], id) == |q[o]|
    {
      NotThere(v, m.order[o], id);
    }
  }

  lemma NotThere(v: View, s: seq<nat>, id: NodeId)
    requires id.slot !in s
    ensures Find(Nodes(v, s), id) == |s|
  {
  }

  lemma FindsNothing(m: Image, id: NodeId)
    requires WellFormed(m) && m.loose == None && id !in m.resident
    ensures Where(QueuesOf(View(m.payload, m.costs, m.generations), m.order), id) == 3
  {
    var v := View(m.payload, m.costs, m.generations);
    var q := QueuesOf(v, m.order);
    forall o | 0 <= o < SEGMENTS
      ensures Find(q[o], id) == |q[o]|
    {
      Facts(m, o);
      QueueAt(v, m.order, o);
    }
  }

  /** The admission loop has taken `out` out of `m0` and still has the rest of `s0` to settle. */
  ghost predicate Settling(s0: State, m0: Resident, p: Params, s: State, held: Resident, named: seq<Node>,
                           out: seq<Victim>)
  {
    && out == Names(named)
    && Settle(s0, p) == Admitted(Settle(s, p).state, named + Settle(s, p).victims)
    && Named(m0, out) && held == m0 - NodesOf(out) && Freed(m0, out) == Cost(named)
  }

  lemma SettlingTurn(s0: State, m0: Resident, p: Params, s: State, held: Resident, named: seq<Node>, out: seq<Victim>,
                     a: Admitted, left: Resident, named': seq<Node>, out': seq<Victim>)
    requires Settling(s0, m0, p, s, held, named, out)
    requires Cost(s.q[WINDOW]) > p.windowTarget && s.q[WINDOW] != [] && a == AdmitTurn(s, p)
    requires Took(held, Names(a.victims), Cost(a.victims), left) && named' == named + a.victims
    requires out' == out + Names(a.victims)
    ensures Settling(s0, m0, p, a.state, left, named', out')
    ensures |a.state.q[WINDOW]| < |s.q[WINDOW]|
  {
    TookOneMore(m0, out, held, Names(a.victims), Cost(a.victims), left);
    CostAppend(named, a.victims);
    NamesAppend(named, a.victims);
    SettleUnrolls(p, s, a, named, named');
  }

  lemma SettleUnrolls(p: Params, s: State, a: Admitted, named: seq<Node>, named': seq<Node>)
    requires Cost(s.q[WINDOW]) > p.windowTarget && s.q[WINDOW] != [] && a == AdmitTurn(s, p)
    requires named' == named + a.victims
    ensures var rest := Settle(a.state, p);
            Settle(s, p).state == rest.state && named + Settle(s, p).victims == named' + rest.victims
    ensures |a.state.q[WINDOW]| < |s.q[WINDOW]|
  {
    var rest := Settle(a.state, p);
    assert named + (a.victims + rest.victims) == named + a.victims + rest.victims;
  }

  lemma SettlingDone(s0: State, m0: Resident, p: Params, s: State, held: Resident, named: seq<Node>, out: seq<Victim>)
    requires Settling(s0, m0, p, s, held, named, out) && (Cost(s.q[WINDOW]) <= p.windowTarget || s.q[WINDOW] == [])
    ensures Settle(s0, p) == Admitted(s, named)
  {
    assert named + [] == named;
  }

  /** The trimming loop has freed `freed` of the `want` asked of queue `seg`. */
  ghost predicate Trimming(q0: Queues, m0: Resident, seg: nat, want: nat,
                           q: Queues, held: Resident, named: seq<Node>, out: seq<Victim>, freed: nat)
    requires seg < 3
  {
    var rest := Trim(q, seg, Minus(want, freed));
    && out == Names(named)
    && Trim(q0, seg, want) == Evicted(rest.q, named + rest.victims, freed + rest.freed)
    && Named(m0, out) && held == m0 - NodesOf(out) && Freed(m0, out) == freed && Tight(m0, out, want)
  }

  lemma TrimmingTurn(q0: Queues, m0: Resident, seg: nat, want: nat, q: Queues, held: Resident, named: seq<Node>,
                     out: seq<Victim>,
                     freed: nat, n: Node, q': Queues, left: Resident, named': seq<Node>, out': seq<Victim>, freed': nat)
    requires seg < 3 && Trimming(q0, m0, seg, want, q, held, named, out, freed) && freed < want
    requires q[seg] != [] && n == q[seg][0] && Took(held, [Victim(n.hash, n.id)], n.cost, left)
    requires out' == out + [Victim(n.hash, n.id)]
    requires q' == q[seg := Drop(q[seg], 0)] && named' == named + [n] && freed' == freed + n.cost
    ensures Trimming(q0, m0, seg, want, q', left, named', out', freed')
  {
    TookOneMore(m0, out, held, [Victim(n.hash, n.id)], n.cost, left);
    TookTight(m0, out, held, [Victim(n.hash, n.id)], n.cost, left, want);
    NamesAppend(named, [n]);
    NamesOne(n);
    var rest := Trim(q', seg, Minus(want, freed'));
    assert Minus(Minus(want, freed), n.cost) == Minus(want, freed');
    assert named + ([n] + rest.victims) == named' + rest.victims;
  }

  lemma TrimmingDone(q0: Queues, m0: Resident, seg: nat, want: nat, q: Queues, held: Resident, named: seq<Node>,
                     out: seq<Victim>, freed: nat)
    requires seg < 3 && Trimming(q0, m0, seg, want, q, held, named, out, freed) && (freed >= want || q[seg] == [])
    ensures Trim(q0, seg, want) == Evicted(q, named, freed)
  {
    assert named + [] == named;
  }

  /** The victims named are those of `e`, taken out of `m0`; their ids went back to `a0`. */
  ghost predicate Trimmed(e: Evicted, m0: Resident, m: Resident, out: seq<Victim>, want: nat, a0: Slots, a: Slots)
  {
    && out == Names(e.victims) && Named(m0, out) && m == m0 - NodesOf(out)
    && Freed(m0, out) == e.freed && Tight(m0, out, want) && a == GivenAll(a0, out)
  }

  lemma TrimmedTwice(a: Evicted, b: Evicted, seg: nat, m0: Resident, m1: Resident, m2: Resident, out: seq<Victim>,
                     more: seq<Victim>, want: nat, a0: Slots, a1: Slots, a2: Slots)
    requires Trimmed(a, m0, m1, out, want, a0, a1) && Trimmed(b, m1, m2, more, Minus(want, a.freed), a1, a2)
    requires seg < 3 && b == Trim(a.q, seg, Minus(want, a.freed))
    ensures Trimmed(Evicted(b.q, a.victims + b.victims, a.freed + b.freed), m0, m2, out + more, want, a0, a2)
  {
    NameMany(m0, m1, out, more);
    TightMany(m0, m1, out, more, want, Minus(want, a.freed));
    NamesAppend(a.victims, b.victims);
    GivenMore(a0, out, more);
  }

  ghost function Ids(nodes: seq<nat>): (ids: seq<NodeId>)
  {
    seq(|nodes|, k requires 0 <= k < |nodes| => Split(nodes[k]))
  }

  lemma IdsAppend(nodes: seq<nat>, node: nat)
    ensures Ids(nodes + [node]) == Ids(nodes) + [Split(node)]
  {
  }

  lemma TouchOneMore(s: State, p: Params, ids: seq<NodeId>, n: nat)
    requires n < |ids|
    ensures TouchAll(s, p, ids[..n + 1]) == TinyModel.Touch(TouchAll(s, p, ids[..n]), p, ids[n])
  {
    assert ids[..n + 1][..n] == ids[..n];
  }

  class HTinyLfu {
    const slab: Slab
    const sketch: Sketch
    const windowTarget: nat
    const mainCapacity: nat
    const protCapacity: nat

    ghost function P(): (p: Params)
    {
      Params(windowTarget, mainCapacity, protCapacity, sketch.index, sketch.threshold)
    }

    ghost function Look(): (v: View)
      reads slab
    {
      View(slab.payload, slab.costs, slab.generations)
    }

    ghost function Queued(): (q: Queues)
      reads slab
      requires |slab.order| == SEGMENTS
    {
      QueuesOf(Look(), slab.order)
    }

    ghost function Abs(): (s: State)
      reads slab, sketch
      requires |slab.order| == SEGMENTS
    {
      State(Queued(), sketch.Now())
    }

    /** What ids are handed out from. */
    ghost function Allot(): (a: Slots)
      reads slab
    {
      Slots(slab.free, slab.generations)
    }

    ghost predicate Valid()
      reads slab, sketch
    {
      slab.Valid() && slab.loose == None && sketch.Valid()
    }

    /** The targets are what `new` rounds out of the capacity. */
    constructor (windowTarget: nat, mainCapacity: nat, protCapacity: nat, threshold: nat, width: nat, index: Indexing)
      requires forall hash: nat, row: nat :: index(hash, row) < width
      ensures Valid() && fresh(slab) && fresh(sketch)
      ensures Abs() == State([[], [], []], Zero(4, width)) && slab.resident == map[] && Allot() == Slots([], [])
      ensures P() == Params(windowTarget, mainCapacity, protCapacity, index, threshold)
    {
      slab := new Slab();
      sketch := new Sketch(threshold, width, index);
      this.windowTarget, this.mainCapacity, this.protCapacity := windowTarget, mainCapacity, protCapacity;
    }

    method Maintain()
      requires Valid()
      modifies slab`links, slab`lists, slab`order, slab`loose
      ensures Valid() && Queued() == TinyModel.Maintain(old(Queued()), protCapacity)
    {
      ghost var q := Queued();
      Header(slab.Now(), PROTECTED);
      while slab.lists[PROTECTED].cost > protCapacity
        invariant Valid() && Queued() == q
        invariant TinyModel.Maintain(q, protCapacity) == TinyModel.Maintain(old(Queued()), protCapacity)
        invariant slab.lists[PROTECTED].cost == Cost(q[PROTECTED])
        decreases |q[PROTECTED]|
      {
        Header(slab.Now(), PROTECTED);
        var t := slab.lists[PROTECTED].tail;
        if t == NIL {
          break;
        }
        MoveRefines(Look(), slab.order, PROTECTED, 0, PROBATION);
        slab.Unlink(t, PROTECTED, 0);
        slab.PushFront(PROBATION, t);
        q := Move(q, PROTECTED, 0, PROBATION);
        Header(slab.Now(), PROTECTED);
      }
    }

    /** A read of the entry in slot `i`, which stands at place `k` of list `seg`. */
    method TouchSlot(i: nat, ghost seg: nat, ghost k: nat)
      requires Valid() && seg < SEGMENTS && k < |slab.order[seg]| && slab.order[seg][k] == i
      modifies slab`links, slab`lists, slab`order, slab`loose
      ensures Valid() && Queued() == TouchAt(old(Queued()), seg, k, protCapacity)
    {
      UnlinkKeeps(slab.Now(), seg, k);
      MoveRefines(Look(), slab.order, seg, k, if seg == PROBATION then PROTECTED else seg);
      match slab.links[i].seg {
        case 0 => slab.MoveFront(WINDOW, i, seg, k);
        case 1 =>
          slab.Unlink(i, seg, k);
          slab.PushFront(PROTECTED, i);
          Maintain();
        case _ => slab.MoveFront(PROTECTED, i, seg, k);
      }
    }

    method TouchNode(id: NodeId)
      requires Valid()
      modifies slab`links, slab`lists, slab`order, slab`loose, sketch
      ensures Valid() && Abs() == TinyModel.Touch(old(Abs()), P(), id)
    {
      ResolveFindsResidents(slab.Now(), id);
      var at := Resolve(slab.links, id);
      if at.Some? {
        ghost var seg, k := Locate(slab.Now(), id);
        FindRefines(slab.Now(), id, seg, k);
        sketch.Increment(slab.payload[at.value].value);
        TouchSlot(at.value, seg, k);
      } else {
        FindsNothing(slab.Now(), id);
      }
    }

    /** Applies the reads recorded in `ring` since the last call. */
    method ApplyReads(ring: ReadRing)
      requires Valid() && ring.Valid()
      modifies slab`links, slab`lists, slab`order, slab`loose, sketch, ring, ring.slots
      ensures Valid() && ring.Valid() && ring.pending == []
      ensures Abs() == TouchAll(old(Abs()), P(), Ids(old(ring.pending)))
    {
      var nodes := ring.Drain();
      ghost var s0, ids, p := Abs(), Ids(nodes), P();
      for n := 0 to |nodes|
        invariant Valid() && ring.Valid() && ring.pending == [] && P() == p
        invariant Abs() == TouchAll(s0, p, ids[..n])
      {
        TouchNode(Split(nodes[n]));
        TouchOneMore(s0, p, ids, n);
      }
      assert ids[..|nodes|] == ids;
    }

    method Update(id: NodeId, cost: nat)
      requires Valid()
      modifies slab, sketch
      ensures Valid() && Abs() == TinyModel.Update(old(Abs()), P(), id, cost) && Allot() == old(Allot())
      ensures slab.resident ==
              if id in old(slab.resident) then old(slab.resident)[id := Item(old(slab.resident)[id].hash, cost)]
              else old(slab.resident)
    {
      ResolveFindsResidents(slab.Now(), id);
      var at := Resolve(slab.links, id);
      if at.Some? {
        ghost var seg, k := Locate(slab.Now(), id);
        FindRefines(slab.Now(), id, seg, k);
        Facts(slab.Now(), seg);
        Alone(slab.Now(), seg, k);
        RecostRefines(Look(), slab.order, seg, k, cost);
        sketch.Increment(slab.payload[at.value].value);
        slab.SetCost(at.value, cost, seg, k);
        TouchSlot(at.value, seg, k);
      } else {
        FindsNothing(slab.Now(), id);
      }
    }

    /** Releases a slot just unlinked and names its entry as a victim. */
    method DropNode(i: nat, out: seq<Victim>) returns (out': seq<Victim>)
      requires slab.Valid() && slab.loose == Some(i)
      modifies slab
      ensures slab.Valid() && slab.Now() == ReleasedImage(old(slab.Now()), i)
      ensures i < |old(slab.payload)| && old(slab.payload)[i].Some?
      ensures Allot() == Given(old(Allot()), old(IdOf(slab.generations, i)))
      ensures out' == out + [Victim(old(slab.payload)[i].value, old(IdOf(slab.generations, i)))]
    {
      ReleaseGives(slab.Now(), i);
      var id := slab.Id(i);
      var hash := slab.Release(i);
      out' := out + [Victim(hash, id)];
    }

    method Remove(id: NodeId)
      requires Valid()
      modifies slab
      ensures Valid() && Abs() == TinyModel.Remove(old(Abs()), id)
      ensures slab.resident == old(slab.resident) - {id}
      ensures Allot() == if Where(old(Queued()), id) < 3 then Given(old(Allot()), id) else old(Allot())
    {
      ResolveFindsResidents(slab.Now(), id);
      var at := Resolve(slab.links, id);
      if at.Some? {
        ghost var seg, k := Locate(slab.Now(), id);
        FindRefines(slab.Now(), id, seg, k);
        Facts(slab.Now(), seg);
        Alone(slab.Now(), seg, k);
        ghost var v, order := Look(), slab.order;
        slab.Unlink(at.value, seg, k);
        var _ := DropNode(at.value, []);
        DropRefines(v, order, seg, k, slab.generations[at.value]);
      } else {
        FindsNothing(slab.Now(), id);
        assert slab.resident == old(slab.resident) - {id};
      }
    }

    /** Whether the window's oldest entry, unlinked from `s` into slot `cand`, gets into probation. */
    method Judge(cand: nat, ghost s: State) returns (admit: bool)
      requires sketch.Valid() && s.sketch == sketch.Now() && s.q[WINDOW] != [] && |slab.lists| == SEGMENTS
      requires cand < |slab.payload| && cand < |slab.costs|
      requires slab.payload[cand] == Some(s.q[WINDOW][0].hash) && slab.costs[cand] == s.q[WINDOW][0].cost
      requires Heads(slab.lists[PROBATION], slab.payload, s.q[PROBATION])
      requires Heads(slab.lists[PROTECTED], slab.payload, s.q[PROTECTED])
      ensures admit <==> LetIn(s, P())
    {
      var mainCost := slab.lists[PROBATION].cost + slab.lists[PROTECTED].cost;
      if mainCost + slab.costs[cand] <= mainCapacity {
        return true;
      }
      var rival := if slab.lists[PROBATION].tail == NIL then slab.lists[PROTECTED].tail else slab.lists[PROBATION].tail;
      if rival == NIL {
        return true;
      }
      var mine := sketch.Estimate(slab.payload[cand].value);
      var theirs := sketch.Estimate(slab.payload[rival].value);
      return mine >= theirs;
    }

    /** Unlinks the oldest window entry and compares it with its rival. */
    method TakeCandidate() returns (cand: nat, admit: bool)
      requires Valid() && slab.order[WINDOW] != []
      modifies slab`links, slab`lists, slab`order, slab`loose
      ensures slab.Valid() && slab.loose == Some(cand) && (admit <==> LetIn(old(Abs()), P()))
      ensures slab.order == old(slab.order)[WINDOW := Without(old(slab.order)[WINDOW], 0)]
      ensures cand == old(slab.order)[WINDOW][0] && Distinct(old(slab.order)[WINDOW])
      ensures forall o :: 0 <= o < SEGMENTS && o != WINDOW ==> cand !in old(slab.order)[o]
      ensures InUse(Look(), cand) && IdOf(slab.generations, cand) in slab.resident
      ensures slab.resident[IdOf(slab.generations, cand)] == Item(slab.payload[cand].value, slab.costs[cand])
    {
      ghost var m, s := slab.Now(), Abs();
      Header(m, WINDOW);
      Header(m, PROBATION);
      Header(m, PROTECTED);
      Facts(m, WINDOW);
      Alone(m, WINDOW, 0);
      cand := slab.lists[WINDOW].tail;
      slab.Unlink(cand, WINDOW, 0);
      admit := Judge(cand, s);
    }

    /** Settles the oldest window entry: into probation, or out. */
    method AdmitOne(out: seq<Victim>) returns (out': seq<Victim>)
      requires Valid() && slab.order[WINDOW] != []
      modifies slab
      ensures Valid()
      ensures var a := AdmitTurn(old(Abs()), P());
              && Abs() == a.state && out' == out + Names(a.victims)
              && Took(old(slab.resident), Names(a.victims), Cost(a.victims), slab.resident)
              && Allot() == GivenAll(old(Allot()), Names(a.victims))
    {
      ghost var v, order := Look(), slab.order;
      var cand, admit := TakeCandidate();
      if admit {
        MoveRefines(v, order, WINDOW, 0, PROBATION);
        slab.PushFront(PROBATION, cand);
        out' := out;
      } else {
        out' := Reject(cand, out, order);
        assert Cost([NodeAt(v, cand)]) == NodeAt(v, cand).cost;
        GivenOne(old(Allot()), Victim(NodeAt(v, cand).hash, NodeAt(v, cand).id));
        NamesOne(NodeAt(v, cand));
      }
    }

    /** Drops the candidate just unlinked from the old end of the window. */
    method Reject(cand: nat, out: seq<Victim>, ghost order: seq<seq<nat>>) returns (out': seq<Victim>)
      requires slab.Valid() && slab.loose == Some(cand) && |order| == SEGMENTS && order[WINDOW] != []
      requires order[WINDOW][0] == cand
      requires slab.order == order[WINDOW := Without(order[WINDOW], 0)] && Distinct(order[WINDOW])
      requires forall o :: 0 <= o < SEGMENTS && o != WINDOW ==> cand !in order[o]
      requires InUse(Look(), cand) && IdOf(slab.generations, cand) in slab.resident
      requires slab.resident[IdOf(slab.generations, cand)] == Item(slab.payload[cand].value, slab.costs[cand])
      modifies slab
      ensures slab.Valid() && slab.loose == None
      ensures var q := QueuesOf(old(Look()), order); var n := NodeAt(old(Look()), cand);
              && Queued() == q[WINDOW := Drop(q[WINDOW], 0)] && out' == out + [Victim(n.hash, n.id)]
              && Took(old(slab.resident), [Victim(n.hash, n.id)], n.cost, slab.resident)
              && Allot() == Given(old(Allot()), n.id)
    {
      ghost var v := Look();
      out' := DropNode(cand, out);
      DropRefines(v, order, WINDOW, 0, slab.generations[cand]);
    }

    method AdmitKey(hash: nat, cost: nat) returns (id: NodeId, out: seq<Victim>)
      requires Valid() && slab.HasRoom()
      modifies slab, sketch
      ensures Valid() && id !in old(slab.resident) && id == NextId(old(slab.free), old(slab.generations))
      ensures var a := Admit(old(Abs()), P(), id, hash, cost); var m0 := old(slab.resident)[id := Item(hash, cost)];
              && Abs() == a.state && out == Names(a.victims)
              && Named(m0, out) && slab.resident == m0 - NodesOf(out) && Freed(m0, out) == Cost(a.victims)
              && Allot() == GivenAll(Taken(old(Allot())), out)
      ensures Cost(Queued()[WINDOW]) <= windowTarget
    {
      ghost var v, order, p := Look(), slab.order, P();
      sketch.Increment(hash);
      var i := slab.Alloc(hash, cost);
      slab.PushFront(WINDOW, i);
      id := slab.Id(i);
      assert Seg(0) && Seg(1) && Seg(2);
      assert Look() == Placed(v, i, hash, cost) && Allot() == Taken(old(Allot()));
      PlaceRefines(v, order, i, hash, cost);
      out := SettleWindow();
    }

    method SettleWindow() returns (out: seq<Victim>)
      requires Valid()
      modifies slab
      ensures Valid()
      ensures var a := Settle(old(Abs()), P());
              && Abs() == a.state && out == Names(a.victims)
              && Named(old(slab.resident), out) && slab.resident == old(slab.resident) - NodesOf(out)
              && Freed(old(slab.resident), out) == Cost(a.victims)
              && Allot() == GivenAll(old(Allot()), out)
      ensures Cost(Queued()[WINDOW]) <= windowTarget
    {
      out := [];
      ghost var s0, m0, s, named, p := Abs(), slab.resident, Abs(), [], P();
      SettleFits(s0, p);
      Header(slab.Now(), WINDOW);
      assert slab.resident == m0 - NodesOf(out);
      while slab.lists[WINDOW].cost > windowTarget
        invariant Valid() && Abs() == s && P() == p
        invariant Heads(slab.lists[WINDOW], slab.payload, s.q[WINDOW])
        invariant Settling(s0, m0, p, s, slab.resident, named, out) && Allot() == GivenAll(old(Allot()), out)
        decreases |s.q[WINDOW]|
      {
        ghost var held, was := slab.resident, out;
        if slab.lists[WINDOW].tail == NIL {
          break;
        }
        out := AdmitOne(out);
        ghost var a := AdmitTurn(s, p);
        ghost var named' := named + a.victims;
        SettlingTurn(s0, m0, p, s, held, named, was, a, slab.resident, named', out);
        GivenMore(old(Allot()), was, Names(a.victims));
        s, named := a.state, named';
        Header(slab.Now(), WINDOW);
      }
      SettlingDone(s0, m0, p, s, slab.resident, named, out);
    }

    /** Evicts the oldest entries of one list until `want` is freed or it is empty. */
    method TrimList(seg: nat, want: nat) returns (out: seq<Victim>, left: nat)
      requires Valid() && seg < SEGMENTS
      modifies slab
      ensures Valid()
      ensures var e := Trim(old(Queued()), seg, want);
              && Queued() == e.q && left == Minus(want, e.freed)
              && Trimmed(e, old(slab.resident), slab.resident, out, want, old(Allot()), Allot())
    {
      out, left := [], want;
      ghost var q0, m0, q, named := Queued(), slab.resident, Queued(), [];
      ghost var freed: nat := 0;
      assert slab.resident == m0 - NodesOf(out);
      while left > 0
        invariant Valid() && Queued() == q && left == Minus(want, freed)
        invariant Trimming(q0, m0, seg, want, q, slab.resident, named, out, freed)
        invariant Allot() == GivenAll(old(Allot()), out)
        decreases |q[seg]|
      {
        Header(slab.Now(), seg);
        var t := slab.lists[seg].tail;
        if t == NIL {
          break;
        }
        ghost var held, was, n := slab.resident, out, q[seg][0];
        left := Minus(left, slab.costs[t]);
        out := TrimOne(seg, t, out);
        ghost var q', named', freed' := q[seg := Drop(q[seg], 0)], named + [n], freed + n.cost;
        TrimmingTurn(q0, m0, seg, want, q, held, named, was, freed, n, q', slab.resident, named', out, freed');
        GivenMore(old(Allot()), was, [Victim(n.hash, n.id)]);
        GivenOne(GivenAll(old(Allot()), was), Victim(n.hash, n.id));
        q, named, freed := q', named', freed';
      }
      TrimmingDone(q0, m0, seg, want, q, slab.resident, named, out, freed);
    }

    method TrimOne(seg: nat, t: nat, out: seq<Victim>) returns (out': seq<Victim>)
      requires Valid() && seg < SEGMENTS && slab.order[seg] != [] && slab.order[seg][0] == t
      modifies slab
      ensures Valid()
      ensures var q := old(Queued()); var n := q[seg][0];
              && Queued() == q[seg := Drop(q[seg], 0)] && out' == out + [Victim(n.hash, n.id)]
              && Took(old(slab.resident), [Victim(n.hash, n.id)], n.cost, slab.resident)
              && Allot() == Given(old(Allot()), n.id)
    {
      Header(slab.Now(), seg);
      Facts(slab.Now(), seg);
      Alone(slab.Now(), seg, 0);
      ghost var v, order := Look(), slab.order;
      slab.Unlink(t, seg, 0);
      out' := DropNode(t, out);
      DropRefines(v, order, seg, 0, slab.generations[t]);
    }

    method EvictNodes(want: nat) returns (out: seq<Victim>)
      requires Valid()
      modifies slab
      ensures Valid()
      ensures var e := TinyModel.Evict(old(Queued()), P(), want);
              && Queued() == e.q
              && Trimmed(e, old(slab.resident), slab.resident, out, want, old(Allot()), Allot())
    {
      Maintain();
      out := TrimBoth(want);
    }

    method TrimBoth(want: nat) returns (out: seq<Victim>)
      requires Valid()
      modifies slab
      ensures Valid()
      ensures var a := Trim(old(Queued()), PROBATION, want); var b := Trim(a.q, PROTECTED, Minus(want, a.freed));
              && Queued() == b.q
              && Trimmed(Evicted(b.q, a.victims + b.victims, a.freed + b.freed), old(slab.resident), slab.resident,
                         out, want, old(Allot()), Allot())
    {
      var left, more;
      ghost var a := Trim(Queued(), PROBATION, want);
      out, left := TrimList(PROBATION, want);
      ghost var held, slots := slab.resident, Allot();
      more, left := TrimList(PROTECTED, left);
      ghost var b := Trim(a.q, PROTECTED, Minus(want, a.freed));
      TrimmedTwice(a, b, PROTECTED, old(slab.resident), held, slab.resident, out, more, want, old(Allot()), slots,
                   Allot());
      out := out + more;
    }

    method Clear()
      requires Valid()
      modifies slab, sketch
      ensures Valid() && Queued() == [[], [], []] && slab.resident == map[] && Allot() == Slots([], [])
      ensures sketch.Now() == Zero(|old(sketch.counters)|, sketch.width) == Reset(old(sketch.Now()))
    {
      slab.Clear();
      sketch.Clear();
    }
  }
}
