/**
 W-TinyLFU on plain sequences: a window, a probation and a protected queue, each
 oldest first, and the sketch that decides who is admitted to the main queues.
 */
module TinyModel {
  import opened Residents
  import opened Sketches

  const WINDOW: nat := 0
  const PROBATION: nat := 1
  const PROTECTED: nat := 2

  datatype Node = Node(id: NodeId, hash: nat, cost: nat)

  type Queues = q: seq<seq<Node>> | |q| == 3 witness [[], [], []]

  datatype State = State(q: Queues, sketch: Counts)

  /** The targets `new` derives from the capacity, and the sketch's shape. */
  datatype Params = Params(windowTarget: nat, mainCapacity: nat, protCapacity: nat, index: Indexing, threshold: nat)

  datatype Admitted = Admitted(state: State, victims: seq<Node>)

  datatype Evicted = Evicted(q: Queues, victims: seq<Node>, freed: nat)

  function Cost(s: seq<Node>): (c: nat)
  {
    if s == [] then 0 else s[0].cost + Cost(s[1..])
  }

  function Drop(s: seq<Node>, k: nat): (r: seq<Node>)
    requires k < |s|
  {
    s[..k] + s[k + 1..]
  }

  /** Node `k` of queue `from` becomes the newest of queue `to`. */
  function Move(q: Queues, from: nat, k: nat, to: nat): (r: Queues)
    requires from < 3 && to < 3 && k < |q[from]|
  {
    var a := q[from := Drop(q[from], k)];
    a[to := a[to] + [q[from][k]]]
  }

  /** Demotes the oldest protected entries until the queue fits. */
  function Maintain(q: Queues, cap: nat): (r: Queues)
    decreases |q[PROTECTED]|
  {
    if Cost(q[PROTECTED]) > cap && q[PROTECTED] != [] then Maintain(Move(q, PROTECTED, 0, PROBATION), cap) else q
  }

  function TouchAt(q: Queues, seg: nat, k: nat, cap: nat): (r: Queues)
    requires seg < 3 && k < |q[seg]|
  {
    if seg == PROBATION then Maintain(Move(q, PROBATION, k, PROTECTED), cap) else Move(q, seg, k, seg)
  }

  /** The position of a node in a queue, or the queue's length. */
  function Find(s: seq<Node>, id: NodeId): (k: nat)
    ensures k <= |s|
    ensures k < |s| ==> s[k].id == id
    ensures forall j :: 0 <= j < k ==> s[j].id != id
  {
    if s == [] then 0 else if s[0].id == id then 0 else 1 + Find(s[1..], id)
  }

  function Where(q: Queues, id: NodeId): (seg: nat)
    ensures seg <= 3
    ensures seg < 3 ==> Find(q[seg], id) < |q[seg]|
    ensures seg == 3 ==> forall s :: 0 <= s < 3 ==> Find(q[s], id) == |q[s]|
  {
    if Find(q[0], id) < |q[0]| then 0
    else if Find(q[1], id) < |q[1]| then 1
    else if Find(q[2], id) < |q[2]| then 2
    else 3
  }

  function Seen(c: Counts, p: Params, hash: nat): (r: Counts)
  {
    Incremented(c, p.index, p.threshold, hash)
  }

  /** A read of a node; an id no node carries is ignored. */
  function Touch(s: State, p: Params, id: NodeId): (r: State)
  {
    var seg := Where(s.q, id);
    if seg == 3 then s
    else
      var k := Find(s.q[seg], id);
      State(TouchAt(s.q, seg, k, p.protCapacity), Seen(s.sketch, p, s.q[seg][k].hash))
  }

  /** Reads in order, the last one last. */
  function TouchAll(s: State, p: Params, ids: seq<NodeId>): (r: State)
  {
    if ids == [] then s else Touch(TouchAll(s, p, ids[..|ids| - 1]), p, ids[|ids| - 1])
  }

  /** A resident entry's value was replaced by one of another cost. */
  function Update(s: State, p: Params, id: NodeId, cost: nat): (r: State)
  {
    var seg := Where(s.q, id);
    if seg == 3 then s
    else
      var k := Find(s.q[seg], id);
      var n := s.q[seg][k];
      State(TouchAt(s.q[seg := s.q[seg][k := n.(cost := cost)]], seg, k, p.protCapacity), Seen(s.sketch, p, n.hash))
  }

  function Remove(s: State, id: NodeId): (r: State)
  {
    var seg := Where(s.q, id);
    if seg == 3 then s else s.(q := s.q[seg := Drop(s.q[seg], Find(s.q[seg], id))])
  }

  /** Who a window candidate is compared with: the oldest of the main queues. */
  function Rival(q: Queues): (r: seq<Node>)
  {
    if q[PROBATION] != [] then [q[PROBATION][0]] else if q[PROTECTED] != [] then [q[PROTECTED][0]] else []
  }

  /** Whether the oldest window entry is let into probation. */
  predicate LetIn(s: State, p: Params)
    requires s.q[WINDOW] != []
  {
    var cand := s.q[WINDOW][0];
    || Cost(s.q[PROBATION]) + Cost(s.q[PROTECTED]) + cand.cost <= p.mainCapacity
    || Rival(s.q) == []
    || EstimateOf(s.sketch, p.index, cand.hash) >= EstimateOf(s.sketch, p.index, Rival(s.q)[0].hash)
  }

  function AdmitTurn(s: State, p: Params): (a: Admitted)
    requires s.q[WINDOW] != []
  {
    if LetIn(s, p) then Admitted(s.(q := Move(s.q, WINDOW, 0, PROBATION)), [])
    else Admitted(s.(q := s.q[WINDOW := Drop(s.q[WINDOW], 0)]), [s.q[WINDOW][0]])
  }

  /** The loop that brings the window back to its target. */
  function Settle(s: State, p: Params): (a: Admitted)
    decreases |s.q[WINDOW]|
  {
    if Cost(s.q[WINDOW]) > p.windowTarget && s.q[WINDOW] != [] then
      var a := AdmitTurn(s, p);
      var rest := Settle(a.state, p);
      Admitted(rest.state, a.victims + rest.victims)
    else Admitted(s, [])
  }

  function Admit(s: State, p: Params, id: NodeId, hash: nat, cost: nat): (a: Admitted)
  {
    Settle(State(s.q[WINDOW := s.q[WINDOW] + [Node(id, hash, cost)]], Seen(s.sketch, p, hash)), p)
  }

  function Minus(a: nat, b: nat): (r: nat)
  {
    if a > b then a - b else 0
  }

  /** Evicts from the old end of one queue until `want` is freed or it is empty. */
  function Trim(q: Queues, seg: nat, want: nat): (e: Evicted)
    requires seg < 3
    decreases |q[seg]|
  {
    if want == 0 || q[seg] == [] then Evicted(q, [], 0)
    else
      var n := q[seg][0];
      var rest := Trim(q[seg := Drop(q[seg], 0)], seg, Minus(want, n.cost));
      Evicted(rest.q, [n] + rest.victims, n.cost + rest.freed)
  }

  /** Probation first, then protected; never the window. */
  function Evict(q: Queues, p: Params, want: nat): (e: Evicted)
  {
    var a := Trim(Maintain(q, p.protCapacity), PROBATION, want);
    var b := Trim(a.q, PROTECTED, Minus(want, a.freed));
    Evicted(b.q, a.victims + b.victims, a.freed + b.freed)
  }

  function Names(victims: seq<Node>): (r: seq<Victim>)
    ensures |r| == |victims|
  {
    if victims == [] then [] else [Victim(victims[0].hash, victims[0].id)] + Names(victims[1..])
  }

  lemma NamesOne(n: Node)
    ensures Names([n]) == [Victim(n.hash, n.id)]
  {
    assert [n][1..] == [];
  }

  lemma {:induction false} CostAppend(a: seq<Node>, b: seq<Node>)
    ensures Cost(a + b) == Cost(a) + Cost(b)
  {
    if a == [] {
      assert a + b == b;
    } else {
      CostAppend(a[1..], b);
      assert (a + b)[1..] == a[1..] + b;
    }
  }

  /** Admission always ends with the window within its target. */
  lemma {:induction false} SettleFits(s: State, p: Params)
    ensures Cost(Settle(s, p).state.q[WINDOW]) <= p.windowTarget
    decreases |s.q[WINDOW]|
  {
    if Cost(s.q[WINDOW]) > p.windowTarget && s.q[WINDOW] != [] {
      SettleFits(AdmitTurn(s, p).state, p);
    }
  }

  function HeldCost(q: Queues): (c: nat)
  {
    Cost(q[WINDOW]) + Cost(q[PROBATION]) + Cost(q[PROTECTED])
  }

  lemma LettingInConserves(q: Queues)
    requires q[WINDOW] != []
    ensures HeldCost(Move(q, WINDOW, 0, PROBATION)) == HeldCost(q)
  {
    CostAppend(q[PROBATION], [q[WINDOW][0]]);
    assert Cost([q[WINDOW][0]]) == q[WINDOW][0].cost;
    assert Drop(q[WINDOW], 0) == q[WINDOW][1..];
  }

  /** While the main queues have room for everything, admission rejects nobody. */
  lemma {:induction false} RoomForAll(s: State, p: Params)
    requires HeldCost(s.q) <= p.mainCapacity
    ensures Settle(s, p).victims == []
    decreases |s.q[WINDOW]|
  {
    if Cost(s.q[WINDOW]) > p.windowTarget && s.q[WINDOW] != [] {
      assert LetIn(s, p);
      LettingInConserves(s.q);
      RoomForAll(AdmitTurn(s, p).state, p);
    }
  }

  lemma AdmitsAll(s: State, p: Params, id: NodeId, hash: nat, cost: nat)
    requires HeldCost(s.q) + cost <= p.mainCapacity
    ensures Admit(s, p, id, hash, cost).victims == []
  {
    CostAppend(s.q[WINDOW], [Node(id, hash, cost)]);
    assert Cost([Node(id, hash, cost)]) == cost;
    RoomForAll(State(s.q[WINDOW := s.q[WINDOW] + [Node(id, hash, cost)]], Seen(s.sketch, p, hash)), p);
  }

  /** Trimming frees what was asked for or empties the queue, and frees what its victims cost. */
  lemma {:induction false} TrimFrees(q: Queues, seg: nat, want: nat)
    requires seg < 3
    ensures var e := Trim(q, seg, want);
            && e.freed == Cost(e.victims)
            && (e.freed >= want || e.q[seg] == [])
            && (forall o :: 0 <= o < 3 && o != seg ==> e.q[o] == q[o])
    decreases |q[seg]|
  {
    if want > 0 && q[seg] != [] {
      var n := q[seg][0];
      TrimFrees(q[seg := Drop(q[seg], 0)], seg, Minus(want, n.cost));
      var rest := Trim(q[seg := Drop(q[seg], 0)], seg, Minus(want, n.cost));
      assert ([n] + rest.victims)[1..] == rest.victims;
    }
  }

  lemma {:induction false} MaintainKeepsWindow(q: Queues, cap: nat)
    ensures Maintain(q, cap)[WINDOW] == q[WINDOW]
    decreases |q[PROTECTED]|
  {
    if Cost(q[PROTECTED]) > cap && q[PROTECTED] != [] {
      MaintainKeepsWindow(Move(q, PROTECTED, 0, PROBATION), cap);
    }
  }

  /** Eviction frees what was asked for or leaves only the window, which it never touches. */
  lemma EvictFrees(q: Queues, p: Params, want: nat)
    ensures var e := Evict(q, p, want);
            && e.freed == Cost(e.victims)
            && (e.freed >= want || (e.q[PROBATION] == [] && e.q[PROTECTED] == []))
            && e.q[WINDOW] == q[WINDOW]
  {
    var r := Maintain(q, p.protCapacity);
    MaintainKeepsWindow(q, p.protCapacity);
    TrimFrees(r, PROBATION, want);
    var a := Trim(r, PROBATION, want);
    TrimFrees(a.q, PROTECTED, Minus(want, a.freed));
    CostAppend(a.victims, Trim(a.q, PROTECTED, Minus(want, a.freed)).victims);
  }

  lemma {:induction false} NamesAppend(a: seq<Node>, b: seq<Node>)
    ensures Names(a + b) == Names(a) + Names(b)
  {
    if a == [] {
      assert a + b == b;
    } else {
      NamesAppend(a[1..], b);
      assert (a + b)[1..] == a[1..] + b;
    }
  }
}
