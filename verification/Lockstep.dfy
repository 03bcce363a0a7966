/**
 Both forms of S3-FIFO are proved to do what `S3Model` does, each under its own node ids: the slab's, which are
 whatever the slab hands out, and the key-based policy's, which are its keys. Ids decide nothing, so the two decide
 alike on every run.
 */
module Lockstep {
  import opened Residents
  import opened S3Model
  import opened KeyedModel

  // ---------------------------------------------------------------- other names

  function Rename(q: seq<Node>): (r: seq<Node>)
    ensures |r| == |q| && forall i :: 0 <= i < |q| ==> r[i] == q[i].(id := IdOf(q[i].hash))
  {
    seq(|q|, i requires 0 <= i < |q| => q[i].(id := IdOf(q[i].hash)))
  }

  function Renamed(s: State): (r: State)
  {
    s.(small := Rename(s.small), main := Rename(s.main))
  }

  lemma {:induction false} RenameCosts(q: seq<Node>)
    ensures Cost(Rename(q)) == Cost(q)
  {
    if q != [] {
      assert Rename(q)[1..] == Rename(q[1..]);
      RenameCosts(q[1..]);
    }
  }

  lemma RenameParts(a: seq<Node>, b: seq<Node>)
    ensures Rename(a + b) == Rename(a) + Rename(b)
    ensures a != [] ==> Rename(a[1..]) == Rename(a)[1..]
  {
  }

  lemma StepRenames(s: State, target: nat, cap: nat)
    requires s.small != [] || s.main != []
    ensures SameOutcome(Step(Renamed(s), target, cap), Step(s, target, cap))
  {
    RenameCosts(s.small);
    RenameParts(s.small, []);
    if FromSmall(s, target) {
      RenameParts(s.main, [s.small[0].(freq := 0)]);
      assert Rename([s.small[0]]) == [Rename(s.small)[0]];
      assert Rename([s.small[0].(freq := 0)]) == [Rename(s.small)[0].(freq := 0)];
    } else {
      var n := s.main[0];
      RenameParts(s.main, []);
      if n.freq > 0 {
        RenameParts(s.main[1..], [n.(freq := n.freq - 1)]);
        assert Rename([n.(freq := n.freq - 1)]) == [Rename(s.main)[0].(freq := n.freq - 1)];
      } else {
        assert Rename([n]) == [Rename(s.main)[0]];
      }
    }
  }

  /** The same outcome, but for the ids. */
  ghost predicate SameOutcome(r: Outcome, o: Outcome)
  {
    r.state == Renamed(o.state) && r.victims == Rename(o.victims) && r.freed == o.freed
  }

  lemma AfterTurn(o: Outcome, rest: Outcome, all: Outcome, o': Outcome, rest': Outcome, all': Outcome)
    requires SameOutcome(o', o) && SameOutcome(rest', rest)
    requires all == Outcome(rest.state, o.victims + rest.victims, rest.freed)
    requires all' == Outcome(rest'.state, o'.victims + rest'.victims, rest'.freed)
    ensures SameOutcome(all', all)
  {
    RenameParts(o.victims, rest.victims);
  }

  lemma {:induction false} EvictRenames(s: State, want: nat, freed: nat, target: nat, cap: nat)
    ensures SameOutcome(Evict(Renamed(s), want, freed, target, cap), Evict(s, want, freed, target, cap))
    decreases Potential(s)
  {
    if !Stops(s, want, freed) {
      StepSpends(s, target, cap);
      StepRenames(s, target, cap);
      var o, o' := Step(s, target, cap), Step(Renamed(s), target, cap);
      EvictRenames(o.state, want, freed + o.freed, target, cap);
      AfterTurn(o, Evict(o.state, want, freed + o.freed, target, cap), Evict(s, want, freed, target, cap),
                o', Evict(o'.state, want, freed + o'.freed, target, cap), Evict(Renamed(s), want, freed, target, cap));
    }
  }

  // ----------------------------------------------------------- one node per key

  ghost predicate Apart(a: Node, b: Node)
  {
    a.id != b.id && a.hash != b.hash
  }

  ghost predicate AllApart(q: seq<Node>)
  {
    forall i, j :: 0 <= i < j < |q| ==> Apart(q[i], q[j])
  }

  /** No two nodes share an id, or a key. */
  ghost predicate Proper(s: State)
  {
    AllApart(s.small) && AllApart(s.main) && forall i, j ::
          0 <= i < |s.small| && 0 <= j < |s.main| ==> Apart(s.small[i], s.main[j])
  }

  lemma StepKeepsProper(s: State, target: nat, cap: nat)
    requires Proper(s) && (s.small != [] || s.main != [])
    ensures Proper(Step(s, target, cap).state)
  {
  }

  lemma {:induction false} EvictKeepsProper(s: State, want: nat, freed: nat, target: nat, cap: nat)
    requires Proper(s)
    ensures Proper(Evict(s, want, freed, target, cap).state)
    decreases Potential(s)
  {
    if !Stops(s, want, freed) {
      StepSpends(s, target, cap);
      StepKeepsProper(s, target, cap);
      var o := Step(s, target, cap);
      EvictKeepsProper(o.state, want, freed + o.freed, target, cap);
    }
  }

  /** The nodes with this id are the nodes of this key. */
  ghost predicate Names(q: seq<Node>, key: nat, id: NodeId)
  {
    forall i :: 0 <= i < |q| ==> (q[i].id == id <==> q[i].hash == key)
  }

  lemma UpdatesRename(q: seq<Node>, key: nat, id: NodeId, cost: nat)
    requires Names(q, key, id)
    ensures Rename(BumpNodes(q, id)) == BumpNodes(Rename(q), IdOf(key))
    ensures Rename(RecostNodes(q, id, cost)) == RecostNodes(Rename(q), IdOf(key), cost)
  {
  }

  lemma {:induction false} DropRenames(q: seq<Node>, key: nat, id: NodeId)
    requires Names(q, key, id)
    ensures Rename(DropNodes(q, id)) == DropNodes(Rename(q), IdOf(key))
  {
    if q != [] {
      RenameParts(q, []);
      DropRenames(q[1..], key, id);
      if q[0].id != id {
        RenameParts([q[0]], DropNodes(q[1..], id));
        assert Rename([q[0]]) == [Rename(q)[0]];
      }
    }
  }

  lemma {:induction false} DropKeepsApart(q: seq<Node>, id: NodeId)
    requires AllApart(q)
    ensures AllApart(DropNodes(q, id)) && forall n :: n in DropNodes(q, id) ==> n in q
  {
    if q != [] {
      DropKeepsApart(q[1..], id);
      var rest := DropNodes(q[1..], id);
      forall j | 0 <= j < |rest|
        ensures Apart(q[0], rest[j])
      {
        assert rest[j] in q[1..];
        var i :| 0 <= i < |q[1..]| && q[1..][i] == rest[j];
        assert q[i + 1] == rest[j];
      }
    }
  }

  // ------------------------------------------------------------------- the runs

  /** What a shard does to its policy, by key. A new key gets the id that the slab hands out. */
  datatype Op = Reading(key: nat) | Storing(key: nat, cost: nat, id: NodeId) | Removing(key: nat)
    | Evicting(want: nat) | Clearing

  function Find(q: seq<Node>, key: nat): (r: seq<NodeId>)
    ensures |r| <= 1 && (r == [] <==> forall i :: 0 <= i < |q| ==> q[i].hash != key)
    ensures r != [] ==> exists i :: 0 <= i < |q| && q[i].hash == key && q[i].id == r[0]
  {
    if q == [] then [] else if q[0].hash == key then [q[0].id]
    else
      var r := Find(q[1..], key);
      assert r != [] ==> exists i ::
            0 <= i < |q[1..]| && q[1..][i].hash == key && q[1..][i].id == r[0] && q[i + 1] == q[1..][i];
      r
  }

  /** The id in the key's table entry, if it is resident. */
  function NodeIn(s: State, key: nat): (r: seq<NodeId>)
  {
    if Find(s.small, key) != [] then Find(s.small, key) else Find(s.main, key)
  }

  lemma FoundNames(s: State, key: nat)
    requires Proper(s) && NodeIn(s, key) != []
    ensures Names(s.small, key, NodeIn(s, key)[0]) && Names(s.main, key, NodeIn(s, key)[0])
  {
  }

  /** The slab form, told ids. */
  function HandleStep(s: State, op: Op, target: nat, cap: nat): (o: Outcome)
  {
    match op
    case Reading(key) => Outcome(if NodeIn(s, key) == [] then s else Touch(s, NodeIn(s, key)[0]), [], 0)
    case Storing(key, cost, id) =>
        Outcome(if NodeIn(s, key) == [] then Admit(s, id, key, cost) else Update(s, NodeIn(s, key)[0], cost), [], 0)
    case Removing(key) => Outcome(if NodeIn(s, key) == [] then s else Remove(s, NodeIn(s, key)[0]), [], 0)
    case Evicting(want) => Evict(s, want, 0, target, cap)
    case Clearing => Outcome(INIT, [], 0)
  }

  /** The key-based form, told keys. */
  function KeyedStep(s: State, op: Op, target: nat, cap: nat): (o: Outcome)
  {
    match op
    case Reading(key) => Outcome(Touch(s, IdOf(key)), [], 0)
    case Storing(key, cost, _) =>
        Outcome(if NodeIn(s, key) == [] then Admit(s, IdOf(key), key, cost) else Update(s, IdOf(key), cost), [], 0)
    case Removing(key) => Outcome(Remove(s, IdOf(key)), [], 0)
    case Evicting(want) => Evict(s, want, 0, target, cap)
    case Clearing => Outcome(INIT, [], 0)
  }

  ghost predicate Fresh(s: State, op: Op)
  {
    op.Storing? && NodeIn(s, op.key) == [] ==>
      && (forall i :: 0 <= i < |s.small| ==> s.small[i].id != op.id) &&
          (forall i :: 0 <= i < |s.main| ==> s.main[i].id != op.id)
  }

  lemma AbsentRenames(q: seq<Node>, key: nat, cost: nat)
    requires Find(q, key) == []
    ensures BumpNodes(Rename(q), IdOf(key)) == Rename(q) && DropNodes(Rename(q), IdOf(key)) == Rename(q)
  {
    DropAbsent(Rename(q), IdOf(key));
  }

  lemma RenameFinds(q: seq<Node>, key: nat)
    ensures Find(Rename(q), key) == [] <==> Find(q, key) == []
  {
    assert forall i :: 0 <= i < |q| ==> Rename(q)[i].hash == q[i].hash;
  }

  /** The same operation on both: the same state up to ids, the same victims, the same cost freed. */
  lemma StepsAgree(s: State, op: Op, target: nat, cap: nat)
    requires Proper(s) && Fresh(s, op)
    ensures var h, k := HandleStep(s, op, target, cap), KeyedStep(Renamed(s), op, target, cap);
            && Proper(h.state) && k.state == Renamed(h.state)
            && k.victims == Rename(h.victims) && k.freed == h.freed
  {
    if op.Evicting? {
      EvictRenames(s, op.want, 0, target, cap);
      EvictKeepsProper(s, op.want, 0, target, cap);
    } else if !op.Clearing? {
      var key := op.key;
      RenameFinds(s.small, key);
      RenameFinds(s.main, key);
      if NodeIn(s, key) != [] {
        ResidentAgrees(s, op, target, cap);
      } else {
        AbsentAgrees(s, op, target, cap);
      }
    }
  }

  lemma ResidentAgrees(s: State, op: Op, target: nat, cap: nat)
    requires Proper(s) && !op.Evicting? && !op.Clearing? && NodeIn(s, op.key) != [] && NodeIn(Renamed(s), op.key) != []
    ensures var h, k := HandleStep(s, op, target, cap), KeyedStep(Renamed(s), op, target, cap);
            Proper(h.state) && k.state == Renamed(h.state)
  {
    var id := NodeIn(s, op.key)[0];
    FoundNames(s, op.key);
    match op
    case Reading(key) => TouchAgrees(s, key, id);
    case Storing(key, cost, _) => UpdateAgrees(s, key, id, cost);
    case Removing(key) =>
      DropRenames(s.small, key, id);
      DropRenames(s.main, key, id);
      RemoveKeepsProper(s, id);
  }

  lemma TouchAgrees(s: State, key: nat, id: NodeId)
    requires Proper(s) && Names(s.small, key, id) && Names(s.main, key, id)
    ensures Proper(Touch(s, id)) && Touch(Renamed(s), IdOf(key)) == Renamed(Touch(s, id))
  {
    UpdatesRename(s.small, key, id, 0);
    UpdatesRename(s.main, key, id, 0);
  }

  lemma UpdateAgrees(s: State, key: nat, id: NodeId, cost: nat)
    requires Proper(s) && Names(s.small, key, id) && Names(s.main, key, id)
    ensures Proper(Update(s, id, cost)) && Update(Renamed(s), IdOf(key), cost) == Renamed(Update(s, id, cost))
  {
    UpdatesRename(s.small, key, id, cost);
    UpdatesRename(s.main, key, id, cost);
  }

  lemma RemoveKeepsProper(s: State, id: NodeId)
    requires Proper(s)
    ensures Proper(Remove(s, id))
  {
    DropKeepsApart(s.small, id);
    DropKeepsApart(s.main, id);
    var r := Remove(s, id);
    forall i, j | 0 <= i < |r.small| && 0 <= j < |r.main|
      ensures Apart(r.small[i], r.main[j])
    {
      assert r.small[i] in s.small && r.main[j] in s.main;
    }
  }

  lemma AbsentAgrees(s: State, op: Op, target: nat, cap: nat)
    requires Proper(s) && Fresh(s, op) && !op.Evicting? && !op.Clearing? && NodeIn(s, op.key) == []
    requires NodeIn(Renamed(s), op.key) == []
    ensures var h, k := HandleStep(s, op, target, cap), KeyedStep(Renamed(s), op, target, cap);
            Proper(h.state) && k.state == Renamed(h.state)
  {
    if op.Storing? {
      var n := Node(op.id, op.key, op.cost, 0);
      RenameParts(s.main, [n]);
      RenameParts(s.small, [n]);
      assert Rename([n]) == [n.(id := IdOf(op.key))];
    } else {
      AbsentRenames(s.small, op.key, 0);
      AbsentRenames(s.main, op.key, 0);
    }
  }

  ghost predicate IsRun(ops: seq<Op>, handle: seq<Outcome>, keyed: seq<Outcome>, target: nat, cap: nat)
  {
    && |handle| == |keyed| == |ops| + 1 && handle[0] == keyed[0] == Outcome(INIT, [], 0)
    && forall i :: 0 <= i < |ops| ==>
         && Fresh(handle[i].state, ops[i])
         && handle[i + 1] == HandleStep(handle[i].state, ops[i], target, cap)
         && keyed[i + 1] == KeyedStep(keyed[i].state, ops[i], target, cap)
  }

  /** On every run of reads, inserts, updates, removals, evictions and clears, the two forms of S3-FIFO hold the same
        keys in the same queues with the same frequencies, remember the same ghosts, and name the same victims. */
  lemma {:induction false} TheFormsDecideAlike(ops: seq<Op>, handle: seq<Outcome>, keyed: seq<Outcome>, target: nat,
                                               cap: nat, n: nat)
    requires IsRun(ops, handle, keyed, target, cap) && n <= |ops|
    ensures Proper(handle[n].state) && keyed[n].state == Renamed(handle[n].state)
    ensures keyed[n].victims == Rename(handle[n].victims) && keyed[n].freed == handle[n].freed
  {
    if n > 0 {
      TheFormsDecideAlike(ops, handle, keyed, target, cap, n - 1);
      StepsAgree(handle[n - 1].state, ops[n - 1], target, cap);
    }
  }
}
