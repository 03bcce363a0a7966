/**
 The slab form of S3-FIFO as a shard drives it: by node ids from its table, with hashes for keys. As long as no two
 keys share a hash it does what `Lockstep` compares with the key-based form; with a shared hash it need not.
 */
module HashedLockstep {
  import opened Residents
  import opened S3Model
  import opened KeyedModel
  import opened Lockstep

  type Hasher = nat -> nat

  ghost predicate Injective(h: Hasher, keys: iset<nat>)
  {
    forall a, b :: a in keys && b in keys && h(a) == h(b) ==> a == b
  }

  // -------------------------------------------------------------- hashes for keys

  function HashQueue(q: seq<Node>, h: Hasher): (r: seq<Node>)
    ensures |r| == |q| && forall i :: 0 <= i < |q| ==> r[i] == q[i].(hash := h(q[i].hash))
  {
    seq(|q|, i requires 0 <= i < |q| => q[i].(hash := h(q[i].hash)))
  }

  function HashOrder(order: seq<nat>, h: Hasher): (r: seq<nat>)
    ensures |r| == |order| && forall i :: 0 <= i < |order| ==> r[i] == h(order[i])
  {
    seq(|order|, i requires 0 <= i < |order| => h(order[i]))
  }

  function Hashed(s: State, h: Hasher): (r: State)
  {
    State(HashQueue(s.small, h), HashQueue(s.main, h), set k | k in s.ghosts :: h(k), HashOrder(s.order, h))
  }

  /** Every key that the state mentions is among `keys`. */
  ghost predicate Mentions(s: State, keys: iset<nat>)
  {
    && (forall i :: 0 <= i < |s.small| ==> s.small[i].hash in keys) &&
        (forall i :: 0 <= i < |s.main| ==> s.main[i].hash in keys)
    && (forall k :: k in s.ghosts ==> k in keys) && (forall i :: 0 <= i < |s.order| ==> s.order[i] in keys)
  }

  lemma {:induction false} HashCosts(q: seq<Node>, h: Hasher)
    ensures Cost(HashQueue(q, h)) == Cost(q)
  {
    if q != [] {
      assert HashQueue(q, h)[1..] == HashQueue(q[1..], h);
      HashCosts(q[1..], h);
    }
  }

  lemma HashParts(a: seq<Node>, b: seq<Node>, h: Hasher)
    ensures HashQueue(a + b, h) == HashQueue(a, h) + HashQueue(b, h)
    ensures a != [] ==> HashQueue(a[1..], h) == HashQueue(a, h)[1..]
  {
  }

  ghost function Image(keys: set<nat>, h: Hasher): (r: set<nat>)
  {
    set k | k in keys :: h(k)
  }

  lemma ImageWithout(ghosts: set<nat>, k: nat, h: Hasher, keys: iset<nat>)
    requires Injective(h, keys) && k in keys && forall g :: g in ghosts ==> g in keys
    ensures Image(ghosts - {k}, h) == Image(ghosts, h) - {h(k)}
    ensures h(k) in Image(ghosts, h) <==> k in ghosts
  {
  }

  lemma RememberHashes(s: State, key: nat, cap: nat, h: Hasher, keys: iset<nat>)
    requires Injective(h, keys) && Mentions(s, keys) && key in keys
    ensures Remember(Hashed(s, h), h(key), cap) == Hashed(Remember(s, key, cap), h)
    ensures Mentions(Remember(s, key, cap), keys)
  {
    var full := |s.order| >= cap && s.order != [];
    var ghosts := if full then s.ghosts - {s.order[0]} else s.ghosts;
    var order := if full then s.order[1..] else s.order;
    if full {
      ImageWithout(s.ghosts, s.order[0], h, keys);
      assert HashOrder(s.order, h)[1..] == HashOrder(order, h);
    }
    ImageWithout(ghosts, key, h, keys);
    assert Image(ghosts + {key}, h) == Image(ghosts, h) + {h(key)};
    assert HashOrder(order + [key], h) == HashOrder(order, h) + [h(key)];
  }

  ghost predicate HashedOutcome(r: Outcome, o: Outcome, h: Hasher)
  {
    r.state == Hashed(o.state, h) && r.victims == HashQueue(o.victims, h) && r.freed == o.freed
  }

  lemma SmallHashes(s: State, cap: nat, h: Hasher, keys: iset<nat>)
    requires Injective(h, keys) && Mentions(s, keys) && s.small != []
    ensures HashedOutcome(EvictSmall(Hashed(s, h), cap), EvictSmall(s, cap), h)
    ensures Mentions(EvictSmall(s, cap).state, keys)
  {
    var n := s.small[0];
    HashParts(s.small, [], h);
    HashParts(s.main, [n.(freq := 0)], h);
    assert HashQueue([n], h) == [HashQueue(s.small, h)[0]];
    assert HashQueue([n.(freq := 0)], h) == [HashQueue(s.small, h)[0].(freq := 0)];
    RememberHashes(s.(small := s.small[1..]), n.hash, cap, h, keys);
  }

  lemma MainHashes(s: State, h: Hasher, keys: iset<nat>)
    requires Mentions(s, keys) && s.main != []
    ensures HashedOutcome(EvictMain(Hashed(s, h)), EvictMain(s), h) && Mentions(EvictMain(s).state, keys)
  {
    var n := s.main[0];
    HashParts(s.main, [], h);
    assert HashQueue([n], h) == [HashQueue(s.main, h)[0]];
    if n.freq > 0 {
      HashParts(s.main[1..], [n.(freq := n.freq - 1)], h);
      assert HashQueue([n.(freq := n.freq - 1)], h) == [HashQueue(s.main, h)[0].(freq := n.freq - 1)];
    }
  }

  lemma StepHashes(s: State, target: nat, cap: nat, h: Hasher, keys: iset<nat>)
    requires Injective(h, keys) && Mentions(s, keys) && (s.small != [] || s.main != [])
    ensures HashedOutcome(Step(Hashed(s, h), target, cap), Step(s, target, cap), h)
    ensures Mentions(Step(s, target, cap).state, keys)
  {
    HashCosts(s.small, h);
    if FromSmall(s, target) {
      SmallHashes(s, cap, h, keys);
    } else {
      MainHashes(s, h, keys);
    }
  }

  lemma AfterTurn(o: Outcome, rest: Outcome, all: Outcome, o': Outcome, rest': Outcome, all': Outcome, h: Hasher)
    requires HashedOutcome(o', o, h) && HashedOutcome(rest', rest, h)
    requires all == Outcome(rest.state, o.victims + rest.victims, rest.freed)
    requires all' == Outcome(rest'.state, o'.victims + rest'.victims, rest'.freed)
    ensures HashedOutcome(all', all, h)
  {
    HashParts(o.victims, rest.victims, h);
  }

  lemma {:induction false} EvictHashes(s: State, want: nat, freed: nat, target: nat, cap: nat, h: Hasher,
                                       keys: iset<nat>)
    requires Injective(h, keys) && Mentions(s, keys)
    ensures HashedOutcome(Evict(Hashed(s, h), want, freed, target, cap), Evict(s, want, freed, target, cap), h)
    decreases Potential(s)
  {
    if !Stops(s, want, freed) {
      StepSpends(s, target, cap);
      StepHashes(s, target, cap, h, keys);
      var o, o' := Step(s, target, cap), Step(Hashed(s, h), target, cap);
      EvictHashes(o.state, want, freed + o.freed, target, cap, h, keys);
      AfterTurn(o, Evict(o.state, want, freed + o.freed, target, cap), Evict(s, want, freed, target, cap),
                o', Evict(o'.state, want, freed + o'.freed, target, cap),
                    Evict(Hashed(s, h), want, freed, target, cap), h);
    }
  }

  lemma {:induction false} EvictMentions(s: State, want: nat, freed: nat, target: nat, cap: nat, h: Hasher,
                                         keys: iset<nat>)
    requires Injective(h, keys) && Mentions(s, keys)
    ensures Mentions(Evict(s, want, freed, target, cap).state, keys)
    decreases Potential(s)
  {
    if !Stops(s, want, freed) {
      StepSpends(s, target, cap);
      StepHashes(s, target, cap, h, keys);
      var o := Step(s, target, cap);
      EvictMentions(o.state, want, freed + o.freed, target, cap, h, keys);
    }
  }

  // ----------------------------------------------- who is resident, under which id

  ghost predicate In(q: seq<Node>, key: nat, id: NodeId)
  {
    exists i :: 0 <= i < |q| && q[i].hash == key && q[i].id == id
  }

  ghost predicate Has(s: State, key: nat, id: NodeId)
  {
    In(s.small, key, id) || In(s.main, key, id)
  }

  lemma InParts(a: seq<Node>, b: seq<Node>, key: nat, id: NodeId)
    ensures In(a + b, key, id) <==> In(a, key, id) || In(b, key, id)
  {
    var all := a + b;
    if In(all, key, id) {
      var i :| 0 <= i < |all| && all[i].hash == key && all[i].id == id;
      assert i < |a| ==> a[i] == all[i];
      assert i >= |a| ==> b[i - |a|] == all[i];
    }
    if In(a, key, id) {
      var i :| 0 <= i < |a| && a[i].hash == key && a[i].id == id;
      assert all[i] == a[i];
    }
    if In(b, key, id) {
      var i :| 0 <= i < |b| && b[i].hash == key && b[i].id == id;
      assert all[|a| + i] == b[i];
    }
  }

  lemma InOne(n: Node, key: nat, id: NodeId)
    ensures In([n], key, id) <==> n.hash == key && n.id == id
  {
    assert [n][0] == n;
  }

  /** Who was resident is resident still, or a victim. */
  lemma StepPartitions(s: State, target: nat, cap: nat, key: nat, id: NodeId)
    requires s.small != [] || s.main != []
    ensures var o := Step(s, target, cap); Has(s, key, id) <==> Has(o.state, key, id) || In(o.victims, key, id)
  {
    if FromSmall(s, target) {
      var n := s.small[0];
      assert s.small == [n] + s.small[1..];
      InParts([n], s.small[1..], key, id);
      InParts(s.main, [n.(freq := 0)], key, id);
      InOne(n, key, id);
      InOne(n.(freq := 0), key, id);
    } else {
      var n := s.main[0];
      assert s.main == [n] + s.main[1..];
      InParts([n], s.main[1..], key, id);
      InOne(n, key, id);
      if n.freq > 0 {
        InParts(s.main[1..], [n.(freq := n.freq - 1)], key, id);
        InOne(n.(freq := n.freq - 1), key, id);
      }
    }
  }

  lemma {:induction false} EvictPartitions(s: State, want: nat, freed: nat, target: nat, cap: nat, key: nat, id: NodeId)
    ensures var o := Evict(s, want, freed, target, cap);
            Has(s, key, id) <==> Has(o.state, key, id) || In(o.victims, key, id)
    decreases Potential(s)
  {
    if !Stops(s, want, freed) {
      StepSpends(s, target, cap);
      StepPartitions(s, target, cap, key, id);
      var o := Step(s, target, cap);
      EvictPartitions(o.state, want, freed + o.freed, target, cap, key, id);
      InParts(o.victims, Evict(o.state, want, freed + o.freed, target, cap).victims, key, id);
    }
  }

  /** No id is both taken and kept. */
  ghost predicate Gone(s: State, id: NodeId)
  {
    forall key :: !Has(s, key, id)
  }

  lemma VictimsAreGone(s: State, target: nat, cap: nat, key: nat, id: NodeId)
    requires Proper(s) && (s.small != [] || s.main != []) && In(Step(s, target, cap).victims, key, id)
    ensures Gone(Step(s, target, cap).state, id)
  {
    var o := Step(s, target, cap);
    InOne(o.victims[0], key, id);
    assert o.victims == [o.victims[0]];
  }

  lemma {:induction false} GoneStaysGone(s: State, want: nat, freed: nat, target: nat, cap: nat, id: NodeId)
    requires Gone(s, id)
    ensures var o := Evict(s, want, freed, target, cap); Gone(o.state, id) && forall key :: !In(o.victims, key, id)
  {
    var o := Evict(s, want, freed, target, cap);
    forall key
      ensures !Has(o.state, key, id) && !In(o.victims, key, id)
    {
      EvictPartitions(s, want, freed, target, cap, key, id);
    }
  }

  lemma {:induction false} EvictedAreGone(s: State, want: nat, freed: nat, target: nat, cap: nat, key: nat, id: NodeId)
    requires Proper(s) && In(Evict(s, want, freed, target, cap).victims, key, id)
    ensures Gone(Evict(s, want, freed, target, cap).state, id)
    decreases Potential(s)
  {
    StepSpends(s, target, cap);
    var o := Step(s, target, cap);
    InParts(o.victims, Evict(o.state, want, freed + o.freed, target, cap).victims, key, id);
    if In(o.victims, key, id) {
      VictimsAreGone(s, target, cap, key, id);
      GoneStaysGone(o.state, want, freed + o.freed, target, cap, id);
    } else {
      StepKeepsProper(s, target, cap);
      EvictedAreGone(o.state, want, freed + o.freed, target, cap, key, id);
    }
  }

  // ---------------------------------------------------------- the shard's operations

  /** The policy and the table through which a shard finds a key's node. */
  datatype Shard = Shard(state: State, table: map<nat, NodeId>)

  datatype Acted = Acted(shard: Shard, victims: seq<Node>, freed: nat)

  function IdsOf(victims: seq<Node>): (ids: set<NodeId>)
  {
    set i | 0 <= i < |victims| :: victims[i].id
  }

  function ShardStep(r: Shard, op: Op, h: Hasher, target: nat, cap: nat): (a: Acted)
  {
    match op
    case Reading(key) => Acted(r.(state := if key in r.table then Touch(r.state, r.table[key]) else r.state), [], 0)
    case Storing(key, cost, id) =>
      Acted(if key in r.table then r.(state := Update(r.state, r.table[key], cost))
            else Shard(Admit(r.state, id, h(key), cost), r.table[key := id]), [], 0)
    case Removing(key) =>
      Acted(if key in r.table then Shard(Remove(r.state, r.table[key]), r.table - {key}) else r, [], 0)
    case Evicting(want) =>
      var o := Evict(r.state, want, 0, target, cap);
      Acted(Shard(o.state, map k | k in r.table && r.table[k] !in IdsOf(o.victims) :: r.table[k]), o.victims, o.freed)
    case Clearing => Acted(Shard(INIT, map[]), [], 0)
  }

  /** The table names the nodes, by key. */
  ghost predicate Tabled(table: map<nat, NodeId>, s: State)
  {
    forall key, id :: key in table && table[key] == id <==> Has(s, key, id)
  }

  ghost predicate Mirrors(r: Shard, s: State, h: Hasher)
  {
    r.state == Hashed(s, h) && Tabled(r.table, s)
  }

  lemma FoundIsHad(s: State, key: nat)
    requires Proper(s)
    ensures NodeIn(s, key) != [] ==> Has(s, key, NodeIn(s, key)[0])
    ensures forall id :: Has(s, key, id) ==> NodeIn(s, key) == [id]
  {
    forall id | Has(s, key, id)
      ensures NodeIn(s, key) == [id]
    {
      if NodeIn(s, key) != [] {
        FoundNames(s, key);
      }
    }
  }

  lemma TableFinds(r: Shard, s: State, h: Hasher, key: nat)
    requires Mirrors(r, s, h) && Proper(s)
    ensures key in r.table <==> NodeIn(s, key) != []
    ensures key in r.table ==> r.table[key] == NodeIn(s, key)[0]
  {
    FoundIsHad(s, key);
    if key in r.table {
      assert Has(s, key, r.table[key]);
    }
  }

  // Each operation: it commutes with hashing, and this is what it does to who is resident.

  lemma UpdatesHash(q: seq<Node>, id: NodeId, cost: nat, h: Hasher)
    ensures HashQueue(BumpNodes(q, id), h) == BumpNodes(HashQueue(q, h), id)
    ensures HashQueue(RecostNodes(q, id, cost), h) == RecostNodes(HashQueue(q, h), id, cost)
  {
  }

  lemma UpdatesKeep(q: seq<Node>, id: NodeId, cost: nat, k: nat, i: NodeId)
    ensures In(BumpNodes(q, id), k, i) <==> In(q, k, i)
    ensures In(RecostNodes(q, id, cost), k, i) <==> In(q, k, i)
  {
    var a, b := BumpNodes(q, id), RecostNodes(q, id, cost);
    assert forall j ::
          0 <= j < |q| ==> a[j].hash == q[j].hash && a[j].id == q[j].id && b[j].hash == q[j].hash && b[j].id == q[j].id;
    if In(q, k, i) {
      var j :| 0 <= j < |q| && q[j].hash == k && q[j].id == i;
      assert a[j].hash == k && b[j].hash == k;
    }
  }

  lemma {:induction false} DropHashes(q: seq<Node>, id: NodeId, h: Hasher)
    ensures HashQueue(DropNodes(q, id), h) == DropNodes(HashQueue(q, h), id)
  {
    if q != [] {
      HashParts(q, [], h);
      DropHashes(q[1..], id, h);
      if q[0].id != id {
        HashParts([q[0]], DropNodes(q[1..], id), h);
        assert HashQueue([q[0]], h) == [HashQueue(q, h)[0]];
      }
    }
  }

  lemma {:induction false} DropKeeps(q: seq<Node>, id: NodeId, k: nat, i: NodeId)
    ensures In(DropNodes(q, id), k, i) <==> In(q, k, i) && i != id
  {
    if q != [] {
      DropKeeps(q[1..], id, k, i);
      assert q == [q[0]] + q[1..];
      InParts([q[0]], q[1..], k, i);
      InOne(q[0], k, i);
      if q[0].id != id {
        InParts([q[0]], DropNodes(q[1..], id), k, i);
      }
    }
  }

  lemma {:induction false} DropMentions(q: seq<Node>, id: NodeId, keys: iset<nat>)
    requires forall i :: 0 <= i < |q| ==> q[i].hash in keys
    ensures forall i :: 0 <= i < |DropNodes(q, id)| ==> DropNodes(q, id)[i].hash in keys
  {
    if q != [] {
      DropMentions(q[1..], id, keys);
    }
  }

  lemma ReadMirrors(r: Shard, s: State, h: Hasher, keys: iset<nat>, id: NodeId, cost: nat)
    requires Mirrors(r, s, h) && Mentions(s, keys)
    ensures Mirrors(r.(state := Touch(r.state, id)), Touch(s, id), h) && Mentions(Touch(s, id), keys)
    ensures Mirrors(r.(state := Update(r.state, id, cost)), Update(s, id, cost), h)
    ensures Mentions(Update(s, id, cost), keys)
  {
    UpdatesHash(s.small, id, cost, h);
    UpdatesHash(s.main, id, cost, h);
    forall k, i
      ensures Has(Touch(s, id), k, i) <==> Has(s, k, i)
      ensures Has(Update(s, id, cost), k, i) <==> Has(s, k, i)
    {
      UpdatesKeep(s.small, id, cost, k, i);
      UpdatesKeep(s.main, id, cost, k, i);
    }
  }

  lemma RemoveMirrors(r: Shard, s: State, h: Hasher, keys: iset<nat>, key: nat)
    requires Mirrors(r, s, h) && Mentions(s, keys) && Proper(s) && key in r.table
    ensures var id := r.table[key];
            Mirrors(Shard(Remove(r.state, id), r.table - {key}), Remove(s, id), h) && Mentions(Remove(s, id), keys)
  {
    var id := r.table[key];
    DropHashes(s.small, id, h);
    DropHashes(s.main, id, h);
    DropMentions(s.small, id, keys);
    DropMentions(s.main, id, keys);
    var table := r.table - {key};
    forall k, i
      ensures k in table && table[k] == i <==> Has(Remove(s, id), k, i)
    {
      DropKeeps(s.small, id, k, i);
      DropKeeps(s.main, id, k, i);
      assert Has(s, key, id);
      if Has(s, k, i) && i == id {
        SameIdSameKey(s, k, key, id);
      }
    }
  }

  lemma SameIdSameKey(s: State, k: nat, key: nat, id: NodeId)
    requires Proper(s) && Has(s, k, id) && Has(s, key, id)
    ensures k == key
  {
  }

  lemma AdmitMirrors(r: Shard, s: State, h: Hasher, keys: iset<nat>, key: nat, cost: nat, id: NodeId)
    requires Mirrors(r, s, h) && Mentions(s, keys) && Injective(h, keys) && key in keys && key !in r.table
    ensures Mirrors(Shard(Admit(r.state, id, h(key), cost), r.table[key := id]), Admit(s, id, key, cost), h)
    ensures Mentions(Admit(s, id, key, cost), keys)
  {
    var n := Node(id, key, cost, 0);
    HashParts(s.small, [n], h);
    HashParts(s.main, [n], h);
    assert HashQueue([n], h) == [n.(hash := h(key))];
    ImageWithout(s.ghosts, key, h, keys);
    var s', table := Admit(s, id, key, cost), r.table[key := id];
    forall k, i
      ensures k in table && table[k] == i <==> Has(s', k, i)
    {
      InParts(s.small, [n], k, i);
      InParts(s.main, [n], k, i);
      InOne(n, k, i);
      assert k in r.table && r.table[k] == i <==> Has(s, k, i);
    }
  }

  lemma EvictMirrors(r: Shard, s: State, h: Hasher, keys: iset<nat>, want: nat, target: nat, cap: nat)
    requires Mirrors(r, s, h) && Mentions(s, keys) && Injective(h, keys) && Proper(s)
    ensures var a, o := ShardStep(r, Evicting(want), h, target, cap), Evict(s, want, 0, target, cap);
            && Mirrors(a.shard, o.state, h) && Mentions(o.state, keys) && a.victims == HashQueue(o.victims, h) &&
               a.freed == o.freed
  {
    EvictHashes(s, want, 0, target, cap, h, keys);
    EvictMentions(s, want, 0, target, cap, h, keys);
    var a, o := ShardStep(r, Evicting(want), h, target, cap), Evict(s, want, 0, target, cap);
    forall k, i
      ensures k in a.shard.table && a.shard.table[k] == i <==> Has(o.state, k, i)
    {
      EvictPartitions(s, want, 0, target, cap, k, i);
      assert k in r.table && r.table[k] == i <==> Has(s, k, i);
      VictimIds(o.victims, h, i);
      if i in IdsOf(a.victims) {
        var key :| In(o.victims, key, i);
        EvictedAreGone(s, want, 0, target, cap, key, i);
      }
    }
  }

  lemma VictimIds(victims: seq<Node>, h: Hasher, id: NodeId)
    ensures id in IdsOf(HashQueue(victims, h)) <==> exists key :: In(victims, key, id)
  {
    var r := HashQueue(victims, h);
    if id in IdsOf(r) {
      var i :| 0 <= i < |r| && r[i].id == id;
      assert In(victims, victims[i].hash, id);
    }
    if key :| In(victims, key, id) {
      var i :| 0 <= i < |victims| && victims[i].hash == key && victims[i].id == id;
      assert r[i].id == id;
    }
  }

  ghost predicate OpIn(op: Op, keys: iset<nat>)
  {
    match op
    case Reading(key) => key in keys
    case Storing(key, _, _) => key in keys
    case Removing(key) => key in keys
    case _ => true
  }

  lemma StepMirrors(r: Shard, s: State, op: Op, h: Hasher, keys: iset<nat>, target: nat, cap: nat)
    requires Mirrors(r, s, h) && Mentions(s, keys) && Injective(h, keys) && Proper(s) && OpIn(op, keys)
    ensures var a, o := ShardStep(r, op, h, target, cap), HandleStep(s, op, target, cap);
            && Mirrors(a.shard, o.state, h) && Mentions(o.state, keys) && a.victims == HashQueue(o.victims, h) &&
               a.freed == o.freed
  {
    match op
    case Reading(key) =>
      TableFinds(r, s, h, key);
      if key in r.table {
        ReadMirrors(r, s, h, keys, r.table[key], 0);
      }
    case Storing(key, cost, id) =>
      TableFinds(r, s, h, key);
      if key in r.table {
        ReadMirrors(r, s, h, keys, r.table[key], cost);
      } else {
        AdmitMirrors(r, s, h, keys, key, cost, id);
      }
    case Removing(key) =>
      TableFinds(r, s, h, key);
      if key in r.table {
        RemoveMirrors(r, s, h, keys, key);
      }
    case Evicting(want) => EvictMirrors(r, s, h, keys, want, target, cap);
    case Clearing =>
  }

  // ------------------------------------------------------------------- the runs

  /** A new key gets an id that no resident key has. */
  ghost predicate NewId(table: map<nat, NodeId>, op: Op)
  {
    op.Storing? && op.key !in table ==> forall k :: k in table ==> table[k] != op.id
  }

  ghost predicate AreRuns(ops: seq<Op>, shard: seq<Acted>, keyed: seq<Outcome>, h: Hasher, target: nat, cap: nat)
  {
    && |shard| == |keyed| == |ops| + 1 && shard[0] == Acted(Shard(INIT, map[]), [], 0) &&
       keyed[0] == Outcome(INIT, [], 0)
    && forall i :: 0 <= i < |ops| ==>
         && NewId(shard[i].shard.table, ops[i])
         && shard[i + 1] == ShardStep(shard[i].shard, ops[i], h, target, cap)
         && keyed[i + 1] == KeyedStep(keyed[i].state, ops[i], target, cap)
  }

  lemma NewIdIsFresh(r: Shard, s: State, h: Hasher, op: Op)
    requires Mirrors(r, s, h) && Proper(s) && NewId(r.table, op)
    ensures Fresh(s, op)
  {
    if op.Storing? && NodeIn(s, op.key) == [] {
      TableFinds(r, s, h, op.key);
      forall i | 0 <= i < |s.small|
        ensures s.small[i].id != op.id
      {
        assert In(s.small, s.small[i].hash, s.small[i].id);
        assert Has(s, s.small[i].hash, s.small[i].id);
      }
      forall i | 0 <= i < |s.main|
        ensures s.main[i].id != op.id
      {
        assert In(s.main, s.main[i].hash, s.main[i].id);
        assert Has(s, s.main[i].hash, s.main[i].id);
      }
    }
  }

  /** What the two have in common: the slab form's ids and the key-based form's keys. */
  ghost predicate Common(a: Acted, k: Outcome, o: Outcome, h: Hasher, keys: iset<nat>)
  {
    && Proper(o.state) && Mentions(o.state, keys) && Mirrors(a.shard, o.state, h) &&
       a.victims == HashQueue(o.victims, h) && a.freed == o.freed
    && SameOutcome(k, o)
  }

  lemma {:induction false} CommonOnEveryRun(ops: seq<Op>, shard: seq<Acted>, keyed: seq<Outcome>, h: Hasher,
                                            keys: iset<nat>, target: nat, cap: nat, n: nat)
    returns (o: Outcome)
    requires AreRuns(ops, shard, keyed, h, target, cap) && n <= |ops| && Injective(h, keys)
    requires forall i :: 0 <= i < |ops| ==> OpIn(ops[i], keys)
    ensures Common(shard[n], keyed[n], o, h, keys)
  {
    if n == 0 {
      o := Outcome(INIT, [], 0);
    } else {
      var before := CommonOnEveryRun(ops, shard, keyed, h, keys, target, cap, n - 1);
      var s, op := before.state, ops[n - 1];
      NewIdIsFresh(shard[n - 1].shard, s, h, op);
      StepMirrors(shard[n - 1].shard, s, op, h, keys, target, cap);
      StepsAgree(s, op, target, cap);
      o := HandleStep(s, op, target, cap);
    }
  }

  /** The same entries in the same order, one by hash and the other by key. */
  ghost predicate SameQueue(hashed: seq<Node>, keyed: seq<Node>, h: Hasher)
  {
    && |hashed| == |keyed|
    && forall i ::
         0 <= i < |keyed| ==>
               hashed[i].hash == h(keyed[i].hash) && hashed[i].cost == keyed[i].cost && hashed[i].freq == keyed[i].freq
  }

  /** While no two keys used share a hash: on every run of a shard the slab form and the key-based form hold the same
        entries in the same queues, remember the same ghosts in the same order, and name the same victims. */
  lemma TheFormsDecideAlikeByHash(ops: seq<Op>, shard: seq<Acted>, keyed: seq<Outcome>, h: Hasher, keys: iset<nat>,
                                  target: nat, cap: nat, n: nat)
    requires AreRuns(ops, shard, keyed, h, target, cap) && n <= |ops| && Injective(h, keys)
    requires forall i :: 0 <= i < |ops| ==> OpIn(ops[i], keys)
    ensures var s, k := shard[n].shard.state, keyed[n].state;
            && SameQueue(s.small, k.small, h) && SameQueue(s.main, k.main, h)
            && s.ghosts == Image(k.ghosts, h) && s.order == HashOrder(k.order, h)
    ensures SameQueue(shard[n].victims, keyed[n].victims, h) && shard[n].freed == keyed[n].freed
  {
    var o := CommonOnEveryRun(ops, shard, keyed, h, keys, target, cap, n);
  }

  /** And only while none do. Of any two keys of one hash, the first is evicted and remembered, and the second goes to
        the main queue in the slab form, to the small queue in the key-based one. */
  lemma ASharedHashTellsThemApart(h: Hasher, x: nat, y: nat, a: NodeId, b: NodeId, target: nat, cap: nat)
    requires x != y && h(x) == h(y)
    ensures var ops := [Storing(x, 1, a), Evicting(1), Storing(y, 1, b)];
            exists shard: seq<Acted>, keyed: seq<Outcome> ::
                  AreRuns(ops, shard, keyed, h, target, cap) && |shard[3].shard.state.main| == 1 &&
                      |keyed[3].state.small| == 1
  {
    var op1, op2, op3 := Storing(x, 1, a), Evicting(1), Storing(y, 1, b);
    var n1, k1 := Node(a, h(x), 1, 0), Node(IdOf(x), x, 1, 0);
    var s1, t1 := State([n1], [], {}, []), State([k1], [], {}, []);
    var s2, t2 := State([], [], {h(x)}, [h(x)]), State([], [], {x}, [x]);
    OneIsEvicted(s1, n1, target, cap);
    OneIsEvicted(t1, k1, target, cap);
    var r0, r1 := Acted(Shard(INIT, map[]), [], 0), ShardStep(Shard(INIT, map[]), op1, h, target, cap);
    var r2 := ShardStep(r1.shard, op2, h, target, cap);
    var r3 := ShardStep(r2.shard, op3, h, target, cap);
    var o0, o1 := Outcome(INIT, [], 0), KeyedStep(INIT, op1, target, cap);
    var o2 := KeyedStep(o1.state, op2, target, cap);
    var o3 := KeyedStep(o2.state, op3, target, cap);
    assert r1.shard.state == s1 && o1.state == t1;
    assert r2.shard.state == s2 && o2.state == t2;
    assert r2.shard.table == map[] by {
      assert r2.victims[0] == n1;
    }
    var shard, keyed := [r0, r1, r2, r3], [o0, o1, o2, o3];
    assert AreRuns([op1, op2, op3], shard, keyed, h, target, cap);
    assert |shard[3].shard.state.main| == 1 && |keyed[3].state.small| == 1;
  }

  lemma OneIsEvicted(s: State, n: Node, target: nat, cap: nat)
    requires n.cost == 1 && n.freq == 0 && s == State([n], [], {}, [])
    ensures Evict(s, 1, 0, target, cap) == Outcome(State([], [], {n.hash}, [n.hash]), [n], 1)
  {
    assert Cost([n]) == 1;
    var o := Step(s, target, cap);
    assert o == Outcome(State([], [], {n.hash}, [n.hash]), [n], 1);
    assert Evict(o.state, 1, 1, target, cap) == Outcome(o.state, [], 1);
    assert [n] + [] == [n];
  }
}
