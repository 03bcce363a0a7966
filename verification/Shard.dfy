/**
 One shard of the cache. Every method keeps `Valid`: table and policy in bijection,
 the running cost exact, and exactly one armed timer for each entry with a deadline.
 */
module Shards {
  import opened Options
  import opened Residents
  import opened Slabs
  import opened ReadRings
  import opened Builtins
  import opened ShardState
  import ShardModel
  import opened Expiry
  import opened Rearming

  datatype Removed<K, V> = Removed(key: K, entry: Entry<V>, limit: ExpiredBy)

  class ShardMap<K(==,!new), V> {
    var table: map<K, Entry<V>>
    var cost: nat
    var wheel: Wheel
    const hasher: K -> nat
    const budget: nat
    const builtin: Builtin
    const ring: ReadRing
    const graceNs: nat
    const ttiNs: nat
    ghost var owner: map<NodeId, K>
    ghost var ward: map<nat, K>

    ghost function Repr(): (r: set<object>)
    {
      {this, ring, ring.slots} + Parts(builtin)
    }

    ghost function Now(): (p: Parcel<K, V>)
      reads this
    {
      Parcel(table, cost, wheel, owner, ward)
    }

    /** The shard, its ring and its policy are different objects. */
    ghost predicate Apart()
    {
      this !in Parts(builtin) && ring !in Parts(builtin) && ring.slots !in Parts(builtin)
    }

    /** The policy and the ring are sound, whatever the table says. S3-FIFO logs no reads. */
    ghost predicate Parted()
      reads Repr()
    {
      Apart() && Ok(builtin) && ring.Valid() && (builtin.S3? ==> ring.pending == [])
    }

    /** The shard as one value. */
    ghost function Shown(): (s: ShardModel.Shelf<K, V>)
      reads Repr()
      requires Parted()
    {
      ShardModel.Shelf(table, wheel.issued, MindOf(builtin))
    }

    /** The reads logged and not yet applied. */
    ghost function Logged(): (ids: seq<NodeId>)
      reads ring
    {
      TinyLfu.Ids(ring.pending)
    }

    /** All of the invariant but that every timer is armed. */
    ghost predicate Consistent()
      reads Repr()
    {
      Parted() && Agrees(Now(), hasher, Held(builtin), {})
    }

    ghost predicate Valid()
      reads Repr()
    {
      Consistent() && OnTime(wheel, ward)
    }

    /** The cost is within budget, but for what eviction cannot reach. */
    ghost predicate Fits()
      reads Repr()
      requires Parted()
    {
      cost <= budget || cost == Policies.OutOfReach(MindOf(builtin))
    }

    constructor (hasher: K -> nat, budget: nat, builtin: Builtin, ring: ReadRing, graceNs: nat, ttiNs: nat)
      requires Ok(builtin) && Held(builtin) == map[] && ring.Valid() && ring.pending == []
      ensures Valid() && table == map[]
      ensures this.hasher == hasher && this.budget == budget && this.builtin == builtin && this.ring == ring
      ensures this.graceNs == graceNs && this.ttiNs == ttiNs
    {
      this.hasher, this.budget, this.builtin, this.ring := hasher, budget, builtin, ring;
      this.graceNs, this.ttiNs := graceNs, ttiNs;
      table, cost, wheel := map[], 0, Wheel(map[], 0);
      owner, ward := map[], map[];
      new;
      EmptyCosts<K, V>();
    }

    /** Applies the reads logged. */
    method ApplyLogged()
      requires Parted()
      modifies Repr() - {this}
      ensures Parted() && Held(builtin) == old(Held(builtin)) && |SlabOf(builtin).links| == old(|SlabOf(builtin).links|)
      ensures Shown() == ShardModel.Caught(old(Shown()), old(Logged())) && Logged() == []
    {
      ApplyReads(builtin, ring);
    }

    /** Takes an entry out of the table, off the wheel and off the cost. */
    method Take(key: K) returns (e: Entry<V>)
      requires key in table && cost >= table[key].cost && Parted()
      modifies this
      ensures e == old(table)[key] && Now() == Less(old(Now()), key)
      ensures Parted() && Held(builtin) == old(Held(builtin)) && MindOf(builtin) == old(MindOf(builtin))
    {
      e := table[key];
      table := table - {key};
      wheel := CancelIn(wheel, e.timer);
      cost := cost - e.cost;
      owner, ward := owner - {e.node}, WardWithout(ward, e.timer);
    }

    // What the policy is told, with the shard left as it is.

    method RemoveNode(id: NodeId)
      requires Parted()
      modifies Parts(builtin)
      ensures Parted() && Now() == old(Now()) && ring.pending == old(ring.pending)
      ensures Held(builtin) == old(Held(builtin)) - {id}
      ensures MindOf(builtin) == Policies.Decided(old(MindOf(builtin)), Policies.Remove(id)).mind
    {
      Remove(builtin, id);
    }

    method UpdateNode(id: NodeId, c: nat)
      requires Parted()
      modifies Parts(builtin)
      ensures Parted() && Now() == old(Now())
      ensures MindOf(builtin) == Policies.Decided(old(MindOf(builtin)), Policies.Update(id, c)).mind
      ensures Held(builtin) == if id in old(Held(builtin))
                               then old(Held(builtin))[id := Item(old(Held(builtin))[id].hash, c)]
else old(Held(builtin))
    {
      Update(builtin, id, c);
    }

    method EvictNodes(want: nat) returns (victims: seq<Victim>)
      requires Parted()
      modifies Parts(builtin)
      ensures Parted() && Now() == old(Now())
      ensures Named(old(Held(builtin)), victims) && Held(builtin) == old(Held(builtin)) - NodesOf(victims)
      ensures Policies.OutOfReach(MindOf(builtin)) == Policies.OutOfReach(old(MindOf(builtin)))
      ensures Freed(old(Held(builtin)), victims) >= want ||
              Weight(Held(builtin)) == Policies.OutOfReach(MindOf(builtin))
      ensures Tight(old(Held(builtin)), victims, want)
      ensures Policies.Ruling(MindOf(builtin), victims) == Policies.Decided(old(MindOf(builtin)), Policies.Evict(want))
    {
      victims := Evict(builtin, want);
    }

    /** Takes an entry out and tells the policy. */
    method Forget(key: K) returns (e: Entry<V>)
      requires Consistent() && key in table
      modifies this, Parts(builtin)
      ensures Consistent() && e == old(table)[key] && Now() == Less(old(Now()), key) && cost == old(cost) - e.cost
      ensures old(OnTime(wheel, ward)) ==> OnTime(wheel, ward)
      ensures Shown() == ShardModel.Removing(old(Shown()), key)
    {
      TakeKeeps(Now(), hasher, Held(builtin), {}, key);
      e := Take(key);
      RemoveNode(e.node);
    }

    /** The entry a victim names: the one of that hash with that node. */
    method TakeVictim(v: Victim, ghost m: Resident, ghost extra: set<nat>) returns (r: Option<K>)
      requires Parted() && Agrees(Now(), hasher, m, extra) && OnTime(wheel, ward)
      requires v.node in m && m[v.node].hash == v.hash
      modifies this
      ensures Parted() && Held(builtin) == old(Held(builtin)) && MindOf(builtin) == old(MindOf(builtin))
      ensures wheel.issued == old(wheel.issued)
      ensures Agrees(Now(), hasher, m - {v.node}, extra) && OnTime(wheel, ward)
      ensures r.Some? && r.value in old(table) && old(table)[r.value].node == v.node && table == old(table) - {r.value}
      ensures cost == old(cost) - m[v.node].cost
    {
      assert Mark(v.node) && Mark(owner[v.node]);
      if k :| k in table && hasher(k) == v.hash && table[k].node == v.node {
        TakeKeeps(Now(), hasher, m, extra, k);
        assert Mark(k);
        var e := Take(k);
        return Some(k);
      } else {
        return None;
      }
    }

    /** The first `i` victims are out, and what they cost, and nothing else of `was`. */
    ghost predicate Draining(was: Parcel<K, V>, m: Resident, extra: set<nat>, victims: seq<Victim>, i: nat)
      reads this
      requires i <= |victims|
    {
      && Named(m, victims[..i])
      && Agrees(Now(), hasher, m - NodesOf(victims[..i]), extra) && OnTime(wheel, ward)
      && cost == was.cost - Freed(m, victims[..i]) && wheel.issued == was.wheel.issued
      && table == ShardModel.Remaining(was.table, NodesOf(victims[..i]))
    }

    method TakeNext(ghost was: Parcel<K, V>, ghost m: Resident, ghost extra: set<nat>, victims: seq<Victim>, i: nat)
      requires Parted() && i < |victims| && Named(m, victims) && Draining(was, m, extra, victims, i)
      modifies this
      ensures Parted() && Held(builtin) == old(Held(builtin)) && MindOf(builtin) == old(MindOf(builtin))
      ensures Draining(was, m, extra, victims, i + 1)
    {
      ghost var left, p := m - NodesOf(victims[..i]), Now();
      VictimStep(m, left, victims, i);
      var r := TakeVictim(victims[i], left, extra);
      RemainingStep(was.table, p, hasher, left, extra, victims, i, r.value);
    }

    /** Drains the victims the policy named from `m`; each of them is found. */
    method TakeVictims(victims: seq<Victim>, ghost m: Resident, ghost extra: set<nat>)
      requires Parted() && Agrees(Now(), hasher, m, extra) && OnTime(wheel, ward)
      requires Named(m, victims) && Held(builtin) == m - NodesOf(victims)
      modifies this
      ensures Parted() && Held(builtin) == old(Held(builtin))
      ensures Agrees(Now(), hasher, Held(builtin), extra) && OnTime(wheel, ward)
      ensures cost == old(cost) - Freed(m, victims)
      ensures Shown() == old(Shown()).(table := ShardModel.Remaining(old(table), NodesOf(victims)))
    {
      ghost var was := Now();
      NoneTaken(was, m, victims);
      for i := 0 to |victims|
        invariant Parted() && Held(builtin) == old(Held(builtin)) && MindOf(builtin) == old(MindOf(builtin))
        invariant Draining(was, m, extra, victims, i)
      {
        TakeNext(was, m, extra, victims, i);
      }
      assert victims[..|victims|] == victims;
    }

    method Arm(hash: nat, entry: Entry<V>) returns (e: Entry<V>)
      requires Parted() && Agrees(Now(), hasher, Held(builtin), {}) && OnTime(wheel, ward)
      modifies this`wheel
      ensures Parted() && Held(builtin) == old(Held(builtin))
      ensures e == ShardModel.Armed(entry, hash, old(wheel.issued))
      ensures Shown() == old(Shown()).(issued := old(wheel.issued) + ShardModel.IssuedBy(entry))
      ensures e.timer.Some? ==> e.timer.value in wheel.armed && wheel.armed[e.timer.value] == hash
      ensures Agrees(Now(), hasher, Held(builtin), HandleOf(e.timer)) && OnTime(wheel, ward)
    {
      ArmKeeps(Now(), hasher, Held(builtin), hash);
      e := entry.(keyHash := hash, timer := None);
      if entry.expiresAt > 0 {
        e := e.(timer := Some(wheel.issued));
        Wind(hash);
      }
    }

    method Wind(hash: nat)
      requires Parted()
      modifies this`wheel
      ensures Parted() && Held(builtin) == old(Held(builtin)) && wheel == ArmIn(old(wheel), hash)
      ensures MindOf(builtin) == old(MindOf(builtin))
    {
      wheel := ArmIn(wheel, hash);
    }

    method Store(key: K, e: Entry<V>)
      requires Parted() && (key in table ==> cost >= table[key].cost)
      modifies this
      ensures Parted() && Held(builtin) == old(Held(builtin)) && Now() == More(old(Now()), key, e)
      ensures Shown() == old(Shown()).(table := old(table)[key := e])
    {
      owner := owner[e.node := key];
      ward := WardWith(WardWithout(ward, if key in table then table[key].timer else None), e.timer, key);
      if key in table {
        cost := cost - table[key].cost;
      }
      table := table[key := e];
      cost := cost + e.cost;
    }

    /** A resident key: its node is kept, its cost updated; the old entry's timer is left over. */
    method Replace(key: K, entry: Entry<V>)
      requires Parted() && key in table
      requires Agrees(Now(), hasher, Held(builtin), HandleOf(entry.timer)) && Ready(Now(), hasher, key, entry)
      modifies this, Parts(builtin)
      ensures Parted() && Agrees(Now(), hasher, Held(builtin), HandleOf(old(table)[key].timer)) && OnTime(wheel, ward)
      ensures Shown() == ShardModel.Placed(old(Shown()), key, entry)
    {
      var e := entry.(node := table[key].node);
      ReplaceKeeps(Now(), hasher, Held(builtin), key, e);
      UpdateNode(e.node, e.cost);
      Store(key, e);
    }

    /** The policy's part in an insert of a new key. */
    method AdmitEntry(entry: Entry<V>) returns (node: NodeId, victims: seq<Victim>)
      requires Parted() && SlabOf(builtin).HasRoom()
      modifies Parts(builtin)
      ensures Parted() && Now() == old(Now()) && node !in old(Held(builtin))
      ensures Policies.OutOfReach(MindOf(builtin)) <= WindowTarget(builtin)
      ensures var m := old(Held(builtin))[node := Item(entry.keyHash, entry.cost)];
              Named(m, victims) && Held(builtin) == m - NodesOf(victims)
      ensures Roomy(builtin, old(Weight(Held(builtin))) + entry.cost) ==> victims == []
      ensures node == Policies.IdNext(old(MindOf(builtin)))
      ensures Policies.Ruling(MindOf(builtin), victims) ==
              Policies.Decided(old(MindOf(builtin)), Policies.Admit(entry.keyHash, entry.cost))
    {
      node, victims := Admit(builtin, entry.keyHash, entry.cost);
    }

    /** A new key: the policy admits it and may name entries it rejects, this one among them. */
    method Enter(key: K, entry: Entry<V>) returns (node: NodeId, victims: seq<Victim>, ghost m: Resident)
      requires Parted() && key !in table && |table| < NIL
      requires Agrees(Now(), hasher, Held(builtin), HandleOf(entry.timer)) && Ready(Now(), hasher, key, entry)
      modifies this, Parts(builtin)
      ensures Parted() && Agrees(Now(), hasher, m, {}) && OnTime(wheel, ward)
      ensures Policies.OutOfReach(MindOf(builtin)) <= WindowTarget(builtin)
      ensures Named(m, victims) && Held(builtin) == m - NodesOf(victims)
      ensures (Roomy(builtin, old(cost) + entry.cost) ==> victims == [])
      ensures node == Policies.IdNext(old(MindOf(builtin)))
      ensures Policies.Ruling(MindOf(builtin), victims) ==
              Policies.Decided(old(MindOf(builtin)), Policies.Admit(entry.keyHash, entry.cost))
      ensures Shown() == ShardModel.Shelf(old(table)[key := entry.(node := node)], old(wheel.issued), MindOf(builtin))
    {
      SizesAgree(Now(), hasher, Held(builtin), HandleOf(entry.timer));
      RoomForOneMore(builtin);
      ghost var p := Now();
      m := Held(builtin);
      node, victims := AdmitEntry(entry);
      var e := entry.(node := node);
      PutFreshKeeps(p, hasher, m, key, e);
      m := m[node := Item(entry.keyHash, entry.cost)];
      Store(key, e);
    }

    /** Evicts down to the budget, or as far as the policy can. */
    method EvictExcess(ghost extra: set<nat>)
      requires Parted() && Agrees(Now(), hasher, Held(builtin), extra) && OnTime(wheel, ward)
      modifies this, Parts(builtin)
      ensures Parted() && Agrees(Now(), hasher, Held(builtin), extra) && OnTime(wheel, ward)
      ensures Within(table, old(table)) && NoneInVain(table, old(table), cost, budget)
      ensures Shown() == ShardModel.Trimmed(old(Shown()), budget)
      ensures Policies.OutOfReach(MindOf(builtin)) == Policies.OutOfReach(old(MindOf(builtin))) && Fits()
    {
      if cost > budget {
        EvictOver(extra);
      }
    }

    method EvictOver(ghost extra: set<nat>)
      requires Parted() && Agrees(Now(), hasher, Held(builtin), extra) && OnTime(wheel, ward) && cost > budget
      modifies this, Parts(builtin)
      ensures Parted() && Agrees(Now(), hasher, Held(builtin), extra) && OnTime(wheel, ward)
      ensures Within(table, old(table)) && NoneInVain(table, old(table), cost, budget)
      ensures Shown() == ShardModel.Trimmed(old(Shown()), budget)
      ensures Policies.OutOfReach(MindOf(builtin)) == Policies.OutOfReach(old(MindOf(builtin))) && Fits()
    {
      ghost var m, p, mind := Held(builtin), Now(), MindOf(builtin);
      var want := cost - budget;
      ghost var v := Expel(want, extra);
      Expelled(p, Now(), hasher, m, Held(builtin), extra, mind, want, v, budget);
    }

    /** Lets the policy evict the excess and takes the victims out. */
    method Expel(want: nat, ghost extra: set<nat>) returns (ghost v: Policies.Ruling)
      requires Parted() && Agrees(Now(), hasher, Held(builtin), extra) && OnTime(wheel, ward)
      modifies this, Parts(builtin)
      ensures Parted() && Agrees(Now(), hasher, Held(builtin), extra) && OnTime(wheel, ward)
      ensures v == Policies.Decided(old(MindOf(builtin)), Policies.Evict(want)) && v.mind == MindOf(builtin)
      ensures Named(old(Held(builtin)), v.out) && Tight(old(Held(builtin)), v.out, want)
      ensures cost == old(cost) - Freed(old(Held(builtin)), v.out)
      ensures table == ShardModel.Remaining(old(table), NodesOf(v.out)) && wheel.issued == old(wheel.issued)
      ensures Policies.OutOfReach(v.mind) == Policies.OutOfReach(old(MindOf(builtin)))
      ensures Freed(old(Held(builtin)), v.out) >= want || Weight(Held(builtin)) == Policies.OutOfReach(v.mind)
    {
      ghost var m := Held(builtin);
      var victims := EvictNodes(want);
      v := Policies.Ruling(MindOf(builtin), victims);
      TakeVictims(victims, m, extra);
    }

    /** The rest of an insert of a resident key. */
    method InsertOver(key: K, e: Entry<V>)
      requires Parted() && key in table
      requires Agrees(Now(), hasher, Held(builtin), HandleOf(e.timer)) && Ready(Now(), hasher, key, e)
      modifies this, Parts(builtin)
      ensures Valid() && Inserted(table, old(table), key, e) && NoneInVain(table, old(table)[key := e], cost, budget)
      ensures Fits() && Shown() == ShardModel.Trimmed(ShardModel.Placed(old(Shown()), key, e), budget)
    {
      var was := table[key];
      Replace(key, e);
      ghost var stored := table;
      EvictExcess(HandleOf(was.timer));
      Disarm(was);
      InsertedThen(old(table), key, e, e.(node := was.node), stored, table, cost, budget, true);
    }

    /** The rest of an insert of a new key. */
    method InsertNew(key: K, e: Entry<V>)
      requires Parted() && key !in table && |table| < NIL
      requires Agrees(Now(), hasher, Held(builtin), HandleOf(e.timer)) && Ready(Now(), hasher, key, e)
      modifies this, Parts(builtin)
      ensures Valid() && Inserted(table, old(table), key, e)
      ensures Roomy(builtin, old(cost) + e.cost) ==> NoneInVain(table, old(table)[key := e], cost, budget)
      ensures cost <= budget || cost <= WindowTarget(builtin)
      ensures Fits() && Shown() == ShardModel.Trimmed(ShardModel.Placed(old(Shown()), key, e), budget)
    {
      ghost var m;
      var node, victims;
      node, victims, m := Enter(key, e);
      TakeVictims(victims, m, {});
      StillEntered(old(table)[key := e.(node := node)], victims);
      ghost var stored := table;
      EvictExcess({});
      InsertedThen(old(table), key, e, e.(node := node), stored, table, cost, budget,
                   Roomy(builtin, old(cost) + e.cost));
    }

    // ----------------------------------------------------------------- reads

    method Use(key: K, now: nat)
      requires Valid() && key in table
      modifies this`table
      ensures Valid() && Shown() == ShardModel.Hit(old(Shown()), key, now, ttiNs) && Held(builtin) == old(Held(builtin))
      ensures table.Keys == old(table).Keys && table[key].node == old(table)[key].node
      ensures MindOf(builtin) == old(MindOf(builtin))
    {
      if ttiNs > 0 {
        UseKeeps(Now(), hasher, Held(builtin), key, now);
        table := table[key := table[key].(lastAccessed := now)];
      }
    }

    /** Logs the read of a node, or applies it after those logged when the ring is full or the policy logs none. */
    method LogRead(id: NodeId)
      requires Parted() && id.slot < NIL
      modifies Repr() - {this}
      ensures Parted() && Now() == old(Now()) && Held(builtin) == old(Held(builtin))
      ensures old(Valid()) ==> Valid()
      ensures ShardModel.Log(MindOf(builtin), Logged()) ==
              ShardModel.Logging(ShardModel.Log(old(MindOf(builtin)), old(Logged())), id)
    {
      var ok := false;
      if builtin.Tiny? {
        JoinSplit(Join(id), id);
        JoinSplit(NO_NODE, id);
        TinyLfu.IdsAppend(ring.pending, Join(id));
        ok := ring.Push(Join(id));
      }
      if !ok {
        ApplyLogged();
        ApplyRead(builtin, id);
      }
    }

    /** A hit. A miss changes nothing. */
    method ReadEntry(key: K, now: nat) returns (r: Option<Entry<V>>)
      requires Valid()
      modifies Repr()
      ensures Valid() && table.Keys == old(table).Keys && r == if key in table then Some(table[key]) else None
      ensures ShardModel.Lazy(Shown(), Logged()) ==
              ShardModel.LazyRead(ShardModel.Lazy(old(Shown()), old(Logged())), key, now, ttiNs)
    {
      if key !in table {
        return None;
      }
      OnHit(key, now);
      r := Some(table[key]);
    }

    method OnHit(key: K, now: nat)
      requires Valid() && key in table
      modifies Repr()
      ensures Valid() && table.Keys == old(table).Keys
      ensures Shown().(mind := old(MindOf(builtin))) == ShardModel.Hit(old(Shown()), key, now, ttiNs)
      ensures ShardModel.Log(MindOf(builtin), Logged()) ==
              ShardModel.Logging(ShardModel.Log(old(MindOf(builtin)), old(Logged())), old(table)[key].node)
    {
      NodeOf(key);
      Use(key, now);
      LogRead(table[key].node);
    }

    /** An entry's node is in a real slot. */
    lemma NodeOf(key: K)
      requires Valid() && key in table
      ensures table[key].node in Held(builtin) && table[key].node.slot < NIL
    {
      assert Mark(key);
    }

    /** Arms the entry and applies the reads. */
    method Prepare(key: K, entry: Entry<V>) returns (e: Entry<V>)
      requires Valid()
      modifies Repr()
      ensures Parted() && table == old(table) && cost == old(cost) && Logged() == []
      ensures Agrees(Now(), hasher, Held(builtin), HandleOf(e.timer)) && Ready(Now(), hasher, key, e)
      ensures e == ShardModel.Armed(entry, hasher(key), old(wheel.issued))
      ensures Shown() == ShardModel.Caught(old(Shown()), old(Logged()))
                         .(issued := old(wheel.issued) + ShardModel.IssuedBy(entry))
    {
      e := Arm(hasher(key), entry);
      ApplyLogged();
    }

    /** On return the cost is within budget, except for what TinyLFU's window holds beyond it;
        a fresh key leaves at most the window's target there. Whatever was evicted was in the way, unless
        TinyLFU's main queues had no room for all and the admission duel was lost. */
    method Insert(key: K, entry: Entry<V>) returns (r: Option<Entry<V>>)
      requires Valid() && |table| < NIL
      modifies Repr()
      ensures Valid()
      ensures r == if key in old(table) then Some(old(table)[key]) else None
      ensures Inserted(table, old(table), key, entry)
      ensures key in old(table) || Roomy(builtin, old(cost) + entry.cost) ==>
                NoneInVain(table, old(table)[key := entry], cost, budget)
      ensures Fits()
      ensures key !in old(table) && WindowTarget(builtin) <= budget ==> cost <= budget
      ensures Shown() ==
              ShardModel.Inserting(ShardModel.Caught(old(Shown()), old(Logged())), key, hasher(key), entry, budget)
      ensures Logged() == []
    {
      ghost var s := ShardModel.Caught(Shown(), Logged());
      var e := Prepare(key, entry);
      ShardModel.InsertingIs(s, Shown(), key, hasher(key), entry, e, budget);
      r := Put(key, e, entry);
    }

    /** An insert, with the entry armed and the reads applied. */
    method Put(key: K, e: Entry<V>, ghost entry: Entry<V>) returns (r: Option<Entry<V>>)
      requires Parted() && |table| < NIL && e == entry.(keyHash := e.keyHash, timer := e.timer)
      requires Agrees(Now(), hasher, Held(builtin), HandleOf(e.timer)) && Ready(Now(), hasher, key, e)
      modifies this, Parts(builtin)
      ensures Valid() && Inserted(table, old(table), key, entry) && Fits()
      ensures r == if key in old(table) then Some(old(table)[key]) else None
      ensures key in old(table) || Roomy(builtin, old(cost) + entry.cost) ==>
                NoneInVain(table, old(table)[key := entry], cost, budget)
      ensures key !in old(table) && WindowTarget(builtin) <= budget ==> cost <= budget
      ensures Shown() == ShardModel.Trimmed(ShardModel.Placed(old(Shown()), key, e), budget)
    {
      if key in table {
        r := Some(table[key]);
        InsertOver(key, e);
      } else {
        r := None;
        InsertNew(key, e);
      }
      SameInsert(table, old(table), key, entry, e, cost, budget);
    }

    method Disarm(e: Entry<V>)
      requires Parted() && Agrees(Now(), hasher, Held(builtin), HandleOf(e.timer)) && OnTime(wheel, ward)
      modifies this`wheel
      ensures Valid() && Held(builtin) == old(Held(builtin)) && Shown() == old(Shown())
    {
      CancelKeeps(Now(), hasher, Held(builtin), e.timer);
      wheel := CancelIn(wheel, e.timer);
    }

    method RemoveEntry(key: K) returns (r: Option<Entry<V>>)
      requires Valid()
      modifies Repr()
      ensures Valid() && table == old(table) - {key}
      ensures r == if key in old(table) then Some(old(table)[key]) else None
      ensures cost == old(cost) - (if r.Some? then r.value.cost else 0)
      ensures Shown() == ShardModel.Removing(ShardModel.Caught(old(Shown()), old(Logged())), key) && Logged() == []
    {
      ApplyLogged();
      if key in table {
        var e := Forget(key);
        r := Some(e);
      } else {
        r := None;
        assert table == old(table) - {key};
      }
    }

    /** Leaves the ring as it is; what it still holds names no node of the emptied policy. */
    method Clear()
      requires Valid()
      modifies Repr()
      ensures Valid() && table == map[] && cost == 0 && wheel.armed == map[]
      ensures Shown() == ShardModel.Emptied(old(Shown())) && Logged() == old(Logged())
    {
      Builtins.Clear(builtin);
      Empty();
    }

    method Empty()
      requires Parted() && Held(builtin) == map[]
      modifies this
      ensures Valid() && table == map[] && cost == 0 && wheel.armed == map[] && wheel.issued == old(wheel.issued)
      ensures MindOf(builtin) == old(MindOf(builtin)) && ring.pending == old(ring.pending)
    {
      EmptyCosts<K, V>();
      table, wheel, cost := map[], wheel.(armed := map[]), 0;
      owner, ward := map[], map[];
    }

    /** The first `i` entries of a snapshot are back, inserted one after the other into `s`. */
    ghost predicate PutBack(entries: seq<(K, Entry<V>)>, i: nat, s: ShardModel.Shelf<K, V>)
      reads Repr()
      requires i <= |entries|
    {
      && Valid() && |table| <= i && Restored(table, entries, i)
      && ShardModel.Caught(Shown(), Logged()) == ShardModel.InsertingAll(s, entries[..i], hasher, budget)
    }

    /** Puts back entry `i`. */
    method RestoreOne(entries: seq<(K, Entry<V>)>, i: nat, ghost s: ShardModel.Shelf<K, V>)
      requires i < |entries| < NIL && PutBack(entries, i, s)
      modifies Repr()
      ensures PutBack(entries, i + 1, s) && Fits() && Logged() == []
    {
      ShardModel.InsertingLast(s, entries, i, hasher, budget);
      ghost var before := table;
      var _ := Insert(entries[i].0, entries[i].1);
      OneMoreRestored(table, before, entries, i);
      assert ShardModel.Caught(Shown(), []) == Shown();
    }

    method RestoreAll(entries: seq<(K, Entry<V>)>, ghost s: ShardModel.Shelf<K, V>)
      requires |entries| < NIL && PutBack(entries, 0, s) && Fits()
      modifies Repr()
      ensures PutBack(entries, |entries|, s) && Fits()
      ensures entries != [] ==> Logged() == []
    {
      for i := 0 to |entries|
        invariant PutBack(entries, i, s) && Fits()
        invariant i > 0 ==> Logged() == []
      {
        RestoreOne(entries, i, s);
      }
    }

    /** Replaces the contents, as a snapshot restore does: what is resident is the last entry given for its key. */
    method ReplaceAll(entries: seq<(K, Entry<V>)>)
      requires Valid() && |entries| < NIL
      modifies Repr()
      ensures Valid() && Restored(table, entries, |entries|) && Fits()
      ensures ShardModel.Caught(Shown(), Logged()) ==
              ShardModel.InsertingAll(ShardModel.Emptied(old(Shown())), entries, hasher, budget)
      ensures entries != [] ==> Logged() == []
    {
      Policies.ReadsOfNobody(MindOf(builtin), Logged());
      Clear();
      RestoreAll(entries, Shown());
      assert entries[..|entries|] == entries;
    }

    // ---------------------------------------------------------------- expiry

    /** Amid a sweep: what went is reported, and the policy was told. */
    ghost predicate Amid(was: map<K, Entry<V>>, start: Parcel<K, V>, hash: nat, out: seq<Removed<K, V>>, now: nat,
                         m0: Policies.Mind)
      reads Repr()
    {
      && Consistent() && Sweeping(was, start, Now(), {hash}, out, now, graceNs, ttiNs)
      && (OnTime(start.wheel, start.ward) ==> OnTime(wheel, ward))
      && MindOf(builtin) == Policies.RemovedAll(m0, NodesIn(out))
    }

    /** Removes one entry of `hash` past a limit and reports it. */
    method RemoveOne(k: K, now: nat, out: seq<Removed<K, V>>, ghost was: map<K, Entry<V>>,
                     ghost start: Parcel<K, V>, ghost hash: nat, ghost m0: Policies.Mind)
      returns (out': seq<Removed<K, V>>)
      requires k in table && table[k].keyHash == hash && Limit(table[k], now, graceNs, ttiNs).Some?
      requires Amid(was, start, hash, out, now, m0)
      modifies this, Parts(builtin)
      ensures Amid(was, start, hash, out', now, m0) && |table| < |old(table)|
    {
      var r := Removed(k, table[k], Limit(table[k], now, graceNs, ttiNs).value);
      SweepOne(was, start, Now(), {hash}, out, now, graceNs, ttiNs, r);
      NodesInMore(out, r);
      var e := Forget(k);
      out' := out + [r];
    }

    /** Removes the entries of `hash` past a limit, adding them to the report. */
    method RemoveExpired(hash: nat, now: nat, out: seq<Removed<K, V>>,
                         ghost was: map<K, Entry<V>>, ghost m0: Policies.Mind) returns (out': seq<Removed<K, V>>)
      requires Consistent() && Within(table, was) && Reported(out, was, table, now, graceNs, ttiNs)
      requires MindOf(builtin) == Policies.RemovedAll(m0, NodesIn(out))
      modifies this, Parts(builtin)
      ensures Amid(was, old(Now()), hash, out', now, m0)
      ensures table == Spared(old(table), {hash}, now, graceNs, ttiNs)
    {
      out' := out;
      ghost var start := Now();
      SweepBegins(was, start, {hash}, out, now, graceNs, ttiNs);
      while exists k :: k in table && table[k].keyHash == hash && Limit(table[k], now, graceNs, ttiNs).Some?
        invariant Amid(was, start, hash, out', now, m0)
        decreases |table|
      {
        var k :| k in table && table[k].keyHash == hash && Limit(table[k], now, graceNs, ttiNs).Some?;
        out' := RemoveOne(k, now, out', was, start, hash, m0);
      }
      SweptAll(was, start, Now(), {hash}, out', now, graceNs, ttiNs);
    }

    /** Removes the entries under `hashes` still past a limit at `now`. */
    method RemoveExpiredHashes(hashes: seq<nat>, now: nat) returns (out: seq<Removed<K, V>>)
      requires Valid()
      modifies Repr()
      ensures Valid() && table == Spared(old(table), Elements(hashes), now, graceNs, ttiNs)
      ensures Reported(out, old(table), table, now, graceNs, ttiNs)
      ensures Shown() == ShardModel.RemovingAll(ShardModel.Caught(old(Shown()), old(Logged())), KeysIn(out))
      ensures Logged() == []
    {
      ApplyLogged();
      out := [];
      ghost var s := Shown();
      SparedNone(table, now, graceNs, ttiNs);
      for i := 0 to |hashes|
        invariant Valid() && table == Spared(old(table), Elements(hashes[..i]), now, graceNs, ttiNs)
        invariant Reported(out, old(table), table, now, graceNs, ttiNs) && wheel.issued == old(wheel.issued)
        invariant MindOf(builtin) == Policies.RemovedAll(s.mind, NodesIn(out)) && Logged() == []
      {
        out := RemoveExpired(hashes[i], now, out, old(table), s.mind);
        SparedMore(old(table), hashes, i, now, graceNs, ttiNs);
      }
      assert hashes[..|hashes|] == hashes;
      ReportedRemoves(s, out, table, now, graceNs, ttiNs);
    }

    method Tick(due: seq<nat>)
      requires Parted()
      modifies this`wheel
      ensures Parted() && Held(builtin) == old(Held(builtin)) && wheel == Advanced(old(wheel), due)
      ensures MindOf(builtin) == old(MindOf(builtin))
    {
      wheel := Advanced(wheel, due);
    }

    method SweepFired(now: nat, out: seq<Removed<K, V>>, ghost was: map<K, Entry<V>>, hash: nat,
                      ghost fired: seq<nat>, ghost m0: Policies.Mind) returns (out': seq<Removed<K, V>>)
      requires Consistent() && Within(table, was) && Reported(out, was, table, now, graceNs, ttiNs)
      requires Covered(wheel, ward, hasher, fired) && MindOf(builtin) == Policies.RemovedAll(m0, NodesIn(out))
      modifies this, Parts(builtin)
      ensures Consistent() && Covered(wheel, ward, hasher, fired)
      ensures table == Spared(old(table), {hash}, now, graceNs, ttiNs) && Within(table, was)
      ensures Reported(out', was, table, now, graceNs, ttiNs)
      ensures MindOf(builtin) == Policies.RemovedAll(m0, NodesIn(out'))
    {
      ghost var p := Now();
      out' := RemoveExpired(hash, now, out, was, m0);
      FewerWaiting(p.wheel, p.ward, wheel, ward, hasher, fired);
    }

    /** Arms one entry of `hash` again whose timer has fired, if there is one. */
    method Rearm(hash: nat, ghost fired: seq<nat>) returns (r: Option<K>)
      requires Consistent() && fired != [] && fired[0] == hash && Covered(wheel, ward, hasher, fired)
      modifies this
      ensures Consistent() && Covered(wheel, ward, hasher, fired[1..]) && MindOf(builtin) == old(MindOf(builtin))
      ensures r.None? ==> table == old(table)
      ensures r.Some? ==> r.value in old(table) && r.value in table && table == old(table)[r.value := table[r.value]]
      ensures r.Some? ==> table[r.value] == old(table)[r.value].(timer := table[r.value].timer)
    {
      if k :| k in table && table[k].keyHash == hash && table[k].timer.Some? && table[k].timer.value !in wheel.armed {
        ghost var h := table[k].timer.value;
        assert Mark(k);
        RearmKeeps(Now(), hasher, Held(builtin), k, h);
        RearmCovers(Now(), hasher, k, h, fired);
        Schedule(k, h);
        r := Some(k);
      } else {
        NobodyCovers(Now(), hasher, Held(builtin), fired);
        r := None;
      }
    }

    method Schedule(k: K, ghost h: nat)
      requires Parted() && k in table
      modifies this
      ensures Parted() && Held(builtin) == old(Held(builtin)) && Now() == Rearmed(old(Now()), k, h)
      ensures MindOf(builtin) == old(MindOf(builtin))
    {
      var handle := wheel.issued;
      wheel := ArmIn(wheel, table[k].keyHash);
      table := table[k := table[k].(timer := Some(handle))];
      ward := (ward - {h})[handle := k];
    }

    /** What one firing does: the hash's entries past a limit go, one that is waiting is armed again. */
    method FireOne(fired: seq<nat>, i: nat, now: nat, out: seq<Removed<K, V>>, ghost was: map<K, Entry<V>>,
                   ghost first: map<K, Entry<V>>, ghost m0: Policies.Mind)
      returns (out': seq<Removed<K, V>>, ghost was': map<K, Entry<V>>)
      requires Consistent() && i < |fired| && Covered(wheel, ward, hasher, fired[i..])
      requires Firing(first, was, table, fired[..i], out, now, graceNs, ttiNs)
      requires MindOf(builtin) == Policies.RemovedAll(m0, NodesIn(out))
      modifies this, Parts(builtin)
      ensures Consistent() && Covered(wheel, ward, hasher, fired[i + 1..])
      ensures Firing(first, was', table, fired[..i + 1], out', now, graceNs, ttiNs)
      ensures MindOf(builtin) == Policies.RemovedAll(m0, NodesIn(out'))
    {
      ghost var before := table;
      out' := SweepFired(now, out, was, fired[i], fired[i..], m0);
      FiringSwept(first, was, before, fired, i, out, now, graceNs, ttiNs, table, out');
      assert fired[i..][1..] == fired[i + 1..];
      ghost var swept := table;
      var k := Rearm(fired[i], fired[i..]);
      was' := was;
      if k.Some? {
        FiringRearmed(first, was, swept, fired[..i + 1], out', now, graceNs, ttiNs, k.value, table[k.value]);
        was' := was[k.value := table[k.value]];
      }
    }

    /** Lets the timers in `due` fire and removes the entries of their hashes that are past a limit.
        An entry whose timer fired early is armed again. */
    method ExpireDue(now: nat, due: seq<nat>) returns (out: seq<Removed<K, V>>, ghost was: map<K, Entry<V>>)
      requires Valid() && CanFire(wheel, due)
      modifies Repr()
      ensures Valid() && Firing(old(table), was, table, Fired(old(wheel), due), out, now, graceNs, ttiNs)
      ensures if Fired(old(wheel), due) == [] then MindOf(builtin) == old(MindOf(builtin)) && Logged() == old(Logged())
              else Logged() == [] &&
                   MindOf(builtin) ==
                   Policies.RemovedAll(Policies.ReadAll(old(MindOf(builtin)), old(Logged())), NodesIn(out))
    {
      AdvanceKeeps(Now(), hasher, Held(builtin), due);
      var fired := Fired(wheel, due);
      Tick(due);
      if fired == [] {
        out, was := [], table;
        SparedNone(table, now, graceNs, ttiNs);
        AllArmed(wheel, ward, hasher);
      } else {
        out, was := SweepDue(fired, now);
      }
    }

    method SweepDue(fired: seq<nat>, now: nat) returns (out: seq<Removed<K, V>>, ghost was: map<K, Entry<V>>)
      requires Consistent() && Covered(wheel, ward, hasher, fired)
      modifies Repr()
      ensures Valid() && Firing(old(table), was, table, fired, out, now, graceNs, ttiNs) && Logged() == []
      ensures MindOf(builtin) ==
              Policies.RemovedAll(Policies.ReadAll(old(MindOf(builtin)), old(Logged())), NodesIn(out))
    {
      ApplyLogged();
      out, was := FireAll(fired, now);
    }

    method FireAll(fired: seq<nat>, now: nat) returns (out: seq<Removed<K, V>>, ghost was: map<K, Entry<V>>)
      requires Consistent() && Covered(wheel, ward, hasher, fired)
      modifies this, Parts(builtin)
      ensures Valid() && Firing(old(table), was, table, fired, out, now, graceNs, ttiNs)
      ensures MindOf(builtin) == Policies.RemovedAll(old(MindOf(builtin)), NodesIn(out))
    {
      out, was := [], table;
      SparedNone(table, now, graceNs, ttiNs);
      assert fired[..0] == [] && fired[0..] == fired;
      for i := 0 to |fired|
        invariant Consistent() && Covered(wheel, ward, hasher, fired[i..])
        invariant Firing(old(table), was, table, fired[..i], out, now, graceNs, ttiNs)
        invariant MindOf(builtin) == Policies.RemovedAll(old(MindOf(builtin)), NodesIn(out))
      {
        out, was := FireOne(fired, i, now, out, was, old(table), old(MindOf(builtin)));
      }
      assert fired[..|fired|] == fired && fired[|fired|..] == [];
      AllArmed(wheel, ward, hasher);
    }

    /** Removes exactly the entries past a limit at `now`, whatever the wheel's position. */
    method ExpireAll(now: nat) returns (out: seq<Removed<K, V>>)
      requires Valid()
      modifies Repr()
      ensures Valid()
      ensures forall k :: k in table <==> k in old(table) && Limit(old(table)[k], now, graceNs, ttiNs) == None
      ensures Within(table, old(table)) && Reported(out, old(table), table, now, graceNs, ttiNs)
      ensures Shown() == ShardModel.RemovingAll(ShardModel.Caught(old(Shown()), old(Logged())), KeysIn(out))
      ensures Logged() == []
    {
      var hashes: seq<nat> := [];
      var keys := table.Keys;
      while keys != {}
        invariant keys <= table.Keys
        invariant forall k ::
                    k in table && k !in keys && Limit(table[k], now, graceNs, ttiNs).Some? ==>
                          table[k].keyHash in hashes
        decreases keys
      {
        var k :| k in keys;
        if Limit(table[k], now, graceNs, ttiNs).Some? {
          hashes := hashes + [table[k].keyHash];
        }
        keys := keys - {k};
      }
      out := RemoveExpiredHashes(hashes, now);
    }
  }

  /** Entries may have gone, none was changed. */
  ghost predicate Within<K, V>(table: map<K, Entry<V>>, was: map<K, Entry<V>>)
  {
    forall k :: k in table ==> k in was && table[k] == was[k]
  }

  /** `key` holds `entry`, with the shard's own bookkeeping; the other entries are as they were or gone. */
  ghost predicate Inserted<K, V>(table: map<K, Entry<V>>, was: map<K, Entry<V>>, key: K, entry: Entry<V>)
  {
    forall k :: k in table ==>
      if k == key
      then table[k] == entry.(keyHash := table[k].keyHash, node := table[k].node, timer := table[k].timer)
      else k in was && table[k] == was[k]
  }

  lemma RemainingStep<K(!new), V>(was: map<K, Entry<V>>, p: Parcel<K, V>, hasher: K -> nat, m: Resident,
                                  extra: set<nat>,
                                  victims: seq<Victim>, i: nat, k: K)
    requires Agrees(p, hasher, m, extra) && i < |victims| && p.table == ShardModel.Remaining(was, NodesOf(victims[..i]))
    requires k in p.table && p.table[k].node == victims[i].node
    ensures p.table - {k} == ShardModel.Remaining(was, NodesOf(victims[..i + 1]))
  {
    assert victims[..i + 1] == victims[..i] + [victims[i]];
    NodesOfAppend(victims[..i], victims[i]);
    assert Mark(k);
    forall j | j in p.table && j != k
      ensures p.table[j].node != p.table[k].node
    {
      assert Mark(j);
    }
  }

  lemma NoneTaken<K, V>(was: Parcel<K, V>, m: Resident, victims: seq<Victim>)
    ensures var none := NodesOf(victims[..0]); m - none == m && ShardModel.Remaining(was.table, none) == was.table
  {
  }

  /** If entries went, one of them would not have fitted back under the budget. */
  ghost predicate NoneInVain<K, V>(table: map<K, Entry<V>>, was: map<K, Entry<V>>, cost: nat, budget: nat)
  {
    table.Keys == was.Keys || exists k :: k in was && k !in table && cost + was[k].cost > budget
  }

  /** What admission left of `was`: with room for all, the whole of it. */
  ghost predicate Entered<K, V>(table: map<K, Entry<V>>, was: map<K, Entry<V>>, all: bool)
  {
    Within(table, was) && (all ==> table.Keys == was.Keys)
  }

  lemma StillEntered<K, V>(was: map<K, Entry<V>>, victims: seq<Victim>)
    ensures Entered(ShardModel.Remaining(was, NodesOf(victims)), was, victims == [])
  {
  }

  /** The entry as stored, then what eviction left. */
  lemma InsertedThen<K, V>(was: map<K, Entry<V>>, key: K, entry: Entry<V>, e: Entry<V>, stored: map<K, Entry<V>>,
                           table: map<K, Entry<V>>,
                           cost: nat, budget: nat, all: bool)
    requires e == entry.(keyHash := e.keyHash, node := e.node, timer := e.timer)
    requires Entered(stored, was[key := e], all) && Within(table, stored) && NoneInVain(table, stored, cost, budget)
    ensures Inserted(table, was, key, entry) && (all ==> NoneInVain(table, was[key := entry], cost, budget))
  {
    if all && table.Keys != stored.Keys {
      var k :| k in stored && k !in table && cost + stored[k].cost > budget;
      assert k in was[key := entry] && k !in table && cost + was[key := entry][k].cost > budget;
    }
  }

  /** Arming the entry does not change what was inserted. */
  lemma SameInsert<K, V>(table: map<K, Entry<V>>, was: map<K, Entry<V>>, key: K, entry: Entry<V>, e: Entry<V>,
                         cost: nat, budget: nat)
    requires e == entry.(keyHash := e.keyHash, timer := e.timer)
    ensures Inserted(table, was, key, e) ==> Inserted(table, was, key, entry)
    ensures NoneInVain(table, was[key := e], cost, budget) ==> NoneInVain(table, was[key := entry], cost, budget)
  {
    if NoneInVain(table, was[key := e], cost, budget) && table.Keys != was[key := e].Keys {
      var k :| k in was[key := e] && k !in table && cost + was[key := e][k].cost > budget;
      assert k in was[key := entry] && k !in table && cost + was[key := entry][k].cost > budget;
    }
  }

  lemma LastInVain<K(!new), V>(p: Parcel<K, V>, hasher: K -> nat, m: Resident, extra: set<nat>, victims: seq<Victim>,
                               cost: nat, budget: nat)
    requires Agrees(p, hasher, m, extra) && Named(m, victims) && p.cost > budget && Tight(m, victims, p.cost - budget)
    requires cost == p.cost - Freed(m, victims)
    ensures NoneInVain(ShardModel.Remaining(p.table, NodesOf(victims)), p.table, cost, budget)
  {
    var table := ShardModel.Remaining(p.table, NodesOf(victims));
    if victims == [] {
      assert table.Keys == p.table.Keys;
    } else {
      var v := victims[|victims| - 1];
      assert Mark(v.node) && Mark(p.owner[v.node]);
      var k := p.owner[v.node];
      assert v.node in NodesOf(victims);
      assert k in p.table && k !in table && cost + p.table[k].cost > budget;
    }
  }

  /** What an eviction of the excess has done. */
  lemma Expelled<K(!new), V>(p: Parcel<K, V>, r: Parcel<K, V>, hasher: K -> nat, m: Resident, held: Resident,
                             extra: set<nat>, mind: Policies.Mind, want: nat, v: Policies.Ruling,
                             budget: nat)
    requires Agrees(p, hasher, m, extra) && Agrees(r, hasher, held, extra) && p.cost > budget && want == p.cost - budget
    requires Named(m, v.out) && Tight(m, v.out, want) && r.cost == p.cost - Freed(m, v.out)
    requires v == Policies.Decided(mind, Policies.Evict(want))
    requires r.table == ShardModel.Remaining(p.table, NodesOf(v.out))
    requires Freed(m, v.out) >= want || Weight(held) == Policies.OutOfReach(v.mind)
    ensures Within(r.table, p.table) && NoneInVain(r.table, p.table, r.cost, budget)
    ensures r.cost <= budget || r.cost == Policies.OutOfReach(v.mind)
    ensures ShardModel.Trimmed(ShardModel.Shelf(p.table, p.wheel.issued, mind), budget) ==
            ShardModel.Shelf(r.table, p.wheel.issued, v.mind)
  {
    LastInVain(p, hasher, m, extra, v.out, r.cost, budget);
    ShardModel.TrimmedIs(ShardModel.Shelf(p.table, p.wheel.issued, mind), budget, v);
  }

  lemma VictimStep(m: Resident, left: Resident, victims: seq<Victim>, i: nat)
    requires Named(m, victims) && i < |victims| && Named(m, victims[..i]) && left == m - NodesOf(victims[..i])
    ensures var v := victims[i];
            && v.node in left && left[v.node] == m[v.node] && left[v.node].hash == v.hash
            && Named(m, victims[..i + 1]) && left - {v.node} == m - NodesOf(victims[..i + 1])
            && Freed(m, victims[..i + 1]) == Freed(m, victims[..i]) + left[v.node].cost
  {
    assert victims[..i + 1] == victims[..i] + [victims[i]];
    assert victims[i].node !in NodesOf(victims[..i]);
    NameOneMore(m, left, victims[..i], victims[i]);
  }

  ghost function KeysIn<K, V>(out: seq<Removed<K, V>>): (keys: seq<K>)
  {
    seq(|out|, i requires 0 <= i < |out| => out[i].key)
  }

  ghost function NodesIn<K, V>(out: seq<Removed<K, V>>): (ids: seq<NodeId>)
  {
    seq(|out|, i requires 0 <= i < |out| => out[i].entry.node)
  }

  lemma NodesInMore<K, V>(out: seq<Removed<K, V>>, r: Removed<K, V>)
    ensures var ids := NodesIn(out + [r]); ids[..|ids| - 1] == NodesIn(out) && ids[|ids| - 1] == r.entry.node
  {
  }

  /** What was reported is what was removed, one after the other. */
  lemma ReportedRemoves<K(!new), V>(s: ShardModel.Shelf<K, V>, out: seq<Removed<K, V>>, table: map<K, Entry<V>>,
                                    now: nat, grace: nat, tti: nat)
    requires Reported(out, s.table, table, now, grace, tti) && Within(table, s.table)
    ensures ShardModel.RemovingAll(s, KeysIn(out)) ==
            s.(table := table, mind := Policies.RemovedAll(s.mind, NodesIn(out)))
  {
    var keys := KeysIn(out);
    ShardModel.RemovingThem(s, keys, NodesIn(out));
    forall k | k in s.table
      ensures k in table <==> k !in ShardModel.KeysOf(keys)
    {
      if k !in table {
        var i :| 0 <= i < |out| && out[i].key == k;
        assert keys[i] == k;
      }
    }
    assert s.table - ShardModel.KeysOf(keys) == table;
  }

  /** `out` reports each entry of `was` that is not in `table`, once, with the limit it was past. */
  ghost predicate Reported<K(!new), V>(out: seq<Removed<K, V>>, was: map<K, Entry<V>>, table: map<K, Entry<V>>,
                                       now: nat, grace: nat, tti: nat)
  {
    && (forall i :: 0 <= i < |out| ==>
          && out[i].key in was && out[i].key !in table && out[i].entry == was[out[i].key]
          && Limit(out[i].entry, now, grace, tti) == Some(out[i].limit))
    && (forall i, j :: 0 <= i < j < |out| ==> out[i].key != out[j].key)
    && (forall k :: k in was && k !in table ==> exists i :: 0 <= i < |out| && out[i].key == k)
  }

  lemma ReportOneMore<K(!new), V>(out: seq<Removed<K, V>>, was: map<K, Entry<V>>, table: map<K, Entry<V>>, now: nat,
                                  grace: nat, tti: nat, r: Removed<K, V>)
    requires Reported(out, was, table, now, grace, tti) && Within(table, was)
    requires r.key in table && r.entry == table[r.key] && Limit(r.entry, now, grace, tti) == Some(r.limit)
    ensures Reported(out + [r], was, table - {r.key}, now, grace, tti)
  {
    var all := out + [r];
    forall k | k in was && k !in table - {r.key}
      ensures exists i :: 0 <= i < |all| && all[i].key == k
    {
      if k == r.key {
        assert all[|out|].key == k;
      } else {
        var i :| 0 <= i < |out| && out[i].key == k;
        assert all[i].key == k;
      }
    }
  }

  /** Past a limit at `now`, under one of `hashes`. */
  predicate Due<V>(e: Entry<V>, hashes: set<nat>, now: nat, grace: nat, tti: nat)
  {
    e.keyHash in hashes && Limit(e, now, grace, tti).Some?
  }

  /** The entries a sweep of `hashes` leaves. */
  ghost function Spared<K, V>(table: map<K, Entry<V>>, hashes: set<nat>, now: nat, grace: nat,
                              tti: nat): (r: map<K, Entry<V>>)
  {
    map k | k in table && !Due(table[k], hashes, now, grace, tti) :: table[k]
  }

  /** Only entries due have gone since `start`, and all that went since `was` are reported. */
  ghost predicate Sweeping<K(!new), V>(was: map<K, Entry<V>>, start: Parcel<K, V>, p: Parcel<K, V>, hashes: set<nat>,
                                       out: seq<Removed<K, V>>, now: nat, grace: nat, tti: nat)
  {
    && Within(p.table, start.table) && Within(p.table, was)
    && Reported(out, was, p.table, now, grace, tti)
    && (forall k :: k in start.table && k !in p.table ==> Due(start.table[k], hashes, now, grace, tti))
    && WaitLess(p.wheel, p.ward, start.wheel, start.ward)
  }

  lemma SweepBegins<K(!new), V>(was: map<K, Entry<V>>, p: Parcel<K, V>, hashes: set<nat>, out: seq<Removed<K, V>>,
                                now: nat, grace: nat, tti: nat)
    requires Within(p.table, was) && Reported(out, was, p.table, now, grace, tti)
    ensures Sweeping(was, p, p, hashes, out, now, grace, tti)
  {
  }

  lemma SweepOne<K(!new), V>(was: map<K, Entry<V>>, start: Parcel<K, V>, p: Parcel<K, V>, hashes: set<nat>,
                             out: seq<Removed<K, V>>,
                             now: nat, grace: nat, tti: nat, r: Removed<K, V>)
    requires Sweeping(was, start, p, hashes, out, now, grace, tti)
    requires r.key in p.table && r.entry == p.table[r.key] && r.entry.keyHash in hashes
    requires Limit(r.entry, now, grace, tti) == Some(r.limit)
    ensures Sweeping(was, start, Less(p, r.key), hashes, out + [r], now, grace, tti)
    ensures |Less(p, r.key).table| < |p.table|
  {
    ReportOneMore(out, was, p.table, now, grace, tti, r);
    SmallerTable(p.table, r.key);
  }

  lemma SweptAll<K(!new), V>(was: map<K, Entry<V>>, start: Parcel<K, V>, p: Parcel<K, V>, hashes: set<nat>,
                             out: seq<Removed<K, V>>,
                             now: nat, grace: nat, tti: nat)
    requires Sweeping(was, start, p, hashes, out, now, grace, tti)
    requires forall k :: k in p.table ==> !Due(p.table[k], hashes, now, grace, tti)
    ensures p.table == Spared(start.table, hashes, now, grace, tti)
  {
  }

  ghost function Elements(s: seq<nat>): (r: set<nat>)
  {
    set x | x in s
  }

  lemma SparedNone<K, V>(table: map<K, Entry<V>>, now: nat, grace: nat, tti: nat)
    ensures Spared(table, Elements([]), now, grace, tti) == table
  {
  }

  lemma SparedMore<K, V>(table: map<K, Entry<V>>, hashes: seq<nat>, i: nat, now: nat, grace: nat, tti: nat)
    requires i < |hashes|
    ensures Spared(Spared(table, Elements(hashes[..i]), now, grace, tti), {hashes[i]}, now, grace, tti)
            == Spared(table, Elements(hashes[..i + 1]), now, grace, tti)
  {
    assert hashes[..i + 1] == hashes[..i] + [hashes[i]];
    assert Elements(hashes[..i + 1]) == Elements(hashes[..i]) + {hashes[i]};
  }

  /** The same entries but for their timers. */
  ghost predicate Echoes<K, V>(table: map<K, Entry<V>>, was: map<K, Entry<V>>)
  {
    forall k :: k in table ==> k in was && table[k] == was[k].(timer := table[k].timer)
  }

  /** Of the entries in `first`, those of a fired hash past a limit have gone and are reported; the rest
      are there, some with a new timer. `was` is `first` with those timers. */
  ghost predicate Firing<K(!new), V>(first: map<K, Entry<V>>, was: map<K, Entry<V>>, table: map<K, Entry<V>>,
                                     fired: seq<nat>,
                                     out: seq<Removed<K, V>>, now: nat, grace: nat, tti: nat)
  {
    && Echoes(was, first) && was.Keys == first.Keys
    && Within(table, was) && Reported(out, was, table, now, grace, tti)
    && table.Keys == Spared(first, Elements(fired), now, grace, tti).Keys
  }

  lemma FiringSwept<K(!new), V>(first: map<K, Entry<V>>, was: map<K, Entry<V>>, before: map<K, Entry<V>>,
                                fired: seq<nat>, i: nat,
                                out: seq<Removed<K, V>>, now: nat, grace: nat, tti: nat, swept: map<K, Entry<V>>,
                                    out': seq<Removed<K, V>>)
    requires i < |fired| && Firing(first, was, before, fired[..i], out, now, grace, tti)
    requires swept == Spared(before, {fired[i]}, now, grace, tti) && Within(swept, was)
    requires Reported(out', was, swept, now, grace, tti)
    ensures Firing(first, was, swept, fired[..i + 1], out', now, grace, tti)
  {
    KeysSpared(first, was, before, fired, i, now, grace, tti);
  }

  lemma KeysSpared<K, V>(first: map<K, Entry<V>>, was: map<K, Entry<V>>, before: map<K, Entry<V>>, fired: seq<nat>,
                         i: nat, now: nat, grace: nat, tti: nat)
    requires i < |fired| && Echoes(was, first) && Within(before, was)
    requires before.Keys == Spared(first, Elements(fired[..i]), now, grace, tti).Keys
    ensures Spared(before, {fired[i]}, now, grace, tti).Keys ==
            Spared(first, Elements(fired[..i + 1]), now, grace, tti).Keys
  {
    SparedMore(first, fired, i, now, grace, tti);
  }

  lemma FiringRearmed<K(!new), V>(first: map<K, Entry<V>>, was: map<K, Entry<V>>, table: map<K, Entry<V>>,
                                  fired: seq<nat>,
                                  out: seq<Removed<K, V>>, now: nat, grace: nat, tti: nat, k: K, e: Entry<V>)
    requires Firing(first, was, table, fired, out, now, grace, tti)
    requires k in table && e == table[k].(timer := e.timer)
    ensures Firing(first, was[k := e], table[k := e], fired, out, now, grace, tti)
  {
  }

  /** `entries[j]` is the last of the first `n` for its key. */
  ghost predicate LastFor<K, V>(entries: seq<(K, Entry<V>)>, n: nat, j: nat)
  {
    j < n <= |entries| && forall i :: j < i < n ==> entries[i].0 != entries[j].0
  }

  ghost predicate Restored<K, V>(table: map<K, Entry<V>>, entries: seq<(K, Entry<V>)>, n: nat)
  {
    forall k :: k in table ==> exists j: nat ::
      LastFor(entries, n, j) && entries[j].0 == k &&
          table[k] == entries[j].1.(keyHash := table[k].keyHash, node := table[k].node, timer := table[k].timer)
  }

  lemma OneMoreRestored<K, V>(table: map<K, Entry<V>>, was: map<K, Entry<V>>, entries: seq<(K, Entry<V>)>, i: nat)
    requires i < |entries| && Restored(was, entries, i) && Inserted(table, was, entries[i].0, entries[i].1)
    ensures Restored(table, entries, i + 1) && |table| <= |was| + 1
  {
    OneMoreKey(table, was, entries[i].0, entries[i].1);
    assert LastFor(entries, i + 1, i);
    forall k | k in table && k != entries[i].0
      ensures exists j: nat :: LastFor(entries, i + 1, j) && entries[j].0 == k
                && table[k] ==
                   entries[j].1.(keyHash := table[k].keyHash, node := table[k].node, timer := table[k].timer)
    {
      var j: nat :| LastFor(entries, i, j) && entries[j].0 == k &&
          was[k] == entries[j].1.(keyHash := was[k].keyHash, node := was[k].node, timer := was[k].timer);
      assert LastFor(entries, i + 1, j);
    }
  }

  lemma OneMoreKey<K, V>(table: map<K, Entry<V>>, was: map<K, Entry<V>>, key: K, entry: Entry<V>)
    requires Inserted(table, was, key, entry)
    ensures |table| <= |was| + 1
  {
    forall k | k in table.Keys
      ensures k in was.Keys + {key}
    {
    }
    AtMostOneMore(table.Keys, was.Keys, key);
    assert |table| == |table.Keys| && |was| == |was.Keys|;
  }

  lemma AtMostOneMore<K>(keys: set<K>, was: set<K>, key: K)
    requires keys <= was + {key}
    ensures |keys| <= |was| + 1
  {
    assert keys - {key} <= was;
    assert was == (keys - {key}) + (was - (keys - {key}));
  }

  lemma SmallerTable<K, V>(table: map<K, Entry<V>>, k: K)
    requires k in table
    ensures |table - {k}| < |table|
  {
    assert (table - {k}).Keys == table.Keys - {k} && |table - {k}| == |(table - {k}).Keys|;
  }

  /** The entries left have the handles they had, armed or not as they were. */
  ghost predicate WaitLess<K>(w: Wheel, ward: map<nat, K>, was: Wheel, wasWard: map<nat, K>)
  {
    w.issued == was.issued &&
    forall h: nat :: h in ward ==> h in wasWard && ward[h] == wasWard[h] && (h in w.armed <==> h in was.armed)
  }

  lemma EmptyCosts<K(!new), V>()
    ensures TableCost<K, V>(map[]) == 0 && Weight(map[]) == 0
  {
    assert EntryCosts<K, V>(map[]) == map[];
    assert CostsOf(map[]) == map[];
  }
}
