/**
 What a shard's parts owe each other: its table and its policy's nodes, its table and
 its timers, and its running cost.
 */
module ShardState {
  import opened Options
  import opened Residents
  import opened Sums
  import opened Builtins

  /** Times are nanoseconds since the cache epoch; `expiresAt` is 0 without a TTL. */
  datatype Entry<V> = Entry(value: V, cost: nat, expiresAt: nat, lastAccessed: nat, keyHash: nat, node: NodeId,
                            timer: Option<nat>)

  /** The timer wheel: the armed handles with the hash each fires for, and how many were issued. */
  datatype Wheel = Wheel(armed: map<nat, nat>, issued: nat)

  // The quantifiers below are instantiated at what a proof marks.

  predicate Mark<T>(x: T) { true }

  /** Table entries and policy nodes are in bijection, with equal hash and cost. */
  ghost predicate Mirrored<K(!new), V>(table: map<K, Entry<V>>, hasher: K -> nat, m: Resident, owner: map<NodeId, K>)
  {
    && owner.Keys == m.Keys
    && (forall k {:trigger Mark(k)} :: Mark(k) && k in table ==>
          && table[k].keyHash == hasher(k)
          && table[k].node in m && m[table[k].node] == Item(hasher(k), table[k].cost)
          && owner[table[k].node] == k)
    && (forall id {:trigger Mark(id)} :: Mark(id) && id in m ==> owner[id] in table && table[owner[id]].node == id)
  }

  /** `ward` names the entry of each handle held; every armed handle is one of those, or in `extra`. */
  ghost predicate Timed<K(!new), V>(table: map<K, Entry<V>>, hasher: K -> nat, w: Wheel, ward: map<nat, K>,
                                    extra: set<nat>)
  {
    && (forall k {:trigger Mark(k)} :: Mark(k) && k in table ==>
          && (table[k].timer.Some? <==> table[k].expiresAt > 0)
          && (table[k].timer.Some? ==> table[k].timer.value in ward && ward[table[k].timer.value] == k))
    && (forall h: nat {:trigger Mark(h)} :: Mark(h) && h in ward ==>
          && h < w.issued && h !in extra && ward[h] in table && table[ward[h]].timer == Some(h)
          && (h in w.armed ==> w.armed[h] == hasher(ward[h])))
    && (forall h: nat {:trigger Mark(h)} :: Mark(h) && h in w.armed ==> h < w.issued && (h in ward || h in extra))
  }

  ghost predicate OnTime<K>(w: Wheel, ward: map<nat, K>)
  {
    forall h: nat {:trigger Mark(h)} :: Mark(h) && h in ward ==> h in w.armed
  }

  ghost function EntryCosts<K, V>(table: map<K, Entry<V>>): (c: map<K, nat>)
  {
    map k | k in table :: table[k].cost
  }

  ghost function TableCost<K(!new), V>(table: map<K, Entry<V>>): (c: nat)
  {
    Sum(EntryCosts(table))
  }

  // ------------------------------------------------------------ one entry out

  function CancelIn(w: Wheel, timer: Option<nat>): (r: Wheel)
  {
    if timer.Some? then w.(armed := w.armed - {timer.value}) else w
  }

  ghost function WardWithout<K>(ward: map<nat, K>, timer: Option<nat>): (r: map<nat, K>)
  {
    if timer.Some? then ward - {timer.value} else ward
  }

  lemma TakeMirrored<K(!new), V>(table: map<K, Entry<V>>, hasher: K -> nat, m: Resident, owner: map<NodeId, K>, k: K)
    requires Mirrored(table, hasher, m, owner) && k in table
    ensures var id := table[k].node; Mirrored(table - {k}, hasher, m - {id}, owner - {id})
  {
    assert Mark(k) && Mark(table[k].node);
  }

  lemma TakeTimed<K(!new), V>(table: map<K, Entry<V>>, hasher: K -> nat, w: Wheel, ward: map<nat, K>, extra: set<nat>,
                              k: K)
    requires Timed(table, hasher, w, ward, extra) && k in table
    ensures var t := table[k].timer; Timed(table - {k}, hasher, CancelIn(w, t), WardWithout(ward, t), extra)
    ensures var t := table[k].timer; OnTime(w, ward) ==> OnTime(CancelIn(w, t), WardWithout(ward, t))
  {
    assert Mark(k);
    if table[k].timer.Some? {
      assert Mark(table[k].timer.value);
    }
  }

  lemma TakeCost<K(!new), V>(table: map<K, Entry<V>>, k: K)
    requires k in table
    ensures TableCost(table) == table[k].cost + TableCost(table - {k})
  {
    SumWithout(EntryCosts(table), k);
    assert EntryCosts(table - {k}) == EntryCosts(table) - {k};
  }

  // ------------------------------------------------------------- one entry in

  lemma PutCost<K(!new), V>(table: map<K, Entry<V>>, k: K, e: Entry<V>)
    ensures TableCost(table[k := e]) + (if k in table then table[k].cost else 0) == TableCost(table) + e.cost
  {
    SumWith(EntryCosts(table), k, e.cost);
    assert EntryCosts(table[k := e]) == EntryCosts(table)[k := e.cost];
    if k in table {
      SumWithout(EntryCosts(table), k);
    }
  }

  lemma AdmitMirrored<K(!new), V>(table: map<K, Entry<V>>, hasher: K -> nat, m: Resident, owner: map<NodeId, K>, k: K,
                                  e: Entry<V>)
    requires Mirrored(table, hasher, m, owner) && k !in table && e.node !in m && e.keyHash == hasher(k)
    ensures Mirrored(table[k := e], hasher, m[e.node := Item(hasher(k), e.cost)], owner[e.node := k])
  {
    assert Mark(e.node);
  }

  lemma ReplaceMirrored<K(!new), V>(table: map<K, Entry<V>>, hasher: K -> nat, m: Resident, owner: map<NodeId, K>,
                                    k: K, e: Entry<V>)
    requires Mirrored(table, hasher, m, owner) && k in table && e.node == table[k].node && e.keyHash == hasher(k)
    ensures Mirrored(table[k := e], hasher, m[e.node := Item(hasher(k), e.cost)], owner)
  {
    assert Mark(k) && Mark(e.node);
  }

  ghost function WardWith<K>(ward: map<nat, K>, timer: Option<nat>, k: K): (r: map<nat, K>)
  {
    if timer.Some? then ward[timer.value := k] else ward
  }

  ghost function HandleOf(timer: Option<nat>): (r: set<nat>)
  {
    if timer.Some? then {timer.value} else {}
  }

  /** Putting in an entry whose timer is armed and kept by nobody yet; the replaced entry's is left over. */
  lemma PutTimed<K(!new), V>(table: map<K, Entry<V>>, hasher: K -> nat, w: Wheel, ward: map<nat, K>, k: K, e: Entry<V>)
    requires Timed(table, hasher, w, ward, HandleOf(e.timer)) && OnTime(w, ward)
    requires e.timer.Some? <==> e.expiresAt > 0
    requires e.timer.Some? ==> e.timer.value in w.armed && w.armed[e.timer.value] == hasher(k)
    ensures var was := if k in table then table[k].timer else None;
            && Timed(table[k := e], hasher, w, WardWith(WardWithout(ward, was), e.timer, k), HandleOf(was))
            && OnTime(w, WardWith(WardWithout(ward, was), e.timer, k))
  {
    assert Mark(k);
    if k in table && table[k].timer.Some? {
      assert Mark(table[k].timer.value);
    }
    if e.timer.Some? {
      assert Mark(e.timer.value);
    }
    var was := if k in table then table[k].timer else None;
    var ward' := WardWith(WardWithout(ward, was), e.timer, k);
    forall j {:trigger Mark(j)} | Mark(j) && j in table && j != k && table[j].timer.Some?
      ensures table[j].timer.value in ward' && ward'[table[j].timer.value] == j
    {
      assert Mark(table[j].timer.value);
    }
  }

  /** Cancelling a handle nobody keeps any more. */
  lemma CancelTimed<K(!new), V>(table: map<K, Entry<V>>, hasher: K -> nat, w: Wheel, ward: map<nat, K>,
                                timer: Option<nat>)
    requires Timed(table, hasher, w, ward, HandleOf(timer)) && OnTime(w, ward)
    ensures Timed(table, hasher, CancelIn(w, timer), ward, {}) && OnTime(CancelIn(w, timer), ward)
  {
  }

  // ---------------------------------------------------------- all of it at once

  /** The shard's parts as one value. */
  datatype Parcel<!K, V> = Parcel(table: map<K, Entry<V>>, cost: nat, wheel: Wheel, owner: map<NodeId, K>,
                                  ward: map<nat, K>)

  ghost predicate Agrees<K(!new), V>(p: Parcel<K, V>, hasher: K -> nat, m: Resident, extra: set<nat>)
  {
    && Mirrored(p.table, hasher, m, p.owner)
    && p.cost == TableCost(p.table) == Weight(m)
    && Timed(p.table, hasher, p.wheel, p.ward, extra)
  }

  /** The parts after entry `k` left, its timer cancelled. */
  ghost function Less<K(!new), V>(p: Parcel<K, V>, k: K): (r: Parcel<K, V>)
    requires k in p.table
  {
    var e := p.table[k];
    Parcel(p.table - {k}, if p.cost >= e.cost then p.cost - e.cost else 0, CancelIn(p.wheel, e.timer),
           p.owner - {e.node}, WardWithout(p.ward, e.timer))
  }

  lemma TakeKeeps<K(!new), V>(p: Parcel<K, V>, hasher: K -> nat, m: Resident, extra: set<nat>, k: K)
    requires Agrees(p, hasher, m, extra) && k in p.table
    ensures p.cost >= p.table[k].cost && p.table[k].node in m
    ensures Agrees(Less(p, k), hasher, m - {p.table[k].node}, extra)
    ensures OnTime(p.wheel, p.ward) ==> OnTime(Less(p, k).wheel, Less(p, k).ward)
  {
    assert Mark(k);
    TakeMirrored(p.table, hasher, m, p.owner, k);
    TakeTimed(p.table, hasher, p.wheel, p.ward, extra, k);
    TakeCost(p.table, k);
    WeightWithout(m, p.table[k].node);
  }

  /** The wheel and the entry's handle after `arm`. */
  function ArmIn(w: Wheel, hash: nat): (r: Wheel)
  {
    Wheel(w.armed[w.issued := hash], w.issued + 1)
  }

  lemma ArmKeeps<K(!new), V>(p: Parcel<K, V>, hasher: K -> nat, m: Resident, hash: nat)
    requires Agrees(p, hasher, m, {}) && OnTime(p.wheel, p.ward)
    ensures Agrees(p.(wheel := ArmIn(p.wheel, hash)), hasher, m, {p.wheel.issued})
    ensures OnTime(ArmIn(p.wheel, hash), p.ward)
  {
  }

  /** When an entry was used last matters to nobody but its idle limit. */
  lemma UseKeeps<K(!new), V>(p: Parcel<K, V>, hasher: K -> nat, m: Resident, k: K, now: nat)
    requires Agrees(p, hasher, m, {}) && k in p.table
    ensures Agrees(p.(table := p.table[k := p.table[k].(lastAccessed := now)]), hasher, m, {})
  {
    var table := p.table[k := p.table[k].(lastAccessed := now)];
    assert EntryCosts(table) == EntryCosts(p.table);
  }

  /** The parts after `put`. */
  ghost function More<K(!new), V>(p: Parcel<K, V>, k: K, e: Entry<V>): (r: Parcel<K, V>)
  {
    var was := if k in p.table then p.table[k].timer else None;
    var less := if k in p.table && p.cost >= p.table[k].cost then p.cost - p.table[k].cost else p.cost;
    Parcel(p.table[k := e], less + e.cost, p.wheel, p.owner[e.node := k],
           WardWith(WardWithout(p.ward, was), e.timer, k))
  }

  ghost predicate Ready<K(!new), V>(p: Parcel<K, V>, hasher: K -> nat, k: K, e: Entry<V>)
  {
    && e.keyHash == hasher(k) && OnTime(p.wheel, p.ward)
    && (e.timer.Some? <==> e.expiresAt > 0)
    && (e.timer.Some? ==> e.timer.value in p.wheel.armed && p.wheel.armed[e.timer.value] == hasher(k))
  }

  lemma PutFreshKeeps<K(!new), V>(p: Parcel<K, V>, hasher: K -> nat, m: Resident, k: K, e: Entry<V>)
    requires Agrees(p, hasher, m, HandleOf(e.timer)) && Ready(p, hasher, k, e) && k !in p.table && e.node !in m
    ensures Agrees(More(p, k, e), hasher, m[e.node := Item(hasher(k), e.cost)], {})
    ensures OnTime(p.wheel, More(p, k, e).ward)
  {
    PutTimed(p.table, hasher, p.wheel, p.ward, k, e);
    PutCost(p.table, k, e);
    AdmitMirrored(p.table, hasher, m, p.owner, k, e);
    WeightWith(m, e.node, Item(hasher(k), e.cost));
  }

  lemma ReplaceKeeps<K(!new), V>(p: Parcel<K, V>, hasher: K -> nat, m: Resident, k: K, e: Entry<V>)
    requires Agrees(p, hasher, m, HandleOf(e.timer)) && Ready(p, hasher, k, e) && k in p.table
    requires e.node == p.table[k].node
    ensures p.cost >= p.table[k].cost && e.node in m && m[e.node].hash == hasher(k)
    ensures Agrees(More(p, k, e), hasher, m[e.node := Item(hasher(k), e.cost)], HandleOf(p.table[k].timer))
    ensures OnTime(p.wheel, More(p, k, e).ward)
  {
    assert Mark(k);
    PutTimed(p.table, hasher, p.wheel, p.ward, k, e);
    PutCost(p.table, k, e);
    TakeCost(p.table, k);
    ReplaceMirrored(p.table, hasher, m, p.owner, k, e);
    WeightWith(m, e.node, Item(hasher(k), e.cost));
    WeightWithout(m, e.node);
    assert p.owner[e.node := k] == p.owner;
  }

  lemma CancelKeeps<K(!new), V>(p: Parcel<K, V>, hasher: K -> nat, m: Resident, timer: Option<nat>)
    requires Agrees(p, hasher, m, HandleOf(timer)) && OnTime(p.wheel, p.ward)
    ensures Agrees(p.(wheel := CancelIn(p.wheel, timer)), hasher, m, {}) && OnTime(CancelIn(p.wheel, timer), p.ward)
  {
    CancelTimed(p.table, hasher, p.wheel, p.ward, timer);
  }

  lemma {:induction false} NoMoreNodesThanEntries<K(!new), V>(table: map<K, Entry<V>>, ids: set<NodeId>,
                                                              owner: map<NodeId, K>)
    requires forall id :: id in ids ==> id in owner && owner[id] in table && table[owner[id]].node == id
    ensures |ids| <= |table|
    decreases |table|
  {
    if ids != {} {
      var id :| id in ids;
      var k := owner[id];
      assert (table - {k}).Keys == table.Keys - {k} && |table - {k}| == |(table - {k}).Keys|;
      NoMoreNodesThanEntries(table - {k}, ids - {id}, owner);
    }
  }

  lemma SizesAgree<K(!new), V>(p: Parcel<K, V>, hasher: K -> nat, m: Resident, extra: set<nat>)
    requires Agrees(p, hasher, m, extra)
    ensures |m| <= |p.table|
  {
    forall id | id in m.Keys
      ensures id in p.owner && p.owner[id] in p.table && p.table[p.owner[id]].node == id
    {
      assert Mark(id);
    }
    NoMoreNodesThanEntries(p.table, m.Keys, p.owner);
    assert |m| == |m.Keys|;
  }
}
