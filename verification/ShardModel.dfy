/**
 A shard as one value, what its operations do to it, and why reads that wait in the ring make no difference: at every
 operation that decides anything, the shard is as if each read had reached the policy when it was made.
 */
module ShardModel {
  import opened Options
  import opened Residents
  import opened Policies
  import opened ReadRings
  import opened ShardState

  /** The entries, how many timers were issued, and the policy. */
  datatype Shelf<!K, V> = Shelf(table: map<K, Entry<V>>, issued: nat, mind: Mind)

  /** The entries whose node is not among `nodes`. */
  ghost function Remaining<K, V>(table: map<K, Entry<V>>, nodes: set<NodeId>): (r: map<K, Entry<V>>)
  {
    map k | k in table && table[k].node !in nodes :: table[k]
  }

  /** The entry with its hash and, if it has a deadline, the next timer. */
  function Armed<V>(entry: Entry<V>, hash: nat, issued: nat): (e: Entry<V>)
  {
    entry.(keyHash := hash, timer := if entry.expiresAt > 0 then Some(issued) else None)
  }

  function IssuedBy<V>(entry: Entry<V>): (n: nat)
  {
    if entry.expiresAt > 0 then 1 else 0
  }

  /** Evicts what exceeds the budget, once. */
  ghost function Trimmed<K(!new), V>(s: Shelf<K, V>, budget: nat): (r: Shelf<K, V>)
  {
    var cost := TableCost(s.table);
    if cost <= budget then s
    else
      var v := Decided(s.mind, Evict(cost - budget));
      s.(table := Remaining(s.table, NodesOf(v.out)), mind := v.mind)
  }

  lemma TrimmedIs<K(!new), V>(s: Shelf<K, V>, budget: nat, v: Ruling)
    requires TableCost(s.table) > budget && v == Decided(s.mind, Evict(TableCost(s.table) - budget))
    ensures Trimmed(s, budget) == s.(table := Remaining(s.table, NodesOf(v.out)), mind := v.mind)
  {
  }

  /** An entry over a resident one keeps its node; a new one is admitted, which may cost others, or itself, their
        place. */
  ghost function Placed<K(!new), V>(s: Shelf<K, V>, key: K, e: Entry<V>): (r: Shelf<K, V>)
  {
    if key in s.table then
      var node := s.table[key].node;
      s.(table := s.table[key := e.(node := node)], mind := Decided(s.mind, Update(node, e.cost)).mind)
    else
      var v := Decided(s.mind, Admit(e.keyHash, e.cost));
      s.(table := Remaining(s.table[key := e.(node := IdNext(s.mind))], NodesOf(v.out)), mind := v.mind)
  }

  ghost function Inserting<K(!new), V>(s: Shelf<K, V>, key: K, hash: nat, entry: Entry<V>,
                                       budget: nat): (r: Shelf<K, V>)
  {
    Trimmed(Placed(s.(issued := s.issued + IssuedBy(entry)), key, Armed(entry, hash, s.issued)), budget)
  }

  lemma InsertingIs<K(!new), V>(s: Shelf<K, V>, t: Shelf<K, V>, key: K, hash: nat, entry: Entry<V>, e: Entry<V>,
                                budget: nat)
    requires t == s.(issued := s.issued + IssuedBy(entry)) && e == Armed(entry, hash, s.issued)
    ensures Trimmed(Placed(t, key, e), budget) == Inserting(s, key, hash, entry, budget)
  {
  }

  ghost function Removing<K, V>(s: Shelf<K, V>, key: K): (r: Shelf<K, V>)
  {
    if key in s.table then s.(table := s.table - {key}, mind := Decided(s.mind, Remove(s.table[key].node)).mind) else s
  }

  /** Entries removed one after the other. */
  ghost function RemovingAll<K, V>(s: Shelf<K, V>, keys: seq<K>): (r: Shelf<K, V>)
  {
    if keys == [] then s else Removing(RemovingAll(s, keys[..|keys| - 1]), keys[|keys| - 1])
  }

  function KeysOf<K(==)>(keys: seq<K>): (r: set<K>)
  {
    set k | k in keys
  }

  /** Removing different entries takes them and their nodes. */
  lemma {:induction false} RemovingThem<K, V>(s: Shelf<K, V>, keys: seq<K>, ids: seq<NodeId>)
    requires |ids| == |keys| && forall i :: 0 <= i < |keys| ==> keys[i] in s.table && ids[i] == s.table[keys[i]].node
    requires forall i, j :: 0 <= i < j < |keys| ==> keys[i] != keys[j]
    ensures RemovingAll(s, keys) == s.(table := s.table - KeysOf(keys), mind := RemovedAll(s.mind, ids))
  {
    if keys == [] {
      assert s.table - KeysOf(keys) == s.table;
    } else {
      var last := |keys| - 1;
      RemovingThem(s, keys[..last], ids[..last]);
      assert keys == keys[..last] + [keys[last]];
      assert KeysOf(keys) == KeysOf(keys[..last]) + {keys[last]};
      assert s.table - KeysOf(keys[..last]) - {keys[last]} == s.table - KeysOf(keys);
    }
  }

  ghost function Emptied<K, V>(s: Shelf<K, V>): (r: Shelf<K, V>)
  {
    s.(table := map[], mind := Cleared(s.mind))
  }

  /** The entries of a snapshot inserted one after the other. */
  ghost function InsertingAll<K(!new), V>(s: Shelf<K, V>, entries: seq<(K, Entry<V>)>, hasher: K -> nat,
                                          budget: nat): (r: Shelf<K, V>)
  {
    if entries == [] then s
    else
      var last := entries[|entries| - 1];
      Inserting(InsertingAll(s, entries[..|entries| - 1], hasher, budget), last.0, hasher(last.0), last.1, budget)
  }

  lemma InsertingLast<K(!new), V>(s: Shelf<K, V>, entries: seq<(K, Entry<V>)>, i: nat, hasher: K -> nat, budget: nat)
    requires i < |entries|
    ensures InsertingAll(s, entries[..i + 1], hasher, budget) ==
            Inserting(InsertingAll(s, entries[..i], hasher, budget), entries[i].0, hasher(entries[i].0), entries[i].1,
                      budget)
  {
    assert entries[..i + 1][..i] == entries[..i];
  }

  /** A hit: the entry is used now, if anybody asks, and its node is read. */
  function Hit<K, V>(s: Shelf<K, V>, key: K, now: nat, tti: nat): (r: Shelf<K, V>)
    requires key in s.table
  {
    if tti > 0 then s.(table := s.table[key := s.table[key].(lastAccessed := now)]) else s
  }

  // ------------------------------------------------------------- reads in the ring

  /** What a shard with reads logged amounts to. */
  ghost function Caught<K, V>(s: Shelf<K, V>, ring: seq<NodeId>): (r: Shelf<K, V>)
  {
    s.(mind := ReadAll(s.mind, ring))
  }

  datatype Op<!K, V> =
    | Reading(key: K, now: nat)
    | Storing(key: K, entry: Entry<V>)
    | Dropping(keys: seq<K>)
    | Restoring(entries: seq<(K, Entry<V>)>)
    | Clearing

  /** Every read applied when it is made. */
  ghost function EagerStep<K(!new), V>(s: Shelf<K, V>, op: Op<K, V>, hasher: K -> nat, budget: nat,
                                       tti: nat): (r: Shelf<K, V>)
  {
    match op
    case Reading(key, now) =>
      if key in s.table then
        var t := Hit(s, key, now, tti);
        t.(mind := Read(s.mind, s.table[key].node))
      else s
    case Storing(key, entry) => Inserting(s, key, hasher(key), entry, budget)
    case Dropping(keys) => RemovingAll(s, keys)
    case Restoring(entries) => InsertingAll(Emptied(s), entries, hasher, budget)
    case Clearing => Emptied(s)
  }

  datatype Lazy<!K, V> = Lazy(shelf: Shelf<K, V>, ring: seq<NodeId>)

  datatype Log = Log(mind: Mind, ring: seq<NodeId>)

  /** Under TinyLFU a read goes to the ring, or after what is in the ring when that is full. Under S3-FIFO it is
        applied at once. */
  ghost function Logging(l: Log, id: NodeId): (r: Log)
  {
    if l.mind.OfTiny? && |l.ring| < RING then l.(ring := l.ring + [id])
    else Log(Read(ReadAll(l.mind, l.ring), id), [])
  }

  ghost function LazyRead<K(!new), V>(l: Lazy<K, V>, key: K, now: nat, tti: nat): (r: Lazy<K, V>)
  {
    if key !in l.shelf.table then l
    else
      var r := Logging(Log(l.shelf.mind, l.ring), l.shelf.table[key].node);
      Lazy(Hit(l.shelf, key, now, tti).(mind := r.mind), r.ring)
  }

  /** Every other operation applies the ring first, but for a clear, which leaves it; a restore begins with a clear. */
  ghost function LazyStep<K(!new), V>(l: Lazy<K, V>, op: Op<K, V>, hasher: K -> nat, budget: nat,
                                      tti: nat): (r: Lazy<K, V>)
  {
    match op
    case Reading(key, now) => LazyRead(l, key, now, tti)
    case Storing(key, entry) => Lazy(Inserting(Caught(l.shelf, l.ring), key, hasher(key), entry, budget), [])
    case Dropping(keys) => Lazy(RemovingAll(Caught(l.shelf, l.ring), keys), [])
    case Restoring(entries) =>
      if entries == [] then Lazy(Emptied(l.shelf), l.ring)
      else Lazy(InsertingAll(Caught(Emptied(l.shelf), l.ring), entries, hasher, budget), [])
    case Clearing => Lazy(Emptied(l.shelf), l.ring)
  }

  /** Clearing forgets the reads applied before it, and those applied after it name nobody. */
  lemma {:induction false} ClearForgets(m: Mind, ids: seq<NodeId>)
    ensures Cleared(ReadAll(m, ids)) == Cleared(m) == ReadAll(Cleared(m), ids)
  {
    ReadsOfNobody(m, ids);
    if ids != [] {
      ClearForgets(m, ids[..|ids| - 1]);
      ReadKeepsShape(ReadAll(m, ids[..|ids| - 1]), ids[|ids| - 1]);
    }
  }

  /** One step more and the two still agree. */
  lemma StepsAgree<K(!new), V>(l: Lazy<K, V>, op: Op<K, V>, hasher: K -> nat, budget: nat, tti: nat)
    ensures var r := LazyStep(l, op, hasher, budget, tti);
            Caught(r.shelf, r.ring) == EagerStep(Caught(l.shelf, l.ring), op, hasher, budget, tti)
  {
    match op
    case Reading(key, now) =>
      if key in l.shelf.table {
        var id := l.shelf.table[key].node;
        assert (l.ring + [id])[..|l.ring|] == l.ring;
      }
    case Restoring(entries) =>
      ClearForgets(l.shelf.mind, l.ring);
    case Clearing =>
      ClearForgets(l.shelf.mind, l.ring);
    case _ =>
  }

  ghost predicate AreRuns<K(!new), V>(ops: seq<Op<K, V>>, lazy: seq<Lazy<K, V>>, eager: seq<Shelf<K, V>>,
                                      hasher: K -> nat, budget: nat, tti: nat)
  {
    && |lazy| == |eager| == |ops| + 1 && lazy[0].ring == [] && lazy[0].shelf == eager[0]
    && forall i :: 0 <= i < |ops| ==>
         && lazy[i + 1] == LazyStep(lazy[i], ops[i], hasher, budget, tti)
         && eager[i + 1] == EagerStep(eager[i], ops[i], hasher, budget, tti)
  }

  /** On every run of reads, inserts, removals, sweeps, restores and clears: a shard that logs its reads is, once it
        applies them, the shard that applied each read when it was made. So after every insert, removal or sweep both
        have the same entries under the same nodes, the same queues, sketch, frequencies and ghosts. */
  lemma {:induction false} ReadsCountFromWhenTheyAreMade<K(!new), V>(ops: seq<Op<K, V>>, lazy: seq<Lazy<K, V>>,
                                                                     eager: seq<Shelf<K, V>>, hasher: K -> nat,
                                                                     budget: nat, tti: nat, n: nat)
    requires AreRuns(ops, lazy, eager, hasher, budget, tti) && n <= |ops|
    ensures Caught(lazy[n].shelf, lazy[n].ring) == eager[n]
    ensures n > 0 && (ops[n - 1].Storing? || ops[n - 1].Dropping?) ==> lazy[n] == Lazy(eager[n], [])
  {
    if n > 0 {
      ReadsCountFromWhenTheyAreMade(ops, lazy, eager, hasher, budget, tti, n - 1);
      StepsAgree(lazy[n - 1], ops[n - 1], hasher, budget, tti);
    }
  }
}
