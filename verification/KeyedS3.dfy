/**
 The key-based S3-FIFO. It is proved to do, call by call, what `S3Model` does; so does the slab form, and the
 two therefore decide alike.
 */
module KeyedS3 {
  import opened Residents
  import opened S3Model
  import opened KeyedModel
  import S3Fifo
  import Lockstep

  datatype Keyed = Keyed(meta: Metas, small: seq<Queued>, main: seq<Queued>, smallCost: nat, totalCost: nat,
                         ghosts: set<nat>, ghostOrder: seq<nat>, next: nat)

  ghost predicate Ok(k: Keyed, cap: nat)
  {
    && Stamped(k.small, k.next) && Stamped(k.main, k.next) && Tracked(k.meta, k.small, k.main) && Capping(k.meta)
    && k.smallCost == Cost(Live(k.meta, k.small, true))
    && k.totalCost == k.smallCost + Cost(Live(k.meta, k.main, false))
    && cap > 0 && GhostsOk(k.ghosts, k.ghostOrder, cap)
  }

  ghost function AbsOf(k: Keyed): (s: State)
  {
    State(Live(k.meta, k.small, true), Live(k.meta, k.main, false), k.ghosts, k.ghostOrder)
  }

  ghost function KeysOf(victims: seq<Node>): (keys: seq<nat>)
  {
    seq(|victims|, i requires 0 <= i < |victims| => victims[i].hash)
  }

  // --------------------------------------------------------- the front of a queue

  lemma StampedRest(q: seq<Queued>, next: nat)
    requires Stamped(q, next) && q != []
    ensures Stamped(q[1..], next) && forall e :: e in q[1..] ==> e.stamp != q[0].stamp
  {
    assert forall i :: 0 <= i < |q[1..]| ==> q[1..][i] == q[i + 1];
  }

  /** What popping the front does to the queue's live entries. */
  lemma Popped(meta: Metas, q: seq<Queued>, small: bool)
    requires q != []
    ensures IsLive(meta, q[0], small) ==> Live(meta, q, small) == [NodeOf(meta, q[0].key)] + Live(meta, q[1..], small)
    ensures IsLive(meta, q[0], small) ==> Live(meta, q, small)[1..] == Live(meta, q[1..], small)
    ensures !IsLive(meta, q[0], small) ==> Live(meta, q, small) == Live(meta, q[1..], small)
  {
  }

  lemma StaleSmallKeeps(k: Keyed, cap: nat)
    requires Ok(k, cap) && k.small != [] && !IsLive(k.meta, k.small[0], true)
    ensures Ok(k.(small := k.small[1..]), cap) && AbsOf(k.(small := k.small[1..])) == AbsOf(k)
  {
    Popped(k.meta, k.small, true);
    StampedRest(k.small, k.next);
    forall key | key in k.meta && k.meta[key].inSmall
      ensures HasEntry(k.small[1..], key, k.meta[key].stamp)
    {
      assert HasEntry(k.small, key, k.meta[key].stamp);
    }
  }

  lemma StaleMainKeeps(k: Keyed, cap: nat)
    requires Ok(k, cap) && k.main != [] && !IsLive(k.meta, k.main[0], false)
    ensures Ok(k.(main := k.main[1..]), cap) && AbsOf(k.(main := k.main[1..])) == AbsOf(k)
  {
    Popped(k.meta, k.main, false);
    StampedRest(k.main, k.next);
    forall key | key in k.meta && !k.meta[key].inSmall
      ensures HasEntry(k.main[1..], key, k.meta[key].stamp)
    {
      assert HasEntry(k.main, key, k.meta[key].stamp);
    }
  }

  // ------------------------------------------------------------- moving a key on

  /** No entry of `q` is the live one of `key`. */
  ghost predicate NotIn(meta: Metas, q: seq<Queued>, small: bool, key: nat)
  {
    key in meta && meta[key].inSmall == small ==> Queued(key, meta[key].stamp) !in q
  }

  /** Changing or forgetting a key whose entry is not in the queue leaves the queue's live entries alone. */
  lemma Elsewhere(meta: Metas, q: seq<Queued>, small: bool, key: nat, m: Meta, next: nat)
    requires Stamped(q, next) && NotIn(meta, q, small, key)
    ensures Live(meta - {key}, q, small) == Live(meta, q, small)
    ensures m.stamp > next ==> Live(meta[key := m], q, small) == Live(meta, q, small)
  {
    LiveKept(meta, meta - {key}, q, small);
    if m.stamp > next {
      forall e | e in q
        ensures IsLive(meta[key := m], e, small) <==> IsLive(meta, e, small)
      {
        assert e.stamp <= next;
      }
      LiveKept(meta, meta[key := m], q, small);
    }
  }

  /** The keys still tracked after one key was changed, forgotten or requeued, and one queue lost its front. */
  lemma TrackedElsewhere(k: Keyed, small: seq<Queued>, main: seq<Queued>, key: nat)
    requires Tracked(k.meta, k.small, k.main)
    requires forall e :: e in k.small && e.key != key ==> e in small
    requires forall e :: e in k.main && e.key != key ==> e in main
    ensures Tracked(k.meta - {key}, small, main)
  {
    forall other | other in k.meta && other != key
      ensures HasEntry(if k.meta[other].inSmall then small else main, other, k.meta[other].stamp)
    {
      assert HasEntry(if k.meta[other].inSmall then k.small else k.main, other, k.meta[other].stamp);
    }
  }

  lemma TrackedWith(meta: Metas, small: seq<Queued>, main: seq<Queued>, key: nat, m: Meta)
    requires Tracked(meta - {key}, small, main) && HasEntry(if m.inSmall then small else main, key, m.stamp)
    ensures Tracked(meta[key := m], small, main)
  {
    var all := meta[key := m];
    forall other | other in all
      ensures HasEntry(if all[other].inSmall then small else main, other, all[other].stamp)
    {
      assert other != key ==> other in meta - {key};
    }
  }

  lemma StampedPush(q: seq<Queued>, key: nat, next: nat)
    requires Stamped(q, next)
    ensures Stamped(q + [Queued(key, next + 1)], next + 1) && Stamped(q, next + 1)
  {
  }

  /** The state after the key left the queues (or was never in them) and was pushed with `m`'s cost and frequency. */
  ghost function Queue(k: Keyed, key: nat, cost: nat, freq: nat, toSmall: bool): (r: Keyed)
  {
    var e := Queued(key, k.next + 1);
    k.(meta := k.meta[key := Meta(cost, freq, toSmall, k.next + 1)], next := k.next + 1,
       small := if toSmall then k.small + [e] else k.small, main := if toSmall then k.main else k.main + [e],
       smallCost := if toSmall then k.smallCost + cost else k.smallCost)
  }

  lemma QueueLive(k: Keyed, key: nat, cost: nat, freq: nat, toSmall: bool)
    requires Stamped(k.small, k.next) && Stamped(k.main, k.next)
    requires NotIn(k.meta, k.small, true, key) && NotIn(k.meta, k.main, false, key)
    ensures var r, n := Queue(k, key, cost, freq, toSmall), Node(IdOf(key), key, cost, freq);
            && Live(r.meta, r.small, true) == Live(k.meta, k.small, true) + (if toSmall then [n] else [])
            && Live(r.meta, r.main, false) == Live(k.meta, k.main, false) + (if toSmall then [] else [n])
  {
    var r := Queue(k, key, cost, freq, toSmall);
    var e := Queued(key, k.next + 1);
    Elsewhere(k.meta, k.small, true, key, r.meta[key], k.next);
    Elsewhere(k.meta, k.main, false, key, r.meta[key], k.next);
    if toSmall {
      LiveAppend(r.meta, k.small, e, true);
    } else {
      LiveAppend(r.meta, k.main, e, false);
    }
  }

  lemma QueueKeeps(k: Keyed, key: nat, cost: nat, freq: nat, toSmall: bool)
    requires Stamped(k.small, k.next) && Stamped(k.main, k.next) && Tracked(k.meta - {key}, k.small, k.main)
    requires Capping(k.meta) && freq <= FREQ_MAX
    ensures var r := Queue(k, key, cost, freq, toSmall);
            Stamped(r.small, r.next) && Stamped(r.main, r.next) && Tracked(r.meta, r.small, r.main) && Capping(r.meta)
  {
    var r := Queue(k, key, cost, freq, toSmall);
    StampedPush(k.small, key, k.next);
    StampedPush(k.main, key, k.next);
    TrackedElsewhere(k.(meta := k.meta - {key}), r.small, r.main, key);
    assert k.meta - {key} - {key} == k.meta - {key};
    assert HasEntry(if toSmall then r.small else r.main, key, k.next + 1);
    TrackedWith(k.meta, r.small, r.main, key, r.meta[key]);
  }

  /** `k` lacks only the key that is pushed, whose cost is counted already. */
  lemma QueueOk(k: Keyed, cap: nat, key: nat, cost: nat, freq: nat, toSmall: bool)
    requires Stamped(k.small, k.next) && Stamped(k.main, k.next) && Tracked(k.meta - {key}, k.small, k.main)
    requires Capping(k.meta) && freq <= FREQ_MAX
    requires NotIn(k.meta, k.small, true, key) && NotIn(k.meta, k.main, false, key)
    requires k.smallCost == Cost(Live(k.meta, k.small, true))
    requires k.totalCost == k.smallCost + Cost(Live(k.meta, k.main, false)) + cost
    requires cap > 0 && GhostsOk(k.ghosts, k.ghostOrder, cap)
    ensures var r, n := Queue(k, key, cost, freq, toSmall), Node(IdOf(key), key, cost, freq);
            && Ok(r, cap)
            && AbsOf(r) == if toSmall then AbsOf(k).(small := AbsOf(k).small + [n])
                           else AbsOf(k).(main := AbsOf(k).main + [n])
  {
    var n := Node(IdOf(key), key, cost, freq);
    QueueLive(k, key, cost, freq, toSmall);
    QueueKeeps(k, key, cost, freq, toSmall);
    CostAppend(Live(k.meta, k.small, true), if toSmall then [n] else []);
    CostAppend(Live(k.meta, k.main, false), if toSmall then [] else [n]);
    assert Cost([n]) == cost;
  }

  // -------------------------------------------------------- a turn of the eviction loop

  /** The front of a queue, live, and what it leaves behind. */
  lemma FrontOfSmall(k: Keyed, cap: nat)
    requires Ok(k, cap) && k.small != [] && IsLive(k.meta, k.small[0], true)
    ensures var key, rest := k.small[0].key, k.small[1..];
            && AbsOf(k).small == [NodeOf(k.meta, key)] + Live(k.meta, rest, true) &&
               k.smallCost == k.meta[key].cost + Cost(Live(k.meta, rest, true))
            && Stamped(rest, k.next) && NotIn(k.meta, rest, true, key) && NotIn(k.meta, k.main, false, key)
            && Tracked(k.meta - {key}, rest, k.main) && k.meta[key].freq <= FREQ_MAX
  {
    Popped(k.meta, k.small, true);
    StampedRest(k.small, k.next);
    TrackedElsewhere(k, k.small[1..], k.main, k.small[0].key);
  }

  lemma FrontOfMain(k: Keyed, cap: nat)
    requires Ok(k, cap) && k.main != [] && IsLive(k.meta, k.main[0], false)
    ensures var key, rest := k.main[0].key, k.main[1..];
            && AbsOf(k).main == [NodeOf(k.meta, key)] + Live(k.meta, rest, false)
            && k.totalCost == k.smallCost + Cost(Live(k.meta, rest, false)) + k.meta[key].cost
            && Stamped(rest, k.next) && NotIn(k.meta, rest, false, key) && NotIn(k.meta, k.small, true, key)
            && Tracked(k.meta - {key}, k.small, rest) && k.meta[key].freq <= FREQ_MAX
  {
    Popped(k.meta, k.main, false);
    StampedRest(k.main, k.next);
    TrackedElsewhere(k, k.small, k.main[1..], k.main[0].key);
  }

  lemma SmallTurn(s: State, n: Node, rest: seq<Node>, cap: nat)
    requires s.small == [n] + rest
    ensures s.small != [] && s.small[0] == n
    ensures S3Model.EvictSmall(s, cap).state ==
            if n.freq > 1 then State(rest, s.main + [n.(freq := 0)], s.ghosts, s.order)
            else Remember(s.(small := rest), n.hash, cap)
  {
    assert s.small[1..] == rest;
  }

  lemma MainTurn(s: State, n: Node, rest: seq<Node>, n': Node, r: State)
    requires s.main == [n] + rest && n.freq > 0 && n' == n.(freq := n.freq - 1) && r == s.(main := rest + [n'])
    ensures s.main != [] && s.main[0] == n && r == S3Model.EvictMain(s).state
  {
    assert s.main[1..] == rest;
  }

  ghost function Promoted(k: Keyed): (r: Keyed)
    requires k.small != [] && k.small[0].key in k.meta && k.smallCost >= k.meta[k.small[0].key].cost
  {
    var key := k.small[0].key;
    var m := k.meta[key];
    Queue(k.(small := k.small[1..], smallCost := k.smallCost - m.cost), key, m.cost, 0, false)
  }

  lemma PromoteKeeps(k: Keyed, cap: nat)
    requires Ok(k, cap) && k.small != [] && IsLive(k.meta, k.small[0], true) && k.meta[k.small[0].key].freq > 1
    ensures k.smallCost >= k.meta[k.small[0].key].cost && AbsOf(k).small != []
    ensures AbsOf(k).small[0] == NodeOf(k.meta, k.small[0].key)
    ensures Ok(Promoted(k), cap) && AbsOf(Promoted(k)) == S3Model.EvictSmall(AbsOf(k), cap).state
  {
    var key, m := k.small[0].key, k.meta[k.small[0].key];
    FrontOfSmall(k, cap);
    SmallTurn(AbsOf(k), NodeOf(k.meta, key), Live(k.meta, k.small[1..], true), cap);
    var rest := k.(small := k.small[1..], smallCost := k.smallCost - m.cost);
    assert Promoted(k) == Queue(rest, key, m.cost, 0, false);
    QueueOk(rest, cap, key, m.cost, 0, false);
  }

  ghost function Requeued(k: Keyed): (r: Keyed)
    requires k.main != [] && k.main[0].key in k.meta && k.meta[k.main[0].key].freq > 0
  {
    var key := k.main[0].key;
    var m := k.meta[key];
    Queue(k.(main := k.main[1..]), key, m.cost, m.freq - 1, false)
  }

  lemma RequeueKeeps(k: Keyed, cap: nat)
    requires Ok(k, cap) && k.main != [] && IsLive(k.meta, k.main[0], false) && k.meta[k.main[0].key].freq > 0
    ensures AbsOf(k).main != [] && AbsOf(k).main[0] == NodeOf(k.meta, k.main[0].key)
    ensures Ok(Requeued(k), cap) && AbsOf(Requeued(k)) == S3Model.EvictMain(AbsOf(k)).state
  {
    var key, m, r := k.main[0].key, k.meta[k.main[0].key], Requeued(k);
    FrontOfMain(k, cap);
    BackToMain(k.(main := k.main[1..]), cap, key, m.cost, m.freq - 1, r);
    MainTurn(AbsOf(k), NodeOf(k.meta, key), Live(k.meta, k.main[1..], false), Node(IdOf(key), key, m.cost, m.freq - 1),
             AbsOf(r));
  }

  lemma BackToMain(k: Keyed, cap: nat, key: nat, cost: nat, freq: nat, r: Keyed)
    requires Stamped(k.small, k.next) && Stamped(k.main, k.next) && Tracked(k.meta - {key}, k.small, k.main)
    requires Capping(k.meta) && freq <= FREQ_MAX
    requires NotIn(k.meta, k.small, true, key) && NotIn(k.meta, k.main, false, key)
    requires k.smallCost == Cost(Live(k.meta, k.small, true))
    requires k.totalCost == k.smallCost + Cost(Live(k.meta, k.main, false)) + cost
    requires cap > 0 && GhostsOk(k.ghosts, k.ghostOrder, cap) && r == Queue(k, key, cost, freq, false)
    ensures Ok(r, cap) && AbsOf(r) == AbsOf(k).(main := AbsOf(k).main + [Node(IdOf(key), key, cost, freq)])
  {
    QueueOk(k, cap, key, cost, freq, false);
  }

  ghost function Remembering(k: Keyed, key: nat, cap: nat): (r: Keyed)
  {
    var s := S3Model.Remember(State([], [], k.ghosts, k.ghostOrder), key, cap);
    k.(ghosts := s.ghosts, ghostOrder := s.order)
  }

  ghost function SmallDropped(k: Keyed, cap: nat): (r: Keyed)
    requires k.small != [] && k.small[0].key in k.meta && k.totalCost >= k.smallCost >= k.meta[k.small[0].key].cost
  {
    var key := k.small[0].key;
    var m := k.meta[key];
    Remembering(k.(meta := k.meta - {key}, small := k.small[1..], smallCost := k.smallCost - m.cost,
                   totalCost := k.totalCost - m.cost), key, cap)
  }

  lemma SmallDropKeeps(k: Keyed, cap: nat)
    requires Ok(k, cap) && k.small != [] && IsLive(k.meta, k.small[0], true) && k.meta[k.small[0].key].freq <= 1
    ensures k.smallCost >= k.meta[k.small[0].key].cost && AbsOf(k).small != []
    ensures AbsOf(k).small[0] == NodeOf(k.meta, k.small[0].key)
    ensures Ok(SmallDropped(k, cap), cap) && AbsOf(SmallDropped(k, cap)) == S3Model.EvictSmall(AbsOf(k), cap).state
  {
    var key := k.small[0].key;
    FrontOfSmall(k, cap);
    Elsewhere(k.meta, k.small[1..], true, key, k.meta[key], k.next);
    Elsewhere(k.meta, k.main, false, key, k.meta[key], k.next);
    RememberKeeps(State([], [], k.ghosts, k.ghostOrder), key, cap);
  }

  ghost function MainDropped(k: Keyed): (r: Keyed)
    requires k.main != [] && k.main[0].key in k.meta && k.totalCost >= k.meta[k.main[0].key].cost
  {
    var key := k.main[0].key;
    k.(meta := k.meta - {key}, main := k.main[1..], totalCost := k.totalCost - k.meta[key].cost)
  }

  lemma MainDropKeeps(k: Keyed, cap: nat)
    requires Ok(k, cap) && k.main != [] && IsLive(k.meta, k.main[0], false) && k.meta[k.main[0].key].freq == 0
    ensures k.totalCost >= k.meta[k.main[0].key].cost && AbsOf(k).main != []
    ensures AbsOf(k).main[0] == NodeOf(k.meta, k.main[0].key)
    ensures Ok(MainDropped(k), cap) && AbsOf(MainDropped(k)) == S3Model.EvictMain(AbsOf(k)).state
  {
    var key := k.main[0].key;
    FrontOfMain(k, cap);
    Elsewhere(k.meta, k.main[1..], false, key, k.meta[key], k.next);
    Elsewhere(k.meta, k.small, true, key, k.meta[key], k.next);
  }

  /** The loop chooses by the queues as they are, stale entries included; the entry it then finds live is from
      the queue that the model chooses. */
  lemma ChoosesAlike(k: Keyed, cap: nat, target: nat)
    requires Ok(k, cap)
    ensures var fromSmall := k.small != [] && (k.smallCost > target || k.main == []);
            && (fromSmall && IsLive(k.meta, k.small[0], true) ==> FromSmall(AbsOf(k), target))
            && (!fromSmall && k.main != [] && IsLive(k.meta, k.main[0], false) ==>
                !FromSmall(AbsOf(k), target) && AbsOf(k).main != [])
            && (!fromSmall && k.main == [] ==> AbsOf(k).small == [] && AbsOf(k).main == [])
  {
    if k.small != [] { Popped(k.meta, k.small, true); }
    if k.main != [] { Popped(k.meta, k.main, false); }
  }

  // ------------------------------------------------------------- the other updates

  lemma {:induction false} CostBumped(s: seq<Node>, id: NodeId)
    ensures Cost(BumpNodes(s, id)) == Cost(s)
  {
    if s != [] {
      CostBumped(s[1..], id);
      assert BumpNodes(s, id)[1..] == BumpNodes(s[1..], id);
    }
  }

  lemma SameTracks(meta: Metas, small: seq<Queued>, main: seq<Queued>, key: nat, m: Meta)
    requires Tracked(meta, small, main) && key in meta && m.stamp == meta[key].stamp && m.inSmall == meta[key].inSmall
    ensures Tracked(meta[key := m], small, main)
  {
    var all := meta[key := m];
    forall other | other in all
      ensures HasEntry(if all[other].inSmall then small else main, other, all[other].stamp)
    {
      assert HasEntry(if meta[other].inSmall then small else main, other, meta[other].stamp);
    }
  }

  ghost function Accessed(k: Keyed, key: nat): (r: Keyed)
    requires key in k.meta
  {
    k.(meta := k.meta[key := Raised(k.meta[key])])
  }

  lemma AccessKeeps(k: Keyed, cap: nat, key: nat)
    requires Ok(k, cap) && key in k.meta
    ensures Ok(Accessed(k, key), cap) && AbsOf(Accessed(k, key)) == S3Model.Touch(AbsOf(k), IdOf(key))
  {
    var r := Accessed(k, key);
    BumpedQueue(k.meta, k.small, true, key, r.meta);
    BumpedQueue(k.meta, k.main, false, key, r.meta);
    SameTracks(k.meta, k.small, k.main, key, Raised(k.meta[key]));
  }

  lemma BumpedQueue(meta: Metas, q: seq<Queued>, small: bool, key: nat, meta': Metas)
    requires key in meta && meta[key].freq <= FREQ_MAX && meta' == meta[key := Raised(meta[key])]
    ensures Live(meta', q, small) == BumpNodes(Live(meta, q, small), IdOf(key))
    ensures Cost(Live(meta', q, small)) == Cost(Live(meta, q, small))
  {
    LiveBumped(meta, q, small, key);
    CostBumped(Live(meta, q, small), IdOf(key));
  }

  /** A key that is not in a queue is in none of its live nodes. */
  lemma NotLive(meta: Metas, q: seq<Queued>, small: bool, key: nat)
    requires key in meta ==> meta[key].inSmall != small
    ensures forall i :: 0 <= i < |Live(meta, q, small)| ==>
              Live(meta, q, small)[i].id != IdOf(key) &&
                  Live(meta, q, small)[i].id == IdOf(Live(meta, q, small)[i].hash)
  {
    var s := Live(meta, q, small);
    forall i | 0 <= i < |s|
      ensures s[i].id != IdOf(key) && s[i].id == IdOf(s[i].hash)
    {
      LiveComesFrom(meta, q, small, i);
    }
  }

  lemma Untracked(k: Keyed, key: nat, cost: nat)
    requires key !in k.meta
    ensures var s, id := AbsOf(k), IdOf(key);
            S3Model.Touch(s, id) == s && S3Model.Update(s, id, cost) == s && S3Model.Remove(s, id) == s
  {
    NotLive(k.meta, k.small, true, key);
    NotLive(k.meta, k.main, false, key);
    DropAbsent(AbsOf(k).small, IdOf(key));
    DropAbsent(AbsOf(k).main, IdOf(key));
  }

  /** The keys tracked are the keys with a live node. */
  lemma TrackedIsLive(k: Keyed, cap: nat, key: nat)
    requires Ok(k, cap)
    ensures key in k.meta <==> Lockstep.NodeIn(AbsOf(k), key) != []
  {
    if key in k.meta {
      assert HasEntry(if k.meta[key].inSmall then k.small else k.main, key, k.meta[key].stamp);
      if k.meta[key].inSmall {
        LiveContains(k.meta, k.small, true, key);
      } else {
        LiveContains(k.meta, k.main, false, key);
      }
    } else {
      NotLive(k.meta, k.small, true, key);
      NotLive(k.meta, k.main, false, key);
      NotFound(AbsOf(k).small, key);
      NotFound(AbsOf(k).main, key);
    }
  }

  lemma NotFound(q: seq<Node>, key: nat)
    requires forall i :: 0 <= i < |q| ==> q[i].id == IdOf(q[i].hash) && q[i].id != IdOf(key)
    ensures Lockstep.Find(q, key) == []
  {
  }

  /** The costs of a queue's live entries when one of its keys is given another cost, or forgotten. */
  lemma CostsOfKey(meta: Metas, q: seq<Queued>, small: bool, next: nat, key: nat, cost: nat)
    requires Stamped(q, next) && key in meta && (meta[key].inSmall == small ==> HasEntry(q, key, meta[key].stamp))
    ensures var s, id, here := Live(meta, q, small), IdOf(key), meta[key].inSmall == small;
            && Cost(RecostNodes(s, id, cost)) == (if here then Cost(s) - meta[key].cost + cost else Cost(s))
            && Cost(DropNodes(s, id)) == (if here then Cost(s) - meta[key].cost else Cost(s))
  {
    var s := Live(meta, q, small);
    if meta[key].inSmall == small {
      LiveUnique(meta, q, small, next);
      LiveContains(meta, q, small, key);
      var i :| 0 <= i < |s| && s[i] == NodeOf(meta, key);
      forall j | 0 <= j < |s| && j != i
        ensures s[j].id != s[i].id
      {
        LiveComesFrom(meta, q, small, j);
        assert j < i ==> s[j].hash != s[i].hash;
      }
      CostOfOne(s, i, cost);
    } else {
      NotLive(meta, q, small, key);
      CostRecosted(s, IdOf(key), cost);
    }
  }

  ghost function Recosting(k: Keyed, key: nat, cost: nat): (r: Keyed)
    requires key in k.meta && k.totalCost >= k.meta[key].cost
    requires (k.meta[key].inSmall ==> k.smallCost >= k.meta[key].cost)
  {
    var m := k.meta[key];
    k.(meta := k.meta[key := m.(cost := cost)], totalCost := k.totalCost - m.cost + cost,
       smallCost := if m.inSmall then k.smallCost - m.cost + cost else k.smallCost)
  }

  lemma KeyCosts(k: Keyed, cap: nat, key: nat, cost: nat)
    requires Ok(k, cap) && key in k.meta
    ensures var m := k.meta[key]; k.totalCost >= m.cost && (m.inSmall ==> k.smallCost >= m.cost)
    ensures var m, s, t := k.meta[key], Live(k.meta, k.small, true), Live(k.meta, k.main, false);
            && Cost(RecostNodes(s, IdOf(key), cost)) == (if m.inSmall then k.smallCost - m.cost + cost else k.smallCost)
            && Cost(RecostNodes(s, IdOf(key), cost)) + Cost(RecostNodes(t, IdOf(key), cost)) ==
               k.totalCost - m.cost + cost
            && Cost(DropNodes(s, IdOf(key))) == (if m.inSmall then k.smallCost - m.cost else k.smallCost)
            && Cost(DropNodes(s, IdOf(key))) + Cost(DropNodes(t, IdOf(key))) == k.totalCost - m.cost
  {
    assert HasEntry(if k.meta[key].inSmall then k.small else k.main, key, k.meta[key].stamp);
    CostsOfKey(k.meta, k.small, true, k.next, key, cost);
    CostsOfKey(k.meta, k.main, false, k.next, key, cost);
  }

  lemma RecostKeeps(k: Keyed, cap: nat, key: nat, cost: nat)
    requires Ok(k, cap) && key in k.meta
    ensures k.totalCost >= k.meta[key].cost && (k.meta[key].inSmall ==> k.smallCost >= k.meta[key].cost)
    ensures var r := Recosting(k, key, cost); Ok(r, cap) && AbsOf(r) == S3Model.Update(AbsOf(k), IdOf(key), cost)
  {
    KeyCosts(k, cap, key, cost);
    LiveRecosted(k.meta, k.small, true, key, cost);
    LiveRecosted(k.meta, k.main, false, key, cost);
    SameTracks(k.meta, k.small, k.main, key, k.meta[key].(cost := cost));
  }

  ghost function Forgotten(k: Keyed, key: nat): (r: Keyed)
    requires key in k.meta && k.totalCost >= k.meta[key].cost
    requires (k.meta[key].inSmall ==> k.smallCost >= k.meta[key].cost)
  {
    var m := k.meta[key];
    k.(meta := k.meta - {key}, totalCost := k.totalCost - m.cost,
       smallCost := if m.inSmall then k.smallCost - m.cost else k.smallCost)
  }

  lemma ForgetKeeps(k: Keyed, cap: nat, key: nat)
    requires Ok(k, cap) && key in k.meta
    ensures k.totalCost >= k.meta[key].cost && (k.meta[key].inSmall ==> k.smallCost >= k.meta[key].cost)
    ensures Ok(Forgotten(k, key), cap) && AbsOf(Forgotten(k, key)) == S3Model.Remove(AbsOf(k), IdOf(key))
  {
    KeyCosts(k, cap, key, 0);
    LiveForgotten(k.meta, k.small, true, key);
    LiveForgotten(k.meta, k.main, false, key);
    TrackedElsewhere(k, k.small, k.main, key);
  }

  ghost function Admitted(k: Keyed, key: nat, cost: nat): (r: Keyed)
  {
    Queue(k.(ghosts := k.ghosts - {key}, totalCost := k.totalCost + cost), key, cost, 0, key !in k.ghosts)
  }

  lemma AdmitKeeps(k: Keyed, cap: nat, key: nat, cost: nat)
    requires Ok(k, cap) && key !in k.meta
    ensures Ok(Admitted(k, key, cost), cap)
    ensures AbsOf(Admitted(k, key, cost)) == S3Model.Admit(AbsOf(k), IdOf(key), key, cost)
  {
    var before := k.(ghosts := k.ghosts - {key}, totalCost := k.totalCost + cost);
    assert k.meta - {key} == k.meta;
    assert Admitted(k, key, cost) == Queue(before, key, cost, 0, key !in k.ghosts);
    QueueOk(before, cap, key, cost, 0, key !in k.ghosts);
    assert key !in k.ghosts ==> k.ghosts - {key} == k.ghosts;
  }

  /** `VecDeque::retain` of the live entries. */
  function Retained(meta: Metas, q: seq<Queued>, small: bool): (r: seq<Queued>)
    ensures forall e :: e in r <==> e in q && IsLive(meta, e, small)
  {
    if q == [] then [] else (if IsLive(meta, q[0], small) then [q[0]] else []) + Retained(meta, q[1..], small)
  }

  lemma {:induction false} RetainedLive(meta: Metas, q: seq<Queued>, small: bool)
    ensures Live(meta, Retained(meta, q, small), small) == Live(meta, q, small)
  {
    if q != [] {
      RetainedLive(meta, q[1..], small);
      var rest := Retained(meta, q[1..], small);
      if IsLive(meta, q[0], small) {
        assert ([q[0]] + rest)[1..] == rest;
      } else {
        assert [] + rest == rest;
      }
    }
  }

  lemma {:induction false} RetainedStamped(meta: Metas, q: seq<Queued>, small: bool, next: nat)
    requires Stamped(q, next)
    ensures Stamped(Retained(meta, q, small), next)
  {
    if q != [] {
      StampedRest(q, next);
      RetainedStamped(meta, q[1..], small, next);
      var rest := Retained(meta, q[1..], small);
      forall j | 0 <= j < |rest|
        ensures q[0].stamp < rest[j].stamp
      {
        assert rest[j] in q[1..];
        var i :| 0 <= i < |q[1..]| && q[1..][i] == rest[j];
        assert q[0].stamp < q[i + 1].stamp;
      }
    }
  }

  ghost function Compacted(k: Keyed): (r: Keyed)
  {
    k.(small := Retained(k.meta, k.small, true), main := Retained(k.meta, k.main, false))
  }

  lemma CompactKeeps(k: Keyed, cap: nat)
    requires Ok(k, cap)
    ensures Ok(Compacted(k), cap) && AbsOf(Compacted(k)) == AbsOf(k)
  {
    RetainedLive(k.meta, k.small, true);
    RetainedLive(k.meta, k.main, false);
    RetainedStamped(k.meta, k.small, true, k.next);
    RetainedStamped(k.meta, k.main, false, k.next);
    forall key | key in k.meta
      ensures HasEntry(if k.meta[key].inSmall then Retained(k.meta, k.small, true)
                       else Retained(k.meta, k.main, false), key, k.meta[key].stamp)
    {
      assert HasEntry(if k.meta[key].inSmall then k.small else k.main, key, k.meta[key].stamp);
    }
  }

  lemma {:induction false} NoMoreThanKeys(q: seq<Queued>, keys: set<nat>)
    requires forall i :: 0 <= i < |q| ==> q[i].key in keys
    requires forall i, j :: 0 <= i < j < |q| ==> q[i].key != q[j].key
    ensures |q| <= |keys|
  {
    if q != [] {
      var last := |q| - 1;
      NoMoreThanKeys(q[..last], keys - {q[last].key});
    }
  }

  /** What a compaction leaves of a queue is one entry for each key tracked there. */
  lemma RetainedFits(meta: Metas, q: seq<Queued>, small: bool, next: nat, keys: set<nat>)
    requires Stamped(q, next) && forall key :: key in meta && meta[key].inSmall == small ==> key in keys
    ensures |Retained(meta, q, small)| <= |keys|
  {
    RetainedStamped(meta, q, small, next);
    var r := Retained(meta, q, small);
    forall i | 0 <= i < |r|
      ensures IsLive(meta, r[i], small)
    {
      assert r[i] in r;
    }
    NoMoreThanKeys(r, keys);
  }

  lemma CompactedFits(k: Keyed, cap: nat)
    requires Ok(k, cap)
    ensures var r := Compacted(k); |r.small| + |r.main| <= |k.meta|
  {
    var inSmall := set key | key in k.meta && k.meta[key].inSmall;
    var inMain := k.meta.Keys - inSmall;
    RetainedFits(k.meta, k.small, true, k.next, inSmall);
    RetainedFits(k.meta, k.main, false, k.next, inMain);
    assert inSmall <= k.meta.Keys && |inMain| == |k.meta.Keys| - |inSmall| && |k.meta| == |k.meta.Keys|;
  }

  // ------------------------------------------------------------ stamps in 32 bits

  const STAMPS: nat := 0x1_0000_0000

  /** The test as the code makes it, on stamps that wrap. */
  predicate LooksLive(meta: Metas, e: Queued, small: bool)
  {
    e.key in meta && meta[e.key].stamp % STAMPS == e.stamp % STAMPS && meta[e.key].inSmall == small
  }

  /** No entry in a queue is 2^32 stamps old. */
  ghost predicate Young(q: seq<Queued>, next: nat)
  {
    forall e :: e in q ==> next < e.stamp + 0x1_0000_0000
  }

  /** While that is so, wrapped stamps tell stale entries as unbounded ones do. */
  lemma WrappedStampsTellAlike(k: Keyed, cap: nat, e: Queued, small: bool)
    requires Ok(k, cap) && Young(k.small, k.next) && Young(k.main, k.next) && e in (if small then k.small else k.main)
    ensures LooksLive(k.meta, e, small) <==> IsLive(k.meta, e, small)
  {
    if e.key in k.meta && k.meta[e.key].inSmall == small {
      var m := k.meta[e.key];
      assert HasEntry(if m.inSmall then k.small else k.main, e.key, m.stamp);
      assert Queued(e.key, m.stamp) in (if small then k.small else k.main);
      SameResidue(e.stamp, m.stamp, k.next);
    }
  }

  /** And they mislead on an entry if and only if its key was queued again there some multiple of 2^32 stamps later. */
  lemma StampsMisleadExactlyWhen(meta: Metas, e: Queued, small: bool)
    ensures (LooksLive(meta, e, small) <==> IsLive(meta, e, small)) <==>
            !(e.key in meta && meta[e.key].inSmall == small && meta[e.key].stamp != e.stamp &&
              (meta[e.key].stamp - e.stamp) % 0x1_0000_0000 == 0)
  {
  }

  lemma SameResidue(a: nat, b: nat, next: nat)
    requires a <= next < a + STAMPS && b <= next < b + STAMPS
    ensures a % STAMPS == b % STAMPS <==> a == b
  {
  }

  // ---------------------------------------------------------------- the policy

  class S3FifoPolicy {
    var meta: Metas
    var small: seq<Queued>
    var main: seq<Queued>
    var smallCost: nat
    var totalCost: nat
    var ghostOrder: seq<nat>
    var ghosts: set<nat>
    var nextStamp: nat
    const smallTarget: nat
    const ghostCap: nat

    ghost function Now(): (k: Keyed)
      reads this
    {
      Keyed(meta, small, main, smallCost, totalCost, ghosts, ghostOrder, nextStamp)
    }

    ghost predicate Valid()
      reads this
    {
      Ok(Now(), ghostCap)
    }

    ghost function Abs(): (s: State)
      reads this
    {
      AbsOf(Now())
    }

    constructor (capacity: nat)
      ensures Valid() && Abs() == INIT
      ensures smallTarget == (if capacity / 10 > 1 then capacity / 10 else 1)
      ensures ghostCap == (if capacity > 1 then capacity else 1)
    {
      meta, small, main, smallCost, totalCost := map[], [], [], 0, 0;
      ghostOrder, ghosts, nextStamp := [], {}, 0;
      smallTarget := if capacity / 10 > 1 then capacity / 10 else 1;
      ghostCap := if capacity > 1 then capacity else 1;
    }

    method Push(key: nat, toSmall: bool)
      requires key in meta
      modifies this`meta, this`small, this`main, this`smallCost, this`nextStamp
      ensures Now() == Queue(old(Now()), key, old(meta[key].cost), old(meta[key].freq), toSmall)
    {
      nextStamp := nextStamp + 1;
      var m := meta[key].(stamp := nextStamp, inSmall := toSmall);
      meta := meta[key := m];
      if toSmall {
        smallCost := smallCost + m.cost;
        small := small + [Queued(key, nextStamp)];
      } else {
        main := main + [Queued(key, nextStamp)];
      }
    }

    method RememberGhost(key: nat)
      requires ghostCap > 0
      modifies this`ghosts, this`ghostOrder
      ensures Now() == Remembering(old(Now()), key, ghostCap)
    {
      if |ghostOrder| >= ghostCap {
        if |ghostOrder| > 0 {
          var oldest := ghostOrder[0];
          ghostOrder := ghostOrder[1..];
          ghosts := ghosts - {oldest};
        }
      }
      if key !in ghosts {
        ghosts := ghosts + {key};
        ghostOrder := ghostOrder + [key];
      }
    }

    method Retain()
      modifies this`small, this`main
      ensures Now() == Compacted(old(Now()))
    {
      small, main := Retained(meta, small, true), Retained(meta, main, false);
    }

    /** Drops the stale entries once they outnumber the tracked keys. */
    method Compact()
      requires Valid()
      modifies this`small, this`main
      ensures Valid() && Abs() == old(Abs()) && |small| + |main| <= 2 * |meta| + 64
    {
      if |small| + |main| > 2 * |meta| + 64 {
        CompactKeeps(Now(), ghostCap);
        CompactedFits(Now(), ghostCap);
        Retain();
      }
    }

    method Raise(key: nat)
      requires key in meta
      modifies this`meta
      ensures Now() == Accessed(old(Now()), key)
    {
      meta := meta[key := Raised(meta[key])];
    }

    method OnAccess(key: nat)
      requires Valid()
      modifies this`meta
      ensures Valid() && Abs() == S3Model.Touch(old(Abs()), IdOf(key))
    {
      if key in meta {
        AccessKeeps(Now(), ghostCap, key);
        Raise(key);
      } else {
        Untracked(Now(), key, 0);
      }
    }

    method Recost(key: nat, cost: nat)
      requires key in meta && totalCost >= meta[key].cost && (meta[key].inSmall ==> smallCost >= meta[key].cost)
      modifies this`meta, this`totalCost, this`smallCost
      ensures Now() == Recosting(old(Now()), key, cost) && meta.Keys == old(meta).Keys
    {
      var m := meta[key];
      meta := meta[key := m.(cost := cost)];
      totalCost := totalCost - m.cost + cost;
      if m.inSmall {
        smallCost := smallCost - m.cost + cost;
      }
    }

    method Track(key: nat, cost: nat)
      requires key !in meta
      modifies this
      ensures Now() == Admitted(old(Now()), key, cost)
    {
      var toMain := key in ghosts;
      ghosts := ghosts - {key};
      meta := meta[key := Meta(cost, 0, true, 0)];
      totalCost := totalCost + cost;
      Push(key, !toMain);
    }

    method OnAdmit(key: nat, cost: nat)
      requires Valid()
      modifies this
      ensures Valid()
      ensures Abs() == if key in old(meta) then S3Model.Update(old(Abs()), IdOf(key), cost)
                       else S3Model.Admit(old(Abs()), IdOf(key), key, cost)
      ensures meta.Keys == old(meta).Keys + {key}
      ensures key !in old(meta) ==> |small| + |main| <= 2 * |meta| + 64
    {
      if key in meta {
        UpdateKnown(key, cost);
      } else {
        AdmitNew(key, cost);
      }
    }

    method UpdateKnown(key: nat, cost: nat)
      requires Valid() && key in meta
      modifies this
      ensures Valid() && Abs() == S3Model.Update(old(Abs()), IdOf(key), cost) && meta.Keys == old(meta).Keys
    {
      ghost var k := Now();
      RecostKeeps(k, ghostCap, key, cost);
      Recost(key, cost);
      assert Now() == Recosting(k, key, cost);
    }

    method AdmitNew(key: nat, cost: nat)
      requires Valid() && key !in meta
      modifies this
      ensures Valid() && Abs() == S3Model.Admit(old(Abs()), IdOf(key), key, cost)
      ensures meta.Keys == old(meta).Keys + {key} && |small| + |main| <= 2 * |meta| + 64
    {
      AdmitKeeps(Now(), ghostCap, key, cost);
      Track(key, cost);
      Compact();
    }

    method Forget(key: nat)
      requires key in meta && totalCost >= meta[key].cost && (meta[key].inSmall ==> smallCost >= meta[key].cost)
      modifies this`meta, this`smallCost, this`totalCost
      ensures Now() == Forgotten(old(Now()), key)
    {
      var m := meta[key];
      meta := meta - {key};
      totalCost := totalCost - m.cost;
      if m.inSmall {
        smallCost := smallCost - m.cost;
      }
    }

    /** Forgets the key; its queue entry stays, and is stale. */
    method OnRemove(key: nat)
      requires Valid()
      modifies this`meta, this`smallCost, this`totalCost
      ensures Valid() && Abs() == S3Model.Remove(old(Abs()), IdOf(key)) && meta == old(meta) - {key}
    {
      if key in meta {
        ForgetKeeps(Now(), ghostCap, key);
        Forget(key);
      } else {
        Untracked(Now(), key, 0);
        assert meta == old(meta) - {key};
      }
    }

    method Promote()
      requires small != [] && small[0].key in meta && smallCost >= meta[small[0].key].cost
      modifies this
      ensures Now() == Promoted(old(Now()))
    {
      var key := small[0].key;
      var m := meta[key];
      small := small[1..];
      smallCost := smallCost - m.cost;
      meta := meta[key := m.(freq := 0)];
      Push(key, false);
    }

    method DropSmall()
      requires ghostCap > 0 && small != [] && small[0].key in meta && totalCost >= smallCost >= meta[small[0].key].cost
      modifies this
      ensures Now() == SmallDropped(old(Now()), ghostCap)
    {
      var key := small[0].key;
      var m := meta[key];
      small := small[1..];
      smallCost := smallCost - m.cost;
      meta := meta - {key};
      totalCost := totalCost - m.cost;
      RememberGhost(key);
    }

    /** The oldest small entry, live: promoted, or evicted and remembered. */
    method SmallTurn(victims: seq<nat>) returns (freed: nat, victims': seq<nat>)
      requires Valid() && small != [] && IsLive(meta, small[0], true)
      modifies this
      ensures Valid() && old(Abs()).small != []
      ensures var o := S3Model.EvictSmall(old(Abs()), ghostCap);
              Abs() == o.state && freed == o.freed && victims' == victims + KeysOf(o.victims)
    {
      var key := small[0].key;
      var m := meta[key];
      if m.freq > 1 {
        PromoteKeeps(Now(), ghostCap);
        Promote();
        return 0, victims;
      }
      SmallDropKeeps(Now(), ghostCap);
      DropSmall();
      return m.cost, victims + [key];
    }

    method Requeue()
      requires main != [] && main[0].key in meta && meta[main[0].key].freq > 0
      modifies this
      ensures Now() == Requeued(old(Now()))
    {
      var key := main[0].key;
      var m := meta[key];
      main := main[1..];
      meta := meta[key := m.(freq := m.freq - 1)];
      Push(key, false);
    }

    method DropMain()
      requires main != [] && main[0].key in meta && totalCost >= meta[main[0].key].cost
      modifies this
      ensures Now() == MainDropped(old(Now()))
    {
      var key := main[0].key;
      main := main[1..];
      totalCost := totalCost - meta[key].cost;
      meta := meta - {key};
    }

    /** The oldest main entry, live: queued again, or evicted. */
    method MainTurn(victims: seq<nat>) returns (freed: nat, victims': seq<nat>)
      requires Valid() && main != [] && IsLive(meta, main[0], false)
      modifies this
      ensures Valid() && old(Abs()).main != []
      ensures var o := S3Model.EvictMain(old(Abs()));
              Abs() == o.state && freed == o.freed && victims' == victims + KeysOf(o.victims)
    {
      var key := main[0].key;
      var m := meta[key];
      if m.freq > 0 {
        RequeueKeeps(Now(), ghostCap);
        Requeue();
        return 0, victims;
      }
      MainDropKeeps(Now(), ghostCap);
      DropMain();
      return m.cost, victims + [key];
    }

    method PopSmall()
      requires small != []
      modifies this`small
      ensures Now() == old(Now()).(small := old(small)[1..])
    {
      small := small[1..];
    }

    method PopMain()
      requires main != []
      modifies this`main
      ensures Now() == old(Now()).(main := old(main)[1..])
    {
      main := main[1..];
    }

    /** One entry popped: stale and dropped, or live and a turn of the model. */
    method Turn(victims: seq<nat>) returns (freed: nat, victims': seq<nat>, any: bool, ghost live: bool)
      requires Valid()
      modifies this
      ensures Valid()
      ensures !any ==> Abs() == old(Abs()) && Abs().small == [] && Abs().main == [] && victims' == victims
      ensures any && !live ==>
                Abs() == old(Abs()) && freed == 0 && victims' == victims && |small| + |main| < old(|small| + |main|)
      ensures any && live ==> (old(Abs()).small != [] || old(Abs()).main != [])
      ensures any && live ==> var o := Step(old(Abs()), smallTarget, ghostCap);
              Abs() == o.state && freed == o.freed && victims' == victims + KeysOf(o.victims)
    {
      ChoosesAlike(Now(), ghostCap, smallTarget);
      freed, victims', any, live := 0, victims, true, true;
      if small != [] && (smallCost > smallTarget || main == []) {
        if IsLive(meta, small[0], true) {
          freed, victims' := SmallTurn(victims);
        } else {
          StaleSmallKeeps(Now(), ghostCap);
          PopSmall();
          live := false;
        }
      } else if main != [] {
        if IsLive(meta, main[0], false) {
          freed, victims' := MainTurn(victims);
        } else {
          StaleMainKeeps(Now(), ghostCap);
          PopMain();
          live := false;
        }
      } else {
        any := false;
      }
    }

    method Evict(want: nat) returns (victims: seq<nat>, freed: nat)
      requires Valid()
      modifies this
      ensures Valid()
      ensures var o := S3Model.Evict(old(Abs()), want, 0, smallTarget, ghostCap);
              Abs() == o.state && victims == KeysOf(o.victims) && freed == o.freed
    {
      victims, freed := [], 0;
      ghost var s0, s, named := Abs(), Abs(), [];
      while freed < want
        invariant Valid() && Abs() == s
        invariant Evicting(s0, want, smallTarget, ghostCap, s, named, victims, freed)
        decreases Potential(s), |small| + |main|
      {
        ghost var was := victims;
        ghost var live;
        var one, any;
        one, victims, any, live := Turn(victims);
        if !any {
          break;
        }
        if live {
          ghost var o := Step(s, smallTarget, ghostCap);
          EvictingTurn(s0, want, smallTarget, ghostCap, s, named, was, freed, o, named + o.victims, victims,
                       freed + one);
          s, named := o.state, named + o.victims;
        }
        freed := freed + one;
      }
      EvictingDone(s0, want, smallTarget, ghostCap, s, named, victims, freed);
    }

    method Clear()
      requires Valid()
      modifies this
      ensures Valid() && Abs() == INIT
    {
      meta, small, main, ghostOrder, ghosts, smallCost, totalCost := map[], [], [], [], {}, 0, 0;
    }
  }

  /** The loop has named `victims` and still has the rest of `s0`'s eviction to do. */
  ghost predicate Evicting(s0: State, want: nat, target: nat, cap: nat, s: State, named: seq<Node>, victims: seq<nat>,
                           freed: nat)
  {
    && victims == KeysOf(named)
    && S3Model.Evict(s0, want, 0, target, cap) == S3Fifo.Then(named, S3Model.Evict(s, want, freed, target, cap))
  }

  lemma EvictingTurn(s0: State, want: nat, target: nat, cap: nat, s: State, named: seq<Node>, victims: seq<nat>,
                     freed: nat,
                     o: Outcome, named': seq<Node>, victims': seq<nat>, freed': nat)
    requires Evicting(s0, want, target, cap, s, named, victims, freed) && !Stops(s, want, freed)
    requires o == Step(s, target, cap)
    requires named' == named + o.victims && victims' == victims + KeysOf(o.victims) && freed' == freed + o.freed
    ensures Evicting(s0, want, target, cap, o.state, named', victims', freed') && Potential(o.state) < Potential(s)
  {
    StepSpends(s, target, cap);
    S3Fifo.EvictUnrolls(named, s, want, freed, target, cap, o);
    KeysAppend(named, o.victims, named');
  }

  lemma KeysAppend(a: seq<Node>, b: seq<Node>, c: seq<Node>)
    requires c == a + b
    ensures KeysOf(a) + KeysOf(b) == KeysOf(c)
  {
  }

  lemma EvictingDone(s0: State, want: nat, target: nat, cap: nat, s: State, named: seq<Node>, victims: seq<nat>,
                     freed: nat)
    requires Evicting(s0, want, target, cap, s, named, victims, freed) && Stops(s, want, freed)
    ensures S3Model.Evict(s0, want, 0, target, cap) == Outcome(s, named, freed)
  {
    assert named + [] == named;
  }
}
