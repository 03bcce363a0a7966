/**
 The queues of the key-based S3-FIFO, which forgets a key without looking for it in its queue: an entry
 left behind is recognised by its stamp. `Live` is what such a queue amounts to. A key stands for its hash.
 */
module KeyedModel {
  import opened Residents
  import opened S3Model

  datatype Meta = Meta(cost: nat, freq: nat, inSmall: bool, stamp: nat)

  datatype Queued = Queued(key: nat, stamp: nat)

  type Metas = map<nat, Meta>

  function IdOf(key: nat): (id: NodeId)
  {
    NodeId(0, key)
  }

  predicate IsLive(meta: Metas, e: Queued, small: bool)
  {
    e.key in meta && meta[e.key].stamp == e.stamp && meta[e.key].inSmall == small
  }

  function NodeOf(meta: Metas, key: nat): (n: Node)
    requires key in meta
  {
    Node(IdOf(key), key, meta[key].cost, meta[key].freq)
  }

  /** The live entries of a queue, oldest first. */
  function Live(meta: Metas, q: seq<Queued>, small: bool): (s: seq<Node>)
  {
    if q == [] then []
    else (if IsLive(meta, q[0], small) then [NodeOf(meta, q[0].key)] else []) + Live(meta, q[1..], small)
  }

  lemma {:induction false} LiveAppend(meta: Metas, q: seq<Queued>, e: Queued, small: bool)
    ensures Live(meta, q + [e], small) ==
            Live(meta, q, small) + (if IsLive(meta, e, small) then [NodeOf(meta, e.key)] else [])
  {
    if q == [] {
      assert q + [e] == [e];
      assert [e][1..] == [];
    } else {
      assert (q + [e])[1..] == q[1..] + [e];
      LiveAppend(meta, q[1..], e, small);
    }
  }

  /** A live node comes from an entry of the queue. */
  lemma {:induction false} LiveComesFrom(meta: Metas, q: seq<Queued>, small: bool, k: nat)
    requires k < |Live(meta, q, small)|
    ensures var n := Live(meta, q, small)[k];
            n.hash in meta && n == NodeOf(meta, n.hash) && Queued(n.hash, meta[n.hash].stamp) in q &&
                meta[n.hash].inSmall == small
  {
    if IsLive(meta, q[0], small) {
      if k > 0 {
        LiveComesFrom(meta, q[1..], small, k - 1);
      }
    } else {
      LiveComesFrom(meta, q[1..], small, k);
    }
  }

  /** Entries that stay live with the same node, or stay stale, leave the queue as it is. */
  lemma {:induction false} LiveKept(meta: Metas, meta': Metas, q: seq<Queued>, small: bool)
    requires forall e :: e in q ==>
               (IsLive(meta', e, small) <==> IsLive(meta, e, small)) &&
                   (IsLive(meta, e, small) ==> NodeOf(meta', e.key) == NodeOf(meta, e.key))
    ensures Live(meta', q, small) == Live(meta, q, small)
  {
    if q != [] {
      assert q[0] in q;
      LiveKept(meta, meta', q[1..], small);
    }
  }

  // ---------------------------------------------------------- one key's metadata

  /** One read more, at most three counted. */
  function Raised(m: Meta): (r: Meta)
  {
    m.(freq := if m.freq + 1 < FREQ_MAX then m.freq + 1 else FREQ_MAX)
  }

  lemma {:induction false} LiveBumped(meta: Metas, q: seq<Queued>, small: bool, key: nat)
    requires key in meta && meta[key].freq <= FREQ_MAX
    ensures Live(meta[key := Raised(meta[key])], q, small) == BumpNodes(Live(meta, q, small), IdOf(key))
  {
    if q != [] {
      LiveBumped(meta, q[1..], small, key);
      var rest := Live(meta, q[1..], small);
      if IsLive(meta, q[0], small) {
        BumpedHead(NodeOf(meta, q[0].key), NodeOf(meta[key := Raised(meta[key])], q[0].key), rest, IdOf(key));
      } else {
        assert [] + rest == rest;
      }
    }
  }

  lemma BumpedHead(n: Node, n': Node, rest: seq<Node>, id: NodeId)
    requires n' == if n.id == id && n.freq < FREQ_MAX then n.(freq := n.freq + 1) else n
    ensures BumpNodes([n] + rest, id) == [n'] + BumpNodes(rest, id)
  {
  }

  lemma {:induction false} LiveRecosted(meta: Metas, q: seq<Queued>, small: bool, key: nat, cost: nat)
    requires key in meta
    ensures Live(meta[key := meta[key].(cost := cost)], q, small) == RecostNodes(Live(meta, q, small), IdOf(key), cost)
  {
    if q != [] {
      LiveRecosted(meta, q[1..], small, key, cost);
      var rest := Live(meta, q[1..], small);
      if IsLive(meta, q[0], small) {
        RecostedHead(NodeOf(meta, q[0].key), NodeOf(meta[key := meta[key].(cost := cost)], q[0].key), rest, IdOf(key),
                     cost);
      } else {
        assert [] + rest == rest;
      }
    }
  }

  lemma RecostedHead(n: Node, n': Node, rest: seq<Node>, id: NodeId, cost: nat)
    requires n' == if n.id == id then n.(cost := cost) else n
    ensures RecostNodes([n] + rest, id, cost) == [n'] + RecostNodes(rest, id, cost)
  {
  }

  /** Forgetting a key drops its node; its entry stays behind. */
  lemma {:induction false} LiveForgotten(meta: Metas, q: seq<Queued>, small: bool, key: nat)
    ensures Live(meta - {key}, q, small) == DropNodes(Live(meta, q, small), IdOf(key))
  {
    if q != [] {
      LiveForgotten(meta, q[1..], small, key);
      var rest := Live(meta, q[1..], small);
      if IsLive(meta, q[0], small) {
        assert ([NodeOf(meta, q[0].key)] + rest)[1..] == rest;
      } else {
        assert [] + rest == rest;
      }
    }
  }

  // ---------------------------------------------------------------- the invariant

  /** Stamps grow along a queue and none is ahead of the counter. */
  ghost predicate Stamped(q: seq<Queued>, next: nat)
  {
    && (forall i, j :: 0 <= i < j < |q| ==> q[i].stamp < q[j].stamp)
    && (forall i :: 0 <= i < |q| ==> q[i].stamp <= next)
  }

  ghost predicate HasEntry(q: seq<Queued>, key: nat, stamp: nat)
  {
    Queued(key, stamp) in q
  }

  /** Every key tracked stands in its queue under its stamp. */
  ghost predicate Tracked(meta: Metas, small: seq<Queued>, main: seq<Queued>)
  {
    forall key :: key in meta ==> HasEntry(if meta[key].inSmall then small else main, key, meta[key].stamp)
  }

  ghost predicate Capping(meta: Metas)
  {
    forall key :: key in meta ==> meta[key].freq <= FREQ_MAX
  }

  /** No two live nodes share a key: two entries of one key differ in their stamps. */
  ghost predicate Unique(s: seq<Node>)
  {
    forall i, j :: 0 <= i < j < |s| ==> s[i].hash != s[j].hash
  }

  lemma {:induction false} LiveUnique(meta: Metas, q: seq<Queued>, small: bool, next: nat)
    requires Stamped(q, next)
    ensures Unique(Live(meta, q, small))
  {
    if q != [] {
      assert forall i :: 0 <= i < |q[1..]| ==> q[1..][i] == q[i + 1];
      LiveUnique(meta, q[1..], small, next);
      if IsLive(meta, q[0], small) {
        var rest := Live(meta, q[1..], small);
        forall k | 0 <= k < |rest|
          ensures rest[k].hash != q[0].key
        {
          LiveComesFrom(meta, q[1..], small, k);
          var e := Queued(rest[k].hash, meta[rest[k].hash].stamp);
          var i :| 0 <= i < |q[1..]| && q[1..][i] == e;
          assert q[0].stamp < q[i + 1].stamp;
        }
      }
    }
  }

  /** A key tracked in a queue has its node there. */
  lemma {:induction false} LiveContains(meta: Metas, q: seq<Queued>, small: bool, key: nat)
    requires key in meta && meta[key].inSmall == small && HasEntry(q, key, meta[key].stamp)
    ensures NodeOf(meta, key) in Live(meta, q, small)
  {
    var e := Queued(key, meta[key].stamp);
    if q[0] == e {
      assert Live(meta, q, small)[0] == NodeOf(meta, key);
    } else {
      assert e in q[1..];
      LiveContains(meta, q[1..], small, key);
      var rest := Live(meta, q[1..], small);
      var k :| 0 <= k < |rest| && rest[k] == NodeOf(meta, key);
      var all := Live(meta, q, small);
      assert all[if IsLive(meta, q[0], small) then k + 1 else k] == NodeOf(meta, key);
    }
  }

  // -------------------------------------------------------------- costs of a queue

  lemma {:induction false} CostRecosted(s: seq<Node>, id: NodeId, cost: nat)
    requires forall k :: 0 <= k < |s| ==> s[k].id != id
    ensures RecostNodes(s, id, cost) == s && DropNodes(s, id) == s
  {
    DropAbsent(s, id);
  }

  /** The one node of a key, among others. */
  lemma {:induction false} CostOfOne(s: seq<Node>, k: nat, cost: nat)
    requires k < |s| && forall j :: 0 <= j < |s| && j != k ==> s[j].id != s[k].id
    ensures Cost(RecostNodes(s, s[k].id, cost)) == Cost(s) - s[k].cost + cost
    ensures Cost(DropNodes(s, s[k].id)) == Cost(s) - s[k].cost
  {
    var r := RecostNodes(s, s[k].id, cost);
    if k == 0 {
      CostRecosted(s[1..], s[0].id, cost);
      assert r[1..] == RecostNodes(s[1..], s[0].id, cost);
    } else {
      CostOfOne(s[1..], k - 1, cost);
      assert r[1..] == RecostNodes(s[1..], s[k].id, cost);
      var d := DropNodes(s, s[k].id);
      assert d[1..] == DropNodes(s[1..], s[k].id);
    }
  }
}
