/**
 What a shard sees of a built-in policy: the nodes it holds, each with the hash
 and cost of its entry, and the victims it names by hash and node id.
 */
module Residents {

  /** A node id: `generation << 32 | slot` in the packed form. */
  datatype NodeId = NodeId(generation: nat, slot: nat)

  datatype Item = Item(hash: nat, cost: nat)

  /** The policy's nodes by id. */
  type Resident = map<NodeId, Item>

  /** An entry the policy wants removed. */
  datatype Victim = Victim(hash: nat, node: NodeId)

  /** The victims are distinct nodes of `m`, each named with its own hash. */
  ghost predicate Named(m: Resident, out: seq<Victim>)
  {
    && (forall k :: 0 <= k < |out| ==> out[k].node in m && m[out[k].node].hash == out[k].hash)
    && (forall j, k :: 0 <= j < k < |out| ==> out[j].node != out[k].node)
  }

  ghost function NodesOf(out: seq<Victim>): set<NodeId>
  {
    set k | 0 <= k < |out| :: out[k].node
  }

  ghost function Freed(m: Resident, out: seq<Victim>): (f: nat)
    requires Named(m, out)
  {
    if out == [] then 0 else m[out[0].node].cost + Freed(m, out[1..])
  }

  lemma {:induction false} FreedAppend(m: Resident, out: seq<Victim>, v: Victim)
    requires Named(m, out + [v]) && v.node in m
    ensures Named(m, out) && Freed(m, out + [v]) == Freed(m, out) + m[v.node].cost
  {
    assert forall k :: 0 <= k < |out| ==> out[k] == (out + [v])[k];
    assert (out + [v])[|out|] == v;
    if out == [] {
      assert out + [v] == [v];
    } else {
      assert (out + [v])[1..] == out[1..] + [v];
      FreedAppend(m, out[1..], v);
    }
  }

  /** One more victim, taken from what the earlier ones left. */
  lemma NameOneMore(m: Resident, left: Resident, out: seq<Victim>, v: Victim)
    requires Named(m, out) && left == m - NodesOf(out) && v.node in left && left[v.node].hash == v.hash
    ensures Named(m, out + [v]) && left - {v.node} == m - NodesOf(out + [v])
    ensures Freed(m, out + [v]) == Freed(m, out) + left[v.node].cost
  {
    var all := out + [v];
    assert forall k :: 0 <= k < |out| ==> all[k] == out[k] && all[k].node in NodesOf(out);
    assert all[|out|] == v;
    assert NodesOf(all) == NodesOf(out) + {v.node};
    FreedAppend(m, out, v);
  }

  /** `left` is `held` without the at most one victim in `named`, whose cost is `freed`. */
  ghost predicate Took(held: Resident, named: seq<Victim>, freed: nat, left: Resident)
  {
    if named == [] then left == held && freed == 0
    else
      && |named| == 1 && named[0].node in held
      && held[named[0].node] == Item(named[0].hash, freed)
      && left == held - {named[0].node}
  }

  lemma TookOneMore(m: Resident, out: seq<Victim>, held: Resident, named: seq<Victim>, freed: nat, left: Resident)
    requires Named(m, out) && held == m - NodesOf(out) && Took(held, named, freed, left)
    ensures Named(m, out + named) && left == m - NodesOf(out + named)
    ensures Freed(m, out + named) == Freed(m, out) + freed
  {
    if named == [] {
      assert out + named == out;
    } else {
      assert named == [named[0]];
      NameOneMore(m, held, out, named[0]);
    }
  }

  /** Two batches of victims, the second taken from what the first left. */
  lemma {:induction false} NameMany(m: Resident, left: Resident, out: seq<Victim>, more: seq<Victim>)
    requires Named(m, out) && left == m - NodesOf(out) && Named(left, more)
    ensures Named(m, out + more) && left - NodesOf(more) == m - NodesOf(out + more)
    ensures Freed(m, out + more) == Freed(m, out) + Freed(left, more)
  {
    if more == [] {
      assert out + more == out;
      assert left - NodesOf(more) == left;
    } else {
      var last := |more| - 1;
      NameMany(m, left, out, more[..last]);
      assert more == more[..last] + [more[last]];
      FreedAppend(left, more[..last], more[last]);
      assert more[last].node !in NodesOf(more[..last]);
      NameOneMore(m, left - NodesOf(more[..last]), out + more[..last], more[last]);
      assert out + more == out + more[..last] + [more[last]];
      NodesOfAppend(more[..last], more[last]);
    }
  }

  lemma NodesOfAppend(out: seq<Victim>, v: Victim)
    ensures NodesOf(out + [v]) == NodesOf(out) + {v.node}
  {
    assert forall k :: 0 <= k < |out| ==> (out + [v])[k] == out[k];
    assert (out + [v])[|out|] == v;
  }

  /** Without the last victim, less than `want` would have been freed. */
  ghost predicate Tight(m: Resident, out: seq<Victim>, want: nat)
    requires Named(m, out)
  {
    out != [] ==> Freed(m, out) - m[out[|out| - 1].node].cost < want
  }

  lemma TookTight(m: Resident, out: seq<Victim>, held: Resident, named: seq<Victim>, freed: nat, left: Resident,
                  want: nat)
    requires Named(m, out) && held == m - NodesOf(out) && Took(held, named, freed, left) && Tight(m, out, want)
    requires Freed(m, out) < want
    ensures Named(m, out + named) && Tight(m, out + named, want)
  {
    TookOneMore(m, out, held, named, freed, left);
    if named == [] {
      assert out + named == out;
    } else {
      assert (out + named)[|out + named| - 1] == named[0];
    }
  }

  lemma TightMany(m: Resident, left: Resident, out: seq<Victim>, more: seq<Victim>, want: nat, rest: nat)
    requires Named(m, out) && left == m - NodesOf(out) && Named(left, more) && Tight(m, out, want)
    requires Tight(left, more, rest)
    requires rest == if want > Freed(m, out) then want - Freed(m, out) else 0
    requires more != [] ==> rest > 0
    ensures Named(m, out + more) && Tight(m, out + more, want)
  {
    NameMany(m, left, out, more);
    if more == [] {
      assert out + more == out;
    } else {
      assert (out + more)[|out + more| - 1] == more[|more| - 1];
    }
  }
}
