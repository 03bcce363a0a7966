/**
 Why a sweep of fired timers leaves no entry without one. A timer can fire early, or
 for a hash that several keys share; each firing of a hash arms at most one of the
 hash's waiting entries again, and there are never more of those than firings left.
 */
module Rearming {
  import opened Options
  import opened Residents
  import opened ShardState

  /** Handles held by an entry of hash `x` whose timer is not armed. */
  ghost function WaitingFor<K(!new)>(w: Wheel, ward: map<nat, K>, hasher: K -> nat, x: nat): (r: set<nat>)
  {
    set h: nat | h in ward && h !in w.armed && hasher(ward[h]) == x
  }

  ghost predicate Covered<K(!new)>(w: Wheel, ward: map<nat, K>, hasher: K -> nat, fired: seq<nat>)
  {
    forall x: nat {:trigger Mark(x)} :: Mark(x) ==> |WaitingFor(w, ward, hasher, x)| <= multiset(fired)[x]
  }

  /** The wheel lets the handles in `due` fire; which ones, and how early, is its business. */
  ghost predicate CanFire(w: Wheel, due: seq<nat>)
  {
    && (forall i :: 0 <= i < |due| ==> due[i] in w.armed)
    && (forall i, j :: 0 <= i < j < |due| ==> due[i] != due[j])
  }

  function Fired(w: Wheel, due: seq<nat>): (hashes: seq<nat>)
    requires forall i :: 0 <= i < |due| ==> due[i] in w.armed
  {
    seq(|due|, i requires 0 <= i < |due| => w.armed[due[i]])
  }

  function Advanced(w: Wheel, due: seq<nat>): (r: Wheel)
  {
    w.(armed := w.armed - set h | h in due)
  }

  lemma {:induction false} FiredCount(w: Wheel, due: seq<nat>, x: nat, some: set<nat>)
    requires CanFire(w, due)
    requires forall h :: h in some ==> h in due && h in w.armed && w.armed[h] == x
    ensures |some| <= multiset(Fired(w, due))[x]
  {
    if due == [] {
      assert some == {};
    } else {
      var last := |due| - 1;
      var h := due[last];
      assert Fired(w, due) == Fired(w, due[..last]) + [w.armed[h]];
      FiredCount(w, due[..last], x, some - {h});
      if h in some {
        assert |some| == |some - {h}| + 1;
      } else {
        assert some - {h} == some;
      }
    }
  }

  lemma AdvanceKeeps<K(!new), V>(p: Parcel<K, V>, hasher: K -> nat, m: Resident, due: seq<nat>)
    requires Agrees(p, hasher, m, {}) && OnTime(p.wheel, p.ward) && CanFire(p.wheel, due)
    ensures Agrees(p.(wheel := Advanced(p.wheel, due)), hasher, m, {})
    ensures Covered(Advanced(p.wheel, due), p.ward, hasher, Fired(p.wheel, due))
  {
    var w := Advanced(p.wheel, due);
    forall x: nat {:trigger Mark(x)} | Mark(x)
      ensures |WaitingFor(w, p.ward, hasher, x)| <= multiset(Fired(p.wheel, due))[x]
    {
      forall h: nat | h in WaitingFor(w, p.ward, hasher, x)
        ensures h in due && h in p.wheel.armed && p.wheel.armed[h] == x
      {
        assert Mark(h);
      }
      FiredCount(p.wheel, due, x, WaitingFor(w, p.ward, hasher, x));
    }
  }

  lemma FewerWaiting<K(!new)>(w: Wheel, ward: map<nat, K>, w': Wheel, ward': map<nat, K>, hasher: K -> nat,
                              fired: seq<nat>)
    requires Covered(w, ward, hasher, fired)
    requires forall h: nat :: h in ward' ==> h in ward && ward'[h] == ward[h] && (h in w'.armed <==> h in w.armed)
    ensures Covered(w', ward', hasher, fired)
  {
    forall x: nat {:trigger Mark(x)} | Mark(x)
      ensures |WaitingFor(w', ward', hasher, x)| <= multiset(fired)[x]
    {
      var a, b := WaitingFor(w', ward', hasher, x), WaitingFor(w, ward, hasher, x);
      assert a <= b;
      assert b == a + (b - a);
    }
  }

  /** Entry `k`, waiting under handle `h`, was armed again. */
  ghost function Rearmed<K(!new), V>(p: Parcel<K, V>, k: K, h: nat): (r: Parcel<K, V>)
    requires k in p.table
  {
    p.(table := p.table[k := p.table[k].(timer := Some(p.wheel.issued))],
       wheel := ArmIn(p.wheel, p.table[k].keyHash), ward := (p.ward - {h})[p.wheel.issued := k])
  }

  lemma RearmKeeps<K(!new), V>(p: Parcel<K, V>, hasher: K -> nat, m: Resident, k: K, h: nat)
    requires Agrees(p, hasher, m, {}) && k in p.table && p.table[k].timer == Some(h) && h !in p.wheel.armed
    ensures Agrees(Rearmed(p, k, h), hasher, m, {})
  {
    var r := Rearmed(p, k, h);
    assert Mark(k) && Mark(h);
    PutCost(p.table, k, r.table[k]);
    assert Mirrored(r.table, hasher, m, r.owner);
    RearmTimed(p, hasher, k, h);
  }

  lemma RearmTimed<K(!new), V>(p: Parcel<K, V>, hasher: K -> nat, k: K, h: nat)
    requires Timed(p.table, hasher, p.wheel, p.ward, {}) && k in p.table && p.table[k].timer == Some(h)
    requires h !in p.wheel.armed
    requires p.table[k].keyHash == hasher(k)
    ensures var r := Rearmed(p, k, h); Timed(r.table, hasher, r.wheel, r.ward, {})
  {
    assert Mark(k) && Mark(h) && Mark(p.wheel.issued);
    var r := Rearmed(p, k, h);
    forall j {:trigger Mark(j)} | Mark(j) && j in p.table && j != k && p.table[j].timer.Some?
      ensures p.table[j].timer.value in r.ward && r.ward[p.table[j].timer.value] == j
    {
      assert Mark(p.table[j].timer.value);
    }
  }

  lemma RearmCovers<K(!new), V>(p: Parcel<K, V>, hasher: K -> nat, k: K, h: nat, fired: seq<nat>)
    requires Timed(p.table, hasher, p.wheel, p.ward, {}) && k in p.table && p.table[k].timer == Some(h)
    requires h !in p.wheel.armed
    requires p.table[k].keyHash == hasher(k) && fired != [] && fired[0] == hasher(k)
    requires Covered(p.wheel, p.ward, hasher, fired)
    ensures Covered(Rearmed(p, k, h).wheel, Rearmed(p, k, h).ward, hasher, fired[1..])
  {
    var r := Rearmed(p, k, h);
    assert Mark(k) && Mark(h);
    assert fired == [fired[0]] + fired[1..];
    forall x: nat {:trigger Mark(x)} | Mark(x)
      ensures |WaitingFor(r.wheel, r.ward, hasher, x)| <= multiset(fired[1..])[x]
    {
      var a, b := WaitingFor(r.wheel, r.ward, hasher, x), WaitingFor(p.wheel, p.ward, hasher, x);
      if x == hasher(k) {
        assert h in b && a <= b - {h};
        assert b - {h} == a + (b - {h} - a);
      } else {
        assert a <= b;
        assert b == a + (b - a);
      }
    }
  }

  lemma NobodyCovers<K(!new), V>(p: Parcel<K, V>, hasher: K -> nat, m: Resident, fired: seq<nat>)
    requires Agrees(p, hasher, m, {}) && fired != [] && Covered(p.wheel, p.ward, hasher, fired)
    requires forall k ::
               k in p.table && p.table[k].keyHash == fired[0] && p.table[k].timer.Some? ==>
                     p.table[k].timer.value in p.wheel.armed
    ensures Covered(p.wheel, p.ward, hasher, fired[1..])
  {
    assert fired == [fired[0]] + fired[1..];
    forall x: nat {:trigger Mark(x)} | Mark(x)
      ensures |WaitingFor(p.wheel, p.ward, hasher, x)| <= multiset(fired[1..])[x]
    {
      if x == fired[0] {
        forall h: nat | h in WaitingFor(p.wheel, p.ward, hasher, x)
          ensures false
        {
          assert Mark(h) && Mark(p.ward[h]);
        }
        assert WaitingFor(p.wheel, p.ward, hasher, x) == {};
      }
    }
  }

  /** No firings left, nobody waiting. */
  lemma AllArmed<K(!new)>(w: Wheel, ward: map<nat, K>, hasher: K -> nat)
    requires Covered(w, ward, hasher, [])
    ensures OnTime(w, ward)
  {
    forall h: nat {:trigger Mark(h)} | Mark(h) && h in ward
      ensures h in w.armed
    {
      var x := hasher(ward[h]);
      assert Mark(x);
      assert WaitingFor(w, ward, hasher, x) == {};
      assert h !in WaitingFor(w, ward, hasher, x);
    }
  }
}
