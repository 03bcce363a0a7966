/**
 The two forms of W-TinyLFU, operation by operation. They make the same decisions but for three kinds of operation,
 each with its exact condition here: a new value that makes an entry too costly for the window, a read that reaches
 the policy after its entry was replaced or has gone, and a request to evict nothing while the protected segment is
 over its capacity.
 */
module TinyLockstep {
  import opened Residents
  import opened Sketches
  import opened TinyModel
  import opened KeyedTiny

  function Faces(q: seq<Node>): (l: seq<Entry>)
    ensures |l| == |q| && forall i :: 0 <= i < |q| ==> l[i] == Entry(q[i].hash, q[i].cost)
  {
    seq(|q|, i requires 0 <= i < |q| => Entry(q[i].hash, q[i].cost))
  }

  /** The slab form's state by keys. */
  function View(s: State): (k: Keyed)
  {
    Keyed(Faces(s.q[WINDOW]), Faces(s.q[PROBATION]), Faces(s.q[PROTECTED]), s.sketch)
  }

  function KeysOf(victims: seq<Node>): (keys: seq<nat>)
  {
    seq(|victims|, i requires 0 <= i < |victims| => victims[i].hash)
  }

  // ------------------------------------------------------------- one node per key

  ghost predicate Apart(a: Node, b: Node)
  {
    a.id != b.id && a.hash != b.hash
  }

  ghost predicate AllApart(q: seq<Node>)
  {
    forall i, j :: 0 <= i < j < |q| ==> Apart(q[i], q[j])
  }

  ghost predicate BothApart(a: seq<Node>, b: seq<Node>)
  {
    forall i, j :: 0 <= i < |a| && 0 <= j < |b| ==> Apart(a[i], b[j])
  }

  /** No two nodes share an id, or a key. */
  ghost predicate Proper(q: Queues)
  {
    && AllApart(q[WINDOW]) && AllApart(q[PROBATION]) && AllApart(q[PROTECTED])
    && BothApart(q[WINDOW], q[PROBATION]) && BothApart(q[WINDOW], q[PROTECTED]) && BothApart(q[PROBATION], q[PROTECTED])
  }

  // -------------------------------------------------------------------- the lists

  lemma {:induction false} FaceCosts(q: seq<Node>)
    ensures CostOf(Faces(q)) == Cost(q)
  {
    if q != [] {
      assert Faces(q)[1..] == Faces(q[1..]);
      FaceCosts(q[1..]);
    }
  }

  lemma FacesAppend(a: seq<Node>, b: seq<Node>)
    ensures Faces(a + b) == Faces(a) + Faces(b)
    ensures a != [] ==> Faces(a[1..]) == Faces(a)[1..] && Drop(a, 0) == a[1..]
  {
  }

  /** A key is found where its node stands. */
  lemma FoundAt(q: seq<Node>, k: nat)
    requires AllApart(q) && k < |q|
    ensures At(Faces(q), q[k].hash) == k && Without(Faces(q), q[k].hash) == Faces(Drop(q, k)) && Find(q, q[k].id) == k
  {
    var l := Faces(q);
    assert At(l, q[k].hash) < |l| by {
      if At(l, q[k].hash) == |l| {
        assert l[k].key == q[k].hash;
      }
    }
    assert l[At(l, q[k].hash)].key == q[k].hash;
  }

  lemma NotFoundIn(q: seq<Node>, n: Node)
    requires forall i :: 0 <= i < |q| ==> Apart(q[i], n)
    ensures !Contains(Faces(q), n.hash) && Find(q, n.id) == |q|
  {
    assert forall i :: 0 <= i < |q| ==> Faces(q)[i].key == q[i].hash;
  }

  // ------------------------------------------------------------------- the sketch

  /** No counter is at the edge of 32 bits. */
  ghost predicate Safe(c: Counts, threshold: nat)
  {
    0 < threshold <= SAFE && c.increments < threshold && Bounded(c.counters, threshold - 1 + c.increments)
  }

  lemma CountsAlike(c: Counts, p: Params, key: nat)
    requires Safe(c, p.threshold)
    ensures Increment(c, p, key) == Seen(c, p, key) && Safe(Increment(c, p, key), p.threshold)
  {
    var b := Bumped(c.counters, p.index, key);
    forall row | 0 <= row < |b|
      ensures b[row] == Count(c.counters, p.index, key)[row]
    {
      var i := p.index(key, row);
      if i < |c.counters[row]| {
        assert c.counters[row][i] <= p.threshold - 1 + c.increments;
      }
    }
    assert b == Count(c.counters, p.index, key);
    forall row, i | 0 <= row < |b| && 0 <= i < |b[row]|
      ensures b[row][i] <= p.threshold + c.increments
    {
      assert b[row] == BumpRow(c.counters[row], p.index(key, row));
      assert c.counters[row][i] <= p.threshold - 1 + c.increments;
    }
    if c.increments + 1 >= p.threshold {
      forall row, i | 0 <= row < |b| && 0 <= i < |b[row]|
        ensures Halved(b)[row][i] <= p.threshold - 1
      {
        assert b[row][i] <= 2 * p.threshold - 1;
      }
    }
  }

  // ------------------------------------------------------- what keeps nodes apart

  lemma DropApart(q: seq<Node>, k: nat, b: seq<Node>)
    requires AllApart(q) && k < |q| && BothApart(q, b)
    ensures AllApart(Drop(q, k)) && BothApart(Drop(q, k), b)
    ensures forall i :: 0 <= i < |Drop(q, k)| ==> Apart(Drop(q, k)[i], q[k])
  {
  }

  ghost predicate ApartFrom(q: seq<Node>, n: Node)
  {
    forall i :: 0 <= i < |q| ==> Apart(q[i], n)
  }

  lemma AddApart(q: seq<Node>, n: Node, b: seq<Node>)
    requires AllApart(q) && BothApart(q, b) && ApartFrom(q, n) && ApartFrom(b, n)
    ensures AllApart(q + [n]) && BothApart(q + [n], b)
  {
  }

  lemma ApartSwaps(a: seq<Node>, b: seq<Node>)
    requires BothApart(a, b)
    ensures BothApart(b, a)
  {
  }

  /** Properness, seen from one queue and the two others. */
  lemma ProperAround(q: Queues, seg: nat)
    requires seg < 3
    ensures var x, y := (seg + 1) % 3, (seg + 2) % 3;
            Proper(q) <==>
                  AllApart(q[seg]) && AllApart(q[x]) && AllApart(q[y]) && BothApart(q[seg], q[x]) &&
                      BothApart(q[seg], q[y]) && BothApart(q[x], q[y])
  {
    assert seg == 0 || seg == 1 || seg == 2;
  }

  lemma DropKeepsProper(q: Queues, seg: nat, k: nat)
    requires Proper(q) && seg < 3 && k < |q[seg]|
    ensures Proper(q[seg := Drop(q[seg], k)])
    ensures var r := q[seg := Drop(q[seg], k)]; forall o :: 0 <= o < 3 ==> ApartFrom(r[o], q[seg][k])
  {
    var x, y, r := (seg + 1) % 3, (seg + 2) % 3, q[seg := Drop(q[seg], k)];
    ProperAround(q, seg);
    ProperAround(r, seg);
    DropApart(q[seg], k, q[x]);
    DropApart(q[seg], k, q[y]);
    ApartSwaps(q[seg], q[x]);
    ApartSwaps(q[seg], q[y]);
    assert ApartFrom(r[seg], q[seg][k]) && ApartFrom(r[x], q[seg][k]) && ApartFrom(r[y], q[seg][k]);
  }

  lemma AddKeepsProper(q: Queues, seg: nat, n: Node)
    requires Proper(q) && seg < 3 && forall o :: 0 <= o < 3 ==> ApartFrom(q[o], n)
    ensures Proper(q[seg := q[seg] + [n]])
  {
    var x, y, r := (seg + 1) % 3, (seg + 2) % 3, q[seg := q[seg] + [n]];
    ProperAround(q, seg);
    ProperAround(r, seg);
    AddApart(q[seg], n, q[x]);
    AddApart(q[seg], n, q[y]);
  }

  lemma MoveKeepsProper(q: Queues, from: nat, k: nat, to: nat)
    requires Proper(q) && from < 3 && to < 3 && k < |q[from]|
    ensures Proper(Move(q, from, k, to))
  {
    DropKeepsProper(q, from, k);
    AddKeepsProper(q[from := Drop(q[from], k)], to, q[from][k]);
  }

  lemma RecostKeepsProper(q: Queues, seg: nat, k: nat, cost: nat)
    requires Proper(q) && seg < 3 && k < |q[seg]|
    ensures Proper(q[seg := q[seg][k := q[seg][k].(cost := cost)]])
  {
    var x, y, r := (seg + 1) % 3, (seg + 2) % 3, q[seg := q[seg][k := q[seg][k].(cost := cost)]];
    ProperAround(q, seg);
    ProperAround(r, seg);
  }

  lemma {:induction false} MaintainKeepsProper(q: Queues, cap: nat)
    requires Proper(q)
    ensures Proper(Maintain(q, cap))
    decreases |q[PROTECTED]|
  {
    if Cost(q[PROTECTED]) > cap && q[PROTECTED] != [] {
      MoveKeepsProper(q, PROTECTED, 0, PROBATION);
      MaintainKeepsProper(Move(q, PROTECTED, 0, PROBATION), cap);
    }
  }

  lemma AdmitTurnKeepsProper(s: State, p: Params)
    requires Proper(s.q) && s.q[WINDOW] != []
    ensures Proper(AdmitTurn(s, p).state.q)
  {
    MoveKeepsProper(s.q, WINDOW, 0, PROBATION);
    DropKeepsProper(s.q, WINDOW, 0);
  }

  lemma {:induction false} SettleKeepsProper(s: State, p: Params)
    requires Proper(s.q)
    ensures Proper(Settle(s, p).state.q)
    decreases |s.q[WINDOW]|
  {
    if Cost(s.q[WINDOW]) > p.windowTarget && s.q[WINDOW] != [] {
      AdmitTurnKeepsProper(s, p);
      SettleKeepsProper(AdmitTurn(s, p).state, p);
    }
  }

  lemma {:induction false} TrimKeepsProper(q: Queues, seg: nat, want: nat)
    requires Proper(q) && seg < 3
    ensures Proper(Trim(q, seg, want).q)
    decreases |q[seg]|
  {
    if want > 0 && q[seg] != [] {
      DropKeepsProper(q, seg, 0);
      TrimKeepsProper(q[seg := Drop(q[seg], 0)], seg, Minus(want, q[seg][0].cost));
    }
  }

  // ---------------------------------------------------------- operation by operation

  lemma {:induction false} DemoteAgrees(s: State, cap: nat)
    ensures Demote(View(s), cap) == View(s.(q := Maintain(s.q, cap)))
    decreases |s.q[PROTECTED]|
  {
    var q := s.q;
    FaceCosts(q[PROTECTED]);
    if Cost(q[PROTECTED]) > cap && q[PROTECTED] != [] {
      var r := s.(q := Move(q, PROTECTED, 0, PROBATION));
      FacesAppend(q[PROTECTED], []);
      FacesAppend(q[PROBATION], [q[PROTECTED][0]]);
      assert Faces([q[PROTECTED][0]]) == [Faces(q[PROTECTED])[0]];
      DemoteAgrees(r, cap);
    }
  }

  /** A node is found, in its queue only, by id and by key. */
  lemma Stands(q: Queues, seg: nat, k: nat)
    requires Proper(q) && seg < 3 && k < |q[seg]|
    ensures Where(q, q[seg][k].id) == seg && Find(q[seg], q[seg][k].id) == k
    ensures forall o :: 0 <= o < 3 ==> (Contains(Faces(q[o]), q[seg][k].hash) <==> o == seg)
    ensures Without(Faces(q[seg]), q[seg][k].hash) == Faces(Drop(q[seg], k))
  {
    var x, y, n := (seg + 1) % 3, (seg + 2) % 3, q[seg][k];
    ProperAround(q, seg);
    FoundAt(q[seg], k);
    NotFoundIn(q[x], n);
    NotFoundIn(q[y], n);
    assert seg == 0 || seg == 1 || seg == 2;
  }

  /** A read is an update at the same cost. */
  lemma TouchIsUpdate(s: State, p: Params, seg: nat, k: nat)
    requires Proper(s.q) && seg < 3 && k < |s.q[seg]|
    ensures Touch(s, p, s.q[seg][k].id) == Update(s, p, s.q[seg][k].id, s.q[seg][k].cost)
  {
    Stands(s.q, seg, k);
    var n := s.q[seg][k];
    assert s.q[seg][k := n.(cost := n.cost)] == s.q[seg];
    assert s.q[seg := s.q[seg][k := n.(cost := n.cost)]] == s.q;
  }

  /** The front of a queue after its node `k` came there with another cost. */
  lemma Fronted(q: seq<Node>, k: nat, cost: nat)
    requires AllApart(q) && k < |q|
    ensures var n := q[k].(cost := cost);
            && Drop(q[k := n], k) == Drop(q, k)
            && PushFront(Faces(q), n.hash, cost) == Faces(Drop(q, k) + [n])
  {
    FoundAt(q, k);
    FacesAppend(Drop(q, k), [q[k].(cost := cost)]);
    assert Faces([q[k].(cost := cost)]) == [Entry(q[k].hash, cost)];
    assert Drop(q[k := q[k].(cost := cost)], k) == Drop(q, k);
  }

  lemma WindowUpdate(s: State, p: Params, k: nat, cost: nat)
    requires Proper(s.q) && k < |s.q[WINDOW]|
    ensures var n := s.q[WINDOW][k];
            View(Update(s, p, n.id, cost)) ==
                View(s).(window := PushFront(View(s).window, n.hash, cost), sketch := Seen(s.sketch, p, n.hash))
  {
    Stands(s.q, WINDOW, k);
    Fronted(s.q[WINDOW], k, cost);
  }

  lemma ProtectedUpdate(s: State, p: Params, k: nat, cost: nat)
    requires Proper(s.q) && k < |s.q[PROTECTED]|
    ensures var n := s.q[PROTECTED][k];
            View(Update(s, p, n.id, cost)) ==
                TouchMain(View(s).(sketch := Seen(s.sketch, p, n.hash)), n.hash, cost, p.protCapacity)
  {
    Stands(s.q, PROTECTED, k);
    Fronted(s.q[PROTECTED], k, cost);
  }

  lemma ProbationUpdate(s: State, p: Params, k: nat, cost: nat)
    requires Proper(s.q) && k < |s.q[PROBATION]|
    ensures var n := s.q[PROBATION][k];
            View(Update(s, p, n.id, cost)) ==
                TouchMain(View(s).(sketch := Seen(s.sketch, p, n.hash)), n.hash, cost, p.protCapacity)
  {
    var n := s.q[PROBATION][k];
    var n' := n.(cost := cost);
    var q := s.q[PROBATION := s.q[PROBATION][k := n']];
    Stands(s.q, PROBATION, k);
    Fronted(s.q[PROBATION], k, cost);
    FacesAppend(s.q[PROTECTED], [n']);
    assert Faces([n']) == [Entry(n.hash, cost)];
    var t := State(Move(q, PROBATION, k, PROTECTED), Seen(s.sketch, p, n.hash));
    DemoteAgrees(t, p.protCapacity);
    assert View(t) == View(s).(sketch := t.sketch, probation := Without(Faces(s.q[PROBATION]), n.hash),
                               protected := Faces(s.q[PROTECTED]) + [Entry(n.hash, cost)]);
  }

  /** A read of a resident key, at its cost. */
  lemma AccessAgrees(s: State, p: Params, seg: nat, k: nat)
    requires Proper(s.q) && Safe(s.sketch, p.threshold) && seg < 3 && k < |s.q[seg]|
    ensures var n := s.q[seg][k]; OnAccess(View(s), p, n.hash, n.cost) == View(Touch(s, p, n.id))
  {
    var n := s.q[seg][k];
    CountsAlike(s.sketch, p, n.hash);
    TouchIsUpdate(s, p, seg, k);
    Stands(s.q, seg, k);
    if seg == WINDOW {
      WindowUpdate(s, p, k, n.cost);
    } else if seg == PROBATION {
      ProbationUpdate(s, p, k, n.cost);
    } else {
      ProtectedUpdate(s, p, k, n.cost);
    }
  }

  /** A new value for a key in the main segments. */
  lemma MainUpdateAgrees(s: State, p: Params, seg: nat, k: nat, cost: nat)
    requires Proper(s.q) && Safe(s.sketch, p.threshold) && (seg == PROBATION || seg == PROTECTED) && k < |s.q[seg]|
    ensures var n := s.q[seg][k]; OnAdmit(View(s), p, n.hash, cost) == Decided(View(Update(s, p, n.id, cost)), [])
  {
    CountsAlike(s.sketch, p, s.q[seg][k].hash);
    Stands(s.q, seg, k);
    if seg == PROBATION {
      ProbationUpdate(s, p, k, cost);
    } else {
      ProtectedUpdate(s, p, k, cost);
    }
  }

  // --------------------------------------------------------------- the window's loop

  lemma KeysAppend(a: seq<Node>, b: seq<Node>)
    ensures KeysOf(a + b) == KeysOf(a) + KeysOf(b)
  {
  }

  /** One candidate of the window. */
  lemma TurnAgrees(s: State, p: Params)
    requires Proper(s.q) && s.q[WINDOW] != []
    ensures var a, e := AdmitTurn(s, p), View(s).window[0]; var t := View(s).(window := View(s).window[1..]);
            && (LetIn(s, p) <==>
                CostOf(t.probation) + CostOf(t.protected) + e.cost <= p.mainCapacity || PeekLru(t) == []
                                 || EstimateOf(t.sketch, p.index, e.key) >= EstimateOf(t.sketch, p.index,
                                       PeekLru(t)[0].key))
            && View(a.state) == (if LetIn(s, p) then AdmitInternal(t, e) else t)
            && a.victims == (if LetIn(s, p) then [] else [s.q[WINDOW][0]]) && e.key == s.q[WINDOW][0].hash
  {
    var n := s.q[WINDOW][0];
    FaceCosts(s.q[PROBATION]);
    FaceCosts(s.q[PROTECTED]);
    FacesAppend(s.q[WINDOW], []);
    Stands(s.q, WINDOW, 0);
    FacesAppend(s.q[PROBATION], [n]);
    assert Faces([n]) == [Entry(n.hash, n.cost)];
  }

  /** The key-based loop takes the same turn. */
  lemma ManageTurn(s: State, p: Params)
    requires Proper(s.q) && s.q[WINDOW] != [] && Cost(s.q[WINDOW]) > p.windowTarget
    ensures var a := AdmitTurn(s, p); var rest := Manage(View(a.state), p);
            Manage(View(s), p) == Decided(rest.state, KeysOf(a.victims) + rest.rejected)
  {
    FaceCosts(s.q[WINDOW]);
    TurnAgrees(s, p);
    var a := AdmitTurn(s, p);
    var rest := Manage(View(a.state), p);
    assert KeysOf(a.victims) == if LetIn(s, p) then [] else [s.q[WINDOW][0].hash];
    assert [] + rest.rejected == rest.rejected;
  }

  lemma {:induction false} ManageAgrees(s: State, p: Params)
    requires Proper(s.q)
    ensures var a := Settle(s, p); Manage(View(s), p) == Decided(View(a.state), KeysOf(a.victims))
    decreases |s.q[WINDOW]|
  {
    if Cost(s.q[WINDOW]) > p.windowTarget && s.q[WINDOW] != [] {
      var a := AdmitTurn(s, p);
      ManageTurn(s, p);
      AdmitTurnKeepsProper(s, p);
      ManageAgrees(a.state, p);
      KeysAppend(a.victims, Settle(a.state, p).victims);
    } else {
      FaceCosts(s.q[WINDOW]);
      assert KeysOf([]) == [];
    }
  }

  lemma {:induction false} SettleShrinks(s: State, p: Params)
    ensures |Settle(s, p).state.q[WINDOW]| <= |s.q[WINDOW]|
    ensures Settle(s, p) == Admitted(s, []) || |Settle(s, p).state.q[WINDOW]| < |s.q[WINDOW]|
    decreases |s.q[WINDOW]|
  {
    if Cost(s.q[WINDOW]) > p.windowTarget && s.q[WINDOW] != [] {
      SettleShrinks(AdmitTurn(s, p).state, p);
    }
  }

  /** A new value for a key in the window: the key-based form goes on to bring the window back to its target. */
  lemma WindowUpdateAgrees(s: State, p: Params, k: nat, cost: nat)
    requires Proper(s.q) && Safe(s.sketch, p.threshold) && k < |s.q[WINDOW]|
    ensures var n := s.q[WINDOW][k]; var a := Settle(Update(s, p, n.id, cost), p);
            OnAdmit(View(s), p, n.hash, cost) == Decided(View(a.state), KeysOf(a.victims))
  {
    var n := s.q[WINDOW][k];
    CountsAlike(s.sketch, p, n.hash);
    Stands(s.q, WINDOW, k);
    WindowUpdate(s, p, k, cost);
    UpdateKeepsProper(s, p, WINDOW, k, cost);
    ManageAgrees(Update(s, p, n.id, cost), p);
  }

  /** So there the two agree if and only if the window still fits. */
  lemma WindowUpdateAgreesExactlyWhenItFits(s: State, p: Params, k: nat, cost: nat)
    requires Proper(s.q) && Safe(s.sketch, p.threshold) && k < |s.q[WINDOW]|
    ensures var n := s.q[WINDOW][k]; var r := Update(s, p, n.id, cost);
            OnAdmit(View(s), p, n.hash, cost) == Decided(View(r), []) <==> Cost(r.q[WINDOW]) <= p.windowTarget
  {
    var n := s.q[WINDOW][k];
    var r := Update(s, p, n.id, cost);
    WindowUpdateAgrees(s, p, k, cost);
    SettleShrinks(r, p);
    SettleFits(r, p);
    assert KeysOf([]) == [];
  }

  lemma UpdateKeepsProper(s: State, p: Params, seg: nat, k: nat, cost: nat)
    requires Proper(s.q) && seg < 3 && k < |s.q[seg]|
    ensures Proper(Update(s, p, s.q[seg][k].id, cost).q)
  {
    Stands(s.q, seg, k);
    var q := s.q[seg := s.q[seg][k := s.q[seg][k].(cost := cost)]];
    RecostKeepsProper(s.q, seg, k, cost);
    if seg == PROBATION {
      MoveKeepsProper(q, PROBATION, k, PROTECTED);
      MaintainKeepsProper(Move(q, PROBATION, k, PROTECTED), p.protCapacity);
    } else {
      MoveKeepsProper(q, seg, k, seg);
    }
  }

  /** A key neither form holds. */
  ghost predicate Free(q: Queues, n: Node)
  {
    forall o :: 0 <= o < 3 ==> ApartFrom(q[o], n)
  }

  lemma NewAgrees(s: State, p: Params, id: NodeId, key: nat, cost: nat)
    requires Proper(s.q) && Safe(s.sketch, p.threshold) && Free(s.q, Node(id, key, cost))
    ensures var a := Admit(s, p, id, key, cost);
            OnAdmit(View(s), p, key, cost) == Decided(View(a.state), KeysOf(a.victims)) && Proper(a.state.q)
  {
    var n := Node(id, key, cost);
    CountsAlike(s.sketch, p, key);
    assert ApartFrom(s.q[0], n) && ApartFrom(s.q[1], n) && ApartFrom(s.q[2], n);
    NotFoundIn(s.q[0], n);
    NotFoundIn(s.q[1], n);
    NotFoundIn(s.q[2], n);
    var t := State(s.q[WINDOW := s.q[WINDOW] + [n]], Seen(s.sketch, p, key));
    AddKeepsProper(s.q, WINDOW, n);
    FacesAppend(s.q[WINDOW], [n]);
    assert Faces([n]) == [Entry(key, cost)];
    ManageAgrees(t, p);
    SettleKeepsProper(t, p);
  }

  lemma RemoveAgrees(s: State, seg: nat, k: nat)
    requires Proper(s.q) && seg < 3 && k < |s.q[seg]|
    ensures OnRemove(View(s), s.q[seg][k].hash) == View(Remove(s, s.q[seg][k].id))
    ensures Proper(Remove(s, s.q[seg][k].id).q)
  {
    Stands(s.q, seg, k);
    DropKeepsProper(s.q, seg, k);
  }

  lemma {:induction false} PopAgrees(q: Queues, seg: nat, want: nat)
    requires seg < 3
    ensures var e := Trim(q, seg, want); Pop(Faces(q[seg]), want) == (Faces(e.q[seg]), KeysOf(e.victims), e.freed)
    decreases |q[seg]|
  {
    if want > 0 && q[seg] != [] {
      var n := q[seg][0];
      var rest := q[seg := Drop(q[seg], 0)];
      PopAgrees(rest, seg, Minus(want, n.cost));
      FacesAppend(q[seg], []);
      var e := Trim(rest, seg, Minus(want, n.cost));
      KeysAppend([n], e.victims);
      assert KeysOf([n]) == [n.hash];
    } else {
      assert KeysOf([]) == [];
    }
  }

  /** Eviction of something. */
  lemma EvictingAgrees(s: State, p: Params, want: nat)
    requires want > 0
    ensures var e := Evict(s.q, p, want);
            OnEvict(View(s), p, want) == Removed(View(s.(q := e.q)), KeysOf(e.victims), e.freed)
  {
    DemoteAgrees(s, p.protCapacity);
    var q := Maintain(s.q, p.protCapacity);
    PopAgrees(q, PROBATION, want);
    TrimFrees(q, PROBATION, want);
    var a := Trim(q, PROBATION, want);
    PopAgrees(a.q, PROTECTED, Minus(want, a.freed));
    TrimFrees(a.q, PROTECTED, Minus(want, a.freed));
    KeysAppend(a.victims, Trim(a.q, PROTECTED, Minus(want, a.freed)).victims);
  }

  lemma {:induction false} MaintainShrinks(q: Queues, cap: nat)
    ensures |Maintain(q, cap)[PROTECTED]| <= |q[PROTECTED]|
    ensures if Cost(q[PROTECTED]) <= cap then Maintain(q, cap) == q else |Maintain(q, cap)[PROTECTED]| < |q[PROTECTED]|
    decreases |q[PROTECTED]|
  {
    if Cost(q[PROTECTED]) > cap && q[PROTECTED] != [] {
      MaintainShrinks(Move(q, PROTECTED, 0, PROBATION), cap);
    }
  }

  /** Eviction agrees if and only if something is asked for, or the protected segment is within its capacity: asked
        for nothing, the slab form still demotes and the key-based form returns at once. */
  lemma EvictAgrees(s: State, p: Params, want: nat)
    ensures var e := Evict(s.q, p, want);
            OnEvict(View(s), p, want) == Removed(View(s.(q := e.q)), KeysOf(e.victims), e.freed)
            <==> want > 0 || Cost(s.q[PROTECTED]) <= p.protCapacity
  {
    if want > 0 {
      EvictingAgrees(s, p, want);
    } else {
      MaintainShrinks(s.q, p.protCapacity);
      assert KeysOf([]) == [];
      var e := Evict(s.q, p, 0);
      assert e.q == Maintain(s.q, p.protCapacity);
      if e.q != s.q {
        assert |View(s.(q := e.q)).protected| < |View(s).protected|;
      }
    }
  }

  lemma EvictKeepsProper(q: Queues, p: Params, want: nat)
    requires Proper(q)
    ensures Proper(Evict(q, p, want).q)
  {
    MaintainKeepsProper(q, p.protCapacity);
    var r := Maintain(q, p.protCapacity);
    TrimKeepsProper(r, PROBATION, want);
    var a := Trim(r, PROBATION, want);
    TrimKeepsProper(a.q, PROTECTED, Minus(want, a.freed));
  }

  // ------------------------------------------------------------- reads, late or not

  /** The id stands for this key, if for any. */
  ghost predicate Names(q: Queues, id: NodeId, key: nat)
  {
    forall seg, k :: 0 <= seg < 3 && 0 <= k < |q[seg]| && q[seg][k].id == id ==> q[seg][k].hash == key
  }

  /** The id's node is resident and costs this much. */
  ghost predicate StillThere(q: Queues, id: NodeId, cost: nat)
  {
    var seg := Where(q, id);
    seg < 3 && q[seg][Find(q[seg], id)].cost == cost
  }

  lemma {:induction false} DemoteKeepsSketch(s: Keyed, cap: nat)
    ensures Demote(s, cap).sketch == s.sketch
    decreases |s.protected|
  {
    if CostOf(s.protected) > cap && s.protected != [] {
      DemoteKeepsSketch(s.(protected := s.protected[1..], probation := s.probation + [s.protected[0]]), cap);
    }
  }

  lemma AccessCounts(s: Keyed, p: Params, key: nat, cost: nat)
    ensures OnAccess(s, p, key, cost).sketch == Increment(s.sketch, p, key)
  {
    var t := s.(sketch := Increment(s.sketch, p, key));
    if !Contains(t.window, key) && !Contains(t.protected, key) && Contains(t.probation, key) {
      DemoteKeepsSketch(t.(probation := KeyedTiny.Without(t.probation, key),
                           protected := t.protected + [Entry(key, cost)]),
                        p.protCapacity);
    }
  }

  /** A read by an id that is resident no longer is counted by the key-based form, whether or not its key has come
        back, and ignored by the slab form. */
  lemma ALateReadIsCountedByKey(s: State, p: Params, id: NodeId, key: nat, cost: nat)
    requires Safe(s.sketch, p.threshold) && p.threshold > 1 && Where(s.q, id) == 3
    ensures Touch(s, p, id) == s && OnAccess(View(s), p, key, cost).sketch == Seen(s.sketch, p, key) != s.sketch
    ensures OnAccess(View(s), p, key, cost) != View(Touch(s, p, id))
  {
    AccessCounts(View(s), p, key, cost);
    CountsAlike(s.sketch, p, key);
  }

  // What an update does to the cost held.

  lemma {:induction false} CostWithout(q: seq<Node>, k: nat)
    requires k < |q|
    ensures Cost(q) == Cost(Drop(q, k)) + q[k].cost
  {
    if k > 0 {
      CostWithout(q[1..], k - 1);
      assert Drop(q, k)[1..] == Drop(q[1..], k - 1);
    } else {
      assert Drop(q, 0) == q[1..];
    }
  }

  lemma MoveConserves(q: Queues, from: nat, k: nat, to: nat)
    requires from < 3 && to < 3 && k < |q[from]|
    ensures HeldCost(Move(q, from, k, to)) == HeldCost(q)
  {
    var n := q[from][k];
    CostWithout(q[from], k);
    CostAppend(if to == from then Drop(q[from], k) else q[to], [n]);
    assert Cost([n]) == n.cost;
    assert (from == 0 || from == 1 || from == 2) && (to == 0 || to == 1 || to == 2);
  }

  lemma {:induction false} MaintainConserves(q: Queues, cap: nat)
    ensures HeldCost(Maintain(q, cap)) == HeldCost(q)
    decreases |q[PROTECTED]|
  {
    if Cost(q[PROTECTED]) > cap && q[PROTECTED] != [] {
      MoveConserves(q, PROTECTED, 0, PROBATION);
      MaintainConserves(Move(q, PROTECTED, 0, PROBATION), cap);
    }
  }

  lemma RecostChanges(q: Queues, seg: nat, k: nat, cost: nat)
    requires seg < 3 && k < |q[seg]|
    ensures HeldCost(q[seg := q[seg][k := q[seg][k].(cost := cost)]]) == HeldCost(q) - q[seg][k].cost + cost
  {
    var q' := q[seg][k := q[seg][k].(cost := cost)];
    CostWithout(q[seg], k);
    CostWithout(q', k);
    assert Drop(q', k) == Drop(q[seg], k);
    assert seg == 0 || seg == 1 || seg == 2;
  }

  lemma UpdateCosts(s: State, p: Params, seg: nat, k: nat, cost: nat)
    requires Proper(s.q) && seg < 3 && k < |s.q[seg]|
    ensures HeldCost(Update(s, p, s.q[seg][k].id, cost).q) == HeldCost(s.q) - s.q[seg][k].cost + cost
  {
    Stands(s.q, seg, k);
    var q := s.q[seg := s.q[seg][k := s.q[seg][k].(cost := cost)]];
    RecostChanges(s.q, seg, k, cost);
    if seg == PROBATION {
      MoveConserves(q, PROBATION, k, PROTECTED);
      MaintainConserves(Move(q, PROBATION, k, PROTECTED), p.protCapacity);
    } else {
      MoveConserves(q, seg, k, seg);
    }
  }

  lemma SameViewSameCost(a: State, b: State)
    requires View(a) == View(b)
    ensures HeldCost(a.q) == HeldCost(b.q)
  {
    FaceCosts(a.q[0]);
    FaceCosts(a.q[1]);
    FaceCosts(a.q[2]);
    FaceCosts(b.q[0]);
    FaceCosts(b.q[1]);
    FaceCosts(b.q[2]);
  }

  /** A read of a resident key with whatever cost is an update at that cost. */
  lemma AccessUpdates(s: State, p: Params, seg: nat, k: nat, cost: nat)
    requires Proper(s.q) && Safe(s.sketch, p.threshold) && seg < 3 && k < |s.q[seg]|
    ensures var n := s.q[seg][k]; OnAccess(View(s), p, n.hash, cost) == View(Update(s, p, n.id, cost))
  {
    CountsAlike(s.sketch, p, s.q[seg][k].hash);
    Stands(s.q, seg, k);
    if seg == WINDOW {
      WindowUpdate(s, p, k, cost);
    } else if seg == PROBATION {
      ProbationUpdate(s, p, k, cost);
    } else {
      ProtectedUpdate(s, p, k, cost);
    }
  }

  /** Reads agree if and only if the entry read is still there, at the cost it was read at. */
  lemma ReadsAgreeExactlyWhenStillThere(s: State, p: Params, id: NodeId, key: nat, cost: nat)
    requires Proper(s.q) && Safe(s.sketch, p.threshold) && p.threshold > 1 && Names(s.q, id, key)
    ensures OnAccess(View(s), p, key, cost) == View(Touch(s, p, id)) <==> StillThere(s.q, id, cost)
  {
    var seg := Where(s.q, id);
    if seg == 3 {
      ALateReadIsCountedByKey(s, p, id, key, cost);
    } else {
      var k := Find(s.q[seg], id);
      var n := s.q[seg][k];
      AccessUpdates(s, p, seg, k, cost);
      TouchIsUpdate(s, p, seg, k);
      UpdateCosts(s, p, seg, k, cost);
      UpdateCosts(s, p, seg, k, n.cost);
      if OnAccess(View(s), p, key, cost) == View(Touch(s, p, id)) {
        SameViewSameCost(Update(s, p, id, cost), Update(s, p, id, n.cost));
      }
    }
  }

  // ------------------------------------------------------------------- the runs

  /** An operation by the place of the node it is about, on a new key with the id that the slab hands out, or a read
        by the id, key and cost that it found. */
  datatype Op =
    | Reading(id: NodeId, key: nat, cost: nat)
    | Updating(seg: nat, k: nat, cost: nat)
    | Admitting(key: nat, cost: nat, id: NodeId)
    | Removing(seg: nat, k: nat)
    | Evicting(want: nat)
    | Clearing

  ghost predicate Enabled(s: State, op: Op)
  {
    match op
    case Reading(id, key, cost) => Names(s.q, id, key)
    case Updating(seg, k, cost) => seg < 3 && k < |s.q[seg]|
    case Admitting(key, cost, id) => Free(s.q, Node(id, key, cost))
    case Removing(seg, k) => seg < 3 && k < |s.q[seg]|
    case Evicting(want) => true
    case Clearing => true
  }

  /** The operations on which the forms agree. */
  ghost predicate Agreeable(s: State, p: Params, op: Op)
    requires Enabled(s, op)
  {
    match op
    case Reading(id, key, cost) => StillThere(s.q, id, cost)
    case Updating(seg, k, cost) =>
        seg == WINDOW ==> Cost(Update(s, p, s.q[seg][k].id, cost).q[WINDOW]) <= p.windowTarget
    case Evicting(want) => want > 0 || Cost(s.q[PROTECTED]) <= p.protCapacity
    case _ => true
  }

  datatype Turn<S> = Turn(state: S, victims: seq<nat>, freed: nat)

  ghost function HandleStep(s: State, p: Params, op: Op): (t: Turn<State>)
    requires Enabled(s, op)
  {
    match op
    case Reading(id, _, _) => Turn(Touch(s, p, id), [], 0)
    case Updating(seg, k, cost) => Turn(Update(s, p, s.q[seg][k].id, cost), [], 0)
    case Admitting(key, cost, id) => var a := Admit(s, p, id, key, cost); Turn(a.state, KeysOf(a.victims), 0)
    case Removing(seg, k) => Turn(Remove(s, s.q[seg][k].id), [], 0)
    case Evicting(want) => var e := Evict(s.q, p, want); Turn(s.(q := e.q), KeysOf(e.victims), e.freed)
    case Clearing => Turn(State([[], [], []], Reset(s.sketch)), [], 0)
  }

  /** The same by keys: `s` only says which key stands at a place. */
  ghost function KeyedStep(t: Keyed, p: Params, op: Op, s: State): (r: Turn<Keyed>)
    requires Enabled(s, op)
  {
    match op
    case Reading(_, key, cost) => Turn(OnAccess(t, p, key, cost), [], 0)
    case Updating(seg, k, cost) => var d := OnAdmit(t, p, s.q[seg][k].hash, cost); Turn(d.state, d.rejected, 0)
    case Admitting(key, cost, _) => var d := OnAdmit(t, p, key, cost); Turn(d.state, d.rejected, 0)
    case Removing(seg, k) => Turn(OnRemove(t, s.q[seg][k].hash), [], 0)
    case Evicting(want) => var r := OnEvict(t, p, want); Turn(r.state, r.victims, r.freed)
    case Clearing => Turn(Keyed([], [], [], Reset(t.sketch)), [], 0)
  }

  ghost predicate Alike(h: Turn<State>, k: Turn<Keyed>)
  {
    k.state == View(h.state) && k.victims == h.victims && k.freed == h.freed
  }

  /** One operation on both: the same state, victims and cost freed, if and only if it is one of those. */
  lemma StepsAgreeExactly(s: State, p: Params, op: Op)
    requires Proper(s.q) && Safe(s.sketch, p.threshold) && p.threshold > 1 && Enabled(s, op)
    ensures Alike(HandleStep(s, p, op), KeyedStep(View(s), p, op, s)) <==> Agreeable(s, p, op)
  {
    match op
    case Reading(id, key, cost) => ReadsAgreeExactlyWhenStillThere(s, p, id, key, cost);
    case Updating(seg, k, cost) =>
      if seg == WINDOW {
        WindowUpdateAgreesExactlyWhenItFits(s, p, k, cost);
      } else {
        MainUpdateAgrees(s, p, seg, k, cost);
      }
    case Admitting(key, cost, id) => NewAgrees(s, p, id, key, cost);
    case Removing(seg, k) => RemoveAgrees(s, seg, k);
    case Evicting(want) => EvictAgrees(s, p, want);
    case Clearing => assert Faces([]) == [];
  }

  lemma StepKeeps(s: State, p: Params, op: Op)
    requires Proper(s.q) && Safe(s.sketch, p.threshold) && Enabled(s, op)
    ensures var h := HandleStep(s, p, op).state; Proper(h.q) && Safe(h.sketch, p.threshold)
  {
    match op
    case Reading(id, key, cost) =>
      var seg := Where(s.q, id);
      if seg < 3 {
        var k := Find(s.q[seg], id);
        UpdateKeeps(s, p, seg, k, s.q[seg][k].cost);
        TouchIsUpdate(s, p, seg, k);
      }
    case Updating(seg, k, cost) => UpdateKeeps(s, p, seg, k, cost);
    case Admitting(key, cost, id) =>
      CountsAlike(s.sketch, p, key);
      NewAgrees(s, p, id, key, cost);
      SettleKeepsSketch(State(s.q[WINDOW := s.q[WINDOW] + [Node(id, key, cost)]], Seen(s.sketch, p, key)), p);
    case Removing(seg, k) =>
      Stands(s.q, seg, k);
      DropKeepsProper(s.q, seg, k);
    case Evicting(want) => EvictKeepsProper(s.q, p, want);
    case Clearing =>
  }

  lemma UpdateKeeps(s: State, p: Params, seg: nat, k: nat, cost: nat)
    requires Proper(s.q) && Safe(s.sketch, p.threshold) && seg < 3 && k < |s.q[seg]|
    ensures var h := Update(s, p, s.q[seg][k].id, cost); Proper(h.q) && Safe(h.sketch, p.threshold)
  {
    CountsAlike(s.sketch, p, s.q[seg][k].hash);
    Stands(s.q, seg, k);
    UpdateKeepsProper(s, p, seg, k, cost);
  }

  lemma {:induction false} SettleKeepsSketch(s: State, p: Params)
    ensures Settle(s, p).state.sketch == s.sketch
    decreases |s.q[WINDOW]|
  {
    if Cost(s.q[WINDOW]) > p.windowTarget && s.q[WINDOW] != [] {
      SettleKeepsSketch(AdmitTurn(s, p).state, p);
    }
  }

  ghost predicate AreRuns(ops: seq<Op>, handle: seq<Turn<State>>, keyed: seq<Turn<Keyed>>, p: Params, depth: nat,
                          width: nat)
  {
    && |handle| == |keyed| == |ops| + 1
    && handle[0] == Turn(State([[], [], []], Zero(depth, width)), [], 0) &&
       keyed[0] == Turn(Keyed([], [], [], Zero(depth, width)), [], 0)
    && forall i :: 0 <= i < |ops| ==>
         && Enabled(handle[i].state, ops[i]) && Agreeable(handle[i].state, p, ops[i])
         && handle[i + 1] == HandleStep(handle[i].state, p, ops[i])
         && keyed[i + 1] == KeyedStep(keyed[i].state, p, ops[i], handle[i].state)
  }

  /** On every run of admissions, removals and clears, of reads of entries still there, of updates that leave the
        window within its target and of evictions that ask for something, the two forms of W-TinyLFU hold the same
        keys in the same order, count alike, and name the same victims. */
  lemma {:induction false} TheFormsDecideAlike(ops: seq<Op>, handle: seq<Turn<State>>, keyed: seq<Turn<Keyed>>,
                                               p: Params, depth: nat, width: nat, n: nat)
    requires AreRuns(ops, handle, keyed, p, depth, width) && n <= |ops| && 1 < p.threshold <= SAFE
    ensures Proper(handle[n].state.q) && Safe(handle[n].state.sketch, p.threshold) && Alike(handle[n], keyed[n])
  {
    if n == 0 {
      assert Faces([]) == [];
    } else {
      TheFormsDecideAlike(ops, handle, keyed, p, depth, width, n - 1);
      StepsAgreeExactly(handle[n - 1].state, p, ops[n - 1]);
      StepKeeps(handle[n - 1].state, p, ops[n - 1]);
    }
  }

  /** An update that tells them apart: one entry in the window gets too costly for it. The key-based form moves it on,
        the slab form leaves it. */
  lemma AWindowUpdateTellsThemApart(p: Params, id: NodeId, c: Counts)
    requires p.windowTarget == 1 && Safe(c, p.threshold)
    ensures var s := State([[Node(id, 7, 1)], [], []], c);
            Proper(s.q) && OnAdmit(View(s), p, 7, 2) != Decided(View(Update(s, p, id, 2)), [])
  {
    var n := Node(id, 7, 1);
    var s := State([[n], [], []], c);
    Stands(s.q, WINDOW, 0);
    WindowUpdateAgreesExactlyWhenItFits(s, p, 0, 2);
    var r := Update(s, p, id, 2);
    assert r.q[WINDOW] == [n.(cost := 2)];
    assert Cost([n.(cost := 2)]) == 2;
  }
}
