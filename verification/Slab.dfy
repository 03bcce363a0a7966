/**
 The slab under both built-in policies: three intrusive doubly linked lists that
 share one vector of links, with generation-tagged node ids.

 `order` is the abstract value of the lists, slot by slot, oldest entry (the
 list's tail) first. Every method states how `order` changes; the links only
 represent it.
 */
module Slabs {
  import opened Options
  import opened Residents

  const NIL: nat := 0xFFFF_FFFF
  const FREE: nat := 0xFF
  const GENERATIONS: nat := 0x1_0000_0000
  const SEGMENTS: nat := 3

  /** Towards the list's head is `prev`, towards its tail is `next`. */
  datatype Link = Link(prev: nat, next: nat, seg: nat, generation: nat)

  datatype List = List(head: nat, tail: nat, cost: nat)

  const EMPTY := List(NIL, NIL, 0)

  // ---------------------------------------------------------------- node ids

  /** The packed form of a node id, `generation << 32 | slot`. */
  function Join(id: NodeId): (node: nat)
  {
    id.generation * GENERATIONS + id.slot
  }

  function Split(node: nat): (id: NodeId)
  {
    NodeId(node / GENERATIONS, node % GENERATIONS)
  }

  /** Packing loses nothing: ids and words are in bijection. */
  lemma JoinSplit(node: nat, id: NodeId)
    requires id.slot < GENERATIONS
    ensures Join(Split(node)) == node && Split(node).slot < GENERATIONS
    ensures Split(Join(id)) == id
  {
  }

  // ------------------------------------------------------- chains and costs

  ghost predicate Distinct(s: seq<nat>)
  {
    forall j, k :: 0 <= j < k < |s| ==> s[j] != s[k]
  }

  function Newer(s: seq<nat>, k: nat): nat
  {
    if k + 1 < |s| then s[k + 1] else NIL
  }

  function Older(s: seq<nat>, k: nat): nat
  {
    if 0 < k <= |s| then s[k - 1] else NIL
  }

  /** `links` chains the slots of `s`, each pointing at both of its neighbours. */
  ghost predicate Chained(links: seq<Link>, s: seq<nat>, seg: nat)
  {
    forall k {:trigger links[s[k]]} :: 0 <= k < |s| ==>
      s[k] < |links| &&
      links[s[k]].seg == seg && links[s[k]].prev == Newer(s, k) && links[s[k]].next == Older(s, k)
  }

  ghost predicate Below(s: seq<nat>, n: nat)
  {
    forall k :: 0 <= k < |s| ==> s[k] < n
  }

  ghost function Total(costs: seq<nat>, s: seq<nat>): (t: nat)
    requires Below(s, |costs|)
  {
    if s == [] then 0 else costs[s[0]] + Total(costs, s[1..])
  }

  ghost predicate Represents(links: seq<Link>, costs: seq<nat>, l: List, s: seq<nat>, seg: nat)
  {
    && Below(s, |links|) && |costs| == |links|
    && Distinct(s)
    && Chained(links, s, seg)
    && l.head == Older(s, |s|)
    && l.tail == (if s == [] then NIL else s[0])
    && l.cost == Total(costs, s)
  }

  function Without(s: seq<nat>, k: nat): (r: seq<nat>)
    requires k < |s|
  {
    s[..k] + s[k + 1..]
  }

  lemma {:induction false} TotalAppend(costs: seq<nat>, s: seq<nat>, t: seq<nat>)
    requires Below(s, |costs|) && Below(t, |costs|)
    ensures Below(s + t, |costs|)
    ensures Total(costs, s + t) == Total(costs, s) + Total(costs, t)
  {
    if s == [] {
      assert s + t == t;
    } else {
      TotalAppend(costs, s[1..], t);
      assert (s + t)[1..] == s[1..] + t;
    }
  }

  lemma {:induction false} TotalWithout(costs: seq<nat>, s: seq<nat>, k: nat)
    requires Below(s, |costs|) && k < |s|
    ensures Below(Without(s, k), |costs|)
    ensures Total(costs, s) == Total(costs, Without(s, k)) + costs[s[k]]
  {
    if k == 0 {
      assert Without(s, k) == s[1..];
    } else {
      TotalWithout(costs, s[1..], k - 1);
      assert Without(s, k)[1..] == Without(s[1..], k - 1);
    }
  }

  lemma {:induction false} TotalFrame(costs: seq<nat>, costs': seq<nat>, s: seq<nat>)
    requires Below(s, |costs|) && Below(s, |costs'|)
    requires forall k :: 0 <= k < |s| ==> costs'[s[k]] == costs[s[k]]
    ensures Total(costs', s) == Total(costs, s)
  {
    if s != [] {
      TotalFrame(costs, costs', s[1..]);
    }
  }

  lemma RepresentsFrame(links: seq<Link>, links': seq<Link>, costs: seq<nat>, costs': seq<nat>, l: List, s: seq<nat>,
                        seg: nat)
    requires Represents(links, costs, l, s, seg)
    requires |links'| == |costs'| >= |links|
    requires forall k {:trigger s[k]} :: 0 <= k < |s| ==>
      links'[s[k]].prev == links[s[k]].prev && links'[s[k]].next == links[s[k]].next && links'[s[k]].seg == seg
    requires forall k {:trigger s[k]} :: 0 <= k < |s| ==> costs'[s[k]] == costs[s[k]]
    ensures Represents(links', costs', l, s, seg)
  {
    TotalFrame(costs, costs', s);
  }

  // ------------------------------------------------- the pointer operations

  predicate Unlinkable(links: seq<Link>, i: nat)
    requires i < |links|
  {
    (links[i].prev == NIL || links[i].prev < |links|) && (links[i].next == NIL || links[i].next < |links|)
  }

  /** The links after `unlink(i)` rewired the neighbours of `i`. */
  function Unlinked(links: seq<Link>, i: nat): (r: seq<Link>)
    requires i < |links| && Unlinkable(links, i)
  {
    var p, n := links[i].prev, links[i].next;
    var a := if p != NIL then links[p := links[p].(next := n)] else links;
    if n != NIL then a[n := a[n].(prev := p)] else a
  }

  lemma WithoutDistinct(s: seq<nat>, k: nat)
    requires Distinct(s) && k < |s|
    ensures Distinct(Without(s, k)) && s[k] !in Without(s, k)
  {
  }

  lemma UnlinkChained(links: seq<Link>, s: seq<nat>, seg: nat, k: nat)
    requires Below(s, |links|) && |links| <= NIL && Distinct(s) && Chained(links, s, seg) && k < |s|
    ensures links[s[k]].prev == Newer(s, k) && links[s[k]].next == Older(s, k)
    ensures Chained(Unlinked(links, s[k]), Without(s, k), seg)
  {
    var r := Without(s, k);
    var u := Unlinked(links, s[k]);
    forall m {:trigger u[r[m]]} | 0 <= m < |r|
      ensures r[m] < |u| && u[r[m]].seg == seg && u[r[m]].prev == Newer(r, m) && u[r[m]].next == Older(r, m)
    {
      var j := if m < k then m else m + 1;
      assert r[m] == s[j];
      assert links[s[j]].seg == seg;
    }
  }

  /** The links after `push_front(seg, i)` on a list whose head was `head`. */
  function Pushed(links: seq<Link>, i: nat, head: nat, seg: nat): (r: seq<Link>)
    requires i < |links| && (head == NIL || head < |links|)
  {
    var a := links[i := links[i].(prev := NIL, next := head, seg := seg)];
    if head != NIL then a[head := a[head].(prev := i)] else a
  }

  lemma PushChained(links: seq<Link>, s: seq<nat>, seg: nat, i: nat)
    requires Below(s, |links|) && |links| <= NIL && Distinct(s) && Chained(links, s, seg)
    requires i < |links| && i !in s
    ensures Older(s, |s|) == NIL || Older(s, |s|) < |links|
    ensures Chained(Pushed(links, i, Older(s, |s|), seg), s + [i], seg)
    ensures Distinct(s + [i])
  {
    var r := s + [i];
    var u := Pushed(links, i, Older(s, |s|), seg);
    forall m {:trigger u[r[m]]} | 0 <= m < |r|
      ensures r[m] < |u| && u[r[m]].seg == seg && u[r[m]].prev == Newer(r, m) && u[r[m]].next == Older(r, m)
    {
      if m < |s| {
        assert r[m] == s[m];
        assert links[s[m]].seg == seg;
      }
    }
  }

  // ------------------------------------------------------------- the slab

  /** Everything a slab holds, as one value. */
  datatype Image = Image(links: seq<Link>, payload: seq<Option<nat>>, costs: seq<nat>, free: seq<nat>, lists: seq<List>,
                         order: seq<seq<nat>>, loose: Option<nat>, generations: seq<nat>, resident: Resident)

  // The invariant's quantifiers are instantiated at the segments and slots a proof names.

  predicate Seg(seg: int) { true }

  predicate Slot(i: int) { true }

  ghost predicate Nowhere(order: seq<seq<nat>>, i: nat)
  {
    forall seg {:trigger Seg(seg)} :: Seg(seg) && 0 <= seg < |order| ==> i !in order[seg]
  }

  /** The lists are chained through the links and their costs are exact sums. */
  ghost predicate AllRepresented(links: seq<Link>, costs: seq<nat>, lists: seq<List>, order: seq<seq<nat>>)
  {
    && |lists| == |order| == SEGMENTS && |costs| == |links|
    && forall seg {:trigger Seg(seg)} ::
         Seg(seg) && 0 <= seg < SEGMENTS ==> Represents(links, costs, lists[seg], order[seg], seg)
  }

  /** Slot `i` is the loose one, or in use and in its list, or free and in the free list. */
  ghost predicate SlotOk(l: Link, p: Option<nat>, i: nat, free: seq<nat>, order: seq<seq<nat>>, loose: Option<nat>)
  {
    if loose == Some(i) then p.Some? && i !in free && Nowhere(order, i)
    else if p.Some? then l.seg < |order| && i in order[l.seg] && i !in free
    else l.seg == FREE && i in free && Nowhere(order, i)
  }

  /** Slots in use and free slots partition the slab. */
  ghost predicate Accounted(links: seq<Link>, payload: seq<Option<nat>>, free: seq<nat>, order: seq<seq<nat>>,
                            loose: Option<nat>)
  {
    && |links| == |payload| && |order| == SEGMENTS
    && Below(free, |links|) && Distinct(free)
    && (loose.Some? ==> loose.value < |links|)
    && forall i {:trigger Slot(i)} ::
         Slot(i) && 0 <= i < |links| ==> SlotOk(links[i], payload[i], i, free, order, loose)
  }

  ghost function IdOf(generations: seq<nat>, i: nat): (id: NodeId)
    requires i < |generations|
  {
    NodeId(generations[i], i)
  }

  /** The id that the next entry gets: of the slot freed last, or of a new one. */
  function NextId(free: seq<nat>, generations: seq<nat>): (id: NodeId)
  {
    if free == [] then NodeId(0, |generations|)
    else
      var i := free[|free| - 1];
      NodeId(if i < |generations| then generations[i] else 0, i)
  }

  /** Every link carries its slot's generation, and `resident` lists the slots in use by id. */
  ghost predicate Indexed(links: seq<Link>, payload: seq<Option<nat>>, costs: seq<nat>, generations: seq<nat>,
                          resident: Resident)
  {
    && |links| == |payload| == |costs| == |generations| <= NIL
    && (forall i {:trigger Slot(i)} :: Slot(i) && 0 <= i < |links| ==>
          && links[i].generation == generations[i]
          && (payload[i].Some? ==>
                IdOf(generations, i) in resident && resident[IdOf(generations, i)] == Item(payload[i].value, costs[i])))
    && (forall id {:trigger id in resident} :: id in resident ==>
          id.slot < |payload| && payload[id.slot].Some? && generations[id.slot] == id.generation)
  }

  ghost predicate WellFormed(m: Image)
  {
    && AllRepresented(m.links, m.costs, m.lists, m.order)
    && Accounted(m.links, m.payload, m.free, m.order, m.loose)
    && Indexed(m.links, m.payload, m.costs, m.generations, m.resident)
  }

  // ------------------------------------- what the operations do to the image

  ghost function Recycled(m: Image, p: nat, cost: nat): (r: Image)
    requires m.free != [] && |m.payload| == |m.costs| == |m.generations|
    requires m.free[|m.free| - 1] < |m.payload|
  {
    var i := m.free[|m.free| - 1];
    m.(payload := m.payload[i := Some(p)], costs := m.costs[i := cost], free := m.free[..|m.free| - 1],
       loose := Some(i), resident := m.resident[IdOf(m.generations, i) := Item(p, cost)])
  }

  ghost function Grown(m: Image, p: nat, cost: nat): (r: Image)
  {
    m.(links := m.links + [Link(NIL, NIL, FREE, 0)], payload := m.payload + [Some(p)], costs := m.costs + [cost],
       generations := m.generations + [0], loose := Some(|m.links|),
           resident := m.resident[NodeId(0, |m.links|) := Item(p, cost)])
  }

  ghost function ReleasedImage(m: Image, i: nat): (r: Image)
    requires i < |m.links| == |m.payload| == |m.generations|
  {
    var g := (m.links[i].generation + 1) % GENERATIONS;
    m.(links := m.links[i := m.links[i].(seg := FREE, generation := g)], payload := m.payload[i := None],
       free := m.free + [i], loose := None, generations := m.generations[i := g],
           resident := m.resident - {IdOf(m.generations, i)})
  }

  ghost function PushedImage(m: Image, seg: nat, i: nat): (r: Image)
    requires |m.lists| == |m.order| && seg < |m.order| && i < |m.links| == |m.costs|
    requires m.lists[seg].head == NIL || m.lists[seg].head < |m.links|
  {
    var l := m.lists[seg];
    m.(links := Pushed(m.links, i, l.head, seg),
       lists := m.lists[seg := List(i, if l.tail == NIL then i else l.tail, l.cost + m.costs[i])],
       order := m.order[seg := m.order[seg] + [i]], loose := None)
  }

  ghost function UnlinkedImage(m: Image, seg: nat, k: nat): (r: Image)
    requires |m.lists| == |m.order| && seg < |m.order| && k < |m.order[seg]| && |m.links| == |m.costs|
    requires m.order[seg][k] < |m.links| && Unlinkable(m.links, m.order[seg][k])
    requires m.lists[seg].cost >= m.costs[m.order[seg][k]]
  {
    var i := m.order[seg][k];
    var p, n, l := m.links[i].prev, m.links[i].next, m.lists[seg];
    m.(links := Unlinked(m.links, i),
       lists := m.lists[seg := List(if p == NIL then n else l.head, if n == NIL then p
                                                                    else l.tail, l.cost - m.costs[i])],
       order := m.order[seg := Without(m.order[seg], k)], loose := Some(i))
  }

  ghost function RecostedImage(m: Image, seg: nat, k: nat, cost: nat): (r: Image)
    requires |m.lists| == |m.order| && seg < |m.order| && k < |m.order[seg]|
    requires m.order[seg][k] < |m.payload| == |m.costs| == |m.generations| && m.payload[m.order[seg][k]].Some?
    requires m.lists[seg].cost >= m.costs[m.order[seg][k]]
  {
    var i, l := m.order[seg][k], m.lists[seg];
    m.(costs := m.costs[i := cost], lists := m.lists[seg := l.(cost := l.cost - m.costs[i] + cost)],
       resident := m.resident[IdOf(m.generations, i) := Item(m.payload[i].value, cost)])
  }

  // The operations as steps from one image to the next: what each method of the class promises.

  ghost predicate IsRecycle(m: Image, p: nat, cost: nat, m': Image)
  {
    && m.free != [] && |m.payload| == |m.costs| == |m.generations| && m.free[|m.free| - 1] < |m.payload|
    && m' == Recycled(m, p, cost)
  }

  ghost predicate IsGrowth(m: Image, p: nat, cost: nat, m': Image)
  {
    m.free == [] && m' == Grown(m, p, cost)
  }

  ghost predicate IsPush(m: Image, seg: nat, i: nat, m': Image)
  {
    && |m.lists| == |m.order| && seg < |m.order| && i < |m.links| == |m.costs|
    && (m.lists[seg].head == NIL || m.lists[seg].head < |m.links|)
    && m' == PushedImage(m, seg, i)
  }

  ghost predicate IsUnlink(m: Image, seg: nat, k: nat, m': Image)
  {
    && |m.lists| == |m.order| && seg < |m.order| && k < |m.order[seg]| && |m.links| == |m.costs|
    && m.order[seg][k] < |m.links| && Unlinkable(m.links, m.order[seg][k])
    && m.lists[seg].cost >= m.costs[m.order[seg][k]]
    && m' == UnlinkedImage(m, seg, k)
  }

  ghost predicate IsRecost(m: Image, seg: nat, k: nat, cost: nat, m': Image)
  {
    && |m.lists| == |m.order| && seg < |m.order| && k < |m.order[seg]|
    && m.order[seg][k] < |m.payload| == |m.costs| == |m.generations| && m.payload[m.order[seg][k]].Some?
    && m.lists[seg].cost >= m.costs[m.order[seg][k]]
    && m' == RecostedImage(m, seg, k, cost)
  }

  // ------------------------------------------ the lists survive each operation

  /** A slot outside every list is free for its fields to change. */
  lemma FrameAround(links: seq<Link>, links': seq<Link>, costs: seq<nat>, costs': seq<nat>, lists: seq<List>,
                    order: seq<seq<nat>>, i: nat)
    requires AllRepresented(links, costs, lists, order)
    requires |links'| == |costs'| >= |links|
    requires forall j {:trigger links'[j]} :: 0 <= j < |links| && j != i ==> links'[j] == links[j]
    requires forall j {:trigger costs'[j]} :: 0 <= j < |links| && j != i ==> costs'[j] == costs[j]
    requires Nowhere(order, i)
    ensures AllRepresented(links', costs', lists, order)
  {
    forall seg {:trigger Seg(seg)} | Seg(seg) && 0 <= seg < SEGMENTS
      ensures Represents(links', costs', lists[seg], order[seg], seg)
    {
      ChainedSegs(links, order[seg], seg);
      RepresentsFrame(links, links', costs, costs', lists[seg], order[seg], seg);
    }
  }

  lemma ChainedSegs(links: seq<Link>, s: seq<nat>, seg: nat)
    requires Below(s, |links|) && Chained(links, s, seg)
    ensures forall k {:trigger s[k]} :: 0 <= k < |s| ==> links[s[k]].seg == seg
  {
  }

  /** Rewiring one list leaves the others alone. */
  lemma OtherList(links: seq<Link>, links': seq<Link>, costs: seq<nat>, l: List, s: seq<nat>, seg: nat, rewired: nat,
                  i: nat)
    requires Represents(links, costs, l, s, seg) && seg != rewired && |links'| == |links| && i !in s
    requires forall j {:trigger links'[j]} ::
               0 <= j < |links| && j != i && links[j].seg != rewired ==> links'[j] == links[j]
    ensures Represents(links', costs, l, s, seg)
  {
    ChainedSegs(links, s, seg);
    RepresentsFrame(links, links', costs, costs, l, s, seg);
  }

  lemma PushedElsewhere(links: seq<Link>, s: seq<nat>, seg: nat, i: nat)
    requires Below(s, |links|) && |links| <= NIL && Chained(links, s, seg) && i < |links|
    ensures Older(s, |s|) == NIL || Older(s, |s|) < |links|
    ensures forall j {:trigger Pushed(links, i, Older(s, |s|), seg)[j]} :: 0 <= j < |links| && j != i ==>
      Pushed(links, i, Older(s, |s|), seg)[j].seg == links[j].seg &&
      (links[j].seg != seg ==> Pushed(links, i, Older(s, |s|), seg)[j] == links[j])
    ensures forall j {:trigger Pushed(links, i, Older(s, |s|), seg)[j]} :: 0 <= j < |links| ==>
      Pushed(links, i, Older(s, |s|), seg)[j].generation == links[j].generation
  {
    if s != [] { assert links[s[|s| - 1]].seg == seg; }
  }

  lemma UnlinkedElsewhere(links: seq<Link>, s: seq<nat>, seg: nat, k: nat)
    requires Below(s, |links|) && |links| <= NIL && Chained(links, s, seg) && k < |s|
    ensures links[s[k]].prev == Newer(s, k) && links[s[k]].next == Older(s, k)
    ensures forall j {:trigger Unlinked(links, s[k])[j]} :: 0 <= j < |links| ==>
      Unlinked(links, s[k])[j].seg == links[j].seg &&
      Unlinked(links, s[k])[j].generation == links[j].generation &&
      (links[j].seg != seg ==> Unlinked(links, s[k])[j] == links[j])
  {
    if k > 0 { assert links[s[k - 1]].seg == seg; }
    if k + 1 < |s| { assert links[s[k + 1]].seg == seg; }
  }

  lemma PushRepresented(m: Image, seg: nat, i: nat)
    requires AllRepresented(m.links, m.costs, m.lists, m.order) && |m.links| <= NIL
    requires seg < SEGMENTS && i < |m.links| && Nowhere(m.order, i)
    ensures m.lists[seg].head == NIL || m.lists[seg].head < |m.links|
    ensures var r := PushedImage(m, seg, i); AllRepresented(r.links, m.costs, r.lists, r.order)
  {
    var s := m.order[seg];
    assert Seg(seg);
    PushChained(m.links, s, seg, i);
    TotalAppend(m.costs, s, [i]);
    PushedElsewhere(m.links, s, seg, i);
    var u := Pushed(m.links, i, m.lists[seg].head, seg);
    forall o {:trigger Seg(o)} | Seg(o) && 0 <= o < SEGMENTS && o != seg
      ensures Represents(u, m.costs, m.lists[o], m.order[o], o)
    {
      OtherList(m.links, u, m.costs, m.lists[o], m.order[o], o, seg, i);
    }
  }

  lemma UnlinkedList(links: seq<Link>, costs: seq<nat>, l: List, s: seq<nat>, seg: nat, k: nat)
    requires Represents(links, costs, l, s, seg) && |links| <= NIL && k < |s|
    ensures var i := s[k];
            && Unlinkable(links, i) && links[i].seg == seg && l.cost >= costs[i]
            && Represents(Unlinked(links, i), costs,
                          List(if links[i].prev == NIL then links[i].next else l.head,
                               if links[i].next == NIL then links[i].prev else l.tail, l.cost - costs[i]),
                          Without(s, k), seg)
  {
    UnlinkChained(links, s, seg, k);
    WithoutDistinct(s, k);
    TotalWithout(costs, s, k);
  }

  lemma UnlinkRepresented(m: Image, seg: nat, k: nat)
    requires AllRepresented(m.links, m.costs, m.lists, m.order) && |m.links| <= NIL
    requires seg < SEGMENTS && k < |m.order[seg]|
    ensures var i := m.order[seg][k];
            && i < |m.links| && Unlinkable(m.links, i) && m.links[i].seg == seg && m.lists[seg].cost >= m.costs[i]
    ensures var r := UnlinkedImage(m, seg, k); AllRepresented(r.links, m.costs, r.lists, r.order)
  {
    var s := m.order[seg];
    assert Seg(seg);
    UnlinkedList(m.links, m.costs, m.lists[seg], s, seg, k);
    UnlinkedElsewhere(m.links, s, seg, k);
    var u := Unlinked(m.links, s[k]);
    forall o {:trigger Seg(o)} | Seg(o) && 0 <= o < SEGMENTS && o != seg
      ensures Represents(u, m.costs, m.lists[o], m.order[o], o)
    {
      OtherList(m.links, u, m.costs, m.lists[o], m.order[o], o, seg, |m.links|);
    }
  }

  lemma Recosted(links: seq<Link>, costs: seq<nat>, l: List, s: seq<nat>, seg: nat, k: nat, cost: nat)
    requires Represents(links, costs, l, s, seg) && k < |s|
    ensures links[s[k]].seg == seg && l.cost >= costs[s[k]]
    ensures Represents(links, costs[s[k] := cost], l.(cost := l.cost - costs[s[k]] + cost), s, seg)
  {
    var c := costs[s[k] := cost];
    WithoutDistinct(s, k);
    TotalWithout(costs, s, k);
    TotalWithout(c, s, k);
    TotalFrame(costs, c, Without(s, k));
  }

  lemma SetCostRepresented(links: seq<Link>, costs: seq<nat>, lists: seq<List>, order: seq<seq<nat>>, seg: nat, k: nat,
                           cost: nat)
    requires AllRepresented(links, costs, lists, order) && seg < SEGMENTS && k < |order[seg]|
    ensures var i := order[seg][k]; var l := lists[seg];
            && i < |links| && links[i].seg == seg && l.cost >= costs[i]
            && AllRepresented(links, costs[i := cost], lists[seg := l.(cost := l.cost - costs[i] + cost)], order)
  {
    var i := order[seg][k];
    assert Seg(seg);
    Recosted(links, costs, lists[seg], order[seg], seg, k, cost);
    forall o {:trigger Seg(o)} | Seg(o) && 0 <= o < SEGMENTS && o != seg
      ensures Represents(links, costs[i := cost], lists[o], order[o], o)
    {
      ChainedSegs(links, order[o], o);
      ChainedSegs(links, order[seg], seg);
      RepresentsFrame(links, links, costs, costs[i := cost], lists[o], order[o], o);
    }
  }

  // ------------------------------------------------ each operation keeps it all

  lemma RecycleKeeps(m: Image, p: nat, cost: nat)
    requires WellFormed(m) && m.loose == None && m.free != []
    ensures m.free[|m.free| - 1] < |m.payload| && m.payload[m.free[|m.free| - 1]] == None
    ensures IdOf(m.generations, m.free[|m.free| - 1]) !in m.resident
    ensures WellFormed(Recycled(m, p, cost))
  {
    var i, f := m.free[|m.free| - 1], m.free[..|m.free| - 1];
    assert Slot(i);
    assert m.free == f + [i];
    FrameAround(m.links, m.links, m.costs, m.costs[i := cost], m.lists, m.order, i);
  }

  lemma GrowKeeps(m: Image, p: nat, cost: nat)
    requires WellFormed(m) && m.loose == None && m.free == [] && |m.links| < NIL
    ensures NodeId(0, |m.links|) !in m.resident
    ensures WellFormed(Grown(m, p, cost))
  {
    FrameAround(m.links, m.links + [Link(NIL, NIL, FREE, 0)], m.costs, m.costs + [cost], m.lists, m.order, |m.links|);
  }

  lemma ReleaseKeeps(m: Image, i: nat)
    requires WellFormed(m) && m.loose == Some(i)
    ensures m.payload[i].Some? && WellFormed(ReleasedImage(m, i))
  {
    assert Slot(i);
    FrameAround(m.links, ReleasedImage(m, i).links, m.costs, m.costs, m.lists, m.order, i);
  }

  lemma PushKeeps(m: Image, seg: nat, i: nat)
    requires WellFormed(m) && m.loose == Some(i) && seg < SEGMENTS
    ensures m.lists[seg].head == NIL || m.lists[seg].head < |m.links|
    ensures WellFormed(PushedImage(m, seg, i))
  {
    assert Slot(i) && Seg(seg);
    PushRepresented(m, seg, i);
    PushedElsewhere(m.links, m.order[seg], seg, i);
  }

  lemma UnlinkKeeps(m: Image, seg: nat, k: nat)
    requires WellFormed(m) && m.loose == None && seg < SEGMENTS && k < |m.order[seg]|
    ensures var i := m.order[seg][k];
            && i < |m.links| && Unlinkable(m.links, i) && m.links[i].seg == seg && m.lists[seg].cost >= m.costs[i]
    ensures WellFormed(UnlinkedImage(m, seg, k))
  {
    assert Slot(m.order[seg][k]) && Seg(seg);
    UnlinkRepresented(m, seg, k);
    UnlinkedElsewhere(m.links, m.order[seg], seg, k);
    WithoutDistinct(m.order[seg], k);
  }

  lemma SetCostKeeps(m: Image, seg: nat, k: nat, cost: nat)
    requires WellFormed(m) && m.loose == None && seg < SEGMENTS && k < |m.order[seg]|
    ensures var i := m.order[seg][k];
            && i < |m.links| && m.payload[i].Some? && m.links[i].seg == seg && m.lists[seg].cost >= m.costs[i]
    ensures WellFormed(RecostedImage(m, seg, k, cost))
  {
    assert Slot(m.order[seg][k]);
    SetCostRepresented(m.links, m.costs, m.lists, m.order, seg, k, cost);
  }

  // ---------------------------------------------------------------- node ids

  /** Where `resolve` finds a node id: a slot in use whose generation matches. */
  function Resolve(links: seq<Link>, id: NodeId): (r: Option<nat>)
  {
    if id.slot < |links| && links[id.slot].seg != FREE &&
        links[id.slot].generation == id.generation then Some(id.slot) else None
  }

  /** `resolve` succeeds exactly on the ids of resident nodes. */
  lemma ResolveFindsResidents(m: Image, id: NodeId)
    requires WellFormed(m) && m.loose == None
    ensures Resolve(m.links, id).Some? <==> id in m.resident
    ensures id in m.resident ==>
            var i := id.slot;
            && i < |m.links| && m.payload[i].Some? && IdOf(m.generations, i) == id
            && m.resident[id] == Item(m.payload[i].value, m.costs[i])
            && m.links[i].seg < SEGMENTS && i in m.order[m.links[i].seg]
  {
    assert Slot(id.slot);
    if id.slot < |m.links| {
      assert m.payload[id.slot].Some? <==> m.links[id.slot].seg != FREE;
    }
  }

  /** What a policy needs of the slab's invariant, at one segment. */
  lemma Facts(m: Image, seg: nat)
    requires WellFormed(m) && m.loose == None && seg < SEGMENTS
    ensures Below(m.order[seg], |m.links|) && Distinct(m.order[seg])
    ensures m.lists[seg].tail == (if m.order[seg] == [] then NIL else m.order[seg][0])
    ensures m.lists[seg].cost == Total(m.costs, m.order[seg])
    ensures forall k {:trigger m.order[seg][k]} :: 0 <= k < |m.order[seg]| ==>
              var i := m.order[seg][k];
              m.payload[i].Some? && IdOf(m.generations, i) in m.resident &&
                  m.resident[IdOf(m.generations, i)] == Item(m.payload[i].value, m.costs[i])
  {
    assert Seg(seg);
    forall k {:trigger m.order[seg][k]} | 0 <= k < |m.order[seg]|
      ensures var i := m.order[seg][k];
              m.payload[i].Some? && IdOf(m.generations, i) in m.resident &&
                  m.resident[IdOf(m.generations, i)] == Item(m.payload[i].value, m.costs[i])
    {
      assert Slot(m.order[seg][k]);
    }
  }

  lemma NobodyLeft(m: Image)
    requires WellFormed(m) && m.loose == None && m.order[0] == [] && m.order[1] == [] && m.order[2] == []
    ensures m.resident == map[]
  {
    forall id | id in m.resident
      ensures false
    {
      ResolveFindsResidents(m, id);
    }
  }

  /** Lists are disjoint: a slot in one is in no other. */
  lemma Elsewhere(m: Image, seg: nat, k: nat, other: nat)
    requires WellFormed(m) && m.loose == None && seg < SEGMENTS && other < SEGMENTS && other != seg
    requires k < |m.order[seg]|
    ensures m.order[seg][k] !in m.order[other]
  {
    assert Seg(seg) && Seg(other);
    ChainedSegs(m.links, m.order[seg], seg);
    ChainedSegs(m.links, m.order[other], other);
  }

  lemma Locate(m: Image, id: NodeId) returns (seg: nat, k: nat)
    requires WellFormed(m) && m.loose == None && id in m.resident
    ensures id.slot < |m.links| && seg == m.links[id.slot].seg < SEGMENTS && k < |m.order[seg]|
    ensures m.order[seg][k] == id.slot
    ensures m.payload[id.slot].Some? && IdOf(m.generations, id.slot) == id
  {
    ResolveFindsResidents(m, id);
    seg := m.links[id.slot].seg;
    k :| 0 <= k < |m.order[seg]| && m.order[seg][k] == id.slot;
  }

  lemma {:induction false} IdsAreMany(generations: seq<nat>, n: nat) returns (ids: set<NodeId>)
    requires n <= |generations|
    ensures |ids| == n && forall id :: id in ids ==> id.slot < n && id == IdOf(generations, id.slot)
  {
    if n == 0 {
      ids := {};
    } else {
      ids := IdsAreMany(generations, n - 1);
      ids := ids + {IdOf(generations, n - 1)};
    }
  }

  /** With no slot free, the slab is no longer than the number of entries in it. */
  lemma FullSlab(m: Image)
    requires WellFormed(m) && m.loose == None && m.free == []
    ensures |m.links| <= |m.resident|
  {
    var ids := IdsAreMany(m.generations, |m.links|);
    forall id | id in ids
      ensures id in m.resident.Keys
    {
      assert Slot(id.slot);
    }
    Sizes(ids, m.resident.Keys);
  }

  lemma {:induction false} Sizes(a: set<NodeId>, b: set<NodeId>)
    requires a <= b
    ensures |a| <= |b|
  {
    assert |b| == |a| + |b - a| by { assert b == a + (b - a); }
  }

  /** The generation of a slot after `n` releases. */
  function Released(generation: nat, n: nat): (g: nat)
  {
    if n == 0 then generation else (Released(generation, n - 1) + 1) % GENERATIONS
  }

  /** A released id never resolves again until its slot has been recycled 2^32 times. */
  lemma {:induction false} StaleIdsStayStale(links: seq<Link>, id: NodeId, n: nat)
    requires id.generation < GENERATIONS
    requires id.slot < |links| && links[id.slot].generation == Released(id.generation, n)
    ensures Resolve(links, id).Some? <==> links[id.slot].seg != FREE && n % GENERATIONS == 0
    ensures 0 < n < GENERATIONS ==> Resolve(links, id) == None
  {
    ReleasedCounts(id.generation, n);
    WrapsBack(id.generation, n);
  }

  lemma {:induction false} ReleasedCounts(generation: nat, n: nat)
    requires generation < GENERATIONS
    ensures Released(generation, n) == (generation + n) % GENERATIONS
  {
    if n > 0 {
      ReleasedCounts(generation, n - 1);
      NextResidue(generation + n - 1);
    }
  }

  lemma NextResidue(a: nat)
    ensures (a % GENERATIONS + 1) % GENERATIONS == (a + 1) % GENERATIONS
  {
  }

  lemma WrapsBack(g: nat, n: nat)
    requires g < GENERATIONS
    ensures (g + n) % GENERATIONS == g <==> n % GENERATIONS == 0
  {
  }

  /** The lists after slot `k` of list `from` became the newest of list `to`. */
  ghost function Moved(order: seq<seq<nat>>, from: nat, k: nat, to: nat): (r: seq<seq<nat>>)
    requires from < |order| && to < |order| && k < |order[from]|
  {
    var o := order[from := Without(order[from], k)];
    o[to := o[to] + [order[from][k]]]
  }

  lemma NewestMoved(m: Image, seg: nat, own: nat, k: nat)
    requires WellFormed(m) && m.loose == None && seg < SEGMENTS && own < SEGMENTS && k < |m.order[own]|
    requires m.order[own][k] < |m.links| && m.lists[seg].head == m.order[own][k] && m.links[m.order[own][k]].seg == seg
    ensures Moved(m.order, own, k, seg) == m.order
  {
    assert Seg(seg) && Seg(own);
    ChainedSegs(m.links, m.order[own], own);
    assert m.order[seg][|m.order[seg]| - 1] == m.order[own][k];
    assert Without(m.order[seg], k) + [m.order[own][k]] == m.order[seg];
  }

  class Slab {
    var links: seq<Link>
    var payload: seq<Option<nat>>
    var costs: seq<nat>
    var free: seq<nat>
    var lists: seq<List>

    /** The slots of each list, oldest first. */
    ghost var order: seq<seq<nat>>
    /** The one slot between two operations: allocated or unlinked, in no list. */
    ghost var loose: Option<nat>
    /** The generation of each slot, as its link records it. */
    ghost var generations: seq<nat>
    /** The slots in use, by node id. */
    ghost var resident: Resident

    ghost function Now(): (m: Image)
      reads this
    {
      Image(links, payload, costs, free, lists, order, loose, generations, resident)
    }

    ghost predicate Valid()
      reads this
    {
      WellFormed(Now())
    }

    /** Whether a slot index below NIL is left for one more entry. */
    ghost predicate HasRoom()
      reads this
    {
      |free| > 0 || |links| < NIL
    }

    function Id(i: nat): (id: NodeId)
      requires Valid() && i < |links|
      reads this
      ensures |generations| == |links| && id == IdOf(generations, i)
    {
      assert Slot(i);
      NodeId(links[i].generation, i)
    }

    constructor ()
      ensures Valid() && loose == None
      ensures order == [[], [], []] && links == [] && free == [] && resident == map[]
    {
      links, payload, costs, free := [], [], [], [];
      lists := [EMPTY, EMPTY, EMPTY];
      order, loose, generations, resident := [[], [], []], None, [], map[];
    }

    method Alloc(p: nat, cost: nat) returns (i: nat)
      requires Valid() && loose == None && HasRoom()
      modifies this
      ensures if old(free) != [] then IsRecycle(old(Now()), p, cost, Now()) else IsGrowth(old(Now()), p, cost, Now())
      ensures Valid() && loose == Some(i) && order == old(order) && lists == old(lists)
      ensures if old(free) != []
        then i == old(free)[|old(free)| - 1] && |links| == old(|links|) && generations == old(generations)
        else i == old(|links|) && |links| == i + 1 && generations == old(generations) + [0]
      ensures i < |links| == |payload| == |generations| && (i < |old(payload)| ==> old(payload)[i] == None)
      ensures payload == old(if i < |payload| then payload[i := Some(p)] else payload + [Some(p)])
      ensures costs == old(if i < |costs| then costs[i := cost] else costs + [cost])
      ensures Nowhere(order, i)
      ensures IdOf(generations, i) !in old(resident) && resident == old(resident)[IdOf(generations, i) := Item(p, cost)]
      ensures IdOf(generations, i) == NextId(old(free), old(generations))
    {
      if |free| > 0 {
        RecycleKeeps(Now(), p, cost);
        i := free[|free| - 1];
        free := free[..|free| - 1];
        payload := payload[i := Some(p)];
        costs := costs[i := cost];
        resident, loose := resident[IdOf(generations, i) := Item(p, cost)], Some(i);
        assert Now() == Recycled(old(Now()), p, cost);
      } else {
        GrowKeeps(Now(), p, cost);
        links := links + [Link(NIL, NIL, FREE, 0)];
        payload := payload + [Some(p)];
        costs := costs + [cost];
        i := |links| - 1;
        generations, resident, loose := generations + [0], resident[NodeId(0, i) := Item(p, cost)], Some(i);
        assert Now() == Grown(old(Now()), p, cost);
      }
      assert Slot(i);
    }

    method Release(i: nat) returns (p: nat)
      requires Valid() && loose == Some(i)
      modifies this
      ensures Valid() && i < |old(payload)| && old(payload)[i] == Some(p)
      ensures Now() == ReleasedImage(old(Now()), i)
    {
      ReleaseKeeps(Now(), i);
      resident := resident - {IdOf(generations, i)};
      links := links[i := links[i].(seg := FREE, generation := (links[i].generation + 1) % GENERATIONS)];
      generations := generations[i := links[i].generation];
      free := free + [i];
      p := payload[i].value;
      payload := payload[i := None];
      loose := None;
    }

    method PushFront(seg: nat, i: nat)
      requires Valid() && loose == Some(i) && seg < SEGMENTS
      modifies this`links, this`lists, this`order, this`loose
      ensures IsPush(old(Now()), seg, i, Now())
      ensures Valid() && loose == None && order == old(order)[seg := old(order)[seg] + [i]]
    {
      PushKeeps(Now(), seg, i);
      var l := lists[seg];
      var head := l.head;
      lists := lists[seg := List(i, if l.tail == NIL then i else l.tail, l.cost + costs[i])];
      links := links[i := links[i].(prev := NIL, next := head, seg := seg)];
      if head != NIL {
        links := links[head := links[head].(prev := i)];
      }
      order := order[seg := order[seg] + [i]];
      loose := None;
      assert Now() == PushedImage(old(Now()), seg, i);
    }

    /** `seg` and `k` say where the slot stands; the code reads that from the link. */
    method Unlink(i: nat, ghost seg: nat, ghost k: nat)
      requires Valid() && loose == None && seg < SEGMENTS && k < |order[seg]| && order[seg][k] == i
      modifies this`links, this`lists, this`order, this`loose
      ensures IsUnlink(old(Now()), seg, k, Now())
      ensures Valid() && loose == Some(i) && order == old(order)[seg := Without(old(order)[seg], k)]
      ensures lists == old(lists)[seg := lists[seg]]
    {
      UnlinkKeeps(Now(), seg, k);
      var prev, next, own := links[i].prev, links[i].next, links[i].seg;
      if prev != NIL {
        links := links[prev := links[prev].(next := next)];
      } else {
        lists := lists[own := lists[own].(head := next)];
      }
      if next != NIL {
        links := links[next := links[next].(prev := prev)];
      } else {
        lists := lists[own := lists[own].(tail := prev)];
      }
      lists := lists[own := lists[own].(cost := lists[own].cost - costs[i])];
      order := order[seg := Without(order[seg], k)];
      loose := Some(i);
      assert Now() == UnlinkedImage(old(Now()), seg, k);
    }

    method MoveFront(seg: nat, i: nat, ghost own: nat, ghost k: nat)
      requires Valid() && loose == None && seg < SEGMENTS && own < SEGMENTS && k < |order[own]| && order[own][k] == i
      modifies this`links, this`lists, this`order, this`loose
      ensures Valid() && loose == None && order == Moved(old(order), own, k, seg)
    {
      UnlinkKeeps(Now(), own, k);
      if lists[seg].head != i || links[i].seg != seg {
        Unlink(i, own, k);
        PushFront(seg, i);
      } else {
        NewestMoved(Now(), seg, own, k);
      }
    }

    method SetCost(i: nat, cost: nat, ghost seg: nat, ghost k: nat)
      requires Valid() && loose == None && seg < SEGMENTS && k < |order[seg]| && order[seg][k] == i
      modifies this`costs, this`lists, this`resident
      ensures IsRecost(old(Now()), seg, k, cost, Now())
      ensures Valid() && i < |old(costs)| && costs == old(costs)[i := cost] && i < |payload| == |generations|
      ensures payload[i].Some? && resident == old(resident)[IdOf(generations, i) := Item(payload[i].value, cost)]
    {
      SetCostKeeps(Now(), seg, k, cost);
      var own, was := links[i].seg, costs[i];
      costs := costs[i := cost];
      lists := lists[own := lists[own].(cost := lists[own].cost - was + cost)];
      resident := resident[IdOf(generations, i) := Item(payload[i].value, cost)];
      assert Now() == RecostedImage(old(Now()), seg, k, cost);
    }

    method Clear()
      modifies this
      ensures Valid() && loose == None
      ensures order == [[], [], []] && links == [] && free == [] && resident == map[]
    {
      links, payload, costs, free := [], [], [], [];
      lists := [EMPTY, EMPTY, EMPTY];
      order, loose, generations, resident := [[], [], []], None, [], map[];
    }
  }
}
