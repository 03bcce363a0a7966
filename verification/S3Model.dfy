/**
 S3-FIFO on plain sequences: a small queue, a main queue (both oldest first), the
 ghost set and the order in which ghosts were remembered. This is the simple form
 that the slab form refines, and the state its debug_state reports.
 */
module S3Model {
  import opened Residents

  const FREQ_MAX: nat := 3

  datatype Node = Node(id: NodeId, hash: nat, cost: nat, freq: nat)

  datatype State = State(small: seq<Node>, main: seq<Node>, ghosts: set<nat>, order: seq<nat>)

  datatype Outcome = Outcome(state: State, victims: seq<Node>, freed: nat)

  const INIT := State([], [], {}, [])

  function Cost(s: seq<Node>): (c: nat)
  {
    if s == [] then 0 else s[0].cost + Cost(s[1..])
  }

  /** Adds a ghost, dropping the oldest first when the order is full. */
  function Remember(s: State, hash: nat, cap: nat): (r: State)
  {
    var full := |s.order| >= cap && s.order != [];
    var ghosts := if full then s.ghosts - {s.order[0]} else s.ghosts;
    var order := if full then s.order[1..] else s.order;
    if hash in ghosts then s.(ghosts := ghosts, order := order)
    else s.(ghosts := ghosts + {hash}, order := order + [hash])
  }

  function EvictSmall(s: State, cap: nat): (o: Outcome)
    requires s.small != []
  {
    var n := s.small[0];
    var rest := s.(small := s.small[1..]);
    if n.freq > 1 then Outcome(rest.(main := s.main + [n.(freq := 0)]), [], 0)
    else Outcome(Remember(rest, n.hash, cap), [n], n.cost)
  }

  function EvictMain(s: State): (o: Outcome)
    requires s.main != []
  {
    var n := s.main[0];
    if n.freq > 0 then Outcome(s.(main := s.main[1..] + [n.(freq := n.freq - 1)]), [], 0)
    else Outcome(s.(main := s.main[1..]), [n], n.cost)
  }

  predicate FromSmall(s: State, target: nat)
  {
    s.small != [] && (Cost(s.small) > target || s.main == [])
  }

  /** One turn of the eviction loop. */
  function Step(s: State, target: nat, cap: nat): (o: Outcome)
    requires s.small != [] || s.main != []
  {
    if FromSmall(s, target) then EvictSmall(s, cap) else EvictMain(s)
  }

  // ------------------------------------------------------------ termination

  function Credit(s: seq<Node>): (c: nat)
  {
    if s == [] then 0 else s[0].freq + 1 + Credit(s[1..])
  }

  /** Every turn spends some of this: two turns a small entry, freq + 1 a main one. */
  function Potential(s: State): (p: nat)
  {
    2 * |s.small| + Credit(s.main)
  }

  lemma {:induction false} CreditAppend(a: seq<Node>, b: seq<Node>)
    ensures Credit(a + b) == Credit(a) + Credit(b)
  {
    if a == [] {
      assert a + b == b;
    } else {
      CreditAppend(a[1..], b);
      assert (a + b)[1..] == a[1..] + b;
    }
  }

  lemma StepSpends(s: State, target: nat, cap: nat)
    requires s.small != [] || s.main != []
    ensures Potential(Step(s, target, cap).state) < Potential(s)
  {
    if FromSmall(s, target) {
      CreditAppend(s.main, [s.small[0].(freq := 0)]);
    } else {
      var n := s.main[0];
      if n.freq > 0 {
        CreditAppend(s.main[1..], [n.(freq := n.freq - 1)]);
      }
    }
  }

  predicate Stops(s: State, want: nat, freed: nat)
  {
    freed >= want || (s.small == [] && s.main == [])
  }

  /** The eviction loop, entered with `freed` already released. */
  function Evict(s: State, want: nat, freed: nat, target: nat, cap: nat): (o: Outcome)
    decreases Potential(s)
  {
    if Stops(s, want, freed) then Outcome(s, [], freed)
    else
      StepSpends(s, target, cap);
      var o := Step(s, target, cap);
      var rest := Evict(o.state, want, freed + o.freed, target, cap);
      Outcome(rest.state, o.victims + rest.victims, rest.freed)
  }

  /** How many turns the loop takes. */
  function Turns(s: State, want: nat, freed: nat, target: nat, cap: nat): (n: nat)
    decreases Potential(s)
  {
    if Stops(s, want, freed) then 0
    else
      StepSpends(s, target, cap);
      var o := Step(s, target, cap);
      1 + Turns(o.state, want, freed + o.freed, target, cap)
  }

  ghost predicate Capped(s: seq<Node>)
  {
    forall k :: 0 <= k < |s| ==> s[k].freq <= FREQ_MAX
  }

  lemma {:induction false} CreditCapped(s: seq<Node>)
    requires Capped(s)
    ensures |s| <= Credit(s) <= 4 * |s|
  {
    if s != [] {
      CreditCapped(s[1..]);
    }
  }

  lemma {:induction false} TurnsWithinPotential(s: State, want: nat, freed: nat, target: nat, cap: nat)
    ensures Turns(s, want, freed, target, cap) <= Potential(s)
    decreases Potential(s)
  {
    if !Stops(s, want, freed) {
      StepSpends(s, target, cap);
      var o := Step(s, target, cap);
      TurnsWithinPotential(o.state, want, freed + o.freed, target, cap);
    }
  }

  /** Eviction takes at most two turns an entry of small and four an entry of main. */
  lemma EvictionTerminatesWithin(s: State, want: nat, target: nat, cap: nat)
    requires Capped(s.main)
    ensures Turns(s, want, 0, target, cap) <= 2 * |s.small| + 4 * |s.main|
  {
    TurnsWithinPotential(s, want, 0, target, cap);
    CreditCapped(s.main);
  }

  // ----------------------------------------------------- what eviction frees

  lemma {:induction false} CostAppend(a: seq<Node>, b: seq<Node>)
    ensures Cost(a + b) == Cost(a) + Cost(b)
  {
    if a == [] {
      assert a + b == b;
    } else {
      CostAppend(a[1..], b);
      assert (a + b)[1..] == a[1..] + b;
    }
  }

  function Held(s: State): (c: nat)
  {
    Cost(s.small) + Cost(s.main)
  }

  lemma StepConserves(s: State, target: nat, cap: nat)
    requires s.small != [] || s.main != []
    ensures var o := Step(s, target, cap);
            && Held(o.state) + o.freed == Held(s)
            && o.freed == Cost(o.victims)
            && |o.victims| <= 1
  {
    if FromSmall(s, target) {
      CostAppend(s.main, [s.small[0].(freq := 0)]);
      assert Cost([s.small[0]]) == s.small[0].cost;
    } else {
      var n := s.main[0];
      if n.freq > 0 {
        CostAppend(s.main[1..], [n.(freq := n.freq - 1)]);
      }
    }
  }

  /** What was freed is what the victims cost. */
  lemma {:induction false} EvictFreesItsVictims(s: State, want: nat, freed: nat, target: nat, cap: nat)
    ensures var o := Evict(s, want, freed, target, cap); o.freed == freed + Cost(o.victims)
    decreases Potential(s)
  {
    if !Stops(s, want, freed) {
      StepSpends(s, target, cap);
      StepConserves(s, target, cap);
      var o := Step(s, target, cap);
      var rest := Evict(o.state, want, freed + o.freed, target, cap);
      EvictFreesItsVictims(o.state, want, freed + o.freed, target, cap);
      if o.victims == [] {
        assert o.victims + rest.victims == rest.victims;
      } else {
        assert (o.victims + rest.victims)[1..] == rest.victims;
      }
    }
  }

  /** Nothing is lost: the queues hold what they held less what was freed. */
  lemma {:induction false} EvictConserves(s: State, want: nat, freed: nat, target: nat, cap: nat)
    ensures var o := Evict(s, want, freed, target, cap); Held(o.state) + o.freed == Held(s) + freed
    decreases Potential(s)
  {
    if !Stops(s, want, freed) {
      StepSpends(s, target, cap);
      StepConserves(s, target, cap);
      var o := Step(s, target, cap);
      EvictConserves(o.state, want, freed + o.freed, target, cap);
    }
  }

  /** Eviction frees what was asked for or empties both queues. */
  lemma {:induction false} EvictFreesEnough(s: State, want: nat, freed: nat, target: nat, cap: nat)
    ensures var o := Evict(s, want, freed, target, cap); Stops(o.state, want, o.freed)
    decreases Potential(s)
  {
    if !Stops(s, want, freed) {
      StepSpends(s, target, cap);
      var o := Step(s, target, cap);
      EvictFreesEnough(o.state, want, freed + o.freed, target, cap);
    }
  }

  /** Without its last victim, an eviction would have freed less than `want`. */
  ghost predicate NoMoreThanNeeded(o: Outcome, want: nat)
  {
    o.victims != [] ==> o.freed - o.victims[|o.victims| - 1].cost < want
  }

  lemma TightTurn(o: Outcome, rest: Outcome, all: Outcome, freed: nat, want: nat)
    requires |o.victims| <= 1 && Cost(o.victims) == o.freed && freed < want
    requires rest.victims == [] ==> rest.freed == freed + o.freed
    requires NoMoreThanNeeded(rest, want) && all.victims == o.victims + rest.victims && all.freed == rest.freed
    ensures NoMoreThanNeeded(all, want)
  {
    if rest.victims == [] && o.victims != [] {
      assert o.victims == [o.victims[0]];
      assert Cost(o.victims) == o.victims[0].cost;
    }
  }

  lemma VictimsOrNothing(s: State, want: nat, freed: nat, target: nat, cap: nat)
    ensures var o := Evict(s, want, freed, target, cap); o.victims == [] ==> o.freed == freed
  {
    EvictFreesItsVictims(s, want, freed, target, cap);
  }

  lemma StepTakesOne(s: State, target: nat, cap: nat)
    requires s.small != [] || s.main != []
    ensures var o := Step(s, target, cap);
            |o.victims| <= 1 && o.freed == Cost(o.victims) && Potential(o.state) < Potential(s)
  {
    StepSpends(s, target, cap);
    StepConserves(s, target, cap);
  }

  /** Eviction takes no more victims than it needs. */
  lemma {:induction false} EvictIsTight(s: State, want: nat, freed: nat, target: nat, cap: nat)
    ensures NoMoreThanNeeded(Evict(s, want, freed, target, cap), want)
    decreases Potential(s)
  {
    if !Stops(s, want, freed) {
      StepTakesOne(s, target, cap);
      var o := Step(s, target, cap);
      var rest := Evict(o.state, want, freed + o.freed, target, cap);
      EvictIsTight(o.state, want, freed + o.freed, target, cap);
      VictimsOrNothing(o.state, want, freed + o.freed, target, cap);
      TightTurn(o, rest, Evict(s, want, freed, target, cap), freed, want);
    }
  }

  // ------------------------------------------------------------- the ghosts

  /** Every ghost is in the order, and the order fits its capacity. */
  ghost predicate GhostsOk(ghosts: set<nat>, order: seq<nat>, cap: nat)
  {
    |order| <= cap && forall h :: h in ghosts ==> h in order
  }

  /** A hash just remembered is a ghost, even when an older copy of it was dropped to make room. */
  lemma RememberKeeps(s: State, hash: nat, cap: nat)
    requires GhostsOk(s.ghosts, s.order, cap) && cap > 0
    ensures var r := Remember(s, hash, cap); GhostsOk(r.ghosts, r.order, cap) && hash in r.ghosts
  {
    var r := Remember(s, hash, cap);
    forall h | h in r.ghosts
      ensures h in r.order
    {
      if h == hash {
        if |s.order| < cap || s.order[0] != h {
        }
      }
    }
  }

  lemma StepKeepsGhosts(s: State, target: nat, cap: nat)
    requires GhostsOk(s.ghosts, s.order, cap) && cap > 0 && (s.small != [] || s.main != [])
    ensures var r := Step(s, target, cap).state; GhostsOk(r.ghosts, r.order, cap)
    ensures FromSmall(s, target) && s.small[0].freq <= 1 ==> s.small[0].hash in Step(s, target, cap).state.ghosts
  {
    if FromSmall(s, target) {
      RememberKeeps(s.(small := s.small[1..]), s.small[0].hash, cap);
    }
  }

  // -------------------------------------------------------- the other updates

  /** A hash remembered as a ghost goes straight to the main queue. */
  function Admit(s: State, id: NodeId, hash: nat, cost: nat): (r: State)
  {
    var n := Node(id, hash, cost, 0);
    if hash in s.ghosts then s.(main := s.main + [n], ghosts := s.ghosts - {hash})
    else s.(small := s.small + [n])
  }

  function RecostNodes(q: seq<Node>, id: NodeId, cost: nat): (r: seq<Node>)
  {
    seq(|q|, k requires 0 <= k < |q| => if q[k].id == id then q[k].(cost := cost) else q[k])
  }

  function Update(s: State, id: NodeId, cost: nat): (r: State)
  {
    s.(small := RecostNodes(s.small, id, cost), main := RecostNodes(s.main, id, cost))
  }

  function BumpNodes(q: seq<Node>, id: NodeId): (r: seq<Node>)
  {
    seq(|q|, k requires 0 <= k < |q| => if q[k].id == id && q[k].freq < FREQ_MAX then q[k].(freq := q[k].freq + 1)
                                        else q[k])
  }

  function Touch(s: State, id: NodeId): (r: State)
  {
    s.(small := BumpNodes(s.small, id), main := BumpNodes(s.main, id))
  }

  // ------------------------------------------------------- what reads are worth

  /** `n` reads of one node. */
  function Reads(s: State, id: NodeId, n: nat): (r: State)
  {
    if n == 0 then s else Touch(Reads(s, id, n - 1), id)
  }

  function AtMostThree(n: nat): (f: nat)
  {
    if n < 3 then n else 3
  }

  /** Reads count up to three: each raises the node's frequency by one until it is 3, and changes nothing else. */
  lemma {:induction false} ReadsCountUpToThree(s: State, id: NodeId, n: nat)
    requires Capped(s.small) && Capped(s.main)
    ensures var r := Reads(s, id, n);
            && r.ghosts == s.ghosts && r.order == s.order && Read(s.small, r.small, id, n) &&
               Read(s.main, r.main, id, n)
  {
    if n > 0 {
      ReadsCountUpToThree(s, id, n - 1);
    }
  }

  ghost predicate Read(q: seq<Node>, r: seq<Node>, id: NodeId, n: nat)
  {
    && |r| == |q|
    && forall k :: 0 <= k < |q| ==> r[k] == if q[k].id == id then q[k].(freq := AtMostThree(q[k].freq + n)) else q[k]
  }

  /** The turns of an eviction. */
  ghost predicate AreTurns(states: seq<State>, target: nat, cap: nat)
  {
    && states != []
    && forall i :: 0 <= i < |states| - 1 ==>
         (states[i].small != [] || states[i].main != []) && states[i + 1] == Step(states[i], target, cap).state
  }

  predicate Visited(s: State, id: NodeId, target: nat)
  {
    !FromSmall(s, target) && s.main != [] && s.main[0].id == id
  }

  /** How many of the first `n` turns come to the node in the main queue. */
  ghost function Visits(states: seq<State>, id: NodeId, target: nat, n: nat): (v: nat)
    requires n < |states|
  {
    if n == 0 then 0 else Visits(states, id, target, n - 1) + (if Visited(states[n - 1], id, target) then 1 else 0)
  }

  ghost predicate Missing(q: seq<Node>, id: NodeId)
  {
    forall k :: 0 <= k < |q| ==> q[k].id != id
  }

  /** The node stands in the main queue, once, with frequency `f`. */
  ghost predicate InMain(s: State, id: NodeId, f: nat)
  {
    && Missing(s.small, id)
    && exists k :: StandsAt(s.main, k, id, f)
  }

  ghost predicate StandsAt(q: seq<Node>, k: int, id: NodeId, f: nat)
  {
    0 <= k < |q| && q[k].id == id && q[k].freq == f && Missing(q[..k], id) && Missing(q[k + 1..], id)
  }

  ghost predicate Gone(s: State, id: NodeId)
  {
    Missing(s.small, id) && Missing(s.main, id)
  }

  lemma AbsentStays(s: State, id: NodeId, target: nat, cap: nat)
    requires Gone(s, id) && (s.small != [] || s.main != [])
    ensures Gone(Step(s, target, cap).state, id) && !Visited(s, id, target)
  {
  }

  /** A turn elsewhere leaves it; a turn that comes to it lets it go on with one less, or takes it at 0. */
  lemma TurnOf(s: State, id: NodeId, f: nat, target: nat, cap: nat)
    requires InMain(s, id, f) && (s.small != [] || s.main != [])
    ensures var r := Step(s, target, cap);
            if !Visited(s, id, target) then InMain(r.state, id, f)
            else if f > 0 then InMain(r.state, id, f - 1)
            else Gone(r.state, id) && |r.victims| == 1 && r.victims[0].id == id
  {
    var k :| StandsAt(s.main, k, id, f);
    var r := Step(s, target, cap).state;
    if FromSmall(s, target) {
      assert r.main[..k] == s.main[..k];
      if r.main == s.main {
        assert StandsAt(r.main, k, id, f);
      } else {
        assert r.main[k + 1..] == s.main[k + 1..] + [s.small[0].(freq := 0)];
        assert StandsAt(r.main, k, id, f);
      }
    } else if k == 0 {
      assert s.main[1..] == s.main[k + 1..];
      if f > 0 {
        assert r.main[..|s.main| - 1] == s.main[1..];
        assert StandsAt(r.main, |s.main| - 1, id, f - 1);
      }
    } else {
      assert s.main[..k][0] == s.main[0];
      MovedUp(s.main, r.main, k, id, f);
    }
  }

  lemma MovedUp(q: seq<Node>, r: seq<Node>, k: nat, id: NodeId, f: nat)
    requires 0 < k < |q| && StandsAt(q, k, id, f) && |r| >= |q| - 1 && r[..|q| - 1] == q[1..]
    requires Missing(r[|q| - 1..], id)
    ensures StandsAt(r, k - 1, id, f)
  {
    var rest := r[..|q| - 1];
    assert r[..k - 1] == rest[..k - 1] && rest[..k - 1] == q[..k][1..];
    assert r[k..] == q[k + 1..] + r[|q| - 1..];
    assert r[k - 1] == r[..|q| - 1][k - 1] == q[k];
  }

  /** Over any eviction, a main entry survives as many visits as its frequency, and is taken at the next. */
  lemma {:induction false} SurvivesItsFrequency(states: seq<State>, id: NodeId, f: nat, target: nat, cap: nat, n: nat)
    requires AreTurns(states, target, cap) && n < |states| && InMain(states[0], id, f)
    ensures var v := Visits(states, id, target, n);
            if v <= f then InMain(states[n], id, f - v) else v == f + 1 && Gone(states[n], id)
  {
    if n > 0 {
      SurvivesItsFrequency(states, id, f, target, cap, n - 1);
      var v := Visits(states, id, target, n - 1);
      if v <= f {
        TurnOf(states[n - 1], id, f - v, target, cap);
      } else {
        AbsentStays(states[n - 1], id, target, cap);
      }
    }
  }

  lemma StillStands(q: seq<Node>, r: seq<Node>, k: int, id: NodeId, n: nat)
    requires StandsAt(q, k, id, 0) && Read(q, r, id, n)
    ensures StandsAt(r, k, id, AtMostThree(n))
  {
    var before, after := q[..k], q[k + 1..];
    assert forall i :: 0 <= i < k ==> q[i] == before[i];
    forall i | k < i < |q|
      ensures q[i].id != id
    {
      assert q[i] == after[i - k - 1];
    }
  }

  lemma ReadsLeaveInMain(s: State, id: NodeId, times: nat)
    requires InMain(s, id, 0) && Capped(s.small) && Capped(s.main)
    ensures InMain(Reads(s, id, times), id, AtMostThree(times))
  {
    ReadsCountUpToThree(s, id, times);
    var k :| StandsAt(s.main, k, id, 0);
    StillStands(s.main, Reads(s, id, times).main, k, id, times);
  }

  /** So one that stood at 0 and was read `times` times survives that many visits, and three if it was read more. */
  lemma ReadsBuyVisits(s: State, id: NodeId, times: nat, states: seq<State>, target: nat, cap: nat, n: nat)
    requires InMain(s, id, 0) && Capped(s.small) && Capped(s.main)
    requires AreTurns(states, target, cap) && n < |states| && states[0] == Reads(s, id, times)
    ensures var v := Visits(states, id, target, n); var worth := if times < 3 then times else 3;
            if v <= worth then InMain(states[n], id, worth - v) else v == worth + 1 && Gone(states[n], id)
  {
    ReadsLeaveInMain(s, id, times);
    SurvivesItsFrequency(states, id, AtMostThree(times), target, cap, n);
  }

  /** An entry of the small queue, when its turn comes, goes on to main if and only if it was read at least twice
        since its admission; otherwise it is taken and remembered. */
  lemma TwoReadsPromote(s: State, times: nat, cap: nat)
    requires s.small != [] && s.small[0].freq == 0 && Capped(s.small) && Capped(s.main)
    ensures var n := s.small[0]; var read := Reads(s, n.id, times);
            && read.small != []
            && var o := EvictSmall(read, cap);
               if times >= 2 then o.victims == [] && o.freed == 0 && o.state.main == read.main + [n]
               else o.victims == [n.(freq := times)] && n.hash in o.state.ghosts && o.state.main == read.main
  {
    ReadsCountUpToThree(s, s.small[0].id, times);
  }

  function DropNodes(q: seq<Node>, id: NodeId): (r: seq<Node>)
  {
    if q == [] then [] else if q[0].id == id then DropNodes(q[1..], id) else [q[0]] + DropNodes(q[1..], id)
  }

  predicate Holds(s: State, id: NodeId)
  {
    (exists k :: 0 <= k < |s.small| && s.small[k].id == id) || (exists k :: 0 <= k < |s.main| && s.main[k].id == id)
  }

  function Remove(s: State, id: NodeId): (r: State)
  {
    s.(small := DropNodes(s.small, id), main := DropNodes(s.main, id))
  }

  lemma {:induction false} DropAbsent(q: seq<Node>, id: NodeId)
    requires forall k :: 0 <= k < |q| ==> q[k].id != id
    ensures DropNodes(q, id) == q
  {
    if q != [] {
      DropAbsent(q[1..], id);
    }
  }

  lemma {:induction false} DropOne(q: seq<Node>, k: nat)
    requires k < |q| && forall j :: 0 <= j < |q| && j != k ==> q[j].id != q[k].id
    ensures DropNodes(q, q[k].id) == q[..k] + q[k + 1..]
  {
    if k == 0 {
      DropAbsent(q[1..], q[0].id);
    } else {
      DropOne(q[1..], k - 1);
      assert q[..k] + q[k + 1..] == [q[0]] + (q[1..][..k - 1] + q[1..][k..]);
    }
  }

  function Names(victims: seq<Node>): (r: seq<Victim>)
    ensures |r| == |victims|
  {
    if victims == [] then [] else [Victim(victims[0].hash, victims[0].id)] + Names(victims[1..])
  }

  lemma NamesOne(n: Node)
    ensures Names([n]) == [Victim(n.hash, n.id)]
  {
    assert [n][1..] == [];
  }

  lemma {:induction false} NamesAppend(a: seq<Node>, b: seq<Node>)
    ensures Names(a + b) == Names(a) + Names(b)
  {
    if a == [] {
      assert a + b == b;
    } else {
      NamesAppend(a[1..], b);
      assert (a + b)[1..] == a[1..] + b;
    }
  }
}
