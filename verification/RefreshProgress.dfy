/**
 Why the refresh queue comes to rest. An activity that leaves the pump may come back to it, but only after some load
 was received or some slot given back meanwhile, and there are only so many of those: unless loads are sent or end,
 the activities return after a bounded number of operations.
 */
module RefreshProgress {
  import opened Sums
  import opened RefreshQueue

  /** What an activity has left to contribute; less when loads are queued and it is about to receive one. */
  function Weight(pc: Pc, queued: bool): (n: nat)
    ensures n <= 4
  {
    match pc
    case Discounting(_) => 4
    case Taking(_) => 3
    case Losing => 2
    case Finishing => 2
    case GivingBack => if queued then 2 else 1
    case Receiving => if queued then 0 else 1
    case _ => 1
  }

  /** Loads queued and no slot free, loads queued and a slot free, none queued and one not yet discounted, none. */
  datatype Mode = Full | Open | Draining | Drained

  ghost function ModeOf(s: State, limit: nat): (mode: Mode)
  {
    if s.queue != [] then if s.running < limit then Open else Full
    else if Number(Undiscounted, s.active) > 0 then Draining
    else Drained
  }

  /** How far an activity is from an operation that lowers the weights, or from its return, while the mode lasts. */
  function Rank(pc: Pc, mode: Mode): (n: nat)
    ensures 1 <= n <= 13
  {
    match mode
    case Full =>
        (match pc
         case CheckingRunning => 1
         case CheckingWaiting => 2
         case Leaving => 3
         case Claiming => 4
         case Starting => 5
         case _ => 6)
    case Open =>
        (match pc
         case Claiming => 1
         case Starting => 2
         case CheckingRunning => 3
         case CheckingWaiting => 4
         case Leaving => 5
         case _ => 6)
    case Draining =>
        (match pc
         case Starting => 6
         case CheckingRunning => 7
         case CheckingWaiting => 8
         case Leaving => 9
         case GivingBack => 10
         case Receiving => 11
         case Claiming => 12
         case _ => 13)
    case Drained =>
        (match pc
         case CheckingWaiting => 1
         case Leaving => 2
         case GivingBack => 3
         case Receiving => 4
         case Claiming => 5
         case Starting => 6
         case _ => 7)
  }

  ghost function Weights(active: map<nat, Pc>, queued: bool): (m: map<nat, nat>)
  {
    map who | who in active :: Weight(active[who], queued)
  }

  ghost function Ranks(active: map<nat, Pc>, mode: Mode): (m: map<nat, nat>)
  {
    map who | who in active :: Rank(active[who], mode)
  }

  ghost function Tokens(s: State): (n: nat)
  {
    6 * |s.queue| + Sum(Weights(s.active, s.queue != []))
  }

  ghost function Steps(s: State, limit: nat): (n: nat)
  {
    Sum(Ranks(s.active, ModeOf(s, limit)))
  }

  // ------------------------------------------------------------ one operation

  /** The operations that lower the weights. */
  ghost predicate Lowers(s: State, limit: nat, who: nat)
    requires who in s.active
  {
    var pc := s.active[who];
    || who !in ActStep(s, limit, who).active
    || pc.Finishing? || pc.Discounting? || pc.Taking? || pc.Losing?
    || (s.queue != [] && (pc.Receiving? || pc.GivingBack? || (pc.Claiming? && s.running < limit)))
  }

  lemma WeightMoves(active: map<nat, Pc>, who: nat, pc: Pc, queued: bool)
    requires who in active
    ensures Sum(Weights(active[who := pc], queued)) ==
            Sum(Weights(active, queued)) - Weight(active[who], queued) + Weight(pc, queued)
    ensures Sum(Weights(active - {who}, queued)) == Sum(Weights(active, queued)) - Weight(active[who], queued)
  {
    var m := Weights(active, queued);
    SumWith(m, who, Weight(pc, queued));
    SumWithout(m, who);
    assert Weights(active[who := pc], queued) == m[who := Weight(pc, queued)];
    assert Weights(active - {who}, queued) == m - {who};
  }

  lemma RankMoves(active: map<nat, Pc>, who: nat, pc: Pc, mode: Mode)
    requires who in active
    ensures Sum(Ranks(active[who := pc], mode)) == Sum(Ranks(active, mode)) - Rank(active[who], mode) + Rank(pc, mode)
  {
    var m := Ranks(active, mode);
    SumWith(m, who, Rank(pc, mode));
    SumWithout(m, who);
    assert Ranks(active[who := pc], mode) == m[who := Rank(pc, mode)];
  }

  /** Only one activity receives at a time. */
  lemma NobodyElseReceives(s: State, who: nat, other: nat)
    requires CountsAgree(s) && who in s.active && other in s.active && who != other
    requires s.active[who].Receiving?
    ensures !s.active[other].Receiving?
  {
    Left(Pumps, s.active, who);
    Left(Pumps, s.active - {who}, other);
  }

  lemma ReceivingLowers(s: State, limit: nat, who: nat)
    requires CountsAgree(s) && who in s.active && s.active[who].Receiving? && s.queue != []
    ensures Tokens(ActStep(s, limit, who)) < Tokens(s)
  {
    var r := ActStep(s, limit, who);
    var pc := Discounting(s.queue[0]);
    WeightMoves(s.active, who, pc, true);
    if r.queue == [] {
      var was, now := Weights(r.active, true), Weights(r.active, false);
      forall other | other in now
        ensures now[other] <= was[other]
      {
        if other != who {
          NobodyElseReceives(s, who, other);
        }
      }
      SumMonotone(now, was);
    }
  }

  lemma LoweringSpends(s: State, limit: nat, who: nat)
    requires CountsAgree(s) && who in s.active && Lowers(s, limit, who)
    ensures Tokens(ActStep(s, limit, who)) < Tokens(s)
  {
    var r := ActStep(s, limit, who);
    OnlyOneMoves(s, limit, who);
    if s.active[who].Receiving? && s.queue != [] {
      ReceivingLowers(s, limit, who);
    } else {
      LowerWeight(s, limit, who);
      LowerSum(s, r, who);
    }
  }

  lemma LowerSum(s: State, r: State, who: nat)
    requires who in s.active && r.queue == s.queue
    requires r.active == if who in r.active then s.active[who := r.active[who]] else s.active - {who}
    requires if who in r.active then Weight(r.active[who], s.queue != []) < Weight(s.active[who], s.queue != [])
             else Weight(s.active[who], s.queue != []) > 0
    ensures Tokens(r) < Tokens(s)
  {
    WeightMoves(s.active, who, if who in r.active then r.active[who] else Starting, s.queue != []);
  }

  lemma LowerWeight(s: State, limit: nat, who: nat)
    requires who in s.active && Lowers(s, limit, who) && (s.active[who].Receiving? ==> s.queue == [])
    ensures var r := ActStep(s, limit, who);
            && r.queue == s.queue
            && if who in r.active then Weight(r.active[who], s.queue != []) < Weight(s.active[who], s.queue != [])
               else Weight(s.active[who], s.queue != []) > 0
  {
  }

  lemma QuietKeepsMode(s: State, limit: nat, who: nat)
    requires who in s.active && !Lowers(s, limit, who)
    ensures ModeOf(ActStep(s, limit, who), limit) == ModeOf(s, limit) && ActStep(s, limit, who).queue == s.queue
  {
    Change(Undiscounted, s, limit, who);
  }

  /** While a received load is not discounted somebody pumps; and `waiting` is positive only then or with loads
        queued. */
  lemma DrainingPumps(s: State)
    requires CountsAgree(s)
    ensures Number(Undiscounted, s.active) > 0 ==> s.pumping
    ensures s.queue == [] && s.waiting > 0 ==> Number(Undiscounted, s.active) > 0
  {
    if Number(Undiscounted, s.active) > 0 {
      var who := SomeoneCounts(Undiscounted, s.active);
      Moved(Pumps, s.active, who, Starting);
    }
  }

  lemma QuietRank(s: State, limit: nat, who: nat, mode: Mode)
    requires who in s.active && !Lowers(s, limit, who) && mode == ModeOf(s, limit)
    requires mode == Draining ==> s.pumping
    requires s.queue == [] && s.waiting > 0 ==> mode == Draining
    ensures var pc := ActStep(s, limit, who).active[who];
            && Rank(pc, mode) < Rank(s.active[who], mode)
            && Weight(pc, s.queue != []) == Weight(s.active[who], s.queue != [])
  {
  }

  lemma QuietSpends(s: State, limit: nat, who: nat)
    requires CountsAgree(s) && who in s.active && !Lowers(s, limit, who)
    ensures Tokens(ActStep(s, limit, who)) == Tokens(s) && Steps(ActStep(s, limit, who), limit) < Steps(s, limit)
  {
    var r, mode := ActStep(s, limit, who), ModeOf(s, limit);
    QuietKeepsMode(s, limit, who);
    DrainingPumps(s);
    QuietRank(s, limit, who, mode);
    OnlyOneMoves(s, limit, who);
    WeightMoves(s.active, who, r.active[who], s.queue != []);
    RankMoves(s.active, who, r.active[who], mode);
  }

  // ------------------------------------------------------------------ whole runs

  /** `t` times `k`. */
  function Rows(t: nat, k: nat): (n: nat)
  {
    if t == 0 then 0 else k + Rows(t - 1, k)
  }

  lemma {:induction false} RowsMultiply(t: nat, k: nat)
    ensures Rows(t, k) == t * k
  {
    if t > 0 {
      RowsMultiply(t - 1, k);
      assert (t - 1) * k + k == t * k;
    }
  }

  lemma {:induction false} RowsGrow(t: nat, t': nat, k: nat)
    requires t <= t'
    ensures Rows(t, k) <= Rows(t', k) && (t < t' ==> Rows(t, k) + k <= Rows(t', k))
  {
    if t < t' {
      RowsGrow(t, t' - 1, k);
    }
  }

  /** What is left to do, for at most `n` activities. */
  ghost function Budget(s: State, limit: nat, n: nat): (b: nat)
  {
    Rows(Tokens(s), 13 * n + 1) + Steps(s, limit)
  }

  lemma StepsFit(s: State, limit: nat)
    ensures |s.active| <= Steps(s, limit) <= 13 * |s.active| && Sum(Weights(s.active, s.queue != [])) <= 4 * |s.active|
  {
    var ranks, weights := Ranks(s.active, ModeOf(s, limit)), Weights(s.active, s.queue != []);
    assert ranks.Keys == weights.Keys == s.active.Keys;
    assert |ranks| == |ranks.Keys| && |weights| == |weights.Keys| && |s.active| == |s.active.Keys|;
    SumBounded(ranks, 13);
    SumBounded(weights, 4);
    SumAtLeast(ranks);
  }

  lemma {:induction false} SumAtLeast(m: map<nat, nat>)
    requires forall p :: p in m ==> m[p] >= 1
    ensures |m| <= Sum(m)
    decreases |m|
  {
    if m != map[] {
      var p :| p in m;
      SumWithout(m, p);
      SmallerMap(m, p);
      SumAtLeast(m - {p});
      assert (m - {p}).Keys == m.Keys - {p} && |m - {p}| == |(m - {p}).Keys|;
    }
  }

  lemma Fewer(s: State, limit: nat, who: nat)
    requires who in s.active
    ensures |ActStep(s, limit, who).active| <= |s.active|
  {
    var r := ActStep(s, limit, who).active;
    OnlyOneMoves(s, limit, who);
    assert r.Keys == s.active.Keys || r.Keys == s.active.Keys - {who};
    assert |r| == |r.Keys| && |s.active| == |s.active.Keys|;
  }

  lemma BudgetFalls(s: State, r: State, limit: nat, n: nat)
    requires |r.active| <= n && Tokens(r) <= Tokens(s)
    requires Tokens(r) == Tokens(s) ==> Steps(r, limit) < Steps(s, limit)
    ensures Budget(r, limit, n) < Budget(s, limit, n)
  {
    StepsFit(r, limit);
    RowsGrow(Tokens(r), Tokens(s), 13 * n + 1);
  }

  /** Every operation spends some of the budget. */
  lemma ActSpends(s: State, limit: nat, who: nat, n: nat)
    requires CountsAgree(s) && who in s.active && |s.active| <= n
    ensures var r := ActStep(s, limit, who); Budget(r, limit, n) < Budget(s, limit, n) && |r.active| <= n
  {
    Fewer(s, limit, who);
    if Lowers(s, limit, who) {
      LoweringSpends(s, limit, who);
    } else {
      QuietSpends(s, limit, who);
    }
    BudgetFalls(s, ActStep(s, limit, who), limit, n);
  }

  lemma StepSpends(s: State, limit: nat, step: Step, n: nat, r: State)
    requires CountsAgree(s) && Enabled(s, step) && (step.Act? || step.Steal?) && r == Do(s, limit, step)
    requires |s.active| <= n
    ensures Budget(r, limit, n) + (if step.Act? then 1 else 0) <= Budget(s, limit, n) && |r.active| <= n
  {
    if step.Act? {
      ActSpends(s, limit, step.who, n);
    } else {
      SameBudget(s, r, limit, n);
    }
  }

  lemma SameBudget(s: State, r: State, limit: nat, n: nat)
    requires r.queue == s.queue && r.active == s.active && r.running == s.running
    ensures Budget(r, limit, n) == Budget(s, limit, n)
  {
  }

  /** The operations from `m` to `n`. */
  function Acts(steps: seq<Step>, m: nat, n: nat): (k: nat)
    requires m <= n <= |steps|
  {
    if n == m then 0 else Acts(steps, m, n - 1) + (if steps[n - 1].Act? then 1 else 0)
  }

  function Bound(loads: nat, activities: nat): (b: nat)
  {
    (6 * loads + 4 * activities) * (13 * activities + 1) + 13 * activities
  }

  lemma {:induction false} ActsSpend(steps: seq<Step>, budgets: seq<nat>, m: nat, n: nat)
    requires |budgets| == |steps| + 1 && m <= n <= |steps|
    requires forall i :: m <= i < n ==> budgets[i + 1] + (if steps[i].Act? then 1 else 0) <= budgets[i]
    ensures Acts(steps, m, n) + budgets[n] <= budgets[m]
    decreases n
  {
    if n > m {
      ActsSpend(steps, budgets, m, n - 1);
    }
  }

  lemma {:induction false} NobodyJoins(steps: seq<Step>, states: seq<State>, limit: nat, m: nat, n: nat)
    requires IsRun(steps, states, limit) && m <= n <= |steps|
    requires forall i :: m <= i < n ==> steps[i].Act? || steps[i].Steal?
    ensures |states[n].active| <= |states[m].active|
    decreases n
  {
    if n > m {
      NobodyJoins(steps, states, limit, m, n - 1);
      SpendsAt(steps, states, limit, n - 1, |states[m].active|);
    }
  }

  lemma RunSpends(steps: seq<Step>, states: seq<State>, limit: nat, m: nat, n: nat)
    requires IsRun(steps, states, limit) && m <= n <= |steps|
    requires forall i :: m <= i < n ==> steps[i].Act? || steps[i].Steal?
    ensures var a := |states[m].active|;
            Acts(steps, m, n) + Budget(states[n], limit, a) <= Budget(states[m], limit, a)
  {
    var a := |states[m].active|;
    var budgets := seq(|states|, i requires 0 <= i < |states| => Budget(states[i], limit, a));
    forall i | m <= i < n
      ensures budgets[i + 1] + (if steps[i].Act? then 1 else 0) <= budgets[i]
    {
      NobodyJoins(steps, states, limit, m, i);
      SpendsAt(steps, states, limit, i, a);
    }
    ActsSpend(steps, budgets, m, n);
  }

  lemma SpendsAt(steps: seq<Step>, states: seq<State>, limit: nat, i: nat, a: nat)
    requires IsRun(steps, states, limit) && i < |steps| && (steps[i].Act? || steps[i].Steal?)
    requires |states[i].active| <= a
    ensures |states[i + 1].active| <= a
    ensures Budget(states[i + 1], limit, a) + (if steps[i].Act? then 1 else 0) <= Budget(states[i], limit, a)
  {
    EveryRunKeeps(steps, states, limit, i);
    StepSpends(states[i], limit, steps[i], a, states[i + 1]);
  }

  lemma BudgetFits(s: State, limit: nat)
    ensures Budget(s, limit, |s.active|) <= Bound(|s.queue|, |s.active|)
  {
    var a := |s.active|;
    StepsFit(s, limit);
    RowsGrow(Tokens(s), 6 * |s.queue| + 4 * a, 13 * a + 1);
    RowsMultiply(6 * |s.queue| + 4 * a, 13 * a + 1);
  }

  /** From any point of any run, as long as no load is sent and none ends (they may be stolen): the activities perform
        at most so many operations, and when they have performed that many, all have returned and the queue is empty
        or every slot holds a running load. */
  lemma ActivitiesComeToRest(steps: seq<Step>, states: seq<State>, limit: nat, m: nat, n: nat)
    requires IsRun(steps, states, limit) && m <= n <= |steps|
    requires forall i :: m <= i < n ==> steps[i].Act? || steps[i].Steal?
    ensures var most := Bound(|states[m].queue|, |states[m].active|); var s := states[n];
            && Acts(steps, m, n) <= most
            && (Acts(steps, m, n) == most ==> s.active == map[] && (s.queue == [] || |s.loading| == limit))
  {
    RunSpends(steps, states, limit, m, n);
    BudgetFits(states[m], limit);
    StepsFit(states[n], limit);
    NoRefreshIsStranded(steps, states, limit, n);
  }
}
