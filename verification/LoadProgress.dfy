/**
 Why a load's pollers come to rest: every step but a retry uses up some of a budget, and while anything is left to do
 a step that is no retry can be taken. A retry is a poller that lost the lock and comes back for it.
 */
module LoadProgress {
  import opened Sums
  import opened LoadFuture

  ghost predicate Retry(s: State, step: Step)
  {
    && step.PollerStep? && step.p in s.pollers
    && (s.pollers[step.p].Away? || (s.pollers[step.p].Entering? && s.lock != Nobody))
  }

  /** The poller will not register again: it has, or the load is dropped or over. */
  ghost predicate Late(s: State, p: nat)
  {
    p in s.waiters || s.dropped || s.outcome != Computing
  }

  function Rank(pc: PollerPc, late: bool): (n: nat)
    ensures n <= 10
  {
    match pc
    case Answered(_) => 0
    case Leaving(_) => 1
    case Asking => if late then 2 else 8
    case Looking => if late then 3 else 9
    case Entering => if late then 4 else 10
    case Away => if late then 4 else 10
    case Rechecking => 5
    case Freeing => 6
    case Pushing => 7
  }

  function RunnerRank(pc: RunnerPc): (n: nat)
    ensures n <= 6
  {
    match pc
    case Loading => 6
    case Locking(_) => 5
    case Storing => 4
    case Trying => 3
    case Finishing(_) => 2
    case Dropping => 2
    case Releasing => 1
    case Over => 0
  }

  ghost function Ranks(s: State): (m: map<nat, nat>)
  {
    map p | p in s.pollers :: Rank(s.pollers[p], Late(s, p))
  }

  /** The steps left that are no retries. */
  ghost function Budget(s: State): (n: nat)
  {
    RunnerRank(s.runner) + Sum(Ranks(s))
  }

  // --------------------------------------------------------------- sums of ranks

  lemma SumSpends(a: map<nat, nat>, b: map<nat, nat>, p: nat)
    requires p in a && a.Keys == b.Keys && a[p] < b[p] && forall q :: q in a ==> a[q] <= b[q]
    ensures Sum(a) < Sum(b)
  {
    SumWithout(a, p);
    SumWithout(b, p);
    SumMonotone(a - {p}, b - {p});
  }

  // --------------------------------------------------- who comes back, and when

  /** While the load computes: a poller that is called for is away, and one that has registered comes back only to a
      dropped load. */
  ghost predicate Tidy(s: State)
  {
    OnlyArrived(s) &&
    (s.outcome == Computing ==> forall p {:trigger s.pollers[p]} :: p in s.pollers ==> InPlace(s, p, s.pollers[p]))
  }

  /** A poller that has not arrived is not registered, nor called for. */
  ghost predicate OnlyArrived(s: State)
  {
    forall p :: p in s.waiters || p in s.woken ==> p in s.pollers
  }

  ghost predicate InPlace(s: State, p: nat, pc: PollerPc)
  {
    && (p in s.woken ==> pc.Away?)
    && (p in s.waiters ==> !pc.Pushing?)
    && (p in s.waiters && (pc.Entering? || pc.Looking? || pc.Asking? || (pc.Away? && p in s.woken)) ==> s.dropped)
  }

  lemma TidyKeeps(s: State, step: Step)
    requires Inv(s) && Tidy(s) && Enabled(s, step)
    ensures Tidy(Do(s, step))
  {
    match step
    case RunnerStep(choice, out) => RunnerStaysTidy(s, choice, out);
    case Arrive(p) => ArriveStaysTidy(s, p);
    case PollerStep(p) => PollerStaysTidy(s, p);
  }

  lemma RunnerStaysTidy(s: State, choice: bool, out: Outcome)
    requires Tidy(s) && RunnerOk(s) && Enabled(s, RunnerStep(choice, out))
    ensures Tidy(RunnerAct(s, choice, out))
  {
  }

  lemma ArriveStaysTidy(s: State, p: nat)
    requires Tidy(s) && p !in s.pollers
    ensures Tidy(To(s, p, Entering))
  {
  }

  lemma PollerStaysTidy(s: State, p: nat)
    requires Inv(s) && Tidy(s) && Enabled(s, PollerStep(p))
    ensures Tidy(PollerAct(s, p))
  {
    var r := PollerAct(s, p);
    if r.outcome == Computing {
      assert s.outcome == Computing;
      assert InPlace(s, p, s.pollers[p]) && Placed(s, p, s.pollers[p]);
      forall q | q in r.pollers
        ensures InPlace(r, q, r.pollers[q])
      {
        assert q != p ==> InPlace(s, q, s.pollers[q]);
      }
    }
  }

  // ------------------------------------------------------------ the budget is spent

  lemma OthersDoNotGain(s: State, r: State)
    requires r.pollers.Keys == s.pollers.Keys
    requires forall p {:trigger s.pollers[p]} ::
               p in s.pollers ==> r.pollers[p] == s.pollers[p] && (Late(s, p) ==> Late(r, p))
    ensures Sum(Ranks(r)) <= Sum(Ranks(s))
  {
    SumMonotone(Ranks(r), Ranks(s));
  }

  lemma RunnerSpends(s: State, choice: bool, out: Outcome)
    requires Inv(s) && Enabled(s, RunnerStep(choice, out))
    ensures Budget(RunnerAct(s, choice, out)) < Budget(s)
  {
    OthersDoNotGain(s, RunnerAct(s, choice, out));
  }

  /** A poller's own rank. */
  lemma PollerRank(s: State, p: nat)
    requires Inv(s) && Tidy(s) && Enabled(s, PollerStep(p))
    ensures var r := PollerAct(s, p); var a, b := Rank(r.pollers[p], Late(r, p)), Rank(s.pollers[p], Late(s, p));
            if Retry(s, PollerStep(p)) then a <= b else a < b
  {
    assert Placed(s, p, s.pollers[p]);
    assert s.outcome == Computing ==> InPlace(s, p, s.pollers[p]);
  }

  /** The others' ranks. */
  lemma OthersRank(s: State, p: nat, q: nat)
    requires p in s.pollers && q in s.pollers && q != p
    ensures var r := PollerAct(s, p);
            q in r.pollers && Rank(r.pollers[q], Late(r, q)) <= Rank(s.pollers[q], Late(s, q))
  {
  }

  lemma OnlyPollersChange(s: State, p: nat)
    requires p in s.pollers
    ensures PollerAct(s, p).pollers.Keys == s.pollers.Keys && PollerAct(s, p).runner == s.runner
  {
  }

  lemma PollerSpends(s: State, p: nat, r: State)
    requires Inv(s) && Tidy(s) && Enabled(s, PollerStep(p)) && r == PollerAct(s, p)
    ensures if Retry(s, PollerStep(p)) then Budget(r) <= Budget(s) else Budget(r) < Budget(s)
  {
    PollerRank(s, p);
    OnlyPollersChange(s, p);
    var was, now := Ranks(s), Ranks(r);
    forall q | q in was
      ensures q in now && now[q] <= was[q]
    {
      if q != p {
        OthersRank(s, p, q);
      }
    }
    SumMonotone(now, was);
    if !Retry(s, PollerStep(p)) {
      SumSpends(now, was, p);
    }
  }

  lemma {:induction false} EveryRunIsTidy(steps: seq<Step>, states: seq<State>, n: nat)
    requires IsRun(steps, states) && n < |states|
    ensures Inv(states[n]) && Tidy(states[n])
  {
    EveryRunKeeps(steps, states, n);
    if n > 0 {
      EveryRunIsTidy(steps, states, n - 1);
      TidyKeeps(states[n - 1], steps[n - 1]);
    }
  }

  /** The steps from `m` to `n` that are no retries. */
  ghost function Moves(steps: seq<Step>, states: seq<State>, m: nat, n: nat): (k: nat)
    requires m <= n <= |steps| && |states| == |steps| + 1
  {
    if n == m then 0 else Moves(steps, states, m, n - 1) + (if Retry(states[n - 1], steps[n - 1]) then 0 else 1)
  }

  /** Without new pollers, no more steps are taken than the budget allows, retries aside: 6 for the runner and 10 for
        each poller. */
  lemma {:induction false} StepsAreBounded(steps: seq<Step>, states: seq<State>, m: nat, n: nat)
    requires IsRun(steps, states) && m <= n <= |steps| && forall i :: m <= i < n ==> !steps[i].Arrive?
    ensures Moves(steps, states, m, n) + Budget(states[n]) <= Budget(states[m]) <= 6 + 10 * |states[m].pollers|
    decreases n
  {
    if n > m {
      StepsAreBounded(steps, states, m, n - 1);
      EveryRunIsTidy(steps, states, n - 1);
      OneStepSpends(states[n - 1], steps[n - 1], states[n]);
    } else {
      SumBounded(Ranks(states[m]), 10);
      assert Ranks(states[m]).Keys == states[m].pollers.Keys && |Ranks(states[m])| == |Ranks(states[m]).Keys|;
      assert |states[m].pollers| == |states[m].pollers.Keys|;
    }
  }

  lemma OneStepSpends(s: State, step: Step, r: State)
    requires Inv(s) && Tidy(s) && Enabled(s, step) && !step.Arrive? && r == Do(s, step)
    ensures Budget(r) + (if Retry(s, step) then 0 else 1) <= Budget(s)
  {
    match step
    case RunnerStep(choice, out) => RunnerSpends(s, choice, out);
    case PollerStep(p) => PollerSpends(s, p, r);
  }

  /** Everybody is through. */
  predicate AtRest(s: State)
  {
    s.runner == Over && forall p :: p in s.pollers ==> s.pollers[p].Answered?
  }

  /** Until then some step can be taken that is no retry, or a poller that was called for can come back to a free
        lock. */
  lemma SomethingMoves(steps: seq<Step>, states: seq<State>, n: nat)
    requires IsRun(steps, states) && n < |states| && !AtRest(states[n])
    ensures var s := states[n];
            || (exists step :: Enabled(s, step) && !step.Arrive? && !Retry(s, step))
            || (s.lock == Nobody && exists p :: p in s.pollers && s.pollers[p].Away? && Enabled(s, PollerStep(p)))
  {
    var s := states[n];
    EveryRunKeeps(steps, states, n);
    if s.runner != Over && (s.lock != Nobody ==> s.lock == Runner || !s.runner.Locking?) {
      assert Enabled(s, RunnerStep(false, Panicked)) && !Retry(s, RunnerStep(false, Panicked));
    } else if s.lock.Poller? {
      assert Holds(s.pollers[s.lock.p]);
      assert Enabled(s, PollerStep(s.lock.p)) && !Retry(s, PollerStep(s.lock.p));
    } else {
      PollersMove(s);
    }
  }

  lemma PollersMove(s: State)
    requires Inv(s) && s.runner == Over && s.lock == Nobody && !AtRest(s)
    ensures || (exists step :: Enabled(s, step) && !step.Arrive? && !Retry(s, step))
            || (exists p :: p in s.pollers && s.pollers[p].Away? && Enabled(s, PollerStep(p)))
  {
    var p :| p in s.pollers && !s.pollers[p].Answered?;
    if s.pollers[p].Away? && p !in s.woken {
      assert Placed(s, p, s.pollers[p]);
      var q :| WillSee(s, q);
      assert Enabled(s, PollerStep(q));
      assert s.pollers[q].Away? || !Retry(s, PollerStep(q));
    } else {
      assert Enabled(s, PollerStep(p));
      assert s.pollers[p].Away? || !Retry(s, PollerStep(p));
    }
  }
}
