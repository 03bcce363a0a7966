/**
 A load awaited by any number of async pollers, one step per lock or atomic operation.
 The async task that runs the loader completes it, fails it, or is dropped; a poller that loses
 the lock wakes itself and polls again.
 */
module LoadFuture {

  datatype Outcome = Computing | Complete(value: nat) | Panicked | Dropped

  datatype RunnerPc =
    | Loading                    // the loader runs
    | Locking(out: Outcome)      // it ended, about to take the lock
    | Finishing(out: Outcome)    // holds the lock, about to finish the load
    | Releasing                  // about to release the lock
    | Storing                    // its task was dropped, about to set `dropped`
    | Trying                     // about to try the lock
    | Dropping                   // holds the lock, about to look at the state
    | Over

  datatype PollerPc =
    | Away                       // returned Pending, or not polled since it was woken
    | Entering                   // about to try the lock
    | Looking                    // holds the lock, about to look at the state
    | Asking                     // holds the lock, still computing, about to read `dropped`
    | Pushing                    // holds the lock, about to register its waker
    | Freeing                    // registered, about to release the lock
    | Rechecking                 // released the lock, about to read `dropped` again
    | Leaving(got: Outcome)      // has its answer, about to release the lock
    | Answered(got: Outcome)     // returned the value, or panicked

  datatype Holder = Nobody | Runner | Poller(p: nat)

  datatype State = State(
    outcome: Outcome, waiters: set<nat>, dropped: bool, lock: Holder,
    runner: RunnerPc, pollers: map<nat, PollerPc>,
    woken: set<nat>)             // pollers with a wake not yet answered by a poll

  datatype Step = RunnerStep(choice: bool, out: Outcome) | Arrive(p: nat) | PollerStep(p: nat)

  function Init(): (s: State)
  {
    State(Computing, {}, false, Nobody, Loading, map[], {})
  }

  /** Sets the outcome and wakes everyone registered. */
  function Finish(s: State, out: Outcome): (r: State)
  {
    s.(outcome := out, woken := s.woken + s.waiters, waiters := {})
  }

  ghost predicate Enabled(s: State, step: Step)
  {
    match step
    case RunnerStep(choice, out) =>
      && s.runner != Over
      && (s.runner.Loading? ==> out.Complete? || out == Panicked)
      && (s.runner.Locking? && !choice ==> s.lock == Nobody)
    case Arrive(p) => p !in s.pollers
    case PollerStep(p) => p in s.pollers && !s.pollers[p].Answered? && (s.pollers[p] == Away ==> p in s.woken)
  }

  /** `choice` is the drop of its async task while the loader runs or waits for the lock. */
  function RunnerAct(s: State, choice: bool, out: Outcome): (r: State)
  {
    match s.runner
    case Loading => s.(runner := if choice then Storing else Locking(out))
    case Locking(o) => if choice then s.(runner := Storing) else s.(lock := Runner, runner := Finishing(o))
    case Finishing(o) => Finish(s, o).(runner := Releasing)
    case Releasing => s.(lock := Nobody, runner := Over)
    case Storing => s.(dropped := true, runner := Trying)
    case Trying => if s.lock == Nobody then s.(lock := Runner, runner := Dropping) else s.(runner := Over)
    case Dropping => (if s.outcome == Computing then Finish(s, Dropped) else s).(runner := Releasing)
    case Over => s
  }

  function To(s: State, p: nat, pc: PollerPc): (r: State)
  {
    s.(pollers := s.pollers[p := pc])
  }

  function PollerAct(s: State, p: nat): (r: State)
    requires p in s.pollers
  {
    match s.pollers[p]
    case Away => To(s.(woken := s.woken - {p}), p, Entering)
    case Entering =>
        if s.lock == Nobody then To(s.(lock := Poller(p)), p, Looking) else To(s.(woken := s.woken + {p}), p, Away)
    case Looking => To(s, p, if s.outcome == Computing then Asking else Leaving(s.outcome))
    case Asking => if s.dropped then To(Finish(s, Dropped), p, Leaving(Dropped)) else To(s, p, Pushing)
    case Pushing => To(s.(waiters := s.waiters + {p}), p, Freeing)
    case Freeing => To(s.(lock := Nobody), p, Rechecking)
    case Rechecking => To(if s.dropped then s.(woken := s.woken + {p}) else s, p, Away)
    case Leaving(got) => To(s.(lock := Nobody), p, Answered(got))
    case Answered(_) => s
  }

  function Do(s: State, step: Step): (r: State)
    requires step.PollerStep? ==> step.p in s.pollers
  {
    match step
    case RunnerStep(choice, out) => RunnerAct(s, choice, out)
    case Arrive(p) => To(s, p, Entering)
    case PollerStep(p) => PollerAct(s, p)
  }

  // ------------------------------------------------------------- the invariant

  predicate Holds(pc: PollerPc)
  {
    pc.Looking? || pc.Asking? || pc.Pushing? || pc.Freeing? || pc.Leaving?
  }

  ghost predicate Locked(s: State)
  {
    && (s.lock == Runner <==> s.runner.Finishing? || s.runner.Releasing? || s.runner.Dropping?)
    && (s.lock.Poller? ==> s.lock.p in s.pollers)
    && (forall p {:trigger s.pollers[p]} :: p in s.pollers ==> (s.lock == Poller(p) <==> Holds(s.pollers[p])))
  }

  /** What a loader can end with. */
  predicate Result(o: Outcome)
  {
    o.Complete? || o == Panicked
  }

  /** The runner finishes the load or is dropped, never both. */
  ghost predicate RunnerOk(s: State)
  {
    && (s.dropped ==> s.outcome == Computing || s.outcome == Dropped)
    && (s.outcome == Dropped ==> s.dropped)
    && match s.runner
       case Loading => !s.dropped && s.outcome == Computing
       case Locking(o) => !s.dropped && s.outcome == Computing && Result(o)
       case Finishing(o) => !s.dropped && s.outcome == Computing && Result(o)
       case Releasing => s.outcome != Computing
       case Storing => !s.dropped && s.outcome == Computing
       case Trying => s.dropped
       case Dropping => s.dropped
       case Over => s.dropped || s.outcome != Computing
  }

  /** Nobody is away without a wake, registered or on its way; nobody is registered once it is over. */
  ghost predicate Registered(s: State)
  {
    && (s.outcome != Computing ==> s.waiters == {})
    && (forall p {:trigger s.pollers[p]} :: p in s.pollers ==> Placed(s, p, s.pollers[p]))
  }

  /** Poller `p` will find out that the load was dropped. */
  ghost predicate WillSee(s: State, p: nat)
  {
    p in s.pollers &&
    match s.pollers[p]
    case Away => p in s.woken
    case Leaving(_) => false
    case Answered(_) => false
    case _ => true
  }

  /** A dropped load still computing has someone about to find out. */
  ghost predicate Noticed(s: State)
  {
    s.dropped && s.outcome == Computing ==>
      s.runner.Trying? || s.runner.Dropping? || exists p :: WillSee(s, p)
  }

  ghost predicate Inv(s: State)
  {
    Locked(s) && RunnerOk(s) && Registered(s) && Noticed(s)
  }

  lemma RunnerKeeps(s: State, choice: bool, out: Outcome)
    requires Inv(s) && Enabled(s, RunnerStep(choice, out))
    ensures Inv(RunnerAct(s, choice, out))
  {
    var r := RunnerAct(s, choice, out);
    if s.runner.Trying? && s.lock.Poller? {
      assert Holds(s.pollers[s.lock.p]);
      assert s.pollers[s.lock.p].Leaving? || WillSee(r, s.lock.p);
    } else if exists p :: WillSee(s, p) {
      var p :| WillSee(s, p);
      assert WillSee(r, p);
    }
  }

  lemma PollerKeepsLock(s: State, p: nat)
    requires Locked(s) && p in s.pollers
    ensures Locked(PollerAct(s, p))
  {
  }

  lemma PollerSparesRunner(s: State, p: nat)
    requires Locked(s) && RunnerOk(s) && Registered(s) && p in s.pollers
    ensures RunnerOk(PollerAct(s, p))
  {
    assert Placed(s, p, s.pollers[p]);
    assert Holds(s.pollers[p]) ==> s.lock == Poller(p);
  }

  /** One poller's condition in `Registered`. */
  ghost predicate Placed(s: State, p: nat, pc: PollerPc)
  {
    && (pc.Away? ==> p in s.woken || p in s.waiters)
    && (pc.Asking? || pc.Pushing? || pc.Freeing? ==> s.outcome == Computing)
    && (pc.Leaving? || pc.Answered? ==> pc.got == s.outcome != Computing)
    && (pc.Freeing? || pc.Rechecking? ==> p in s.waiters || p in s.woken)
  }

  /** The others stay placed when `p` acts: only a holder of the lock changes the outcome. */
  lemma OthersStayPlaced(s: State, p: nat, q: nat)
    requires Locked(s) && p in s.pollers && q in s.pollers && q != p && Placed(s, q, s.pollers[q])
    requires Placed(s, p, s.pollers[p])
    ensures Placed(PollerAct(s, p), q, s.pollers[q])
  {
    assert Holds(s.pollers[p]) ==> s.lock == Poller(p);
    assert Holds(s.pollers[q]) ==> s.lock == Poller(q);
  }

  lemma PollerKeepsRegistered(s: State, p: nat)
    requires Inv(s) && p in s.pollers
    ensures Registered(PollerAct(s, p))
  {
    var r := PollerAct(s, p);
    assert Placed(s, p, s.pollers[p]);
    assert Placed(r, p, r.pollers[p]);
    forall q | q in s.pollers && q != p
      ensures Placed(r, q, r.pollers[q])
    {
      OthersStayPlaced(s, p, q);
    }
  }

  lemma PollerKeepsNoticed(s: State, p: nat)
    requires Inv(s) && p in s.pollers
    ensures Noticed(PollerAct(s, p))
  {
    var r := PollerAct(s, p);
    if s.dropped && s.outcome == Computing && exists q :: WillSee(s, q) {
      var q :| WillSee(s, q);
      assert q != p ==> WillSee(r, q);
      assert q == p ==> WillSee(r, p) || r.outcome != Computing;
    }
  }

  lemma StepKeeps(s: State, step: Step)
    requires Inv(s) && Enabled(s, step)
    ensures Inv(Do(s, step))
  {
    match step
    case RunnerStep(choice, out) => RunnerKeeps(s, choice, out);
    case Arrive(p) => ArriveKeeps(s, p);
    case PollerStep(p) =>
      PollerKeepsLock(s, p);
      PollerSparesRunner(s, p);
      PollerKeepsRegistered(s, p);
      PollerKeepsNoticed(s, p);
  }

  lemma ArriveKeeps(s: State, p: nat)
    requires Inv(s) && p !in s.pollers
    ensures Inv(To(s, p, Entering))
  {
    if exists q :: WillSee(s, q) {
      var q :| WillSee(s, q);
      assert WillSee(To(s, p, Entering), q);
    }
  }

  // ----------------------------------------------------------------- whole runs

  ghost predicate IsRun(steps: seq<Step>, states: seq<State>)
  {
    && |states| == |steps| + 1 && states[0] == Init()
    && forall i :: 0 <= i < |steps| ==> Enabled(states[i], steps[i]) && states[i + 1] == Do(states[i], steps[i])
  }

  lemma {:induction false} EveryRunKeeps(steps: seq<Step>, states: seq<State>, n: nat)
    requires IsRun(steps, states) && n < |states|
    ensures Inv(states[n])
  {
    if n > 0 {
      EveryRunKeeps(steps, states, n - 1);
      StepKeeps(states[n - 1], steps[n - 1]);
    }
  }

  /** An outcome, once there, stays. */
  lemma {:induction false} OutcomeIsFinal(steps: seq<Step>, states: seq<State>, m: nat, n: nat)
    requires IsRun(steps, states) && m <= n < |states| && states[m].outcome != Computing
    ensures states[n].outcome == states[m].outcome
    decreases n
  {
    if m < n {
      OutcomeIsFinal(steps, states, m, n - 1);
      EveryRunKeeps(steps, states, n - 1);
      assert Enabled(states[n - 1], steps[n - 1]) && states[n] == Do(states[n - 1], steps[n - 1]);
    }
  }

  /** By the n-th state the loader has ended with `o`, its value or a panic. */
  ghost predicate EndedWith(steps: seq<Step>, states: seq<State>, n: nat, o: Outcome)
    requires |states| == |steps| + 1 && n <= |steps|
  {
    exists i :: 0 <= i < n && states[i].runner == Loading && steps[i] == RunnerStep(false, o)
  }

  /** What the runner is about to store is what the loader ended with, and so is what is stored. */
  ghost predicate Earned(steps: seq<Step>, states: seq<State>, n: nat)
    requires |states| == |steps| + 1 && n <= |steps|
  {
    var s := states[n];
    && (s.runner.Locking? || s.runner.Finishing? ==> EndedWith(steps, states, n, s.runner.out))
    && (Result(s.outcome) ==> EndedWith(steps, states, n, s.outcome))
  }

  lemma Earns(steps: seq<Step>, states: seq<State>, n: nat)
    requires IsRun(steps, states) && n < |steps| && Earned(steps, states, n)
    ensures Earned(steps, states, n + 1)
  {
    var s, r := states[n], states[n + 1];
    assert Enabled(s, steps[n]) && r == Do(s, steps[n]);
    forall o | EndedWith(steps, states, n, o)
      ensures EndedWith(steps, states, n + 1, o)
    {
      var i :| 0 <= i < n && states[i].runner == Loading && steps[i] == RunnerStep(false, o);
      assert 0 <= i < n + 1 && states[i].runner == Loading && steps[i] == RunnerStep(false, o);
    }
    if s.runner == Loading && r.runner.Locking? {
      assert steps[n] == RunnerStep(false, r.runner.out);
    }
  }

  /** In every run the outcome is what the loader ended with, or `Dropped` and then the load was dropped; and what a
        poller was answered is the outcome. */
  lemma {:induction false} OutcomeIsTheLoaders(steps: seq<Step>, states: seq<State>, n: nat)
    requires IsRun(steps, states) && n <= |steps|
    ensures Earned(steps, states, n)
    ensures var s := states[n];
            match s.outcome
            case Computing => true
            case Dropped => s.dropped
            case o => EndedWith(steps, states, n, o) && !s.dropped
    ensures forall p :: p in states[n].pollers && states[n].pollers[p].Answered? ==>
              states[n].pollers[p].got == states[n].outcome != Computing
  {
    if n > 0 {
      OutcomeIsTheLoaders(steps, states, n - 1);
      Earns(steps, states, n - 1);
    }
    EveryRunKeeps(steps, states, n);
  }

  /** No step is left to take, but for new pollers. */
  ghost predicate Quiet(s: State)
  {
    forall step :: Enabled(s, step) ==> step.Arrive?
  }

  /** A dropped load strands nobody: while it is still computing someone is about to find out,
      and when nothing is left to do every poller has its answer. */
  lemma DroppedLoadsStrandNobody(steps: seq<Step>, states: seq<State>, n: nat)
    requires IsRun(steps, states) && n < |states|
    ensures var s := states[n];
            s.dropped && s.outcome == Computing ==> s.runner.Trying? || s.runner.Dropping? || exists p :: WillSee(s, p)
    ensures var s := states[n];
            Quiet(s) ==> s.outcome != Computing && forall p :: p in s.pollers ==> s.pollers[p] == Answered(s.outcome)
    ensures var s := states[n];
            Quiet(s) ==> if s.dropped then s.outcome == Dropped else EndedWith(steps, states, n, s.outcome)
  {
    var s := states[n];
    EveryRunKeeps(steps, states, n);
    OutcomeIsTheLoaders(steps, states, n);
    if Quiet(s) {
      QuietAnswers(s);
    }
  }

  lemma QuietAnswers(s: State)
    requires Inv(s) && Quiet(s)
    ensures s.outcome != Computing && forall p :: p in s.pollers ==> s.pollers[p] == Answered(s.outcome)
  {
    assert !Enabled(s, RunnerStep(true, Panicked));
    forall p | p in s.pollers
      ensures s.pollers[p].Answered? || (s.pollers[p] == Away && p !in s.woken)
    {
      assert !Enabled(s, PollerStep(p));
    }
  }
}
