/** Refreshes start in the order they were queued, whatever the interleaving, and none is dropped. */
module RefreshOrder {
  import opened RefreshQueue

  /** The loads sent by a run, in order. */
  function Sent(steps: seq<Step>): (loads: seq<nat>)
  {
    if steps == [] then []
    else
      var last := steps[|steps| - 1];
      Sent(steps[..|steps| - 1]) + (if last.Enqueue? then [last.load] else [])
  }

  predicate Carries(pc: Pc)
  {
    pc.Discounting? || pc.Taking? || pc.Spawning?
  }

  /** At most one activity pumps. */
  ghost predicate Solo(s: State)
  {
    forall a, b {:trigger s.active[a], s.active[b]} ::
      a in s.active && b in s.active && Counts(Pumps, s.active[a]) == 1 && Counts(Pumps, s.active[b]) == 1 ==> a == b
  }

  /** The first `taken` loads sent have left the queue. `pos` says which of them the loads started are; the
      one an activity carries is the last to have left, and came after all of those. */
  ghost predicate InOrder(s: State, sent: seq<nat>, taken: nat, pos: seq<nat>)
  {
    && taken <= |sent| && s.queue == sent[taken..]
    && |pos| == |s.started|
    && (forall i :: 0 <= i < |pos| ==> pos[i] < taken && sent[pos[i]] == s.started[i])
    && (forall i, j :: 0 <= i < j < |pos| ==> pos[i] < pos[j])
    && (forall who {:trigger s.active[who]} :: who in s.active && Carries(s.active[who]) ==>
          taken > 0 && s.active[who].load == sent[taken - 1] && forall i :: 0 <= i < |pos| ==> pos[i] < taken - 1)
  }

  lemma EnqueueKeepsOrder(s: State, sent: seq<nat>, taken: nat, pos: seq<nat>, who: nat, load: nat)
    requires InOrder(s, sent, taken, pos) && who !in s.active
    ensures InOrder(At(s.(queue := s.queue + [load]), who, Counting), sent + [load], taken, pos)
  {
    assert (sent + [load])[taken..] == sent[taken..] + [load];
  }

  lemma ReceiveKeepsOrder(s: State, sent: seq<nat>, taken: nat, pos: seq<nat>, who: nat)
    requires InOrder(s, sent, taken, pos) && Solo(s) && who in s.active && s.active[who].Receiving? && s.queue != []
    ensures InOrder(At(s.(queue := s.queue[1..]), who, Discounting(s.queue[0])), sent, taken + 1, pos)
  {
    assert sent[taken..][1..] == sent[taken + 1..];
    forall other | other in s.active && other != who
      ensures !Carries(s.active[other])
    {
      assert Counts(Pumps, s.active[who]) == 1;
      assert s.active[other] == s.active[other];
    }
  }

  lemma SpawnKeepsOrder(s: State, sent: seq<nat>, taken: nat, pos: seq<nat>, who: nat)
    requires InOrder(s, sent, taken, pos) && Solo(s) && who in s.active && s.active[who].Spawning?
    ensures var load := s.active[who].load;
            taken > 0 &&
                InOrder(At(s.(loading := s.loading + {load}, started := s.started + [load]), who, Claiming), sent,
                        taken, pos + [taken - 1])
  {
    forall other | other in s.active && other != who
      ensures !Carries(s.active[other])
    {
      assert Counts(Pumps, s.active[who]) == 1;
      assert s.active[other] == s.active[other];
    }
  }

  /** Steps that carry a load on, or none. */
  lemma OtherStepsKeepOrder(s: State, limit: nat, sent: seq<nat>, taken: nat, pos: seq<nat>, who: nat)
    requires InOrder(s, sent, taken, pos) && who in s.active && !s.active[who].Spawning?
    requires !(s.active[who].Receiving? && s.queue != [])
    ensures InOrder(ActStep(s, limit, who), sent, taken, pos)
  {
    var r := ActStep(s, limit, who);
    forall other {:trigger r.active[other]} | other in r.active && Carries(r.active[other])
      ensures other in s.active && Carries(s.active[other]) && r.active[other].load == s.active[other].load
    {
    }
  }

  ghost function TakenAfter(s: State, taken: nat, step: Step): (n: nat)
  {
    if step.Act? && step.who in s.active && s.active[step.who].Receiving? && s.queue != [] then taken + 1 else taken
  }

  lemma StepKeepsOrder(s: State, limit: nat, sent: seq<nat>, taken: nat, pos: seq<nat>,
                       step: Step) returns (pos': seq<nat>)
    requires InOrder(s, sent, taken, pos) && Solo(s) && Enabled(s, step)
    ensures InOrder(Do(s, limit, step), sent + (if step.Enqueue? then [step.load] else []), TakenAfter(s, taken, step),
                    pos')
  {
    pos' := pos;
    if step.Enqueue? {
      EnqueueKeepsOrder(s, sent, taken, pos, step.who, step.load);
    } else {
      assert sent + [] == sent;
      if step.Act? {
        if s.active[step.who].Receiving? && s.queue != [] {
          ReceiveKeepsOrder(s, sent, taken, pos, step.who);
        } else if s.active[step.who].Spawning? {
          SpawnKeepsOrder(s, sent, taken, pos, step.who);
          pos' := pos + [taken - 1];
        } else {
          OtherStepsKeepOrder(s, limit, sent, taken, pos, step.who);
        }
      }
    }
  }

  lemma EveryStateIsSolo(steps: seq<Step>, states: seq<State>, limit: nat, n: nat)
    requires IsRun(steps, states, limit) && n < |states|
    ensures Solo(states[n])
  {
    var s := states[n];
    forall a, b | a in s.active && b in s.active && Counts(Pumps, s.active[a]) == 1 && Counts(Pumps, s.active[b]) == 1
      ensures a == b
    {
      SlotsAreRespected(steps, states, limit, n, a, b);
    }
  }

  lemma {:induction false} EveryRunIsInOrder(steps: seq<Step>, states: seq<State>, limit: nat,
                                             n: nat) returns (taken: nat, pos: seq<nat>)
    requires IsRun(steps, states, limit) && n < |states|
    ensures InOrder(states[n], Sent(steps[..n]), taken, pos)
  {
    if n == 0 {
      taken, pos := 0, [];
    } else {
      taken, pos := EveryRunIsInOrder(steps, states, limit, n - 1);
      EveryStateIsSolo(steps, states, limit, n - 1);
      assert steps[..n][..n - 1] == steps[..n - 1];
      var step := steps[n - 1];
      pos := StepKeepsOrder(states[n - 1], limit, Sent(steps[..n - 1]), taken, pos, step);
      taken := TakenAfter(states[n - 1], taken, step);
    }
  }

  /** First in, first out: what waits is the end of what was sent, and what was started is a part of what came
      before it, in the same order. */
  lemma RefreshesStartInOrder(steps: seq<Step>, states: seq<State>, limit: nat, n: nat)
    requires IsRun(steps, states, limit) && n < |states|
    ensures exists taken: nat, pos: seq<nat> :: InOrder(states[n], Sent(steps[..n]), taken, pos)
  {
    var taken, pos := EveryRunIsInOrder(steps, states, limit, n);
  }

  // ------------------------------------------------------------- none is dropped

  /** An activity has received the load and not yet started it, or found out that it need not. */
  ghost predicate Held(s: State, load: nat)
  {
    exists who :: who in s.active && Carries(s.active[who]) && s.active[who].load == load
  }

  ghost predicate Spawned(s: State, load: nat)
  {
    exists who :: who in s.active && s.active[who] == Spawning(load)
  }

  /** Where a load can be: waiting, in hand, started by the pump, or taken over by another caller. */
  ghost predicate Somewhere(s: State, load: nat)
  {
    load in s.queue || Held(s, load) || load in s.started || load in s.stolen
  }

  /** A claimed load was started, is about to be, or was taken over. */
  ghost predicate ClaimsOk(s: State)
  {
    forall load :: load in s.claimed ==> load in s.started || load in s.stolen || Spawned(s, load)
  }

  lemma SpawnedStays(s: State, limit: nat, who: nat, load: nat)
    requires who in s.active && Spawned(s, load) && s.active[who] != Spawning(load)
    ensures Spawned(ActStep(s, limit, who), load)
  {
    var other :| other in s.active && s.active[other] == Spawning(load);
    assert other in ActStep(s, limit, who).active && ActStep(s, limit, who).active[other] == Spawning(load);
  }

  lemma ClaimsStep(s: State, limit: nat, who: nat)
    requires ClaimsOk(s) && who in s.active
    ensures ClaimsOk(ActStep(s, limit, who))
  {
    var r := ActStep(s, limit, who);
    forall load | load in r.claimed
      ensures load in r.started || load in r.stolen || Spawned(r, load)
    {
      if load !in s.claimed {
        assert who in r.active && r.active[who] == Spawning(load);
      } else if load !in s.started && load !in s.stolen && s.active[who] != Spawning(load) {
        SpawnedStays(s, limit, who, load);
      }
    }
  }

  lemma SomewhereStep(s: State, limit: nat, who: nat, load: nat)
    requires ClaimsOk(s) && who in s.active && Somewhere(s, load)
    ensures Somewhere(ActStep(s, limit, who), load)
  {
    var r := ActStep(s, limit, who);
    var pc := s.active[who];
    if load in s.started || load in s.stolen {
    } else if pc.Receiving? && s.queue != [] && load == s.queue[0] {
      assert who in r.active && Carries(r.active[who]) && r.active[who].load == load;
    } else if load in s.queue {
      QueueStays(s, limit, who, load);
    } else if pc.Taking? && pc.load == load {
      TakenIsSomewhere(s, limit, who);
    } else if !(pc.Spawning? && pc.load == load) {
      OthersHold(s, limit, who, load);
    }
  }

  lemma QueueStays(s: State, limit: nat, who: nat, load: nat)
    requires who in s.active && load in s.queue && !(s.active[who].Receiving? && load == s.queue[0])
    ensures load in ActStep(s, limit, who).queue
  {
    if s.active[who].Receiving? {
      assert s.queue == [s.queue[0]] + s.queue[1..];
    }
  }

  /** A load found claimed has its claimer. */
  lemma TakenIsSomewhere(s: State, limit: nat, who: nat)
    requires ClaimsOk(s) && who in s.active && s.active[who].Taking?
    ensures Somewhere(ActStep(s, limit, who), s.active[who].load)
  {
    var load, r := s.active[who].load, ActStep(s, limit, who);
    if load !in s.claimed {
      assert who in r.active && Carries(r.active[who]) && r.active[who].load == load;
    } else if load !in s.started && load !in s.stolen {
      SpawnedStays(s, limit, who, load);
      var other :| other in r.active && r.active[other] == Spawning(load);
      assert Carries(r.active[other]) && r.active[other].load == load;
    }
  }

  lemma OthersHold(s: State, limit: nat, who: nat, load: nat)
    requires who in s.active && Held(s, load)
    requires (s.active[who].Taking? || s.active[who].Spawning?) ==> s.active[who].load != load
    ensures Held(ActStep(s, limit, who), load)
  {
    var other :| other in s.active && Carries(s.active[other]) && s.active[other].load == load;
    var r := ActStep(s, limit, who);
    assert other in r.active && Carries(r.active[other]) && r.active[other].load == load;
  }

  /** Every load sent is somewhere. */
  ghost predicate Kept(s: State, sent: seq<nat>)
  {
    ClaimsOk(s) && forall load :: load in sent ==> Somewhere(s, load)
  }

  lemma OtherStepKeeps(s: State, limit: nat, step: Step, sent: seq<nat>)
    requires Kept(s, sent) && Enabled(s, step) && !step.Act?
    ensures Kept(Do(s, limit, step), sent + (if step.Enqueue? then [step.load] else []))
  {
    var r := Do(s, limit, step);
    assert forall who :: who in s.active ==> who in r.active && r.active[who] == s.active[who];
    forall load | Held(s, load)
      ensures Held(r, load)
    {
      var who :| who in s.active && Carries(s.active[who]) && s.active[who].load == load;
      assert who in r.active && Carries(r.active[who]) && r.active[who].load == load;
    }
    forall load | Spawned(s, load)
      ensures Spawned(r, load)
    {
      var who :| who in s.active && s.active[who] == Spawning(load);
      assert who in r.active && r.active[who] == Spawning(load);
    }
  }

  lemma ActStepKeeps(s: State, limit: nat, who: nat, sent: seq<nat>)
    requires Kept(s, sent) && who in s.active
    ensures Kept(ActStep(s, limit, who), sent)
  {
    ClaimsStep(s, limit, who);
    forall load | load in sent
      ensures Somewhere(ActStep(s, limit, who), load)
    {
      SomewhereStep(s, limit, who, load);
    }
  }

  lemma {:induction false} EveryRunKeepsLoads(steps: seq<Step>, states: seq<State>, limit: nat, n: nat)
    requires IsRun(steps, states, limit) && n < |states|
    ensures Kept(states[n], Sent(steps[..n]))
  {
    if n > 0 {
      var s, step, sent := states[n - 1], steps[n - 1], Sent(steps[..n - 1]);
      EveryRunKeepsLoads(steps, states, limit, n - 1);
      assert steps[..n][..n - 1] == steps[..n - 1];
      assert Enabled(s, step) && states[n] == Do(s, limit, step);
      if step.Act? {
        ActStepKeeps(s, limit, step.who, sent);
        assert sent + [] == sent;
      } else {
        OtherStepKeeps(s, limit, step, sent);
      }
    }
  }

  /** No load is dropped: in every run each load sent is waiting, in hand, started by the pump, or was taken over by
        another caller; and once every activity has returned, it is one of the other three. */
  lemma NoLoadIsDropped(steps: seq<Step>, states: seq<State>, limit: nat, n: nat)
    requires IsRun(steps, states, limit) && n < |states|
    ensures var s := states[n];
            forall load :: load in Sent(steps[..n]) ==>
              Somewhere(s, load) && (s.active == map[] ==> load in s.queue || load in s.started || load in s.stolen)
  {
    EveryRunKeepsLoads(steps, states, limit, n);
  }
}
