/**
 The refresh queue's pump, one step per atomic operation, for any number of activities
 in any interleaving. An activity is a call of enqueue_refresh or refresh_done: a thread,
 or a call nested in another when a spawner drops its task on the spot.
 */
module RefreshQueue {
  import opened Sums

  /** Where an activity stands; each step performs the next atomic operation. */
  datatype Pc =
    | Counting                  // sent its load, about to count it in `waiting`
    | Starting                  // about to swap `pumping` to true
    | Claiming                  // pumping, about to claim a slot
    | Receiving                 // holds a slot, about to receive
    | GivingBack                // received nothing, about to return the slot and stop
    | Discounting(load: nat)    // received, about to decrement `waiting`
    | Taking(load: nat)         // about to claim the load
    | Spawning(load: nat)       // claimed it, about to start its task
    | Losing                    // someone else runs the load, about to return the slot
    | Leaving                   // about to store false in `pumping`
    | CheckingWaiting           // stopped pumping, about to read `waiting`
    | CheckingRunning           // read waiting > 0, about to read `running`
    | Finishing                 // a load ended, about to return its slot

  datatype State = State(
    queue: seq<nat>, running: int, waiting: int, pumping: bool,
    active: map<nat, Pc>,
    loading: set<nat>,          // loads whose task is running and holds a slot
    claimed: set<nat>,          // loads someone has claimed
    started: seq<nat>,          // loads the pump has started, in order
    stolen: set<nat>)           // loads another caller claimed first and runs itself

  datatype Step =
    | Enqueue(who: nat, load: nat)   // a new activity sends a load
    | Finish(who: nat, load: nat)    // a running load's task ends or is dropped
    | Act(who: nat)                  // an activity performs its next operation
    | Steal(load: nat)               // another caller claims the load

  function Init(): (s: State)
  {
    State([], 0, 0, false, map[], {}, {}, [], {})
  }

  ghost predicate Enabled(s: State, step: Step)
  {
    match step
    case Enqueue(who, load) => who !in s.active
    case Finish(who, load) => who !in s.active && load in s.loading
    case Act(who) => who in s.active
    case Steal(load) => true
  }

  function At(s: State, who: nat, pc: Pc): (r: State)
  {
    s.(active := s.active[who := pc])
  }

  function Gone(s: State, who: nat): (r: State)
  {
    s.(active := s.active - {who})
  }

  function ActStep(s: State, limit: nat, who: nat): (r: State)
    requires who in s.active
  {
    match s.active[who]
    case Counting => At(s.(waiting := s.waiting + 1), who, Starting)
    case Starting => if s.pumping then Gone(s, who) else At(s.(pumping := true), who, Claiming)
    case Claiming => if s.running < limit then At(s.(running := s.running + 1), who, Receiving) else At(s, who, Leaving)
    case Receiving =>
        if s.queue == [] then At(s, who, GivingBack) else At(s.(queue := s.queue[1..]), who, Discounting(s.queue[0]))
    case GivingBack => At(s.(running := s.running - 1), who, Leaving)
    case Discounting(load) => At(s.(waiting := s.waiting - 1), who, Taking(load))
    case Taking(load) =>
        if load in s.claimed then At(s, who, Losing) else At(s.(claimed := s.claimed + {load}), who, Spawning(load))
    case Spawning(load) => At(s.(loading := s.loading + {load}, started := s.started + [load]), who, Claiming)
    case Losing => At(s.(running := s.running - 1), who, Claiming)
    case Leaving => At(s.(pumping := false), who, CheckingWaiting)
    case CheckingWaiting => if s.waiting > 0 then At(s, who, CheckingRunning) else Gone(s, who)
    case CheckingRunning => if s.running < limit then At(s, who, Starting) else Gone(s, who)
    case Finishing => At(s.(running := s.running - 1), who, Starting)
  }

  function Do(s: State, limit: nat, step: Step): (r: State)
    requires step.Act? ==> step.who in s.active
  {
    match step
    case Enqueue(who, load) => At(s.(queue := s.queue + [load]), who, Counting)
    case Finish(who, load) => At(s.(loading := s.loading - {load}), who, Finishing)
    case Act(who) => ActStep(s, limit, who)
    case Steal(load) => if load in s.claimed then s else s.(claimed := s.claimed + {load}, stolen := s.stolen + {load})
  }

  // -------------------------------------------------- counting the activities

  datatype Kind = Uncounted | Undiscounted | Slots | Pumps

  function Counts(kind: Kind, pc: Pc): (n: nat)
  {
    match kind
    case Uncounted => if pc.Counting? then 1 else 0
    case Undiscounted => if pc.Discounting? then 1 else 0
    case Slots =>
        if pc.Receiving? || pc.GivingBack? || pc.Discounting? || pc.Taking? || pc.Spawning? || pc.Losing? ||
            pc.Finishing? then 1 else 0
    case Pumps =>
        if pc.Claiming? || pc.Receiving? || pc.GivingBack? || pc.Discounting? || pc.Taking? || pc.Spawning? ||
            pc.Losing? || pc.Leaving? then 1 else 0
  }

  ghost function Marks(kind: Kind, active: map<nat, Pc>): (m: map<nat, nat>)
  {
    map who | who in active :: Counts(kind, active[who])
  }

  ghost function Number(kind: Kind, active: map<nat, Pc>): (n: nat)
  {
    Sum(Marks(kind, active))
  }

  lemma Moved(kind: Kind, active: map<nat, Pc>, who: nat, pc: Pc)
    ensures who in active ==>
              Number(kind, active[who := pc]) == Number(kind, active) - Counts(kind, active[who]) + Counts(kind, pc)
    ensures who !in active ==> Number(kind, active[who := pc]) == Number(kind, active) + Counts(kind, pc)
    ensures who in active ==> Number(kind, active) >= Counts(kind, active[who])
  {
    SumWith(Marks(kind, active), who, Counts(kind, pc));
    assert Marks(kind, active[who := pc]) == Marks(kind, active)[who := Counts(kind, pc)];
    if who in active {
      SumWithout(Marks(kind, active), who);
    }
  }

  lemma Left(kind: Kind, active: map<nat, Pc>, who: nat)
    requires who in active
    ensures Number(kind, active - {who}) == Number(kind, active) - Counts(kind, active[who])
  {
    SumWithout(Marks(kind, active), who);
    assert Marks(kind, active - {who}) == Marks(kind, active) - {who};
  }

  lemma {:induction false} SomeoneCounts(kind: Kind, active: map<nat, Pc>) returns (who: nat)
    requires Number(kind, active) > 0
    ensures who in active && Counts(kind, active[who]) > 0
    decreases |active|
  {
    assert active == map[] ==> Marks(kind, active) == map[];
    who :| who in active;
    if Counts(kind, active[who]) == 0 {
      Left(kind, active, who);
      assert (active - {who}).Keys == active.Keys - {who} && |active - {who}| == |(active - {who}).Keys|;
      who := SomeoneCounts(kind, active - {who});
    }
  }

  // ------------------------------------------------------------- the invariant

  ghost predicate CountsAgree(s: State)
  {
    && s.waiting == |s.queue| - Number(Uncounted, s.active) + Number(Undiscounted, s.active)
    && s.running == |s.loading| + Number(Slots, s.active)
    && Number(Pumps, s.active) == (if s.pumping then 1 else 0)
  }

  /** A load that could start has someone who will look. */
  ghost predicate Attended(s: State, limit: nat)
  {
    s.queue != [] && s.running < limit ==> s.active != map[]
  }

  /** The pump starts a load only as its one claimer. */
  ghost predicate StartedOnce(s: State)
  {
    && (forall who {:trigger s.active[who]} :: who in s.active && s.active[who].Spawning? ==>
          s.active[who].load in s.claimed && s.active[who].load !in s.started && s.active[who].load !in s.stolen)
    && (forall a, b {:trigger s.active[a], s.active[b]} ::
        a in s.active && b in s.active && a != b && s.active[a].Spawning? && s.active[b].Spawning? ==>
          s.active[a].load != s.active[b].load)
    && (forall load :: load in s.started ==> load in s.claimed && load !in s.stolen)
    && (forall load :: load in s.stolen ==> load in s.claimed)
    && (forall load :: load in s.loading ==> load in s.started)
    && (forall i, j :: 0 <= i < j < |s.started| ==> s.started[i] != s.started[j])
  }

  ghost predicate Inv(s: State, limit: nat)
  {
    CountsAgree(s) && s.running <= limit && Attended(s, limit) && StartedOnce(s)
  }

  lemma CountsInit()
    ensures CountsAgree(Init())
  {
    assert forall kind :: Marks(kind, map[]) == map[];
  }

  lemma Change(kind: Kind, s: State, limit: nat, who: nat)
    requires who in s.active
    ensures var r := ActStep(s, limit, who);
            Number(kind, r.active) ==
                Number(kind, s.active) - Counts(kind, s.active[who]) + CountsAfter(kind, s, limit, who)
    ensures Number(kind, s.active) >= Counts(kind, s.active[who])
  {
    var r := ActStep(s, limit, who);
    OnlyOneMoves(s, limit, who);
    if who in r.active {
      Moved(kind, s.active, who, r.active[who]);
    } else {
      Left(kind, s.active, who);
    }
  }

  lemma OnlyOneMoves(s: State, limit: nat, who: nat)
    requires who in s.active
    ensures var r := ActStep(s, limit, who).active;
            r == if who in r then s.active[who := r[who]] else s.active - {who}
  {
  }

  /** What `who` counts for after its step. */
  ghost function CountsAfter(kind: Kind, s: State, limit: nat, who: nat): (n: nat)
    requires who in s.active
  {
    var r := ActStep(s, limit, who);
    if who in r.active then Counts(kind, r.active[who]) else 0
  }

  lemma WaitingAct(s: State, limit: nat, who: nat, u: int, d: int)
    requires who in s.active && s.waiting == |s.queue| - u + d
    ensures var r := ActStep(s, limit, who); var pc := s.active[who];
            r.waiting == |r.queue| - (u - Counts(Uncounted, pc) + CountsAfter(Uncounted, s, limit, who))
                                   + (d - Counts(Undiscounted, pc) + CountsAfter(Undiscounted, s, limit, who))
  {
  }

  lemma RunningSpawn(s: State, limit: nat, who: nat, h: int)
    requires who in s.active && s.active[who].Spawning? && s.active[who].load !in s.loading
    requires s.running == |s.loading| + h
    ensures var r := ActStep(s, limit, who);
            r.running == |r.loading| + h - Counts(Slots, s.active[who]) + CountsAfter(Slots, s, limit, who)
    ensures s.running <= limit ==> ActStep(s, limit, who).running <= limit
  {
  }

  lemma RunningMove(s: State, limit: nat, who: nat)
    requires who in s.active && !s.active[who].Spawning?
    ensures var r := ActStep(s, limit, who);
            && r.loading == s.loading
            && r.running == s.running - Counts(Slots, s.active[who]) + CountsAfter(Slots, s, limit, who)
            && (s.running <= limit ==> r.running <= limit)
  {
  }

  lemma RunningAct(s: State, limit: nat, who: nat, h: int)
    requires who in s.active && (s.active[who].Spawning? ==> s.active[who].load !in s.loading)
    requires s.running == |s.loading| + h
    ensures var r := ActStep(s, limit, who);
            r.running == |r.loading| + h - Counts(Slots, s.active[who]) + CountsAfter(Slots, s, limit, who)
    ensures s.running <= limit ==> ActStep(s, limit, who).running <= limit
  {
    if s.active[who].Spawning? {
      RunningSpawn(s, limit, who, h);
    } else {
      RunningMove(s, limit, who);
    }
  }

  lemma PumpingAct(s: State, limit: nat, who: nat, p: int)
    requires who in s.active && p == (if s.pumping then 1 else 0) && p >= Counts(Pumps, s.active[who])
    ensures var r := ActStep(s, limit, who);
            p - Counts(Pumps, s.active[who]) + CountsAfter(Pumps, s, limit, who) == (if r.pumping then 1 else 0)
  {
  }

  lemma CountsAct(s: State, limit: nat, who: nat)
    requires CountsAgree(s) && StartedOnce(s) && who in s.active
    ensures CountsAgree(ActStep(s, limit, who))
  {
    Change(Uncounted, s, limit, who);
    Change(Undiscounted, s, limit, who);
    Change(Slots, s, limit, who);
    Change(Pumps, s, limit, who);
    WaitingAct(s, limit, who, Number(Uncounted, s.active), Number(Undiscounted, s.active));
    RunningAct(s, limit, who, Number(Slots, s.active));
    PumpingAct(s, limit, who, Number(Pumps, s.active));
  }

  /** The activity about to leave with work undone. */
  ghost predicate Leaves(s: State, who: nat)
    requires who in s.active
  {
    || (s.active[who].Starting? && s.pumping)
    || (s.active[who].CheckingWaiting? && s.waiting <= 0 && s.queue != [])
  }

  /** It leaves the work to someone: the one that pumps, or one that has yet to count its load. */
  lemma SomeoneStays(s: State, who: nat) returns (other: nat)
    requires CountsAgree(s) && who in s.active
    ensures Leaves(s, who) ==> other in s.active && other != who
  {
    other := who;
    if s.active[who].Starting? && s.pumping {
      other := SomeoneCounts(Pumps, s.active);
    } else if s.active[who].CheckingWaiting? && s.waiting <= 0 && s.queue != [] {
      other := SomeoneCounts(Uncounted, s.active);
    }
  }

  lemma AttendedAct(s: State, limit: nat, who: nat, other: nat)
    requires who in s.active && (Leaves(s, who) ==> other in s.active && other != who)
    ensures Attended(ActStep(s, limit, who), limit)
  {
    var r := ActStep(s, limit, who);
    assert who in r.active || (Leaves(s, who) && other in r.active) || r.queue == [] || r.running >= limit;
  }

  /** An activity that moves on, or leaves, without touching a load. */
  lemma StartedOnceMove(s: State, who: nat, pc: Pc)
    requires StartedOnce(s) && !pc.Spawning?
    ensures StartedOnce(At(s, who, pc)) && StartedOnce(Gone(s, who))
  {
  }

  lemma StartedOnceClaim(s: State, who: nat, load: nat)
    requires StartedOnce(s) && load !in s.claimed
    ensures StartedOnce(At(s.(claimed := s.claimed + {load}), who, Spawning(load)))
  {
  }

  lemma StartedOnceSpawn(s: State, who: nat)
    requires StartedOnce(s) && who in s.active && s.active[who].Spawning?
    ensures var load := s.active[who].load;
            StartedOnce(At(s.(loading := s.loading + {load}, started := s.started + [load]), who, Claiming))
  {
  }

  lemma StartedOnceAct(s: State, limit: nat, who: nat)
    requires StartedOnce(s) && who in s.active
    ensures StartedOnce(ActStep(s, limit, who))
  {
    var r := ActStep(s, limit, who);
    match s.active[who]
    case Taking(load) =>
      if load in s.claimed {
        StartedOnceMove(s, who, Losing);
      } else {
        StartedOnceClaim(s, who, load);
      }
    case Spawning(load) => StartedOnceSpawn(s, who);
    case _ => StartedOnceMove(s, who, if who in r.active then r.active[who] else Starting);
  }

  lemma ActKeeps(s: State, limit: nat, who: nat)
    requires Inv(s, limit) && who in s.active
    ensures Inv(ActStep(s, limit, who), limit)
  {
    CountsAct(s, limit, who);
    RunningAct(s, limit, who, Number(Slots, s.active));
    var other := SomeoneStays(s, who);
    AttendedAct(s, limit, who, other);
    StartedOnceAct(s, limit, who);
  }

  /** A new activity counts for what it is about to do. */
  lemma Joins(active: map<nat, Pc>, who: nat, pc: Pc)
    requires who !in active
    ensures forall kind :: Number(kind, active[who := pc]) == Number(kind, active) + Counts(kind, pc)
  {
    forall kind
      ensures Number(kind, active[who := pc]) == Number(kind, active) + Counts(kind, pc)
    {
      Moved(kind, active, who, pc);
    }
  }

  lemma EnqueueCounts(s: State, who: nat, load: nat)
    requires CountsAgree(s) && who !in s.active
    ensures CountsAgree(At(s.(queue := s.queue + [load]), who, Counting))
  {
    Joins(s.active, who, Counting);
  }

  lemma FinishCounts(s: State, who: nat, load: nat)
    requires CountsAgree(s) && who !in s.active && load in s.loading
    ensures CountsAgree(At(s.(loading := s.loading - {load}), who, Finishing))
  {
    Joins(s.active, who, Finishing);
  }

  lemma FinishedOnce(s: State, load: nat)
    requires StartedOnce(s)
    ensures StartedOnce(s.(loading := s.loading - {load}))
  {
  }

  lemma EnqueueKeeps(s: State, limit: nat, who: nat, load: nat)
    requires Inv(s, limit) && who !in s.active
    ensures Inv(At(s.(queue := s.queue + [load]), who, Counting), limit)
  {
    EnqueueCounts(s, who, load);
    StartedOnceMove(s.(queue := s.queue + [load]), who, Counting);
    assert who in s.active[who := Counting];
  }

  lemma FinishKeeps(s: State, limit: nat, who: nat, load: nat)
    requires Inv(s, limit) && who !in s.active && load in s.loading
    ensures Inv(At(s.(loading := s.loading - {load}), who, Finishing), limit)
  {
    FinishCounts(s, who, load);
    FinishedOnce(s, load);
    StartedOnceMove(s.(loading := s.loading - {load}), who, Finishing);
    assert who in s.active[who := Finishing];
  }

  /** Every step of every activity keeps the invariant. */
  lemma StepKeeps(s: State, limit: nat, step: Step)
    requires Inv(s, limit) && Enabled(s, step)
    ensures Inv(Do(s, limit, step), limit)
  {
    match step
    case Enqueue(who, load) => EnqueueKeeps(s, limit, who, load);
    case Finish(who, load) => FinishKeeps(s, limit, who, load);
    case Act(who) => ActKeeps(s, limit, who);
    case Steal(load) =>
  }

  // ----------------------------------------------------------------- whole runs

  ghost predicate IsRun(steps: seq<Step>, states: seq<State>, limit: nat)
  {
    && |states| == |steps| + 1 && states[0] == Init()
    && forall i :: 0 <= i < |steps| ==> Enabled(states[i], steps[i]) && states[i + 1] == Do(states[i], limit, steps[i])
  }

  lemma {:induction false} EveryRunKeeps(steps: seq<Step>, states: seq<State>, limit: nat, n: nat)
    requires IsRun(steps, states, limit) && n < |states|
    ensures Inv(states[n], limit)
  {
    if n == 0 {
      CountsInit();
    } else {
      EveryRunKeeps(steps, states, limit, n - 1);
      StepKeeps(states[n - 1], limit, steps[n - 1]);
    }
  }

  /** In every reachable state a load that could start has an activity that will look; once every
      activity has returned, the queue is empty or every slot holds a running load. */
  lemma NoRefreshIsStranded(steps: seq<Step>, states: seq<State>, limit: nat, n: nat)
    requires IsRun(steps, states, limit) && n < |states|
    ensures var s := states[n];
            && (s.queue != [] && s.running < limit ==> s.active != map[])
            && (s.active == map[] ==> s.waiting == |s.queue| && s.running == |s.loading| && !s.pumping)
            && (s.active == map[] ==> s.queue == [] || |s.loading| == limit)
  {
    EveryRunKeeps(steps, states, limit, n);
    assert forall kind :: Marks(kind, map[]) == map[];
  }

  /** No more loads run at a time than the limit, one activity pumps at a time, and each load
      is run by at most one claimer: started once by the pump, or by the caller that took it first. */
  lemma SlotsAreRespected(steps: seq<Step>, states: seq<State>, limit: nat, n: nat, a: nat, b: nat)
    requires IsRun(steps, states, limit) && n < |states|
    ensures |states[n].loading| <= states[n].running <= limit
    ensures var s := states[n];
            a in s.active && b in s.active && Counts(Pumps, s.active[a]) == 1 && Counts(Pumps, s.active[b]) == 1 ==>
                  a == b
    ensures var s := states[n];
            && (forall i, j :: 0 <= i < j < |s.started| ==> s.started[i] != s.started[j])
            && (forall load :: load in s.started ==> load !in s.stolen)
  {
    EveryRunKeeps(steps, states, limit, n);
    var s := states[n];
    if a in s.active && b in s.active && a != b {
      Left(Pumps, s.active, a);
      Left(Pumps, s.active - {a}, b);
    }
  }
}
