/**
 Reads recorded by any number of threads at once. Each push runs under the shard's read lock and a drain under its
 write lock, so pushes race with each other and never with a drain. One step per atomic operation.
 */
module RingRace {
  import opened ReadRings

  datatype Pc =
    | Loading(node: nat)             // about to load the cursor
    | Adding(node: nat)              // saw room, about to advance the cursor
    | Storing(node: nat, i: nat)     // got slot `i`, about to store the node there

  type Slots = s: seq<nat> | |s| == RING witness seq(RING, _ => 0)

  /** `granted` are the reads that got a slot since the last drain, in the order in which they got it. */
  datatype State = State(cursor: nat, slots: Slots, threads: map<nat, Pc>, granted: seq<nat>, handed: seq<nat>)

  datatype Step = Push(t: nat, node: nat) | Go(t: nat) | Drain

  function Init(): (s: State)
  {
    State(0, seq(RING, _ => 0), map[], [], [])
  }

  /** A drain has the write lock: no push is under way. */
  ghost predicate Enabled(s: State, step: Step)
  {
    match step
    case Push(t, node) => t !in s.threads && node != NO_NODE
    case Go(t) => t in s.threads
    case Drain => s.threads == map[]
  }

  function Filled(cursor: nat): (n: nat)
  {
    if cursor < RING then cursor else RING
  }

  function GoStep(s: State, t: nat): (r: State)
    requires t in s.threads
  {
    match s.threads[t]
    case Loading(node) =>
        if s.cursor >= RING then s.(threads := s.threads - {t}) else s.(threads := s.threads[t := Adding(node)])
    case Adding(node) =>
      if s.cursor < RING
      then s.(cursor := s.cursor + 1, threads := s.threads[t := Storing(node, s.cursor)], granted := s.granted + [node])
      else s.(cursor := s.cursor + 1, threads := s.threads - {t})
    case Storing(node, i) =>
        s.(slots := if i < |s.slots| then s.slots[i := node + 1] else s.slots, threads := s.threads - {t})
  }

  /** What a drain reads: every slot below the cursor that is not empty. */
  function Read(slots: seq<nat>, n: nat): (nodes: seq<nat>)
    requires n <= |slots|
  {
    if n == 0 then [] else Read(slots, n - 1) + (if slots[n - 1] != 0 then [slots[n - 1] - 1] else [])
  }

  function Do(s: State, step: Step): (r: State)
    requires step.Go? ==> step.t in s.threads
  {
    match step
    case Push(t, node) => s.(threads := s.threads[t := Loading(node)])
    case Go(t) => GoStep(s, t)
    case Drain =>
        State(0, seq(RING, i requires 0 <= i < RING => if i < Filled(s.cursor) then 0 else s.slots[i]), map[], [],
              Read(s.slots, Filled(s.cursor)))
  }

  /** The slots someone is about to fill. */
  ghost function Owed(threads: map<nat, Pc>): (r: set<nat>)
  {
    set t | t in threads && threads[t].Storing? :: threads[t].i
  }

  predicate SameSlot(a: Pc, b: Pc)
  {
    a.Storing? && b.Storing? && a.i == b.i
  }

  ghost predicate Inv(s: State)
  {
    && |s.granted| == Filled(s.cursor)
    && (forall i {:trigger s.slots[i]} ::
        0 <= i < RING ==> s.slots[i] == if i < |s.granted| && i !in Owed(s.threads) then s.granted[i] + 1 else 0)
    && (forall t {:trigger s.threads[t]} :: t in s.threads && s.threads[t].Storing? ==>
          s.threads[t].i < |s.granted| && s.granted[s.threads[t].i] == s.threads[t].node)
    && (forall t, u {:trigger s.threads[t], s.threads[u]} ::
        t in s.threads && u in s.threads && SameSlot(s.threads[t], s.threads[u]) ==> t == u)
  }

  lemma OwedAfter(threads: map<nat, Pc>, t: nat, pc: Pc)
    requires t in threads ==> !threads[t].Storing?
    ensures Owed(threads - {t}) == Owed(threads)
    ensures Owed(threads[t := pc]) == Owed(threads) + (if pc.Storing? then {pc.i} else {})
  {
    var rest, more := threads - {t}, threads[t := pc];
    forall i | i in Owed(threads)
      ensures i in Owed(rest) && i in Owed(more)
    {
      var u :| u in threads && threads[u].Storing? && threads[u].i == i;
      assert rest[u] == threads[u] && more[u] == threads[u];
    }
    assert more[t] == pc;
  }

  lemma OwedPaid(s: State, t: nat)
    requires Inv(s) && t in s.threads && s.threads[t].Storing?
    ensures Owed(s.threads - {t}) == Owed(s.threads) - {s.threads[t].i}
  {
    var rest := s.threads - {t};
    forall i | i in Owed(s.threads) && i != s.threads[t].i
      ensures i in Owed(rest)
    {
      var u :| u in s.threads && s.threads[u].Storing? && s.threads[u].i == i;
      assert rest[u] == s.threads[u];
    }
    forall i | i in Owed(rest)
      ensures i in Owed(s.threads) && i != s.threads[t].i
    {
      var u :| u in rest && rest[u].Storing? && rest[u].i == i;
      assert s.threads[u] == rest[u];
    }
  }

  lemma GoKeeps(s: State, t: nat)
    requires Inv(s) && t in s.threads
    ensures Inv(GoStep(s, t))
  {
    match s.threads[t]
    case Loading(node) => OwedAfter(s.threads, t, Adding(node));
    case Adding(node) => OwedAfter(s.threads, t, Storing(node, s.cursor));
    case Storing(node, i) => OwedPaid(s, t);
  }

  lemma {:induction false} ReadsTheGranted(slots: seq<nat>, granted: seq<nat>, n: nat)
    requires n <= |slots| && n <= |granted| && forall i :: 0 <= i < n ==> slots[i] == granted[i] + 1
    ensures Read(slots, n) == granted[..n]
  {
    if n > 0 {
      ReadsTheGranted(slots, granted, n - 1);
      assert granted[..n] == granted[..n - 1] + [granted[n - 1]];
    }
  }

  lemma DrainKeeps(s: State)
    requires Inv(s) && s.threads == map[]
    ensures Inv(Do(s, Drain)) && Do(s, Drain).handed == s.granted
  {
    assert Owed(s.threads) == {};
    ReadsTheGranted(s.slots, s.granted, |s.granted|);
    assert s.granted[..|s.granted|] == s.granted;
    var r := Do(s, Drain);
    assert Owed(r.threads) == {};
  }

  lemma StepKeeps(s: State, step: Step)
    requires Inv(s) && Enabled(s, step)
    ensures Inv(Do(s, step))
  {
    match step
    case Push(t, node) => OwedAfter(s.threads, t, Loading(node));
    case Go(t) => GoKeeps(s, t);
    case Drain => DrainKeeps(s);
  }

  // ----------------------------------------------------------------- whole runs

  ghost predicate IsRun(steps: seq<Step>, states: seq<State>)
  {
    && |states| == |steps| + 1 && states[0] == Init()
    && forall i :: 0 <= i < |steps| ==> Enabled(states[i], steps[i]) && states[i + 1] == Do(states[i], steps[i])
  }

  lemma {:induction false} EveryRunKeeps(steps: seq<Step>, states: seq<State>, n: nat)
    requires IsRun(steps, states) && n < |states|
    ensures Inv(states[n])
  {
    if n == 0 {
      assert Owed(map[]) == {};
    } else {
      EveryRunKeeps(steps, states, n - 1);
      StepKeeps(states[n - 1], steps[n - 1]);
    }
  }

  /** In every run, a drain hands over exactly the reads that got a slot since the last one, in the order in which
        they got it, at most as many as the ring has; and it finds the ring as a single thread would have left it. */
  lemma RacingReadsAreKept(steps: seq<Step>, states: seq<State>, n: nat)
    requires IsRun(steps, states) && n < |states| && states[n].threads == map[]
    ensures var s := states[n];
            && Do(s, Drain).handed == s.granted && |s.granted| == Filled(s.cursor) <= RING
            && (forall i :: 0 <= i < |s.granted| ==> s.slots[i] == s.granted[i] + 1) &&
                (forall i :: |s.granted| <= i < RING ==> s.slots[i] == 0)
  {
    EveryRunKeeps(steps, states, n);
    DrainKeeps(states[n]);
    assert Owed(states[n].threads) == {};
  }

  /** A push is turned away only from a ring that is full. */
  lemma RefusedOnlyWhenFull(steps: seq<Step>, states: seq<State>, n: nat)
    requires IsRun(steps, states) && n < |steps| && steps[n].Go? && steps[n].t !in states[n + 1].threads
    ensures states[n].threads[steps[n].t].Storing? || |states[n].granted| == 256
  {
    EveryRunKeeps(steps, states, n);
  }
}
