/**
 The pool's free list: a stack of slot indexes linked through `next`, whose head carries
 a tag that grows with every successful exchange. Any number of threads pop and push;
 each load, store and exchange is one step.
 */
module FreeList {

  const TAGS: nat := 0x1_0000_0000

  /** `count` is the number of exchanges so far; the word itself holds only its residue. */
  datatype Head = Head(count: nat, idx: nat)

  datatype Pc =
    | PopLoading                                 // about to load the head
    | PopFollowing(seen: Head)                   // about to load the seen index's next link
    | PopSwapping(seen: Head, next: nat)         // about to exchange the head for that link
    | Popped(idx: nat)                           // has its index
    | PopEmpty                                   // found the list empty
    | PushLoading(mine: nat)                     // about to load the head
    | PushLinking(mine: nat, seen: Head)         // about to store its next link
    | PushSwapping(mine: nat, seen: Head)        // about to exchange the head for its index

  /** `out` are the indexes handed out and not yet pushed back. */
  datatype State = State(head: Head, next: seq<nat>, threads: map<nat, Pc>, out: set<nat>)

  datatype Step = Pop(t: nat) | Push(t: nat, idx: nat) | Go(t: nat, spurious: bool) | Leave(t: nat)

  function Nil(s: State): (nil: nat)
  {
    |s.next|
  }

  /** `pool::new`: every slot free, each linked to the one after it; NIL stands for no slot. */
  function Init(capacity: nat): (s: State)
  {
    State(Head(0, 0), seq(capacity, i => i + 1), map[], {})
  }

  /** The words are equal: same index, same tag. */
  predicate SameWord(a: Head, b: Head)
  {
    a.idx == b.idx && a.count % TAGS == b.count % TAGS
  }

  predicate Pushes(pc: Pc, idx: nat)
  {
    (pc.PushLoading? || pc.PushLinking? || pc.PushSwapping?) && pc.mine == idx
  }

  ghost predicate Enabled(s: State, step: Step)
  {
    match step
    case Pop(t) => t !in s.threads
    case Push(t, idx) => t !in s.threads && idx in s.out && forall u :: u in s.threads ==> !Pushes(s.threads[u], idx)
    case Go(t, _) => t in s.threads && !s.threads[t].Popped? && !s.threads[t].PopEmpty? && Unwrapped(s, t)
    case Leave(t) => t in s.threads && (s.threads[t].Popped? || s.threads[t].PopEmpty?)
  }

  /** The tag does not come round within one pop. A push needs no tag. */
  ghost predicate Unwrapped(s: State, t: nat)
    requires t in s.threads
  {
    s.threads[t].PopSwapping? ==> s.head.count < s.threads[t].seen.count + 0x1_0000_0000
  }

  function To(s: State, t: nat, pc: Pc): (r: State)
  {
    s.(threads := s.threads[t := pc])
  }

  function NextOf(s: State, i: nat): (n: nat)
  {
    if i < |s.next| then s.next[i] else Nil(s)
  }

  function GoStep(s: State, t: nat, spurious: bool): (r: State)
    requires t in s.threads
  {
    match s.threads[t]
    case PopLoading => To(s, t, if s.head.idx == Nil(s) then PopEmpty else PopFollowing(s.head))
    case PopFollowing(seen) => To(s, t, PopSwapping(seen, NextOf(s, seen.idx)))
    case PopSwapping(seen, next) =>
      if !spurious && SameWord(s.head, seen)
      then To(s.(head := Head(s.head.count + 1, next), out := s.out + {seen.idx}), t, Popped(seen.idx))
      else To(s, t, PopLoading)
    case PushLoading(mine) => To(s, t, PushLinking(mine, s.head))
    case PushLinking(mine, seen) =>
        To(if mine < |s.next| then s.(next := s.next[mine := seen.idx]) else s, t, PushSwapping(mine, seen))
    case PushSwapping(mine, seen) =>
      if !spurious && SameWord(s.head, seen)
      then s.(head := Head(s.head.count + 1, mine), out := s.out - {mine}, threads := s.threads - {t})
      else To(s, t, PushLoading(mine))
    case Popped(_) => s
    case PopEmpty => s
  }

  function Do(s: State, step: Step): (r: State)
    requires step.Go? ==> step.t in s.threads
  {
    match step
    case Pop(t) => To(s, t, PopLoading)
    case Push(t, idx) => To(s, t, PushLoading(idx))
    case Go(t, spurious) => GoStep(s, t, spurious)
    case Leave(t) => s.(threads := s.threads - {t})
  }

  // ------------------------------------------------------------- the invariant

  /** The list from the head visits exactly the slots of `free`, in order. */
  ghost predicate Chain(head: nat, next: seq<nat>, free: seq<nat>)
  {
    && head == (if free == [] then |next| else free[0])
    && (forall i {:trigger free[i]} :: 0 <= i < |free| ==> free[i] < |next|)
    && (forall i {:trigger next[free[i]]} ::
        0 <= i < |free| ==> next[free[i]] == (if i + 1 < |free| then free[i + 1] else |next|))
  }

  ghost predicate NoRepeats(free: seq<nat>)
  {
    forall i, j :: 0 <= i < j < |free| ==> free[i] != free[j]
  }

  /** Free slots and slots handed out partition the pool. */
  ghost predicate Partition(s: State, free: seq<nat>)
  {
    && (forall i :: 0 <= i < |s.next| ==> (i in free <==> i !in s.out))
    && (forall i :: i in s.out ==> i < |s.next|)
  }

  /** The list from the head is finite and without repeats, and the slots handed out are the rest. */
  ghost predicate Sound(s: State, free: seq<nat>)
  {
    Chain(s.head.idx, s.next, free) && NoRepeats(free) && Partition(s, free)
  }

  /** What a thread remembers is still true if no exchange has happened since. */
  ghost predicate Remembers(s: State, pc: Pc)
  {
    match pc
    case PopFollowing(seen) =>
        seen.count <= s.head.count && seen.idx < |s.next| && (seen.count == s.head.count ==> seen == s.head)
    case PopSwapping(seen, next) =>
      && seen.count <= s.head.count && seen.idx < |s.next|
      && (seen.count == s.head.count ==> seen == s.head && next == s.next[seen.idx])
    case PushLoading(mine) => mine in s.out
    case PushLinking(mine, seen) =>
        mine in s.out && seen.count <= s.head.count && (seen.count == s.head.count ==> seen == s.head)
    case PushSwapping(mine, seen) =>
      && mine in s.out && mine < |s.next| && s.next[mine] == seen.idx
      && seen.count <= s.head.count && (seen.count == s.head.count ==> seen == s.head)
    case _ => true
  }

  ghost predicate Threads(s: State)
  {
    && (forall t {:trigger s.threads[t]} :: t in s.threads ==> Remembers(s, s.threads[t]))
    && (forall t, u, idx {:trigger Pushes(s.threads[t], idx), Pushes(s.threads[u], idx)} ::
          t in s.threads && u in s.threads && Pushes(s.threads[t], idx) && Pushes(s.threads[u], idx) ==> t == u)
  }

  ghost predicate Inv(s: State, free: seq<nat>)
  {
    Sound(s, free) && Threads(s)
  }

  /** The free list after a step. */
  ghost function FreeAfter(s: State, free: seq<nat>, step: Step): (r: seq<nat>)
    requires step.Go? ==> step.t in s.threads
  {
    if step.Go? && s.threads[step.t].PopSwapping? && !step.spurious && SameWord(s.head, s.threads[step.t].seen) &&
        free != [] then free[1..]
    else if step.Go? && s.threads[step.t].PushSwapping? && !step.spurious &&
        SameWord(s.head, s.threads[step.t].seen) then [s.threads[step.t].mine] + free
    else free
  }

  lemma UnwrappedTagIsExact(head: Head, seen: Head)
    requires SameWord(head, seen) && seen.count <= head.count < seen.count + TAGS
    ensures head == seen
  {
  }

  /** Steps that touch neither the head, nor a link, nor who holds what. */
  lemma QuietKeeps(s: State, free: seq<nat>, t: nat, pc: Pc)
    requires Inv(s, free) && Remembers(s, pc)
    requires forall idx {:trigger Pushes(pc, idx)} :: Pushes(pc, idx) ==> forall u {:trigger s.threads[u]} ::
               u in s.threads && Pushes(s.threads[u], idx) ==> u == t
    ensures Inv(To(s, t, pc), free)
  {
  }

  lemma GoneKeeps(s: State, free: seq<nat>, t: nat)
    requires Inv(s, free)
    ensures Inv(s.(threads := s.threads - {t}), free)
  {
  }

  /** A successful pop installs the current next link and hands out a free slot. */
  lemma PopKeeps(s: State, free: seq<nat>, t: nat)
    requires Inv(s, free) && t in s.threads && s.threads[t].PopSwapping? && s.threads[t].seen == s.head
    ensures free != [] && free[0] == s.head.idx && s.head.idx !in s.out && s.threads[t].next == s.next[s.head.idx]
    ensures Inv(To(s.(head := Head(s.head.count + 1, s.threads[t].next), out := s.out + {s.head.idx}), t,
                   Popped(s.head.idx)), free[1..])
  {
    var seen, next := s.threads[t].seen, s.threads[t].next;
    assert Remembers(s, s.threads[t]);
    assert free[0] in free && s.next[free[0]] == next;
    var r := s.(head := Head(s.head.count + 1, next), out := s.out + {seen.idx});
    assert Chain(next, s.next, free[1..]) by {
      forall i {:trigger s.next[free[1..][i]]} | 0 <= i < |free[1..]|
        ensures s.next[free[1..][i]] == (if i + 1 < |free[1..]| then free[1..][i + 1] else |s.next|)
      {
        assert free[1..][i] == free[i + 1];
        assert s.next[free[i + 1]] == (if i + 2 < |free| then free[i + 2] else |s.next|);
      }
    }
    forall i | 0 <= i < |s.next|
      ensures i in free[1..] <==> i !in r.out
    {
      if i in free {
        var k :| 0 <= k < |free| && free[k] == i;
        if k > 0 { assert free[1..][k - 1] == i; }
      }
    }
  }

  /** A push whose word matches is sound whatever the tag: its link was stored for that index. */
  lemma PushKeeps(s: State, free: seq<nat>, t: nat)
    requires Inv(s, free) && t in s.threads && s.threads[t].PushSwapping? && s.threads[t].seen.idx == s.head.idx
    ensures var mine := s.threads[t].mine;
            && mine !in free
            && Inv(s.(head := Head(s.head.count + 1, mine), out := s.out - {mine}, threads := s.threads - {t}),
                   [mine] + free)
  {
    var mine := s.threads[t].mine;
    var all := [mine] + free;
    assert Remembers(s, s.threads[t]);
    assert mine !in free;
    assert Chain(mine, s.next, all) by {
      forall i {:trigger s.next[all[i]]} | 0 <= i < |all|
        ensures s.next[all[i]] == (if i + 1 < |all| then all[i + 1] else |s.next|)
      {
        if i > 0 {
          assert s.next[free[i - 1]] == (if i < |free| then free[i] else |s.next|);
        }
      }
    }
    forall u | u in s.threads && u != t
      ensures !Pushes(s.threads[u], mine)
    {
      assert Pushes(s.threads[t], mine);
    }
  }

  lemma LinkKeeps(s: State, free: seq<nat>, t: nat)
    requires Inv(s, free) && t in s.threads && s.threads[t].PushLinking?
    ensures var mine, seen := s.threads[t].mine, s.threads[t].seen;
            && mine < |s.next|
            && Inv(To(s.(next := s.next[mine := seen.idx]), t, PushSwapping(mine, seen)), free)
  {
    var mine, seen := s.threads[t].mine, s.threads[t].seen;
    assert Remembers(s, s.threads[t]);
    assert mine !in free;
    var next' := s.next[mine := seen.idx];
    assert Chain(s.head.idx, next', free) by {
      forall i {:trigger next'[free[i]]} | 0 <= i < |free|
        ensures next'[free[i]] == (if i + 1 < |free| then free[i + 1] else |next'|)
      {
        assert free[i] in free && s.next[free[i]] == (if i + 1 < |free| then free[i + 1] else |s.next|);
      }
    }
    assert s.head.idx < |s.next| ==> s.head.idx in free;
    forall u | u in s.threads && u != t
      ensures !Pushes(s.threads[u], mine) && Remembers(s.(next := next'), s.threads[u])
    {
      assert Pushes(s.threads[t], mine);
      assert Remembers(s, s.threads[u]);
    }
  }

  predicate Popping(pc: Pc)
  {
    pc.PopLoading? || pc.PopFollowing? || pc.PopSwapping?
  }

  lemma PopGoes(s: State, free: seq<nat>, t: nat, spurious: bool)
    requires Inv(s, free) && Enabled(s, Go(t, spurious)) && Popping(s.threads[t])
    ensures Inv(GoStep(s, t, spurious), FreeAfter(s, free, Go(t, spurious)))
  {
    assert Remembers(s, s.threads[t]);
    match s.threads[t]
    case PopLoading =>
      assert s.head.idx != Nil(s) ==> s.head.idx in free;
      QuietKeeps(s, free, t, if s.head.idx == Nil(s) then PopEmpty else PopFollowing(s.head));
    case PopFollowing(seen) => QuietKeeps(s, free, t, PopSwapping(seen, NextOf(s, seen.idx)));
    case PopSwapping(seen, next) =>
      if !spurious && SameWord(s.head, seen) {
        UnwrappedTagIsExact(s.head, seen);
        PopKeeps(s, free, t);
      } else {
        QuietKeeps(s, free, t, PopLoading);
      }
  }

  lemma PushGoes(s: State, free: seq<nat>, t: nat, spurious: bool)
    requires Inv(s, free) && Enabled(s, Go(t, spurious)) && !Popping(s.threads[t])
    ensures Inv(GoStep(s, t, spurious), FreeAfter(s, free, Go(t, spurious)))
  {
    assert Remembers(s, s.threads[t]);
    match s.threads[t]
    case PushLoading(mine) =>
      PusherIsAlone(s, t);
      QuietKeeps(s, free, t, PushLinking(mine, s.head));
    case PushLinking(mine, seen) => LinkKeeps(s, free, t);
    case PushSwapping(mine, seen) =>
      if !spurious && SameWord(s.head, seen) {
        PushKeeps(s, free, t);
      } else {
        PusherIsAlone(s, t);
        QuietKeeps(s, free, t, PushLoading(mine));
      }
  }

  lemma PusherIsAlone(s: State, t: nat)
    requires Threads(s) && t in s.threads && (s.threads[t].PushLoading? || s.threads[t].PushSwapping?)
    ensures forall u {:trigger s.threads[u]} :: u in s.threads && Pushes(s.threads[u], s.threads[t].mine) ==> u == t
  {
    assert Pushes(s.threads[t], s.threads[t].mine);
  }

  lemma StepKeeps(s: State, free: seq<nat>, step: Step)
    requires Inv(s, free) && Enabled(s, step)
    ensures Inv(Do(s, step), FreeAfter(s, free, step))
  {
    match step
    case Pop(t) => QuietKeeps(s, free, t, PopLoading);
    case Push(t, idx) => QuietKeeps(s, free, t, PushLoading(idx));
    case Go(t, spurious) =>
      if Popping(s.threads[t]) {
        PopGoes(s, free, t, spurious);
      } else {
        PushGoes(s, free, t, spurious);
      }
    case Leave(t) => GoneKeeps(s, free, t);
  }

  // ----------------------------------------------------------------- whole runs

  ghost predicate IsRun(capacity: nat, steps: seq<Step>, states: seq<State>)
  {
    && |states| == |steps| + 1 && states[0] == Init(capacity)
    && forall i :: 0 <= i < |steps| ==> Enabled(states[i], steps[i]) && states[i + 1] == Do(states[i], steps[i])
  }

  lemma {:induction false} EveryRunKeeps(capacity: nat, steps: seq<Step>, states: seq<State>,
                                         n: nat) returns (free: seq<nat>)
    requires IsRun(capacity, steps, states) && n < |states|
    ensures Inv(states[n], free)
  {
    if n == 0 {
      free := seq(capacity, i => i);
      assert forall i :: 0 <= i < capacity ==> free[i] == i;
      forall i | 0 <= i < capacity
        ensures i in free
      {
        assert free[i] == i;
      }
    } else {
      free := EveryRunKeeps(capacity, steps, states, n - 1);
      StepKeeps(states[n - 1], free, steps[n - 1]);
      free := FreeAfter(states[n - 1], free, steps[n - 1]);
    }
  }

  /** In every run the list from the head is finite and without repeats, and it and the slots
      handed out partition the pool. */
  lemma FreeListStaysSound(capacity: nat, steps: seq<Step>, states: seq<State>, n: nat)
    requires IsRun(capacity, steps, states) && n < |states|
    ensures exists free :: Sound(states[n], free)
  {
    var free := EveryRunKeeps(capacity, steps, states, n);
    assert Sound(states[n], free);
  }

  /** A pop that succeeds takes a slot nobody has and installs that slot's current next link,
      whatever happened between its loads. */
  lemma NoIndexIsHandedOutTwice(capacity: nat, steps: seq<Step>, states: seq<State>, n: nat)
    requires IsRun(capacity, steps, states) && n < |steps|
    requires steps[n].Go? && !states[n].threads[steps[n].t].Popped? && states[n + 1].threads.Keys >= {steps[n].t}
    requires states[n + 1].threads[steps[n].t].Popped?
    ensures var s, r, idx := states[n], states[n + 1], states[n + 1].threads[steps[n].t].idx;
            idx < |s.next| && idx == s.head.idx && idx !in s.out && r.out == s.out + {idx} && r.head.idx == s.next[idx]
  {
    var free := EveryRunKeeps(capacity, steps, states, n);
    var s, t := states[n], steps[n].t;
    assert Enabled(s, steps[n]) && states[n + 1] == Do(s, steps[n]);
    assert Remembers(s, s.threads[t]);
    UnwrappedTagIsExact(s.head, s.threads[t].seen);
    PopKeeps(s, free, t);
  }

  /** A pop answers that the pool is empty if and only if every slot is out at its load. */
  lemma EmptyExactlyWhenAllAreOut(capacity: nat, steps: seq<Step>, states: seq<State>, n: nat)
    requires IsRun(capacity, steps, states) && n < |steps| && steps[n].Go?
    requires states[n].threads[steps[n].t] == PopLoading
    ensures var t := steps[n].t;
            t in states[n + 1].threads &&
            (states[n + 1].threads[t] == PopEmpty <==> forall i :: 0 <= i < |states[n].next| ==> i in states[n].out)
  {
    var free := EveryRunKeeps(capacity, steps, states, n);
    var s := states[n];
    assert states[n + 1] == Do(s, steps[n]);
    if s.head.idx != Nil(s) {
      assert free != [] && free[0] in free && free[0] < |s.next|;
    }
  }

  /** An exchange that is tried fails only if another has succeeded since the head was loaded: some thread always gets
        on. */
  lemma FailuresMeanProgress(capacity: nat, steps: seq<Step>, states: seq<State>, n: nat)
    requires IsRun(capacity, steps, states) && n < |steps| && steps[n].Go? && !steps[n].spurious
    requires states[n].threads[steps[n].t].PopSwapping? || states[n].threads[steps[n].t].PushSwapping?
    ensures var t := steps[n].t; var pc := states[n].threads[t];
            states[n].head.count > pc.seen.count ||
            if pc.PopSwapping? then t in states[n + 1].threads && states[n + 1].threads[t] == Popped(pc.seen.idx)
            else t !in states[n + 1].threads && states[n + 1].head.idx == pc.mine && pc.mine !in states[n + 1].out
  {
    var free := EveryRunKeeps(capacity, steps, states, n);
    assert Remembers(states[n], states[n].threads[steps[n].t]);
    assert states[n + 1] == Do(states[n], steps[n]);
  }

  // ------------------------------------------------------------- a tag that wraps

  /** The exchange of a pop keeps the list sound exactly when the link it read is still the head's. */
  lemma PopIsSoundExactlyWhenItsLinkIsCurrent(s: State, free: seq<nat>, t: nat)
    requires Inv(s, free) && t in s.threads && s.threads[t].PopSwapping? && SameWord(s.head, s.threads[t].seen)
    ensures s.head.idx < |s.next|
    ensures (exists left :: Sound(GoStep(s, t, false), left)) <==> s.threads[t].next == s.next[s.head.idx]
  {
    var r, idx, next := GoStep(s, t, false), s.head.idx, s.threads[t].next;
    assert Remembers(s, s.threads[t]);
    assert free != [] && free[0] == idx && idx in free && s.next[free[0]] == s.next[idx];
    if next == s.next[idx] {
      var s' := To(s, t, PopSwapping(s.head, next));
      QuietKeeps(s, free, t, PopSwapping(s.head, next));
      PopKeeps(s', free, t);
      assert Sound(r, free[1..]);
    } else if left :| Sound(r, left) {
      RestLinked(s.next, free);
      forall i
        ensures i in left <==> i in free[1..]
      {
        RestOf(free, i);
      }
      SameHead(s.next, left, free[1..]);
    }
  }

  lemma RestOf(free: seq<nat>, i: nat)
    requires free != [] && NoRepeats(free)
    ensures i in free[1..] <==> i in free && i != free[0]
  {
    assert free == [free[0]] + free[1..];
  }

  lemma RestLinked(next: seq<nat>, free: seq<nat>)
    requires free != [] && Linked(next, free)
    ensures Linked(next, free[1..])
  {
    var rest := free[1..];
    forall i {:trigger next[rest[i]]} | 0 <= i < |rest|
      ensures next[rest[i]] == (if i + 1 < |rest| then rest[i + 1] else |next|)
    {
      assert rest[i] == free[i + 1] && next[free[i + 1]] == (if i + 2 < |free| then free[i + 2] else |next|);
    }
  }

  /** From a slot on, two lists through the same links are equally long. */
  lemma {:induction false} SameTail(next: seq<nat>, a: seq<nat>, i: nat, b: seq<nat>, j: nat)
    requires Linked(next, a) && Linked(next, b) && i < |a| && j < |b| && a[i] == b[j]
    ensures |a| - i == |b| - j
    decreases |a| - i
  {
    assert next[a[i]] == next[b[j]];
    if i + 1 < |a| && j + 1 < |b| {
      SameTail(next, a, i + 1, b, j + 1);
    }
  }

  /** Two lists through the same links that visit the same slots start alike. */
  lemma SameHead(next: seq<nat>, a: seq<nat>, b: seq<nat>)
    requires Linked(next, a) && Linked(next, b) && forall i :: i in a <==> i in b
    ensures a == [] <==> b == []
    ensures a != [] ==> b != [] && a[0] == b[0]
  {
    if a != [] {
      assert a[0] in b;
      var j :| 0 <= j < |b| && b[j] == a[0];
      SameTail(next, a, 0, b, j);
    }
    if b != [] {
      assert b[0] in a;
      var i :| 0 <= i < |a| && a[i] == b[0];
      SameTail(next, a, i, b, 0);
    }
  }

  ghost predicate Linked(next: seq<nat>, free: seq<nat>)
  {
    && (forall i {:trigger free[i]} :: 0 <= i < |free| ==> free[i] < |next|)
    && (forall i {:trigger next[free[i]]} ::
        0 <= i < |free| ==> next[free[i]] == (if i + 1 < |free| then free[i + 1] else |next|))
  }

  ghost predicate Reached(capacity: nat, s: State)
  {
    exists steps, states :: IsRun(capacity, steps, states) && states[|steps|] == s
  }

  lemma OneStepOn(capacity: nat, s: State, step: Step, r: State)
    requires Reached(capacity, s) && Enabled(s, step) && r == Do(s, step)
    ensures Reached(capacity, r)
  {
    var steps, states :| IsRun(capacity, steps, states) && states[|steps|] == s;
    var steps', states' := steps + [step], states + [r];
    forall i | 0 <= i < |steps'|
      ensures Enabled(states'[i], steps'[i]) && states'[i + 1] == Do(states'[i], steps'[i])
    {
      assert i < |steps| ==> steps'[i] == steps[i] && states'[i] == states[i] && states'[i + 1] == states[i + 1];
    }
    assert IsRun(capacity, steps', states') && states'[|steps'|] == r;
  }

  /** Thread 7 has read that slot 1 follows slot 0 and waits; thread 8 does all the rest. */
  const WAITING: map<nat, Pc> := map[7 := PopSwapping(Head(0, 0), 1)]

  /** A whole pop by thread 8. */
  lemma PopOn(capacity: nat, head: Head, next: seq<nat>, out: set<nat>)
    requires Reached(capacity, State(head, next, WAITING, out)) && head.idx < |next|
    ensures Reached(capacity, State(Head(head.count + 1, next[head.idx]), next, WAITING, out + {head.idx}))
  {
    var s0 := State(head, next, WAITING, out);
    var s3 := To(s0, 8, PopSwapping(head, next[head.idx]));
    PopReads(capacity, s0);
    PopEnds(capacity, s3, State(Head(head.count + 1, next[head.idx]), next, WAITING, out + {head.idx}));
  }

  lemma PopReads(capacity: nat, s: State)
    requires Reached(capacity, s) && s.threads == WAITING && s.head.idx < |s.next|
    ensures Reached(capacity, To(s, 8, PopSwapping(s.head, s.next[s.head.idx])))
  {
    var s1, s2 := To(s, 8, PopLoading), To(s, 8, PopFollowing(s.head));
    OneStepOn(capacity, s, Pop(8), s1);
    OneStepOn(capacity, s1, Go(8, false), s2);
    OneStepOn(capacity, s2, Go(8, false), To(s, 8, PopSwapping(s.head, s.next[s.head.idx])));
  }

  lemma PopEnds(capacity: nat, s: State, r: State)
    requires Reached(capacity, s) && s.head.idx < |s.next|
    requires s.threads == WAITING[8 := PopSwapping(s.head, s.next[s.head.idx])]
    requires r == State(Head(s.head.count + 1, s.next[s.head.idx]), s.next, WAITING, s.out + {s.head.idx})
    ensures Reached(capacity, r)
  {
    var s4 := To(r, 8, Popped(s.head.idx));
    assert s4.threads == s.threads[8 := Popped(s.head.idx)];
    OneStepOn(capacity, s, Go(8, false), s4);
    assert s4.threads - {8} == WAITING;
    OneStepOn(capacity, s4, Leave(8), r);
  }

  /** A whole push by thread 8. */
  lemma PushOn(capacity: nat, head: Head, next: seq<nat>, out: set<nat>, idx: nat)
    requires Reached(capacity, State(head, next, WAITING, out)) && idx in out && idx < |next|
    ensures Reached(capacity, State(Head(head.count + 1, idx), next[idx := head.idx], WAITING, out - {idx}))
  {
    var s0 := State(head, next, WAITING, out);
    var s2 := To(s0, 8, PushLinking(idx, head));
    PushReads(capacity, s0, idx);
    PushEnds(capacity, s2, idx, State(Head(head.count + 1, idx), next[idx := head.idx], WAITING, out - {idx}));
  }

  lemma PushReads(capacity: nat, s: State, idx: nat)
    requires Reached(capacity, s) && s.threads == WAITING && idx in s.out
    ensures Reached(capacity, To(s, 8, PushLinking(idx, s.head)))
  {
    var s1 := To(s, 8, PushLoading(idx));
    OneStepOn(capacity, s, Push(8, idx), s1);
    OneStepOn(capacity, s1, Go(8, false), To(s, 8, PushLinking(idx, s.head)));
  }

  lemma PushEnds(capacity: nat, s: State, idx: nat, r: State)
    requires Reached(capacity, s) && s.threads == WAITING[8 := PushLinking(idx, s.head)] && idx < |s.next|
    requires r == State(Head(s.head.count + 1, idx), s.next[idx := s.head.idx], WAITING, s.out - {idx})
    ensures Reached(capacity, r)
  {
    var s3 := To(s.(next := s.next[idx := s.head.idx]), 8, PushSwapping(idx, s.head));
    OneStepOn(capacity, s, Go(8, false), s3);
    assert s3.threads - {8} == WAITING;
    OneStepOn(capacity, s3, Go(8, false), r);
  }

  lemma ThreadSevenWaits()
    ensures Reached(3, State(Head(0, 0), [1, 2, 3], WAITING, {}))
  {
    var s0 := State(Head(0, 0), [1, 2, 3], map[], {});
    assert Init(3) == s0;
    var none: seq<Step> := [];
    assert IsRun(3, none, [s0]) && [s0][|none|] == s0;
    var s1, s2 := To(s0, 7, PopLoading), To(s0, 7, PopFollowing(Head(0, 0)));
    var s3 := To(s0, 7, PopSwapping(Head(0, 0), 1));
    OneStepOn(3, s0, Pop(7), s1);
    OneStepOn(3, s1, Go(7, false), s2);
    OneStepOn(3, s2, Go(7, false), s3);
    assert s3.threads == WAITING;
  }

  /** Slots 1 and 2 are out and slot 0 has come back, after `count` exchanges. */
  function Round(count: nat): (s: State)
  {
    State(Head(count, 0), [3, 2, 3], WAITING, {1, 2})
  }

  lemma FirstRound()
    ensures Reached(3, Round(4))
  {
    var next := [1, 2, 3];
    ThreadSevenWaits();
    PopOn(3, Head(0, 0), next, {});
    PopOn(3, Head(1, 1), next, {} + {0});
    PopOn(3, Head(2, 2), next, {} + {0} + {1});
    PushOn(3, Head(3, 3), next, {} + {0} + {1} + {2}, 0);
    assert next[0 := 3] == [3, 2, 3] && {} + {0} + {1} + {2} - {0} == {1, 2};
  }

  lemma {:induction false} ManyRounds(k: nat)
    ensures Reached(3, Round(4 + 2 * k))
  {
    if k == 0 {
      FirstRound();
    } else {
      var count, next := 2 + 2 * k, [3, 2, 3];
      ManyRounds(k - 1);
      PopOn(3, Head(count, 0), next, {1, 2});
      PushOn(3, Head(count + 1, 3), next, {1, 2} + {0}, 0);
      assert next[0 := 3] == next && {1, 2} + {0} - {0} == {1, 2};
    }
  }

  /** The condition is needed. A run reaches a state in which the tag has come round while a pop was under way; the
        pop's exchange then succeeds with a stale link, and a slot that is handed out becomes the head. */
  lemma AWrappedTagBreaksTheList()
    ensures var s := Round(0x1_0000_0000); Reached(3, s) && Inv(s, [0]) && !Unwrapped(s, 7)
    ensures var r := GoStep(Round(0x1_0000_0000), 7, false);
            r.threads[7] == Popped(0) && r.head.idx == 1 && 1 in r.out && forall free :: !Sound(r, free)
  {
    ManyRounds((TAGS - 4) / 2);
    var r := GoStep(Round(TAGS), 7, false);
    forall free
      ensures !Sound(r, free)
    {
      if free != [] && free[0] == 1 {
        assert 1 in free;
      }
    }
  }
}
