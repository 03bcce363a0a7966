/**
 The pool as a whole: slots in their lives and the list that hands them out, together. What each of the two modules
 assumes of the other is proved here: a slot is pushed by one handle at a time and only while it is out, and it gets
 its next life only when the last one is over.
 */
module Pool {
  import L = FreeList
  import S = PooledSlot

  /** `giving` are the slots whose last handle has entered `push`. */
  datatype State = State(list: L.State, slots: seq<S.State>, giving: set<nat>)

  datatype Step =
    | Local(i: nat, step: S.Step)        // a handle's step on its slot, or a waker's
    | Claim(t: nat)                      // `pair` enters `pop`
    | Give(t: nat, i: nat)               // the last handle enters `push`
    | Go(t: nat, spurious: bool)         // a step of `pop` or `push`
    | Pair(t: nat)                       // `pair` hands out the slot it popped
    | Fail(t: nat)                       // `pair` found the pool empty

  function Init(capacity: nat): (s: State)
  {
    State(L.Init(capacity), seq(capacity, _ => S.Init()), {})
  }

  function PushOf(s: S.State): (step: S.Step)
  {
    if s.sender.SPushing? then S.SenderGo else S.ReceiverGo
  }

  /** What the code checks or holds, nothing more: not that nobody else pushes the slot, nor that its last life is
        over. */
  ghost predicate Enabled(s: State, step: Step)
  {
    match step
    case Local(i, st) => i < |s.slots| && S.Enabled(s.slots[i], st) && !st.NewLife? && !S.IsPush(s.slots[i], st)
    case Claim(t) => t !in s.list.threads
    case Give(t, i) => t !in s.list.threads && i < |s.slots| && S.AtPush(s.slots[i]) && i !in s.giving
    case Go(t, spurious) => L.Enabled(s.list, L.Go(t, spurious))
    case Pair(t) => t in s.list.threads && s.list.threads[t].Popped?
    case Fail(t) => t in s.list.threads && s.list.threads[t].PopEmpty?
  }

  /** The exchange that ends a push succeeds. */
  ghost predicate Gives(list: L.State, t: nat, spurious: bool)
  {
    t in list.threads && list.threads[t].PushSwapping? && !spurious && L.SameWord(list.head, list.threads[t].seen)
  }

  /** Slot `i` takes a step, if there is such a slot. */
  function SlotDoes(slots: seq<S.State>, i: nat, step: S.Step): (r: seq<S.State>)
  {
    if i < |slots| then slots[i := S.Do(slots[i], step)] else slots
  }

  function GivenBack(s: State, i: nat): (r: State)
  {
    s.(slots := if i < |s.slots| then SlotDoes(s.slots, i, PushOf(s.slots[i])) else s.slots, giving := s.giving - {i})
  }

  ghost function Do(s: State, step: Step): (r: State)
    requires Enabled(s, step)
  {
    match step
    case Local(i, st) => s.(slots := SlotDoes(s.slots, i, st))
    case Claim(t) => s.(list := L.Do(s.list, L.Pop(t)))
    case Give(t, i) => s.(list := L.Do(s.list, L.Push(t, i)), giving := s.giving + {i})
    case Go(t, spurious) =>
      var after := s.(list := L.Do(s.list, L.Go(t, spurious)));
      if Gives(s.list, t, spurious) then GivenBack(after, s.list.threads[t].mine) else after
    case Pair(t) => s.(list := L.Do(s.list, L.Leave(t)), slots := SlotDoes(s.slots, s.list.threads[t].idx, S.NewLife))
    case Fail(t) => s.(list := L.Do(s.list, L.Leave(t)))
  }

  // ------------------------------------------------------------- the invariant

  /** A slot is out of the list from its pop to its push, and lives from its pair to its push. */
  ghost predicate Linked(slot: S.State, i: nat, out: set<nat>, popped: set<nat>, giving: set<nat>)
  {
    && (i in out <==> !slot.free || i in popped)
    && (i in popped ==> slot.free)
    && (i in giving ==> S.AtPush(slot))
  }

  ghost function Popped(threads: map<nat, L.Pc>): (r: set<nat>)
  {
    set t | t in threads && threads[t].Popped? :: threads[t].idx
  }

  /** Two threads never hold the same popped index, and whoever pushes an index has been given it to push. */
  ghost predicate ThreadsOk(threads: map<nat, L.Pc>, giving: set<nat>, out: set<nat>)
  {
    && Popped(threads) <= out
    && (forall t, u {:trigger threads[t], threads[u]} ::
        t in threads && u in threads && threads[t].Popped? && threads[t] == threads[u] ==> t == u)
    && (forall t, i {:trigger L.Pushes(threads[t], i)} :: t in threads && L.Pushes(threads[t], i) ==> i in giving)
  }

  ghost predicate SlotsOk(slots: seq<S.State>, out: set<nat>, popped: set<nat>, giving: set<nat>)
  {
    && (forall i {:trigger slots[i]} :: 0 <= i < |slots| ==> S.Inv(slots[i]))
    && (forall i {:trigger slots[i]} :: 0 <= i < |slots| ==> Linked(slots[i], i, out, popped, giving))
  }

  ghost predicate Inv(s: State, free: seq<nat>)
  {
    && L.Inv(s.list, free) && |s.slots| == |s.list.next|
    && ThreadsOk(s.list.threads, s.giving, s.list.out)
    && SlotsOk(s.slots, s.list.out, Popped(s.list.threads), s.giving)
  }

  /** What the two modules are asked for is what they allow. */
  ghost predicate Asks(s: State, step: Step)
  {
    match step
    case Local(i, st) => i < |s.slots| && S.Enabled(s.slots[i], st)
    case Claim(t) => L.Enabled(s.list, L.Pop(t))
    case Give(t, i) => L.Enabled(s.list, L.Push(t, i))
    case Go(t, spurious) =>
      && L.Enabled(s.list, L.Go(t, spurious))
      && (Gives(s.list, t, spurious) ==>
            var i := s.list.threads[t].mine;
            i < |s.slots| && S.AtPush(s.slots[i]) && S.Enabled(s.slots[i], PushOf(s.slots[i])))
    case Pair(t) =>
      && L.Enabled(s.list, L.Leave(t))
      && t in s.list.threads && s.list.threads[t].Popped?
      && s.list.threads[t].idx < |s.slots| && S.Enabled(s.slots[s.list.threads[t].idx], S.NewLife)
    case Fail(t) => L.Enabled(s.list, L.Leave(t))
  }

  /** A slot about to be pushed is not free. */
  lemma AtPushIsHeld(slot: S.State)
    requires S.Inv(slot) && S.AtPush(slot)
    ensures !slot.free && S.Enabled(slot, PushOf(slot)) && S.IsPush(slot, PushOf(slot))
  {
  }

  lemma AsksWhatIsAllowed(s: State, free: seq<nat>, step: Step)
    requires Inv(s, free) && Enabled(s, step)
    ensures Asks(s, step)
  {
    match step
    case Give(t, i) => MayGive(s, free, t, i);
    case Pair(t) =>
      PoppedIsFree(s, free, t);
      MayPair(s, t);
    case Go(t, spurious) => MayGo(s, free, t, spurious);
    case _ =>
  }

  lemma MayGive(s: State, free: seq<nat>, t: nat, i: nat)
    requires Inv(s, free) && Enabled(s, Give(t, i))
    ensures Asks(s, Give(t, i))
  {
    AtPushIsHeld(s.slots[i]);
    assert Linked(s.slots[i], i, s.list.out, Popped(s.list.threads), s.giving);
  }

  lemma MayPair(s: State, t: nat)
    requires t in s.list.threads && s.list.threads[t].Popped? && s.list.threads[t].idx < |s.slots|
    requires s.slots[s.list.threads[t].idx].free
    ensures Asks(s, Pair(t))
  {
  }

  lemma MayGo(s: State, free: seq<nat>, t: nat, spurious: bool)
    requires Inv(s, free) && Enabled(s, Go(t, spurious))
    ensures Asks(s, Go(t, spurious))
  {
    if Gives(s.list, t, spurious) {
      GivenIsAtPush(s, free, t);
    }
  }

  lemma PoppedIsFree(s: State, free: seq<nat>, t: nat)
    requires Inv(s, free) && t in s.list.threads && s.list.threads[t].Popped?
    ensures var i := s.list.threads[t].idx;
            i < |s.slots| && s.slots[i].free && i in s.list.out && i in Popped(s.list.threads)
  {
    var i := s.list.threads[t].idx;
    assert i in Popped(s.list.threads);
    assert Linked(s.slots[i], i, s.list.out, Popped(s.list.threads), s.giving);
  }

  lemma GivenIsAtPush(s: State, free: seq<nat>, t: nat)
    requires Inv(s, free) && t in s.list.threads && s.list.threads[t].PushSwapping?
    ensures var i := s.list.threads[t].mine;
            && i < |s.slots| && i in s.giving && i in s.list.out && i !in Popped(s.list.threads)
            && S.AtPush(s.slots[i]) && S.Enabled(s.slots[i], PushOf(s.slots[i])) &&
               S.IsPush(s.slots[i], PushOf(s.slots[i]))
  {
    var i := s.list.threads[t].mine;
    assert L.Remembers(s.list, s.list.threads[t]);
    assert L.Pushes(s.list.threads[t], i);
    assert Linked(s.slots[i], i, s.list.out, Popped(s.list.threads), s.giving);
    AtPushIsHeld(s.slots[i]);
  }

  // ------------------------------------------------------- every step keeps it

  lemma LocalKeeps(s: State, i: nat, st: S.Step)
    requires SlotsOk(s.slots, s.list.out, Popped(s.list.threads), s.giving)
    requires i < |s.slots| && S.Enabled(s.slots[i], st) && !st.NewLife? && !S.IsPush(s.slots[i], st)
    ensures SlotsOk(s.slots[i := S.Do(s.slots[i], st)], s.list.out, Popped(s.list.threads), s.giving)
  {
    S.StepKeeps(s.slots[i], st);
    var r := S.Do(s.slots[i], st);
    assert Linked(s.slots[i], i, s.list.out, Popped(s.list.threads), s.giving);
    OneSlot(s.slots, i, r, s.list.out, s.list.out, Popped(s.list.threads), Popped(s.list.threads), s.giving, s.giving);
  }

  /** One slot changes, and with it what is said of its index only. */
  lemma OneSlot(slots: seq<S.State>, i: nat, r: S.State, out: set<nat>, out': set<nat>, popped: set<nat>,
                popped': set<nat>,
                giving: set<nat>, giving': set<nat>)
    requires SlotsOk(slots, out, popped, giving) && i < |slots| && S.Inv(r) && Linked(r, i, out', popped', giving')
    requires forall j :: j != i ==> (j in out' <==> j in out)
    requires forall j :: j != i ==> (j in popped' <==> j in popped)
    requires forall j :: j != i ==> (j in giving' <==> j in giving)
    ensures SlotsOk(slots[i := r], out', popped', giving')
  {
    var slots' := slots[i := r];
    forall j | 0 <= j < |slots'|
      ensures S.Inv(slots'[j]) && Linked(slots'[j], j, out', popped', giving')
    {
      assert j != i ==> S.Inv(slots[j]) && Linked(slots[j], j, out, popped, giving);
    }
  }

  /** A thread comes, goes or moves on without a popped index; nothing else changes. */
  lemma ThreadMoves(threads: map<nat, L.Pc>, threads': map<nat, L.Pc>, t: nat, giving: set<nat>, giving': set<nat>,
                    out: set<nat>, out': set<nat>)
    requires ThreadsOk(threads, giving, out)
    requires forall u {:trigger threads'[u]} :: u in threads' && u != t ==> u in threads && threads'[u] == threads[u]
    requires forall u {:trigger threads[u]} :: u in threads && u != t ==> u in threads' && threads'[u] == threads[u]
    requires t in threads ==> !threads[t].Popped?
    requires t in threads' ==> !threads'[t].Popped? && forall i {:trigger L.Pushes(threads'[t], i)} ::
               L.Pushes(threads'[t], i) ==> i in giving'
    requires Popped(threads) <= out'
    requires forall u, i {:trigger L.Pushes(threads[u], i)} ::
               u in threads && u != t && L.Pushes(threads[u], i) ==> i in giving'
    ensures ThreadsOk(threads', giving', out') && Popped(threads') == Popped(threads)
  {
    forall i | i in Popped(threads')
      ensures i in Popped(threads)
    {
      var u :| u in threads' && threads'[u].Popped? && threads'[u].idx == i;
      assert threads[u] == threads'[u];
    }
    forall i | i in Popped(threads)
      ensures i in Popped(threads')
    {
      var u :| u in threads && threads[u].Popped? && threads[u].idx == i;
      assert threads'[u] == threads[u];
    }
    forall u, i | u in threads' && L.Pushes(threads'[u], i)
      ensures i in giving'
    {
      assert u != t ==> L.Pushes(threads[u], i);
    }
  }

  lemma ClaimKeeps(s: State, free: seq<nat>, t: nat)
    requires Inv(s, free) && Enabled(s, Claim(t))
    ensures Inv(Do(s, Claim(t)), free)
  {
    L.StepKeeps(s.list, free, L.Pop(t));
    var list := L.Do(s.list, L.Pop(t));
    ThreadMoves(s.list.threads, list.threads, t, s.giving, s.giving, s.list.out, list.out);
  }

  lemma FailKeeps(s: State, free: seq<nat>, t: nat)
    requires Inv(s, free) && Enabled(s, Fail(t))
    ensures Inv(Do(s, Fail(t)), free)
  {
    L.StepKeeps(s.list, free, L.Leave(t));
    var list := L.Do(s.list, L.Leave(t));
    ThreadMoves(s.list.threads, list.threads, t, s.giving, s.giving, s.list.out, list.out);
  }

  lemma GiveKeeps(s: State, free: seq<nat>, t: nat, i: nat)
    requires Inv(s, free) && Enabled(s, Give(t, i))
    ensures Inv(Do(s, Give(t, i)), free)
  {
    AsksWhatIsAllowed(s, free, Give(t, i));
    L.StepKeeps(s.list, free, L.Push(t, i));
    var list := L.Do(s.list, L.Push(t, i));
    ThreadMoves(s.list.threads, list.threads, t, s.giving, s.giving + {i}, s.list.out, list.out);
    assert Linked(s.slots[i], i, s.list.out, Popped(s.list.threads), s.giving);
    OneSlot(s.slots, i, s.slots[i], s.list.out, list.out, Popped(s.list.threads), Popped(list.threads), s.giving,
            s.giving + {i});
    assert s.slots[i := s.slots[i]] == s.slots;
  }

  lemma PairKeeps(s: State, free: seq<nat>, t: nat)
    requires Inv(s, free) && Enabled(s, Pair(t))
    ensures Inv(Do(s, Pair(t)), free)
  {
    AsksWhatIsAllowed(s, free, Pair(t));
    L.StepKeeps(s.list, free, L.Leave(t));
    PoppedIsFree(s, free, t);
    var list, i := L.Do(s.list, L.Leave(t)), s.list.threads[t].idx;
    PopperLeaves(s.list.threads, t, s.giving, s.list.out);
    S.StepKeeps(s.slots[i], S.NewLife);
    NotGiving(s, free, i);
    OneSlot(s.slots, i, S.Do(s.slots[i], S.NewLife), s.list.out, list.out, Popped(s.list.threads),
            Popped(list.threads), s.giving, s.giving);
  }

  lemma NotGiving(s: State, free: seq<nat>, i: nat)
    requires Inv(s, free) && i < |s.slots| && s.slots[i].free
    ensures i !in s.giving
  {
    assert Linked(s.slots[i], i, s.list.out, Popped(s.list.threads), s.giving);
    if i in s.giving {
      AtPushIsHeld(s.slots[i]);
    }
  }

  lemma PopperLeaves(threads: map<nat, L.Pc>, t: nat, giving: set<nat>, out: set<nat>)
    requires ThreadsOk(threads, giving, out) && t in threads && threads[t].Popped?
    ensures ThreadsOk(threads - {t}, giving, out) && Popped(threads - {t}) == Popped(threads) - {threads[t].idx}
  {
    var rest := threads - {t};
    forall i | i in Popped(threads) && i != threads[t].idx
      ensures i in Popped(rest)
    {
      var u :| u in threads && threads[u].Popped? && threads[u].idx == i;
      assert rest[u] == threads[u];
    }
    forall i | i in Popped(rest)
      ensures i in Popped(threads) && i != threads[t].idx
    {
      var u :| u in rest && rest[u].Popped? && rest[u].idx == i;
      assert threads[u] == rest[u];
      assert threads[u] == threads[t] ==> u == t;
    }
  }

  ghost predicate Takes(list: L.State, t: nat, spurious: bool)
  {
    t in list.threads && list.threads[t].PopSwapping? && !spurious && L.SameWord(list.head, list.threads[t].seen)
  }

  /** Any other step of `pop` or `push` changes who stands where, and no more. */
  lemma QuietGo(list: L.State, t: nat, spurious: bool)
    requires L.Enabled(list, L.Go(t, spurious)) && !Takes(list, t, spurious) && !Gives(list, t, spurious)
    ensures var r := L.GoStep(list, t, spurious);
            && r.out == list.out && |r.next| == |list.next| && t in r.threads &&
               r.threads == list.threads[t := r.threads[t]]
            && !r.threads[t].Popped?
            && forall i {:trigger L.Pushes(r.threads[t], i)} ::
                 L.Pushes(r.threads[t], i) ==> L.Pushes(list.threads[t], i)
  {
  }

  lemma QuietGoKeeps(s: State, free: seq<nat>, t: nat, spurious: bool)
    requires Inv(s, free) && Enabled(s, Go(t, spurious)) && !Takes(s.list, t, spurious) && !Gives(s.list, t, spurious)
    ensures Inv(Do(s, Go(t, spurious)), L.FreeAfter(s.list, free, L.Go(t, spurious)))
  {
    L.StepKeeps(s.list, free, L.Go(t, spurious));
    QuietGo(s.list, t, spurious);
    var list := L.GoStep(s.list, t, spurious);
    ThreadMoves(s.list.threads, list.threads, t, s.giving, s.giving, s.list.out, list.out);
  }

  /** A pop succeeds. */
  lemma TakeKeeps(s: State, free: seq<nat>, t: nat, spurious: bool)
    requires Inv(s, free) && Enabled(s, Go(t, spurious)) && Takes(s.list, t, spurious)
    ensures Inv(Do(s, Go(t, spurious)), L.FreeAfter(s.list, free, L.Go(t, spurious)))
  {
    L.StepKeeps(s.list, free, L.Go(t, spurious));
    var i := s.list.threads[t].seen.idx;
    var list := L.GoStep(s.list, t, spurious);
    TakesAFreeSlot(s, free, t, i);
    PopperArrives(s.list.threads, t, i, s.giving, s.list.out);
    assert Linked(s.slots[i], i, s.list.out, Popped(s.list.threads), s.giving);
    OneSlot(s.slots, i, s.slots[i], s.list.out, list.out, Popped(s.list.threads), Popped(list.threads), s.giving,
            s.giving);
    assert s.slots[i := s.slots[i]] == s.slots;
  }

  lemma TakesAFreeSlot(s: State, free: seq<nat>, t: nat, i: nat)
    requires Inv(s, free) && t in s.list.threads && s.list.threads[t].PopSwapping? && i == s.list.threads[t].seen.idx
    requires L.SameWord(s.list.head, s.list.threads[t].seen) && L.Unwrapped(s.list, t)
    ensures i < |s.slots| && i !in s.list.out
  {
    assert L.Remembers(s.list, s.list.threads[t]);
    L.UnwrappedTagIsExact(s.list.head, s.list.threads[t].seen);
    L.PopKeeps(s.list, free, t);
  }

  lemma PopperArrives(threads: map<nat, L.Pc>, t: nat, i: nat, giving: set<nat>, out: set<nat>)
    requires ThreadsOk(threads, giving, out) && t in threads && !threads[t].Popped? && i !in out
    ensures ThreadsOk(threads[t := L.Popped(i)], giving, out + {i})
    ensures Popped(threads[t := L.Popped(i)]) == Popped(threads) + {i}
  {
    var all := threads[t := L.Popped(i)];
    assert all[t] == L.Popped(i);
    forall j | j in Popped(threads)
      ensures j in Popped(all)
    {
      var u :| u in threads && threads[u].Popped? && threads[u].idx == j;
      assert all[u] == threads[u];
    }
    forall u, v | u in all && v in all && all[u].Popped? && all[u] == all[v]
      ensures u == v
    {
      assert u != t ==> threads[u].idx in Popped(threads);
      assert v != t ==> threads[v].idx in Popped(threads);
    }
  }

  /** A push succeeds. */
  lemma GivenBackKeeps(s: State, free: seq<nat>, t: nat, spurious: bool)
    requires Inv(s, free) && Enabled(s, Go(t, spurious)) && Gives(s.list, t, spurious)
    ensures Inv(Do(s, Go(t, spurious)), L.FreeAfter(s.list, free, L.Go(t, spurious)))
  {
    L.StepKeeps(s.list, free, L.Go(t, spurious));
    var i := s.list.threads[t].mine;
    var list := L.GoStep(s.list, t, spurious);
    GivenIsAtPush(s, free, t);
    OthersPushOthers(s, free, t);
    ThreadMoves(s.list.threads, list.threads, t, s.giving, s.giving - {i}, s.list.out, list.out);
    S.StepKeeps(s.slots[i], PushOf(s.slots[i]));
    OneSlot(s.slots, i, S.Do(s.slots[i], PushOf(s.slots[i])), s.list.out, list.out, Popped(s.list.threads),
            Popped(list.threads),
            s.giving, s.giving - {i});
  }

  lemma OthersPushOthers(s: State, free: seq<nat>, t: nat)
    requires Inv(s, free) && t in s.list.threads && s.list.threads[t].PushSwapping?
    ensures forall u, i {:trigger L.Pushes(s.list.threads[u], i)} ::
              u in s.list.threads && u != t && L.Pushes(s.list.threads[u], i) ==>
              i in s.giving - {s.list.threads[t].mine}
  {
    assert L.Pushes(s.list.threads[t], s.list.threads[t].mine);
  }

  lemma StepKeeps(s: State, free: seq<nat>, step: Step) returns (free': seq<nat>)
    requires Inv(s, free) && Enabled(s, step)
    ensures Inv(Do(s, step), free')
  {
    free' := free;
    match step
    case Local(i, st) => LocalKeeps(s, i, st);
    case Claim(t) => ClaimKeeps(s, free, t);
    case Give(t, i) => GiveKeeps(s, free, t, i);
    case Pair(t) => PairKeeps(s, free, t);
    case Fail(t) => FailKeeps(s, free, t);
    case Go(t, spurious) =>
      free' := L.FreeAfter(s.list, free, L.Go(t, spurious));
      if Takes(s.list, t, spurious) {
        TakeKeeps(s, free, t, spurious);
      } else if Gives(s.list, t, spurious) {
        GivenBackKeeps(s, free, t, spurious);
      } else {
        QuietGoKeeps(s, free, t, spurious);
      }
  }

  // ----------------------------------------------------------------- whole runs

  ghost predicate IsRun(capacity: nat, steps: seq<Step>, states: seq<State>)
  {
    && |states| == |steps| + 1 && states[0] == Init(capacity)
    && forall i :: 0 <= i < |steps| ==> Enabled(states[i], steps[i]) && states[i + 1] == Do(states[i], steps[i])
  }

  lemma {:induction false} EveryRunKeeps(capacity: nat, steps: seq<Step>, states: seq<State>,
                                         n: nat) returns (free: seq<nat>)
    requires IsRun(capacity, steps, states) && n < |states|
    ensures Inv(states[n], free)
  {
    if n == 0 {
      free := InitOk(capacity);
    } else {
      free := EveryRunKeeps(capacity, steps, states, n - 1);
      free := StepKeeps(states[n - 1], free, steps[n - 1]);
    }
  }

  lemma InitOk(capacity: nat) returns (free: seq<nat>)
    ensures Inv(Init(capacity), free)
  {
    var list := L.Init(capacity);
    free := L.EveryRunKeeps(capacity, [], [list], 0);
    assert Popped(list.threads) == {};
  }

  /** In every run of the pool, whatever the threads and handles do, each push and each new life is one that the list
        and the slot allow: a slot is pushed while it is out, by nobody else at the time, and handed out again only
        when both handles of its last life have exited and it is clear. */
  lemma ThePoolComposes(capacity: nat, steps: seq<Step>, states: seq<State>, n: nat)
    requires IsRun(capacity, steps, states) && n < |steps|
    ensures Asks(states[n], steps[n])
    ensures var s := states[n];
            steps[n].Pair? ==>
              var slot := s.slots[s.list.threads[steps[n].t].idx];
              slot.free && slot.sender == S.SExited && slot.receiver == S.RExited && slot.bits == S.ZERO
  {
    var free := EveryRunKeeps(capacity, steps, states, n);
    AsksWhatIsAllowed(states[n], free, steps[n]);
    if steps[n].Pair? {
      PoppedIsFree(states[n], free, steps[n].t);
    }
  }

  /** In every run, a slot is in the list, or out and in one life, or out between its pop and its pair. */
  lemma SlotsAreSomewhere(capacity: nat, steps: seq<Step>, states: seq<State>, n: nat)
    requires IsRun(capacity, steps, states) && n < |states|
    ensures var s := states[n];
            exists free :: L.Sound(s.list, free) && forall i ::
                  0 <= i < |s.slots| ==> (i in free <==> s.slots[i].free && i !in Popped(s.list.threads))
  {
    var s := states[n];
    var free := EveryRunKeeps(capacity, steps, states, n);
    forall i | 0 <= i < |s.slots|
      ensures i in free <==> s.slots[i].free && i !in Popped(s.list.threads)
    {
      assert Linked(s.slots[i], i, s.list.out, Popped(s.list.threads), s.giving);
    }
    assert L.Sound(s.list, free);
  }
}
