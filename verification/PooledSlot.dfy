/**
 One slot of the pool through its lives. In each life a sender and a receiver race on the
 state bits; whoever exits last clears the slot and pushes it back. A sender that announced
 a wake may still be about to touch the waker when the slot is already someone else's.
 Every operation on the state word, the cell or the waker is one step.
 */
module PooledSlot {
  import opened Options

  datatype Bits = Bits(value: bool, senderGone: bool, receiverGone: bool, waiting: bool)

  const ZERO := Bits(false, false, false, false)

  /** What became of a value. */
  datatype Fate = Pending | Received | Returned | Discarded

  datatype SenderPc =
    | SHeld             // holds its handle
    | SPublishing       // wrote the cell, about to set VALUE
    | SReturning        // receiver gone, about to take the value back
    | SClearing         // last out, about to take the waker if one was announced
    | SZeroing          // about to store 0
    | SPushing          // about to push the slot
    | SExited

  datatype ReceiverPc =
    | RIdle             // between calls
    | RLoading          // polling, about to load the state
    | RAnnouncing       // about to set WAITING
    | RRegistering      // about to register its waker
    | RReloading        // about to load the state again
    | RTrying           // try_recv, about to load the state
    | RMarking          // try_recv saw the value, about to set TAKEN
    | RReading          // saw the value, about to read it
    | RClosing          // about to load the state
    | RDiscarding       // saw a value nobody took, about to drop it
    | RLeaving(saw: bool)   // about to set RECEIVER_GONE
    | RLate             // a value came in between, about to drop it
    | RClearing         // last out, about to take the waker if one was announced
    | RZeroing          // about to store 0
    | RPushing          // about to push the slot
    | RExited

  datatype State = State(
    bits: Bits,
    full: bool,                 // the cell holds a value nobody has taken or dropped
    waker: Option<nat>,         // the life whose receiver is registered
    sender: SenderPc, receiver: ReceiverPc,
    done: bool, waitingSet: bool,
    free: bool, life: nat,
    // what happened in this life
    sent: bool, fate: Fate, pushes: nat,
    parked: bool,               // the receiver's last poll returned Pending
    woken: bool,                // a wake was delivered since its last poll began
    takers: set<nat>,           // lives whose sender is about to take the waker and wake it
    owed: multiset<nat>)        // lives whose receiver's waker was taken and not yet woken

  datatype Step =
    | Send | CloseSender | SenderGo
    | Poll | TryRecv | CloseReceiver | ReceiverGo
    | TakeWaker(of: nat) | Deliver(to: nat)
    | NewLife

  function Init(): (s: State)
  {
    State(ZERO, false, None, SExited, RExited, true, false, true, 0, false, Pending, 1, false, false, {}, multiset{})
  }

  predicate Enabled(s: State, step: Step)
  {
    match step
    case Send => s.sender == SHeld
    case CloseSender => s.sender == SHeld
    case SenderGo => s.sender != SHeld && s.sender != SExited
    case Poll => s.receiver == RIdle && !s.done
    case TryRecv => s.receiver == RIdle && !s.done
    case CloseReceiver => s.receiver == RIdle
    case ReceiverGo => s.receiver != RIdle && s.receiver != RExited
    case TakeWaker(of) => of in s.takers
    case Deliver(to) => to in s.owed
    case NewLife => s.free
  }

  /** After the sender's exit from bits `was`. */
  function SenderOut(s: State, was: Bits, returning: SenderPc): (r: State)
  {
    if was.receiverGone then s.(sender := returning)
    else s.(sender := SExited, takers := if was.waiting then s.takers + {s.life} else s.takers)
  }

  function Clear(s: State): (r: State)
  {
    if s.bits.waiting then s.(waker := None) else s
  }

  function SenderAct(s: State): (r: State)
  {
    match s.sender
    case SPublishing => SenderOut(s.(bits := s.bits.(value := true)), s.bits, SReturning)
    case SReturning => s.(full := false, fate := Returned, sender := SClearing)
    case SClearing => Clear(s).(sender := SZeroing)
    case SZeroing => s.(bits := ZERO, sender := SPushing)
    case SPushing => s.(free := true, pushes := s.pushes + 1, sender := SExited)
    case _ => s
  }

  function ReceiverAct(s: State): (r: State)
  {
    match s.receiver
    case RLoading =>
      if s.bits.value then s.(receiver := RReading)
      else if s.bits.senderGone then s.(done := true, receiver := RIdle)
      else s.(receiver := if s.waitingSet then RRegistering else RAnnouncing)
    case RAnnouncing => s.(bits := s.bits.(waiting := true), waitingSet := true, receiver := RRegistering)
    case RRegistering => s.(waker := Some(s.life), receiver := RReloading)
    case RReloading =>
      if s.bits.value then s.(receiver := RReading)
      else if s.bits.senderGone then s.(done := true, receiver := RIdle)
      else s.(parked := true, receiver := RIdle)
    case RTrying =>
      if s.bits.value then s.(receiver := RMarking)
      else s.(done := s.bits.senderGone, receiver := RIdle)
    case RMarking => s.(receiver := RReading)
    case RReading => s.(full := false, fate := Received, done := true, receiver := RIdle)
    case RClosing => s.(receiver := if s.bits.value then RDiscarding else RLeaving(false))
    case RDiscarding => s.(full := false, fate := Discarded, receiver := RLeaving(true))
    case RLeaving(saw) =>
      var r := s.(bits := s.bits.(receiverGone := true));
      if s.bits.value && !saw then r.(receiver := RLate)
      else r.(receiver := if s.bits.value || s.bits.senderGone then RClearing else RExited)
    case RLate => s.(full := false, fate := Discarded, receiver := RClearing)
    case RClearing => Clear(s).(receiver := RZeroing)
    case RZeroing => s.(bits := ZERO, receiver := RPushing)
    case RPushing => s.(free := true, pushes := s.pushes + 1, receiver := RExited)
    case _ => s
  }

  function Do(s: State, step: Step): (r: State)
  {
    match step
    case Send => s.(full := true, sent := true, sender := SPublishing)
    case CloseSender => SenderOut(s.(bits := s.bits.(senderGone := true)), s.bits, SClearing)
    case SenderGo => SenderAct(s)
    case Poll => s.(parked := false, woken := false, receiver := RLoading)
    case TryRecv => s.(parked := false, receiver := RTrying)
    case CloseReceiver =>
        if s.done then s.(parked := false, receiver := RClearing)
        else s.(parked := false, done := true, receiver := RClosing)
    case ReceiverGo => ReceiverAct(s)
    case TakeWaker(of) =>
      var r := s.(takers := s.takers - {of});
      if s.waker.Some? then r.(waker := None, owed := s.owed + multiset{s.waker.value}) else r
    case Deliver(to) => s.(owed := s.owed - multiset{to}, woken := s.woken || to == s.life)
    case NewLife =>
      s.(life := s.life + 1, free := false, sender := SHeld, receiver := RIdle, done := false, waitingSet := false,
         sent := false, fate := Pending, pushes := 0, parked := false, woken := false)
  }

  // ------------------------------------------------------------- the invariant

  predicate SenderRecycles(s: State) { s.sender.SReturning? || s.sender.SClearing? || s.sender.SZeroing? ||
                                      s.sender.SPushing? }

  predicate ReceiverRecycles(s: State) { s.receiver.RLate? || s.receiver.RClearing? || s.receiver.RZeroing? ||
                                        s.receiver.RPushing? }

  predicate Zeroed(s: State) { s.free || s.sender.SPushing? || s.receiver.RPushing? }

  predicate SenderOutYet(s: State) { !s.sender.SHeld? && !s.sender.SPublishing? }

  /** The two exits decide who recycles: exactly one, after both. */
  ghost predicate ExitsOk(s: State)
  {
    && (s.free <==> s.pushes == 1) && s.pushes <= 1
    && (s.free ==> s.sender == SExited && s.receiver == RExited)
    && (SenderRecycles(s) ==> s.receiver == RExited)
    && (ReceiverRecycles(s) ==> s.sender == SExited)
    && (s.receiver == RExited && !s.free ==> s.sender != SExited)
  }

  /** The bits say what has happened in this life, until they are cleared. */
  ghost predicate BitsOk(s: State)
  {
    if Zeroed(s) then s.bits == ZERO
    else
      && (s.bits.value || s.bits.senderGone <==> SenderOutYet(s)) && !(s.bits.value && s.bits.senderGone)
      && (s.bits.value ==> s.sent) && (s.sent ==> s.bits.value || s.sender == SPublishing)
      && (s.bits.receiverGone ==> s.receiver == RExited || ReceiverRecycles(s))
      && (s.receiver == RExited || s.receiver == RLate ==> s.bits.receiverGone)
      && (s.bits.waiting <==> s.waitingSet)
  }

  /** The cell holds the value exactly from the write until its one end. */
  ghost predicate CellOk(s: State)
  {
    && (s.full <==> s.sent && s.fate == Pending)
    && (s.fate != Pending ==> s.sent)
    && (s.sender == SHeld ==> !s.sent)
    && (s.sender == SPublishing ==> s.sent && s.fate == Pending)
    && (s.sender == SReturning ==> s.full)
    && (s.receiver == RReading || s.receiver == RMarking || s.receiver == RDiscarding || s.receiver == RLate ==>
        s.full && s.bits.value)
  }

  predicate Receiving(s: State)
  {
    || s.receiver == RLoading || s.receiver == RAnnouncing || s.receiver == RRegistering || s.receiver == RReloading
    || s.receiver == RTrying || s.receiver == RMarking || s.receiver == RReading
  }

  predicate PastTheValue(s: State)
  {
    || s.receiver == RClearing || s.receiver == RZeroing || s.receiver == RPushing
    || s.sender == SClearing || s.sender == SZeroing || s.sender == SPushing || s.free
  }

  predicate Closing(s: State)
  {
    || s.receiver == RExited || ReceiverRecycles(s) || s.receiver == RDiscarding || s.receiver == RClosing
    || s.receiver.RLeaving?
  }

  /** Where the receiver stands on the value. */
  ghost predicate ReceiverOk(s: State)
  {
    && (!s.done ==> s.fate == Pending)
    && (Receiving(s) ==> !s.done)
    && (Closing(s) ==> s.done)
    && (s.receiver == RIdle && s.done ==> SenderOutYet(s) && s.fate == (if s.sent then Received else Pending))
    && (s.receiver == RClosing ==> s.fate == Pending)
    && (s.receiver.RLeaving? ==> if s.receiver.saw then s.bits.value && s.fate == Discarded else s.fate == Pending)
    && (PastTheValue(s) && s.sent ==> s.fate != Pending)
  }

  /** A registered waker belongs to this life's receiver, which announced itself first. */
  ghost predicate WakerOk(s: State)
  {
    && (s.waker.Some? ==>
        s.waker.value == s.life && s.waitingSet && !Zeroed(s) && s.sender != SZeroing && s.receiver != RZeroing)
    && (s.receiver == RRegistering || s.receiver == RReloading ==> s.waitingSet)
    && (s.receiver == RAnnouncing ==> !s.waitingSet)
    && (forall l :: l in s.takers ==> l <= s.life) && (forall l :: l in s.owed ==> l <= s.life)
  }

  /** A registration is there, or was taken with a wake that is owed or delivered. */
  ghost predicate Reachable(s: State)
  {
    s.waker == Some(s.life) || s.life in s.owed || s.woken
  }

  ghost predicate WakesOk(s: State)
  {
    && (s.parked ==> s.receiver == RIdle && !s.done && s.waitingSet)
    && (s.parked || s.receiver == RReloading ==> Reachable(s))
    && (s.parked && (s.bits.value || s.bits.senderGone) ==> s.life in s.takers || s.life in s.owed || s.woken)
  }

  ghost predicate Inv(s: State)
  {
    ExitsOk(s) && BitsOk(s) && CellOk(s) && ReceiverOk(s) && WakerOk(s) && WakesOk(s)
  }

  /** A step that moves the value out of the cell, or drops it there. */
  predicate TakesValue(s: State, step: Step)
  {
    || (step.ReceiverGo? && (s.receiver.RReading? || s.receiver.RDiscarding? || s.receiver.RLate?))
    || (step.SenderGo? && s.sender.SReturning?)
  }

  /** The sender takes its value back, a receive call receives it, a close drops it. */
  function EndedBy(s: State, step: Step): (fate: Fate)
    ensures fate != Pending
  {
    if step.SenderGo? then Returned else if s.receiver.RReading? then Received else Discarded
  }

  /** A step takes the value out exactly when it ends it, it finds it in the cell, and none ends it again. */
  ghost predicate EndsAValue(s: State, step: Step, r: State)
  {
    && (TakesValue(s, step) ==>
        s.full && s.fate == Pending && !r.full && r.fate == EndedBy(s, step) && r.life == s.life)
    && (r.life == s.life && r.fate != s.fate ==> TakesValue(s, step))
    && (r.life == s.life || (r.life == s.life + 1 && r.fate == Pending))
  }

  /** A handle is last out and has cleared the slot. */
  predicate AtPush(s: State)
  {
    s.sender.SPushing? || s.receiver.RPushing?
  }

  predicate IsPush(s: State, step: Step)
  {
    (step.SenderGo? && s.sender.SPushing?) || (step.ReceiverGo? && s.receiver.RPushing?)
  }

  /** Only the push frees the slot and only a new life takes it; a handle about to push stays so until it does. */
  ghost predicate ChangesHands(s: State, step: Step, r: State)
  {
    && (IsPush(s, step) ==> !s.free && r.free)
    && (step.NewLife? ==> !r.free && !AtPush(r))
    && (!IsPush(s, step) && !step.NewLife? ==> r.free == s.free && (AtPush(s) ==> AtPush(r)))
  }

  ghost predicate Effects(s: State, step: Step, r: State)
  {
    Inv(r) && EndsAValue(s, step, r) && ChangesHands(s, step, r)
  }

  // Every step keeps it; one lemma for each part of each side's code.

  lemma SenderSends(s: State)
    requires Inv(s) && Enabled(s, Send)
    ensures Effects(s, Send, Do(s, Send))
  {
  }

  lemma SenderCloses(s: State)
    requires Inv(s) && Enabled(s, CloseSender)
    ensures Effects(s, CloseSender, Do(s, CloseSender))
  {
  }

  lemma SenderPublishesToNobody(s: State)
    requires Inv(s) && s.sender == SPublishing && s.bits.receiverGone
    ensures Effects(s, SenderGo, SenderAct(s))
  {
  }

  lemma SenderPublishes(s: State)
    requires Inv(s) && s.sender == SPublishing && !s.bits.receiverGone
    ensures Effects(s, SenderGo, SenderAct(s))
  {
  }

  lemma SenderRecycling(s: State)
    requires Inv(s) && SenderRecycles(s)
    ensures Effects(s, SenderGo, SenderAct(s))
  {
  }

  lemma ReceiverLoads(s: State)
    requires Inv(s) && s.receiver == RLoading
    ensures Effects(s, ReceiverGo, ReceiverAct(s))
  {
  }

  lemma ReceiverTries(s: State)
    requires Inv(s) && s.receiver == RTrying
    ensures Effects(s, ReceiverGo, ReceiverAct(s))
  {
  }

  lemma ReceiverReloads(s: State)
    requires Inv(s) && s.receiver == RReloading
    ensures Effects(s, ReceiverGo, ReceiverAct(s))
  {
  }

  lemma ReceiverRegisters(s: State)
    requires Inv(s) && (s.receiver == RAnnouncing || s.receiver == RRegistering)
    ensures Effects(s, ReceiverGo, ReceiverAct(s))
  {
  }

  lemma ReceiverTakes(s: State)
    requires Inv(s) && (s.receiver == RMarking || s.receiver == RReading)
    ensures Effects(s, ReceiverGo, ReceiverAct(s))
  {
  }

  lemma ReceiverCloses(s: State)
    requires Inv(s) && (s.receiver == RClosing || s.receiver == RDiscarding || s.receiver == RLate)
    ensures Effects(s, ReceiverGo, ReceiverAct(s))
  {
  }

  lemma ReceiverLeaves(s: State)
    requires Inv(s) && s.receiver.RLeaving?
    ensures Effects(s, ReceiverGo, ReceiverAct(s))
  {
  }

  lemma ReceiverRecycling(s: State)
    requires Inv(s) && (s.receiver == RClearing || s.receiver == RZeroing || s.receiver == RPushing)
    ensures Effects(s, ReceiverGo, ReceiverAct(s))
  {
  }

  lemma ReceiverBegins(s: State, step: Step)
    requires Inv(s) && Enabled(s, step) && (step.Poll? || step.TryRecv?)
    ensures Effects(s, step, Do(s, step))
  {
  }

  lemma ReceiverBeginsToClose(s: State)
    requires Inv(s) && Enabled(s, CloseReceiver)
    ensures Effects(s, CloseReceiver, Do(s, CloseReceiver))
  {
  }

  lemma WakersKeep(s: State, step: Step)
    requires Inv(s) && Enabled(s, step) && (step.TakeWaker? || step.Deliver?)
    ensures Effects(s, step, Do(s, step))
  {
  }

  lemma NewLifeKeeps(s: State)
    requires Inv(s) && s.free
    ensures Effects(s, NewLife, Do(s, NewLife))
  {
  }

  lemma SenderGoes(s: State)
    requires Inv(s) && Enabled(s, SenderGo)
    ensures Effects(s, SenderGo, SenderAct(s))
  {
    if s.sender != SPublishing {
      SenderRecycling(s);
    } else if s.bits.receiverGone {
      SenderPublishesToNobody(s);
    } else {
      SenderPublishes(s);
    }
  }

  lemma ReceiverGoes(s: State)
    requires Inv(s) && Enabled(s, ReceiverGo)
    ensures Effects(s, ReceiverGo, ReceiverAct(s))
  {
    match s.receiver
    case RLoading => ReceiverLoads(s);
    case RTrying => ReceiverTries(s);
    case RReloading => ReceiverReloads(s);
    case RAnnouncing => ReceiverRegisters(s);
    case RRegistering => ReceiverRegisters(s);
    case RMarking => ReceiverTakes(s);
    case RReading => ReceiverTakes(s);
    case RLeaving(_) => ReceiverLeaves(s);
    case RClosing => ReceiverCloses(s);
    case RDiscarding => ReceiverCloses(s);
    case RLate => ReceiverCloses(s);
    case _ => ReceiverRecycling(s);
  }

  lemma StepKeeps(s: State, step: Step)
    requires Inv(s) && Enabled(s, step)
    ensures Effects(s, step, Do(s, step))
  {
    match step
    case Send => SenderSends(s);
    case CloseSender => SenderCloses(s);
    case SenderGo => SenderGoes(s);
    case ReceiverGo => ReceiverGoes(s);
    case TakeWaker(_) => WakersKeep(s, step);
    case Deliver(_) => WakersKeep(s, step);
    case NewLife => NewLifeKeeps(s);
    case CloseReceiver => ReceiverBeginsToClose(s);
    case _ => ReceiverBegins(s, step);
  }

  // ----------------------------------------------------------------- whole runs

  ghost predicate IsRun(steps: seq<Step>, states: seq<State>)
  {
    && |states| == |steps| + 1 && states[0] == Init()
    && forall i :: 0 <= i < |steps| ==> Enabled(states[i], steps[i]) && states[i + 1] == Do(states[i], steps[i])
  }

  lemma {:induction false} EveryRunKeeps(steps: seq<Step>, states: seq<State>, n: nat)
    requires IsRun(steps, states) && n < |states|
    ensures Inv(states[n])
  {
    if n > 0 {
      EveryRunKeeps(steps, states, n - 1);
      StepKeeps(states[n - 1], steps[n - 1]);
    }
  }

  /** In every interleaving, a value is in the cell from its write until it is received, returned or dropped; the step
        that takes it finds it there and is the only one to end it; and no life ends with a value still in the
        cell. */
  lemma ValuesEndExactlyOnce(steps: seq<Step>, states: seq<State>, n: nat)
    requires IsRun(steps, states) && n < |steps|
    ensures var s := states[n];
            && (s.full <==> s.sent && s.fate == Pending)
            && (s.free ==> !s.full && (s.sent ==> s.fate != Pending))
    ensures EndsAValue(states[n], steps[n], states[n + 1])
  {
    EveryRunKeeps(steps, states, n);
    StepKeeps(states[n], steps[n]);
  }

  /** How often a value was taken out of the cell in one life. */
  ghost function Taken(steps: seq<Step>, states: seq<State>, n: nat, life: nat): (k: nat)
    requires |states| == |steps| + 1 && n <= |steps|
  {
    if n == 0 then 0
    else Taken(steps, states, n - 1, life) + (if states[n - 1].life == life &&
                                              TakesValue(states[n - 1], steps[n - 1]) then 1 else 0)
  }

  /** Counted: a life takes one value if one was sent and has ended, and never two. */
  lemma {:induction false} ValuesAreTakenOnce(steps: seq<Step>, states: seq<State>, n: nat, life: nat)
    requires IsRun(steps, states) && n < |states|
    ensures var s, k := states[n], Taken(steps, states, n, life);
            if life < s.life then k <= 1 else k == (if life == s.life && s.fate != Pending then 1 else 0)
  {
    if n > 0 {
      ValuesAreTakenOnce(steps, states, n - 1, life);
      ValuesEndExactlyOnce(steps, states, n - 1);
    }
  }

  /** In every life the slot is pushed back at most once, by one side, and only when the other has
      exited; it is free exactly when that has happened. */
  lemma OneSidePushesAfterBothExit(steps: seq<Step>, states: seq<State>, n: nat)
    requires IsRun(steps, states) && n < |steps|
    ensures var s := states[n]; s.pushes <= 1 && (s.free <==> s.pushes == 1)
    ensures var s, r := states[n], states[n + 1];
            r.life == s.life && r.pushes > s.pushes ==>
              && s.pushes == 0 && r.sender == SExited && r.receiver == RExited
              && ((s.sender == SPushing && s.receiver == RExited) || (s.receiver == RPushing && s.sender == SExited))
  {
    EveryRunKeeps(steps, states, n);
    assert Enabled(states[n], steps[n]) && states[n + 1] == Do(states[n], steps[n]);
  }

  /** A receiver whose last poll returned Pending and whose sender has since sent or closed has its wake:
      delivered, owed by whoever took its waker, or about to be taken. A sender of an earlier life that
      takes the waker still wakes it. */
  lemma NoWakeIsLost(steps: seq<Step>, states: seq<State>, n: nat)
    requires IsRun(steps, states) && n < |states|
    ensures var s := states[n];
            s.parked && (s.bits.value || s.bits.senderGone) ==> s.woken || s.life in s.owed || s.life in s.takers
    ensures var s := states[n];
            s.parked && (s.bits.value || s.bits.senderGone) && s.takers == {} && s.owed == multiset{} ==> s.woken
  {
    EveryRunKeeps(steps, states, n);
  }
}
