/**
 A slot in storage its two handles share, which whoever exits last must free. A sender that
 found WAITING set wakes the receiver after its exit and then seals the slot; a receiver that
 frees first waits for the seal, if one will come. Every operation on the slot is one step.
 */
module OwnedSlot {

  datatype Bits = Bits(value: bool, taken: bool, senderGone: bool, receiverGone: bool, sealed: bool, waiting: bool)

  datatype SenderPc =
    | SHeld             // holds its handle
    | SPublishing       // wrote the cell, about to set VALUE
    | SReturning        // receiver gone, about to take the value back
    | SFreeing          // last out, about to free the storage
    | SWaking           // about to wake the receiver
    | SSealing          // about to set SEALED
    | SExited

  datatype ReceiverPc =
    | RIdle             // between calls
    | RLoading          // polling, about to load the state
    | RAnnouncing       // about to set WAITING
    | RRegistering      // about to register its waker
    | RReloading        // about to load the state again
    | RTrying           // try_recv, about to load the state
    | RTaking           // saw the value, about to set TAKEN and read it
    | RClosing          // about to load the state
    | RDiscarding       // saw a value nobody took, about to set TAKEN and drop it
    | RLeaving          // about to set RECEIVER_GONE
    | RSpinning         // about to look for SEALED
    | RFreeing          // about to free the storage
    | RExited

  datatype State = State(
    bits: Bits, sender: SenderPc, receiver: ReceiverPc,
    done: bool, waitingSet: bool, sealExpected: bool,
    frees: nat,         // how often the storage was freed
    // what happened to the value
    sent: bool, refused: bool,
    received: nat, returned: nat, dropped: nat,
    // what happened to the receiver's waker
    registered: bool,   // the slot holds it
    parked: bool,       // the receiver's last poll returned Pending
    woken: bool)        // it was woken since that poll began

  datatype Step = Send | CloseSender | SenderGo | Poll | TryRecv | CloseReceiver | ReceiverGo

  function Init(): (s: State)
  {
    State(Bits(false, false, false, false, false, false), SHeld, RIdle, false, false, false, 0, false, false, 0, 0, 0,
          false, false, false)
  }

  predicate Enabled(s: State, step: Step)
  {
    match step
    case Send => s.sender == SHeld
    case CloseSender => s.sender == SHeld
    case SenderGo => s.sender != SHeld && s.sender != SExited
    case Poll => s.receiver == RIdle
    case TryRecv => s.receiver == RIdle && !s.done
    case CloseReceiver => s.receiver == RIdle
    case ReceiverGo => s.receiver != RIdle && s.receiver != RExited
  }

  function SenderOut(s: State, was: Bits, last: SenderPc): (r: State)
  {
    s.(sender := if was.receiverGone then last else if was.waiting then SWaking else SExited)
  }

  function SenderAct(s: State): (r: State)
  {
    match s.sender
    case SPublishing =>
        SenderOut(s.(bits := s.bits.(value := true), refused := s.bits.receiverGone), s.bits, SReturning)
    case SReturning => s.(returned := s.returned + 1, sender := SFreeing)
    case SFreeing => Freed(s).(sender := SExited)
    case SWaking => s.(woken := s.woken || s.registered, registered := false, sender := SSealing)
    case SSealing => s.(bits := s.bits.(sealed := true), sender := SExited)
    case _ => s
  }

  /** The storage goes, and with it a value marked as there and not as taken. */
  function Freed(s: State): (r: State)
  {
    s.(frees := s.frees + 1, dropped := s.dropped + (if s.bits.value && !s.bits.taken then 1 else 0))
  }

  /** The receiver knows the sender has exited: it spins first if it expects a seal. */
  function LastOut(s: State): (r: State)
  {
    s.(receiver := if s.waitingSet && s.sealExpected then RSpinning else RFreeing)
  }

  function ReceiverAct(s: State): (r: State)
  {
    match s.receiver
    case RLoading =>
      if s.bits.value then s.(receiver := RTaking)
      else if s.bits.senderGone then s.(done := true, receiver := RIdle)
      else s.(receiver := if s.waitingSet then RRegistering else RAnnouncing)
    case RAnnouncing =>
      s.(bits := s.bits.(waiting := true), waitingSet := true, sealExpected := !s.bits.value &&
         !s.bits.senderGone, receiver := RRegistering)
    case RRegistering => s.(registered := true, receiver := RReloading)
    case RReloading =>
      if s.bits.value then s.(receiver := RTaking)
      else if s.bits.senderGone then s.(done := true, receiver := RIdle)
      else s.(parked := true, receiver := RIdle)
    case RTrying =>
      if s.bits.value then s.(receiver := RTaking)
      else s.(done := s.bits.senderGone, receiver := RIdle)
    case RTaking => s.(bits := s.bits.(taken := true), received := s.received + 1, done := true, receiver := RIdle)
    case RClosing => s.(receiver := if s.bits.value && !s.bits.taken then RDiscarding else RLeaving)
    case RDiscarding => s.(bits := s.bits.(taken := true), dropped := s.dropped + 1, receiver := RLeaving)
    case RLeaving =>
      var r := s.(bits := s.bits.(receiverGone := true));
      if s.bits.value || s.bits.senderGone then LastOut(r) else r.(receiver := RExited)
    case RSpinning => if s.bits.sealed then s.(receiver := RFreeing) else s
    case RFreeing => Freed(s).(receiver := RExited)
    case _ => s
  }

  function Do(s: State, step: Step): (r: State)
  {
    match step
    case Send => s.(sent := true, sender := SPublishing)
    case CloseSender => SenderOut(s.(bits := s.bits.(senderGone := true)), s.bits, SFreeing)
    case SenderGo => SenderAct(s)
    case Poll => s.(parked := false, woken := false, receiver := RLoading)
    case TryRecv => s.(parked := false, receiver := RTrying)
    case CloseReceiver =>
        if s.done then LastOut(s.(parked := false)) else s.(parked := false, done := true, receiver := RClosing)
    case ReceiverGo => ReceiverAct(s)
  }

  // ------------------------------------------------------------- the invariant

  predicate SenderIsOut(s: State) { !s.sender.SHeld? && !s.sender.SPublishing? }

  predicate ReceiverIsOut(s: State) { s.receiver.RSpinning? || s.receiver.RFreeing? || s.receiver.RExited? }

  predicate ReceiverEnds(s: State) { s.receiver.RClosing? || s.receiver.RDiscarding? || s.receiver.RLeaving? ||
                                    ReceiverIsOut(s) }

  predicate SenderFrees(s: State) { s.sender.SReturning? || s.sender.SFreeing? }

  ghost predicate BitsOk(s: State)
  {
    && (s.bits.value || s.bits.senderGone <==> SenderIsOut(s))
    && (s.bits.receiverGone ==> ReceiverIsOut(s))
    && (s.bits.waiting <==> s.waitingSet)
    && (s.receiver.RAnnouncing? ==> !s.waitingSet)
    && (s.done && !ReceiverEnds(s) ==> SenderIsOut(s))
    && (s.receiver.RTrying? ==> !s.done)
    && (s.receiver.RTaking? ==> s.bits.value)
    && (s.receiver.RDiscarding? ==> s.bits.value)
  }

  /** One side frees, once, after both are out. */
  ghost predicate FreesOk(s: State)
  {
    && s.frees <= 1
    && (s.frees == 1 <==> s.sender == SExited && s.receiver == RExited)
    && (SenderFrees(s) ==> s.receiver == RExited)
    && (ReceiverIsOut(s) && s.receiver != RExited ==> SenderIsOut(s) && !SenderFrees(s))
    && (s.receiver == RExited && s.sender != SExited ==> s.bits.receiverGone && (SenderIsOut(s) ==> SenderFrees(s)))
    && (s.receiver == RFreeing ==> s.sender == SExited)
  }

  /** A sender that is out sealed, or will, exactly when the receiver expects it to. */
  ghost predicate SealsOk(s: State)
  {
    && (s.sender.SWaking? || s.sender.SSealing? || s.bits.sealed ==> s.waitingSet && s.sealExpected)
    && (s.receiver != RExited && SenderIsOut(s) && s.waitingSet && s.sealExpected ==>
        s.sender.SWaking? || s.sender.SSealing? || s.bits.sealed)
    && (s.bits.sealed ==> s.sender == SExited)
    && (s.waitingSet && !SenderIsOut(s) ==> s.sealExpected)
    && (s.receiver == RSpinning ==> s.waitingSet && s.sealExpected)
  }

  /** What became of the value, as far as it has come. */
  ghost predicate ValueOk(s: State)
  {
    && (s.bits.value ==> s.sent) && (s.sender.SHeld? ==> !s.sent) && (s.sender.SPublishing? ==> s.sent)
    && (s.sent ==> s.bits.value || s.sender.SPublishing?)
    && (!s.bits.value ==> !s.bits.taken && !s.refused && s.received == s.returned == s.dropped == 0)
    && (s.sender.SReturning? ==> s.refused && s.returned == 0)
    && (s.refused ==> s.received == 0 && !s.bits.taken && s.dropped == s.frees && ReceiverIsOut(s))
    && (s.refused ==> s.returned == if s.sender.SReturning? then 0 else 1)
    && (!s.refused ==> s.returned == 0)
    && (s.bits.value && !s.refused && !s.bits.taken ==> s.received == 0 && s.dropped == s.frees)
    && (s.bits.taken ==> if s.received > 0 then s.dropped == 0 else s.dropped == 1)
    && (s.received > 0 ==> s.done) && (s.receiver.RClosing? || s.receiver.RDiscarding? ==> s.received == s.dropped == 0)
    && (s.receiver.RDiscarding? ==> !s.bits.taken)
    && (s.receiver.RTaking? ==> s.dropped == 0 && !s.refused)
    && (s.receiver.RIdle? || (!ReceiverEnds(s) && !ReceiverIsOut(s)) ==> s.dropped == 0 && !s.refused)
  }

  /** A parked receiver has its waker in the slot, or was woken; and once the sender is out it was or will be. */
  ghost predicate WakesOk(s: State)
  {
    && (s.parked ==> s.receiver == RIdle && s.waitingSet)
    && (s.receiver == RRegistering || s.receiver == RReloading ==> s.waitingSet)
    && (s.parked || s.receiver == RReloading ==> s.registered || s.woken || SenderIsOut(s))
    && (s.parked ==> s.registered || s.woken)
    && (s.parked && SenderIsOut(s) ==> s.woken || (s.sender.SWaking? && s.registered))
  }

  ghost predicate Inv(s: State)
  {
    BitsOk(s) && FreesOk(s) && SealsOk(s) && ValueOk(s) && WakesOk(s)
  }

  lemma SenderSends(s: State)
    requires Inv(s) && Enabled(s, Send)
    ensures Inv(Do(s, Send))
  {
  }

  lemma SenderCloses(s: State)
    requires Inv(s) && Enabled(s, CloseSender)
    ensures Inv(Do(s, CloseSender))
  {
  }

  lemma SenderPublishes(s: State)
    requires Inv(s) && s.sender == SPublishing
    ensures Inv(SenderAct(s))
  {
  }

  lemma SenderFreesIt(s: State)
    requires Inv(s) && (s.sender == SReturning || s.sender == SFreeing)
    ensures Inv(SenderAct(s))
  {
  }

  lemma SenderWakes(s: State)
    requires Inv(s) && (s.sender == SWaking || s.sender == SSealing)
    ensures Inv(SenderAct(s))
  {
  }

  lemma ReceiverBegins(s: State, step: Step)
    requires Inv(s) && Enabled(s, step) && (step.Poll? || step.TryRecv?)
    ensures Inv(Do(s, step))
  {
  }

  lemma ReceiverBeginsToClose(s: State)
    requires Inv(s) && Enabled(s, CloseReceiver)
    ensures Inv(Do(s, CloseReceiver))
  {
  }

  lemma ReceiverLoads(s: State)
    requires Inv(s) && s.receiver == RLoading
    ensures Inv(ReceiverAct(s))
  {
  }

  lemma ReceiverTries(s: State)
    requires Inv(s) && s.receiver == RTrying
    ensures Inv(ReceiverAct(s))
  {
  }

  lemma ReceiverReloads(s: State)
    requires Inv(s) && s.receiver == RReloading
    ensures Inv(ReceiverAct(s))
  {
  }

  lemma ReceiverRegisters(s: State)
    requires Inv(s) && (s.receiver == RAnnouncing || s.receiver == RRegistering)
    ensures Inv(ReceiverAct(s))
  {
  }

  lemma ReceiverTakes(s: State)
    requires Inv(s) && s.receiver == RTaking
    ensures Inv(ReceiverAct(s))
  {
  }

  lemma ReceiverCloses(s: State)
    requires Inv(s) && (s.receiver == RClosing || s.receiver == RDiscarding)
    ensures Inv(ReceiverAct(s))
  {
  }

  lemma ReceiverLeavesFirst(s: State)
    requires Inv(s) && s.receiver == RLeaving && !s.bits.value && !s.bits.senderGone
    ensures Inv(ReceiverAct(s))
  {
  }

  lemma ReceiverLeavesLast(s: State)
    requires Inv(s) && s.receiver == RLeaving && (s.bits.value || s.bits.senderGone)
    ensures Inv(ReceiverAct(s))
  {
    var r := ReceiverAct(s);
    assert r.receiver == RSpinning || r.receiver == RFreeing;
    assert BitsOk(r) && FreesOk(r) && SealsOk(r);
    assert ValueOk(r) && WakesOk(r);
  }

  lemma ReceiverLeaves(s: State)
    requires Inv(s) && s.receiver == RLeaving
    ensures Inv(ReceiverAct(s))
  {
    if s.bits.value || s.bits.senderGone {
      ReceiverLeavesLast(s);
    } else {
      ReceiverLeavesFirst(s);
    }
  }

  lemma ReceiverFrees(s: State)
    requires Inv(s) && (s.receiver == RSpinning || s.receiver == RFreeing)
    ensures Inv(ReceiverAct(s))
  {
  }

  lemma SenderGoes(s: State)
    requires Inv(s) && Enabled(s, SenderGo)
    ensures Inv(SenderAct(s))
  {
    match s.sender
    case SPublishing => SenderPublishes(s);
    case SReturning => SenderFreesIt(s);
    case SFreeing => SenderFreesIt(s);
    case _ => SenderWakes(s);
  }

  lemma ReceiverGoes(s: State)
    requires Inv(s) && Enabled(s, ReceiverGo)
    ensures Inv(ReceiverAct(s))
  {
    match s.receiver
    case RLoading => ReceiverLoads(s);
    case RTrying => ReceiverTries(s);
    case RReloading => ReceiverReloads(s);
    case RAnnouncing => ReceiverRegisters(s);
    case RRegistering => ReceiverRegisters(s);
    case RTaking => ReceiverTakes(s);
    case RClosing => ReceiverCloses(s);
    case RDiscarding => ReceiverCloses(s);
    case RLeaving => ReceiverLeaves(s);
    case _ => ReceiverFrees(s);
  }

  lemma StepKeeps(s: State, step: Step)
    requires Inv(s) && Enabled(s, step)
    ensures Inv(Do(s, step))
  {
    match step
    case Send => SenderSends(s);
    case CloseSender => SenderCloses(s);
    case SenderGo => SenderGoes(s);
    case CloseReceiver => ReceiverBeginsToClose(s);
    case ReceiverGo => ReceiverGoes(s);
    case _ => ReceiverBegins(s, step);
  }

  // ----------------------------------------------------------------- whole runs

  ghost predicate IsRun(steps: seq<Step>, states: seq<State>)
  {
    && |states| == |steps| + 1 && states[0] == Init()
    && forall i :: 0 <= i < |steps| ==> Enabled(states[i], steps[i]) && states[i + 1] == Do(states[i], steps[i])
  }

  lemma {:induction false} EveryRunKeeps(steps: seq<Step>, states: seq<State>, n: nat)
    requires IsRun(steps, states) && n < |states|
    ensures Inv(states[n])
  {
    if n > 0 {
      EveryRunKeeps(steps, states, n - 1);
      StepKeeps(states[n - 1], steps[n - 1]);
    }
  }

  /** In every run the storage is freed at most once; it has been freed exactly when both sides are
      through, and then neither has a step left that could touch it. */
  lemma StorageIsFreedOnce(steps: seq<Step>, states: seq<State>, n: nat)
    requires IsRun(steps, states) && n < |states|
    ensures var s := states[n];
            && s.frees <= 1
            && (s.frees == 1 <==> s.sender == SExited && s.receiver == RExited)
            && (s.frees == 1 ==> forall step :: !Enabled(s, step))
  {
    EveryRunKeeps(steps, states, n);
    assert forall step :: states[n].frees == 1 ==> !Enabled(states[n], step);
  }

  /** Once the sender is out and the receiver is not through, the receiver expects a seal exactly when
      one was set or the sender is on its way to set it. So a spinning receiver is released by the sender's
      own steps, and a receiver that does not spin frees after the sender's last touch. */
  lemma SealsComeWhenExpected(steps: seq<Step>, states: seq<State>, n: nat)
    requires IsRun(steps, states) && n < |states|
    ensures var s := states[n];
            && (SenderIsOut(s) && s.receiver != RExited ==>
                  (s.waitingSet && s.sealExpected <==> s.bits.sealed || s.sender == SWaking || s.sender == SSealing))
            && (s.receiver == RSpinning && !s.bits.sealed ==> Enabled(s, SenderGo))
            && (s.receiver == RFreeing ==> s.sender == SExited)
            && (s.sender == SFreeing ==> s.receiver == RExited)
  {
    EveryRunKeeps(steps, states, n);
  }

  /** A spinning receiver gets its seal within two steps of the sender. */
  lemma SpinningEnds(steps: seq<Step>, states: seq<State>, n: nat)
    requires IsRun(steps, states) && n < |states| && states[n].receiver == RSpinning
    ensures var s := states[n]; s.bits.sealed || SenderAct(s).bits.sealed || SenderAct(SenderAct(s)).bits.sealed
  {
    EveryRunKeeps(steps, states, n);
    SealsSoon(states[n]);
  }

  lemma SealsSoon(s: State)
    requires SealsOk(s) && FreesOk(s) && s.receiver == RSpinning
    ensures s.bits.sealed || SenderAct(s).bits.sealed || SenderAct(SenderAct(s)).bits.sealed
  {
    if s.sender == SWaking {
      var r := SenderAct(s);
      assert r.sender == SSealing;
      assert SenderAct(r).bits.sealed;
    } else if s.sender == SSealing {
      assert SenderAct(s).bits.sealed;
    }
  }

  /** Every value that was sent is received, returned or dropped by the time the storage is gone, and none that was
        not sent. It ends exactly once if and only if its send was not refused and its receiver did not receive it
        again: a refused send returns it and leaves it marked as there, so that it is dropped with the storage as
        well, and a poll after a receipt finds it marked as there too. */
  lemma ValuesEndOnceExactlyWhen(steps: seq<Step>, states: seq<State>, n: nat)
    requires IsRun(steps, states) && n < |states| && states[n].frees == 1
    ensures var s := states[n]; var ends := s.received + s.returned + s.dropped;
            && (s.sent <==> ends >= 1)
            && (s.sent ==> (ends == 1 <==> !s.refused && s.received <= 1))
            && (s.refused ==> s.returned == 1 && s.dropped == 1 && s.received == 0)
            && (s.sent && !s.refused ==> if s.received > 0 then s.dropped == 0 else s.dropped == 1)
  {
    EveryRunKeeps(steps, states, n);
  }

  /** A send is refused exactly when the receiver closed first. */
  lemma RefusedWhenGone(steps: seq<Step>, states: seq<State>, n: nat)
    requires IsRun(steps, states) && n < |steps| && states[n].sender == SPublishing && steps[n] == SenderGo
    ensures states[n + 1].refused <==> states[n].receiver == RExited
  {
    EveryRunKeeps(steps, states, n);
    assert states[n + 1] == Do(states[n], steps[n]);
  }

  /** A receiver that is not polled again after a receipt receives once. */
  ghost predicate OnceOnly(s: State)
  {
    s.received <= 1 && (s.received == 1 ==> s.done && (s.receiver == RIdle || ReceiverIsOut(s)))
  }

  lemma OnceReceiver(s: State, r: State)
    requires Inv(s) && OnceOnly(s) && s.receiver != RIdle && s.receiver != RExited && r == ReceiverAct(s)
    ensures OnceOnly(r)
  {
  }

  lemma OnceSender(s: State, step: Step, r: State)
    requires Inv(s) && Enabled(s, step) && (step.Send? || step.CloseSender? || step.SenderGo?) && r == Do(s, step)
    requires OnceOnly(s)
    ensures OnceOnly(r)
  {
  }

  lemma OnceStep(s: State, step: Step, r: State)
    requires Inv(s) && Enabled(s, step) && r == Do(s, step) && OnceOnly(s) && (step == Poll ==> s.received == 0)
    ensures OnceOnly(r)
  {
    match step
    case ReceiverGo => OnceReceiver(s, r);
    case Poll =>
    case TryRecv =>
    case CloseReceiver =>
    case _ => OnceSender(s, step, r);
  }

  lemma {:induction false} ReceivedOnceUnlessPolledAgain(steps: seq<Step>, states: seq<State>, n: nat)
    requires IsRun(steps, states) && n < |states|
    requires forall i :: 0 <= i < n && steps[i] == Poll ==> states[i].received == 0
    ensures OnceOnly(states[n])
  {
    if n > 0 {
      ReceivedOnceUnlessPolledAgain(steps, states, n - 1);
      EveryRunKeeps(steps, states, n - 1);
      OnceStep(states[n - 1], steps[n - 1], states[n]);
    }
  }

  /** Some run ends in `s`. */
  ghost predicate Reached(s: State)
  {
    exists steps, states :: IsRun(steps, states) && states[|steps|] == s
  }

  lemma OneStepOn(s: State, step: Step, r: State)
    requires Reached(s) && Enabled(s, step) && r == Do(s, step)
    ensures Reached(r)
  {
    var steps, states :| IsRun(steps, states) && states[|steps|] == s;
    var steps', states' := steps + [step], states + [r];
    forall i | 0 <= i < |steps'|
      ensures Enabled(states'[i], steps'[i]) && states'[i + 1] == Do(states'[i], steps'[i])
    {
      assert i < |steps| ==> steps'[i] == steps[i] && states'[i] == states[i] && states'[i + 1] == states[i + 1];
    }
    assert IsRun(steps', states') && states'[|steps'|] == r;
  }

  lemma StartReached()
    ensures Reached(Init())
  {
    var none: seq<Step> := [];
    assert IsRun(none, [Init()]) && [Init()][|none|] == Init();
  }

  /** The receiver closes, then the sender sends: the value comes back to it and is dropped with the storage. */
  lemma ARefusedSendEndsTwice() returns (s: State)
    ensures Reached(s) && s.frees == 1 && s.returned == 1 && s.dropped == 1
  {
    var s0 := Init();
    StartReached();
    var s1 := s0.(done := true, receiver := RClosing);
    OneStepOn(s0, CloseReceiver, s1);
    var s2 := s1.(receiver := RLeaving);
    OneStepOn(s1, ReceiverGo, s2);
    var s3 := s2.(bits := s2.bits.(receiverGone := true), receiver := RExited);
    OneStepOn(s2, ReceiverGo, s3);
    s := SentToNobody(s3);
  }

  lemma SentToNobody(s3: State) returns (s: State)
    requires Reached(s3) && s3 == Init().(bits := Init().bits.(receiverGone := true), done := true, receiver := RExited)
    ensures Reached(s) && s.frees == 1 && s.returned == 1 && s.dropped == 1
  {
    var s4 := s3.(sent := true, sender := SPublishing);
    OneStepOn(s3, Send, s4);
    var s5 := s4.(bits := s4.bits.(value := true), refused := true, sender := SReturning);
    OneStepOn(s4, SenderGo, s5);
    var s6 := s5.(returned := 1, sender := SFreeing);
    OneStepOn(s5, SenderGo, s6);
    s := s6.(frees := 1, dropped := 1, sender := SExited);
    OneStepOn(s6, SenderGo, s);
  }

  /** The receiver receives, and is polled again: it receives the value a second time. */
  lemma APollAfterReceiptReceivesAgain() returns (s: State)
    ensures Reached(s) && s.received == 2
  {
    var s0 := Init();
    StartReached();
    var s1 := s0.(sent := true, sender := SPublishing);
    OneStepOn(s0, Send, s1);
    var s2 := s1.(bits := s1.bits.(value := true), sender := SExited);
    OneStepOn(s1, SenderGo, s2);
    var s3 := PolledOnce(s2);
    s := PolledOnce(s3);
  }

  lemma PolledOnce(s: State) returns (r: State)
    requires Reached(s) && s.receiver == RIdle && s.bits.value
    ensures Reached(r) && r.receiver == RIdle && r.bits.value && r.received == s.received + 1
  {
    var s1 := s.(parked := false, woken := false, receiver := RLoading);
    OneStepOn(s, Poll, s1);
    var s2 := s1.(receiver := RTaking);
    OneStepOn(s1, ReceiverGo, s2);
    r := s2.(bits := s2.bits.(taken := true), received := s2.received + 1, done := true, receiver := RIdle);
    OneStepOn(s2, ReceiverGo, r);
  }

  /** A receiver whose last poll returned Pending and whose sender has since sent or closed was woken, or the sender's
        next step wakes it. */
  lemma NoWakeIsLost(steps: seq<Step>, states: seq<State>, n: nat)
    requires IsRun(steps, states) && n < |states|
    ensures var s := states[n];
            s.parked && (s.bits.value || s.bits.senderGone) ==>
              s.woken || (Enabled(s, SenderGo) && Do(s, SenderGo).woken)
  {
    EveryRunKeeps(steps, states, n);
  }
}
