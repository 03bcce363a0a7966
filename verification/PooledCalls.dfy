/** What the calls on a pooled slot answer, over every run: receives, whatever they find, and sends that are refused. */
module PooledCalls {
  import opened Options
  import opened PooledSlot

  /** The receiver loads the state word. */
  predicate Loads(s: State, step: Step)
  {
    step == ReceiverGo && (s.receiver == RLoading || s.receiver == RReloading || s.receiver == RTrying)
  }

  /** The last load of the steps from `b` on and before `n`. */
  function LastLoad(steps: seq<Step>, states: seq<State>, b: nat, n: nat): (l: Option<nat>)
    requires |states| == |steps| + 1 && n <= |steps|
    ensures l.Some? ==> b <= l.value < n
  {
    if n <= b then None
    else if Loads(states[n - 1], steps[n - 1]) then Some(n - 1)
    else LastLoad(steps, states, b, n - 1)
  }

  /** The receive call that step `b` begins is over in state `e`, and not before. */
  ghost predicate IsCall(steps: seq<Step>, states: seq<State>, b: nat, e: nat)
  {
    && |states| == |steps| + 1 && b < e <= |steps| && (steps[b] == Poll || steps[b] == TryRecv)
    && states[e].receiver == RIdle && Underway(states, b, e)
  }

  predicate Neither(b: Bits)
  {
    !b.value && !b.senderGone
  }

  /** Where a call stands on what it loaded. */
  ghost predicate Amid(s: State, step: Step, seen: Option<Bits>)
  {
    match s.receiver
    case RLoading => step == Poll && seen == None
    case RTrying => step == TryRecv && seen == None
    case RAnnouncing => step == Poll && seen.Some? && Neither(seen.value)
    case RRegistering => step == Poll && seen.Some? && Neither(seen.value)
    case RReloading => step == Poll && seen.Some? && Neither(seen.value)
    case RMarking => seen.Some? && seen.value.value
    case RReading => seen.Some? && seen.value.value
    case _ => false
  }

  ghost function Seen(steps: seq<Step>, states: seq<State>, b: nat, n: nat): (seen: Option<Bits>)
    requires |states| == |steps| + 1 && n <= |steps|
  {
    var l := LastLoad(steps, states, b, n);
    if l.Some? then Some(states[l.value].bits) else None
  }

  /** What a call that loaded `seen` last leaves: the value received, the end of it noticed, or nothing yet. */
  ghost predicate Answers(s: State, step: Step, seen: Bits)
  {
    if seen.value then s.done && s.fate == Received
    else if seen.senderGone then s.done && s.fate == Pending
    else !s.done && s.fate == Pending && s.parked == (step == Poll)
  }

  /** The next state of a call: still amid it, or over with its answer. */
  ghost predicate Goes(r: State, step: Step, seen: Option<Bits>)
  {
    if r.receiver == RIdle then seen.Some? && Answers(r, step, seen.value) else Amid(r, step, seen)
  }

  lemma OthersStep(s: State, step: Step, r: State, call: Step, seen: Option<Bits>)
    requires Inv(s) && Enabled(s, step) && r == Do(s, step) && step != ReceiverGo && Amid(s, call, seen)
    ensures Amid(r, call, seen)
  {
  }

  lemma ReceiverSteps(s: State, r: State, call: Step, seen: Option<Bits>)
    requires Inv(s) && r == ReceiverAct(s) && Amid(s, call, seen)
    ensures Goes(r, call, if Loads(s, ReceiverGo) then Some(s.bits) else seen)
  {
  }

  lemma RunStep(steps: seq<Step>, states: seq<State>, i: nat)
    requires IsRun(steps, states) && i < |steps|
    ensures Inv(states[i]) && Enabled(states[i], steps[i]) && states[i + 1] == Do(states[i], steps[i])
  {
    EveryRunKeeps(steps, states, i);
  }

  lemma CallBegins(s: State, step: Step)
    requires step == Poll || step == TryRecv
    ensures Amid(Do(s, step), step, None) && Do(s, step).receiver != RIdle && !Loads(s, step)
  {
  }

  lemma CallStep(s: State, step: Step, r: State, call: Step, seen: Option<Bits>)
    requires Inv(s) && Enabled(s, step) && r == Do(s, step) && Amid(s, call, seen)
    ensures Goes(r, call, if Loads(s, step) then Some(s.bits) else seen)
  {
    if step == ReceiverGo {
      ReceiverSteps(s, r, call, seen);
    } else {
      OthersStep(s, step, r, call, seen);
    }
  }

  lemma SeenNext(steps: seq<Step>, states: seq<State>, b: nat, n: nat)
    requires |states| == |steps| + 1 && b <= n < |steps|
    ensures Seen(steps, states, b, n + 1) ==
            if Loads(states[n], steps[n]) then Some(states[n].bits) else Seen(steps, states, b, n)
  {
  }

  ghost predicate Underway(states: seq<State>, b: nat, n: nat)
    requires n <= |states|
  {
    forall i :: b < i < n ==> states[i].receiver != RIdle
  }

  ghost predicate Going(steps: seq<Step>, states: seq<State>, b: nat, n: nat)
    requires |states| == |steps| + 1 && b < n <= |steps|
  {
    Goes(states[n], steps[b], Seen(steps, states, b, n))
  }

  lemma CallStarts(steps: seq<Step>, states: seq<State>, b: nat)
    requires IsRun(steps, states) && b < |steps| && (steps[b] == Poll || steps[b] == TryRecv)
    ensures Going(steps, states, b, b + 1)
  {
    RunStep(steps, states, b);
    SeenNext(steps, states, b, b);
    CallBegins(states[b], steps[b]);
  }

  lemma CallGoesOn(steps: seq<Step>, states: seq<State>, b: nat, n: nat)
    requires IsRun(steps, states) && b < n < |steps|
    requires Going(steps, states, b, n) && states[n].receiver != RIdle
    ensures Going(steps, states, b, n + 1)
  {
    RunStep(steps, states, n);
    SeenNext(steps, states, b, n);
    CallStep(states[n], steps[n], states[n + 1], steps[b], Seen(steps, states, b, n));
  }

  ghost predicate Carries(steps: seq<Step>, states: seq<State>, b: nat, n: nat)
    requires |states| == |steps| + 1 && b < n < |steps|
  {
    Going(steps, states, b, n) ==> Going(steps, states, b, n + 1)
  }

  lemma {:induction false} CallsGoOn(steps: seq<Step>, states: seq<State>, b: nat, e: nat)
    requires |states| == |steps| + 1 && b < e <= |steps| && Going(steps, states, b, b + 1)
    requires forall n :: b < n < e ==> Carries(steps, states, b, n)
    ensures Going(steps, states, b, e)
    decreases e
  {
    if e > b + 1 {
      CallsGoOn(steps, states, b, e - 1);
      assert Carries(steps, states, b, e - 1);
    }
  }

  /** Every receive call, poll or try_recv, loads the state, and answers by what it loaded last: with VALUE set it has
        received the value; with SENDER_GONE and no value it reports the end; with neither, and only then, it answers
        that there is nothing yet. */
  lemma CallsAnswerWhatTheyLoaded(steps: seq<Step>, states: seq<State>, b: nat, e: nat)
    requires IsRun(steps, states) && IsCall(steps, states, b, e)
    ensures var l := LastLoad(steps, states, b, e);
            l.Some? && b < l.value && Answers(states[e], steps[b], states[l.value].bits)
  {
    CallStarts(steps, states, b);
    forall n | b < n < e
      ensures Carries(steps, states, b, n)
    {
      if Going(steps, states, b, n) {
        CallGoesOn(steps, states, b, n);
      }
    }
    CallsGoOn(steps, states, b, e);
    NoLoadAtTheStart(steps, states, b, e);
  }

  lemma {:induction false} NoLoadAtTheStart(steps: seq<Step>, states: seq<State>, b: nat, n: nat)
    requires |states| == |steps| + 1 && b < n <= |steps| && steps[b] != ReceiverGo
    ensures LastLoad(steps, states, b, n) != Some(b)
    decreases n
  {
    if n > b + 1 {
      NoLoadAtTheStart(steps, states, b, n - 1);
    }
  }

  // ---------------------------------------------------------------- refused sends

  /** What becomes of a send that found the receiver gone or not. */
  ghost predicate Sent(s: State, refused: bool)
  {
    if refused
    then s.receiver == RExited &&
        (s.sender == SReturning || (s.fate == Returned && !s.sender.SHeld? && !s.sender.SPublishing?))
    else s.sender == SExited && s.fate != Returned
  }

  lemma SenderStays(s: State, r: State, refused: bool)
    requires Inv(s) && Sent(s, refused) && s.sender != SExited && r == SenderAct(s)
    ensures r.life == s.life && Sent(r, refused)
  {
  }

  lemma ReceiverStays(s: State, r: State, refused: bool)
    requires Inv(s) && Sent(s, refused) && s.receiver != RIdle && s.receiver != RExited && r == ReceiverAct(s)
    ensures r.life == s.life && Sent(r, refused)
  {
    assert !refused;
  }

  lemma OthersStay(s: State, step: Step, r: State, refused: bool)
    requires Inv(s) && Sent(s, refused) && Enabled(s, step) && r == Do(s, step)
    requires step != SenderGo && step != ReceiverGo && step != NewLife
    ensures r.life == s.life && Sent(r, refused)
  {
  }

  lemma SentStep(s: State, step: Step, r: State, life: nat, refused: bool)
    requires Inv(s) && Enabled(s, step) && r == Do(s, step)
    requires s.life > life || (s.life == life && Sent(s, refused))
    ensures r.life > life || (r.life == life && Sent(r, refused))
  {
    StepKeeps(s, step);
    if s.life == life {
      if step == SenderGo {
        SenderStays(s, r, refused);
      } else if step == ReceiverGo {
        ReceiverStays(s, r, refused);
      } else if step != NewLife {
        OthersStay(s, step, r, refused);
      }
    }
  }

  lemma Publishes(s: State)
    requires Inv(s) && s.sender == SPublishing
    ensures SenderAct(s).life == s.life && Sent(SenderAct(s), s.bits.receiverGone)
  {
  }

  lemma SentAt(steps: seq<Step>, states: seq<State>, n: nat, life: nat, refused: bool)
    requires IsRun(steps, states) && n < |steps|
    requires states[n].life > life || (states[n].life == life && Sent(states[n], refused))
    ensures states[n + 1].life > life || (states[n + 1].life == life && Sent(states[n + 1], refused))
  {
    RunStep(steps, states, n);
    SentStep(states[n], steps[n], states[n + 1], life, refused);
  }

  lemma {:induction false} SendsGoOn(steps: seq<Step>, states: seq<State>, p: nat, n: nat)
    requires IsRun(steps, states) && p < n <= |steps| && states[p].sender == SPublishing && steps[p] == SenderGo
    ensures var life, refused := states[p].life, states[p].bits.receiverGone;
            states[n].life > life || (states[n].life == life && Sent(states[n], refused))
    decreases n
  {
    if n == p + 1 {
      RunStep(steps, states, p);
      Publishes(states[p]);
    } else {
      SendsGoOn(steps, states, p, n - 1);
      SentAt(steps, states, n - 1, states[p].life, states[p].bits.receiverGone);
    }
  }

  /** A send that finds the receiver gone gives its value back, and no other send does. */
  lemma RefusedSendsGiveBack(steps: seq<Step>, states: seq<State>, p: nat, n: nat)
    requires IsRun(steps, states) && p < n <= |steps| && states[n].life == states[p].life
    requires states[p].sender == SPublishing && steps[p] == SenderGo
    ensures if states[p].bits.receiverGone then states[n].sender == SReturning || states[n].fate == Returned
            else states[n].sender == SExited && states[n].fate != Returned
  {
    SendsGoOn(steps, states, p, n);
  }
}
