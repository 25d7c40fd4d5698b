/** The shared client slot of the local proxy, under any number of concurrent
    connection handlers: double-checked locking in `ensure_mux_client`, and the
    retry loop of `handle_mux_proxy_connection` that invalidates the slot and
    feeds the circuit breaker. A client may die at any moment, and a `send` on it
    may succeed or fail, dead or not. */
module ClientSlot {
  import opened Bytes

  type ClientId = nat
  type HandlerId = nat

  const ATTEMPTS: nat := 2

  datatype Verdict = Success | Failure

  datatype Phase =
    | Idle(attempt: nat)                            // about to call ensure_mux_client
    | Reading(attempt: nat)                         // holds the read lock
    | WantWrite(attempt: nat)
    | Writing(attempt: nat)                         // holds the write lock
    | Connecting(attempt: nat)                      // holds the write lock
    | Sending(attempt: nat, client: ClientId)
    | WantInvalidate(attempt: nat, client: ClientId)
    | Invalidating(attempt: nat, client: ClientId)  // holds the write lock
    | Exhausted                                     // the loop ran out of attempts
    | Relayed                                       // answered with the mux response
    | BadGateway                                    // answered 502

  /** `failedOn` records the clients on which this handler's own send failed,
      `verdicts` what it reported to the breaker. */
  datatype Handler = Handler(phase: Phase, failedOn: set<ClientId>, verdicts: seq<Verdict>, sends: nat)

  datatype State = State(
    slot: Option<ClientId>,
    created: nat,
    dead: set<ClientId>,
    readers: set<HandlerId>,
    writer: Option<HandlerId>,
    handlers: seq<Handler>)

  const INITIAL := State(None, 0, {}, {}, None, [])

  datatype Step =
    | Arrive
    | LockRead(handler: HandlerId)
    | CheckRead(handler: HandlerId)
    | LockWrite(handler: HandlerId)
    | CheckWrite(handler: HandlerId)
    | ConnectSucceeds(handler: HandlerId)
    | ConnectFails(handler: HandlerId)
    | SendSucceeds(handler: HandlerId)
    | SendFails(handler: HandlerId)
    | LockInvalidate(handler: HandlerId)
    | Invalidate(handler: HandlerId)
    | Dies(client: ClientId)

  predicate Unlocked(s: State) {
    s.writer.None? && s.readers == {}
  }

  predicate Live(s: State) {
    s.slot.Some? && s.slot.value !in s.dead
  }

  predicate Enabled(s: State, step: Step) {
    match step
    case Arrive => true
    case LockRead(h) => h < |s.handlers| && s.handlers[h].phase.Idle? && s.writer.None?
    case CheckRead(h) => h < |s.handlers| && s.handlers[h].phase.Reading?
    case LockWrite(h) => h < |s.handlers| && s.handlers[h].phase.WantWrite? && Unlocked(s)
    case CheckWrite(h) => h < |s.handlers| && s.handlers[h].phase.Writing?
    case ConnectSucceeds(h) => h < |s.handlers| && s.handlers[h].phase.Connecting?
    case ConnectFails(h) => h < |s.handlers| && s.handlers[h].phase.Connecting?
    case SendSucceeds(h) => h < |s.handlers| && s.handlers[h].phase.Sending?
    case SendFails(h) => h < |s.handlers| && s.handlers[h].phase.Sending?
    case LockInvalidate(h) => h < |s.handlers| && s.handlers[h].phase.WantInvalidate? && Unlocked(s)
    case Invalidate(h) => h < |s.handlers| && s.handlers[h].phase.Invalidating?
    case Dies(c) => c < s.created
  }

  function With(s: State, h: HandlerId, phase: Phase): State
    requires h < |s.handlers|
  {
    s.(handlers := s.handlers[h := s.handlers[h].(phase := phase)])
  }

  function Report(s: State, h: HandlerId, phase: Phase, verdict: Verdict): State
    requires h < |s.handlers|
  {
    var handler := s.handlers[h];
    s.(handlers := s.handlers[h := handler.(phase := phase, verdicts := handler.verdicts + [verdict])])
  }

  function NextAttempt(attempt: nat): Phase {
    if attempt + 1 < ATTEMPTS then Idle(attempt + 1) else Exhausted
  }

  function AfterFailedSend(handler: Handler): Handler
    requires handler.phase.Sending?
  {
    var c := handler.phase.client;
    var noted := handler.(failedOn := handler.failedOn + {c}, sends := handler.sends + 1);
    if handler.phase.attempt == 0 then noted.(phase := WantInvalidate(0, c))
    else noted.(phase := BadGateway, verdicts := noted.verdicts + [Failure])
  }

  function Apply(s: State, step: Step): State
    requires Enabled(s, step)
  {
    match step
    case Arrive => s.(handlers := s.handlers + [Handler(Idle(0), {}, [], 0)])
    case LockRead(h) => With(s, h, Reading(s.handlers[h].phase.attempt)).(readers := s.readers + {h})
    case CheckRead(h) =>
      var a := s.handlers[h].phase.attempt;
      With(s, h, if Live(s) then Sending(a, s.slot.value) else WantWrite(a)).(readers := s.readers - {h})
    case LockWrite(h) => With(s, h, Writing(s.handlers[h].phase.attempt)).(writer := Some(h))
    case CheckWrite(h) =>
      var a := s.handlers[h].phase.attempt;
      if Live(s) then With(s, h, Sending(a, s.slot.value)).(writer := None)
      else With(s, h, Connecting(a))
    case ConnectSucceeds(h) =>
      With(s, h, Sending(s.handlers[h].phase.attempt, s.created))
        .(slot := Some(s.created), created := s.created + 1, writer := None)
    case ConnectFails(h) =>
      var a := s.handlers[h].phase.attempt;
      (if a < 1 then With(s, h, NextAttempt(a)) else Report(s, h, BadGateway, Failure)).(writer := None)
    case SendSucceeds(h) =>
      var handler := s.handlers[h];
      s.(handlers := s.handlers[h := handler.(phase := Relayed, sends := handler.sends + 1,
                                              verdicts := handler.verdicts + [Success])])
    case SendFails(h) => s.(handlers := s.handlers[h := AfterFailedSend(s.handlers[h])])
    case LockInvalidate(h) =>
      With(s, h, Invalidating(s.handlers[h].phase.attempt, s.handlers[h].phase.client)).(writer := Some(h))
    case Invalidate(h) =>
      var phase := s.handlers[h].phase;
      With(s, h, NextAttempt(phase.attempt))
        .(slot := if s.slot == Some(phase.client) then None else s.slot, writer := None)
    case Dies(c) => s.(dead := s.dead + {c})
  }

  // ── Invariant ─────────────────────────────────────────────────────────────

  predicate HoldsWrite(phase: Phase) {
    phase.Writing? || phase.Connecting? || phase.Invalidating?
  }

  /** What a handler may have done by the time it is in its phase. */
  ghost predicate HandlerOk(s: State, handler: Handler) {
    && (forall c :: c in handler.failedOn ==> c < s.created)
    && match handler.phase
       case Idle(a) => a < ATTEMPTS && handler.verdicts == [] && handler.sends <= a
       case Reading(a) => a < ATTEMPTS && handler.verdicts == [] && handler.sends <= a
       case WantWrite(a) => a < ATTEMPTS && handler.verdicts == [] && handler.sends <= a
       case Writing(a) => a < ATTEMPTS && handler.verdicts == [] && handler.sends <= a
       case Connecting(a) => a < ATTEMPTS && handler.verdicts == [] && handler.sends <= a && !Live(s)
       case Sending(a, c) => a < ATTEMPTS && handler.verdicts == [] && handler.sends <= a && c < s.created
       case WantInvalidate(a, c) => a == 0 && handler.verdicts == [] && handler.sends == 1 && c in handler.failedOn
       case Invalidating(a, c) => a == 0 && handler.verdicts == [] && handler.sends == 1 && c in handler.failedOn
       case Exhausted => false
       case Relayed => handler.verdicts == [Success] && 1 <= handler.sends <= ATTEMPTS
       case BadGateway => handler.verdicts == [Failure] && handler.sends <= ATTEMPTS
  }

  ghost predicate Invariant(s: State) {
    && (s.slot.Some? ==> s.slot.value < s.created)
    && (forall c :: c in s.dead ==> c < s.created)
    && (forall h :: h in s.readers ==> h < |s.handlers| && s.handlers[h].phase.Reading?)
    && (s.writer.Some? ==> s.writer.value < |s.handlers| && s.readers == {})
    && (forall h :: 0 <= h < |s.handlers| && s.handlers[h].phase.Reading? ==> h in s.readers)
    && (forall h :: 0 <= h < |s.handlers| ==> (HoldsWrite(s.handlers[h].phase) <==> s.writer == Some(h)))
    && (forall h :: 0 <= h < |s.handlers| ==> HandlerOk(s, s.handlers[h]))
  }

  lemma ReadLockKeeps(s: State, step: Step)
    requires Invariant(s) && Enabled(s, step)
    requires step.LockRead? || step.CheckRead?
    ensures Invariant(Apply(s, step))
  {
    assert HandlerOk(s, s.handlers[step.handler]);
  }

  lemma WriteLockKeeps(s: State, step: Step)
    requires Invariant(s) && Enabled(s, step)
    requires step.LockWrite? || step.LockInvalidate?
    ensures Invariant(Apply(s, step))
  {
    assert HandlerOk(s, s.handlers[step.handler]);
  }

  lemma CheckWriteKeeps(s: State, step: Step)
    requires Invariant(s) && Enabled(s, step)
    requires step.CheckWrite?
    ensures Invariant(Apply(s, step))
  {
    assert HandlerOk(s, s.handlers[step.handler]);
  }

  lemma ConnectKeeps(s: State, step: Step)
    requires Invariant(s) && Enabled(s, step)
    requires step.ConnectSucceeds? || step.ConnectFails?
    ensures Invariant(Apply(s, step))
  {
    assert HandlerOk(s, s.handlers[step.handler]);
  }

  lemma SendSucceedsKeeps(s: State, step: Step)
    requires Invariant(s) && Enabled(s, step) && step.SendSucceeds?
    ensures Invariant(Apply(s, step))
  {
    assert HandlerOk(s, s.handlers[step.handler]);
  }

  lemma SendFailsKeeps(s: State, step: Step)
    requires Invariant(s) && Enabled(s, step) && step.SendFails?
    ensures Invariant(Apply(s, step))
  {
    var s', handler := Apply(s, step), s.handlers[step.handler];
    assert HandlerOk(s, handler);
    assert HandlerOk(s', s'.handlers[step.handler]);
  }

  lemma InvalidateKeeps(s: State, step: Step)
    requires Invariant(s) && Enabled(s, step)
    requires step.Invalidate?
    ensures Invariant(Apply(s, step))
  {
    assert HandlerOk(s, s.handlers[step.handler]);
  }

  /** Every step keeps the invariant. */
  lemma StepKeeps(s: State, step: Step)
    requires Invariant(s) && Enabled(s, step)
    ensures Invariant(Apply(s, step))
  {
    match step
    case Arrive =>
    case LockRead(_) => ReadLockKeeps(s, step);
    case CheckRead(_) => ReadLockKeeps(s, step);
    case LockWrite(_) => WriteLockKeeps(s, step);
    case CheckWrite(_) => CheckWriteKeeps(s, step);
    case ConnectSucceeds(_) => ConnectKeeps(s, step);
    case ConnectFails(_) => ConnectKeeps(s, step);
    case SendSucceeds(_) => SendSucceedsKeeps(s, step);
    case SendFails(_) => SendFailsKeeps(s, step);
    case LockInvalidate(_) => WriteLockKeeps(s, step);
    case Invalidate(_) => InvalidateKeeps(s, step);
    case Dies(c) =>
  }

  // ── Runs ──────────────────────────────────────────────────────────────────

  datatype Run = Run(states: seq<State>, steps: seq<Step>)

  ghost predicate Taken(run: Run, i: nat)
    requires i < |run.steps| < |run.states|
  {
    Enabled(run.states[i], run.steps[i]) && run.states[i + 1] == Apply(run.states[i], run.steps[i])
  }

  ghost predicate Valid(run: Run) {
    && |run.states| == |run.steps| + 1
    && run.states[0] == INITIAL
    && forall i :: 0 <= i < |run.steps| ==> Taken(run, i)
  }

  lemma {:induction false} ReachableOk(run: Run, i: nat)
    requires Valid(run) && i < |run.states|
    ensures Invariant(run.states[i])
  {
    if i > 0 {
      ReachableOk(run, i - 1);
      assert Taken(run, i - 1);
      StepKeeps(run.states[i - 1], run.steps[i - 1]);
    }
  }

  /** At most one connect is in flight, and nobody reads or writes the slot
      meanwhile. */
  lemma OneConnectAtATime(run: Run, i: nat, g: HandlerId, h: HandlerId)
    requires Valid(run) && i < |run.states|
    requires g < |run.states[i].handlers| && run.states[i].handlers[g].phase.Connecting?
    requires h < |run.states[i].handlers| && h != g
    ensures !HoldsWrite(run.states[i].handlers[h].phase) && !run.states[i].handlers[h].phase.Reading?
  {
    ReachableOk(run, i);
  }

  /** The only ways a step changes the slot: a connect fills an empty or dead slot
      with the new client, or a handler whose own send on that very client failed
      takes it out. */
  ghost predicate SlotChange(s: State, step: Step, s': State) {
    || s'.slot == s.slot
    || (step.ConnectSucceeds? && !Live(s) && s'.slot == Some(s.created) && s'.created == s.created + 1)
    || (step.Invalidate? && s.slot.Some? && s'.slot == None
        && step.handler < |s.handlers| && s.slot.value in s.handlers[step.handler].failedOn)
  }

  lemma SlotChangesOnlyForCause(run: Run, i: nat)
    requires Valid(run) && i < |run.steps|
    ensures SlotChange(run.states[i], run.steps[i], run.states[i + 1])
  {
    ReachableOk(run, i);
    assert Taken(run, i);
    var s, step := run.states[i], run.steps[i];
    if step.ConnectSucceeds? || step.Invalidate? {
      assert HandlerOk(s, s.handlers[step.handler]);
    }
  }

  /** Some handler's own send on the client failed. */
  ghost predicate FailedASend(s: State, c: ClientId) {
    exists h :: 0 <= h < |s.handlers| && c in s.handlers[h].failedOn
  }

  ghost predicate Later(s: State, s': State) {
    && s.created <= s'.created && s.dead <= s'.dead && |s.handlers| <= |s'.handlers|
    && (forall h :: 0 <= h < |s.handlers| ==> s.handlers[h].failedOn <= s'.handlers[h].failedOn)
    && (forall h :: 0 <= h < |s.handlers| && s.handlers[h].verdicts != [] ==> s'.handlers[h] == s.handlers[h])
  }

  lemma StepLater(s: State, step: Step)
    requires Invariant(s) && Enabled(s, step)
    ensures Later(s, Apply(s, step))
  {
    if !step.Arrive? && !step.Dies? {
      assert HandlerOk(s, s.handlers[step.handler]);
    }
  }

  lemma {:induction false} NothingIsUndone(run: Run, i: nat, j: nat)
    requires Valid(run) && i <= j < |run.states|
    ensures Later(run.states[i], run.states[j])
    decreases j
  {
    if i < j {
      NothingIsUndone(run, i, j - 1);
      ReachableOk(run, j - 1);
      assert Taken(run, j - 1);
      StepLater(run.states[j - 1], run.steps[j - 1]);
    }
  }

  lemma FailuresStay(s: State, s': State, c: ClientId)
    requires Later(s, s') && FailedASend(s, c)
    ensures FailedASend(s', c)
  {
    var h :| 0 <= h < |s.handlers| && c in s.handlers[h].failedOn;
    assert c in s'.handlers[h].failedOn;
  }

  /** A client that is live and on which no send ever failed is never discarded:
      it is still in the slot at every later time. */
  lemma {:induction false} LiveClientIsKept(run: Run, i: nat, j: nat)
    requires Valid(run) && i <= j < |run.states| && run.states[i].slot.Some?
    requires var c := run.states[i].slot.value;
             c !in run.states[j].dead && !FailedASend(run.states[j], c)
    ensures run.states[j].slot == run.states[i].slot
    decreases j
  {
    if i < j {
      var c := run.states[i].slot.value;
      NothingIsUndone(run, j - 1, j);
      if FailedASend(run.states[j - 1], c) {
        FailuresStay(run.states[j - 1], run.states[j], c);
      }
      LiveClientIsKept(run, i, j - 1);
      SlotChangesOnlyForCause(run, j - 1);
    }
  }

  /** A client that has left the slot never comes back. */
  lemma {:induction false} DiscardedForGood(run: Run, i: nat, j: nat, c: ClientId)
    requires Valid(run) && i <= j < |run.states|
    requires c < run.states[i].created && run.states[i].slot != Some(c)
    ensures run.states[j].slot != Some(c)
    decreases j
  {
    if i < j {
      DiscardedForGood(run, i, j - 1, c);
      NothingIsUndone(run, i, j - 1);
      SlotChangesOnlyForCause(run, j - 1);
    }
  }

  // ── Verdicts ──────────────────────────────────────────────────────────────

  /** A proxied request makes at most two sends and reports exactly one verdict,
      success exactly when it relays a response and failure exactly when it
      answers 502; the loop never runs out of attempts. */
  lemma OneVerdictPerRequest(run: Run, i: nat, h: HandlerId)
    requires Valid(run) && i < |run.states| && h < |run.states[i].handlers|
    ensures var handler := run.states[i].handlers[h];
            && handler.sends <= 2
            && handler.phase != Exhausted
            && (handler.phase == Relayed <==> handler.verdicts == [Success])
            && (handler.phase == BadGateway <==> handler.verdicts == [Failure])
            && (handler.phase != Relayed && handler.phase != BadGateway <==> handler.verdicts == [])
  {
    ReachableOk(run, i);
    assert HandlerOk(run.states[i], run.states[i].handlers[h]);
  }

  /** The verdict is final. */
  lemma VerdictIsFinal(run: Run, i: nat, j: nat, h: HandlerId)
    requires Valid(run) && i <= j < |run.states| && h < |run.states[i].handlers|
    requires run.states[i].handlers[h].verdicts != []
    ensures h < |run.states[j].handlers| && run.states[j].handlers[h] == run.states[i].handlers[h]
  {
    NothingIsUndone(run, i, j);
  }

  // ── Rounds ────────────────────────────────────────────────────────────────

  predicate FailsRound(step: Step, h: HandlerId) {
    step == ConnectFails(h) || step == SendFails(h)
  }

  /** How many rounds of handler `h` have failed by `i`. */
  ghost function FailedRounds(run: Run, i: nat, h: HandlerId): nat
    requires i <= |run.steps|
  {
    if i == 0 then 0 else FailedRounds(run, i - 1, h) + if FailsRound(run.steps[i - 1], h) then 1 else 0
  }

  /** The failed rounds that fit a phase. */
  predicate RoundsFit(phase: Phase, failed: nat) {
    match phase
    case WantInvalidate(_, _) => failed == 1
    case Invalidating(_, _) => failed == 1
    case Exhausted => false
    case Relayed => failed <= 1
    case BadGateway => failed == 2
    case _ => failed == phase.attempt
  }

  lemma RoundsStep(s: State, step: Step, h: HandlerId, failed: nat)
    requires Invariant(s) && Enabled(s, step) && h < |s.handlers| && RoundsFit(s.handlers[h].phase, failed)
    ensures h < |Apply(s, step).handlers|
    ensures RoundsFit(Apply(s, step).handlers[h].phase, failed + if FailsRound(step, h) then 1 else 0)
  {
    assert HandlerOk(s, s.handlers[h]);
  }

  /** A handler answers 502 exactly when two of its rounds have failed, and relays only
      if at most one has; after one failed round it is on its second attempt, or
      about to be. */
  lemma {:induction false} BadGatewayAfterTwoRounds(run: Run, i: nat, h: HandlerId)
    requires Valid(run) && i < |run.states| && h < |run.states[i].handlers|
    ensures RoundsFit(run.states[i].handlers[h].phase, FailedRounds(run, i, h))
    ensures run.states[i].handlers[h].phase == BadGateway <==> FailedRounds(run, i, h) == 2
    decreases i
  {
    var s := run.states[i - 1];
    assert Taken(run, i - 1);
    ReachableOk(run, i - 1);
    ReachableOk(run, i);
    assert HandlerOk(run.states[i], run.states[i].handlers[h]);
    if h < |s.handlers| {
      BadGatewayAfterTwoRounds(run, i - 1, h);
      RoundsStep(s, run.steps[i - 1], h, FailedRounds(run, i - 1, h));
    } else {
      NothingBefore(run, i, h);
    }
  }

  lemma {:induction false} NothingBefore(run: Run, i: nat, h: HandlerId)
    requires Valid(run) && 0 < i < |run.states| && |run.states[i - 1].handlers| <= h
    ensures FailedRounds(run, i, h) == 0
    decreases i
  {
    assert Taken(run, i - 1);
    if i > 1 {
      NothingIsUndone(run, i - 2, i - 1);
      NothingBefore(run, i - 1, h);
    }
  }

  // ── The second attempt ────────────────────────────────────────────────────

  /** A handler that may still get a client from the slot will not get one on which
      its own send failed, and does not send on one. */
  ghost predicate Avoids(s: State, handler: Handler) {
    match handler.phase
    case Sending(_, c) => c !in handler.failedOn
    case WantInvalidate(_, _) => true
    case Invalidating(_, c) => handler.failedOn == {c}
    case Relayed => true
    case BadGateway => true
    case _ => s.slot.Some? ==> s.slot.value !in handler.failedOn
  }

  ghost predicate OneFailure(handler: Handler) {
    handler.phase.WantInvalidate? ==> handler.failedOn == {handler.phase.client}
  }

  ghost predicate AllAvoid(s: State) {
    forall h :: 0 <= h < |s.handlers| ==> Avoids(s, s.handlers[h]) && OneFailure(s.handlers[h])
  }

  /** What a handler has failed on so far fits its attempt. */
  ghost predicate FailuresFit(handler: Handler) {
    match handler.phase
    case Idle(a) => a == 0 ==> handler.failedOn == {}
    case Reading(a) => a == 0 ==> handler.failedOn == {}
    case WantWrite(a) => a == 0 ==> handler.failedOn == {}
    case Writing(a) => a == 0 ==> handler.failedOn == {}
    case Connecting(a) => a == 0 ==> handler.failedOn == {}
    case Sending(a, _) => a == 0 ==> handler.failedOn == {}
    case _ => true
  }

  ghost predicate AllFit(s: State) {
    forall h :: 0 <= h < |s.handlers| ==> FailuresFit(s.handlers[h])
  }

  lemma FitStep(s: State, step: Step)
    requires AllFit(s) && Enabled(s, step)
    ensures AllFit(Apply(s, step))
  {
    if !step.Arrive? && !step.Dies? { assert FailuresFit(s.handlers[step.handler]); }
  }

  /** The handler that takes the step, and the others. */
  lemma AvoidStep(s: State, step: Step, h: HandlerId)
    requires Invariant(s) && AllAvoid(s) && AllFit(s) && Enabled(s, step) && h < |Apply(s, step).handlers|
    ensures Avoids(Apply(s, step), Apply(s, step).handlers[h]) && OneFailure(Apply(s, step).handlers[h])
  {
    if h < |s.handlers| {
      assert HandlerOk(s, s.handlers[h]) && Avoids(s, s.handlers[h]) && OneFailure(s.handlers[h]);
      assert FailuresFit(s.handlers[h]);
    }
  }

  lemma {:induction false} ReachableAvoids(run: Run, i: nat)
    requires Valid(run) && i < |run.states|
    ensures AllAvoid(run.states[i]) && AllFit(run.states[i])
  {
    if i > 0 {
      ReachableAvoids(run, i - 1);
      ReachableOk(run, i - 1);
      assert Taken(run, i - 1);
      FitStep(run.states[i - 1], run.steps[i - 1]);
      forall h | 0 <= h < |run.states[i].handlers|
        ensures Avoids(run.states[i], run.states[i].handlers[h]) && OneFailure(run.states[i].handlers[h])
      {
        AvoidStep(run.states[i - 1], run.steps[i - 1], h);
      }
    }
  }

  /** The retry never goes to the client whose send failed: by then it is out of the
      slot, for good. */
  lemma RetryUsesAnotherClient(run: Run, i: nat, h: HandlerId)
    requires Valid(run) && i < |run.states| && h < |run.states[i].handlers|
    requires run.states[i].handlers[h].phase.Sending?
    ensures run.states[i].handlers[h].phase.client !in run.states[i].handlers[h].failedOn
  {
    ReachableAvoids(run, i);
    assert Avoids(run.states[i], run.states[i].handlers[h]);
  }
}
