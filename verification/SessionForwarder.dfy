/** The two pieces of sequential code inside the session: the select loop that
    forwards one operation's events, and the registry the operations share. */
module SessionForwarder {
  import opened Bytes
  import opened Session

  /** One round of `select!`: what was ready. A shard run's final event arrives
      as a token marked done. */
  datatype Event = CancelReady | TokenReady(done: bool) | FailureReady | StreamClosed

  predicate Ends(e: Event) {
    !(e.TokenReady? && !e.done)
  }

  /** The frames one event sends. */
  function FramesFor(id: nat, e: Event): seq<ServerFrame> {
    match e
    case CancelReady => [ServerFrame(id, Error(Cancelled))]
    case TokenReady(false) => [ServerFrame(id, Token(false))]
    case TokenReady(true) => [ServerFrame(id, Token(true)), ServerFrame(id, Done)]
    case FailureReady => [ServerFrame(id, Error(OtherCode))]
    case StreamClosed => [ServerFrame(id, Done)]
  }

  /** The frames a sequence of events sends. */
  function AllFrames(id: nat, events: seq<Event>): seq<ServerFrame> {
    if events == [] then []
    else AllFrames(id, events[..|events| - 1]) + FramesFor(id, events[|events| - 1])
  }

  /** Tokens in order, closed by exactly one terminal frame. */
  ghost predicate WellFormed(id: nat, frames: seq<ServerFrame>) {
    && frames != []
    && (forall i :: 0 <= i < |frames| ==> frames[i].id == id)
    && Terminal(frames[|frames| - 1].reply)
    && (forall i :: 0 <= i < |frames| - 1 ==> frames[i].reply.Token?)
    && (forall i :: 0 <= i < |frames| - 2 ==> frames[i].reply == Token(false))
  }

  lemma {:induction false} TokensOnly(id: nat, events: seq<Event>)
    requires forall k :: 0 <= k < |events| ==> !Ends(events[k])
    ensures |AllFrames(id, events)| == |events|
    ensures forall k :: 0 <= k < |AllFrames(id, events)| ==> AllFrames(id, events)[k] == ServerFrame(id, Token(false))
  {
    if events != [] { TokensOnly(id, events[..|events| - 1]); }
  }

  lemma EndedIsWellFormed(id: nat, events: seq<Event>)
    requires events != [] && Ends(events[|events| - 1])
    requires forall k :: 0 <= k < |events| - 1 ==> !Ends(events[k])
    ensures WellFormed(id, AllFrames(id, events))
  {
    TokensOnly(id, events[..|events| - 1]);
    ClosedIsWellFormed(id, AllFrames(id, events[..|events| - 1]), events[|events| - 1]);
  }

  lemma ClosedIsWellFormed(id: nat, tokens: seq<ServerFrame>, e: Event)
    requires Ends(e) && forall k :: 0 <= k < |tokens| ==> tokens[k] == ServerFrame(id, Token(false))
    ensures WellFormed(id, tokens + FramesFor(id, e))
  {
  }

  lemma NextFrames(id: nat, events: seq<Event>, used: nat)
    requires used < |events|
    ensures AllFrames(id, events[..used + 1]) == AllFrames(id, events[..used]) + FramesFor(id, events[used])
  {
    assert events[..used + 1][..used] == events[..used];
  }

  /** What the client has been told once the loop has ended. */
  lemma Told(id: nat, events: seq<Event>)
    requires events != [] && Ends(events[|events| - 1])
    requires forall k :: 0 <= k < |events| - 1 ==> !Ends(events[k])
    ensures var frames, e := AllFrames(id, events), events[|events| - 1];
            && WellFormed(id, frames)
            && |frames| == (if e == TokenReady(true) then |events| + 1 else |events|)
            && var last := frames[|frames| - 1].reply;
            && (last == Done <==> e == TokenReady(true) || e == StreamClosed)
            && (last == Error(Cancelled) <==> e == CancelReady)
            && (last.Error? && last != Error(Cancelled) <==> e == FailureReady)
            && (e == TokenReady(true) ==> frames[|events| - 1] == ServerFrame(id, Token(true)))
  {
    EndedIsWellFormed(id, events);
    EndedLength(id, events);
  }

  lemma EndedLength(id: nat, events: seq<Event>)
    requires events != [] && forall k :: 0 <= k < |events| - 1 ==> !Ends(events[k])
    ensures |AllFrames(id, events)| == |events| - 1 + |FramesFor(id, events[|events| - 1])|
  {
    TokensOnly(id, events[..|events| - 1]);
  }

  /** The forwarder's loop over the events that become ready: it stops at the
      first one that ends the operation, however many follow, and otherwise goes
      on waiting. */
  method Forward(id: nat, events: seq<Event>) returns (frames: seq<ServerFrame>, used: nat, ended: bool)
    ensures used <= |events| && frames == AllFrames(id, events[..used])
    ensures ended <==> exists k :: 0 <= k < |events| && Ends(events[k])
    ensures ended ==> used > 0 && Ends(events[used - 1]) && WellFormed(id, frames)
    ensures !ended ==> used == |events| && forall k :: 0 <= k < |frames| ==> frames[k] == ServerFrame(id, Token(false))
    ensures forall k :: 0 <= k < used - 1 ==> !Ends(events[k])
    ensures ended ==>
              var last, e := frames[|frames| - 1].reply, events[used - 1];
              && (last == Done <==> e == TokenReady(true) || e == StreamClosed)
              && (last == Error(Cancelled) <==> e == CancelReady)
              && (last.Error? && last != Error(Cancelled) <==> e == FailureReady)
              && |frames| == (if e == TokenReady(true) then used + 1 else used)
              && (e == TokenReady(true) ==> frames[used - 1] == ServerFrame(id, Token(true)))
  {
    frames, used, ended := [], 0, false;
    while used < |events| && !ended
      invariant used <= |events| && frames == AllFrames(id, events[..used])
      invariant forall k :: 0 <= k < (if ended then used - 1 else used) ==> !Ends(events[k])
      invariant ended ==> used > 0 && Ends(events[used - 1])
    {
      var e := events[used];
      NextFrames(id, events, used);
      used := used + 1;
      match e {
        case CancelReady =>
          frames := frames + [ServerFrame(id, Error(Cancelled))];
          ended := true;
        case TokenReady(done) =>
          frames := frames + [ServerFrame(id, Token(done))];
          if done {
            frames := frames + [ServerFrame(id, Done)];
            ended := true;
          }
        case FailureReady =>
          frames := frames + [ServerFrame(id, Error(OtherCode))];
          ended := true;
        case StreamClosed =>
          frames := frames + [ServerFrame(id, Done)];
          ended := true;
      }
    }
    if ended {
      Told(id, events[..used]);
    } else { TokensOnly(id, events[..used]); }
  }

  // ── The loop as steps of the session ──────────────────────────────────────

  function StepOf(n: OpId, e: Event): Step {
    match e
    case CancelReady => OnCancel(n)
    case TokenReady(done) => OnToken(n, done)
    case FailureReady => OnError(n)
    case StreamClosed => OnClosed(n)
  }

  function Tag(n: OpId, frames: seq<ServerFrame>): (out: seq<Emitted>)
    ensures |out| == |frames| && forall i :: 0 <= i < |frames| ==> out[i] == Emitted(n, frames[i])
  {
    seq(|frames|, i requires 0 <= i < |frames| => Emitted(n, frames[i]))
  }

  ghost predicate OwnStep(n: OpId, a: State, step: Step, b: State) {
    IsSimple(step) && step.op == n && Enabled(a, step) && b == Apply(a, step)
  }

  /** A run of steps of operation `n` only. */
  ghost predicate OwnRun(n: OpId, states: seq<State>, steps: seq<Step>) {
    |states| == |steps| + 1 && forall i :: 0 <= i < |steps| ==> OwnStepAt(n, states, steps, i)
  }

  ghost predicate OwnStepAt(n: OpId, states: seq<State>, steps: seq<Step>, i: nat)
    requires i < |steps| < |states|
  {
    OwnStep(n, states[i], steps[i], states[i + 1])
  }

  lemma OneMore(n: OpId, states: seq<State>, steps: seq<Step>, step: Step, s': State)
    requires OwnRun(n, states, steps) && OwnStep(n, states[|steps|], step, s')
    ensures OwnRun(n, states + [s'], steps + [step])
  {
    var states', steps' := states + [s'], steps + [step];
    forall i | 0 <= i < |steps'|
      ensures OwnStepAt(n, states', steps', i)
    {
      if i < |steps| { assert OwnStepAt(n, states, steps, i); }
    }
  }

  /** What one event does to its operation while the client reads. */
  lemma EventStep(n: OpId, t: State, e: Event) returns (t': State)
    requires At(t, n, Running) && t.reading && (e.CancelReady? ==> t.ops[n].signal != Pending)
    ensures OwnStep(n, t, StepOf(n, e), t')
    ensures t'.reading && n < |t'.ops| && t'.ops[n] == t.ops[n].(phase := t'.ops[n].phase)
    ensures t'.ops[n].phase == if e == TokenReady(true) then Finishing else if Ends(e) then Cleanup else Running
    ensures t'.out == t.out + [Emitted(n, FramesFor(t.ops[n].frame.id, e)[0])]
  {
    t' := Apply(t, StepOf(n, e));
    SimpleEffect(t, StepOf(n, e));
  }

  lemma FinishStep(n: OpId, t: State) returns (t': State)
    requires At(t, n, Finishing) && t.reading
    ensures OwnStep(n, t, SendDone(n), t') && At(t', n, Cleanup)
    ensures t'.out == t.out + [Emitted(n, ServerFrame(t.ops[n].frame.id, Done))]
  {
    t' := Apply(t, SendDone(n));
    SimpleEffect(t, SendDone(n));
  }

  lemma TagAppend(n: OpId, out: seq<Emitted>, a: seq<ServerFrame>, b: seq<ServerFrame>)
    ensures out + Tag(n, a) + Tag(n, b) == out + Tag(n, a + b)
  {
  }

  /** Where operation `n` stands once its loop has consumed `events` from `s` on. */
  ghost predicate Consumed(n: OpId, s: State, s': State, events: seq<Event>)
    requires n < |s.ops|
  {
    && s'.out == s.out + Tag(n, AllFrames(s.ops[n].frame.id, events))
    && if events != [] && Ends(events[|events| - 1]) then At(s', n, Cleanup)
       else At(s', n, Running) && s'.reading && s'.ops[n] == s.ops[n]
  }

  lemma ConsumedOneMore(n: OpId, s: State, t: State, s': State, events: seq<Event>, e: Event)
    requires n < |s.ops| && Consumed(n, s, t, events) && Consumed(n, t, s', [e]) && t.ops[n] == s.ops[n]
    ensures Consumed(n, s, s', events + [e])
  {
    var id := s.ops[n].frame.id;
    assert (events + [e])[..|events|] == events;
    assert AllFrames(id, [e]) == FramesFor(id, e) by {
      assert [e][..0] == [];
      assert AllFrames(id, [e]) == [] + FramesFor(id, e);
    }
    TagAppend(n, s.out, AllFrames(id, events), FramesFor(id, e));
  }

  /** The loop is a run of the session's steps: whatever events it consumed, the
      same frames leave in the same order, and the operation is ready for its
      cleanup exactly when the loop has ended. */
  lemma {:induction false} LoopIsSessionSteps(n: OpId, s: State, events: seq<Event>)
    returns (states: seq<State>, steps: seq<Step>)
    requires At(s, n, Running) && s.reading
    requires forall k :: 0 <= k < |events| - 1 ==> !Ends(events[k])
    requires forall k :: 0 <= k < |events| && events[k].CancelReady? ==> s.ops[n].signal != Pending
    ensures OwnRun(n, states, steps) && states[0] == s
    ensures Consumed(n, s, states[|steps|], events)
    decreases |events|
  {
    if events == [] {
      return [s], [];
    }
    var e, init := events[|events| - 1], events[..|events| - 1];
    states, steps := LoopIsSessionSteps(n, s, init);
    var t := states[|steps|];
    assert At(t, n, Running) && t.reading && t.ops[n] == s.ops[n];
    states, steps := EventRun(n, states, steps, e);
    ConsumedOneMore(n, s, t, states[|steps|], init, e);
    assert init + [e] == events;
  }

  /** One event takes one step, or two when it is the done token. */
  lemma EventRun(n: OpId, states: seq<State>, steps: seq<Step>, e: Event)
    returns (states': seq<State>, steps': seq<Step>)
    requires OwnRun(n, states, steps)
    requires var t := states[|steps|];
             At(t, n, Running) && t.reading && (e.CancelReady? ==> t.ops[n].signal != Pending)
    ensures OwnRun(n, states', steps') && states'[0] == states[0]
    ensures Consumed(n, states[|steps|], states'[|steps'|], [e])
  {
    var t := EventStep(n, states[|steps|], e);
    OneMore(n, states, steps, StepOf(n, e), t);
    states', steps' := states + [t], steps + [StepOf(n, e)];
    if e == TokenReady(true) {
      var t' := FinishStep(n, t);
      OneMore(n, states', steps', SendDone(n), t');
      states', steps' := states' + [t'], steps' + [SendDone(n)];
    }
    OneEvent(n, states[|steps|], states'[|steps'|], e);
  }

  lemma OneEvent(n: OpId, t: State, t': State, e: Event)
    requires n < |t.ops| && t'.out == t.out + Tag(n, FramesFor(t.ops[n].frame.id, e))
    requires if Ends(e) then At(t', n, Cleanup) else At(t', n, Running) && t'.reading && t'.ops[n] == t.ops[n]
    ensures Consumed(n, t, t', [e])
  {
    var id := t.ops[n].frame.id;
    assert [e][..0] == [];
    assert AllFrames(id, [e]) == [] + FramesFor(id, e);
  }

  // ── The registry ──────────────────────────────────────────────────────────

  /** The map of cancel senders. Each operation performs the matching step of the
      session on the registry of state `s`, which is there for the proof only. */
  class CancelRegistry {
    var cancels: map<nat, OpId>

    constructor ()
      ensures cancels == INITIAL.cancels
    {
      cancels := map[];
    }

    /** Inserting over an entry drops the sender that was there: exactly that
        operation's signal changes. */
    method Insert(id: nat, op: OpId, ghost s: State) returns (dropped: Option<OpId>)
      requires cancels == s.cancels && Enabled(s, Register(op)) && s.ops[op].frame.id == id
      modifies this
      ensures cancels == Apply(s, Register(op)).cancels
      ensures RegistryOk(s) ==>
                && dropped != Some(op) && (dropped.Some? ==> Clashes(s, Register(op), dropped.value))
                && forall m :: 0 <= m < |s.ops| && m != op ==>
                     Apply(s, Register(op)).ops[m]
                     == if dropped == Some(m) then s.ops[m].(signal := Dropped) else s.ops[m]
    {
      dropped := if id in cancels then Some(cancels[id]) else None;
      cancels := cancels[id := op];
      if RegistryOk(s) { assert OpOk(s, op); }
    }

    /** Taking out a sender to signal it: the Cancel frame is acknowledged exactly
        when there was one, and exactly that operation is signalled. */
    method TakeForCancel(target: nat, ghost s: State, ghost n: OpId) returns (removed: Option<OpId>)
      requires cancels == s.cancels && Enabled(s, Lookup(n)) && s.ops[n].frame.body == Cancel(target)
      modifies this
      ensures RegistryOk(s) ==>
                && cancels == Apply(s, Lookup(n)).cancels
                && Apply(s, Lookup(n)).ops[n].phase == (if removed.Some? then Acked else Refused)
                && (removed.Some? ==> Hits(s, Lookup(n), removed.value))
                && forall m :: 0 <= m < |s.ops| && m != n ==>
                     Apply(s, Lookup(n)).ops[m]
                     == if removed == Some(m) then s.ops[m].(signal := Fired, signals := 1) else s.ops[m]
    {
      removed := if target in cancels then Some(cancels[target]) else None;
      if RegistryOk(s) {
        TakenIsHit(s, n, target);
      }
      cancels := cancels - {target};
    }

    /** An operation's cleanup: what it drops is its own sender, already of no use,
        or that of another operation with its id. */
    method RemoveAtEnd(id: nat, ghost s: State, ghost n: OpId) returns (removed: Option<OpId>)
      requires cancels == s.cancels && Enabled(s, CleanUp(n)) && s.ops[n].frame.id == id
      modifies this
      ensures cancels == Apply(s, CleanUp(n)).cancels
      ensures RegistryOk(s) && removed.Some? && removed.value != n ==> Clashes(s, CleanUp(n), removed.value)
      ensures RegistryOk(s) ==>
                forall m :: 0 <= m < |s.ops| && m != n ==>
                  Apply(s, CleanUp(n)).ops[m] == if removed == Some(m) then s.ops[m].(signal := Dropped) else s.ops[m]
    {
      removed := if id in cancels then Some(cancels[id]) else None;
      cancels := cancels - {id};
      CleanUpEffect(s, n);
    }
  }

  lemma TakenIsHit(s: State, n: OpId, target: nat)
    requires RegistryOk(s) && Enabled(s, Lookup(n)) && s.ops[n].frame.body == Cancel(target)
    ensures target in s.cancels ==>
              && Hits(s, Lookup(n), s.cancels[target]) && s.cancels[target] != n
              && s.ops[s.cancels[target]].signals == 0
    ensures target !in s.cancels ==> s.cancels - {target} == s.cancels
  {
    if target in s.cancels { assert OpOk(s, s.cancels[target]); }
  }
}
