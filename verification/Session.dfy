/** The bidirectional `Session` RPC: a dispatcher takes client frames one by one,
    each operation emits into one output channel, and a registry of one-shot
    senders lets a later frame cancel a running operation.

    An operation is named by its position in the stream of client frames; frame
    ids are chosen by the client and may repeat unless a lemma says otherwise. */
module Session {
  import opened Bytes

  type OpId = nat

  datatype Body = Missing | Ping | Status | Generate | ShardRun | Cancel(target: nat)
  datatype ClientFrame = ClientFrame(id: nat, body: Body)

  datatype ErrorCode = InvalidArgument | NotFound | Cancelled | OtherCode
  datatype Reply = Pong | StatusReply | Token(done: bool) | Done | Error(code: ErrorCode)
  datatype ServerFrame = ServerFrame(id: nat, reply: Reply)

  /** A frame on the output channel, with the operation that sent it. */
  datatype Emitted = Emitted(op: OpId, frame: ServerFrame)

  /** The receiving half of an operation's cancel one-shot. */
  datatype Signal = Pending | Fired | Dropped

  datatype Phase =
    | Taken         // held by the dispatcher
    | Replied       // a reply went out, Done comes next
    | Acked         // a Cancel that removed a sender
    | Refused       // a Cancel that found nothing
    | Initialising  // registered, the dispatcher awaits the inference slot
    | Running       // the forwarder's select loop
    | Finishing     // the done token went out, Done comes next
    | Cleanup       // out of the loop, the registry entry is still to be removed
    | Ended

  /** `found` records what a Cancel frame found, `signals` how often the
      operation was signalled. */
  datatype Op = Op(frame: ClientFrame, phase: Phase, signal: Signal, signals: nat, found: bool)

  datatype State = State(
    reading: bool,            // the client still reads its stream
    busy: Option<OpId>,       // what the dispatcher is working on
    cancels: map<nat, OpId>,  // the registry: id to the sender of that operation
    ops: seq<Op>,
    out: seq<Emitted>)

  const INITIAL := State(true, None, map[], [], [])

  datatype Step =
    | Receive(frame: ClientFrame)
    | RejectMissing(op: OpId)
    | SendReply(op: OpId)
    | SendDone(op: OpId)
    | Lookup(op: OpId)
    | AckCancel(op: OpId)
    | RefuseCancel(op: OpId)
    | Register(op: OpId)
    | InitFails(op: OpId)
    | InitSucceeds(op: OpId)
    | OnCancel(op: OpId)
    | OnToken(op: OpId, done: bool)
    | OnError(op: OpId)
    | OnClosed(op: OpId)
    | CleanUp(op: OpId)
    | ClientGone

  predicate At(s: State, n: OpId, phase: Phase) {
    n < |s.ops| && s.ops[n].phase == phase
  }

  predicate Cancellable(body: Body) {
    body == Generate || body == ShardRun
  }

  predicate Enabled(s: State, step: Step) {
    match step
    case Receive(_) => s.busy.None?
    case RejectMissing(n) => At(s, n, Taken) && s.ops[n].frame.body == Missing
    case SendReply(n) => At(s, n, Taken) && (s.ops[n].frame.body == Ping || s.ops[n].frame.body == Status)
    case SendDone(n) => At(s, n, Replied) || At(s, n, Finishing)
    case Lookup(n) => At(s, n, Taken) && s.ops[n].frame.body.Cancel?
    case AckCancel(n) => At(s, n, Acked)
    case RefuseCancel(n) => At(s, n, Refused)
    case Register(n) => At(s, n, Taken) && Cancellable(s.ops[n].frame.body)
    case InitFails(n) => At(s, n, Initialising)
    case InitSucceeds(n) => At(s, n, Initialising)
    case OnCancel(n) => At(s, n, Running) && s.ops[n].signal != Pending
    case OnToken(n, _) => At(s, n, Running)
    case OnError(n) => At(s, n, Running)
    case OnClosed(n) => At(s, n, Running)
    case CleanUp(n) => At(s, n, Cleanup)
    case ClientGone => true
  }

  // ── Steps ─────────────────────────────────────────────────────────────────

  /** Sending on the output channel; ignored once the client has gone. */
  function Emit(s: State, n: OpId, reply: Reply): seq<Emitted>
    requires n < |s.ops|
  {
    if s.reading then s.out + [Emitted(n, ServerFrame(s.ops[n].frame.id, reply))] else s.out
  }

  function Move(s: State, n: OpId, phase: Phase): State
    requires n < |s.ops|
  {
    s.(ops := s.ops[n := s.ops[n].(phase := phase)])
  }

  /** The dispatcher is done with `n`. */
  function Release(s: State, n: OpId): State {
    if s.busy == Some(n) then s.(busy := None) else s
  }

  /** The sender under `id` goes away unused: whoever waits on it is woken. */
  function DropSender(ops: seq<Op>, cancels: map<nat, OpId>, id: nat): (ops': seq<Op>)
    ensures |ops'| == |ops|
    ensures forall m :: 0 <= m < |ops| ==>
              ops'[m] == if id in cancels && cancels[id] == m && ops[m].signal == Pending
                         then ops[m].(signal := Dropped) else ops[m]
  {
    if id in cancels && cancels[id] < |ops| && ops[cancels[id]].signal == Pending then
      ops[cancels[id] := ops[cancels[id]].(signal := Dropped)]
    else ops
  }

  function LookupTarget(s: State, n: OpId): State
    requires n < |s.ops| && s.ops[n].frame.body.Cancel?
  {
    var target := s.ops[n].frame.body.target;
    if target in s.cancels && s.cancels[target] < |s.ops| then
      var m := s.cancels[target];
      var fired := s.ops[m := s.ops[m].(signal := Fired, signals := s.ops[m].signals + 1)];
      s.(cancels := s.cancels - {target}, ops := fired[n := fired[n].(phase := Acked, found := true)])
    else Move(s, n, Refused)
  }

  function RegisterSender(s: State, n: OpId): State
    requires n < |s.ops|
  {
    var op := s.ops[n];
    var ops := DropSender(s.ops, s.cancels, op.frame.id);
    var s' := s.(ops := ops[n := op.(phase := if op.frame.body == Generate then Initialising else Running)],
                 cancels := s.cancels[op.frame.id := n]);
    if op.frame.body == Generate then s' else Release(s', n)
  }

  function RemoveOwn(s: State, n: OpId): State
    requires n < |s.ops|
  {
    var id := s.ops[n].frame.id;
    var ops := DropSender(s.ops, s.cancels, id);
    Release(s.(ops := ops[n := s.ops[n].(phase := Ended)], cancels := s.cancels - {id}), n)
  }

  /** Steps of one operation that leave the registry alone. */
  predicate IsSimple(step: Step) {
    !(step.Receive? || step.Lookup? || step.Register? || step.CleanUp? || step.ClientGone?)
  }

  /** A shard run stops at once when a token cannot be delivered. */
  predicate LosesToken(s: State, step: Step) {
    step.OnToken? && !step.done && !s.reading && step.op < |s.ops| && s.ops[step.op].frame.body == ShardRun
  }

  /** What an operation sends in a step, if anything. */
  function Said(s: State, step: Step): Option<Reply>
    requires Enabled(s, step)
  {
    match step
    case RejectMissing(_) => Some(Error(InvalidArgument))
    case SendReply(n) => Some(if s.ops[n].frame.body == Ping then Pong else StatusReply)
    case SendDone(_) => Some(Done)
    case AckCancel(_) => Some(Done)
    case RefuseCancel(_) => Some(Error(NotFound))
    case InitFails(_) => Some(Error(OtherCode))
    case OnCancel(_) => Some(Error(Cancelled))
    case OnToken(_, done) => if LosesToken(s, step) then None else Some(Token(done))
    case OnError(_) => Some(Error(OtherCode))
    case OnClosed(_) => Some(Done)
    case _ => None
  }

  /** Where a simple step takes its operation. */
  function PhaseAfter(s: State, step: Step): Phase
    requires Enabled(s, step) && IsSimple(step)
  {
    match step
    case RejectMissing(_) => Ended
    case SendReply(_) => Replied
    case SendDone(n) => if s.ops[n].phase == Replied then Ended else Cleanup
    case AckCancel(_) => Ended
    case RefuseCancel(_) => Ended
    case InitFails(_) => Cleanup
    case InitSucceeds(_) => Running
    case OnCancel(_) => Cleanup
    case OnToken(_, done) => if LosesToken(s, step) then Cleanup else if done then Finishing else Running
    case OnError(_) => Cleanup
    case OnClosed(_) => Cleanup
  }

  /** Whether the dispatcher goes on to the next frame after the step. */
  predicate Releases(s: State, step: Step)
    requires Enabled(s, step) && IsSimple(step)
  {
    step.InitSucceeds? || PhaseAfter(s, step) == Ended
  }

  function Simple(s: State, n: OpId, said: Option<Reply>, phase: Phase, release: bool): State
    requires n < |s.ops|
  {
    var moved := Move(s, n, phase).(out := if said.Some? then Emit(s, n, said.value) else s.out);
    if release then Release(moved, n) else moved
  }

  function Apply(s: State, step: Step): State
    requires Enabled(s, step)
  {
    match step
    case Receive(frame) => s.(ops := s.ops + [Op(frame, Taken, Pending, 0, false)], busy := Some(|s.ops|))
    case Lookup(n) => LookupTarget(s, n)
    case Register(n) => RegisterSender(s, n)
    case CleanUp(n) => RemoveOwn(s, n)
    case ClientGone => s.(reading := false)
    case _ => Simple(s, step.op, Said(s, step), PhaseAfter(s, step), Releases(s, step))
  }

  /** What a simple step does to the state. */
  lemma SimpleEffect(s: State, step: Step)
    requires Enabled(s, step) && IsSimple(step)
    ensures var s', n := Apply(s, step), step.op;
            && n < |s.ops| == |s'.ops| && s'.cancels == s.cancels && s'.reading == s.reading
            && s'.ops == s.ops[n := s.ops[n].(phase := PhaseAfter(s, step))]
            && s'.out == (if Said(s, step).Some? then Emit(s, n, Said(s, step).value) else s.out)
            && s'.busy == (if Releases(s, step) && s.busy == Some(n) then None else s.busy)
  {
  }

  // ── Invariant: output ─────────────────────────────────────────────────────

  predicate Terminal(reply: Reply) {
    reply.Done? || reply.Error?
  }

  predicate Settled(op: Op) {
    op.phase == Cleanup || op.phase == Ended
  }

  ghost predicate HasTerminal(out: seq<Emitted>, n: OpId) {
    exists i :: 0 <= i < |out| && out[i].op == n && Terminal(out[i].frame.reply)
  }

  ghost predicate OutputOk(s: State) {
    && (forall i :: 0 <= i < |s.out| ==>
          s.out[i].op < |s.ops| && s.out[i].frame.id == s.ops[s.out[i].op].frame.id)
    && (forall i, j :: 0 <= i < j < |s.out| && s.out[i].op == s.out[j].op ==> !Terminal(s.out[i].frame.reply))
    && (forall i :: 0 <= i < |s.out| && Terminal(s.out[i].frame.reply) ==> Settled(s.ops[s.out[i].op]))
    && (s.reading ==> forall n :: 0 <= n < |s.ops| && Settled(s.ops[n]) ==> HasTerminal(s.out, n))
  }

  /** Same operations, possibly moved on, none newly settled or unsettled but `n`. */
  ghost predicate OnlyMoves(s: State, s': State, n: OpId) {
    && |s'.ops| == |s.ops| && s'.reading == s.reading
    && (forall m :: 0 <= m < |s.ops| ==> s'.ops[m].frame == s.ops[m].frame)
    && (forall m :: 0 <= m < |s.ops| && m != n ==> Settled(s'.ops[m]) == Settled(s.ops[m]))
  }

  lemma EmitKeepsOutput(s: State, s': State, n: OpId, reply: Reply)
    requires OutputOk(s) && n < |s.ops| && !Settled(s.ops[n]) && OnlyMoves(s, s', n)
    requires s'.out == Emit(s, n, reply) && (Settled(s'.ops[n]) <==> Terminal(reply))
    ensures OutputOk(s')
  {
    forall m | 0 <= m < |s'.ops| && Settled(s'.ops[m]) && s.reading
      ensures HasTerminal(s'.out, m)
    {
      if m == n {
        assert s'.out[|s.out|].op == n && Terminal(s'.out[|s.out|].frame.reply);
      } else {
        var i :| 0 <= i < |s.out| && s.out[i].op == m && Terminal(s.out[i].frame.reply);
        assert s'.out[i] == s.out[i];
      }
    }
  }

  lemma QuietKeepsOutput(s: State, s': State, n: OpId)
    requires OutputOk(s) && n < |s.ops| && OnlyMoves(s, s', n) && s'.out == s.out
    requires Settled(s'.ops[n]) == Settled(s.ops[n]) || (!s.reading && Settled(s'.ops[n]))
    ensures OutputOk(s')
  {
  }

  // ── Invariant: registry ───────────────────────────────────────────────────

  /** Registered and not yet cleaned up. */
  predicate Active(op: Op) {
    Cancellable(op.frame.body) && HasRegistered(op.phase)
  }

  predicate WithDispatcher(phase: Phase) {
    phase == Taken || phase == Replied || phase == Acked || phase == Refused || phase == Initialising
  }

  predicate HasRegistered(phase: Phase) {
    phase == Initialising || phase == Running || phase == Finishing || phase == Cleanup
  }

  ghost predicate OpOk(s: State, n: OpId)
    requires n < |s.ops|
  {
    var op := s.ops[n];
    && (HasRegistered(op.phase) ==> Cancellable(op.frame.body))
    && (WithDispatcher(op.phase) ==> s.busy == Some(n))
    && (op.phase == Taken ==> op.signal == Pending && !op.found)
    && (op.phase == Replied ==> op.frame.body == Ping || op.frame.body == Status)
    && (op.phase == Acked || op.phase == Refused ==> op.frame.body.Cancel? && op.found == (op.phase == Acked))
    && (op.signals == if op.signal == Fired then 1 else 0)
    && (op.signal == Pending && Active(op) ==> op.frame.id in s.cancels && s.cancels[op.frame.id] == n)
  }

  ghost predicate RegistryOk(s: State) {
    && (forall id :: id in s.cancels ==>
          var m := s.cancels[id];
          m < |s.ops| && s.ops[m].frame.id == id && Active(s.ops[m]) && s.ops[m].signal == Pending)
    && (forall n :: 0 <= n < |s.ops| ==> OpOk(s, n))
    && (s.busy.Some? ==> s.busy.value < |s.ops| && !(s.ops[s.busy.value].phase == Ended))
  }

  /** One operation moves on without entering or leaving the registry. */
  lemma MoveKeepsRegistry(s: State, s': State, n: OpId)
    requires RegistryOk(s) && n < |s.ops| == |s'.ops| && s'.cancels == s.cancels
    requires s'.ops == s.ops[n := s.ops[n].(phase := s'.ops[n].phase, found := s'.ops[n].found)]
    requires s'.busy == s.busy || (s.busy == Some(n) && s'.busy == None)
    requires Active(s'.ops[n]) == Active(s.ops[n]) && OpOk(s', n)
    requires s'.ops[n].phase == Ended ==> s'.busy != Some(n)
    ensures RegistryOk(s')
  {
    forall m | 0 <= m < |s'.ops|
      ensures OpOk(s', m)
    {
      assert OpOk(s, m);
      assert OpOk(s, n);
    }
  }

  lemma ReceiveKeepsRegistry(s: State, frame: ClientFrame)
    requires RegistryOk(s) && s.busy.None?
    ensures RegistryOk(Apply(s, Receive(frame)))
  {
    var s' := Apply(s, Receive(frame));
    forall m | 0 <= m < |s'.ops|
      ensures OpOk(s', m)
    {
      if m < |s.ops| { assert OpOk(s, m); }
    }
  }

  lemma LookupKeepsRegistry(s: State, n: OpId)
    requires RegistryOk(s) && Enabled(s, Lookup(n))
    ensures RegistryOk(LookupTarget(s, n))
  {
    var s' := LookupTarget(s, n);
    assert OpOk(s, n);
    var target := s.ops[n].frame.body.target;
    if target in s.cancels {
      forall m | 0 <= m < |s'.ops|
        ensures OpOk(s', m)
      {
        assert OpOk(s, m);
      }
    } else {
      MoveKeepsRegistry(s, s', n);
    }
  }

  lemma RegisterKeepsOps(s: State, n: OpId)
    requires RegistryOk(s) && Enabled(s, Register(n))
    ensures forall m :: 0 <= m < |s.ops| ==> OpOk(RegisterSender(s, n), m)
  {
    var s' := RegisterSender(s, n);
    assert OpOk(s, n);
    forall m | 0 <= m < |s.ops|
      ensures OpOk(s', m)
    {
      assert OpOk(s, m);
    }
  }

  lemma RegisterKeepsRegistry(s: State, n: OpId)
    requires RegistryOk(s) && Enabled(s, Register(n))
    ensures RegistryOk(RegisterSender(s, n))
  {
    assert OpOk(s, n);
    RegisterKeepsOps(s, n);
  }

  /** The cleaned-up state, field by field. */
  ghost predicate CleanedUp(s: State, s': State, n: OpId)
    requires n < |s.ops|
  {
    var id := s.ops[n].frame.id;
    && |s'.ops| == |s.ops| && s'.cancels == s.cancels - {id}
    && s'.busy == (if s.busy == Some(n) then None else s.busy)
    && s'.ops[n] == s.ops[n].(phase := Ended)
    && forall m :: 0 <= m < |s.ops| && m != n ==>
         s'.ops[m] == if id in s.cancels && s.cancels[id] == m && s.ops[m].signal == Pending
                      then s.ops[m].(signal := Dropped) else s.ops[m]
  }

  lemma CleanUpEffect(s: State, n: OpId)
    requires n < |s.ops|
    ensures CleanedUp(s, RemoveOwn(s, n), n)
  {
  }

  lemma CleanedUpOp(s: State, s': State, n: OpId, m: OpId)
    requires RegistryOk(s) && n < |s.ops| && s.ops[n].phase == Cleanup && CleanedUp(s, s', n) && m < |s.ops|
    ensures OpOk(s', m)
  {
    assert OpOk(s, m);
    assert OpOk(s, n);
  }

  lemma CleanedUpKeepsRegistry(s: State, s': State, n: OpId)
    requires RegistryOk(s) && n < |s.ops| && s.ops[n].phase == Cleanup && CleanedUp(s, s', n)
    ensures RegistryOk(s')
  {
    forall m | 0 <= m < |s'.ops|
      ensures OpOk(s', m)
    {
      CleanedUpOp(s, s', n, m);
    }
  }

  lemma CleanUpKeepsRegistry(s: State, n: OpId)
    requires RegistryOk(s) && Enabled(s, CleanUp(n))
    ensures RegistryOk(RemoveOwn(s, n))
  {
    CleanUpEffect(s, n);
    CleanedUpKeepsRegistry(s, RemoveOwn(s, n), n);
  }

  /** The phases a simple step leads from and to. */
  lemma SimplePhases(s: State, step: Step)
    requires Enabled(s, step) && IsSimple(step) && step.op < |s.ops| && OpOk(s, step.op)
    ensures var op := s.ops[step.op];
            var moved := op.(phase := PhaseAfter(s, step));
            && !Settled(op) && Active(moved) == Active(op)
            && (HasRegistered(moved.phase) ==> Cancellable(op.frame.body))
            && (WithDispatcher(moved.phase) ==> moved.phase == Replied)
            && (moved.phase == Replied ==> op.phase == Taken && (op.frame.body == Ping || op.frame.body == Status))
  {
  }

  lemma SimpleKeepsRegistry(s: State, step: Step)
    requires RegistryOk(s) && Enabled(s, step) && IsSimple(step)
    ensures RegistryOk(Apply(s, step))
  {
    var s' := Apply(s, step);
    SimpleEffect(s, step);
    assert OpOk(s, step.op);
    SimplePhases(s, step);
    assert s'.ops[step.op].found == s.ops[step.op].found;
    assert OpOk(s', step.op);
    MoveKeepsRegistry(s, s', step.op);
  }

  /** Every step keeps the registry in order. */
  lemma StepKeepsRegistry(s: State, step: Step)
    requires RegistryOk(s) && Enabled(s, step)
    ensures RegistryOk(Apply(s, step))
  {
    match step
    case Receive(frame) => ReceiveKeepsRegistry(s, frame);
    case Lookup(n) => LookupKeepsRegistry(s, n);
    case Register(n) => RegisterKeepsRegistry(s, n);
    case CleanUp(n) => CleanUpKeepsRegistry(s, n);
    case ClientGone => GoneKeepsRegistry(s);
    case _ => SimpleKeepsRegistry(s, step);
  }

  lemma GoneKeepsRegistry(s: State)
    requires RegistryOk(s)
    ensures RegistryOk(s.(reading := false))
  {
    var s' := s.(reading := false);
    forall m | 0 <= m < |s'.ops|
      ensures OpOk(s', m)
    {
      assert OpOk(s, m);
    }
  }

  lemma SimpleSettles(s: State, step: Step)
    requires Enabled(s, step) && IsSimple(step)
    ensures step.op < |s.ops| && !Settled(s.ops[step.op])
    ensures Settled(s.ops[step.op].(phase := PhaseAfter(s, step)))
       <==> LosesToken(s, step) || (Said(s, step).Some? && Terminal(Said(s, step).value))
    ensures Said(s, step).None? <==> step.InitSucceeds? || LosesToken(s, step)
  {
  }

  lemma SimpleKeepsOutput(s: State, step: Step)
    requires OutputOk(s) && Enabled(s, step) && IsSimple(step)
    ensures OutputOk(Apply(s, step))
  {
    var s' := Apply(s, step);
    SimpleEffect(s, step);
    SimpleSettles(s, step);
    if Said(s, step).Some? {
      EmitKeepsOutput(s, s', step.op, Said(s, step).value);
    } else {
      QuietKeepsOutput(s, s', step.op);
    }
  }

  /** Nothing sent, nobody settled. */
  ghost predicate Quiet(s: State, s': State, n: OpId) {
    n < |s.ops| && OnlyMoves(s, s', n) && s'.out == s.out && Settled(s'.ops[n]) == Settled(s.ops[n])
  }

  lemma LookupIsQuiet(s: State, n: OpId)
    requires Enabled(s, Lookup(n))
    ensures Quiet(s, LookupTarget(s, n), n)
  {
  }

  lemma RegisterIsQuiet(s: State, n: OpId)
    requires Enabled(s, Register(n))
    ensures Quiet(s, RegisterSender(s, n), n)
  {
  }

  lemma CleanUpIsQuiet(s: State, n: OpId)
    requires Enabled(s, CleanUp(n))
    ensures Quiet(s, RemoveOwn(s, n), n)
  {
  }

  /** Lookups, registrations and cleanups send nothing and settle nobody. */
  lemma TableStepIsQuiet(s: State, step: Step)
    requires Enabled(s, step) && (step.Lookup? || step.Register? || step.CleanUp?)
    ensures Quiet(s, Apply(s, step), step.op)
  {
    match step
    case Lookup(n) => LookupIsQuiet(s, n);
    case Register(n) => RegisterIsQuiet(s, n);
    case CleanUp(n) => CleanUpIsQuiet(s, n);
  }

  /** Every step keeps the output in order. */
  lemma StepKeepsOutput(s: State, step: Step)
    requires OutputOk(s) && Enabled(s, step)
    ensures OutputOk(Apply(s, step))
  {
    if step.Receive? {
      ReceiveKeepsOutput(s, step.frame);
    } else if IsSimple(step) {
      SimpleKeepsOutput(s, step);
    } else if !step.ClientGone? {
      TableStepIsQuiet(s, step);
      QuietKeepsOutput(s, Apply(s, step), step.op);
    }
  }

  lemma ReceiveKeepsOutput(s: State, frame: ClientFrame)
    requires OutputOk(s) && Enabled(s, Receive(frame))
    ensures OutputOk(Apply(s, Receive(frame)))
  {
    var s' := Apply(s, Receive(frame));
    assert forall m :: 0 <= m < |s.ops| ==> s'.ops[m] == s.ops[m];
  }

  // ── Runs ──────────────────────────────────────────────────────────────────

  datatype Run = Run(states: seq<State>, steps: seq<Step>)

  ghost predicate TakenAt(run: Run, i: nat)
    requires i < |run.steps| < |run.states|
  {
    Enabled(run.states[i], run.steps[i]) && run.states[i + 1] == Apply(run.states[i], run.steps[i])
  }

  ghost predicate Valid(run: Run) {
    && |run.states| == |run.steps| + 1
    && run.states[0] == INITIAL
    && forall i :: 0 <= i < |run.steps| ==> TakenAt(run, i)
  }

  lemma {:induction false} ReachableOk(run: Run, i: nat)
    requires Valid(run) && i < |run.states|
    ensures RegistryOk(run.states[i]) && OutputOk(run.states[i])
  {
    if i > 0 {
      ReachableOk(run, i - 1);
      assert TakenAt(run, i - 1);
      StepKeepsRegistry(run.states[i - 1], run.steps[i - 1]);
      StepKeepsOutput(run.states[i - 1], run.steps[i - 1]);
    }
  }

  /** Each client frame id is used for one frame only. */
  ghost predicate IdsUsedOnce(s: State) {
    forall m, n :: 0 <= m < n < |s.ops| ==> s.ops[m].frame.id != s.ops[n].frame.id
  }

  // ── Terminal frames ───────────────────────────────────────────────────────

  /** An operation sends at most one terminal frame and nothing after it, and
      once it has ended with the client still there, it has sent one. No
      assumption on ids. */
  lemma OneTerminalPerOperation(run: Run, i: nat, n: OpId)
    requires Valid(run) && i < |run.states| && n < |run.states[i].ops|
    ensures var s := run.states[i];
            && (forall a, b :: 0 <= a < b < |s.out| && s.out[a].op == n && s.out[b].op == n ==>
                  !Terminal(s.out[a].frame.reply))
            && (s.reading && s.ops[n].phase == Ended ==> HasTerminal(s.out, n))
            && (!Settled(s.ops[n]) ==> !HasTerminal(s.out, n))
  {
    ReachableOk(run, i);
  }

  /** With ids used once: after a Done or Error no frame with that id follows, so
      the client sees at most one terminal frame per id. */
  lemma NothingFollowsATerminal(run: Run, i: nat, a: nat, b: nat)
    requires Valid(run) && i < |run.states| && IdsUsedOnce(run.states[i])
    requires a < b < |run.states[i].out| && Terminal(run.states[i].out[a].frame.reply)
    ensures run.states[i].out[b].frame.id != run.states[i].out[a].frame.id
  {
    ReachableOk(run, i);
    var s := run.states[i];
    if s.out[a].op == s.out[b].op {
      assert false;
    } else if s.out[a].op < s.out[b].op {
      assert s.ops[s.out[a].op].frame.id != s.ops[s.out[b].op].frame.id;
    } else {
      assert s.ops[s.out[b].op].frame.id != s.ops[s.out[a].op].frame.id;
    }
  }

  function TerminalsWithId(out: seq<Emitted>, id: nat): nat {
    if out == [] then 0
    else
      var last := out[|out| - 1].frame;
      TerminalsWithId(out[..|out| - 1], id) + if last.id == id && Terminal(last.reply) then 1 else 0
  }

  function SettledWithId(ops: seq<Op>, id: nat): nat {
    if ops == [] then 0
    else
      var last := ops[|ops| - 1];
      SettledWithId(ops[..|ops| - 1], id) + if last.frame.id == id && Settled(last) then 1 else 0
  }

  lemma {:induction false} SettledSame(ops: seq<Op>, ops': seq<Op>, id: nat)
    requires |ops'| == |ops|
    requires forall m :: 0 <= m < |ops| ==> ops'[m].frame == ops[m].frame && Settled(ops'[m]) == Settled(ops[m])
    ensures SettledWithId(ops', id) == SettledWithId(ops, id)
  {
    if ops != [] {
      SettledSame(ops[..|ops| - 1], ops'[..|ops| - 1], id);
    }
  }

  lemma {:induction false} SettledOneMore(ops: seq<Op>, ops': seq<Op>, n: OpId, id: nat)
    requires |ops'| == |ops| && n < |ops| && !Settled(ops[n]) && Settled(ops'[n])
    requires forall m :: 0 <= m < |ops| ==> ops'[m].frame == ops[m].frame
    requires forall m :: 0 <= m < |ops| && m != n ==> Settled(ops'[m]) == Settled(ops[m])
    ensures SettledWithId(ops', id) == SettledWithId(ops, id) + if ops[n].frame.id == id then 1 else 0
  {
    var init, init' := ops[..|ops| - 1], ops'[..|ops| - 1];
    if n == |ops| - 1 {
      SettledSame(init, init', id);
    } else {
      SettledOneMore(init, init', n, id);
    }
  }

  lemma StepKeepsCount(s: State, step: Step, id: nat)
    requires Enabled(s, step) && s.reading && !step.ClientGone?
    requires TerminalsWithId(s.out, id) == SettledWithId(s.ops, id)
    ensures TerminalsWithId(Apply(s, step).out, id) == SettledWithId(Apply(s, step).ops, id)
  {
    if step.Receive? {
      assert Apply(s, step).ops[..|s.ops|] == s.ops;
    } else if IsSimple(step) {
      SimpleKeepsCount(s, step, id);
    } else {
      TableStepIsQuiet(s, step);
      SettledSame(s.ops, Apply(s, step).ops, id);
    }
  }

  lemma SimpleKeepsCount(s: State, step: Step, id: nat)
    requires Enabled(s, step) && s.reading && IsSimple(step)
    requires TerminalsWithId(s.out, id) == SettledWithId(s.ops, id)
    ensures TerminalsWithId(Apply(s, step).out, id) == SettledWithId(Apply(s, step).ops, id)
  {
    SimpleEffect(s, step);
    SimpleSettles(s, step);
    if Said(s, step).Some? {
      SaidKeepsCount(s, Apply(s, step), step.op, Said(s, step).value, id);
    } else {
      SettledSame(s.ops, Apply(s, step).ops, id);
    }
  }

  lemma SaidKeepsCount(s: State, s': State, n: OpId, reply: Reply, id: nat)
    requires n < |s.ops| && !Settled(s.ops[n]) && OnlyMoves(s, s', n) && s.reading
    requires s'.out == Emit(s, n, reply) && (Settled(s'.ops[n]) <==> Terminal(reply))
    requires TerminalsWithId(s.out, id) == SettledWithId(s.ops, id)
    ensures TerminalsWithId(s'.out, id) == SettledWithId(s'.ops, id)
  {
    assert s'.out[..|s.out|] == s.out;
    if Terminal(reply) {
      SettledOneMore(s.ops, s'.ops, n, id);
    } else {
      SettledSame(s.ops, s'.ops, id);
    }
  }

  /** Whatever ids the client chooses: the terminal frames it has received with an
      id are exactly as many as its frames with that id whose handling is over. */
  lemma {:induction false} TerminalsCountFrames(run: Run, i: nat, id: nat)
    requires Valid(run) && i < |run.states| && run.states[i].reading
    ensures TerminalsWithId(run.states[i].out, id) == SettledWithId(run.states[i].ops, id)
  {
    if i > 0 {
      assert TakenAt(run, i - 1);
      ReadingEarlier(run, i - 1);
      TerminalsCountFrames(run, i - 1, id);
      StepKeepsCount(run.states[i - 1], run.steps[i - 1], id);
    }
  }

  lemma ReadingEarlier(run: Run, i: nat)
    requires Valid(run) && i < |run.steps| && run.states[i + 1].reading
    ensures run.states[i].reading && !run.steps[i].ClientGone?
  {
    assert TakenAt(run, i);
    if IsSimple(run.steps[i]) { SimpleEffect(run.states[i], run.steps[i]); }
  }

  // ── Cancellation ──────────────────────────────────────────────────────────

  /** There is an operation with that id that is registered, not cleaned up and
      not yet signalled. */
  ghost predicate HasLiveTarget(s: State, target: nat) {
    exists m :: 0 <= m < |s.ops| && s.ops[m].frame.id == target && Active(s.ops[m]) && s.ops[m].signal == Pending
  }

  /** The registry holds exactly the live operations' ids. */
  lemma RegistryIsLiveOperations(run: Run, i: nat, id: nat)
    requires Valid(run) && i < |run.states|
    ensures id in run.states[i].cancels <==> HasLiveTarget(run.states[i], id)
  {
    ReachableOk(run, i);
    var s := run.states[i];
    if id in s.cancels {
      var m := s.cancels[id];
      assert s.ops[m].frame.id == id && Active(s.ops[m]) && s.ops[m].signal == Pending;
    }
    if HasLiveTarget(s, id) {
      var m :| 0 <= m < |s.ops| && s.ops[m].frame.id == id && Active(s.ops[m]) && s.ops[m].signal == Pending;
      assert OpOk(s, m);
    }
  }

  /** The registry is empty once every operation has ended. */
  lemma RegistryEmptiesOut(run: Run, i: nat)
    requires Valid(run) && i < |run.states|
    requires forall n :: 0 <= n < |run.states[i].ops| ==> run.states[i].ops[n].phase == Ended
    ensures run.states[i].cancels == map[]
  {
    ReachableOk(run, i);
    var s := run.states[i];
    forall id
      ensures id !in s.cancels
    {
      if id in s.cancels { assert false; }
    }
  }

  lemma SignalledAtMostOnce(run: Run, i: nat, n: OpId)
    requires Valid(run) && i < |run.states| && n < |run.states[i].ops|
    ensures run.states[i].ops[n].signals <= 1
    ensures run.states[i].ops[n].signals == 1 <==> run.states[i].ops[n].signal == Fired
  {
    ReachableOk(run, i);
    assert OpOk(run.states[i], n);
  }

  // ── Why an operation was cancelled ────────────────────────────────────────

  /** A Cancel frame for that id was received and found its target. */
  ghost predicate CancelFound(s: State, id: nat) {
    exists c :: 0 <= c < |s.ops| && s.ops[c].frame.body == Cancel(id) && s.ops[c].found
  }

  ghost predicate IdReused(s: State, n: OpId)
    requires n < |s.ops|
  {
    exists m :: 0 <= m < |s.ops| && m != n && s.ops[m].frame.id == s.ops[n].frame.id
  }

  /** Every signal has a cause: a Cancel frame that found the operation, or, when
      its sender was dropped instead, a second frame with the same id. */
  ghost predicate SignalOk(s: State, n: OpId)
    requires n < |s.ops|
  {
    && (s.ops[n].signal == Fired ==> CancelFound(s, s.ops[n].frame.id))
    && (s.ops[n].signal == Dropped ==> IdReused(s, n))
  }

  ghost predicate CauseOk(s: State) {
    && (forall n :: 0 <= n < |s.ops| ==> SignalOk(s, n))
    && (forall i :: 0 <= i < |s.out| ==> s.out[i].op < |s.ops| && SaysWhy(s.ops[s.out[i].op], s.out[i].frame.reply))
  }

  ghost predicate SaysWhy(op: Op, reply: Reply) {
    && (reply == Error(Cancelled) ==> op.signal != Pending)
    && (op.frame.body.Cancel? ==> reply == (if op.found then Done else Error(NotFound)))
  }

  /** What steps never take back. */
  ghost predicate Grows(s: State, s': State) {
    && |s.ops| <= |s'.ops|
    && (forall n :: 0 <= n < |s.ops| ==> OpGrows(s.ops[n], s'.ops[n]))
  }

  ghost predicate OpGrows(a: Op, b: Op) {
    && b.frame == a.frame && (a.found ==> b.found)
    && (a.signal != Pending ==> b.signal == a.signal)
    && (a.frame.body.Cancel? && a.phase != Taken ==> b.found == a.found && b.phase != Taken)
  }

  lemma SimpleGrows(s: State, step: Step)
    requires RegistryOk(s) && Enabled(s, step) && IsSimple(step)
    ensures Grows(s, Apply(s, step))
  {
    SimpleEffect(s, step);
    assert OpOk(s, step.op);
    SimplePhases(s, step);
  }

  lemma LookupGrows(s: State, n: OpId)
    requires RegistryOk(s) && Enabled(s, Lookup(n))
    ensures Grows(s, LookupTarget(s, n))
  {
    var target := s.ops[n].frame.body.target;
    if target in s.cancels {
      assert s.ops[s.cancels[target]].signal == Pending;
    }
  }

  lemma DropGrows(s: State, s': State, n: OpId, id: nat, phase: Phase)
    requires n < |s.ops| && !s.ops[n].frame.body.Cancel? && |s'.ops| == |s.ops|
    requires s'.ops == DropSender(s.ops, s.cancels, id)[n := s.ops[n].(phase := phase)]
    ensures Grows(s, s')
  {
  }

  lemma StepGrows(s: State, step: Step)
    requires RegistryOk(s) && Enabled(s, step)
    ensures Grows(s, Apply(s, step))
  {
    match step
    case Receive(_) =>
    case ClientGone =>
    case Lookup(n) => LookupGrows(s, n);
    case Register(n) => DropGrows(s, Apply(s, step), n, s.ops[n].frame.id, Apply(s, step).ops[n].phase);
    case CleanUp(n) =>
      assert OpOk(s, n);
      DropGrows(s, Apply(s, step), n, s.ops[n].frame.id, Ended);
    case _ => SimpleGrows(s, step);
  }

  lemma CausesStay(s: State, s': State, n: OpId)
    requires Grows(s, s') && n < |s.ops| && SignalOk(s, n) && s'.ops[n].signal == s.ops[n].signal
    ensures SignalOk(s', n)
  {
    if s.ops[n].signal == Fired {
      var c :| 0 <= c < |s.ops| && s.ops[c].frame.body == Cancel(s.ops[n].frame.id) && s.ops[c].found;
      assert OpGrows(s.ops[c], s'.ops[c]);
    }
    if s.ops[n].signal == Dropped {
      var m :| 0 <= m < |s.ops| && m != n && s.ops[m].frame.id == s.ops[n].frame.id;
      assert OpGrows(s.ops[m], s'.ops[m]);
    }
    assert OpGrows(s.ops[n], s'.ops[n]);
  }

  lemma OldOutputStaysExplained(s: State, s': State)
    requires RegistryOk(s) && OutputOk(s) && CauseOk(s) && Grows(s, s')
    ensures forall i :: 0 <= i < |s.out| ==>
              s.out[i].op < |s'.ops| && SaysWhy(s'.ops[s.out[i].op], s.out[i].frame.reply)
  {
    forall i | 0 <= i < |s.out|
      ensures SaysWhy(s'.ops[s.out[i].op], s.out[i].frame.reply)
    {
      var n := s.out[i].op;
      assert OpGrows(s.ops[n], s'.ops[n]) && OpOk(s, n) && SaysWhy(s.ops[n], s.out[i].frame.reply);
    }
  }

  lemma DroppedByReuse(s: State, s': State, n: OpId, c: OpId)
    requires RegistryOk(s) && c < |s.ops| == |s'.ops| && n < |s.ops|
    requires forall m :: 0 <= m < |s.ops| ==> s'.ops[m].frame == s.ops[m].frame
    requires s.ops[c].frame.id in s.cancels && s.cancels[s.ops[c].frame.id] == n && n != c
    requires s'.ops[n].signal == Dropped
    ensures SignalOk(s', n)
  {
    assert c != n && s'.ops[c].frame.id == s'.ops[n].frame.id;
  }

  lemma LookupSignals(s: State, c: OpId, n: OpId)
    requires RegistryOk(s) && Enabled(s, Lookup(c)) && n < |s.ops|
    requires LookupTarget(s, c).ops[n].signal != s.ops[n].signal
    ensures SignalOk(LookupTarget(s, c), n)
  {
    var s' := LookupTarget(s, c);
    assert s'.ops[c].frame.body == Cancel(s'.ops[n].frame.id) && s'.ops[c].found;
  }

  lemma RegisterSignals(s: State, c: OpId, n: OpId)
    requires RegistryOk(s) && Enabled(s, Register(c)) && n < |s.ops|
    requires RegisterSender(s, c).ops[n].signal != s.ops[n].signal
    ensures SignalOk(RegisterSender(s, c), n)
  {
    RegisterIsQuiet(s, c);
    DroppedByReuse(s, RegisterSender(s, c), n, c);
  }

  lemma CleanUpSignals(s: State, c: OpId, n: OpId)
    requires RegistryOk(s) && Enabled(s, CleanUp(c)) && n < |s.ops|
    requires RemoveOwn(s, c).ops[n].signal != s.ops[n].signal
    ensures SignalOk(RemoveOwn(s, c), n)
  {
    CleanUpIsQuiet(s, c);
    DroppedByReuse(s, RemoveOwn(s, c), n, c);
  }

  lemma NewSignals(s: State, step: Step, n: OpId)
    requires RegistryOk(s) && Enabled(s, step) && n < |s.ops| <= |Apply(s, step).ops|
    requires Apply(s, step).ops[n].signal != s.ops[n].signal
    ensures SignalOk(Apply(s, step), n)
  {
    match step
    case Receive(_) =>
    case ClientGone =>
    case Lookup(c) => LookupSignals(s, c, n);
    case Register(c) => RegisterSignals(s, c, n);
    case CleanUp(c) => CleanUpSignals(s, c, n);
    case _ => SimpleEffect(s, step);
  }

  lemma SignalsKeepCauses(s: State, step: Step)
    requires RegistryOk(s) && CauseOk(s) && Enabled(s, step) && Grows(s, Apply(s, step))
    ensures forall n :: 0 <= n < |Apply(s, step).ops| ==> SignalOk(Apply(s, step), n)
  {
    var s' := Apply(s, step);
    forall n | 0 <= n < |s'.ops|
      ensures SignalOk(s', n)
    {
      if n >= |s.ops| {
        NewOpIsPending(s, step, n);
      } else if s'.ops[n].signal == s.ops[n].signal {
        CausesStay(s, s', n);
      } else {
        NewSignals(s, step, n);
      }
    }
  }

  lemma NewOpIsPending(s: State, step: Step, n: OpId)
    requires Enabled(s, step) && |s.ops| <= n < |Apply(s, step).ops|
    ensures Apply(s, step).ops[n].signal == Pending
  {
    if IsSimple(step) {
      SimpleEffect(s, step);
    } else if step.Lookup? || step.Register? || step.CleanUp? {
      TableStepIsQuiet(s, step);
    }
  }

  lemma StepKeepsCauses(s: State, step: Step)
    requires RegistryOk(s) && OutputOk(s) && CauseOk(s) && Enabled(s, step)
    ensures CauseOk(Apply(s, step))
  {
    StepGrows(s, step);
    OldOutputStaysExplained(s, Apply(s, step));
    SignalsKeepCauses(s, step);
    NewOutputIsExplained(s, step);
  }

  lemma NewOutputIsExplained(s: State, step: Step)
    requires RegistryOk(s) && CauseOk(s) && Enabled(s, step)
    ensures var s' := Apply(s, step);
            && |s.out| <= |s'.out| && s'.out[..|s.out|] == s.out
            && forall i :: |s.out| <= i < |s'.out| ==>
                 s'.out[i].op < |s'.ops| && SaysWhy(s'.ops[s'.out[i].op], s'.out[i].frame.reply)
  {
    if IsSimple(step) {
      SimpleEffect(s, step);
      assert OpOk(s, step.op);
      SaidSaysWhy(s, step);
    } else if !step.Receive? && !step.ClientGone? {
      TableStepIsQuiet(s, step);
    }
  }

  lemma SaidSaysWhy(s: State, step: Step)
    requires Enabled(s, step) && IsSimple(step) && step.op < |s.ops| && OpOk(s, step.op)
    ensures Said(s, step).Some? ==> SaysWhy(s.ops[step.op], Said(s, step).value)
  {
  }

  lemma {:induction false} ReachableCauses(run: Run, i: nat)
    requires Valid(run) && i < |run.states|
    ensures CauseOk(run.states[i])
  {
    if i > 0 {
      ReachableCauses(run, i - 1);
      ReachableOk(run, i - 1);
      assert TakenAt(run, i - 1);
      StepKeepsCauses(run.states[i - 1], run.steps[i - 1]);
    }
  }

  /** With ids used once, an operation reports Cancelled only if the client sent
      a Cancel frame for it, and that frame was acknowledged. */
  lemma CancelledOnlyOnRequest(run: Run, i: nat, a: nat)
    requires Valid(run) && i < |run.states| && IdsUsedOnce(run.states[i])
    requires a < |run.states[i].out| && run.states[i].out[a].frame.reply == Error(Cancelled)
    ensures CancelFound(run.states[i], run.states[i].out[a].frame.id)
  {
    ReachableOk(run, i);
    ReachableCauses(run, i);
    var s := run.states[i];
    var n := s.out[a].op;
    assert SaysWhy(s.ops[n], s.out[a].frame.reply) && SignalOk(s, n);
    assert !IdReused(s, n);
  }

  lemma {:induction false} GrowsAlong(run: Run, i: nat, j: nat)
    requires Valid(run) && i <= j < |run.states|
    ensures Grows(run.states[i], run.states[j])
    decreases j
  {
    if i < j {
      GrowsAlong(run, i, j - 1);
      ReachableOk(run, j - 1);
      assert TakenAt(run, j - 1);
      StepGrows(run.states[j - 1], run.steps[j - 1]);
      GrowsTrans(run.states[i], run.states[j - 1], run.states[j]);
    }
  }

  lemma GrowsTrans(a: State, b: State, c: State)
    requires Grows(a, b) && Grows(b, c)
    ensures Grows(a, c)
  {
    forall n | 0 <= n < |a.ops|
      ensures OpGrows(a.ops[n], c.ops[n])
    {
      assert OpGrows(a.ops[n], b.ops[n]) && OpGrows(b.ops[n], c.ops[n]);
    }
  }

  /** A Cancel frame is answered Done exactly when, at the moment the dispatcher
      looked, some registered operation with the target id was neither cleaned up
      nor already signalled; otherwise it is answered NotFound. */
  lemma CancelAnsweredDoneIffLive(run: Run, i: nat, j: nat, n: OpId, a: nat)
    requires Valid(run) && i < |run.steps| && i < j < |run.states| && run.steps[i] == Lookup(n)
    requires a < |run.states[j].out| && run.states[j].out[a].op == n
    ensures n < |run.states[i].ops| && run.states[i].ops[n].frame.body.Cancel?
    ensures var live := HasLiveTarget(run.states[i], run.states[i].ops[n].frame.body.target);
            run.states[j].out[a].frame.reply == if live then Done else Error(NotFound)
  {
    assert TakenAt(run, i);
    ReachableOk(run, i);
    var s := run.states[i];
    assert OpOk(s, n);
    RegistryIsLiveOperations(run, i, s.ops[n].frame.body.target);
    GrowsAlong(run, i + 1, j);
    assert OpGrows(run.states[i + 1].ops[n], run.states[j].ops[n]);
    ReachableCauses(run, j);
    assert SaysWhy(run.states[j].ops[n], run.states[j].out[a].frame.reply);
  }

  // ── Exactly when an operation is signalled ────────────────────────────────

  /** The step is a Cancel for the operation while it is registered and
      unsignalled. */
  ghost predicate Hits(s: State, step: Step, n: OpId) {
    && n < |s.ops| && Active(s.ops[n]) && s.ops[n].signal == Pending
    && step.Lookup? && step.op < |s.ops| && s.ops[step.op].frame.body == Cancel(s.ops[n].frame.id)
  }

  /** The step registers or cleans up another operation with the same id, while
      this one is registered and unsignalled. */
  ghost predicate Clashes(s: State, step: Step, n: OpId) {
    && n < |s.ops| && Active(s.ops[n]) && s.ops[n].signal == Pending
    && (step.Register? || step.CleanUp?) && step.op < |s.ops| && step.op != n
    && s.ops[step.op].frame.id == s.ops[n].frame.id
  }

  /** What a step does to one operation's signal. */
  ghost predicate SignalMoves(s: State, s': State, step: Step, n: OpId)
    requires n < |s.ops|
  {
    && n < |s'.ops|
    && s'.ops[n].signal == if Hits(s, step, n) then Fired else if Clashes(s, step, n) then Dropped else s.ops[n].signal
  }

  lemma LookupHits(s: State, c: OpId, n: OpId)
    requires RegistryOk(s) && Enabled(s, Lookup(c)) && n < |s.ops|
    ensures SignalMoves(s, LookupTarget(s, c), Lookup(c), n)
  {
    assert OpOk(s, n);
  }

  lemma RegisterClashes(s: State, m: OpId, n: OpId)
    requires RegistryOk(s) && Enabled(s, Register(m)) && n < |s.ops|
    ensures SignalMoves(s, RegisterSender(s, m), Register(m), n)
  {
    assert OpOk(s, n);
    assert OpOk(s, m);
  }

  lemma CleanUpClashes(s: State, m: OpId, n: OpId)
    requires RegistryOk(s) && Enabled(s, CleanUp(m)) && n < |s.ops|
    ensures SignalMoves(s, RemoveOwn(s, m), CleanUp(m), n)
  {
    CleanUpEffect(s, m);
    assert OpOk(s, n);
  }

  lemma StepMovesSignal(s: State, step: Step, n: OpId)
    requires RegistryOk(s) && Enabled(s, step) && n < |s.ops|
    ensures SignalMoves(s, Apply(s, step), step, n)
  {
    match step
    case Receive(_) =>
    case ClientGone =>
    case Lookup(c) => LookupHits(s, c, n);
    case Register(m) => RegisterClashes(s, m, n);
    case CleanUp(m) => CleanUpClashes(s, m, n);
    case _ => SimpleEffect(s, step);
  }

  /** An operation's signal changes in a step exactly when the step is a Cancel
      that hits it, and then it fires, or another operation with its id clashes
      with it, and then it is dropped. */
  lemma SignalChangesExactlyWhen(run: Run, i: nat, n: OpId)
    requires Valid(run) && i < |run.steps| && n < |run.states[i].ops|
    ensures n < |run.states[i + 1].ops|
    ensures var s, step := run.states[i], run.steps[i];
            var before, after := s.ops[n].signal, run.states[i + 1].ops[n].signal;
            && (before != Pending ==> after == before)
            && (before == Pending && after == Fired <==> Hits(s, step, n))
            && (before == Pending && after == Dropped <==> Clashes(s, step, n))
  {
    ReachableOk(run, i);
    assert TakenAt(run, i);
    StepMovesSignal(run.states[i], run.steps[i], n);
  }

  ghost predicate WasHit(run: Run, j: nat, n: OpId)
    requires j <= |run.steps| < |run.states|
  {
    exists i :: 0 <= i < j && Hits(run.states[i], run.steps[i], n)
  }

  ghost predicate WasClashedWith(run: Run, j: nat, n: OpId)
    requires j <= |run.steps| < |run.states|
  {
    exists i :: 0 <= i < j && Clashes(run.states[i], run.steps[i], n)
  }

  lemma HistoryGrows(run: Run, j: nat, n: OpId)
    requires j < |run.steps| < |run.states|
    ensures WasHit(run, j + 1, n) <==> WasHit(run, j, n) || Hits(run.states[j], run.steps[j], n)
    ensures WasClashedWith(run, j + 1, n) <==> WasClashedWith(run, j, n) || Clashes(run.states[j], run.steps[j], n)
  {
  }

  /** The state of the signal tells the history: it fired exactly when some earlier
      step was a Cancel that hit it, and was dropped exactly when some earlier step
      clashed with it. */
  lemma {:induction false} SignalIsHistory(run: Run, j: nat, n: OpId)
    requires Valid(run) && j < |run.states| && n < |run.states[j].ops|
    ensures run.states[j].ops[n].signal == Fired <==> WasHit(run, j, n)
    ensures run.states[j].ops[n].signal == Dropped <==> WasClashedWith(run, j, n)
    decreases j
  {
    if j > 0 {
      if n < |run.states[j - 1].ops| {
        SignalIsHistory(run, j - 1, n);
        SignalChangesExactlyWhen(run, j - 1, n);
        HistoryGrows(run, j - 1, n);
      } else {
        assert TakenAt(run, j - 1);
        NewOpIsPending(run.states[j - 1], run.steps[j - 1], n);
        NotYetSignalled(run, j, n);
      }
    }
  }

  lemma NotYetSignalled(run: Run, j: nat, n: OpId)
    requires Valid(run) && 0 < j < |run.states| && n >= |run.states[j - 1].ops|
    ensures !WasHit(run, j, n) && !WasClashedWith(run, j, n)
  {
    forall i | 0 <= i < j
      ensures n >= |run.states[i].ops|
    {
      GrowsAlong(run, i, j - 1);
    }
  }

  /** Operation `n` has reported that it was cancelled. */
  ghost predicate ReportedCancelled(s: State, n: OpId) {
    exists a :: 0 <= a < |s.out| && s.out[a].op == n && s.out[a].frame.reply == Error(Cancelled)
  }

  /** Whatever ids the client uses: of the operations that report Cancelled, those
      that no Cancel frame hit are exactly those with which another operation of
      the same id clashed while they were registered. */
  lemma CancelledUnaskedIffClash(run: Run, j: nat, n: OpId)
    requires Valid(run) && j < |run.states| && n < |run.states[j].ops| && ReportedCancelled(run.states[j], n)
    ensures !WasHit(run, j, n) <==> WasClashedWith(run, j, n)
  {
    ReachableCauses(run, j);
    SignalIsHistory(run, j, n);
    var s := run.states[j];
    var a :| 0 <= a < |s.out| && s.out[a].op == n && s.out[a].frame.reply == Error(Cancelled);
    assert SaysWhy(s.ops[n], s.out[a].frame.reply);
  }

  /** And every clash can have that effect: an operation that was clashed with and
      is still forwarding may report Cancelled in its next step. */
  lemma ClashCanCancel(run: Run, i: nat, j: nat, n: OpId)
    requires Valid(run) && i < j < |run.states| && Clashes(run.states[i], run.steps[i], n)
    requires n < |run.states[j].ops| && run.states[j].ops[n].phase == Running && run.states[j].reading
    ensures Enabled(run.states[j], OnCancel(n))
    ensures ReportedCancelled(Apply(run.states[j], OnCancel(n)), n)
  {
    SignalIsHistory(run, j, n);
    var s := run.states[j];
    SimpleEffect(s, OnCancel(n));
    var s' := Apply(s, OnCancel(n));
    assert s'.out[|s.out|].op == n && s'.out[|s.out|].frame.reply == Error(Cancelled);
  }

  ghost predicate Reachable(s: State) {
    exists run :: Valid(run) && run.states[|run.states| - 1] == s
  }

  lemma ReachableInitially()
    ensures Reachable(INITIAL)
  {
    var run := Run([INITIAL], []);
    assert Valid(run) && run.states[|run.states| - 1] == INITIAL;
  }

  lemma ReachableNext(s: State, step: Step)
    requires Reachable(s) && Enabled(s, step)
    ensures Reachable(Apply(s, step))
  {
    var run :| Valid(run) && run.states[|run.states| - 1] == s;
    var run' := Run(run.states + [Apply(s, step)], run.steps + [step]);
    forall i | 0 <= i < |run'.steps|
      ensures TakenAt(run', i)
    {
      if i < |run.steps| { assert TakenAt(run, i); }
    }
    assert Valid(run') && run'.states[|run'.states| - 1] == Apply(s, step);
  }

  lemma TwoRegistrations(frame: ClientFrame)
    requires frame.body == ShardRun
    ensures Reachable(State(true, None, map[frame.id := 1],
                            [Op(frame, Running, Dropped, 0, false), Op(frame, Running, Pending, 0, false)], []))
  {
    var taken, running := Op(frame, Taken, Pending, 0, false), Op(frame, Running, Pending, 0, false);
    FirstRegistration(frame);
    var s2 := State(true, None, map[frame.id := 0], [running], []);
    ReachableNext(s2, Receive(frame));
    var s3 := State(true, Some(1), map[frame.id := 0], [running, taken], []);
    assert Apply(s2, Receive(frame)) == s3;
    ReachableNext(s3, Register(1));
  }

  lemma FirstRegistration(frame: ClientFrame)
    requires frame.body == ShardRun
    ensures Reachable(State(true, None, map[frame.id := 0], [Op(frame, Running, Pending, 0, false)], []))
  {
    ReachableInitially();
    ReachableNext(INITIAL, Receive(frame));
    ReachableNext(State(true, Some(0), map[], [Op(frame, Taken, Pending, 0, false)], []), Register(0));
  }

  lemma FirstCancelled(frame: ClientFrame)
    requires frame.body == ShardRun
    ensures Reachable(State(true, None, map[],
                            [Op(frame, Ended, Dropped, 0, false), Op(frame, Running, Dropped, 0, false)],
                            [Emitted(0, ServerFrame(frame.id, Error(Cancelled)))]))
  {
    TwoRegistrations(frame);
    var first, second := Op(frame, Running, Dropped, 0, false), Op(frame, Running, Pending, 0, false);
    var s0 := State(true, None, map[frame.id := 1], [first, second], []);
    ReachableNext(s0, OnCancel(0));
    var s1 := State(true, None, map[frame.id := 1], [first.(phase := Cleanup), second],
                    [Emitted(0, ServerFrame(frame.id, Error(Cancelled)))]);
    assert Apply(s0, OnCancel(0)) == s1;
    ReachableNext(s1, CleanUp(0));
    assert s1.cancels - {frame.id} == map[];
  }

  /** Reusing an id cancels both operations although no Cancel frame was ever sent:
      the first loses its sender when the second registers, and its cleanup then
      drops the sender of the second. */
  lemma ReusedIdCancels(id: nat)
    ensures exists s ::
              && Reachable(s) && |s.ops| == 2 && !IdsUsedOnce(s)
              && (forall n :: 0 <= n < |s.ops| ==> !s.ops[n].frame.body.Cancel?)
              && s.out == [Emitted(0, ServerFrame(id, Error(Cancelled))), Emitted(1, ServerFrame(id, Error(Cancelled)))]
  {
    var frame := ClientFrame(id, ShardRun);
    FirstCancelled(frame);
    var s := State(true, None, map[], [Op(frame, Ended, Dropped, 0, false), Op(frame, Running, Dropped, 0, false)],
                   [Emitted(0, ServerFrame(id, Error(Cancelled)))]);
    ReachableNext(s, OnCancel(1));
    var s' := Apply(s, OnCancel(1));
    assert s'.ops[0].frame.id == s'.ops[1].frame.id;
  }

  /** Waiting for the terminal frame before reusing an id is not enough: the first
      operation's cleanup may still be to come, and drops the second's sender. */
  lemma ReuseAfterDoneCancels(id: nat)
    ensures exists s ::
              && Reachable(s) && |s.ops| == 2
              && (forall n :: 0 <= n < |s.ops| ==> !s.ops[n].frame.body.Cancel?)
              && s.out == [Emitted(0, ServerFrame(id, Done)), Emitted(1, ServerFrame(id, Error(Cancelled)))]
  {
    var frame := ClientFrame(id, ShardRun);
    SecondAfterDone(frame);
    var cleaning, running := Op(frame, Cleanup, Dropped, 0, false), Op(frame, Running, Pending, 0, false);
    var done := Emitted(0, ServerFrame(id, Done));
    var s0 := State(true, None, map[id := 1], [cleaning, running], [done]);
    ReachableNext(s0, CleanUp(0));
    var s1 := State(true, None, map[], [cleaning.(phase := Ended), running.(signal := Dropped)], [done]);
    assert s0.cancels - {id} == map[];
    assert Apply(s0, CleanUp(0)) == s1;
    ReachableNext(s1, OnCancel(1));
  }

  lemma SecondAfterDone(frame: ClientFrame)
    requires frame.body == ShardRun
    ensures Reachable(State(true, None, map[frame.id := 1],
                            [Op(frame, Cleanup, Dropped, 0, false), Op(frame, Running, Pending, 0, false)],
                            [Emitted(0, ServerFrame(frame.id, Done))]))
  {
    FirstRegistration(frame);
    var running, taken := Op(frame, Running, Pending, 0, false), Op(frame, Taken, Pending, 0, false);
    var done := Emitted(0, ServerFrame(frame.id, Done));
    var s0 := State(true, None, map[frame.id := 0], [running], []);
    ReachableNext(s0, OnClosed(0));
    var s1 := State(true, None, map[frame.id := 0], [running.(phase := Cleanup)], [done]);
    assert Apply(s0, OnClosed(0)) == s1;
    ReachableNext(s1, Receive(frame));
    var s2 := State(true, Some(1), map[frame.id := 0], [running.(phase := Cleanup), taken], [done]);
    assert Apply(s1, Receive(frame)) == s2;
    ReachableNext(s2, Register(1));
  }
}
