/** When a client can be told Cancelled without having asked, in terms of the frames
    it sends. */
module SessionReuse {
  import opened Bytes
  import opened Session

  function Frames(ops: seq<Op>): (frames: seq<ClientFrame>)
    ensures |frames| == |ops| && forall n :: 0 <= n < |ops| ==> frames[n] == ops[n].frame
  {
    seq(|ops|, n requires 0 <= n < |ops| => ops[n].frame)
  }

  /** Two operations in the list share an id. */
  ghost predicate SharesId(frames: seq<ClientFrame>) {
    exists m, n :: 0 <= m < n < |frames| && SameId(frames, m, n)
  }

  predicate SameId(frames: seq<ClientFrame>, m: nat, n: nat)
    requires m < |frames| && n < |frames|
  {
    Cancellable(frames[m].body) && Cancellable(frames[n].body) && frames[m].id == frames[n].id
  }

  /** Some run in which the client sends these frames, and the server has got to any
      one of them, tells an operation Cancelled that no Cancel frame hit. */
  ghost predicate CanCancelUnasked(frames: seq<ClientFrame>) {
    exists run, n :: UnaskedIn(run, n, frames)
  }

  ghost predicate UnaskedIn(run: Run, n: OpId, frames: seq<ClientFrame>) {
    && Valid(run)
    && var s := run.states[|run.steps|];
    && Frames(s.ops) <= frames && n < |s.ops|
    && ReportedCancelled(s, n) && !WasHit(run, |run.steps|, n)
  }

  // ── A clash takes two operations ──────────────────────────────────────────

  lemma ClashShares(run: Run, i: nat, n: OpId, frames: seq<ClientFrame>)
    requires Valid(run) && i < |run.steps| && Clashes(run.states[i], run.steps[i], n)
    requires Frames(run.states[|run.steps|].ops) <= frames
    ensures SharesId(frames)
  {
    var s, m := run.states[i], run.steps[i].op;
    assert TakenAt(run, i);
    ReachableOk(run, i);
    assert OpOk(s, m) && OpOk(s, n);
    GrowsAlong(run, i, |run.steps|);
    var ops := run.states[|run.steps|].ops;
    assert OpGrows(s.ops[m], ops[m]) && OpGrows(s.ops[n], ops[n]);
    assert frames[m] == Frames(ops)[m] && frames[n] == Frames(ops)[n];
    assert SameId(frames, m, n) && SameId(frames, n, m);
  }

  // ── Two operations can be made to clash ───────────────────────────────────

  /** Everything received is dispatched; the operations run, the rest has ended. */
  ghost predicate AllDispatched(s: State) {
    && s.reading && s.busy.None?
    && forall n :: 0 <= n < |s.ops| ==>
         s.ops[n].phase == if Cancellable(s.ops[n].frame.body) then Running else Ended
  }

  /** Another frame has been received and dispatched. */
  ghost predicate OneMore(s: State, s': State, frame: ClientFrame) {
    && Reachable(s') && AllDispatched(s') && |s'.ops| == |s.ops| + 1
    && (forall n :: 0 <= n < |s.ops| ==> s'.ops[n].frame == s.ops[n].frame)
    && s'.ops[|s.ops|].frame == frame
    && (Cancellable(frame.body) ==> s'.ops[|s.ops|].signal == Pending)
  }

  /** The dispatcher holds the newest frame; the others are as before. */
  ghost predicate Holds(s: State, t: State, frame: ClientFrame, phase: Phase) {
    && Reachable(t) && t.reading && t.busy == Some(|s.ops|) && |t.ops| == |s.ops| + 1
    && (forall n :: 0 <= n < |s.ops| ==> t.ops[n].frame == s.ops[n].frame && t.ops[n].phase == s.ops[n].phase)
    && t.ops[|s.ops|].frame == frame && t.ops[|s.ops|].phase == phase
  }

  lemma Take(s: State, frame: ClientFrame) returns (t: State)
    requires Reachable(s) && AllDispatched(s)
    ensures Holds(s, t, frame, Taken) && t.ops[|s.ops|].signal == Pending
  {
    ReachableNext(s, Receive(frame));
    t := Apply(s, Receive(frame));
  }

  /** A simple step of the frame the dispatcher holds, which it keeps holding. */
  lemma Goes(s: State, t: State, frame: ClientFrame, step: Step) returns (t': State)
    requires Enabled(t, step) && IsSimple(step) && step.op == |s.ops| && Holds(s, t, frame, t.ops[|s.ops|].phase)
    requires !Releases(t, step)
    ensures Holds(s, t', frame, PhaseAfter(t, step)) && t'.ops[|s.ops|].signal == t.ops[|s.ops|].signal
  {
    ReachableNext(t, step);
    t' := Apply(t, step);
    SimpleEffect(t, step);
  }

  /** A simple step with which the dispatcher lets go of the frame. */
  lemma LetsGo(s: State, t: State, frame: ClientFrame, step: Step) returns (t': State)
    requires AllDispatched(s) && Enabled(t, step) && IsSimple(step) && step.op == |s.ops|
    requires Holds(s, t, frame, t.ops[|s.ops|].phase) && Releases(t, step)
    requires PhaseAfter(t, step) == if Cancellable(frame.body) then Running else Ended
    requires Cancellable(frame.body) ==> t.ops[|s.ops|].signal == Pending
    ensures OneMore(s, t', frame)
  {
    ReachableNext(t, step);
    t' := Apply(t, step);
    SimpleEffect(t, step);
  }

  lemma LookUp(s: State, t: State, frame: ClientFrame) returns (t': State)
    requires Holds(s, t, frame, Taken) && frame.body.Cancel?
    ensures |t'.ops| == |s.ops| + 1 && Holds(s, t', frame, t'.ops[|s.ops|].phase)
    ensures t'.ops[|s.ops|].phase == Acked || t'.ops[|s.ops|].phase == Refused
  {
    var n := |s.ops|;
    ReachableNext(t, Lookup(n));
    t' := Apply(t, Lookup(n));
    ReachableRegistry(t);
    assert OpOk(t, n);
    if t.ops[n].frame.body.target in t.cancels {
      assert t.cancels[t.ops[n].frame.body.target] != n;
    }
  }

  lemma ReachableRegistry(s: State)
    requires Reachable(s)
    ensures RegistryOk(s)
  {
    var run :| Valid(run) && run.states[|run.states| - 1] == s;
    ReachableOk(run, |run.states| - 1);
  }

  lemma StartsRunning(s: State, t: State, frame: ClientFrame) returns (t': State)
    requires AllDispatched(s) && Holds(s, t, frame, Taken) && t.ops[|s.ops|].signal == Pending
    requires Cancellable(frame.body)
    ensures OneMore(s, t', frame)
  {
    var n := |s.ops|;
    ReachableNext(t, Register(n));
    var u := Apply(t, Register(n));
    ReachableRegistry(t);
    RegisterIsQuiet(t, n);
    RegisterMoves(t, n);
    if frame.body == Generate {
      t' := LetsGo(s, u, frame, InitSucceeds(n));
    } else {
      t' := u;
    }
  }

  lemma RegisterMoves(t: State, n: OpId)
    requires Enabled(t, Register(n)) && t.busy == Some(n)
    ensures var u := RegisterSender(t, n);
            && |u.ops| == |t.ops| && u.reading == t.reading
            && u.busy == (if t.ops[n].frame.body == Generate then Some(n) else None)
            && u.ops[n] == t.ops[n].(phase := if t.ops[n].frame.body == Generate then Initialising else Running)
            && forall m :: 0 <= m < |t.ops| && m != n ==>
                 u.ops[m].frame == t.ops[m].frame && u.ops[m].phase == t.ops[m].phase
  {
  }

  /** Any frame can be dispatched at once. */
  lemma Dispatch(s: State, frame: ClientFrame) returns (s': State)
    requires Reachable(s) && AllDispatched(s)
    ensures OneMore(s, s', frame)
  {
    var n := |s.ops|;
    var t := Take(s, frame);
    match frame.body
    case Missing => s' := LetsGo(s, t, frame, RejectMissing(n));
    case Ping => t := Goes(s, t, frame, SendReply(n)); s' := LetsGo(s, t, frame, SendDone(n));
    case Status => t := Goes(s, t, frame, SendReply(n)); s' := LetsGo(s, t, frame, SendDone(n));
    case Cancel(_) =>
      t := LookUp(s, t, frame);
      if t.ops[n].phase == Acked { s' := LetsGo(s, t, frame, AckCancel(n)); }
      else { s' := LetsGo(s, t, frame, RefuseCancel(n)); }
    case Generate => s' := StartsRunning(s, t, frame);
    case ShardRun => s' := StartsRunning(s, t, frame);
  }

  lemma {:induction false} DispatchAll(frames: seq<ClientFrame>) returns (s: State)
    ensures Reachable(s) && AllDispatched(s) && Frames(s.ops) == frames
    ensures frames != [] && Cancellable(frames[|frames| - 1].body) ==> s.ops[|frames| - 1].signal == Pending
    decreases |frames|
  {
    if frames == [] {
      ReachableInitially();
      s := INITIAL;
    } else {
      var init, last := frames[..|frames| - 1], frames[|frames| - 1];
      var t := DispatchAll(init);
      s := Dispatch(t, last);
      assert Frames(s.ops) == init + [last];
    }
  }

  /** The first operation ends and cleans up, and the second reports Cancelled. */
  lemma Clash(s: State, m: OpId, n: OpId) returns (s': State)
    requires Reachable(s) && AllDispatched(s) && m < n < |s.ops| && s.ops[n].signal == Pending
    requires SameId(Frames(s.ops), m, n)
    ensures Reachable(s') && Frames(s'.ops) == Frames(s.ops)
    ensures n < |s'.ops| && s'.ops[n].signal == Dropped && ReportedCancelled(s', n)
  {
    var t := Closes(s, m);
    var u := CleansUp(t, m, n);
    s' := ReportsCancelled(u, n);
    assert Frames(s'.ops) == Frames(s.ops);
  }

  lemma Closes(s: State, m: OpId) returns (t: State)
    requires Reachable(s) && s.reading && At(s, m, Running)
    ensures Reachable(t) && t.reading && t.ops == s.ops[m := s.ops[m].(phase := Cleanup)]
  {
    ReachableNext(s, OnClosed(m));
    t := Apply(s, OnClosed(m));
    SimpleEffect(s, OnClosed(m));
  }

  lemma CleansUp(t: State, m: OpId, n: OpId) returns (u: State)
    requires Reachable(t) && At(t, m, Cleanup) && At(t, n, Running) && m != n
    requires t.ops[m].frame.id == t.ops[n].frame.id && t.ops[n].signal == Pending
    ensures Reachable(u) && u.reading == t.reading && |u.ops| == |t.ops|
    ensures forall a :: 0 <= a < |t.ops| ==> u.ops[a].frame == t.ops[a].frame
    ensures At(u, n, Running) && u.ops[n].signal == Dropped
  {
    ReachableNext(t, CleanUp(m));
    u := Apply(t, CleanUp(m));
    ReachableRegistry(t);
    assert OpOk(t, n);
    CleanUpEffect(t, m);
    CleanUpIsQuiet(t, m);
  }

  lemma ReportsCancelled(u: State, n: OpId) returns (s': State)
    requires Reachable(u) && u.reading && At(u, n, Running) && u.ops[n].signal == Dropped
    ensures Reachable(s') && |s'.ops| == |u.ops| && s'.ops[n].signal == Dropped && ReportedCancelled(s', n)
    ensures forall m :: 0 <= m < |u.ops| ==> s'.ops[m].frame == u.ops[m].frame
  {
    ReachableNext(u, OnCancel(n));
    s' := Apply(u, OnCancel(n));
    SimpleEffect(u, OnCancel(n));
    assert s'.out[|u.out|].op == n && s'.out[|u.out|].frame.reply == Error(Cancelled);
  }

  lemma SharedCanCancel(frames: seq<ClientFrame>, m: nat, n: nat)
    requires m < n < |frames| && SameId(frames, m, n)
    ensures CanCancelUnasked(frames)
  {
    var s := DispatchAll(frames[..n + 1]);
    var s' := Clash(s, m, n);
    var run :| Valid(run) && run.states[|run.states| - 1] == s';
    SignalIsHistory(run, |run.steps|, n);
    assert UnaskedIn(run, n, frames);
  }

  /** For any frames a client sends: some run tells an operation Cancelled that no
      Cancel hit, exactly when two Generate or ShardRun frames share an id. */
  lemma UnaskedIffIdShared(frames: seq<ClientFrame>)
    ensures CanCancelUnasked(frames) <==> SharesId(frames)
  {
    if CanCancelUnasked(frames) {
      var run, n :| UnaskedIn(run, n, frames);
      CancelledUnaskedIffClash(run, |run.steps|, n);
      var i :| 0 <= i < |run.steps| && Clashes(run.states[i], run.steps[i], n);
      ClashShares(run, i, n, frames);
    }
    if SharesId(frames) {
      var m, n :| 0 <= m < n < |frames| && SameId(frames, m, n);
      SharedCanCancel(frames, m, n);
    }
  }
}
