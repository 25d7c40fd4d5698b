/** What happens to a caller that registers after one of the I/O tasks has drained
    the pending table. It got past the check of the dead flag in time, so it goes
    on as if the stream were alive. */
module MuxHangs {
  import opened Bytes
  import opened MuxProtocol
  import opened MuxRuns
  import MuxClient

  predicate WriterGone(conn: Conn) {
    conn.writer == Drained || conn.writer == Exited
  }

  predicate ReaderGone(conn: Conn) {
    conn.reader == Drained
  }

  /** At least one of the two tasks has drained. */
  predicate OneGone(conn: Conn) {
    WriterGone(conn) || ReaderGone(conn)
  }

  predicate BothDrained(conn: Conn) {
    WriterGone(conn) && ReaderGone(conn)
  }

  /** At `j`, `c` is a call of connection `k` that had not registered at `i`. */
  ghost predicate LateFor(run: Run, i: nat, j: nat, k: ConnId, c: CallId)
    requires i <= j < |run.states|
  {
    && k < |run.states[i].conns|
    && c < |run.states[j].calls| && run.states[j].calls[c].conn == k
    && (c < |run.states[i].calls| ==> !run.states[i].calls[c].registered)
  }

  lemma LateEarlier(run: Run, i: nat, j: nat, k: ConnId, c: CallId)
    requires Valid(run) && i < j < |run.states| && LateFor(run, i, j, k, c) && c < |run.states[j - 1].calls|
    ensures LateFor(run, i, j - 1, k, c)
  {
    ConnStays(run, j - 1, c);
  }

  lemma StillGone(run: Run, i: nat, j: nat, k: ConnId)
    requires Valid(run) && i <= j < |run.states| && k < |run.states[i].conns|
    ensures k < |run.states[j].conns|
    ensures WriterGone(run.states[i].conns[k]) ==> WriterGone(run.states[j].conns[k])
    ensures ReaderGone(run.states[i].conns[k]) ==> ReaderGone(run.states[j].conns[k])
    ensures run.states[i].conns[k].writer == Exited ==> run.states[j].conns[k].writer == Exited
  {
    NothingIsUndone(run, i, j);
    assert ConnLater(run.states[i].conns[k], run.states[j].conns[k]);
  }

  /** Nothing from the server has reached the call. */
  predicate Silent(call: Call) {
    !call.cell.Filled? && !call.phase.Answered?
  }

  // ── The reader is gone: nobody delivers ───────────────────────────────────

  /** Senders are held by the table of their own connection. */
  ghost predicate TableFacts(s: State) {
    forall k, id :: 0 <= k < |s.conns| && id in s.conns[k].client.pending ==>
      s.conns[k].client.pending[id] < |s.calls| && s.calls[s.conns[k].client.pending[id]].conn == k
  }

  lemma TableFactsHold(run: Run, i: nat)
    requires Valid(run) && i < |run.states|
    ensures TableFacts(run.states[i])
  {
    var s := run.states[i];
    ReachableOk(run, i);
    forall k, id | 0 <= k < |s.conns| && id in s.conns[k].client.pending
      ensures s.conns[k].client.pending[id] < |s.calls| && s.calls[s.conns[k].client.pending[id]].conn == k
    {
      assert ConnOk(k, s.conns[k], s.calls);
    }
  }

  lemma ReaderGoneStep(s: State, step: Step, k: ConnId, c: CallId)
    requires TableFacts(s) && Enabled(s, step) && c < |s.calls| && s.calls[c].conn == k
    requires k < |s.conns| && ReaderGone(s.conns[k]) && Silent(s.calls[c])
    ensures c < |Apply(s, step).calls| && Silent(Apply(s, step).calls[c])
  {
  }

  lemma {:induction false} ReaderGoneIsSilent(run: Run, i: nat, j: nat, k: ConnId, c: CallId)
    requires Valid(run) && i <= j < |run.states| && LateFor(run, i, j, k, c) && ReaderGone(run.states[i].conns[k])
    ensures Silent(run.states[j].calls[c])
    decreases j
  {
    if i == j {
      CallPhaseOk(run, i, c);
    } else if c < |run.states[j - 1].calls| {
      LateEarlier(run, i, j, k, c);
      ReaderGoneIsSilent(run, i, j - 1, k, c);
      StillGone(run, i, j - 1, k);
      TableFactsHold(run, j - 1);
      assert Taken(run, j - 1);
      ReaderGoneStep(run.states[j - 1], run.steps[j - 1], k, c);
    } else {
      NewCallIsFresh(run, j, c);
    }
  }

  // ── The writer is gone: the request never leaves ──────────────────────────

  /** The part of the trail past the writer. */
  function Sent(conn: Conn): multiset<MuxRequest> {
    multiset(conn.up) + conn.tasks + Requests(conn.computed)
  }

  ghost predicate Unsent(s: State, k: ConnId, c: CallId)
    requires k < |s.conns| && c < |s.calls|
  {
    forall r :: r in Sent(s.conns[k]) ==> s.calls[c].id != Some(r.id)
  }

  /** What the steps that matter do to the sent requests and to the call's id. */
  lemma SentStep(s: State, step: Step, k: ConnId, c: CallId)
    requires Enabled(s, step) && k < |s.conns| && c < |s.calls|
    requires !(step.WriterSends? && step.conn == k)
    ensures var s' := Apply(s, step);
            && k < |s'.conns| && c < |s'.calls|
            && (forall r :: r in Sent(s'.conns[k]) ==> r in Sent(s.conns[k]))
            && (step != TakeId(c) ==> s'.calls[c].id == s.calls[c].id)
  {
    var s' := Apply(s, step);
    match step
    case ServerReads(d) =>
      var up := s.conns[d].up;
      assert up == [up[0]] + up[1..];
    case ServerComputes(d, _, _, _) =>
      assert s'.conns[d].computed[..|s.conns[d].computed|] == s.conns[d].computed;
    case _ =>
  }

  lemma UnsentStep(s: State, step: Step, k: ConnId, c: CallId)
    requires Invariant(s) && Enabled(s, step) && c < |s.calls| && s.calls[c].conn == k
    requires k < |s.conns| && WriterGone(s.conns[k]) && Unsent(s, k, c)
    ensures k < |Apply(s, step).conns| && c < |Apply(s, step).calls| && Unsent(Apply(s, step), k, c)
  {
    SentStep(s, step, k, c);
    if step == TakeId(c) {
      assert ConnOk(k, s.conns[k], s.calls);
      forall r | r in Sent(s.conns[k])
        ensures r.id < s.conns[k].client.nextId
      {
        assert r in Trail(s.conns[k]);
      }
    }
  }

  lemma UnsentIsSilent(s: State, k: ConnId, c: CallId)
    requires Invariant(s) && k < |s.conns| && c < |s.calls| && s.calls[c].conn == k && Unsent(s, k, c)
    ensures Silent(s.calls[c])
  {
    var computed := s.conns[k].computed;
    assert ConnOk(k, s.conns[k], s.calls);
    assert CarriesOwn(s.calls[c], computed);
    if !Silent(s.calls[c]) {
      var response := if s.calls[c].cell.Filled? then s.calls[c].cell.response else s.calls[c].phase.response;
      var e :| 0 <= e < |computed| && computed[e].response == response;
      RequestsHas(computed, e);
      assert false;
    }
  }

  lemma UnregisteredIsUnsent(s: State, k: ConnId, c: CallId)
    requires Invariant(s) && k < |s.conns| && c < |s.calls| && s.calls[c].conn == k && !s.calls[c].registered
    ensures Unsent(s, k, c)
  {
    assert ConnOk(k, s.conns[k], s.calls);
    assert PhaseOk(s.calls[c]);
    forall r | r in Sent(s.conns[k])
      ensures s.calls[c].id != Some(r.id)
    {
      assert r in Trail(s.conns[k]);
    }
  }

  lemma {:induction false} WriterGoneIsUnsent(run: Run, i: nat, j: nat, k: ConnId, c: CallId)
    requires Valid(run) && i <= j < |run.states| && LateFor(run, i, j, k, c) && WriterGone(run.states[i].conns[k])
    ensures k < |run.states[j].conns| && Unsent(run.states[j], k, c)
    decreases j
  {
    ReachableOk(run, j);
    if i == j {
      UnregisteredIsUnsent(run.states[i], k, c);
    } else if c < |run.states[j - 1].calls| {
      LateEarlier(run, i, j, k, c);
      WriterGoneIsUnsent(run, i, j - 1, k, c);
      StillGone(run, i, j - 1, k);
      ReachableOk(run, j - 1);
      assert Taken(run, j - 1);
      UnsentStep(run.states[j - 1], run.steps[j - 1], k, c);
    } else {
      NewCallIsFresh(run, j, c);
      CallPhaseOk(run, j, c);
      StillGone(run, i, j, k);
      UnregisteredIsUnsent(run.states[j], k, c);
    }
  }

  /** Once either task has drained, a call that had not registered by then is never
      answered: without the reader nothing is delivered, and without the writer its
      request never leaves. */
  lemma NoAnswerAfterADrain(run: Run, i: nat, j: nat, k: ConnId, c: CallId)
    requires Valid(run) && i <= j < |run.states| && LateFor(run, i, j, k, c) && OneGone(run.states[i].conns[k])
    ensures Silent(run.states[j].calls[c])
  {
    if ReaderGone(run.states[i].conns[k]) {
      ReaderGoneIsSilent(run, i, j, k, c);
    } else {
      WriterGoneIsUnsent(run, i, j, k, c);
      ReachableOk(run, j);
      UnsentIsSilent(run.states[j], k, c);
    }
  }

  // ── What can still wake it ────────────────────────────────────────────────

  predicate Drains(step: Step, k: ConnId) {
    step == WriterDrains(k) || step == ReaderDrains(k)
  }

  ghost predicate WokenIn(run: Run, e: nat, k: ConnId, c: CallId)
    requires e < |run.steps| < |run.states|
  {
    Drains(run.steps[e], k) && c < |run.states[e].calls| && run.states[e].calls[c].registered
  }

  lemma DrainCalls(s: State, step: Step)
    requires Enabled(s, step) && (step.WriterDrains? || step.ReaderDrains?)
    ensures Apply(s, step).calls == WakeAll(s.calls, s.conns[step.conn].client.pending.Values)
  {
  }

  lemma DrainCell(s: State, step: Step, k: ConnId, c: CallId)
    requires Invariant(s) && Enabled(s, step) && (step.WriterDrains? || step.ReaderDrains?)
    requires c < |s.calls| && s.calls[c].conn == k
    ensures c < |Apply(s, step).calls|
    ensures Apply(s, step).calls[c].cell != Empty
       <==> s.calls[c].cell != Empty || (Drains(step, k) && s.calls[c].registered)
  {
    DrainCalls(s, step);
    MuxClient.PendingAreUnanswered(s, step.conn);
  }

  lemma QuietCell(s: State, step: Step, c: CallId)
    requires Enabled(s, step) && !step.WriterDrains? && !step.ReaderDrains? && c < |s.calls|
    requires step.Register? ==>
               var call := s.calls[step.call]; Displaced(s.conns[call.conn].client, call.id.value) == {}
    requires c < |Apply(s, step).calls| && Silent(Apply(s, step).calls[c])
    ensures Silent(s.calls[c]) ==> Apply(s, step).calls[c].cell == s.calls[c].cell
  {
  }

  lemma NobodyDisplaced(s: State, d: CallId)
    requires Invariant(s) && Enabled(s, Register(d))
    ensures Displaced(s.conns[s.calls[d].conn].client, s.calls[d].id.value) == {}
  {
    var k := s.calls[d].conn;
    assert ConnOk(k, s.conns[k], s.calls);
    RegisterTable(k, s.conns[k], s.calls, d);
  }

  lemma CellStep(s: State, step: Step, k: ConnId, c: CallId)
    requires Invariant(s) && Enabled(s, step) && c < |s.calls| && s.calls[c].conn == k && Silent(s.calls[c])
    requires c < |Apply(s, step).calls| && Silent(Apply(s, step).calls[c])
    ensures Apply(s, step).calls[c].cell != Empty
       <==> s.calls[c].cell != Empty || (Drains(step, k) && s.calls[c].registered)
  {
    if step.WriterDrains? || step.ReaderDrains? {
      DrainCell(s, step, k, c);
    } else {
      if step.Register? { NobodyDisplaced(s, step.call); }
      QuietCell(s, step, c);
    }
  }

  lemma CellNext(run: Run, e: nat, k: ConnId, c: CallId)
    requires Valid(run) && e < |run.steps|
    requires c < |run.states[e].calls| && run.states[e].calls[c].conn == k && Silent(run.states[e].calls[c])
    requires c < |run.states[e + 1].calls| && Silent(run.states[e + 1].calls[c])
    ensures run.states[e + 1].calls[c].cell != Empty <==> run.states[e].calls[c].cell != Empty || WokenIn(run, e, k, c)
  {
    ReachableOk(run, e);
    assert Taken(run, e);
    CellStep(run.states[e], run.steps[e], k, c);
  }

  ghost predicate Woken(run: Run, i: nat, j: nat, k: ConnId, c: CallId)
    requires i <= j <= |run.steps| < |run.states|
  {
    exists e :: i <= e < j && WokenIn(run, e, k, c)
  }

  lemma WokenGrows(run: Run, i: nat, j: nat, k: ConnId, c: CallId)
    requires i <= j < |run.steps| < |run.states|
    ensures Woken(run, i, j + 1, k, c) <==> Woken(run, i, j, k, c) || WokenIn(run, j, k, c)
  {
  }

  lemma NewCallNotWoken(run: Run, i: nat, j: nat, k: ConnId, c: CallId)
    requires Valid(run) && i < j < |run.states| && |run.states[j - 1].calls| <= c
    ensures !Woken(run, i, j, k, c)
  {
    forall e | i <= e < j
      ensures !WokenIn(run, e, k, c)
    {
      NothingIsUndone(run, e, j - 1);
    }
  }

  /** The one-shot of such a call resolves exactly when a task drains after the call
      has registered, and then with an error. */
  lemma {:induction false} WokenAfterADrainIff(run: Run, i: nat, j: nat, k: ConnId, c: CallId)
    requires Valid(run) && i <= j < |run.states| && LateFor(run, i, j, k, c) && OneGone(run.states[i].conns[k])
    ensures run.states[j].calls[c].cell != Empty <==> Woken(run, i, j, k, c)
    decreases j
  {
    if i == j {
      CallPhaseOk(run, i, c);
    } else if c < |run.states[j - 1].calls| {
      LateEarlier(run, i, j, k, c);
      WokenAfterADrainIff(run, i, j - 1, k, c);
      NoAnswerAfterADrain(run, i, j - 1, k, c);
      NoAnswerAfterADrain(run, i, j, k, c);
      CellNext(run, j - 1, k, c);
      WokenGrows(run, i, j - 1, k, c);
    } else {
      NewCallIsFresh(run, j, c);
      NewCallNotWoken(run, i, j, k, c);
    }
  }

  // ── Who waits at all ──────────────────────────────────────────────────────

  /** Step `e` puts the call's request in the channel: its writer has not exited. */
  ghost predicate AcceptedIn(run: Run, e: nat, c: CallId)
    requires e < |run.steps| < |run.states|
  {
    var s := run.states[e];
    && run.steps[e] == Enqueue(c)
    && c < |s.calls| && s.calls[c].conn < |s.conns| && s.conns[s.calls[c].conn].writer != Exited
  }

  ghost predicate Accepted(run: Run, i: nat, j: nat, c: CallId)
    requires i <= j <= |run.steps| < |run.states|
  {
    exists e :: i <= e < j && AcceptedIn(run, e, c)
  }

  lemma AcceptedGrows(run: Run, i: nat, j: nat, c: CallId)
    requires i <= j < |run.steps| < |run.states|
    ensures Accepted(run, i, j + 1, c) <==> Accepted(run, i, j, c) || AcceptedIn(run, j, c)
  {
  }

  lemma EnqueuedStep(s: State, step: Step, c: CallId)
    requires Enabled(s, step) && c < |s.calls| && s.calls[c].conn < |s.conns|
    ensures c < |Apply(s, step).calls|
    ensures Apply(s, step).calls[c].enqueued
       <==> s.calls[c].enqueued || (step == Enqueue(c) && s.conns[s.calls[c].conn].client.channelOpen)
  {
  }

  lemma EnqueuedNext(run: Run, e: nat, c: CallId)
    requires Valid(run) && e < |run.steps| && c < |run.states[e].calls|
    ensures c < |run.states[e + 1].calls|
    ensures run.states[e + 1].calls[c].enqueued <==> run.states[e].calls[c].enqueued || AcceptedIn(run, e, c)
  {
    ReachableOk(run, e);
    assert Taken(run, e);
    var s := run.states[e];
    var k := s.calls[c].conn;
    assert TasksOk(s.conns[k]) by { assert ConnOk(k, s.conns[k], s.calls); }
    EnqueuedStep(s, run.steps[e], c);
  }

  lemma {:induction false} EnqueuedIff(run: Run, i: nat, j: nat, c: CallId)
    requires Valid(run) && i <= j < |run.states| && c < |run.states[j].calls|
    requires c < |run.states[i].calls| ==> !run.states[i].calls[c].enqueued
    ensures run.states[j].calls[c].enqueued <==> Accepted(run, i, j, c)
    decreases j
  {
    if i < j {
      if c < |run.states[j - 1].calls| {
        EnqueuedIff(run, i, j - 1, c);
        EnqueuedNext(run, j - 1, c);
        AcceptedGrows(run, i, j - 1, c);
      } else {
        NewCallIsFresh(run, j, c);
        CallPhaseOk(run, j, c);
        forall e | i <= e < j
          ensures !AcceptedIn(run, e, c)
        {
          NothingIsUndone(run, e, j - 1);
        }
      }
    }
  }

  /** Once the writer task has ended, a call whose request is not yet in the channel
      is refused: it never waits. */
  lemma RefusedOnceWriterExits(run: Run, i: nat, j: nat, k: ConnId, c: CallId)
    requires Valid(run) && i <= j < |run.states| && k < |run.states[i].conns| && run.states[i].conns[k].writer == Exited
    requires c < |run.states[j].calls| && run.states[j].calls[c].conn == k
    requires c < |run.states[i].calls| ==> !run.states[i].calls[c].enqueued
    ensures !run.states[j].calls[c].enqueued
    ensures run.states[j].calls[c].phase != Waiting && !run.states[j].calls[c].phase.Answered?
  {
    EnqueuedIff(run, i, j, c);
    forall e | i <= e < j
      ensures !AcceptedIn(run, e, c)
    {
      StillGone(run, i, e, k);
      NothingIsUndone(run, e, j);
      if c < |run.states[e].calls| {
        assert CallLater(run.states[e].calls[c], run.states[j].calls[c]);
      }
    }
    CallPhaseOk(run, j, c);
  }

  // ── The hang ──────────────────────────────────────────────────────────────

  /** The call waits for a one-shot that has not resolved, or has given up on it. */
  predicate Stuck(call: Call) {
    call.enqueued && call.cell == Empty && (call.phase == Waiting || call.phase == Failed)
  }

  /** Let one of the tasks have drained at `i`, and let the call not have registered
      by then. It is left waiting, until its timeout, exactly when its request was
      accepted, before the writer task ended, and no task has drained since it
      registered. */
  lemma StuckIff(run: Run, i: nat, j: nat, k: ConnId, c: CallId)
    requires Valid(run) && i <= j < |run.states| && LateFor(run, i, j, k, c) && OneGone(run.states[i].conns[k])
    ensures Stuck(run.states[j].calls[c]) <==> Accepted(run, i, j, c) && !Woken(run, i, j, k, c)
  {
    NoAnswerAfterADrain(run, i, j, k, c);
    WokenAfterADrainIff(run, i, j, k, c);
    CallPhaseOk(run, j, c);
    if c < |run.states[i].calls| { CallPhaseOk(run, i, c); }
    EnqueuedIff(run, i, j, c);
  }

  /** The second of the two drains. */
  lemma LastDrain(run: Run, i: nat, k: ConnId)
    requires Valid(run) && i < |run.steps| && k < |run.states[i].conns| && !BothDrained(run.states[i].conns[k])
    requires k < |run.states[i + 1].conns| && BothDrained(run.states[i + 1].conns[k])
    ensures run.steps[i] == WriterDrains(k) || run.steps[i] == ReaderDrains(k)
    ensures |run.states[i + 1].calls| == |run.states[i].calls|
    ensures forall c :: 0 <= c < |run.states[i].calls| ==>
              run.states[i + 1].calls[c].registered == run.states[i].calls[c].registered
  {
    assert Taken(run, i);
  }

  lemma NoMoreDrains(run: Run, i: nat, j: nat, k: ConnId, c: CallId)
    requires Valid(run) && i <= j < |run.states| && k < |run.states[i].conns| && BothDrained(run.states[i].conns[k])
    ensures !Woken(run, i, j, k, c)
  {
    forall e | i <= e < j
      ensures !WokenIn(run, e, k, c)
    {
      StillGone(run, i, e, k);
      assert Taken(run, e);
    }
  }

  /** Once both tasks have drained (the second drain is step `i`), a call of that
      connection has something to return exactly when it had registered by then. */
  lemma WokenIffRegisteredBeforeLastDrain(run: Run, i: nat, j: nat, k: ConnId, c: CallId)
    requires Valid(run) && i < j < |run.states|
    requires k < |run.states[i].conns| && !BothDrained(run.states[i].conns[k])
    requires k < |run.states[i + 1].conns| && BothDrained(run.states[i + 1].conns[k])
    requires c < |run.states[j].calls| && run.states[j].calls[c].conn == k
    ensures run.states[j].calls[c].cell != Empty
       <==> c < |run.states[i].calls| && run.states[i].calls[c].registered
  {
    LastDrain(run, i, k);
    if c < |run.states[i].calls| && run.states[i].calls[c].registered {
      assert run.states[i].calls[c].conn == k by {
        NothingIsUndone(run, i, j);
        assert CallLater(run.states[i].calls[c], run.states[j].calls[c]);
      }
      DrainWakesAllRegistered(run, i, j, k, c);
    } else {
      WokenAfterADrainIff(run, i + 1, j, k, c);
      NoMoreDrains(run, i + 1, j, k, c);
    }
  }

  /** Of the others, those are stuck for good, until their timeout, whose requests
      are accepted between the second drain and the end of the writer task. */
  lemma StuckForGoodIff(run: Run, i: nat, j: nat, k: ConnId, c: CallId)
    requires Valid(run) && i < j < |run.states|
    requires k < |run.states[i].conns| && !BothDrained(run.states[i].conns[k])
    requires k < |run.states[i + 1].conns| && BothDrained(run.states[i + 1].conns[k])
    requires c < |run.states[j].calls| && run.states[j].calls[c].conn == k
    ensures Stuck(run.states[j].calls[c])
       <==> !(c < |run.states[i].calls| && run.states[i].calls[c].registered) && Accepted(run, i + 1, j, c)
  {
    LastDrain(run, i, k);
    WokenIffRegisteredBeforeLastDrain(run, i, j, k, c);
    if !(c < |run.states[i].calls| && run.states[i].calls[c].registered) {
      StuckIff(run, i + 1, j, k, c);
      NoMoreDrains(run, i + 1, j, k, c);
    }
  }

  // ── The hangs happen ──────────────────────────────────────────────────────

  /** A connection with one caller past its check. */
  function Past(content: Content, writer: Task, reader: Task, dead: bool): State {
    State([NEW_CONN.(writer := writer, reader := reader, client := NEW_CONN.client.(dead := dead))],
          [Call(0, content, Checked, None, Empty, false, false)])
  }

  lemma CheckedCaller(content: Content)
    ensures Reachable(Past(content, Running, Running, false))
  {
    ReachableInitially();
    ReachableNext(INITIAL, Connect);
    var s1 := State([NEW_CONN], []);
    assert Apply(INITIAL, Connect) == s1;
    ReachableNext(s1, Start(0, content));
    var s2 := State([NEW_CONN], [Call(0, content, Fresh, None, Empty, false, false)]);
    assert Apply(s1, Start(0, content)) == s2;
    ReachableNext(s2, CheckDead(0));
    assert Apply(s2, CheckDead(0)) == Past(content, Running, Running, false);
  }

  lemma DrainNothing(content: Content, writer: Task, reader: Task)
    ensures var s := Past(content, writer, reader, true); DrainPending(s, 0) == s
  {
    var s := Past(content, writer, reader, true);
    var none: map<nat, CallId> := map[];
    assert none.Values == {};
    assert WakeAll(s.calls, {}) == s.calls;
  }

  /** The writer stops, marks the client dead and drains. */
  lemma WriterLeaves(content: Content, reader: Task, dead: bool)
    requires Reachable(Past(content, Running, reader, dead))
    ensures Reachable(Past(content, Drained, reader, true))
  {
    ReachableNext(Past(content, Running, reader, dead), WriterStops(0));
    ReachableNext(Past(content, Stopped, reader, dead), WriterMarks(0));
    DrainNothing(content, Drained, reader);
    ReachableNext(Past(content, Marked, reader, true), WriterDrains(0));
  }

  lemma ReaderMarksDead(content: Content, writer: Task, dead: bool)
    requires Reachable(Past(content, writer, Running, dead))
    ensures Reachable(Past(content, writer, Marked, true))
  {
    ReachableNext(Past(content, writer, Running, dead), ReaderStops(0));
    ReachableNext(Past(content, writer, Stopped, dead), ReaderMarks(0));
  }

  lemma ReaderLeaves(content: Content, writer: Task, dead: bool)
    requires Reachable(Past(content, writer, Running, dead))
    ensures Reachable(Past(content, writer, Drained, true))
  {
    ReaderMarksDead(content, writer, dead);
    DrainNothing(content, writer, Drained);
    ReachableNext(Past(content, writer, Marked, true), ReaderDrains(0));
  }

  /** The caller has just registered with a dead client. */
  function Late(content: Content, writer: Task, reader: Task): State {
    var client := Client(2, map[1 := 0], [], true, true);
    State([Conn(client, writer, reader, [], multiset{}, multiset{}, [], [], map[1 := 0])],
          [Call(0, content, Registered, Some(1), Empty, true, false)])
  }

  lemma LateReachable(content: Content, writer: Task, reader: Task)
    requires Reachable(Past(content, writer, reader, true))
    ensures Reachable(Late(content, writer, reader))
  {
    var s0 := Past(content, writer, reader, true);
    ReachableNext(s0, TakeId(0));
    var s1 := Apply(s0, TakeId(0));
    assert s1.conns[0].client.pending == map[] && s1.calls[0].id == Some(1);
    ReachableNext(s1, Register(0));
    assert Apply(s1, Register(0)) == Late(content, writer, reader);
  }

  ghost predicate Hanging(s: State, writer: Task, reader: Task) {
    && |s.conns| == 1 && |s.calls| == 1
    && s.conns[0].writer == writer && s.conns[0].reader == reader && s.conns[0].client.queue == []
    && s.calls[0].phase == Waiting && s.calls[0].cell == Empty
  }

  lemma AfterWriterExits(content: Content, reader: Task)
    requires Reachable(Late(content, Drained, reader))
    ensures exists s :: Reachable(s) && Hanging(s, Exited, reader)
  {
    var s0 := Late(content, Drained, reader);
    ReachableNext(s0, Enqueue(0));
    var s1 := Apply(s0, Enqueue(0));
    ReachableNext(s1, WriterExits(0));
    assert Hanging(Apply(s1, WriterExits(0)), Exited, reader);
  }

  /** A caller that passed its check before the stream died waits on a connection
      both of whose tasks have ended. */
  lemma HangIsReachable(content: Content)
    ensures exists s :: Reachable(s) && Hanging(s, Exited, Drained)
  {
    CheckedCaller(content);
    WriterLeaves(content, Running, false);
    ReaderLeaves(content, Drained, true);
    LateReachable(content, Drained, Drained);
    AfterWriterExits(content, Drained);
  }

  /** The writer need not even fail: the reader has ended, the late request is sent,
      and the writer waits for the next one. */
  lemma ParkedWriterHangs(content: Content)
    ensures exists s :: Reachable(s) && Hanging(s, Running, Drained)
  {
    CheckedCaller(content);
    ReaderLeaves(content, Running, false);
    LateReachable(content, Running, Drained);
    var s0 := Late(content, Running, Drained);
    ReachableNext(s0, Enqueue(0));
    var s1 := Apply(s0, Enqueue(0));
    ReachableNext(s1, WriterSends(0));
    assert Hanging(Apply(s1, WriterSends(0)), Running, Drained);
  }

  /** Nor need the reader: the writer has ended with the request in its channel, and
      the reader waits for a response that cannot come. */
  lemma ParkedReaderHangs(content: Content)
    ensures exists s :: Reachable(s) && Hanging(s, Exited, Running)
  {
    CheckedCaller(content);
    WriterLeaves(content, Running, false);
    LateReachable(content, Drained, Running);
    AfterWriterExits(content, Running);
  }

  /** A late caller that comes to the channel after the writer has ended does not
      hang: it is refused. */
  lemma LateCallerIsRefused(content: Content)
    ensures exists s :: Reachable(s) && |s.calls| == 1 && s.calls[0].registered && s.calls[0].phase == Failed
                     && !s.calls[0].enqueued
  {
    CheckedCaller(content);
    WriterLeaves(content, Running, false);
    ReaderLeaves(content, Drained, true);
    LateReachable(content, Drained, Drained);
    var s0 := Late(content, Drained, Drained);
    ReachableNext(s0, WriterExits(0));
    var s1 := Apply(s0, WriterExits(0));
    ReachableNext(s1, Enqueue(0));
    assert Apply(s1, Enqueue(0)).calls[0].phase == Failed;
  }
}
