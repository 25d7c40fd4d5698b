/** What holds along every run of the multiplexer, for every interleaving of
    callers, I/O tasks and server tasks over any number of connections. */
module MuxRuns {
  import opened Bytes
  import opened MuxProtocol

  datatype Run = Run(states: seq<State>, steps: seq<Step>)

  ghost predicate Valid(run: Run) {
    && |run.states| == |run.steps| + 1
    && run.states[0] == INITIAL
    && forall i :: 0 <= i < |run.steps| ==> Taken(run, i)
  }

  ghost predicate Taken(run: Run, i: nat)
    requires i < |run.steps| < |run.states|
  {
    Enabled(run.states[i], run.steps[i]) && run.states[i + 1] == Apply(run.states[i], run.steps[i])
  }

  lemma {:induction false} ReachableOk(run: Run, i: nat)
    requires Valid(run) && i < |run.states|
    ensures Invariant(run.states[i])
  {
    if i > 0 {
      ReachableOk(run, i - 1);
      assert Taken(run, i - 1);
      StepKeeps(run.states[i - 1], run.steps[i - 1]);
    }
  }

  // ── Correlation ───────────────────────────────────────────────────────────

  lemma {:induction false} RequestsCount(computed: seq<Computed>, e: nat, f: nat)
    requires e < f < |computed| && computed[e].request == computed[f].request
    ensures Requests(computed)[computed[e].request] >= 2
  {
    var init := computed[..|computed| - 1];
    if f == |computed| - 1 {
      RequestsHas(init, e);
    } else {
      RequestsCount(init, e, f);
    }
  }

  lemma {:induction false} RequestsHas(computed: seq<Computed>, e: nat)
    requires e < |computed|
    ensures computed[e].request in Requests(computed)
  {
    if e < |computed| - 1 {
      RequestsHas(computed[..|computed| - 1], e);
    }
  }

  /** The answer a caller got is the one the server computed, on that caller's
      connection, for that caller's own request. */
  ghost predicate AnswerOf(s: State, c: CallId, e: nat)
    requires c < |s.calls| && s.calls[c].conn < |s.conns| && s.calls[c].id.Some?
  {
    var call := s.calls[c];
    var computed := s.conns[call.conn].computed;
    && e < |computed|
    && call.phase == Answered(computed[e].response)
    && computed[e].request == MuxRequest(call.id.value, call.content)
  }

  lemma OwnAnswer(s: State, c: CallId)
    requires Invariant(s) && c < |s.calls| && s.calls[c].phase.Answered?
    ensures s.calls[c].conn < |s.conns| && s.calls[c].id.Some?
    ensures exists e :: AnswerOf(s, c, e)
  {
    var k := s.calls[c].conn;
    var computed := s.conns[k].computed;
    assert ConnOk(k, s.conns[k], s.calls);
    assert PhaseOk(s.calls[c]) && CarriesOwn(s.calls[c], computed);
    var e :| 0 <= e < |computed| && computed[e].response == s.calls[c].phase.response;
    RequestsHas(computed, e);
    assert computed[e].request in Trail(s.conns[k]);
    assert AnswerOf(s, c, e);
  }

  lemma NotComputedTwice(s: State, k: ConnId, e: nat, f: nat)
    requires Invariant(s) && k < |s.conns| && e < |s.conns[k].computed| && f < |s.conns[k].computed|
    requires s.conns[k].computed[e].request == s.conns[k].computed[f].request
    ensures e == f
  {
    var conn := s.conns[k];
    assert ConnOk(k, conn, s.calls);
    if e != f {
      RequestsCount(conn.computed, if e < f then e else f, if e < f then f else e);
      assert false;
    }
  }

  /** A `send` that returned Ok carries the server's answer to that very
      request, and that answer was computed exactly once. */
  lemma SendReturnsItsOwnAnswer(run: Run, i: nat, c: CallId)
    requires Valid(run) && i < |run.states|
    requires c < |run.states[i].calls| && run.states[i].calls[c].phase.Answered?
    ensures var s := run.states[i];
            && s.calls[c].conn < |s.conns| && s.calls[c].id.Some?
            && (exists e :: AnswerOf(s, c, e))
            && forall e, f :: AnswerOf(s, c, e) && AnswerOf(s, c, f) ==> e == f
  {
    ReachableOk(run, i);
    var s := run.states[i];
    OwnAnswer(s, c);
    forall f, g | AnswerOf(s, c, f) && AnswerOf(s, c, g)
      ensures f == g
    {
      NotComputedTwice(s, s.calls[c].conn, f, g);
    }
  }

  /** The server computes each request at most once. */
  lemma ComputedOnce(run: Run, i: nat, k: ConnId, e: nat, f: nat)
    requires Valid(run) && i < |run.states| && k < |run.states[i].conns|
    requires e < |run.states[i].conns[k].computed| && f < |run.states[i].conns[k].computed|
    requires run.states[i].conns[k].computed[e].request == run.states[i].conns[k].computed[f].request
    ensures e == f
  {
    ReachableOk(run, i);
    NotComputedTwice(run.states[i], k, e, f);
  }

  /** No answer reaches two callers: different callers that were answered were
      answered by different computations. */
  lemma AnswersAreNotShared(run: Run, i: nat, c: CallId, d: CallId)
    requires Valid(run) && i < |run.states|
    requires c < |run.states[i].calls| && d < |run.states[i].calls| && c != d
    requires run.states[i].calls[c].phase.Answered? && run.states[i].calls[d].phase.Answered?
    ensures var s := run.states[i];
            && s.calls[c].conn < |s.conns| && s.calls[c].id.Some?
            && s.calls[d].conn < |s.conns| && s.calls[d].id.Some?
            && forall e, f :: AnswerOf(s, c, e) && AnswerOf(s, d, f) ==>
                 s.calls[c].conn != s.calls[d].conn || e != f
  {
    ReachableOk(run, i);
    var s := run.states[i];
    assert ConnOk(s.calls[c].conn, s.conns[s.calls[c].conn], s.calls);
    assert ConnOk(s.calls[d].conn, s.conns[s.calls[d].conn], s.calls);
    assert PhaseOk(s.calls[c]) && PhaseOk(s.calls[d]);
  }

  /** The channel between callers and writer never holds more than 256 requests. */
  lemma {:induction false} ChannelIsBounded(run: Run, i: nat, k: ConnId)
    requires Valid(run) && i < |run.states| && k < |run.states[i].conns|
    ensures |run.states[i].conns[k].client.queue| <= 256
    decreases i
  {
    if i > 0 {
      assert Taken(run, i - 1);
      var s := run.states[i - 1];
      if k < |s.conns| { ChannelIsBounded(run, i - 1, k); }
      ReachableOk(run, i - 1);
      QueueStep(s, run.steps[i - 1], k);
    }
  }

  lemma QueueStep(s: State, step: Step, k: ConnId)
    requires Enabled(s, step) && k < |Apply(s, step).conns|
    requires step.Enqueue? && s.calls[step.call].conn < |s.conns| ==>
               var conn := s.conns[s.calls[step.call].conn]; conn.client.channelOpen ==> |conn.client.queue| < 256
    requires k < |s.conns| ==> |s.conns[k].client.queue| <= 256
    ensures |Apply(s, step).conns[k].client.queue| <= 256
  {
  }

  // ── Death of the stream ───────────────────────────────────────────────────

  /** What no step undoes. */
  ghost predicate Later(s: State, s': State) {
    && |s.conns| <= |s'.conns| && |s.calls| <= |s'.calls|
    && (forall k :: 0 <= k < |s.conns| ==> ConnLater(s.conns[k], s'.conns[k]))
    && (forall c :: 0 <= c < |s.calls| ==> CallLater(s.calls[c], s'.calls[c]))
  }

  ghost predicate ConnLater(a: Conn, b: Conn) {
    && (a.client.dead ==> b.client.dead)
    && (a.writer == Drained || a.writer == Exited ==> b.writer == Drained || b.writer == Exited)
    && (a.writer == Exited ==> b.writer == Exited)
    && (a.reader == Drained ==> b.reader == Drained)
  }

  ghost predicate CallLater(a: Call, b: Call) {
    && b.conn == a.conn && b.content == a.content
    && (a.registered ==> b.registered)
    && (a.registered && a.cell != Empty ==> b.cell != Empty)
    && (a.phase == Failed ==> b.phase == Failed)
    && (a.phase.Answered? ==> b.phase == a.phase)
  }

  lemma CallerStepLater(s: State, step: Step)
    requires Enabled(s, step)
    requires step.CheckDead? || step.TakeId? || step.Register? || step.Enqueue? || step.GiveUp? || step.Receive?
    ensures Later(s, Apply(s, step))
  {
  }

  lemma WriterStepLater(s: State, step: Step)
    requires Enabled(s, step)
    requires step.WriterSends? || step.WriterStops? || step.WriterMarks? || step.WriterDrains? || step.WriterExits?
    ensures Later(s, Apply(s, step))
  {
  }

  lemma ReaderStepLater(s: State, step: Step)
    requires Enabled(s, step)
    requires step.ReaderDelivers? || step.ReaderStops? || step.ReaderMarks? || step.ReaderDrains?
    ensures Later(s, Apply(s, step))
  {
  }

  lemma StepLater(s: State, step: Step)
    requires Enabled(s, step)
    ensures Later(s, Apply(s, step))
  {
    if step.CheckDead? || step.TakeId? || step.Register? || step.Enqueue? || step.GiveUp? || step.Receive? {
      CallerStepLater(s, step);
    } else if step.WriterSends? || step.WriterStops? || step.WriterMarks? || step.WriterDrains? || step.WriterExits? {
      WriterStepLater(s, step);
    } else if step.ReaderDelivers? || step.ReaderStops? || step.ReaderMarks? || step.ReaderDrains? {
      ReaderStepLater(s, step);
    }
  }

  lemma LaterTrans(a: State, b: State, c: State)
    requires Later(a, b) && Later(b, c)
    ensures Later(a, c)
  {
    forall k | 0 <= k < |a.conns|
      ensures ConnLater(a.conns[k], c.conns[k])
    {
      assert ConnLater(a.conns[k], b.conns[k]) && ConnLater(b.conns[k], c.conns[k]);
    }
    forall k | 0 <= k < |a.calls|
      ensures CallLater(a.calls[k], c.calls[k])
    {
      assert CallLater(a.calls[k], b.calls[k]) && CallLater(b.calls[k], c.calls[k]);
    }
  }

  /** Along a run death is final, a drained task stays drained, a woken caller
      stays woken, and a finished `send` keeps its outcome. */
  lemma {:induction false} NothingIsUndone(run: Run, i: nat, j: nat)
    requires Valid(run) && i <= j < |run.states|
    ensures Later(run.states[i], run.states[j])
    decreases j
  {
    if i < j {
      NothingIsUndone(run, i, j - 1);
      assert Taken(run, j - 1);
      StepLater(run.states[j - 1], run.steps[j - 1]);
      LaterTrans(run.states[i], run.states[j - 1], run.states[j]);
    }
  }

  /** The caller has not yet got past the check of the dead flag. */
  ghost predicate NotPastCheck(s: State, c: CallId) {
    c < |s.calls| ==> s.calls[c].phase == Fresh || (s.calls[c].phase == Failed && s.calls[c].id == None)
  }

  lemma LateCallStep(s: State, step: Step, k: ConnId, c: CallId)
    requires Enabled(s, step) && c < |s.calls| && s.calls[c].conn == k && PhaseOk(s.calls[c])
    requires k < |s.conns| && s.conns[k].client.dead && NotPastCheck(s, c)
    ensures NotPastCheck(Apply(s, step), c)
  {
  }

  /** A `send` that has not passed its check when the stream dies never
      registers, never takes an id, and is never answered. */
  lemma {:induction false} NoRegistrationAfterDeath(run: Run, i: nat, j: nat, c: CallId)
    requires Valid(run) && i <= j < |run.states| && c < |run.states[j].calls|
    requires var k := run.states[j].calls[c].conn;
             k < |run.states[i].conns| && run.states[i].conns[k].client.dead
    requires NotPastCheck(run.states[i], c)
    ensures NotPastCheck(run.states[j], c)
    ensures !run.states[j].calls[c].registered
    decreases j
  {
    var k := run.states[j].calls[c].conn;
    if i < j {
      var s := run.states[j - 1];
      NothingIsUndone(run, i, j - 1);
      NothingIsUndone(run, j - 1, j);
      assert ConnLater(run.states[i].conns[k], s.conns[k]);
      if c < |s.calls| {
        assert CallLater(s.calls[c], run.states[j].calls[c]);
        NoRegistrationAfterDeath(run, i, j - 1, c);
        CallPhaseOk(run, j - 1, c);
        assert Taken(run, j - 1);
        LateCallStep(s, run.steps[j - 1], k, c);
      } else {
        NewCallIsFresh(run, j, c);
      }
    }
    CallPhaseOk(run, j, c);
  }

  lemma CallPhaseOk(run: Run, i: nat, c: CallId)
    requires Valid(run) && i < |run.states| && c < |run.states[i].calls|
    ensures PhaseOk(run.states[i].calls[c])
  {
    ReachableOk(run, i);
    var k := run.states[i].calls[c].conn;
    assert ConnOk(k, run.states[i].conns[k], run.states[i].calls);
  }

  /** A drain by either task wakes every caller registered by then: from that
      moment on each of them has an answer or an error to return. */
  lemma DrainWakesAllRegistered(run: Run, i: nat, j: nat, k: ConnId, c: CallId)
    requires Valid(run) && i < |run.steps| && i < j < |run.states|
    requires run.steps[i] == WriterDrains(k) || run.steps[i] == ReaderDrains(k)
    requires c < |run.states[i].calls| && run.states[i].calls[c].conn == k && run.states[i].calls[c].registered
    ensures c < |run.states[j].calls| && run.states[j].calls[c].cell != Empty
  {
    var s := run.states[i];
    ReachableOk(run, i);
    assert Taken(run, i);
    assert ConnOk(k, s.conns[k], s.calls);
    DrainTable(k, s.conns[k], s.calls);
    assert run.states[i + 1].calls[c].cell != Empty && run.states[i + 1].calls[c].registered;
    NothingIsUndone(run, i + 1, j);
    assert CallLater(run.states[i + 1].calls[c], run.states[j].calls[c]);
  }

  lemma ConnStays(run: Run, i: nat, c: CallId)
    requires Valid(run) && i < |run.steps| && c < |run.states[i].calls|
    ensures c < |run.states[i + 1].calls| && run.states[i + 1].calls[c].conn == run.states[i].calls[c].conn
  {
    NothingIsUndone(run, i, i + 1);
    assert CallLater(run.states[i].calls[c], run.states[i + 1].calls[c]);
  }

  lemma NewCallIsFresh(run: Run, j: nat, c: CallId)
    requires Valid(run) && 0 < j < |run.states|
    requires |run.states[j - 1].calls| <= c < |run.states[j].calls|
    ensures run.states[j].calls[c].phase == Fresh && run.states[j].calls[c].cell == Empty
  {
    assert Taken(run, j - 1);
  }

  /** What is left in the table after both drains belongs to callers that read
      the dead flag as clear before it was first set. */
  lemma LeftoversCheckedBeforeDeath(run: Run, d: nat, j: nat, k: ConnId, id: nat)
    requires Valid(run) && d <= j < |run.states| && k < |run.states[d].conns| && run.states[d].conns[k].client.dead
    requires k < |run.states[j].conns| && id in run.states[j].conns[k].client.pending
    ensures var c := run.states[j].conns[k].client.pending[id];
            c < |run.states[d].calls| && !NotPastCheck(run.states[d], c)
  {
    ReachableOk(run, j);
    var s := run.states[j];
    var c := s.conns[k].client.pending[id];
    assert ConnOk(k, s.conns[k], s.calls);
    assert s.calls[c].conn == k && s.calls[c].registered;
    if NotPastCheck(run.states[d], c) {
      NoRegistrationAfterDeath(run, d, j, c);
    }
  }

  ghost predicate Reachable(s: State) {
    exists run :: Valid(run) && run.states[|run.states| - 1] == s
  }

  lemma ReachableInitially()
    ensures Reachable(INITIAL)
  {
    var run := Run([INITIAL], []);
    assert Valid(run) && run.states[|run.states| - 1] == INITIAL;
  }

  lemma ReachableNext(s: State, step: Step)
    requires Reachable(s) && Enabled(s, step)
    ensures Reachable(Apply(s, step))
  {
    var run :| Valid(run) && run.states[|run.states| - 1] == s;
    var run' := Run(run.states + [Apply(s, step)], run.steps + [step]);
    forall i | 0 <= i < |run'.steps|
      ensures Taken(run', i)
    {
      if i < |run.steps| { assert Taken(run, i); }
    }
    assert Valid(run') && run'.states[|run'.states| - 1] == Apply(s, step);
  }
}
