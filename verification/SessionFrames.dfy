/** Which frame tells the client what: every reply on the output channel is tied to
    the steps that cause it, over whole runs. */
module SessionFrames {
  import opened Bytes
  import opened Session

  /** The step makes operation `n` send the reply. */
  ghost predicate Produces(s: State, step: Step, n: OpId, reply: Reply) {
    && n < |s.ops|
    && match reply
       case Pong => step == SendReply(n) && s.ops[n].frame.body == Ping
       case StatusReply => step == SendReply(n) && s.ops[n].frame.body == Status
       case Token(done) => step == OnToken(n, done)
       case Done => step == SendDone(n) || step == OnClosed(n) || step == AckCancel(n)
       case Error(InvalidArgument) => step == RejectMissing(n)
       case Error(NotFound) => step == RefuseCancel(n)
       case Error(Cancelled) => step == OnCancel(n)
       case Error(OtherCode) => step == InitFails(n) || step == OnError(n)
  }

  ghost predicate Shows(out: seq<Emitted>, n: OpId, reply: Reply) {
    exists a :: 0 <= a < |out| && out[a].op == n && out[a].frame.reply == reply
  }

  lemma SaidIff(s: State, step: Step, n: OpId, reply: Reply)
    requires Enabled(s, step) && IsSimple(step) && s.reading
    ensures step.op == n && Said(s, step) == Some(reply) <==> Produces(s, step, n, reply)
  {
  }

  lemma EmitShows(s: State, m: OpId, said: Reply, n: OpId, reply: Reply)
    requires m < |s.ops| && s.reading
    ensures Shows(Emit(s, m, said), n, reply) <==> Shows(s.out, n, reply) || (m == n && said == reply)
  {
    var out := Emit(s, m, said);
    assert out[|s.out|].op == m && out[|s.out|].frame.reply == said;
    if a :| 0 <= a < |s.out| && s.out[a].op == n && s.out[a].frame.reply == reply {
      assert out[a] == s.out[a];
    }
  }

  lemma ShowsStep(s: State, step: Step, n: OpId, reply: Reply)
    requires Enabled(s, step)
    ensures Shows(Apply(s, step).out, n, reply)
       <==> Shows(s.out, n, reply) || (s.reading && Produces(s, step, n, reply))
  {
    if IsSimple(step) {
      SimpleEffect(s, step);
      if s.reading {
        SaidIff(s, step, n, reply);
        if Said(s, step).Some? { EmitShows(s, step.op, Said(s, step).value, n, reply); }
      }
    } else if !step.Receive? && !step.ClientGone? {
      TableStepIsQuiet(s, step);
    }
  }

  ghost predicate Caused(run: Run, j: nat, n: OpId, reply: Reply)
    requires j <= |run.steps| < |run.states|
  {
    exists i :: 0 <= i < j && run.states[i].reading && Produces(run.states[i], run.steps[i], n, reply)
  }

  lemma CausedGrows(run: Run, j: nat, n: OpId, reply: Reply)
    requires j < |run.steps| < |run.states|
    ensures Caused(run, j + 1, n, reply)
       <==> Caused(run, j, n, reply) || (run.states[j].reading && Produces(run.states[j], run.steps[j], n, reply))
  {
  }

  /** A reply of an operation is on the output channel exactly when one of the steps
      that cause it was taken while the client was reading. */
  lemma {:induction false} FramesAreHistory(run: Run, j: nat, n: OpId, reply: Reply)
    requires Valid(run) && j < |run.states|
    ensures Shows(run.states[j].out, n, reply) <==> Caused(run, j, n, reply)
    decreases j
  {
    if j > 0 {
      FramesAreHistory(run, j - 1, n, reply);
      assert TakenAt(run, j - 1);
      ShowsStep(run.states[j - 1], run.steps[j - 1], n, reply);
      CausedGrows(run, j - 1, n, reply);
    }
  }

  ghost predicate Took(run: Run, j: nat, step: Step)
    requires j <= |run.steps| < |run.states|
  {
    exists i :: 0 <= i < j && run.steps[i] == step
  }

  /** How an operation ended is what the client is told: Done exactly when it sent its
      done token or its worker's stream closed, Cancelled exactly when it saw the
      cancel signal, another error exactly when its engine could not be built or its
      worker failed. */
  lemma ToldHowItEnded(run: Run, j: nat, n: OpId)
    requires Valid(run) && j < |run.states| && run.states[j].reading
    requires n < |run.states[j].ops| && Cancellable(run.states[j].ops[n].frame.body)
    ensures Shows(run.states[j].out, n, Done) <==> Took(run, j, SendDone(n)) || Took(run, j, OnClosed(n))
    ensures Shows(run.states[j].out, n, Error(Cancelled)) <==> Took(run, j, OnCancel(n))
    ensures Shows(run.states[j].out, n, Error(OtherCode)) <==> Took(run, j, InitFails(n)) || Took(run, j, OnError(n))
    ensures forall done :: Shows(run.states[j].out, n, Token(done)) <==> Took(run, j, OnToken(n, done))
  {
    ReadingAllAlong(run, j);
    NotACancel(run, j, n);
    FramesAreHistory(run, j, n, Done);
    FramesAreHistory(run, j, n, Error(Cancelled));
    FramesAreHistory(run, j, n, Error(OtherCode));
    forall done
      ensures Shows(run.states[j].out, n, Token(done)) <==> Took(run, j, OnToken(n, done))
    {
      FramesAreHistory(run, j, n, Token(done));
      StepsAreOwn(run, j, n, OnToken(n, done));
    }
    StepsAreOwn(run, j, n, SendDone(n));
    StepsAreOwn(run, j, n, OnClosed(n));
    StepsAreOwn(run, j, n, OnCancel(n));
    StepsAreOwn(run, j, n, InitFails(n));
    StepsAreOwn(run, j, n, OnError(n));
  }

  lemma {:induction false} ReadingAllAlong(run: Run, j: nat)
    requires Valid(run) && j < |run.states| && run.states[j].reading
    ensures forall i :: 0 <= i <= j ==> run.states[i].reading
    decreases j
  {
    if j > 0 {
      ReadingEarlier(run, j - 1);
      ReadingAllAlong(run, j - 1);
    }
  }

  lemma StepsAreOwn(run: Run, j: nat, n: OpId, step: Step)
    requires Valid(run) && j < |run.states| && IsSimple(step) && step.op == n
    ensures forall i :: 0 <= i < j && run.steps[i] == step ==> n < |run.states[i].ops|
  {
    forall i | 0 <= i < j && run.steps[i] == step
      ensures n < |run.states[i].ops|
    {
      assert TakenAt(run, i);
    }
  }

  lemma NotACancel(run: Run, j: nat, n: OpId)
    requires Valid(run) && j < |run.states|
    requires n < |run.states[j].ops| && Cancellable(run.states[j].ops[n].frame.body)
    ensures forall i :: 0 <= i < j ==> run.steps[i] != AckCancel(n)
  {
    forall i | 0 <= i < j
      ensures run.steps[i] != AckCancel(n)
    {
      if run.steps[i] == AckCancel(n) {
        assert TakenAt(run, i);
        ReachableOk(run, i);
        assert OpOk(run.states[i], n);
        GrowsAlong(run, i, j);
      }
    }
  }
}
