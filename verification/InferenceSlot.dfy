/** The lazily initialised inference engine that Chat and Session requests share:
    an async mutex guards the slot while it is filled, and each engine runs one
    inference at a time (`try_lock`; a second one is bounced). */
module InferenceSlot {
  import opened Bytes

  type RequestId = nat
  type EngineId = nat

  datatype Origin = Chat | SessionGenerate

  datatype Code = ResourceExhausted | Internal
  datatype Item = Token(done: bool) | Error(code: Code)

  datatype Phase =
    | Waiting                       // for the slot's mutex
    | Holding                       // has the mutex, about to look
    | Building                      // has the mutex, loading the model
    | InitFailed
    | Dispatched(engine: EngineId)  // its worker is about to try the engine
    | Running(engine: EngineId)     // its worker holds the engine
    | Bounced
    | Finished
    | Abandoned                     // the client left while its handler waited for the engine

  /** `items` is what its worker sent on the token channel; `initErrors` counts
      the errors reported instead when no worker was started. */
  datatype Request = Request(origin: Origin, phase: Phase, items: seq<Item>, initErrors: nat)

  datatype State = State(
    mutex: Option<RequestId>,
    slot: Option<EngineId>,
    built: nat,
    holder: map<EngineId, RequestId>,
    requests: seq<Request>)

  const INITIAL := State(None, None, 0, map[], [])

  datatype Step =
    | Arrive(origin: Origin)
    | LockSlot(request: RequestId)
    | Inspect(request: RequestId)
    | BuildSucceeds(request: RequestId)
    | BuildFails(request: RequestId)
    | Abandon(request: RequestId)       // a Chat handler is dropped; a build under way is lost
    | TryEngine(request: RequestId)
    | WorkerToken(request: RequestId)
    | WorkerError(request: RequestId)   // reported, the worker goes on to its done marker
    | WorkerDone(request: RequestId)
    | WorkerAborts(request: RequestId)  // reported, without a done marker

  predicate At(s: State, r: RequestId, phase: Phase) {
    r < |s.requests| && s.requests[r].phase == phase
  }

  predicate Enabled(s: State, step: Step) {
    match step
    case Arrive(_) => true
    case LockSlot(r) => At(s, r, Waiting) && s.mutex.None?
    case Inspect(r) => At(s, r, Holding)
    case BuildSucceeds(r) => At(s, r, Building)
    case BuildFails(r) => At(s, r, Building)
    case Abandon(r) =>
      (At(s, r, Waiting) || At(s, r, Holding) || At(s, r, Building)) && s.requests[r].origin == Chat
    case TryEngine(r) => r < |s.requests| && s.requests[r].phase.Dispatched?
    case WorkerToken(r) => r < |s.requests| && s.requests[r].phase.Running?
    case WorkerError(r) => r < |s.requests| && s.requests[r].phase.Running?
    case WorkerDone(r) => r < |s.requests| && s.requests[r].phase.Running?
    case WorkerAborts(r) => r < |s.requests| && s.requests[r].phase.Running?
  }

  function Move(s: State, r: RequestId, phase: Phase): State
    requires r < |s.requests|
  {
    s.(requests := s.requests[r := s.requests[r].(phase := phase)])
  }

  function Send(s: State, r: RequestId, item: Item, phase: Phase): State
    requires r < |s.requests|
  {
    var request := s.requests[r];
    s.(requests := s.requests[r := request.(phase := phase, items := request.items + [item])])
  }

  function Apply(s: State, step: Step): State
    requires Enabled(s, step)
  {
    match step
    case Arrive(origin) => s.(requests := s.requests + [Request(origin, Waiting, [], 0)])
    case LockSlot(r) => Move(s, r, Holding).(mutex := Some(r))
    case Inspect(r) =>
      if s.slot.Some? then Move(s, r, Dispatched(s.slot.value)).(mutex := None) else Move(s, r, Building)
    case BuildSucceeds(r) =>
      Move(s, r, Dispatched(s.built)).(slot := Some(s.built), built := s.built + 1, mutex := None)
    case BuildFails(r) =>
      var request := s.requests[r];
      s.(requests := s.requests[r := request.(phase := InitFailed, initErrors := request.initErrors + 1)],
         mutex := None)
    case Abandon(r) => Move(s, r, Abandoned).(mutex := if s.mutex == Some(r) then None else s.mutex)
    case TryEngine(r) =>
      var e := s.requests[r].phase.engine;
      if e in s.holder then Send(s, r, Error(ResourceExhausted), Bounced)
      else Move(s, r, Running(e)).(holder := s.holder[e := r])
    case WorkerToken(r) => Send(s, r, Token(false), s.requests[r].phase)
    case WorkerError(r) => Send(s, r, Error(Internal), s.requests[r].phase)
    case WorkerDone(r) => Send(s, r, Token(true), Finished).(holder := s.holder - {s.requests[r].phase.engine})
    case WorkerAborts(r) => Send(s, r, Error(Internal), Finished).(holder := s.holder - {s.requests[r].phase.engine})
  }

  // ── Invariant ─────────────────────────────────────────────────────────────

  /** No done marker yet. */
  predicate NotDone(items: seq<Item>) {
    forall i :: 0 <= i < |items| ==> items[i] != Token(true)
  }

  /** The last item is the done marker, and the only one, or an error. */
  predicate HasEnded(items: seq<Item>) {
    && items != [] && NotDone(items[..|items| - 1])
    && (items[|items| - 1] == Token(true) || items[|items| - 1].Error?)
  }

  ghost predicate RequestOk(s: State, r: RequestId)
    requires r < |s.requests|
  {
    var request := s.requests[r];
    && ((request.phase == Holding || request.phase == Building) <==> s.mutex == Some(r))
    && (request.initErrors == if request.phase == InitFailed then 1 else 0)
    && match request.phase
       case Waiting => request.items == []
       case Holding => request.items == []
       case Building => request.items == [] && s.slot.None?
       case InitFailed => request.items == []
       case Dispatched(e) => request.items == [] && s.slot == Some(e)
       case Running(e) => s.slot == Some(e) && e in s.holder && s.holder[e] == r && NotDone(request.items)
       case Bounced => request.items == [Error(ResourceExhausted)]
       case Finished => HasEnded(request.items)
       case Abandoned => request.items == []
  }

  ghost predicate Invariant(s: State) {
    && (s.mutex.Some? ==> s.mutex.value < |s.requests|)
    && (match s.slot case None => s.built == 0 case Some(e) => s.built == 1 && e == 0)
    && (forall e :: e in s.holder ==>
          s.slot == Some(e) && s.holder[e] < |s.requests| && s.requests[s.holder[e]].phase == Running(e))
    && (forall r :: 0 <= r < |s.requests| ==> RequestOk(s, r))
  }

  lemma SlotStepKeeps(s: State, step: Step)
    requires Invariant(s) && Enabled(s, step)
    requires step.Arrive? || step.LockSlot? || step.Inspect? || step.BuildSucceeds? || step.BuildFails? || step.Abandon?
    ensures Invariant(Apply(s, step))
  {
    var s' := Apply(s, step);
    if !step.Arrive? { assert RequestOk(s, step.request); }
    forall r | 0 <= r < |s'.requests|
      ensures RequestOk(s', r)
    {
      if r < |s.requests| { assert RequestOk(s, r); }
    }
  }

  lemma WorkerStepKeeps(s: State, step: Step)
    requires Invariant(s) && Enabled(s, step)
    requires step.TryEngine? || step.WorkerToken? || step.WorkerError? || step.WorkerDone? || step.WorkerAborts?
    ensures Invariant(Apply(s, step))
  {
    var s' := Apply(s, step);
    assert RequestOk(s, step.request);
    forall r | 0 <= r < |s'.requests|
      ensures RequestOk(s', r)
    {
      assert RequestOk(s, r);
    }
  }

  /** Every step keeps the invariant. */
  lemma StepKeeps(s: State, step: Step)
    requires Invariant(s) && Enabled(s, step)
    ensures Invariant(Apply(s, step))
  {
    if step.Arrive? || step.LockSlot? || step.Inspect? || step.BuildSucceeds? || step.BuildFails? || step.Abandon? {
      SlotStepKeeps(s, step);
    } else {
      WorkerStepKeeps(s, step);
    }
  }

  // ── Runs ──────────────────────────────────────────────────────────────────

  datatype Run = Run(states: seq<State>, steps: seq<Step>)

  ghost predicate Taken(run: Run, i: nat)
    requires i < |run.steps| < |run.states|
  {
    Enabled(run.states[i], run.steps[i]) && run.states[i + 1] == Apply(run.states[i], run.steps[i])
  }

  ghost predicate Valid(run: Run) {
    && |run.states| == |run.steps| + 1
    && run.states[0] == INITIAL
    && forall i :: 0 <= i < |run.steps| ==> Taken(run, i)
  }

  lemma {:induction false} ReachableOk(run: Run, i: nat)
    requires Valid(run) && i < |run.states|
    ensures Invariant(run.states[i])
  {
    if i > 0 {
      ReachableOk(run, i - 1);
      assert Taken(run, i - 1);
      StepKeeps(run.states[i - 1], run.steps[i - 1]);
    }
  }

  /** At most one inference runs on the node, whichever requests raced to fill
      the slot. */
  lemma OneInferenceAtATime(run: Run, i: nat, q: RequestId, r: RequestId)
    requires Valid(run) && i < |run.states| && q < |run.states[i].requests| && r < |run.states[i].requests|
    requires run.states[i].requests[q].phase.Running? && run.states[i].requests[r].phase.Running?
    ensures q == r
  {
    ReachableOk(run, i);
    assert RequestOk(run.states[i], q) && RequestOk(run.states[i], r);
  }

  /** The slot is written at most once: empty, then one engine for good. */
  lemma {:induction false} SlotIsWrittenOnce(run: Run, i: nat, j: nat)
    requires Valid(run) && i <= j < |run.states|
    ensures run.states[i].slot.Some? ==> run.states[j].slot == run.states[i].slot
    ensures run.states[j].built <= 1 && run.states[i].built <= run.states[j].built
    ensures run.states[j].slot.Some? <==> run.states[j].built == 1
    decreases j
  {
    ReachableOk(run, j);
    if i < j {
      SlotIsWrittenOnce(run, i, j - 1);
      ReachableOk(run, j - 1);
      assert Taken(run, j - 1);
      var s, step := run.states[j - 1], run.steps[j - 1];
      if step.BuildSucceeds? { assert RequestOk(s, step.request); }
    }
  }

  /** A failed initialisation leaves the slot empty for the next request to try,
      and its own request gets exactly one error and no token. */
  lemma FailedInitLeavesSlotEmpty(run: Run, i: nat)
    requires Valid(run) && i < |run.steps| && run.steps[i].BuildFails?
    ensures run.states[i + 1].slot == None && run.states[i + 1].mutex == None
    ensures var r := run.steps[i].request;
            && r < |run.states[i + 1].requests|
            && run.states[i + 1].requests[r].phase == InitFailed
            && run.states[i + 1].requests[r].items == [] && run.states[i + 1].requests[r].initErrors == 1
  {
    ReachableOk(run, i);
    assert Taken(run, i);
    assert RequestOk(run.states[i], run.steps[i].request);
  }

  /** A request that ran ends with its done marker or an error, and nothing that its
      worker sent before was a done marker. */
  lemma FinishedWithAMarker(run: Run, i: nat, r: RequestId)
    requires Valid(run) && i < |run.states| && r < |run.states[i].requests|
    requires run.states[i].requests[r].phase == Finished
    ensures HasEnded(run.states[i].requests[r].items)
  {
    ReachableOk(run, i);
    assert RequestOk(run.states[i], r);
  }

  predicate Over(phase: Phase) {
    phase == InitFailed || phase == Bounced || phase == Finished || phase == Abandoned
  }

  lemma {:induction false} OutcomeIsFinal(run: Run, i: nat, j: nat, r: RequestId)
    requires Valid(run) && i <= j < |run.states|
    requires r < |run.states[i].requests| && Over(run.states[i].requests[r].phase)
    ensures r < |run.states[j].requests| && run.states[j].requests[r] == run.states[i].requests[r]
    decreases j
  {
    if i < j {
      OutcomeIsFinal(run, i, j - 1, r);
      assert Taken(run, j - 1);
    }
  }

  /** A request that finds the engine taken is told so once and gets no token, then
      or later; and it is bounced exactly when another request holds the engine. */
  lemma BouncedGetsOneError(run: Run, i: nat, j: nat)
    requires Valid(run) && i < |run.steps| && i < j < |run.states| && run.steps[i].TryEngine?
    ensures var r := run.steps[i].request;
            && r < |run.states[i].requests| <= |run.states[i + 1].requests|
            && (run.states[i + 1].requests[r].phase == Bounced
                <==> exists q ::
                       0 <= q < |run.states[i].requests| && q != r && run.states[i].requests[q].phase.Running?)
            && (run.states[i + 1].requests[r].phase == Bounced ==>
                  r < |run.states[j].requests| && run.states[j].requests[r].items == [Error(ResourceExhausted)])
  {
    ReachableOk(run, i);
    assert Taken(run, i);
    var s, r := run.states[i], run.steps[i].request;
    var e := s.requests[r].phase.engine;
    assert RequestOk(s, r);
    if e in s.holder {
      var q := s.holder[e];
      assert q != r && s.requests[q].phase.Running?;
      OutcomeIsFinal(run, i + 1, j, r);
    } else {
      forall q | 0 <= q < |s.requests|
        ensures !s.requests[q].phase.Running?
      {
        assert RequestOk(s, q);
      }
    }
  }

  // ── Requests are served ───────────────────────────────────────────────────

  ghost predicate Reachable(s: State) {
    exists run :: Valid(run) && run.states[|run.states| - 1] == s
  }

  lemma ReachableInitially()
    ensures Reachable(INITIAL)
  {
    var run := Run([INITIAL], []);
    assert Valid(run) && run.states[|run.states| - 1] == INITIAL;
  }

  lemma ReachableNext(s: State, step: Step)
    requires Reachable(s) && Enabled(s, step)
    ensures Reachable(Apply(s, step))
  {
    var run :| Valid(run) && run.states[|run.states| - 1] == s;
    var run' := Run(run.states + [Apply(s, step)], run.steps + [step]);
    forall i | 0 <= i < |run'.steps|
      ensures Taken(run', i)
    {
      if i < |run.steps| { assert Taken(run, i); }
    }
    assert Valid(run') && run'.states[|run'.states| - 1] == Apply(s, step);
  }

  function Served(origin: Origin): Request {
    Request(origin, Finished, [Token(true)], 0)
  }

  lemma FirstDispatched(origin: Origin)
    ensures Reachable(State(None, Some(0), 1, map[], [Request(origin, Dispatched(0), [], 0)]))
  {
    ReachableInitially();
    ReachableNext(INITIAL, Arrive(origin));
    var s0 := State(None, None, 0, map[], [Request(origin, Waiting, [], 0)]);
    assert Apply(INITIAL, Arrive(origin)) == s0;
    ReachableNext(s0, LockSlot(0));
    var s1 := State(Some(0), None, 0, map[], [Request(origin, Holding, [], 0)]);
    ReachableNext(s1, Inspect(0));
    var s2 := State(Some(0), None, 0, map[], [Request(origin, Building, [], 0)]);
    ReachableNext(s2, BuildSucceeds(0));
  }

  lemma FirstServed(origin: Origin)
    ensures Reachable(State(None, Some(0), 1, map[], [Served(origin)]))
  {
    FirstDispatched(origin);
    var s0 := State(None, Some(0), 1, map[], [Request(origin, Dispatched(0), [], 0)]);
    ReachableNext(s0, TryEngine(0));
    var s1 := State(None, Some(0), 1, map[0 := 0], [Request(origin, Running(0), [], 0)]);
    ReachableNext(s1, WorkerDone(0));
    assert Apply(s1, WorkerDone(0)).holder == map[];
    assert Apply(s1, WorkerDone(0)).requests[0] == Served(origin);
  }

  lemma SecondDispatched(first: Origin, second: Origin)
    ensures Reachable(State(None, Some(0), 1, map[], [Served(first), Request(second, Dispatched(0), [], 0)]))
  {
    FirstServed(first);
    var s0 := State(None, Some(0), 1, map[], [Served(first)]);
    ReachableNext(s0, Arrive(second));
    var s1 := State(None, Some(0), 1, map[], [Served(first), Request(second, Waiting, [], 0)]);
    assert Apply(s0, Arrive(second)) == s1;
    ReachableNext(s1, LockSlot(1));
    var s2 := State(Some(1), Some(0), 1, map[], [Served(first), Request(second, Holding, [], 0)]);
    ReachableNext(s2, Inspect(1));
  }

  /** Two requests, of either kind, are served one after the other by one engine, which
      is built once. */
  lemma EngineIsReused(first: Origin, second: Origin)
    ensures Reachable(State(None, Some(0), 1, map[], [Served(first), Served(second)]))
  {
    SecondDispatched(first, second);
    var s0 := State(None, Some(0), 1, map[], [Served(first), Request(second, Dispatched(0), [], 0)]);
    ReachableNext(s0, TryEngine(1));
    var s1 := State(None, Some(0), 1, map[0 := 1], [Served(first), Request(second, Running(0), [], 0)]);
    assert Apply(s0, TryEngine(1)) == s1;
    ReachableNext(s1, WorkerDone(1));
    assert Apply(s1, WorkerDone(1)).holder == map[];
    assert Apply(s1, WorkerDone(1)).requests[1] == Served(second);
  }
}
