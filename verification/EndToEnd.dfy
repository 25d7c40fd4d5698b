/** The proxy and the multiplexer together. A handler's send is a call on the
    connection it got from the shared slot; the slot sees a client as dead exactly
    when its dead flag is set. Every step belongs to one of the two systems, or is
    one step of each. */
module EndToEnd {
  import opened Bytes
  import M = MuxProtocol
  import R = MuxRuns
  import A = MuxAnswers
  import C = ClientSlot

  /** `contents[h]` is what handler `h` was asked to forward, `tries[h]` the calls it
      made. */
  datatype State = State(slot: C.State, mux: M.State, contents: seq<M.Content>, tries: seq<seq<M.CallId>>)

  const INITIAL := State(C.INITIAL, M.INITIAL, [], [])

  datatype Step =
    | Arrive(content: M.Content)
    | Slot(step: C.Step)             // a lock, a check, a failed connect, an invalidation
    | Connects(handler: C.HandlerId)
    | Begins(handler: C.HandlerId)   // the handler calls `send`
    | Mux(muxStep: M.Step)           // a step of a call, an I/O task or the server
    | Relays(handler: C.HandlerId)   // `send` returned a response
    | Fails(handler: C.HandlerId)    // `send` returned an error

  predicate SlotOnly(step: C.Step) {
    || step.LockRead? || step.CheckRead? || step.LockWrite? || step.CheckWrite?
    || step.ConnectFails? || step.LockInvalidate? || step.Invalidate?
  }

  predicate MuxOnly(step: M.Step) {
    !step.Connect? && !step.Start?
  }

  predicate Marks(step: M.Step) {
    step.WriterMarks? || step.ReaderMarks?
  }

  predicate Sending(s: State, h: C.HandlerId) {
    h < |s.slot.handlers| && h < |s.tries| && h < |s.contents| && s.slot.handlers[h].phase.Sending?
  }

  /** The handler awaits the last of its calls. */
  predicate Awaits(s: State, h: C.HandlerId) {
    && Sending(s, h) && |s.tries[h]| == s.slot.handlers[h].sends + 1
    && Last(s, h) < |s.mux.calls|
  }

  function Last(s: State, h: C.HandlerId): M.CallId
    requires h < |s.tries| && s.tries[h] != []
  {
    s.tries[h][|s.tries[h]| - 1]
  }

  predicate Enabled(s: State, step: Step) {
    match step
    case Arrive(_) => true
    case Slot(st) => SlotOnly(st) && C.Enabled(s.slot, st)
    case Connects(h) => C.Enabled(s.slot, C.ConnectSucceeds(h))
    case Begins(h) =>
      && Sending(s, h) && |s.tries[h]| == s.slot.handlers[h].sends
      && s.slot.handlers[h].phase.client < |s.mux.conns|
    case Mux(st) => MuxOnly(st) && M.Enabled(s.mux, st) && (Marks(st) ==> st.conn < s.slot.created)
    case Relays(h) => Awaits(s, h) && s.mux.calls[Last(s, h)].phase.Answered?
    case Fails(h) => Awaits(s, h) && s.mux.calls[Last(s, h)].phase == M.Failed
  }

  function Apply(s: State, step: Step): State
    requires Enabled(s, step)
  {
    match step
    case Arrive(content) =>
      s.(slot := C.Apply(s.slot, C.Arrive), contents := s.contents + [content], tries := s.tries + [[]])
    case Slot(st) => s.(slot := C.Apply(s.slot, st))
    case Connects(h) => s.(slot := C.Apply(s.slot, C.ConnectSucceeds(h)), mux := M.Apply(s.mux, M.Connect))
    case Begins(h) =>
      var client := s.slot.handlers[h].phase.client;
      s.(mux := M.Apply(s.mux, M.Start(client, s.contents[h])),
         tries := s.tries[h := s.tries[h] + [|s.mux.calls|]])
    case Mux(st) =>
      s.(mux := M.Apply(s.mux, st),
         slot := if Marks(st) then C.Apply(s.slot, C.Dies(st.conn)) else s.slot)
    case Relays(h) => s.(slot := C.Apply(s.slot, C.SendSucceeds(h)))
    case Fails(h) => s.(slot := C.Apply(s.slot, C.SendFails(h)))
  }

  // ── Invariant ─────────────────────────────────────────────────────────────

  ghost predicate Sizes(s: State) {
    |s.contents| == |s.tries| == |s.slot.handlers| && s.slot.created == |s.mux.conns|
  }

  ghost predicate DeadInStep(s: State) {
    forall k :: 0 <= k < |s.mux.conns| ==> (k in s.slot.dead <==> s.mux.conns[k].client.dead)
  }

  /** How many calls a handler in its phase has made, and how the last one went. */
  ghost predicate HandlerOk(handler: C.Handler, tries: seq<M.CallId>, calls: seq<M.Call>) {
    && (|tries| == handler.sends
        || (|tries| == handler.sends + 1 && handler.phase.Sending? && tries[|tries| - 1] < |calls|
            && calls[tries[|tries| - 1]].conn == handler.phase.client))
    && (handler.phase == C.Relayed ==>
          tries != [] && tries[|tries| - 1] < |calls| && calls[tries[|tries| - 1]].phase.Answered?)
  }

  ghost predicate TriesOk(tries: seq<M.CallId>, content: M.Content, calls: seq<M.Call>) {
    forall a :: 0 <= a < |tries| ==> tries[a] < |calls| && calls[tries[a]].content == content
  }

  ghost predicate HandlersOk(s: State) {
    && Sizes(s)
    && (forall h :: 0 <= h < |s.tries| ==> HandlerOk(s.slot.handlers[h], s.tries[h], s.mux.calls))
    && (forall h :: 0 <= h < |s.tries| ==> TriesOk(s.tries[h], s.contents[h], s.mux.calls))
  }

  ghost predicate Invariant(s: State) {
    C.Invariant(s.slot) && M.Invariant(s.mux) && HandlersOk(s) && DeadInStep(s)
  }

  lemma StepKeepsParts(s: State, step: Step)
    requires Invariant(s) && Enabled(s, step)
    ensures C.Invariant(Apply(s, step).slot) && M.Invariant(Apply(s, step).mux)
  {
    match step
    case Arrive(_) => C.StepKeeps(s.slot, C.Arrive);
    case Slot(st) => C.StepKeeps(s.slot, st);
    case Connects(h) => C.StepKeeps(s.slot, C.ConnectSucceeds(h)); M.StepKeeps(s.mux, M.Connect);
    case Begins(h) => M.StepKeeps(s.mux, M.Start(s.slot.handlers[h].phase.client, s.contents[h]));
    case Mux(st) =>
      M.StepKeeps(s.mux, st);
      if Marks(st) { C.StepKeeps(s.slot, C.Dies(st.conn)); }
    case Relays(h) => C.StepKeeps(s.slot, C.SendSucceeds(h));
    case Fails(h) => C.StepKeeps(s.slot, C.SendFails(h));
  }

  /** Calls only move on: what the handlers know of them stays true. */
  lemma CallsMoveOn(s: State, s': State)
    requires HandlersOk(s) && R.Later(s.mux, s'.mux) && |s'.mux.conns| == |s.mux.conns|
    requires s'.tries == s.tries && s'.contents == s.contents
    requires s'.slot.handlers == s.slot.handlers && s'.slot.created == s.slot.created
    ensures HandlersOk(s')
  {
    var calls, calls' := s.mux.calls, s'.mux.calls;
    forall h | 0 <= h < |s.tries|
      ensures HandlerOk(s'.slot.handlers[h], s'.tries[h], calls') && TriesOk(s'.tries[h], s'.contents[h], calls')
    {
      assert HandlerOk(s.slot.handlers[h], s.tries[h], calls) && TriesOk(s.tries[h], s.contents[h], calls);
      forall a | 0 <= a < |s.tries[h]|
        ensures R.CallLater(calls[s.tries[h][a]], calls'[s.tries[h][a]])
      {
      }
    }
  }

  lemma MuxKeeps(s: State, st: M.Step)
    requires Invariant(s) && Enabled(s, Mux(st))
    ensures HandlersOk(Apply(s, Mux(st))) && DeadInStep(Apply(s, Mux(st)))
  {
    var s' := Apply(s, Mux(st));
    MuxEffect(s, st);
    MuxDead(s.mux, st);
    assert R.Later(s.mux, s'.mux) by { R.StepLater(s.mux, st); }
    CallsMoveOn(s, s');
    StillInStep(s, s', st);
  }

  lemma MuxEffect(s: State, st: M.Step)
    requires Enabled(s, Mux(st))
    ensures var s' := Apply(s, Mux(st));
            && s'.mux == M.Apply(s.mux, st) && s'.tries == s.tries && s'.contents == s.contents
            && s'.slot.handlers == s.slot.handlers && s'.slot.created == s.slot.created
            && s'.slot.dead == if Marks(st) then s.slot.dead + {st.conn} else s.slot.dead
  {
  }

  lemma StillInStep(s: State, s': State, st: M.Step)
    requires DeadInStep(s) && DeadMoves(s.mux, s'.mux, st)
    requires s'.slot.dead == if Marks(st) then s.slot.dead + {st.conn} else s.slot.dead
    ensures DeadInStep(s')
  {
  }

  /** Only a marking step sets a dead flag. */
  ghost predicate DeadMoves(mux: M.State, mux': M.State, st: M.Step) {
    && |mux'.conns| == |mux.conns|
    && forall k :: 0 <= k < |mux.conns| ==>
         mux'.conns[k].client.dead == (mux.conns[k].client.dead || (Marks(st) && st.conn == k))
  }

  lemma CallerDead(mux: M.State, st: M.Step)
    requires M.Enabled(mux, st) && M.IsCallerStep(st)
    ensures DeadMoves(mux, M.Apply(mux, st), st)
  {
  }

  lemma ConnDead(mux: M.State, st: M.Step)
    requires M.Enabled(mux, st) && MuxOnly(st) && !M.IsCallerStep(st)
    ensures DeadMoves(mux, M.Apply(mux, st), st)
  {
  }

  lemma MuxDead(mux: M.State, st: M.Step)
    requires M.Enabled(mux, st) && MuxOnly(st)
    ensures DeadMoves(mux, M.Apply(mux, st), st)
  {
    if M.IsCallerStep(st) { CallerDead(mux, st); } else { ConnDead(mux, st); }
  }

  /** One handler changes, and what it did fits its new phase. */
  lemma OneHandler(s: State, s': State, h: C.HandlerId)
    requires HandlersOk(s) && h < |s.slot.handlers| == |s'.slot.handlers|
    requires s'.mux == s.mux && s'.tries == s.tries && s'.contents == s.contents
    requires s'.slot.created == s.slot.created
    requires forall g :: 0 <= g < |s.slot.handlers| && g != h ==> s'.slot.handlers[g] == s.slot.handlers[g]
    requires HandlerOk(s'.slot.handlers[h], s.tries[h], s.mux.calls)
    ensures HandlersOk(s')
  {
  }

  lemma SlotKeeps(s: State, st: C.Step)
    requires Invariant(s) && Enabled(s, Slot(st))
    ensures HandlersOk(Apply(s, Slot(st))) && DeadInStep(Apply(s, Slot(st)))
  {
    var h := st.handler;
    assert HandlerOk(s.slot.handlers[h], s.tries[h], s.mux.calls);
    SlotMoves(s.slot, st);
    OneHandler(s, Apply(s, Slot(st)), h);
  }

  lemma SlotMoves(slot: C.State, st: C.Step)
    requires C.Enabled(slot, st) && SlotOnly(st)
    ensures var h, slot' := st.handler, C.Apply(slot, st);
            && h < |slot.handlers| == |slot'.handlers|
            && slot'.created == slot.created && slot'.dead == slot.dead
            && (forall g :: 0 <= g < |slot.handlers| && g != h ==> slot'.handlers[g] == slot.handlers[g])
            && slot'.handlers[h].sends == slot.handlers[h].sends
            && !slot.handlers[h].phase.Sending? && slot'.handlers[h].phase != C.Relayed
  {
  }

  lemma ReturnKeeps(s: State, step: Step)
    requires Invariant(s) && Enabled(s, step) && (step.Relays? || step.Fails?)
    ensures HandlersOk(Apply(s, step)) && DeadInStep(Apply(s, step))
  {
    var h := step.handler;
    assert HandlerOk(s.slot.handlers[h], s.tries[h], s.mux.calls);
    OneHandler(s, Apply(s, step), h);
  }

  lemma ConnectsKeeps(s: State, h: C.HandlerId)
    requires Invariant(s) && Enabled(s, Connects(h))
    ensures HandlersOk(Apply(s, Connects(h))) && DeadInStep(Apply(s, Connects(h)))
  {
    var s' := Apply(s, Connects(h));
    assert HandlerOk(s.slot.handlers[h], s.tries[h], s.mux.calls);
    forall g | 0 <= g < |s'.tries|
      ensures HandlerOk(s'.slot.handlers[g], s'.tries[g], s'.mux.calls)
    {
      assert HandlerOk(s.slot.handlers[g], s.tries[g], s.mux.calls);
    }
  }

  lemma BeginsKeeps(s: State, h: C.HandlerId)
    requires Invariant(s) && Enabled(s, Begins(h))
    ensures HandlersOk(Apply(s, Begins(h))) && DeadInStep(Apply(s, Begins(h)))
  {
    var s' := Apply(s, Begins(h));
    forall g | 0 <= g < |s'.tries|
      ensures HandlerOk(s'.slot.handlers[g], s'.tries[g], s'.mux.calls)
      ensures TriesOk(s'.tries[g], s'.contents[g], s'.mux.calls)
    {
      assert HandlerOk(s.slot.handlers[g], s.tries[g], s.mux.calls);
      assert TriesOk(s.tries[g], s.contents[g], s.mux.calls);
    }
  }

  /** Every step keeps the invariant. */
  lemma StepKeeps(s: State, step: Step)
    requires Invariant(s) && Enabled(s, step)
    ensures Invariant(Apply(s, step))
  {
    StepKeepsParts(s, step);
    match step
    case Arrive(_) =>
    case Slot(st) => SlotKeeps(s, st);
    case Connects(h) => ConnectsKeeps(s, h);
    case Begins(h) => BeginsKeeps(s, h);
    case Mux(st) => MuxKeeps(s, st);
    case Relays(_) => ReturnKeeps(s, step);
    case Fails(_) => ReturnKeeps(s, step);
  }

  // ── Runs ──────────────────────────────────────────────────────────────────

  datatype Run = Run(states: seq<State>, steps: seq<Step>)

  ghost predicate Taken(run: Run, i: nat)
    requires i < |run.steps| < |run.states|
  {
    Enabled(run.states[i], run.steps[i]) && run.states[i + 1] == Apply(run.states[i], run.steps[i])
  }

  ghost predicate Valid(run: Run) {
    && |run.states| == |run.steps| + 1
    && run.states[0] == INITIAL
    && forall i :: 0 <= i < |run.steps| ==> Taken(run, i)
  }

  lemma {:induction false} ReachableOk(run: Run, i: nat)
    requires Valid(run) && i < |run.states|
    ensures Invariant(run.states[i])
  {
    if i > 0 {
      ReachableOk(run, i - 1);
      assert Taken(run, i - 1);
      StepKeeps(run.states[i - 1], run.steps[i - 1]);
    }
  }

  /** What a handler relays was computed by the server, on the connection the handler
      used, for the very request the handler was given. */
  lemma RelayedIsOwnAnswer(run: Run, i: nat, h: C.HandlerId)
    requires Valid(run) && i < |run.states| && h < |run.states[i].slot.handlers|
    requires run.states[i].slot.handlers[h].phase == C.Relayed
    ensures var s := run.states[i];
            && h < |s.tries| && s.tries[h] != [] && Last(s, h) < |s.mux.calls| && h < |s.contents|
            && var c := Last(s, h);
            && s.mux.calls[c].conn < |s.mux.conns| && s.mux.calls[c].id.Some?
            && s.mux.calls[c].content == s.contents[h]
            && exists e :: R.AnswerOf(s.mux, c, e)
  {
    ReachableOk(run, i);
    var s := run.states[i];
    assert HandlerOk(s.slot.handlers[h], s.tries[h], s.mux.calls) && TriesOk(s.tries[h], s.contents[h], s.mux.calls);
    R.OwnAnswer(s.mux, Last(s, h));
  }

  /** A computation: the `e`-th on connection `k`. */
  datatype Entry = Entry(k: M.ConnId, e: nat)

  predicate IsEntry(s: State, x: Entry) {
    x.k < |s.mux.conns| && x.e < |s.mux.conns[x.k].computed|
    && s.mux.conns[x.k].computed[x.e].request.id in s.mux.conns[x.k].issued
  }

  function RequestOf(s: State, x: Entry): M.MuxRequest
    requires IsEntry(s, x)
  {
    s.mux.conns[x.k].computed[x.e].request
  }

  function CallOf(s: State, x: Entry): M.CallId
    requires IsEntry(s, x)
  {
    s.mux.conns[x.k].issued[RequestOf(s, x).id]
  }

  /** The computation was for a call of handler `h`. */
  predicate ComputedFor(s: State, h: C.HandlerId, x: Entry) {
    h < |s.tries| && IsEntry(s, x) && CallOf(s, x) in s.tries[h]
  }

  /** A call is computed at most once, over all connections. */
  lemma OneEntryPerCall(s: State, x: Entry, y: Entry)
    requires Invariant(s) && IsEntry(s, x) && IsEntry(s, y) && CallOf(s, x) == CallOf(s, y)
    ensures x == y
  {
    EntryIsCalls(s, x);
    EntryIsCalls(s, y);
    R.NotComputedTwice(s.mux, x.k, x.e, y.e);
  }

  /** The call of a computation made that very request on that connection. */
  lemma EntryIsCalls(s: State, x: Entry)
    requires Invariant(s) && IsEntry(s, x)
    ensures var c := CallOf(s, x);
            && c < |s.mux.calls| && s.mux.calls[c].conn == x.k
            && s.mux.calls[c].id == Some(RequestOf(s, x).id) && s.mux.calls[c].content == RequestOf(s, x).content
  {
    var conn := s.mux.conns[x.k];
    assert M.ConnOk(x.k, conn, s.mux.calls);
    R.RequestsHas(conn.computed, x.e);
    assert RequestOf(s, x) in M.Trail(conn);
  }

  lemma AtMostTwoTries(s: State, h: C.HandlerId)
    requires Invariant(s) && h < |s.tries|
    ensures |s.tries[h]| <= C.ATTEMPTS
  {
    assert HandlerOk(s.slot.handlers[h], s.tries[h], s.mux.calls);
    assert C.HandlerOk(s.slot, s.slot.handlers[h]);
  }

  /** A proxied request is computed upstream at most twice, over all reconnects: of
      any three computations for one handler, two are the same. */
  lemma ComputedAtMostTwice(run: Run, i: nat, h: C.HandlerId, entries: seq<Entry>)
    requires Valid(run) && i < |run.states| && |entries| == 3
    requires forall x :: 0 <= x < 3 ==> ComputedFor(run.states[i], h, entries[x])
    ensures exists x, y :: 0 <= x < y < 3 && entries[x] == entries[y]
  {
    var s := run.states[i];
    ReachableOk(run, i);
    assert ComputedFor(s, h, entries[0]);
    AtMostTwoTries(s, h);
    var x, y := TwoShareACall(s, h, entries);
    OneEntryPerCall(s, entries[x], entries[y]);
  }

  lemma TwoShareACall(s: State, h: C.HandlerId, entries: seq<Entry>) returns (x: nat, y: nat)
    requires |entries| == 3 && forall x :: 0 <= x < 3 ==> ComputedFor(s, h, entries[x])
    requires h < |s.tries| && |s.tries[h]| <= 2
    ensures x < y < 3 && IsEntry(s, entries[x]) && IsEntry(s, entries[y])
    ensures CallOf(s, entries[x]) == CallOf(s, entries[y])
  {
    assert ComputedFor(s, h, entries[0]) && ComputedFor(s, h, entries[1]) && ComputedFor(s, h, entries[2]);
    x, y := Pigeonhole(s.tries[h], [CallOf(s, entries[0]), CallOf(s, entries[1]), CallOf(s, entries[2])]);
  }

  lemma Pigeonhole(holes: seq<M.CallId>, a: seq<M.CallId>) returns (x: nat, y: nat)
    requires |holes| <= 2 && |a| == 3 && forall i :: 0 <= i < 3 ==> a[i] in holes
    ensures x < y < 3 && a[x] == a[y]
  {
    var i0 :| 0 <= i0 < |holes| && holes[i0] == a[0];
    var i1 :| 0 <= i1 < |holes| && holes[i1] == a[1];
    var i2 :| 0 <= i2 < |holes| && holes[i2] == a[2];
    if i0 == i1 { return 0, 1; }
    if i0 == i2 { return 0, 2; }
    return 1, 2;
  }

  /** And each of them is for the request the handler was given. */
  lemma ComputedAsAsked(run: Run, i: nat, h: C.HandlerId, x: Entry)
    requires Valid(run) && i < |run.states| && ComputedFor(run.states[i], h, x)
    ensures h < |run.states[i].contents| && RequestOf(run.states[i], x).content == run.states[i].contents[h]
  {
    var s := run.states[i];
    ReachableOk(run, i);
    EntryIsCalls(s, x);
    assert TriesOk(s.tries[h], s.contents[h], s.mux.calls);
    var a :| 0 <= a < |s.tries[h]| && s.tries[h][a] == CallOf(s, x);
  }

  // ── Every request can be relayed ──────────────────────────────────────────

  ghost predicate Reachable(s: State) {
    exists run :: Valid(run) && run.states[|run.states| - 1] == s
  }

  lemma ReachableInitially()
    ensures Reachable(INITIAL)
  {
    var run := Run([INITIAL], []);
    assert Valid(run) && run.states[|run.states| - 1] == INITIAL;
  }

  lemma ReachableNext(s: State, step: Step)
    requires Reachable(s) && Enabled(s, step)
    ensures Reachable(Apply(s, step))
  {
    var run :| Valid(run) && run.states[|run.states| - 1] == s;
    var run' := Run(run.states + [Apply(s, step)], run.steps + [step]);
    forall i | 0 <= i < |run'.steps|
      ensures Taken(run', i)
    {
      if i < |run.steps| { assert Taken(run, i); }
    }
    assert Valid(run') && run'.states[|run'.states| - 1] == Apply(s, step);
  }

  function Waits(phase: C.Phase): C.Handler {
    C.Handler(phase, {}, [], 0)
  }

  /** One handler with a request, and no connection yet. */
  function Alone(content: M.Content, slot: C.State): State {
    State(slot, M.INITIAL, [content], [[]])
  }

  lemma Arrives(content: M.Content)
    ensures Reachable(Alone(content, C.State(None, 0, {}, {}, None, [Waits(C.Idle(0))])))
  {
    ReachableInitially();
    ReachableNext(INITIAL, Arrive(content));
    assert Apply(INITIAL, Arrive(content)) == Alone(content, C.State(None, 0, {}, {}, None, [Waits(C.Idle(0))]));
  }

  lemma SlotGoesOn(content: M.Content, slot: C.State, st: C.Step, slot': C.State)
    requires Reachable(Alone(content, slot)) && SlotOnly(st) && C.Enabled(slot, st) && slot' == C.Apply(slot, st)
    ensures Reachable(Alone(content, slot'))
  {
    ReachableNext(Alone(content, slot), Slot(st));
  }

  lemma WantsClient(content: M.Content)
    ensures Reachable(Alone(content, C.State(None, 0, {}, {}, None, [Waits(C.WantWrite(0))])))
  {
    Arrives(content);
    var c0 := C.State(None, 0, {}, {}, None, [Waits(C.Idle(0))]);
    var c1 := C.State(None, 0, {}, {0}, None, [Waits(C.Reading(0))]);
    var c2 := C.State(None, 0, {}, {}, None, [Waits(C.WantWrite(0))]);
    SlotGoesOn(content, c0, C.LockRead(0), c1);
    SlotGoesOn(content, c1, C.CheckRead(0), c2);
  }

  lemma GetsClient(content: M.Content)
    ensures Reachable(State(C.State(Some(0), 1, {}, {}, None, [Waits(C.Sending(0, 0))]),
                            M.State([M.NEW_CONN], []), [content], [[]]))
  {
    WantsClient(content);
    var c0 := C.State(None, 0, {}, {}, None, [Waits(C.WantWrite(0))]);
    var c1 := C.State(None, 0, {}, {}, Some(0), [Waits(C.Writing(0))]);
    var c2 := C.State(None, 0, {}, {}, Some(0), [Waits(C.Connecting(0))]);
    SlotGoesOn(content, c0, C.LockWrite(0), c1);
    SlotGoesOn(content, c1, C.CheckWrite(0), c2);
    ReachableNext(Alone(content, c2), Connects(0));
  }

  /** The handler has called `send`; the multiplexer is in state `mux`. */
  function Sends(content: M.Content, mux: M.State): State {
    State(C.State(Some(0), 1, {}, {}, None, [Waits(C.Sending(0, 0))]), mux, [content], [[0]])
  }

  lemma CallsSend(content: M.Content)
    ensures Reachable(Sends(content, A.Asked(content)))
  {
    GetsClient(content);
    var s := State(C.State(Some(0), 1, {}, {}, None, [Waits(C.Sending(0, 0))]),
                   M.State([M.NEW_CONN], []), [content], [[]]);
    ReachableNext(s, Begins(0));
    var s' := Apply(s, Begins(0));
    assert s'.tries == [[0]] by { assert s'.tries[0] == [0]; }
    assert s'.mux.calls == A.Asked(content).calls;
    assert s' == Sends(content, A.Asked(content));
  }

  lemma {:induction false} MuxGoesOn(content: M.Content, states: seq<M.State>, steps: seq<M.Step>, i: nat)
    requires A.Quiet(states, steps) && i <= |steps| && Reachable(Sends(content, states[0]))
    ensures Reachable(Sends(content, states[i]))
  {
    if i > 0 {
      MuxGoesOn(content, states, steps, i - 1);
      assert A.QuietAt(states, steps, i - 1);
      ReachableNext(Sends(content, states[i - 1]), Mux(steps[i - 1]));
    }
  }

  /** For every request and every upstream answer, some run relays that answer. */
  lemma RelayIsReachable(content: M.Content, status: nat, body: seq<byte>)
    ensures exists s ::
              && Reachable(s) && |s.slot.handlers| == 1 && s.contents == [content] && s.tries == [[0]]
              && s.slot.handlers[0].phase == C.Relayed && A.IsAnswered(s.mux, content, status, body)
  {
    CallsSend(content);
    var states, steps := A.CanBeAnswered(content, status, body);
    MuxGoesOn(content, states, steps, |steps|);
    var s := Sends(content, states[|steps|]);
    ReachableNext(s, Relays(0));
    assert Apply(s, Relays(0)).slot.handlers[0].phase == C.Relayed;
  }
}
