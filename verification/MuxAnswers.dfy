/** What a call gets: a response that arrives reaches the call that waits for it, the
    call returns it, and every request can be answered. */
module MuxAnswers {
  import opened Bytes
  import opened MuxProtocol
  import opened MuxRuns
  import MuxClient

  /** The next response fills the one-shot of the unanswered call with its id, and
      changes no other call. */
  lemma DeliveredToItsCaller(run: Run, i: nat, k: ConnId, c: CallId)
    requires Valid(run) && i < |run.steps| && run.steps[i] == ReaderDelivers(k)
    requires c < |run.states[i].calls| && k < |run.states[i].conns| && run.states[i].conns[k].down != []
    ensures c < |run.states[i + 1].calls|
    ensures var call, response := run.states[i].calls[c], run.states[i].conns[k].down[0];
            run.states[i + 1].calls[c]
            == if call.conn == k && call.registered && call.cell == Empty && call.id == Some(response.id)
               then call.(cell := Filled(response)) else call
  {
    ReachableOk(run, i);
    assert Taken(run, i);
    DeliveryFills(run.states[i], k, c);
  }

  lemma DeliveryFills(s: State, k: ConnId, c: CallId)
    requires Invariant(s) && Enabled(s, ReaderDelivers(k)) && c < |s.calls|
    ensures c < |Apply(s, ReaderDelivers(k)).calls|
    ensures var response := s.conns[k].down[0];
            Apply(s, ReaderDelivers(k)).calls[c]
            == if MuxClient.Unanswered(s.calls[c], k) && s.calls[c].id == Some(response.id)
               then s.calls[c].(cell := Filled(response)) else s.calls[c]
  {
    var response := s.conns[k].down[0];
    MuxClient.PendingIsWaiting(s, k, response.id);
    DeliveryTakes(s, k);
  }

  /** The step, seen through the table. */
  lemma DeliveryTakes(s: State, k: ConnId)
    requires Enabled(s, ReaderDelivers(k))
    ensures var pending, response := s.conns[k].client.pending, s.conns[k].down[0];
            Apply(s, ReaderDelivers(k)).calls
            == if response.id in pending && pending[response.id] < |s.calls|
               then s.calls[pending[response.id] := s.calls[pending[response.id]].(cell := Filled(response))]
               else s.calls
  {
  }

  /** A waiting call can return as soon as its one-shot has resolved, with the response
      that filled it, or with an error if the sender was dropped. */
  lemma ReturnsWhatItGot(s: State, c: CallId)
    requires CallAt(s, c, Waiting)
    ensures Enabled(s, Receive(c)) <==> s.calls[c].cell != Empty
    ensures s.calls[c].cell != Empty ==>
              var phase := Apply(s, Receive(c)).calls[c].phase;
              && (forall p :: phase == Answered(p) <==> s.calls[c].cell == Filled(p))
              && (phase == Failed <==> s.calls[c].cell == Dropped)
  {
  }

  // ── Every request can be answered ─────────────────────────────────────────

  /** A run of the multiplexer on one connection with one caller, in which neither
      task stops. */
  ghost predicate Quiet(states: seq<State>, steps: seq<Step>) {
    |states| == |steps| + 1 && forall i :: 0 <= i < |steps| ==> QuietAt(states, steps, i)
  }

  ghost predicate QuietAt(states: seq<State>, steps: seq<Step>, i: nat)
    requires i < |steps| < |states|
  {
    Goes(states[i], steps[i], states[i + 1])
  }

  ghost predicate Goes(s: State, step: Step, s': State) {
    && !step.Connect? && !step.Start? && !step.WriterMarks? && !step.ReaderMarks?
    && Enabled(s, step) && s' == Apply(s, step)
  }

  /** The one connection and the one call, as far as they get. */
  function Stage(client: Client, up: seq<MuxRequest>, tasks: multiset<MuxRequest>, ready: multiset<MuxResponse>,
                 down: seq<MuxResponse>, computed: seq<Computed>, issued: map<nat, CallId>, call: Call): State
  {
    State([Conn(client, Running, Running, up, tasks, ready, down, computed, issued)], [call])
  }

  function Asked(content: Content): State {
    State([NEW_CONN], [Call(0, content, Fresh, None, Empty, false, false)])
  }

  function Registers(content: Content): State {
    Stage(Client(2, map[1 := 0], [], true, false), [], multiset{}, multiset{}, [], [], map[1 := 0],
          Call(0, content, Registered, Some(1), Empty, true, false))
  }

  function OnTheWire(content: Content): State {
    Stage(Client(2, map[1 := 0], [], true, false), [MuxRequest(1, content)], multiset{}, multiset{}, [], [],
          map[1 := 0], Call(0, content, Waiting, Some(1), Empty, true, true))
  }

  function OnTheWayBack(content: Content, status: nat, body: seq<byte>): State {
    var request, response := MuxRequest(1, content), MuxResponse(1, status, body);
    Stage(Client(2, map[1 := 0], [], true, false), [], multiset{}, multiset{}, [response],
          [Computed(request, response)], map[1 := 0], Call(0, content, Waiting, Some(1), Empty, true, true))
  }

  lemma GetsRegistered(content: Content) returns (states: seq<State>, steps: seq<Step>)
    ensures Quiet(states, steps) && states[0] == Asked(content) && states[|steps|] == Registers(content)
  {
    var s0 := Asked(content);
    var s1 := Apply(s0, CheckDead(0));
    var s2 := Apply(s1, TakeId(0));
    assert s2.conns[0].client.pending == map[] && s2.calls[0].id == Some(1);
    var s3 := Apply(s2, Register(0));
    assert s3 == Registers(content);
    states, steps := [s0, s1, s2, s3], [CheckDead(0), TakeId(0), Register(0)];
    assert QuietAt(states, steps, 0) && QuietAt(states, steps, 1) && QuietAt(states, steps, 2);
  }

  lemma GetsSent(content: Content) returns (states: seq<State>, steps: seq<Step>)
    ensures Quiet(states, steps) && states[0] == Registers(content) && states[|steps|] == OnTheWire(content)
  {
    var s0 := Registers(content);
    var s1 := Apply(s0, Enqueue(0));
    assert s1.conns[0].client.queue == [MuxRequest(1, content)] && s1.conns[0].client.queue[1..] == [];
    var s2 := Apply(s1, WriterSends(0));
    assert s2.conns[0].up == [MuxRequest(1, content)];
    assert s2.conns[0] == OnTheWire(content).conns[0];
    states, steps := [s0, s1, s2], [Enqueue(0), WriterSends(0)];
    assert QuietAt(states, steps, 0) && QuietAt(states, steps, 1);
  }

  function InTheServer(content: Content): State {
    Stage(Client(2, map[1 := 0], [], true, false), [], multiset{MuxRequest(1, content)}, multiset{}, [], [],
          map[1 := 0], Call(0, content, Waiting, Some(1), Empty, true, true))
  }

  lemma GetsRead(content: Content) returns (states: seq<State>, steps: seq<Step>)
    ensures Quiet(states, steps) && states[0] == OnTheWire(content) && states[|steps|] == InTheServer(content)
  {
    var s0 := OnTheWire(content);
    var s1 := Apply(s0, ServerReads(0));
    assert s1.conns[0].up == [] && s1.conns[0].tasks == multiset{MuxRequest(1, content)};
    assert s1.conns[0] == InTheServer(content).conns[0];
    states, steps := [s0, s1], [ServerReads(0)];
    assert QuietAt(states, steps, 0);
  }

  lemma GetsComputed(content: Content, status: nat, body: seq<byte>) returns (states: seq<State>, steps: seq<Step>)
    ensures Quiet(states, steps)
    ensures states[0] == InTheServer(content) && states[|steps|] == OnTheWayBack(content, status, body)
  {
    var request, response := MuxRequest(1, content), MuxResponse(1, status, body);
    var s0, compute := InTheServer(content), ServerComputes(0, request, status, body);
    var s1 := Apply(s0, compute);
    assert s1.conns[0].ready == multiset{response} && s1.conns[0].tasks == multiset{};
    assert s1.conns[0].computed == [Computed(request, response)];
    var s2 := Apply(s1, ServerResponds(0, response));
    assert s2.conns[0].ready == multiset{} && s2.conns[0].down == [response];
    assert s2.conns[0] == OnTheWayBack(content, status, body).conns[0];
    states, steps := [s0, s1, s2], [compute, ServerResponds(0, response)];
    assert QuietAt(states, steps, 0) && QuietAt(states, steps, 1);
  }

  lemma GetsReturned(content: Content, status: nat, body: seq<byte>) returns (states: seq<State>, steps: seq<Step>)
    ensures Quiet(states, steps) && states[0] == OnTheWayBack(content, status, body)
    ensures IsAnswered(states[|steps|], content, status, body)
  {
    var s0 := OnTheWayBack(content, status, body);
    var s1 := Apply(s0, ReaderDelivers(0));
    assert s1.calls[0].cell == Filled(MuxResponse(1, status, body));
    var s2 := Apply(s1, Receive(0));
    states, steps := [s0, s1, s2], [ReaderDelivers(0), Receive(0)];
    assert QuietAt(states, steps, 0) && QuietAt(states, steps, 1);
  }

  ghost predicate IsAnswered(s: State, content: Content, status: nat, body: seq<byte>) {
    && |s.conns| == 1 && |s.calls| == 1 && s.calls[0].conn == 0 && s.calls[0].content == content
    && s.calls[0].phase == Answered(MuxResponse(1, status, body))
  }

  lemma Joined(a: seq<State>, p: seq<Step>, b: seq<State>, q: seq<Step>) returns (states: seq<State>, steps: seq<Step>)
    requires Quiet(a, p) && Quiet(b, q) && a[|p|] == b[0]
    ensures Quiet(states, steps) && states[0] == a[0] && states[|steps|] == b[|q|]
  {
    states, steps := a + b[1..], p + q;
    forall i | 0 <= i < |steps|
      ensures QuietAt(states, steps, i)
    {
      if i < |p| {
        assert QuietAt(a, p, i);
      } else {
        assert QuietAt(b, q, i - |p|);
        assert states[i] == b[i - |p|] && states[i + 1] == b[i + 1 - |p|];
      }
    }
  }

  /** From the moment the caller calls `send`, the answer can come back. */
  lemma CanBeAnswered(content: Content, status: nat, body: seq<byte>) returns (states: seq<State>, steps: seq<Step>)
    ensures Quiet(states, steps) && states[0] == Asked(content)
    ensures IsAnswered(states[|steps|], content, status, body)
  {
    var a, p := GetsRegistered(content);
    var b, q := GetsSent(content);
    a, p := Joined(a, p, b, q);
    b, q := GetsRead(content);
    a, p := Joined(a, p, b, q);
    b, q := GetsComputed(content, status, body);
    a, p := Joined(a, p, b, q);
    b, q := GetsReturned(content, status, body);
    states, steps := Joined(a, p, b, q);
  }

  lemma {:induction false} QuietReaches(states: seq<State>, steps: seq<Step>, i: nat)
    requires Quiet(states, steps) && Reachable(states[0]) && i <= |steps|
    ensures Reachable(states[i])
  {
    if i > 0 {
      QuietReaches(states, steps, i - 1);
      assert QuietAt(states, steps, i - 1);
      ReachableNext(states[i - 1], steps[i - 1]);
    }
  }

  /** For every request and every upstream answer, some run returns that answer to the
      caller. */
  lemma AnswerIsReachable(content: Content, status: nat, body: seq<byte>)
    ensures exists s :: Reachable(s) && IsAnswered(s, content, status, body)
  {
    ReachableInitially();
    ReachableNext(INITIAL, Connect);
    var s1 := State([NEW_CONN], []);
    assert Apply(INITIAL, Connect) == s1;
    ReachableNext(s1, Start(0, content));
    assert Apply(s1, Start(0, content)) == Asked(content);
    var states, steps := CanBeAnswered(content, status, body);
    QuietReaches(states, steps, |steps|);
  }
}
