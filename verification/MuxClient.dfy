/** `InferenceMuxClient` as an object, each of whose operations performs the
    matching step of the protocol. The client of connection `k` in state `s` is
    played by the object; `s` is there for the proof only. */
module MuxClient {
  import opened Bytes
  import opened MuxProtocol

  class InferenceMuxClient {
    var nextId: nat
    var pending: map<nat, CallId>
    var queue: seq<MuxRequest>
    var channelOpen: bool
    var dead: bool

    function View(): Client
      reads this
    {
      Client(nextId, pending, queue, channelOpen, dead)
    }

    ghost predicate Plays(s: State, k: ConnId)
      reads this
    {
      k < |s.conns| && View() == s.conns[k].client
    }

    constructor (ghost s: State)
      ensures Plays(Apply(s, Connect), |s.conns|)
    {
      nextId, pending, queue, channelOpen, dead := 1, map[], [], true, false;
    }

    /** The check at the start of `send`: a caller that finds the client dead fails. */
    method IsDead(ghost s: State, ghost c: CallId) returns (d: bool)
      requires Enabled(s, CheckDead(c)) && Plays(s, s.calls[c].conn)
      ensures d <==> Apply(s, CheckDead(c)).calls[c].phase == Failed
      ensures Plays(Apply(s, CheckDead(c)), s.calls[c].conn)
    {
      d := dead;
    }

    /** The id is one no call of the connection has ever had. */
    method TakeId(ghost s: State, ghost c: CallId) returns (id: nat)
      requires Enabled(s, MuxProtocol.TakeId(c)) && Plays(s, s.calls[c].conn)
      modifies this
      ensures Plays(Apply(s, MuxProtocol.TakeId(c)), s.calls[c].conn)
      ensures Apply(s, MuxProtocol.TakeId(c)).calls[c].id == Some(id)
      ensures Invariant(s) ==>
                forall d :: 0 <= d < |s.calls| && s.calls[d].conn == s.calls[c].conn ==> s.calls[d].id != Some(id)
    {
      id := nextId;
      nextId := nextId + 1;
      if Invariant(s) {
        assert ConnOk(s.calls[c].conn, s.conns[s.calls[c].conn], s.calls);
      }
    }

    /** Exactly the callers whose senders are displaced are woken, and there are
        none. */
    method InsertPending(id: nat, call: CallId, ghost s: State) returns (dropped: set<CallId>)
      requires Enabled(s, Register(call)) && Plays(s, s.calls[call].conn) && s.calls[call].id == Some(id)
      modifies this
      ensures Plays(Apply(s, Register(call)), s.calls[call].conn)
      ensures forall d :: 0 <= d < |s.calls| && d != call ==>
                Apply(s, Register(call)).calls[d] == if d in dropped then s.calls[d].(cell := Dropped) else s.calls[d]
      ensures Invariant(s) ==> dropped == {}
    {
      dropped := if id in pending then {pending[id]} else {};
      pending := pending[id := call];
      if Invariant(s) {
        var k := s.calls[call].conn;
        assert ConnOk(k, s.conns[k], s.calls);
        RegisterTable(k, s.conns[k], s.calls, call);
      }
    }

    /** A request that is taken was nowhere on its way before, and is there once. */
    method Send(request: MuxRequest, ghost s: State, ghost c: CallId) returns (sent: bool)
      requires Enabled(s, Enqueue(c)) && Plays(s, s.calls[c].conn)
      requires request == MuxRequest(s.calls[c].id.value, s.calls[c].content)
      modifies this
      ensures Plays(Apply(s, Enqueue(c)), s.calls[c].conn)
      ensures sent <==> Apply(s, Enqueue(c)).calls[c].phase == Waiting
      ensures !sent <==> Apply(s, Enqueue(c)).calls[c].phase == Failed
      ensures Invariant(s) && sent ==>
                && request !in Trail(s.conns[s.calls[c].conn])
                && Trail(Apply(s, Enqueue(c)).conns[s.calls[c].conn])[request] == 1
    {
      sent := channelOpen;
      if sent {
        queue := queue + [request];
      }
      if Invariant(s) && sent {
        SentOnce(s, c, request);
      }
    }

    /** The writer's `recv`: the oldest queued request goes on the wire. */
    method Recv(ghost s: State, ghost k: ConnId) returns (request: MuxRequest)
      requires Enabled(s, WriterSends(k)) && Plays(s, k)
      modifies this
      ensures Plays(Apply(s, WriterSends(k)), k)
      ensures Apply(s, WriterSends(k)).conns[k].up == s.conns[k].up + [request]
    {
      request := queue[0];
      queue := queue[1..];
    }

    /** The reader's lookup. A sender that is found belongs to the unanswered call
        of this connection that sent the request, and only that call is answered;
        otherwise nobody is. */
    method Route(response: MuxResponse, ghost s: State, ghost k: ConnId) returns (call: Option<CallId>)
      requires Enabled(s, ReaderDelivers(k)) && Plays(s, k) && response == s.conns[k].down[0]
      modifies this
      ensures Plays(Apply(s, ReaderDelivers(k)), k)
      ensures Invariant(s) ==>
                match call
                case None => Apply(s, ReaderDelivers(k)).calls == s.calls
                case Some(c) =>
                  && c < |s.calls| && s.calls[c].conn == k && s.calls[c].id == Some(response.id)
                  && s.calls[c].cell == Empty
                  && Apply(s, ReaderDelivers(k)).calls == s.calls[c := s.calls[c].(cell := Filled(response))]
      ensures Invariant(s) ==>
                forall c: CallId :: call == Some(c)
                  <==> c < |s.calls| && Unanswered(s.calls[c], k) && s.calls[c].id == Some(response.id)
    {
      call := if response.id in pending then Some(pending[response.id]) else None;
      pending := pending - {response.id};
      if Invariant(s) {
        PendingIsWaiting(s, k, response.id);
      }
    }

    method MarkDead(ghost s: State, ghost step: Step)
      requires (step.WriterMarks? || step.ReaderMarks?) && Enabled(s, step) && Plays(s, step.conn)
      modifies this
      ensures Plays(Apply(s, step), step.conn)
    {
      dead := true;
    }

    /** Exactly the registered callers of the connection that have nothing to return
        yet are woken. */
    method Drain(ghost s: State, ghost step: Step) returns (woken: set<CallId>)
      requires (step.WriterDrains? || step.ReaderDrains?) && Enabled(s, step) && Plays(s, step.conn)
      modifies this
      ensures Plays(Apply(s, step), step.conn)
      ensures Apply(s, step).calls == WakeAll(s.calls, woken)
      ensures Invariant(s) ==> forall c: CallId :: c in woken <==> c < |s.calls| && Unanswered(s.calls[c], step.conn)
    {
      woken := pending.Values;
      pending := map[];
      if Invariant(s) {
        PendingAreUnanswered(s, step.conn);
      }
    }

    /** The end of the writer task: the channel closes and loses what it holds. */
    method Close(ghost s: State, ghost k: ConnId)
      requires Enabled(s, WriterExits(k)) && Plays(s, k)
      modifies this
      ensures Plays(Apply(s, WriterExits(k)), k)
    {
      channelOpen, queue := false, [];
    }
  }

  predicate Unanswered(call: Call, k: ConnId) {
    call.conn == k && call.registered && call.cell == Empty
  }

  /** The table holds a sender under an id exactly for the unanswered call with it. */
  lemma PendingIsWaiting(s: State, k: ConnId, id: nat)
    requires Invariant(s) && k < |s.conns|
    ensures forall c: CallId :: id in s.conns[k].client.pending && s.conns[k].client.pending[id] == c
              <==> c < |s.calls| && Unanswered(s.calls[c], k) && s.calls[c].id == Some(id)
  {
    var conn := s.conns[k];
    assert ConnOk(k, conn, s.calls);
    forall c: CallId | c < |s.calls| && Unanswered(s.calls[c], k) && s.calls[c].id == Some(id)
      ensures id in conn.client.pending && conn.client.pending[id] == c
    {
      assert PhaseOk(s.calls[c]);
    }
  }

  lemma PendingAreUnanswered(s: State, k: ConnId)
    requires Invariant(s) && k < |s.conns|
    ensures forall c: CallId :: c in s.conns[k].client.pending.Values <==> c < |s.calls| && Unanswered(s.calls[c], k)
  {
    var conn := s.conns[k];
    var pending := conn.client.pending;
    assert ConnOk(k, conn, s.calls);
    forall c: CallId
      ensures c in pending.Values <==> c < |s.calls| && Unanswered(s.calls[c], k)
    {
      if c in pending.Values {
        var i :| i in pending && pending[i] == c;
      }
      if c < |s.calls| && Unanswered(s.calls[c], k) {
        assert PhaseOk(s.calls[c]);
        var id := s.calls[c].id.value;
        assert id in pending && pending[id] == c;
      }
    }
  }

  lemma SentOnce(s: State, c: CallId, request: MuxRequest)
    requires Invariant(s) && Enabled(s, Enqueue(c)) && s.conns[s.calls[c].conn].client.channelOpen
    requires request == MuxRequest(s.calls[c].id.value, s.calls[c].content)
    ensures request !in Trail(s.conns[s.calls[c].conn])
    ensures Trail(Apply(s, Enqueue(c)).conns[s.calls[c].conn])[request] == 1
  {
    var k := s.calls[c].conn;
    assert ConnOk(k, s.conns[k], s.calls);
    assert PhaseOk(s.calls[c]);
    assert s.conns[k].issued[request.id] == c;
  }
}
