/** The inference multiplexer as a step system.

    Any number of callers share one connection; a writer task and a reader task
    serve it and may stop at any time; the server answers the requests it reads
    in any order; connections are opened over and over. Each step below is one
    atomic section of `InferenceMuxClient` or of the server. Wires are FIFO
    queues of messages (see Frames.CutStreamDeliversPrefix). */
module MuxProtocol {
  import opened Bytes

  datatype Content = Content(verb: string, path: string, body: seq<byte>)
  datatype MuxRequest = MuxRequest(id: nat, content: Content)
  datatype MuxResponse = MuxResponse(id: nat, status: nat, body: seq<byte>)

  /** One upstream answer: the request a server task held and what it computed. */
  datatype Computed = Computed(request: MuxRequest, response: MuxResponse)

  type CallId = nat
  type ConnId = nat

  const CHANNEL_CAPACITY: nat := 256

  // ── The client object ─────────────────────────────────────────────────────

  /** The shared fields of `InferenceMuxClient`. A pending sender is named by the
      call that waits on its receiver. */
  datatype Client = Client(
    nextId: nat,
    pending: map<nat, CallId>,
    queue: seq<MuxRequest>,
    channelOpen: bool,
    dead: bool)

  function Insert(client: Client, id: nat, call: CallId): Client {
    client.(pending := client.pending[id := call])
  }

  /** The callers whose senders an insertion under `id` would drop. */
  function Displaced(client: Client, id: nat): set<CallId> {
    if id in client.pending then {client.pending[id]} else {}
  }

  // ── System state ──────────────────────────────────────────────────────────

  /** The one-shot a caller waits on. */
  datatype Cell = Empty | Filled(response: MuxResponse) | Dropped

  datatype Phase = Fresh | Checked | HasId | Registered | Waiting | Answered(response: MuxResponse) | Failed

  /** One `send` in progress or finished. `registered` and `enqueued` record that
      it got that far. */
  datatype Call = Call(
    conn: ConnId,
    content: Content,
    phase: Phase,
    id: Option<nat>,
    cell: Cell,
    registered: bool,
    enqueued: bool)

  datatype Task = Running | Stopped | Marked | Drained | Exited

  datatype Conn = Conn(
    client: Client,
    writer: Task,
    reader: Task,
    up: seq<MuxRequest>,
    tasks: multiset<MuxRequest>,
    ready: multiset<MuxResponse>,
    down: seq<MuxResponse>,
    computed: seq<Computed>,
    issued: map<nat, CallId>)

  datatype State = State(conns: seq<Conn>, calls: seq<Call>)

  const NEW_CONN := Conn(Client(1, map[], [], true, false), Running, Running, [], multiset{}, multiset{}, [], [], map[])
  const INITIAL := State([], [])

  datatype Step =
    | Connect
    | Start(conn: ConnId, content: Content)
    | CheckDead(call: CallId)
    | TakeId(call: CallId)
    | Register(call: CallId)
    | Enqueue(call: CallId)
    | GiveUp(call: CallId)
    | Receive(call: CallId)
    | WriterSends(conn: ConnId)
    | WriterStops(conn: ConnId)
    | WriterMarks(conn: ConnId)
    | WriterDrains(conn: ConnId)
    | WriterExits(conn: ConnId)
    | ReaderDelivers(conn: ConnId)
    | ReaderStops(conn: ConnId)
    | ReaderMarks(conn: ConnId)
    | ReaderDrains(conn: ConnId)
    | ServerReads(conn: ConnId)
    | ServerComputes(conn: ConnId, request: MuxRequest, status: nat, body: seq<byte>)
    | ServerResponds(conn: ConnId, response: MuxResponse)

  predicate CallAt(s: State, call: CallId, phase: Phase) {
    && call < |s.calls|
    && s.calls[call].phase == phase
    && s.calls[call].conn < |s.conns|
    && (phase == HasId || phase == Registered ==> s.calls[call].id.Some?)
  }

  predicate Enabled(s: State, step: Step) {
    match step
    case Connect => true
    case Start(k, _) => k < |s.conns|
    case CheckDead(c) => CallAt(s, c, Fresh)
    case TakeId(c) => CallAt(s, c, Checked)
    case Register(c) => CallAt(s, c, HasId)
    case Enqueue(c) =>
      CallAt(s, c, Registered)
      && (var client := s.conns[s.calls[c].conn].client;
          client.channelOpen ==> |client.queue| < CHANNEL_CAPACITY)
    // An encoding error, or the 120 s timeout.
    case GiveUp(c) => CallAt(s, c, Registered) || CallAt(s, c, Waiting)
    case Receive(c) => CallAt(s, c, Waiting) && s.calls[c].cell != Empty
    case WriterSends(k) => k < |s.conns| && s.conns[k].writer == Running && s.conns[k].client.queue != []
    case WriterStops(k) => k < |s.conns| && s.conns[k].writer == Running
    case WriterMarks(k) => k < |s.conns| && s.conns[k].writer == Stopped
    case WriterDrains(k) => k < |s.conns| && s.conns[k].writer == Marked
    case WriterExits(k) => k < |s.conns| && s.conns[k].writer == Drained
    case ReaderDelivers(k) => k < |s.conns| && s.conns[k].reader == Running && s.conns[k].down != []
    case ReaderStops(k) => k < |s.conns| && s.conns[k].reader == Running
    case ReaderMarks(k) => k < |s.conns| && s.conns[k].reader == Stopped
    case ReaderDrains(k) => k < |s.conns| && s.conns[k].reader == Marked
    case ServerReads(k) => k < |s.conns| && s.conns[k].up != []
    case ServerComputes(k, request, _, _) => k < |s.conns| && request in s.conns[k].tasks
    case ServerResponds(k, response) => k < |s.conns| && response in s.conns[k].ready
  }

  function WithCall(s: State, c: CallId, call: Call): State
    requires c < |s.calls|
  {
    s.(calls := s.calls[c := call])
  }

  function WithConn(s: State, k: ConnId, conn: Conn): State
    requires k < |s.conns|
  {
    s.(conns := s.conns[k := conn])
  }

  /** Dropping senders: each waiting receiver resolves with an error. */
  function WakeAll(calls: seq<Call>, woken: set<CallId>): (calls': seq<Call>)
    ensures |calls'| == |calls|
    ensures forall c :: 0 <= c < |calls| ==>
              calls'[c] == if c in woken then calls[c].(cell := Dropped) else calls[c]
  {
    seq(|calls|, c requires 0 <= c < |calls| => if c in woken then calls[c].(cell := Dropped) else calls[c])
  }

  function DrainPending(s: State, k: ConnId): State
    requires k < |s.conns|
  {
    var conn := s.conns[k];
    State(s.conns[k := conn.(client := conn.client.(pending := map[]))],
          WakeAll(s.calls, conn.client.pending.Values))
  }

  /** The reader takes the next response and its sender, if it has one. */
  function Delivered(conn: Conn): Conn
    requires conn.down != []
  {
    conn.(down := conn.down[1..], client := conn.client.(pending := conn.client.pending - {conn.down[0].id}))
  }

  function Apply(s: State, step: Step): State
    requires Enabled(s, step)
  {
    match step
    case Connect => s.(conns := s.conns + [NEW_CONN])
    case Start(k, content) =>
      s.(calls := s.calls + [Call(k, content, Fresh, None, Empty, false, false)])
    case CheckDead(c) =>
      var call := s.calls[c];
      WithCall(s, c, call.(phase := if s.conns[call.conn].client.dead then Failed else Checked))
    case TakeId(c) =>
      var call := s.calls[c];
      var conn := s.conns[call.conn];
      var id := conn.client.nextId;
      WithConn(WithCall(s, c, call.(phase := HasId, id := Some(id))), call.conn,
               conn.(client := conn.client.(nextId := id + 1), issued := conn.issued[id := c]))
    case Register(c) =>
      var call := s.calls[c];
      var conn := s.conns[call.conn];
      var woken := WakeAll(s.calls, Displaced(conn.client, call.id.value));
      State(s.conns[call.conn := conn.(client := Insert(conn.client, call.id.value, c))],
            woken[c := call.(phase := Registered, registered := true)])
    case Enqueue(c) =>
      var call := s.calls[c];
      var conn := s.conns[call.conn];
      if !conn.client.channelOpen then WithCall(s, c, call.(phase := Failed))
      else
        var request := MuxRequest(call.id.value, call.content);
        WithConn(WithCall(s, c, call.(phase := Waiting, enqueued := true)), call.conn,
                 conn.(client := conn.client.(queue := conn.client.queue + [request])))
    case GiveUp(c) => WithCall(s, c, s.calls[c].(phase := Failed))
    case Receive(c) =>
      var call := s.calls[c];
      WithCall(s, c, call.(phase := if call.cell.Filled? then Answered(call.cell.response) else Failed))
    case WriterSends(k) =>
      var conn := s.conns[k];
      WithConn(s, k, conn.(client := conn.client.(queue := conn.client.queue[1..]),
                           up := conn.up + [conn.client.queue[0]]))
    case WriterStops(k) => WithConn(s, k, s.conns[k].(writer := Stopped))
    case WriterMarks(k) =>
      WithConn(s, k, s.conns[k].(writer := Marked, client := s.conns[k].client.(dead := true)))
    case WriterDrains(k) => DrainPending(WithConn(s, k, s.conns[k].(writer := Drained)), k)
    // The channel's receiving half lives in the writer task.
    case WriterExits(k) =>
      WithConn(s, k, s.conns[k].(writer := Exited, client := s.conns[k].client.(channelOpen := false, queue := [])))
    case ReaderDelivers(k) =>
      var conn := s.conns[k];
      var response := conn.down[0];
      var s' := WithConn(s, k, Delivered(conn));
      if response.id in conn.client.pending && conn.client.pending[response.id] < |s.calls| then
        var c := conn.client.pending[response.id];
        WithCall(s', c, s.calls[c].(cell := Filled(response)))
      else s'
    case ReaderStops(k) => WithConn(s, k, s.conns[k].(reader := Stopped))
    case ReaderMarks(k) =>
      WithConn(s, k, s.conns[k].(reader := Marked, client := s.conns[k].client.(dead := true)))
    case ReaderDrains(k) => DrainPending(WithConn(s, k, s.conns[k].(reader := Drained)), k)
    case ServerReads(k) =>
      var conn := s.conns[k];
      WithConn(s, k, conn.(up := conn.up[1..], tasks := conn.tasks + multiset{conn.up[0]}))
    // The upstream's status and body are arbitrary; the id is copied.
    case ServerComputes(k, request, status, body) =>
      var conn := s.conns[k];
      var response := MuxResponse(request.id, status, body);
      WithConn(s, k, conn.(tasks := conn.tasks - multiset{request},
                           ready := conn.ready + multiset{response},
                           computed := conn.computed + [Computed(request, response)]))
    case ServerResponds(k, response) =>
      var conn := s.conns[k];
      WithConn(s, k, conn.(ready := conn.ready - multiset{response}, down := conn.down + [response]))
  }

  // ── Invariant ─────────────────────────────────────────────────────────────

  function Requests(computed: seq<Computed>): multiset<MuxRequest> {
    if computed == [] then multiset{}
    else Requests(computed[..|computed| - 1]) + multiset{computed[|computed| - 1].request}
  }

  /** Every copy of a request anywhere between a caller and an upstream answer. */
  function Trail(conn: Conn): multiset<MuxRequest> {
    multiset(conn.client.queue) + multiset(conn.up) + conn.tasks + Requests(conn.computed)
  }

  ghost predicate WasComputed(computed: seq<Computed>, response: MuxResponse) {
    exists e :: 0 <= e < |computed| && computed[e].response == response
  }

  ghost predicate PhaseOk(call: Call) {
    match call.phase
    case Fresh => call.id.None? && !call.registered && !call.enqueued && call.cell == Empty
    case Checked => call.id.None? && !call.registered && !call.enqueued && call.cell == Empty
    case HasId => call.id.Some? && !call.registered && !call.enqueued && call.cell == Empty
    case Registered => call.id.Some? && call.registered && !call.enqueued
    case Waiting => call.id.Some? && call.registered && call.enqueued
    case Answered(_) => call.id.Some? && call.registered && call.enqueued
    case Failed =>
      && (call.registered ==> call.id.Some?) && (call.enqueued ==> call.registered)
      && (!call.registered ==> call.cell == Empty)
  }

  /** Ids name calls one to one, and an unanswered registered call is exactly one
      whose sender is still in the table. */
  ghost predicate TableOk(k: ConnId, conn: Conn, calls: seq<Call>) {
    && (forall i :: i in conn.issued ==>
          i < conn.client.nextId && conn.issued[i] < |calls|
          && calls[conn.issued[i]].conn == k && calls[conn.issued[i]].id == Some(i))
    && (forall i :: i in conn.client.pending ==>
          i in conn.issued && conn.client.pending[i] == conn.issued[i] && calls[conn.issued[i]].registered)
    && (forall c :: 0 <= c < |calls| && calls[c].conn == k ==> PhaseOk(calls[c]))
    && (forall c :: 0 <= c < |calls| && calls[c].conn == k && calls[c].id.Some? ==>
          calls[c].id.value in conn.issued && conn.issued[calls[c].id.value] == c)
    && (forall c :: 0 <= c < |calls| && calls[c].conn == k && calls[c].registered ==>
          (calls[c].cell == Empty <==> calls[c].id.value in conn.client.pending))
  }

  /** No request is duplicated, and each is the one its caller sent. */
  ghost predicate TrailOk(conn: Conn, calls: seq<Call>) {
    forall r :: r in Trail(conn) ==>
      && Trail(conn)[r] == 1
      && r.id in conn.issued && conn.issued[r.id] < |calls|
      && calls[conn.issued[r.id]].content == r.content
      && calls[conn.issued[r.id]].enqueued
  }

  ghost predicate AnswersOk(k: ConnId, conn: Conn, calls: seq<Call>) {
    && (forall e :: 0 <= e < |conn.computed| ==> conn.computed[e].response.id == conn.computed[e].request.id)
    && (forall p :: p in conn.ready ==> WasComputed(conn.computed, p))
    && (forall p :: p in conn.down ==> WasComputed(conn.computed, p))
    && (forall c :: 0 <= c < |calls| && calls[c].conn == k ==> CarriesOwn(calls[c], conn.computed))
  }

  /** Whatever reached the call was computed on its connection under its id. */
  ghost predicate CarriesOwn(call: Call, computed: seq<Computed>) {
    && (call.cell.Filled? ==>
          call.id == Some(call.cell.response.id) && WasComputed(computed, call.cell.response))
    && (call.phase.Answered? ==>
          call.id == Some(call.phase.response.id) && WasComputed(computed, call.phase.response))
  }

  ghost predicate TasksOk(conn: Conn) {
    && (conn.writer in {Marked, Drained, Exited} || conn.reader in {Marked, Drained, Exited} ==> conn.client.dead)
    && (conn.client.channelOpen <==> conn.writer != Exited)
  }

  ghost predicate ConnOk(k: ConnId, conn: Conn, calls: seq<Call>) {
    TableOk(k, conn, calls) && TrailOk(conn, calls) && AnswersOk(k, conn, calls) && TasksOk(conn)
  }

  ghost predicate Invariant(s: State) {
    && (forall c :: 0 <= c < |s.calls| ==> s.calls[c].conn < |s.conns|)
    && (forall k :: 0 <= k < |s.conns| ==> ConnOk(k, s.conns[k], s.calls))
  }

  // ── Preservation ──────────────────────────────────────────────────────────

  ghost predicate Untouched(k: ConnId, calls: seq<Call>, calls': seq<Call>) {
    && |calls| <= |calls'|
    && (forall c :: 0 <= c < |calls| ==> calls'[c].conn == calls[c].conn)
    && (forall c :: 0 <= c < |calls| && calls[c].conn == k ==> calls'[c] == calls[c])
    && (forall c :: |calls| <= c < |calls'| && calls'[c].conn == k ==>
          calls'[c] == Call(k, calls'[c].content, Fresh, None, Empty, false, false))
  }

  /** A connection does not notice what happens to other connections' callers. */
  lemma FrameConn(k: ConnId, conn: Conn, calls: seq<Call>, calls': seq<Call>)
    requires ConnOk(k, conn, calls) && Untouched(k, calls, calls')
    requires forall r :: r in Trail(conn) ==> calls[conn.issued[r.id]].conn == k
    ensures ConnOk(k, conn, calls')
  {
    FrameTable(k, conn, calls, calls');
  }

  lemma FrameTable(k: ConnId, conn: Conn, calls: seq<Call>, calls': seq<Call>)
    requires TableOk(k, conn, calls) && Untouched(k, calls, calls')
    ensures TableOk(k, conn, calls')
  {
  }

  lemma TrailOwners(k: ConnId, conn: Conn, calls: seq<Call>)
    requires ConnOk(k, conn, calls)
    ensures forall r :: r in Trail(conn) ==> calls[conn.issued[r.id]].conn == k
  {
  }

  /** It is enough to re-establish the connection a step works on. */
  lemma OtherConns(s: State, s': State, k: ConnId)
    requires Invariant(s) && k < |s.conns| == |s'.conns|
    requires |s.calls| == |s'.calls|
    requires forall c :: 0 <= c < |s.calls| ==> s'.calls[c].conn == s.calls[c].conn
    requires forall c :: 0 <= c < |s.calls| && s.calls[c].conn != k ==> s'.calls[c] == s.calls[c]
    requires forall j :: 0 <= j < |s.conns| && j != k ==> s'.conns[j] == s.conns[j]
    requires ConnOk(k, s'.conns[k], s'.calls)
    ensures Invariant(s')
  {
    forall j | 0 <= j < |s'.conns| && j != k
      ensures ConnOk(j, s'.conns[j], s'.calls)
    {
      TrailOwners(j, s.conns[j], s.calls);
      FrameConn(j, s.conns[j], s.calls, s'.calls);
    }
  }

  lemma ConnectKeeps(s: State)
    requires Invariant(s)
    ensures Invariant(Apply(s, Connect))
  {
    var s' := Apply(s, Connect);
    var k := |s.conns|;
    assert Trail(NEW_CONN) == multiset{};
    assert forall c :: 0 <= c < |s'.calls| ==> s'.calls[c].conn != k;
    assert ConnOk(k, s'.conns[k], s'.calls);
    forall j | 0 <= j < k
      ensures ConnOk(j, s'.conns[j], s'.calls)
    {
      assert s'.conns[j] == s.conns[j];
    }
  }

  lemma StartKeeps(s: State, k: ConnId, content: Content)
    requires Invariant(s) && Enabled(s, Start(k, content))
    ensures Invariant(Apply(s, Start(k, content)))
  {
    var s' := Apply(s, Start(k, content));
    forall j | 0 <= j < |s'.conns|
      ensures ConnOk(j, s'.conns[j], s'.calls)
    {
      TrailOwners(j, s.conns[j], s.calls);
      FrameConn(j, s.conns[j], s.calls, s'.calls);
    }
  }

  /** A step of one caller and its connection. */
  lemma OneCall(s: State, s': State, c: CallId)
    requires Invariant(s) && c < |s.calls|
    requires var k := s.calls[c].conn;
             && |s'.calls| == |s.calls| && |s'.conns| == |s.conns|
             && s'.calls == s.calls[c := s'.calls[c]] && s'.calls[c].conn == k
             && s'.conns == s.conns[k := s'.conns[k]]
             && ConnOk(k, s'.conns[k], s'.calls)
    ensures Invariant(s')
  {
    OtherConns(s, s', s.calls[c].conn);
  }

  predicate SameTrail(conn: Conn, conn': Conn) {
    && conn'.client.queue == conn.client.queue && conn'.up == conn.up
    && conn'.tasks == conn.tasks && conn'.computed == conn.computed
  }

  /** One call changes, to no less enqueued, and no request moves. */
  lemma TrailFrame(conn: Conn, conn': Conn, calls: seq<Call>, c: CallId, call: Call)
    requires TrailOk(conn, calls) && SameTrail(conn, conn') && c < |calls|
    requires forall i :: i in conn.issued ==> i in conn'.issued && conn'.issued[i] == conn.issued[i]
    requires call.content == calls[c].content && (calls[c].enqueued ==> call.enqueued)
    ensures TrailOk(conn', calls[c := call])
  {
    assert Trail(conn') == Trail(conn);
  }

  /** One call changes and what it carries is still its own. */
  lemma AnswersFrame(k: ConnId, conn: Conn, conn': Conn, calls: seq<Call>, c: CallId, call: Call)
    requires AnswersOk(k, conn, calls) && c < |calls| && call.conn == calls[c].conn == k
    requires conn'.computed == conn.computed && conn'.ready == conn.ready
    requires forall p :: p in conn'.down ==> p in conn.down
    requires CarriesOwn(call, conn.computed)
    ensures AnswersOk(k, conn', calls[c := call])
  {
  }

  lemma PhaseTable(k: ConnId, conn: Conn, calls: seq<Call>, c: CallId, call: Call)
    requires TableOk(k, conn, calls) && c < |calls| && calls[c].conn == k
    requires call == calls[c].(phase := call.phase) && PhaseOk(call)
    ensures TableOk(k, conn, calls[c := call])
  {
  }

  /** A caller's private steps change neither its id nor its one-shot. */
  lemma PhaseConn(k: ConnId, conn: Conn, calls: seq<Call>, c: CallId, call: Call)
    requires ConnOk(k, conn, calls) && c < |calls| && calls[c].conn == k
    requires call == calls[c].(phase := call.phase) && PhaseOk(call) && CarriesOwn(call, conn.computed)
    ensures ConnOk(k, conn, calls[c := call])
  {
    PhaseTable(k, conn, calls, c, call);
    TrailFrame(conn, conn, calls, c, call);
    AnswersFrame(k, conn, conn, calls, c, call);
  }

  lemma PhaseKeeps(s: State, s': State, c: CallId, phase: Phase)
    requires Invariant(s) && c < |s.calls|
    requires s' == WithCall(s, c, s.calls[c].(phase := phase))
    requires PhaseOk(s'.calls[c]) && CarriesOwn(s'.calls[c], s.conns[s.calls[c].conn].computed)
    ensures Invariant(s')
  {
    var k := s.calls[c].conn;
    PhaseConn(k, s.conns[k], s.calls, c, s'.calls[c]);
    OneCall(s, s', c);
  }

  lemma TakeIdTable(k: ConnId, conn: Conn, calls: seq<Call>, c: CallId)
    requires TableOk(k, conn, calls) && c < |calls| && calls[c].conn == k && calls[c].phase == Checked
    ensures var id := conn.client.nextId;
            id !in conn.issued
            && TableOk(k, conn.(client := conn.client.(nextId := id + 1), issued := conn.issued[id := c]),
                       calls[c := calls[c].(phase := HasId, id := Some(id))])
  {
  }

  lemma TakeIdConn(k: ConnId, conn: Conn, calls: seq<Call>, c: CallId)
    requires ConnOk(k, conn, calls) && c < |calls| && calls[c].conn == k && calls[c].phase == Checked
    ensures var id := conn.client.nextId;
            ConnOk(k, conn.(client := conn.client.(nextId := id + 1), issued := conn.issued[id := c]),
                   calls[c := calls[c].(phase := HasId, id := Some(id))])
  {
    var id := conn.client.nextId;
    var conn' := conn.(client := conn.client.(nextId := id + 1), issued := conn.issued[id := c]);
    var call := calls[c].(phase := HasId, id := Some(id));
    TakeIdTable(k, conn, calls, c);
    TrailFrame(conn, conn', calls, c, call);
    assert PhaseOk(calls[c]);
    AnswersFrame(k, conn, conn', calls, c, call);
  }

  lemma TakeIdKeeps(s: State, c: CallId)
    requires Invariant(s) && Enabled(s, TakeId(c))
    ensures Invariant(Apply(s, TakeId(c)))
  {
    var k := s.calls[c].conn;
    TakeIdConn(k, s.conns[k], s.calls, c);
    OneCall(s, Apply(s, TakeId(c)), c);
  }

  lemma RegisterTable(k: ConnId, conn: Conn, calls: seq<Call>, c: CallId)
    requires TableOk(k, conn, calls) && c < |calls| && calls[c].conn == k && calls[c].phase == HasId
    ensures calls[c].id.Some? && calls[c].id.value !in conn.client.pending
    ensures TableOk(k, conn.(client := Insert(conn.client, calls[c].id.value, c)),
                    calls[c := calls[c].(phase := Registered, registered := true)])
  {
    assert PhaseOk(calls[c]);
    var id := calls[c].id.value;
    assert conn.issued[id] == c;
    assert id !in conn.client.pending;
  }

  lemma RegisterConn(k: ConnId, conn: Conn, calls: seq<Call>, c: CallId)
    requires ConnOk(k, conn, calls) && c < |calls| && calls[c].conn == k && calls[c].phase == HasId
    ensures calls[c].id.Some? && Displaced(conn.client, calls[c].id.value) == {}
    ensures ConnOk(k, conn.(client := Insert(conn.client, calls[c].id.value, c)),
                   calls[c := calls[c].(phase := Registered, registered := true)])
  {
    RegisterTable(k, conn, calls, c);
    var conn' := conn.(client := Insert(conn.client, calls[c].id.value, c));
    var call := calls[c].(phase := Registered, registered := true);
    TrailFrame(conn, conn', calls, c, call);
    assert CarriesOwn(calls[c], conn.computed);
    AnswersFrame(k, conn, conn', calls, c, call);
  }

  lemma RegisterKeeps(s: State, c: CallId)
    requires Invariant(s) && Enabled(s, Register(c))
    ensures Invariant(Apply(s, Register(c)))
  {
    var k := s.calls[c].conn;
    RegisterConn(k, s.conns[k], s.calls, c);
    assert WakeAll(s.calls, {}) == s.calls;
    OneCall(s, Apply(s, Register(c)), c);
  }

  lemma EnqueueTable(k: ConnId, conn: Conn, calls: seq<Call>, c: CallId, client: Client)
    requires TableOk(k, conn, calls) && c < |calls| && calls[c].conn == k && calls[c].phase == Registered
    requires client == conn.client.(queue := client.queue)
    ensures TableOk(k, conn.(client := client), calls[c := calls[c].(phase := Waiting, enqueued := true)])
  {
  }

  lemma EnqueueTrail(k: ConnId, conn: Conn, calls: seq<Call>, c: CallId)
    requires TableOk(k, conn, calls) && TrailOk(conn, calls)
    requires c < |calls| && calls[c].conn == k && calls[c].phase == Registered
    ensures calls[c].id.Some?
    ensures var request := MuxRequest(calls[c].id.value, calls[c].content);
            TrailOk(conn.(client := conn.client.(queue := conn.client.queue + [request])),
                    calls[c := calls[c].(phase := Waiting, enqueued := true)])
  {
    assert PhaseOk(calls[c]);
    var request := MuxRequest(calls[c].id.value, calls[c].content);
    var conn' := conn.(client := conn.client.(queue := conn.client.queue + [request]));
    assert conn.issued[request.id] == c && !calls[c].enqueued;
    assert request !in Trail(conn);
    assert Trail(conn') == Trail(conn) + multiset{request};
  }

  lemma EnqueueConn(k: ConnId, conn: Conn, calls: seq<Call>, c: CallId, client: Client)
    requires ConnOk(k, conn, calls) && c < |calls| && calls[c].conn == k && calls[c].phase == Registered
    requires calls[c].id.Some?
    requires client == conn.client.(queue := conn.client.queue + [MuxRequest(calls[c].id.value, calls[c].content)])
    ensures ConnOk(k, conn.(client := client), calls[c := calls[c].(phase := Waiting, enqueued := true)])
  {
    EnqueueTable(k, conn, calls, c, client);
    EnqueueTrail(k, conn, calls, c);
    assert CarriesOwn(calls[c], conn.computed);
    AnswersFrame(k, conn, conn.(client := client), calls, c, calls[c].(phase := Waiting, enqueued := true));
  }

  lemma EnqueueKeeps(s: State, c: CallId)
    requires Invariant(s) && Enabled(s, Enqueue(c)) && s.conns[s.calls[c].conn].client.channelOpen
    ensures Invariant(Apply(s, Enqueue(c)))
  {
    var s' := Apply(s, Enqueue(c));
    var k := s.calls[c].conn;
    EnqueueConn(k, s.conns[k], s.calls, c, s'.conns[k].client);
    OneCall(s, s', c);
  }

  /** A step inside one connection that leaves its callers and its table alone. */
  lemma InnerKeeps(s: State, s': State, k: ConnId)
    requires Invariant(s) && k < |s.conns| == |s'.conns|
    requires s' == WithConn(s, k, s'.conns[k])
    requires s'.conns[k].issued == s.conns[k].issued
    requires s'.conns[k].client.nextId == s.conns[k].client.nextId
    requires s'.conns[k].client.pending == s.conns[k].client.pending
    requires TrailOk(s'.conns[k], s.calls) && AnswersOk(k, s'.conns[k], s.calls) && TasksOk(s'.conns[k])
    ensures Invariant(s')
  {
    assert TableOk(k, s'.conns[k], s'.calls);
    OtherConns(s, s', k);
  }

  lemma WriterSendsKeeps(s: State, k: ConnId)
    requires Invariant(s) && Enabled(s, WriterSends(k))
    ensures Invariant(Apply(s, WriterSends(k)))
  {
    var s' := Apply(s, WriterSends(k));
    var q := s.conns[k].client.queue;
    assert q == [q[0]] + q[1..];
    assert Trail(s'.conns[k]) == Trail(s.conns[k]);
    InnerKeeps(s, s', k);
  }

  lemma TaskPhaseKeeps(s: State, s': State, k: ConnId)
    requires Invariant(s) && k < |s.conns| == |s'.conns|
    requires s' == WithConn(s, k, s'.conns[k])
    requires s'.conns[k] == s.conns[k].(writer := s'.conns[k].writer, reader := s'.conns[k].reader,
                                        client := s.conns[k].client.(dead := s'.conns[k].client.dead))
    requires TasksOk(s'.conns[k])
    ensures Invariant(s')
  {
    assert Trail(s'.conns[k]) == Trail(s.conns[k]);
    InnerKeeps(s, s', k);
  }

  /** When the channel closes, what it still holds is lost. */
  lemma WriterExitsKeeps(s: State, k: ConnId)
    requires Invariant(s) && Enabled(s, WriterExits(k))
    ensures Invariant(Apply(s, WriterExits(k)))
  {
    var s' := Apply(s, WriterExits(k));
    forall r | r in Trail(s'.conns[k])
      ensures r in Trail(s.conns[k]) && Trail(s'.conns[k])[r] <= Trail(s.conns[k])[r]
    {
    }
    assert TrailOk(s'.conns[k], s.calls);
    InnerKeeps(s, s', k);
  }

  lemma DrainTable(k: ConnId, conn: Conn, calls: seq<Call>)
    requires TableOk(k, conn, calls)
    ensures var calls' := WakeAll(calls, conn.client.pending.Values);
            && TableOk(k, conn.(client := conn.client.(pending := map[])), calls')
            && (forall c :: 0 <= c < |calls| && calls[c].conn != k ==> calls'[c] == calls[c])
            && (forall c :: 0 <= c < |calls| && calls[c].conn == k && calls[c].registered ==> calls'[c].cell != Empty)
  {
    var pending := conn.client.pending;
    var calls' := WakeAll(calls, pending.Values);
    forall c | c in pending.Values
      ensures c < |calls| && calls[c].conn == k && calls[c].registered
    {
      var i :| i in pending && pending[i] == c;
    }
    forall c | 0 <= c < |calls| && calls[c].conn == k && calls[c].registered
      ensures calls'[c].cell != Empty
    {
      assert PhaseOk(calls[c]);
      if calls[c].id.value in pending {
        assert pending[calls[c].id.value] == c;
        assert c in pending.Values;
      }
    }
    forall c | 0 <= c < |calls| && calls[c].conn == k
      ensures PhaseOk(calls'[c])
    {
      assert PhaseOk(calls[c]);
    }
  }

  lemma DrainAnswers(k: ConnId, conn: Conn, conn': Conn, calls: seq<Call>, woken: set<CallId>)
    requires AnswersOk(k, conn, calls)
    requires conn' == conn.(client := conn'.client)
    ensures AnswersOk(k, conn', WakeAll(calls, woken))
  {
    var calls' := WakeAll(calls, woken);
    forall c | 0 <= c < |calls'| && calls'[c].conn == k
      ensures CarriesOwn(calls'[c], conn.computed)
    {
      assert CarriesOwn(calls[c], conn.computed);
    }
  }

  lemma DrainTrail(conn: Conn, conn': Conn, calls: seq<Call>, woken: set<CallId>)
    requires TrailOk(conn, calls) && SameTrail(conn, conn') && conn'.issued == conn.issued
    ensures TrailOk(conn', WakeAll(calls, woken))
  {
    assert Trail(conn') == Trail(conn);
  }

  lemma DrainConn(k: ConnId, conn: Conn, calls: seq<Call>)
    requires ConnOk(k, conn, calls)
    ensures ConnOk(k, conn.(client := conn.client.(pending := map[])), WakeAll(calls, conn.client.pending.Values))
  {
    var conn', woken := conn.(client := conn.client.(pending := map[])), conn.client.pending.Values;
    DrainTable(k, conn, calls);
    DrainTrail(conn, conn', calls, woken);
    DrainAnswers(k, conn, conn', calls, woken);
  }

  lemma DrainKeeps(s: State, k: ConnId)
    requires Invariant(s) && k < |s.conns|
    ensures Invariant(DrainPending(s, k))
  {
    DrainTable(k, s.conns[k], s.calls);
    DrainConn(k, s.conns[k], s.calls);
    OtherConns(s, DrainPending(s, k), k);
  }

  lemma DeliverTable(k: ConnId, conn: Conn, conn': Conn, calls: seq<Call>, response: MuxResponse)
    requires TableOk(k, conn, calls) && response.id in conn.client.pending
    requires conn'.issued == conn.issued && conn'.client.nextId == conn.client.nextId
    requires conn'.client.pending == conn.client.pending - {response.id}
    ensures var c := conn.client.pending[response.id];
            && c < |calls| && calls[c].conn == k && calls[c].id == Some(response.id)
            && TableOk(k, conn', calls[c := calls[c].(cell := Filled(response))])
  {
    var c := conn.client.pending[response.id];
    assert PhaseOk(calls[c]);
  }

  lemma DeliveredIsOwn(k: ConnId, conn: Conn, calls: seq<Call>, c: CallId)
    requires AnswersOk(k, conn, calls) && conn.down != []
    requires c < |calls| && calls[c].conn == k && calls[c].id == Some(conn.down[0].id)
    ensures CarriesOwn(calls[c].(cell := Filled(conn.down[0])), conn.computed)
  {
    assert conn.down[0] in conn.down;
    assert CarriesOwn(calls[c], conn.computed);
  }

  lemma DeliverConn(k: ConnId, conn: Conn, calls: seq<Call>)
    requires ConnOk(k, conn, calls) && conn.down != [] && conn.down[0].id in conn.client.pending
    ensures var c := conn.client.pending[conn.down[0].id];
            && c < |calls| && calls[c].conn == k
            && ConnOk(k, Delivered(conn), calls[c := calls[c].(cell := Filled(conn.down[0]))])
  {
    var response, conn' := conn.down[0], Delivered(conn);
    var c := conn.client.pending[response.id];
    DeliverTable(k, conn, conn', calls, response);
    DeliveredIsOwn(k, conn, calls, c);
    var call := calls[c].(cell := Filled(response));
    TrailFrame(conn, conn', calls, c, call);
    AnswersFrame(k, conn, conn', calls, c, call);
  }

  /** A response nobody waits for is dropped. */
  lemma StrayKeeps(s: State, s': State, k: ConnId)
    requires Invariant(s) && k < |s.conns| && s.conns[k].down != []
    requires s.conns[k].down[0].id !in s.conns[k].client.pending
    requires s' == WithConn(s, k, Delivered(s.conns[k]))
    ensures Invariant(s')
  {
    var conn, conn' := s.conns[k], s'.conns[k];
    assert ConnOk(k, conn, s.calls);
    assert conn'.client.pending == conn.client.pending;
    assert Trail(conn') == Trail(conn);
    InnerKeeps(s, s', k);
  }

  lemma DeliverKeeps(s: State, k: ConnId)
    requires Invariant(s) && Enabled(s, ReaderDelivers(k))
    ensures Invariant(Apply(s, ReaderDelivers(k)))
  {
    var s' := Apply(s, ReaderDelivers(k));
    var conn := s.conns[k];
    if conn.down[0].id in conn.client.pending {
      DeliverConn(k, conn, s.calls);
      OneCall(s, s', conn.client.pending[conn.down[0].id]);
    } else {
      StrayKeeps(s, s', k);
    }
  }

  lemma ServerReadsKeeps(s: State, k: ConnId)
    requires Invariant(s) && Enabled(s, ServerReads(k))
    ensures Invariant(Apply(s, ServerReads(k)))
  {
    var s' := Apply(s, ServerReads(k));
    var up := s.conns[k].up;
    assert up == [up[0]] + up[1..];
    assert Trail(s'.conns[k]) == Trail(s.conns[k]);
    InnerKeeps(s, s', k);
  }

  lemma MoreComputed(k: ConnId, conn: Conn, conn': Conn, calls: seq<Call>, entry: Computed)
    requires AnswersOk(k, conn, calls) && entry.response.id == entry.request.id
    requires conn'.computed == conn.computed + [entry] && conn'.ready == conn.ready + multiset{entry.response}
    requires conn'.down == conn.down
    ensures AnswersOk(k, conn', calls)
  {
    var more := conn'.computed;
    forall p | WasComputed(conn.computed, p)
      ensures WasComputed(more, p)
    {
      var e :| 0 <= e < |conn.computed| && conn.computed[e].response == p;
      assert more[e].response == p;
    }
    assert more[|conn.computed|].response == entry.response;
  }

  lemma ComputedTrail(conn: Conn, conn': Conn, entry: Computed)
    requires entry.request in conn.tasks
    requires conn' == conn.(tasks := conn.tasks - multiset{entry.request},
                            ready := conn.ready + multiset{entry.response}, computed := conn.computed + [entry])
    ensures Trail(conn') == Trail(conn)
  {
    assert conn'.computed[..|conn.computed|] == conn.computed;
  }

  lemma ServerComputesKeeps(s: State, k: ConnId, request: MuxRequest, status: nat, body: seq<byte>)
    requires Invariant(s) && Enabled(s, ServerComputes(k, request, status, body))
    ensures Invariant(Apply(s, ServerComputes(k, request, status, body)))
  {
    var s' := Apply(s, ServerComputes(k, request, status, body));
    var conn, conn' := s.conns[k], s'.conns[k];
    var entry := Computed(request, MuxResponse(request.id, status, body));
    assert ConnOk(k, conn, s.calls);
    ComputedTrail(conn, conn', entry);
    MoreComputed(k, conn, conn', s.calls, entry);
    InnerKeeps(s, s', k);
  }

  lemma RespondAnswers(k: ConnId, conn: Conn, conn': Conn, calls: seq<Call>, response: MuxResponse)
    requires AnswersOk(k, conn, calls) && response in conn.ready
    requires conn' == conn.(ready := conn.ready - multiset{response}, down := conn.down + [response])
    ensures AnswersOk(k, conn', calls)
  {
  }

  lemma ServerRespondsKeeps(s: State, k: ConnId, response: MuxResponse)
    requires Invariant(s) && Enabled(s, ServerResponds(k, response))
    ensures Invariant(Apply(s, ServerResponds(k, response)))
  {
    var s' := Apply(s, ServerResponds(k, response));
    assert ConnOk(k, s.conns[k], s.calls);
    assert Trail(s'.conns[k]) == Trail(s.conns[k]);
    RespondAnswers(k, s.conns[k], s'.conns[k], s.calls, response);
    InnerKeeps(s, s', k);
  }

  predicate IsCallerStep(step: Step) {
    step.CheckDead? || step.TakeId? || step.Register? || step.Enqueue? || step.GiveUp? || step.Receive?
  }

  predicate IsTaskStep(step: Step) {
    step.WriterStops? || step.WriterMarks? || step.ReaderStops? || step.ReaderMarks?
  }

  lemma PrivateStepKeeps(s: State, step: Step)
    requires Invariant(s) && Enabled(s, step) && (step.CheckDead? || step.GiveUp? || step.Receive?)
    ensures Invariant(Apply(s, step))
  {
    var s', c := Apply(s, step), step.call;
    var k := s.calls[c].conn;
    assert ConnOk(k, s.conns[k], s.calls);
    assert PhaseOk(s.calls[c]) && CarriesOwn(s.calls[c], s.conns[k].computed);
    PhaseKeeps(s, s', c, s'.calls[c].phase);
  }

  lemma RefusedEnqueueKeeps(s: State, c: CallId)
    requires Invariant(s) && Enabled(s, Enqueue(c)) && !s.conns[s.calls[c].conn].client.channelOpen
    ensures Invariant(Apply(s, Enqueue(c)))
  {
    var k := s.calls[c].conn;
    assert ConnOk(k, s.conns[k], s.calls);
    assert PhaseOk(s.calls[c]) && CarriesOwn(s.calls[c], s.conns[k].computed);
    PhaseKeeps(s, Apply(s, Enqueue(c)), c, Failed);
  }

  lemma CallerStepKeeps(s: State, step: Step)
    requires Invariant(s) && Enabled(s, step) && IsCallerStep(step)
    ensures Invariant(Apply(s, step))
  {
    match step
    case TakeId(c) => TakeIdKeeps(s, c);
    case Register(c) => RegisterKeeps(s, c);
    case Enqueue(c) =>
      if s.conns[s.calls[c].conn].client.channelOpen { EnqueueKeeps(s, c); } else { RefusedEnqueueKeeps(s, c); }
    case _ => PrivateStepKeeps(s, step);
  }

  lemma TaskStepKeeps(s: State, step: Step)
    requires Invariant(s) && Enabled(s, step) && IsTaskStep(step)
    ensures Invariant(Apply(s, step))
  {
    var k := step.conn;
    assert ConnOk(k, s.conns[k], s.calls);
    TaskPhaseKeeps(s, Apply(s, step), k);
  }

  lemma DrainStepKeeps(s: State, step: Step)
    requires Invariant(s) && Enabled(s, step) && (step.WriterDrains? || step.ReaderDrains?)
    ensures Invariant(Apply(s, step))
  {
    var k := step.conn;
    var conn := s.conns[k];
    assert ConnOk(k, conn, s.calls);
    var drained := if step.WriterDrains? then conn.(writer := Drained) else conn.(reader := Drained);
    var s1 := WithConn(s, k, drained);
    TaskPhaseKeeps(s, s1, k);
    DrainKeeps(s1, k);
  }

  /** Every step keeps the invariant. */
  lemma StepKeeps(s: State, step: Step)
    requires Invariant(s) && Enabled(s, step)
    ensures Invariant(Apply(s, step))
  {
    match step
    case Connect => ConnectKeeps(s);
    case Start(k, content) => StartKeeps(s, k, content);
    case WriterSends(k) => WriterSendsKeeps(s, k);
    case WriterDrains(_) => DrainStepKeeps(s, step);
    case WriterExits(k) => WriterExitsKeeps(s, k);
    case ReaderDelivers(k) => DeliverKeeps(s, k);
    case ReaderDrains(_) => DrainStepKeeps(s, step);
    case ServerReads(k) => ServerReadsKeeps(s, k);
    case ServerComputes(k, request, status, body) => ServerComputesKeeps(s, k, request, status, body);
    case ServerResponds(k, response) => ServerRespondsKeeps(s, k, response);
    case _ =>
      if IsCallerStep(step) { CallerStepKeeps(s, step); } else { TaskStepKeeps(s, step); }
  }
}
