/** One connection of the local HTTP proxy, from the first byte to the reply.
    What connecting and sending give on each attempt is arbitrary (module
    ClientSlot covers the slot they share with other connections). */
module Proxy {
  import opened Bytes
  import opened Http
  import Text
  import CB = CircuitBreaker

  const ATTEMPTS: nat := 2

  datatype MuxResponse = MuxResponse(status: nat, body: seq<byte>)

  /** The outcome of one round of the retry loop. */
  datatype Attempt = ConnectFailed | SendFailed | Sent(response: MuxResponse)

  datatype ForwardError = Connect | Send | Exhausted

  datatype Reply =
    | NoReply                         // the connection is dropped
    | ServiceUnavailable              // 503, circuit open
    | BadRequest                      // 400
    | BadGateway                      // 502
    | Relay(response: MuxResponse)

  /** What other connections do to the shared breaker. */
  method Meanwhile<PeerId(==)>(breaker: CB.CircuitBreaker<PeerId>, others: seq<CB.Event<PeerId>>)
    modifies breaker
    ensures breaker.peers == CB.After(old(breaker.peers), others, breaker.openDuration)
  {
    for i := 0 to |others|
      invariant breaker.peers == CB.After(old(breaker.peers), others[..i], breaker.openDuration)
    {
      assert others[..i + 1][..i] == others[..i];
      var e := others[i];
      match e.op {
        case Allow =>
          var ok := breaker.Allow(e.peer, e.at);
        case Success =>
          breaker.RecordSuccess(e.peer, e.at);
        case Failure =>
          breaker.RecordFailure(e.peer, e.at);
      }
    }
    assert others[..|others|] == others;
  }

  /** The retry loop: at most two rounds, and exactly one verdict to the breaker,
      which by then has seen whatever `others` other connections did. */
  method Forward<PeerId(==)>(
    breaker: CB.CircuitBreaker<PeerId>, peer: PeerId, now: CB.Time, attempts: nat -> Attempt,
    others: seq<CB.Event<PeerId>>
  ) returns (r: Result<MuxResponse, ForwardError>, rounds: nat)
    modifies breaker
    ensures 1 <= rounds <= ATTEMPTS
    ensures r.Ok? ==> attempts(rounds - 1) == Sent(r.value)
    ensures r.Err? ==> rounds == ATTEMPTS && r.error != Exhausted
    ensures forall i :: 0 <= i < rounds - 1 ==> !attempts(i).Sent?
    ensures r.Err? ==> forall i :: 0 <= i < ATTEMPTS ==> !attempts(i).Sent?
    ensures var verdict := if r.Ok? then CB.Op.Success else CB.Op.Failure;
            breaker.peers
            == CB.Apply(CB.After(old(breaker.peers), others, breaker.openDuration),
                        CB.Event(peer, verdict, now), breaker.openDuration)
  {
    rounds := 0;
    for attempt := 0 to ATTEMPTS
      invariant rounds == attempt
      invariant breaker.peers == old(breaker.peers)
      invariant attempt < ATTEMPTS
      invariant forall i :: 0 <= i < attempt ==> !attempts(i).Sent?
    {
      rounds := rounds + 1;
      match attempts(attempt) {
        case ConnectFailed =>
          if attempt < 1 {
            continue;
          }
          Meanwhile(breaker, others);
          breaker.RecordFailure(peer, now);
          return Err(Connect), rounds;
        case Sent(response) =>
          Meanwhile(breaker, others);
          breaker.RecordSuccess(peer, now);
          return Ok(response), rounds;
        case SendFailed =>
          if attempt != 0 {
            Meanwhile(breaker, others);
            breaker.RecordFailure(peer, now);
            return Err(Send), rounds;
          }
      }
    }
    return Err(Exhausted), rounds;
  }

  /** The breaker after a request was answered: asked once, then whatever other
      connections did while it was forwarded, then its verdict, if it has one. */
  ghost function Settled<PeerId>(
    found: map<PeerId, CB.PeerEntry>, peer: PeerId, asked: CB.Time, settled: CB.Time,
    others: seq<CB.Event<PeerId>>, cooldown: nat, reply: Reply): map<PeerId, CB.PeerEntry>
  {
    var afterAsk := CB.Apply(found, CB.Event(peer, CB.Op.Allow, asked), cooldown);
    var afterOthers := CB.After(afterAsk, others, cooldown);
    match reply
    case Relay(_) => CB.Apply(afterOthers, CB.Event(peer, CB.Op.Success, settled), cooldown)
    case BadGateway => CB.Apply(afterOthers, CB.Event(peer, CB.Op.Failure, settled), cooldown)
    case _ => afterAsk
  }

  /** The second half of `handle_mux_proxy_connection`, once a request is buffered:
      the breaker is asked before the request is looked at, and only a forwarded
      request reports a verdict. */
  method Answer<PeerId(==)>(
    parsed: Option<Request>, breaker: CB.CircuitBreaker<PeerId>, peer: PeerId,
    asked: CB.Time, settled: CB.Time, attempts: nat -> Attempt, others: seq<CB.Event<PeerId>>
  ) returns (reply: Reply)
    modifies breaker
    ensures !reply.NoReply?
    ensures reply.ServiceUnavailable? <==> !CB.Admits(CB.EntryOf(old(breaker.peers), peer), asked, breaker.openDuration)
    ensures !reply.ServiceUnavailable? ==> (reply.BadRequest? <==> parsed.None?)
    ensures breaker.peers == Settled(old(breaker.peers), peer, asked, settled, others, breaker.openDuration, reply)
    ensures reply.Relay? ==>
              attempts(0) == Sent(reply.response) || (!attempts(0).Sent? && attempts(1) == Sent(reply.response))
    ensures reply.BadGateway? ==> !attempts(0).Sent? && !attempts(1).Sent?
  {
    var admitted := breaker.Allow(peer, asked);
    if !admitted {
      return ServiceUnavailable;
    }
    if parsed.None? {
      return BadRequest;
    }
    var r, rounds := Forward(breaker, peer, settled, attempts, others);
    return if r.Ok? then Relay(r.value) else BadGateway;
  }

  /** The breaker's past, and what other connections did while the request was read,
      hold fewer than three failures of the peer since its last success. */
  ghost predicate FewFailures<PeerId>(
    peers: map<PeerId, CB.PeerEntry>, past: seq<CB.Event<PeerId>>, earlier: seq<CB.Event<PeerId>>,
    peer: PeerId, cooldown: nat)
  {
    peers == CB.Run(past, cooldown) && CB.FailuresSinceSuccess(CB.Own(past + earlier, peer)) < 3
  }

  lemma FewAreAdmitted<PeerId>(
    peers: map<PeerId, CB.PeerEntry>, past: seq<CB.Event<PeerId>>, earlier: seq<CB.Event<PeerId>>,
    peer: PeerId, now: CB.Time, cooldown: nat)
    requires FewFailures(peers, past, earlier, peer, cooldown)
    ensures CB.Admits(CB.EntryOf(CB.After(peers, earlier, cooldown), peer), now, cooldown)
  {
    CB.AfterAppend(map[], past, earlier, cooldown);
    CB.BelowThreeAdmits(past + earlier, peer, now, cooldown);
  }

  /** `handle_mux_proxy_connection`. Other connections share the breaker: `earlier`
      is what they did while the request was read, `others` what they did while it
      was forwarded; `past` is any history of the breaker. */
  method HandleConnection<PeerId(==)>(
    stream: TcpStream, breaker: CB.CircuitBreaker<PeerId>, peer: PeerId,
    asked: CB.Time, settled: CB.Time, attempts: nat -> Attempt,
    earlier: seq<CB.Event<PeerId>>, others: seq<CB.Event<PeerId>>, ghost past: seq<CB.Event<PeerId>>
  ) returns (reply: Reply)
    requires stream.pos == 0
    modifies stream, breaker
    ensures stream.reliable ==> (reply.NoReply? <==> HeaderEnd(stream.input).None?)
    ensures var found := CB.After(old(breaker.peers), earlier, breaker.openDuration);
            if reply.NoReply? then breaker.peers == found
            else
              && (reply.ServiceUnavailable? <==> !CB.Admits(CB.EntryOf(found, peer), asked, breaker.openDuration))
              && breaker.peers == Settled(found, peer, asked, settled, others, breaker.openDuration, reply)
    ensures reply.Relay? ==>
              attempts(0) == Sent(reply.response) || (!attempts(0).Sent? && attempts(1) == Sent(reply.response))
    ensures reply.BadGateway? ==> !attempts(0).Sent? && !attempts(1).Sent?
    ensures FewFailures(old(breaker.peers), past, earlier, peer, breaker.openDuration) ==> !reply.ServiceUnavailable?
    ensures var input := stream.input;
            stream.reliable && HeaderEnd(input).Some? && |input| < Text.USIZE
            && |input| == HeaderEnd(input).value + 4 + ContentLength(input[..HeaderEnd(input).value])
            && !reply.ServiceUnavailable? ==>
              (reply.BadRequest? <==> ParseRequest(input).None?)
  {
    var received, parsed := ReceiveRequest(stream);
    Meanwhile(breaker, earlier);
    if FewFailures(old(breaker.peers), past, earlier, peer, breaker.openDuration) {
      FewAreAdmitted(old(breaker.peers), past, earlier, peer, asked, breaker.openDuration);
    }
    if received.Closed? {
      return NoReply;
    }
    reply := Answer(parsed, breaker, peer, asked, settled, attempts, others);
  }
}
