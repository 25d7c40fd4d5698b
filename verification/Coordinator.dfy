/** The coordinator of a distributed run: it walks the block positions, tries the
    servers that cover each one, widest range first, and hands every answer on to
    the next server. */
module Coordinator {
  import opened Bytes
  import opened BlockRpc

  type PeerId = nat

  /** An announced block server. */
  datatype Server = Server(peer: PeerId, shard: Shard)

  /** How a call to a peer ends when the peer is asked about a position. */
  datatype Reach = Answers | Transient | Unreachable

  type Network = (nat, PeerId) -> Reach

  predicate Eligible(e: Server, pos: nat, failed: set<PeerId>) {
    e.shard.start <= pos < e.shard.end && e.peer !in failed
  }

  function Candidates(chain: seq<Server>, pos: nat, failed: set<PeerId>): (cs: seq<Server>)
    ensures forall e :: e in cs <==> e in chain && Eligible(e, pos, failed)
  {
    if chain == [] then []
    else
      assert forall e :: e in chain <==> e == chain[0] || e in chain[1..];
      (if Eligible(chain[0], pos, failed) then [chain[0]] else []) + Candidates(chain[1..], pos, failed)
  }

  /** The next candidate in the sorted order; ties in any order. */
  method Widest(cs: seq<Server>) returns (i: nat)
    requires cs != []
    ensures i < |cs| && forall j :: 0 <= j < |cs| ==> cs[j].shard.end <= cs[i].shard.end
  {
    i := 0;
    for k := 1 to |cs|
      invariant i < k && forall j :: 0 <= j < k ==> cs[j].shard.end <= cs[i].shard.end
    {
      if cs[k].shard.end > cs[i].shard.end {
        i := k;
      }
    }
  }

  /** The call to a server fails on the way, or the server reports an error. */
  predicate Fails(model: Model, net: Network, request: Request, pos: nat, e: Server) {
    net(pos, e.peer) != Answers || Serve(model, e.shard, request).Err?
  }

  /** Only a transient stream error leaves a peer eligible for later. */
  predicate Blacklists(net: Network, pos: nat, e: Server) {
    net(pos, e.peer) != Transient
  }

  /** One position: candidates in order until one answers. */
  method TryCandidates(model: Model, net: Network, chain: seq<Server>, request: Request, pos: nat, failed: set<PeerId>)
    returns (answer: Option<(Server, Response)>, failed': set<PeerId>)
    ensures failed <= failed'
    ensures forall p :: p in failed' && p !in failed ==>
              exists e :: e in chain && e.peer == p && Eligible(e, pos, failed)
                       && Fails(model, net, request, pos, e) && Blacklists(net, pos, e)
    ensures answer.Some? ==>
              var (e, response) := answer.value;
              && e in chain && Eligible(e, pos, failed)
              && net(pos, e.peer) == Answers && Serve(model, e.shard, request) == Ok(response)
              && forall w :: w in chain && Eligible(w, pos, failed) && w.shard.end > e.shard.end ==>
                   Fails(model, net, request, pos, w) && (Blacklists(net, pos, w) ==> w.peer in failed')
    ensures answer.None? ==>
              forall e :: e in chain && Eligible(e, pos, failed) ==>
                Fails(model, net, request, pos, e) && (Blacklists(net, pos, e) ==> e.peer in failed')
  {
    failed' := failed;
    var todo := Candidates(chain, pos, failed);
    while todo != []
      invariant failed <= failed'
      invariant forall e :: e in todo ==> e in chain && Eligible(e, pos, failed)
      invariant forall e :: e in chain && Eligible(e, pos, failed) ==>
                  e in todo || (Fails(model, net, request, pos, e) && (Blacklists(net, pos, e) ==> e.peer in failed'))
      invariant forall p :: p in failed' && p !in failed ==>
                  exists e :: e in chain && e.peer == p && Eligible(e, pos, failed)
                       && Fails(model, net, request, pos, e) && Blacklists(net, pos, e)
      decreases |todo|
    {
      var i := Widest(todo);
      var e := todo[i];
      if !Fails(model, net, request, pos, e) {
        return Some((e, Serve(model, e.shard, request).value)), failed';
      }
      if Blacklists(net, pos, e) {
        failed' := failed' + {e.peer};
      }
      todo := WithoutAt(todo, i);
    }
    return None, failed';
  }

  function WithoutAt(cs: seq<Server>, i: nat): (rest: seq<Server>)
    requires i < |cs|
    ensures |rest| == |cs| - 1
    ensures forall e :: e in rest ==> e in cs
    ensures forall e :: e in cs ==> e in rest || e == cs[i]
  {
    assert cs == cs[..i] + [cs[i]] + cs[i + 1..];
    cs[..i] + cs[i + 1..]
  }

  /** The position after the first `k` entries of a path. */
  function PosAt(path: seq<Server>, k: nat): nat
    requires k <= |path|
  {
    if k == 0 then 0 else path[k - 1].shard.end
  }

  function Shards(path: seq<Server>): (shards: seq<Shard>)
    ensures |shards| == |path| && forall k :: 0 <= k < |path| ==> shards[k] == path[k].shard
  {
    seq(|path|, k requires 0 <= k < |path| => path[k].shard)
  }

  /** Where hop `k` of a walk from block 0 starts. */
  function StartOf(hops: seq<Shard>, k: nat): nat
    requires k <= |hops|
  {
    if k == 0 then 0 else hops[k - 1].end
  }

  /** Every hop is the range of an announced server that answers at its position. */
  ghost predicate AnsweredBy(net: Network, chain: seq<Server>, hops: seq<Shard>) {
    forall k :: 0 <= k < |hops| ==> AnsweredAt(net, chain, hops, k)
  }

  ghost predicate AnsweredAt(net: Network, chain: seq<Server>, hops: seq<Shard>, k: nat)
    requires k < |hops|
  {
    exists e :: e in chain && e.shard == hops[k] && net(StartOf(hops, k), e.peer) == Answers
  }

  /** A peer that is never unreachable, and that holds what it announces wherever it
      answers. */
  ghost predicate Dependable(total: nat, net: Network, chain: seq<Server>, peer: PeerId) {
    forall pos :: DependableAt(total, net, chain, peer, pos)
  }

  ghost predicate DependableAt(total: nat, net: Network, chain: seq<Server>, peer: PeerId, pos: nat) {
    && net(pos, peer) != Unreachable
    && (net(pos, peer) == Answers ==>
          forall e :: e in chain && e.peer == peer && e.shard.start <= pos < e.shard.end ==> Loadable(total, e.shard))
  }

  /** Some answering servers lead to the position. */
  ghost predicate Reached(total: nat, net: Network, chain: seq<Server>, pos: nat) {
    exists hops :: AnsweredBy(net, chain, hops) && WalkTo(total, hops, 0, pos)
  }

  /** Wherever the answering servers lead, a dependable one that is not blacklisted
      answers next. */
  ghost predicate Served(total: nat, net: Network, chain: seq<Server>, failed: set<PeerId>) {
    forall pos :: 0 <= pos < total && Reached(total, net, chain, pos) ==> ServedAt(total, net, chain, failed, pos)
  }

  ghost predicate ServedAt(total: nat, net: Network, chain: seq<Server>, failed: set<PeerId>, pos: nat) {
    exists e :: e in chain && Eligible(e, pos, failed) && net(pos, e.peer) == Answers
             && Dependable(total, net, chain, e.peer)
  }

  /** Where a walk stands: the hops taken lead to `pos` and their answers are known. */
  ghost predicate Progress(model: Model, first: Request, hops: seq<Shard>, sofar: seq<Response>, pos: nat) {
    WalkTo(model.total, hops, 0, pos) && Route(model, hops, first) == Ok(sofar)
  }

  /** Nobody can take the walk further than `pos`. */
  ghost predicate Stuck(
    model: Model, net: Network, chain: seq<Server>, first: Request, failed: set<PeerId>, hops: seq<Shard>, pos: nat)
  {
    && pos < model.total
    && exists sofar :: Progress(model, first, hops, sofar, pos)
                    && forall e :: e in chain && Eligible(e, pos, failed) ==>
                         Fails(model, net, NextRequest(first, sofar), pos, e)
  }

  /** The hops are ranges of announced servers. */
  ghost predicate From(chain: seq<Server>, hops: seq<Shard>) {
    forall h :: h in hops ==> exists e :: e in chain && e.shard == h
  }

  /** `forward_through_chain`. It answers with the last response of a covering
      walk, or names a position no eligible server could take it past. */
  method ForwardThroughChain(model: Model, net: Network, chain: seq<Server>, first: Request, failed: set<PeerId>)
    returns (r: Result<Response, RpcError>, failed': set<PeerId>, ghost hops: seq<Shard>, ghost pos: nat)
    ensures failed <= failed' && AnsweredBy(net, chain, hops)
    ensures r.Ok? ==>
              && model.total > 0 && Walk(model.total, hops, 0) && Route(model, hops, first).Ok?
              && LastOf(Route(model, hops, first).value) == Some(r.value)
    ensures model.total == 0 <==> r == Err(EmptyChain)
    ensures r.Err? && model.total > 0 ==>
              && (r.error == NoServer(pos) || r.error == AllFailed(pos))
              && exists before :: failed <= before <= failed' && Stuck(model, net, chain, first, before, hops, pos)
    ensures model.total > 0 && WellBehaved(model) && Starts(first) && Served(model.total, net, chain, failed) ==>
              r.Ok?
  {
    var request := first;
    var response: Option<Response> := None;
    var at := 0;
    failed', hops, pos := failed, [], 0;
    ghost var sofar: seq<Response> := [];
    while at < model.total
      invariant at == pos <= model.total && failed <= failed'
      invariant Progress(model, first, hops, sofar, pos) && response == LastOf(sofar)
      invariant pos < model.total ==> request == NextRequest(first, sofar)
      invariant AnsweredBy(net, chain, hops) && (pos > 0 ==> response.Some?)
      invariant WellBehaved(model) && Starts(first) ==> SparesDependable(model.total, net, chain, failed, failed')
      decreases model.total - at
    {
      ghost var before := failed';
      var answer;
      var candidates := Candidates(chain, at, failed');
      answer, failed' := TryCandidates(model, net, chain, request, at, failed');
      if answer.None? {
        ServedIsNotStuck(model, net, chain, first, failed, before, hops, sofar, pos);
        assert Stuck(model, net, chain, first, before, hops, pos);
        return Err(if candidates == [] then NoServer(at) else AllFailed(at)), failed', hops, pos;
      }
      var (e, resp) := answer.value;
      StillSpares(model, net, chain, first, failed, before, failed', hops, sofar, pos);
      RouteAppend(model, hops, e.shard, first, sofar);
      WalkAppend(model.total, hops, e.shard, 0, pos);
      AnsweredAppend(model.total, net, chain, hops, e, pos);
      hops, sofar := hops + [e.shard], sofar + [resp];
      at, pos := e.shard.end, e.shard.end;
      if at < model.total {
        request := Request(HiddenStates, resp.shape, resp.data);
      }
      response := Some(resp);
    }
    WalkToEnd(model.total, hops, 0);
    return if response.None? then Err(EmptyChain) else Ok(response.value), failed', hops, pos;
  }

  lemma AnsweredIsFrom(net: Network, chain: seq<Server>, hops: seq<Shard>)
    requires AnsweredBy(net, chain, hops)
    ensures From(chain, hops)
  {
    forall h | h in hops
      ensures exists e :: e in chain && e.shard == h
    {
      var k :| 0 <= k < |hops| && hops[k] == h;
      assert AnsweredAt(net, chain, hops, k);
    }
  }

  lemma AnsweredAppend(total: nat, net: Network, chain: seq<Server>, hops: seq<Shard>, e: Server, pos: nat)
    requires AnsweredBy(net, chain, hops) && WalkTo(total, hops, 0, pos)
    requires e in chain && net(pos, e.peer) == Answers
    ensures AnsweredBy(net, chain, hops + [e.shard])
  {
    var longer := hops + [e.shard];
    WalkToEnds(total, hops, 0, pos);
    forall k | 0 <= k < |longer|
      ensures AnsweredAt(net, chain, longer, k)
    {
      assert StartOf(longer, k) == StartOf(hops, k);
      if k < |hops| { assert AnsweredAt(net, chain, hops, k); }
    }
  }

  lemma {:induction false} WalkToEnds(total: nat, hops: seq<Shard>, start: nat, pos: nat)
    requires WalkTo(total, hops, start, pos)
    ensures pos == if hops == [] then start else hops[|hops| - 1].end
    decreases |hops|
  {
    if hops != [] { WalkToEnds(total, hops[1..], hops[0].end, pos); }
  }

  ghost predicate Starts(first: Request) {
    exists ids :: first == FirstRequest(ids)
  }

  /** Nobody dependable has been blacklisted along the way. */
  ghost predicate SparesDependable(
    total: nat, net: Network, chain: seq<Server>, failed: set<PeerId>, failed': set<PeerId>)
  {
    forall p :: p in failed' && p !in failed ==> !Dependable(total, net, chain, p)
  }

  // ── A server that is asked along a walk never errs ────────────────────────

  /** The answer at an intermediate position is a hidden state that can be sent. */
  ghost predicate IsHidden(response: Response) {
    exists y :: Sendable(y) && response == Respond(Hidden, y)
  }

  lemma HandledIsHidden(model: Model, shard: Shard, x: Tensor, resp: Response)
    requires WellBehaved(model) && Sendable(x) && shard.end < model.total
    requires Handle(model, shard, Request(HiddenStates, TensorToBytes(x).0, TensorToBytes(x).1)) == Ok(resp)
    ensures IsHidden(resp)
  {
    HandleHidden(model, shard, x);
    assert resp == Respond(Hidden, RunBlocks(model, x, shard.start, shard.end));
  }

  lemma FirstIsHidden(model: Model, shard: Shard, ids: seq<u32>, resp: Response)
    requires WellBehaved(model) && shard.end < model.total
    requires Handle(model, shard, FirstRequest(ids)) == Ok(resp)
    ensures IsHidden(resp)
  {
    TokenIdsRoundTrip(ids, []);
    RunBlocksSendable(model, model.embed(ids), shard.start, shard.end);
    assert resp == Respond(Hidden, RunBlocks(model, model.embed(ids), shard.start, shard.end));
  }

  lemma {:induction false} LastIsHidden(
    model: Model, hops: seq<Shard>, pos: nat, end: nat, req: Request, responses: seq<Response>)
    requires WellBehaved(model) && hops != [] && end < model.total && WalkTo(model.total, hops, pos, end)
    requires Route(model, hops, req) == Ok(responses)
    requires || Starts(req)
             || exists x :: Sendable(x) && req == Request(HiddenStates, TensorToBytes(x).0, TensorToBytes(x).1)
    ensures responses != [] && IsHidden(responses[|responses| - 1])
    decreases |hops|
  {
    WalkToBound(model.total, hops[1..], hops[0].end, end);
    var resp := Handle(model, hops[0], req).value;
    if Starts(req) {
      var ids :| req == FirstRequest(ids);
      FirstIsHidden(model, hops[0], ids, resp);
    } else {
      var x :| Sendable(x) && req == Request(HiddenStates, TensorToBytes(x).0, TensorToBytes(x).1);
      HandledIsHidden(model, hops[0], x, resp);
    }
    if hops[1..] != [] {
      var y :| Sendable(y) && resp == Respond(Hidden, y);
      LastIsHidden(model, hops[1..], hops[0].end, end, Request(HiddenStates, resp.shape, resp.data), responses[1..]);
    }
  }

  lemma {:induction false} WalkToBound(total: nat, hops: seq<Shard>, pos: nat, end: nat)
    requires WalkTo(total, hops, pos, end)
    ensures pos <= end
    decreases |hops|
  {
    if hops != [] { WalkToBound(total, hops[1..], hops[0].end, end); }
  }

  /** Along a walk from token ids, the only failures are the network's. */
  lemma OnlyTheNetworkFails(
    model: Model, first: Request, hops: seq<Shard>, sofar: seq<Response>, pos: nat, shard: Shard)
    requires WellBehaved(model) && Starts(first) && Progress(model, first, hops, sofar, pos)
    requires pos < model.total && Covers(model.total, shard, pos)
    ensures Handle(model, shard, NextRequest(first, sofar)).Ok?
  {
    if hops == [] {
      var ids :| first == FirstRequest(ids);
      TokenIdsRoundTrip(ids, []);
    } else {
      LastIsHidden(model, hops, 0, pos, first, sofar);
      var y :| Sendable(y) && sofar[|sofar| - 1] == Respond(Hidden, y);
      HandleHidden(model, shard, y);
    }
  }

  lemma StillSpares(
    model: Model, net: Network, chain: seq<Server>, first: Request, failed: set<PeerId>, before: set<PeerId>,
    after: set<PeerId>, hops: seq<Shard>, sofar: seq<Response>, pos: nat)
    requires Progress(model, first, hops, sofar, pos) && pos < model.total
    requires WellBehaved(model) && Starts(first) ==> SparesDependable(model.total, net, chain, failed, before)
    requires forall p :: p in after && p !in before ==>
               exists e :: e in chain && e.peer == p && Eligible(e, pos, before)
                        && Fails(model, net, NextRequest(first, sofar), pos, e) && Blacklists(net, pos, e)
    ensures WellBehaved(model) && Starts(first) ==> SparesDependable(model.total, net, chain, failed, after)
  {
    if WellBehaved(model) && Starts(first) {
      forall p | p in after && p !in failed
        ensures !Dependable(model.total, net, chain, p)
      {
        if p !in before {
          var e :| e in chain && e.peer == p && Eligible(e, pos, before)
                   && Fails(model, net, NextRequest(first, sofar), pos, e) && Blacklists(net, pos, e);
          if Loadable(model.total, e.shard) {
            OnlyTheNetworkFails(model, first, hops, sofar, pos, e.shard);
          }
          assert !DependableAt(model.total, net, chain, p, pos);
        }
      }
    }
  }

  lemma ServedIsNotStuck(
    model: Model, net: Network, chain: seq<Server>, first: Request, failed: set<PeerId>, before: set<PeerId>,
    hops: seq<Shard>, sofar: seq<Response>, pos: nat)
    requires Progress(model, first, hops, sofar, pos) && pos < model.total && AnsweredBy(net, chain, hops)
    requires WellBehaved(model) && Starts(first) ==> SparesDependable(model.total, net, chain, failed, before)
    requires forall e :: e in chain && Eligible(e, pos, before) ==> Fails(model, net, NextRequest(first, sofar), pos, e)
    ensures !(WellBehaved(model) && Starts(first) && Served(model.total, net, chain, failed))
  {
    if WellBehaved(model) && Starts(first) && Served(model.total, net, chain, failed) {
      assert Reached(model.total, net, chain, pos);
      assert ServedAt(model.total, net, chain, failed, pos);
      var e :| e in chain && Eligible(e, pos, failed) && net(pos, e.peer) == Answers
               && Dependable(model.total, net, chain, e.peer);
      assert DependableAt(model.total, net, chain, e.peer, pos);
      OnlyTheNetworkFails(model, first, hops, sofar, pos, e.shard);
      assert false;
    }
  }

  // ── When the answer is right ──────────────────────────────────────────────

  /** Announced ranges are equal or disjoint: replicas, but no partial overlap. */
  ghost predicate NoPartialOverlap(chain: seq<Server>) {
    forall a, b :: a in chain && b in chain ==>
      a.shard == b.shard || a.shard.end <= b.shard.start || b.shard.end <= a.shard.start
  }

  /** Some announced servers lead to the position. */
  ghost predicate LeadsTo(total: nat, chain: seq<Server>, pos: nat) {
    exists hops :: From(chain, hops) && WalkTo(total, hops, 0, pos)
  }

  /** Some announced servers lead from the position to the end of the model. */
  ghost predicate LeadsOn(total: nat, chain: seq<Server>, pos: nat) {
    exists hops :: From(chain, hops) && Walk(total, hops, pos)
  }

  /** A run can arrive in the middle of a server's range and still finish. */
  ghost predicate Slips(total: nat, chain: seq<Server>) {
    exists e, pos :: e in chain && SlipsAt(total, chain, e, pos)
  }

  ghost predicate SlipsAt(total: nat, chain: seq<Server>, e: Server, pos: nat) {
    && Covers(total, e.shard, pos) && e.shard.start < pos
    && LeadsTo(total, chain, pos) && LeadsOn(total, chain, e.shard.end)
  }

  lemma {:induction false} SeamlessUnlessSlips(
    total: nat, chain: seq<Server>, before: seq<Shard>, hops: seq<Shard>, pos: nat)
    requires From(chain, before) && WalkTo(total, before, 0, pos)
    requires From(chain, hops) && Walk(total, hops, pos) && !Slips(total, chain)
    ensures Seamless(hops, pos)
    decreases |hops|
  {
    if hops != [] {
      assert hops[0] in hops;
      var e :| e in chain && e.shard == hops[0];
      assert forall h :: h in hops[1..] ==> h in hops;
      assert LeadsTo(total, chain, pos) && LeadsOn(total, chain, e.shard.end);
      assert !SlipsAt(total, chain, e, pos);
      WalkAppend(total, before, hops[0], 0, pos);
      SeamlessUnlessSlips(total, chain, before + [hops[0]], hops[1..], hops[0].end);
    }
  }

  lemma {:induction false} WalkJoin(total: nat, before: seq<Shard>, rest: seq<Shard>, start: nat, pos: nat)
    requires WalkTo(total, before, start, pos) && Walk(total, rest, pos)
    ensures Walk(total, before + rest, start)
    ensures Seamless(before + rest, start) ==> Seamless(rest, pos)
    decreases |before|
  {
    if before == [] {
      assert before + rest == rest;
    } else {
      assert (before + rest)[1..] == before[1..] + rest;
      WalkJoin(total, before[1..], rest, before[0].end, pos);
    }
  }

  lemma SlippingWalk(total: nat, chain: seq<Server>, e: Server, pos: nat) returns (hops: seq<Shard>)
    requires e in chain && SlipsAt(total, chain, e, pos)
    ensures From(chain, hops) && Walk(total, hops, 0) && !Seamless(hops, 0)
  {
    var before :| From(chain, before) && WalkTo(total, before, 0, pos);
    var after :| From(chain, after) && Walk(total, after, e.shard.end);
    var rest := [e.shard] + after;
    assert rest[1..] == after;
    WalkJoin(total, before, rest, 0, pos);
    hops := before + rest;
  }

  /** Whatever walk the announced servers make possible, and whoever answers, the
      result is that of one full shard on every model, exactly when no run can
      arrive in the middle of a server's range and still finish. */
  lemma WalksAreRightIff(total: nat, chain: seq<Server>, ids: seq<u32>)
    requires total > 0
    ensures (forall hops: seq<Shard>, model: Model ::
               From(chain, hops) && Walk(total, hops, 0) && WellBehaved(model) && model.total == total ==>
                 SameAsFull(model, hops, ids))
       <==> !Slips(total, chain)
  {
    if Slips(total, chain) {
      var e, pos :| e in chain && SlipsAt(total, chain, e, pos);
      var hops := SlippingWalk(total, chain, e, pos);
      OverlapIsWrong(total, hops, ids);
      assert Counter(total).total == total;
    } else {
      forall hops: seq<Shard>, model: Model |
        From(chain, hops) && Walk(total, hops, 0) && WellBehaved(model) && model.total == total
        ensures SameAsFull(model, hops, ids)
      {
        SeamlessUnlessSlips(total, chain, [], hops, 0);
        SeamlessChainIsFull(model, hops, ids);
      }
    }
  }

  // ── Every walk can be taken ───────────────────────────────────────────────

  ghost predicate DistinctPeers(chain: seq<Server>) {
    forall a, b :: a in chain && b in chain && a.peer == b.peer ==> a == b
  }

  predicate OnWalk(walk: seq<Server>, pos: nat, peer: PeerId) {
    exists k :: 0 <= k < |walk| && walk[k].peer == peer && PosAt(walk, k) == pos
  }

  /** Only the walk's own server answers at each of its positions. */
  function WalkNetwork(walk: seq<Server>): Network {
    (pos: nat, peer: PeerId) => if OnWalk(walk, pos, peer) then Answers else Transient
  }

  ghost predicate IsWalk(total: nat, chain: seq<Server>, walk: seq<Server>) {
    Walk(total, Shards(walk), 0) && forall e :: e in walk ==> e in chain
  }

  lemma {:induction false} WalkCovers(total: nat, hops: seq<Shard>, start: nat, k: nat)
    requires Walk(total, hops, start) && k < |hops|
    ensures Covers(total, hops[k], if k == 0 then start else hops[k - 1].end)
    ensures k == |hops| - 1 ==> hops[k].end == total
    decreases |hops|
  {
    if k > 0 { WalkCovers(total, hops[1..], hops[0].end, k - 1); }
  }

  lemma WalkServer(total: nat, chain: seq<Server>, walk: seq<Server>, k: nat)
    requires IsWalk(total, chain, walk) && k < |walk|
    ensures Covers(total, walk[k].shard, PosAt(walk, k)) && (k == |walk| - 1 ==> walk[k].shard.end == total)
  {
    WalkCovers(total, Shards(walk), 0, k);
  }

  lemma {:induction false} PositionsIncrease(total: nat, chain: seq<Server>, walk: seq<Server>, i: nat, j: nat)
    requires IsWalk(total, chain, walk) && i < j <= |walk|
    ensures PosAt(walk, i) < PosAt(walk, j)
    decreases j
  {
    WalkServer(total, chain, walk, j - 1);
    if i < j - 1 { PositionsIncrease(total, chain, walk, i, j - 1); }
  }

  lemma PositionIsOnce(total: nat, chain: seq<Server>, walk: seq<Server>, i: nat, j: nat)
    requires IsWalk(total, chain, walk) && i <= |walk| && j <= |walk| && PosAt(walk, i) == PosAt(walk, j)
    ensures i == j
  {
    if i < j { PositionsIncrease(total, chain, walk, i, j); }
    if j < i { PositionsIncrease(total, chain, walk, j, i); }
  }

  lemma AnswerIsOnWalk(total: nat, chain: seq<Server>, walk: seq<Server>, n: nat, e: Server)
    requires IsWalk(total, chain, walk) && DistinctPeers(chain) && n <= |walk|
    requires e in chain && OnWalk(walk, PosAt(walk, n), e.peer)
    ensures n < |walk| && e == walk[n]
  {
    var k :| 0 <= k < |walk| && walk[k].peer == e.peer && PosAt(walk, k) == PosAt(walk, n);
    PositionIsOnce(total, chain, walk, k, n);
    assert walk[k] in walk;
  }

  /** Nobody else answers. */
  ghost predicate Steers(net: Network, walk: seq<Server>) {
    forall pos, peer :: net(pos, peer) == Answers ==> OnWalk(walk, pos, peer)
  }

  lemma NextOnWalk(total: nat, net: Network, chain: seq<Server>, walk: seq<Server>, hops: seq<Shard>, n: nat)
    requires IsWalk(total, chain, walk) && DistinctPeers(chain) && Steers(net, walk) && n <= |walk|
    requires n < |hops| && AnsweredAt(net, chain, hops, n) && StartOf(hops, n) == PosAt(walk, n)
    ensures n < |walk| && hops[n] == walk[n].shard
  {
    var e :| e in chain && e.shard == hops[n] && net(StartOf(hops, n), e.peer) == Answers;
    AnswerIsOnWalk(total, chain, walk, n, e);
  }

  ghost predicate Agrees(walk: seq<Server>, hops: seq<Shard>, n: nat) {
    n <= |hops| && n <= |walk| && StartOf(hops, n) == PosAt(walk, n) && hops[..n] == Shards(walk)[..n]
  }

  lemma AgreesOneMore(walk: seq<Server>, hops: seq<Shard>, n: nat)
    requires Agrees(walk, hops, n) && n < |hops| && n < |walk| && hops[n] == walk[n].shard
    ensures Agrees(walk, hops, n + 1)
  {
    assert hops[..n + 1] == hops[..n] + [hops[n]];
    assert Shards(walk)[..n + 1] == Shards(walk)[..n] + [walk[n].shard];
  }

  /** With that network, whatever is answered is a beginning of the walk. */
  lemma {:induction false} AnsweredIsPrefix(
    total: nat, net: Network, chain: seq<Server>, walk: seq<Server>, hops: seq<Shard>, n: nat)
    requires IsWalk(total, chain, walk) && DistinctPeers(chain) && Steers(net, walk)
    requires AnsweredBy(net, chain, hops) && n <= |hops|
    ensures Agrees(walk, hops, n)
  {
    if n > 0 {
      AnsweredIsPrefix(total, net, chain, walk, hops, n - 1);
      assert AnsweredAt(net, chain, hops, n - 1);
      NextOnWalk(total, net, chain, walk, hops, n - 1);
      AgreesOneMore(walk, hops, n - 1);
    }
  }

  lemma WalkIsDependable(total: nat, chain: seq<Server>, walk: seq<Server>, peer: PeerId)
    requires IsWalk(total, chain, walk) && DistinctPeers(chain)
    ensures Dependable(total, WalkNetwork(walk), chain, peer)
  {
    forall pos: nat
      ensures DependableAt(total, WalkNetwork(walk), chain, peer, pos)
    {
      if OnWalk(walk, pos, peer) {
        var k :| 0 <= k < |walk| && walk[k].peer == peer && PosAt(walk, k) == pos;
        WalkServer(total, chain, walk, k);
        assert walk[k] in walk;
      }
    }
  }

  lemma WalkServes(total: nat, chain: seq<Server>, walk: seq<Server>)
    requires IsWalk(total, chain, walk) && DistinctPeers(chain)
    ensures Served(total, WalkNetwork(walk), chain, {})
  {
    var net := WalkNetwork(walk);
    forall pos | 0 <= pos < total && Reached(total, net, chain, pos)
      ensures ServedAt(total, net, chain, {}, pos)
    {
      var hops :| AnsweredBy(net, chain, hops) && WalkTo(total, hops, 0, pos);
      var k := |hops|;
      AnsweredIsPrefix(total, net, chain, walk, hops, k);
      WalkToEnds(total, hops, 0, pos);
      assert k < |walk| by {
        if k == |walk| && k > 0 { WalkServer(total, chain, walk, k - 1); }
      }
      WalkServer(total, chain, walk, k);
      WalkIsDependable(total, chain, walk, walk[k].peer);
      assert walk[k] in walk && OnWalk(walk, pos, walk[k].peer);
    }
  }

  /** With one range per peer, every covering walk is one the coordinator takes on
      some network, and its answer is then the one that walk computes. */
  method TakeWalk(model: Model, chain: seq<Server>, walk: seq<Server>, ids: seq<u32>)
    returns (r: Result<Response, RpcError>)
    requires WellBehaved(model) && model.total > 0 && IsWalk(model.total, chain, walk) && DistinctPeers(chain)
    ensures Route(model, Shards(walk), FirstRequest(ids)).Ok?
    ensures r.Ok? && LastOf(Route(model, Shards(walk), FirstRequest(ids)).value) == Some(r.value)
    ensures r == FullAnswer(model, ids) <==> SameAsFull(model, Shards(walk), ids)
  {
    assert Starts(FirstRequest(ids));
    WalkServes(model.total, chain, walk);
    var failed;
    ghost var hops, pos;
    r, failed, hops, pos := ForwardThroughChain(model, WalkNetwork(walk), chain, FirstRequest(ids), {});
    SameWalk(model.total, chain, walk, hops);
  }

  lemma SameWalk(total: nat, chain: seq<Server>, walk: seq<Server>, hops: seq<Shard>)
    requires total > 0 && IsWalk(total, chain, walk) && DistinctPeers(chain)
    requires AnsweredBy(WalkNetwork(walk), chain, hops) && Walk(total, hops, 0)
    ensures hops == Shards(walk)
  {
    AnsweredIsPrefix(total, WalkNetwork(walk), chain, walk, hops, |hops|);
    WalkCovers(total, hops, 0, |hops| - 1);
    WalkServer(total, chain, walk, |walk| - 1);
    PositionIsOnce(total, chain, walk, |hops|, |walk|);
    assert hops[..|hops|] == hops && Shards(walk)[..|walk|] == Shards(walk);
  }

  /** A condition that needs no walks: ranges that are equal or disjoint never slip. */
  lemma NoOverlapNeverSlips(total: nat, chain: seq<Server>)
    requires NoPartialOverlap(chain)
    ensures !Slips(total, chain)
  {
    if Slips(total, chain) {
      var e, pos :| e in chain && SlipsAt(total, chain, e, pos);
      var before := ArrivesFrom(total, chain, pos);
      assert false;
    }
  }

  lemma ArrivesFrom(total: nat, chain: seq<Server>, pos: nat) returns (before: Server)
    requires LeadsTo(total, chain, pos) && pos > 0
    ensures before in chain && before.shard.start < before.shard.end == pos
  {
    var hops :| From(chain, hops) && WalkTo(total, hops, 0, pos);
    EndsAt(total, hops, 0, pos);
    assert hops[|hops| - 1] in hops;
    before :| before in chain && before.shard == hops[|hops| - 1];
  }

  lemma {:induction false} EndsAt(total: nat, hops: seq<Shard>, start: nat, pos: nat)
    requires WalkTo(total, hops, start, pos) && start < pos
    ensures hops != [] && hops[|hops| - 1].start < hops[|hops| - 1].end == pos
    decreases |hops|
  {
    if hops[1..] != [] {
      WalkToBound(total, hops[1..], hops[0].end, pos);
      if hops[0].end < pos {
        EndsAt(total, hops[1..], hops[0].end, pos);
      } else {
        WalkProgress(total, hops[1..], hops[0].end, pos);
      }
    }
  }

  lemma WalkProgress(total: nat, hops: seq<Shard>, start: nat, pos: nat)
    requires WalkTo(total, hops, start, pos) && hops != []
    ensures start < pos
  {
    WalkToBound(total, hops[1..], hops[0].end, pos);
  }
}
