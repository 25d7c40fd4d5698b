/** The path a session is pinned to before it runs, and what a run along it
    answers. Every caller of the coordinator hands it such a path. */
module PinnedPath {
  import opened Bytes
  import opened BlockRpc
  import opened Coordinator

  // ── The greedy choice ─────────────────────────────────────────────────────

  /** `max_by_key` over the eligible servers: the last of the widest. */
  function Best(chain: seq<Server>, pos: nat, failed: set<PeerId>): (best: Option<Server>)
    ensures best.Some? ==> best.value in chain && Eligible(best.value, pos, failed)
    ensures best.Some? ==> forall e :: e in chain && Eligible(e, pos, failed) ==> e.shard.end <= best.value.shard.end
    ensures best.Some? ==> exists i :: LastWidest(chain, pos, failed, best.value, i)
    ensures best.None? ==> forall e :: e in chain ==> !Eligible(e, pos, failed)
  {
    if chain == [] then None
    else
      var init, last := chain[..|chain| - 1], chain[|chain| - 1];
      assert chain == init + [last];
      var best := Best(init, pos, failed);
      if !Eligible(last, pos, failed) || (best.Some? && best.value.shard.end > last.shard.end) then
        assert best.Some? ==> exists i :: LastWidest(chain, pos, failed, best.value, i) by {
          if i :| best.Some? && LastWidest(init, pos, failed, best.value, i) {
            assert LastWidest(chain, pos, failed, best.value, i);
          }
        }
        best
      else
        assert LastWidest(chain, pos, failed, last, |init|);
        Some(last)
  }

  /** `chain[i]` is the server, and whoever is eligible after it is less wide. */
  ghost predicate LastWidest(chain: seq<Server>, pos: nat, failed: set<PeerId>, e: Server, i: nat) {
    && i < |chain| && chain[i] == e
    && forall j :: i < j < |chain| && Eligible(chain[j], pos, failed) ==> chain[j].shard.end < e.shard.end
  }

  ghost predicate GreedyAt(chain: seq<Server>, total: nat, failed: set<PeerId>, path: seq<Server>, k: nat)
    requires k < |path|
  {
    PosAt(path, k) < total && Best(chain, PosAt(path, k), failed) == Some(path[k])
  }

  /** Every entry is the greedy choice at its position. */
  ghost predicate Greedy(chain: seq<Server>, total: nat, failed: set<PeerId>, path: seq<Server>) {
    forall k :: 0 <= k < |path| ==> GreedyAt(chain, total, failed, path, k)
  }

  ghost predicate IsPinned(chain: seq<Server>, total: nat, failed: set<PeerId>, path: seq<Server>) {
    Greedy(chain, total, failed, path) && PosAt(path, |path|) >= total
  }

  lemma GreedyAppend(chain: seq<Server>, total: nat, failed: set<PeerId>, path: seq<Server>, e: Server)
    requires Greedy(chain, total, failed, path) && PosAt(path, |path|) < total
    requires Best(chain, PosAt(path, |path|), failed) == Some(e)
    ensures Greedy(chain, total, failed, path + [e])
  {
    var longer := path + [e];
    forall k | 0 <= k < |longer|
      ensures GreedyAt(chain, total, failed, longer, k)
    {
      assert PosAt(longer, k) == PosAt(path, k);
      if k < |path| { assert GreedyAt(chain, total, failed, path, k); }
    }
  }

  /** `build_pinned_path`. It fails exactly where the greedy walk meets a position
      that no eligible server covers. */
  method BuildPinnedPath(chain: seq<Server>, total: nat, failed: set<PeerId>)
    returns (r: Result<seq<Server>, RpcError>, ghost walked: seq<Server>)
    ensures Greedy(chain, total, failed, walked)
    ensures r.Ok? ==> r.value == walked && IsPinned(chain, total, failed, walked)
    ensures r.Err? ==>
              var pos := PosAt(walked, |walked|);
              && pos < total && r.error == NoServer(pos)
              && forall e :: e in chain ==> !Eligible(e, pos, failed)
  {
    var path: seq<Server> := [];
    var pos := 0;
    while pos < total
      invariant Greedy(chain, total, failed, path) && pos == PosAt(path, |path|)
      decreases total - pos
    {
      var best := Best(chain, pos, failed);
      if best.None? {
        return Err(NoServer(pos)), path;
      }
      GreedyAppend(chain, total, failed, path, best.value);
      pos := best.value.shard.end;
      path := path + [best.value];
    }
    return Ok(path), path;
  }

  // ── Where the greedy walk stands ──────────────────────────────────────────

  /** The `k`-th position of the greedy walk, from the announcements alone. */
  function Position(chain: seq<Server>, total: nat, failed: set<PeerId>, k: nat): Option<nat> {
    if k == 0 then Some(0)
    else
      match Position(chain, total, failed, k - 1)
      case None => None
      case Some(pos) =>
        if pos >= total || Best(chain, pos, failed).None? then None
        else Some(Best(chain, pos, failed).value.shard.end)
  }

  lemma {:induction false} PositionOf(
    chain: seq<Server>, total: nat, failed: set<PeerId>, path: seq<Server>, k: nat)
    requires Greedy(chain, total, failed, path) && k <= |path|
    ensures Position(chain, total, failed, k) == Some(PosAt(path, k))
  {
    if k > 0 {
      PositionOf(chain, total, failed, path, k - 1);
      assert GreedyAt(chain, total, failed, path, k - 1);
    }
  }

  lemma {:induction false} NoPositionAfter(
    chain: seq<Server>, total: nat, failed: set<PeerId>, path: seq<Server>, k: nat)
    requires IsPinned(chain, total, failed, path) && k > |path|
    ensures Position(chain, total, failed, k) == None
  {
    if k == |path| + 1 {
      PositionOf(chain, total, failed, path, |path|);
    } else {
      NoPositionAfter(chain, total, failed, path, k - 1);
    }
  }

  /** The greedy walk passes through `pos`. */
  ghost predicate Visits(chain: seq<Server>, total: nat, failed: set<PeerId>, pos: nat) {
    exists k: nat :: Position(chain, total, failed, k) == Some(pos)
  }

  lemma VisitsIff(chain: seq<Server>, total: nat, failed: set<PeerId>, path: seq<Server>, pos: nat)
    requires IsPinned(chain, total, failed, path)
    ensures Visits(chain, total, failed, pos) <==> exists k :: 0 <= k <= |path| && PosAt(path, k) == pos
  {
    if Visits(chain, total, failed, pos) {
      var k: nat :| Position(chain, total, failed, k) == Some(pos);
      if k > |path| { NoPositionAfter(chain, total, failed, path, k); }
      PositionOf(chain, total, failed, path, k);
      assert PosAt(path, k) == pos;
    }
    if k :| 0 <= k <= |path| && PosAt(path, k) == pos {
      PositionOf(chain, total, failed, path, k);
    }
  }

  // ── Overlap ───────────────────────────────────────────────────────────────

  lemma {:induction false} EndsIncrease(
    chain: seq<Server>, total: nat, failed: set<PeerId>, path: seq<Server>, i: nat, j: nat)
    requires Greedy(chain, total, failed, path) && i < j < |path|
    ensures path[i].shard.end <= PosAt(path, j) < path[j].shard.end
    decreases j
  {
    assert GreedyAt(chain, total, failed, path, j);
    if i < j - 1 { EndsIncrease(chain, total, failed, path, i, j - 1); }
  }

  predicate Overlap(a: Shard, b: Shard) {
    a.start < b.end && b.start < a.end
  }

  ghost predicate PathOverlaps(path: seq<Server>) {
    exists i, j :: 0 <= i < j < |path| && Overlap(path[i].shard, path[j].shard)
  }

  /** The chosen server starts before the position it was chosen for. */
  ghost predicate StartsEarly(chain: seq<Server>, total: nat, failed: set<PeerId>, pos: nat) {
    pos < total && Best(chain, pos, failed).Some? && Best(chain, pos, failed).value.shard.start < pos
  }

  lemma EarlyOnPath(chain: seq<Server>, total: nat, failed: set<PeerId>, path: seq<Server>, k: nat)
    requires IsPinned(chain, total, failed, path) && k <= |path|
    ensures StartsEarly(chain, total, failed, PosAt(path, k)) <==> k < |path| && path[k].shard.start < PosAt(path, k)
  {
    if k < |path| { assert GreedyAt(chain, total, failed, path, k); }
  }

  /** The documented promise of a non-overlapping path fails exactly when, at some
      position of the greedy walk, the widest server starts before it. */
  lemma PathOverlapsIff(chain: seq<Server>, total: nat, failed: set<PeerId>, path: seq<Server>)
    requires IsPinned(chain, total, failed, path)
    ensures PathOverlaps(path)
       <==> exists pos: nat :: Visits(chain, total, failed, pos) && StartsEarly(chain, total, failed, pos)
  {
    if i, j :| 0 <= i < j < |path| && Overlap(path[i].shard, path[j].shard) {
      EndsIncrease(chain, total, failed, path, i, j);
      EarlyOnPath(chain, total, failed, path, j);
      VisitsIff(chain, total, failed, path, PosAt(path, j));
    }
    if pos: nat :| Visits(chain, total, failed, pos) && StartsEarly(chain, total, failed, pos) {
      VisitsIff(chain, total, failed, path, pos);
      var k :| 0 <= k <= |path| && PosAt(path, k) == pos;
      EarlyOnPath(chain, total, failed, path, k);
      assert GreedyAt(chain, total, failed, path, k - 1) && GreedyAt(chain, total, failed, path, k);
      assert Overlap(path[k - 1].shard, path[k].shard);
    }
  }

  // ── The run follows the path ──────────────────────────────────────────────

  /** The path ends past the last block: its last server cannot hold its range. */
  ghost predicate Overshoots(total: nat, path: seq<Server>) {
    PosAt(path, |path|) > total
  }

  lemma {:induction false} PathIsWalk(chain: seq<Server>, total: nat, failed: set<PeerId>, path: seq<Server>, k: nat)
    requires IsPinned(chain, total, failed, path) && !Overshoots(total, path) && k <= |path|
    ensures WalkTo(total, Shards(path[..k]), 0, PosAt(path, k))
  {
    if k > 0 {
      PathIsWalk(chain, total, failed, path, k - 1);
      PathLoadable(chain, total, failed, path, k - 1);
      WalkAppend(total, Shards(path[..k - 1]), path[k - 1].shard, 0, PosAt(path, k - 1));
      assert Shards(path[..k]) == Shards(path[..k - 1]) + [path[k - 1].shard];
    }
  }

  lemma PathLoadable(chain: seq<Server>, total: nat, failed: set<PeerId>, path: seq<Server>, k: nat)
    requires IsPinned(chain, total, failed, path) && !Overshoots(total, path) && k < |path|
    ensures Covers(total, path[k].shard, PosAt(path, k)) && path[k].peer !in failed && PosAt(path, k) < total
  {
    assert GreedyAt(chain, total, failed, path, k);
    if k < |path| - 1 { EndsIncrease(chain, total, failed, path, k, |path| - 1); }
  }

  /** Of the path's servers, only the one chosen for a position covers it. */
  lemma OnlyCandidate(chain: seq<Server>, total: nat, failed: set<PeerId>, path: seq<Server>, k: nat, j: nat)
    requires IsPinned(chain, total, failed, path) && k < |path| && j < |path|
    requires path[j].shard.start <= PosAt(path, k) < path[j].shard.end
    ensures j == k
  {
    assert GreedyAt(chain, total, failed, path, k) && GreedyAt(chain, total, failed, path, j);
    if j < k { EndsIncrease(chain, total, failed, path, j, k); }
    if k < j { EndsIncrease(chain, total, failed, path, k, j); }
  }

  /** So every walk over the path's servers is the path itself. */
  lemma {:induction false} WalkIsPath(
    chain: seq<Server>, total: nat, failed: set<PeerId>, path: seq<Server>, hops: seq<Shard>, k: nat)
    requires IsPinned(chain, total, failed, path) && From(path, hops) && k <= |path|
    requires Walk(total, hops, PosAt(path, k))
    ensures hops == Shards(path[k..]) && !Overshoots(total, path)
    decreases |hops|
  {
    assert k < |path| ==> GreedyAt(chain, total, failed, path, k);
    if hops == [] {
      assert k == |path|;
    } else {
      assert k < |path|;
      assert hops[0] in hops;
      var e :| e in path && e.shard == hops[0];
      var j :| 0 <= j < |path| && path[j] == e;
      OnlyCandidate(chain, total, failed, path, k, j);
      assert forall h :: h in hops[1..] ==> h in hops;
      WalkIsPath(chain, total, failed, path, hops[1..], k + 1);
      assert Shards(path[k..]) == [path[k].shard] + Shards(path[k + 1..]);
    }
  }

  /** The network delivers every call. */
  ghost predicate AllAnswer(net: Network) {
    forall pos, peer :: net(pos, peer) == Answers
  }

  lemma {:induction false} CoveredBy(path: seq<Server>, pos: nat, k: nat) returns (i: nat)
    requires 0 < k <= |path| && pos < PosAt(path, k)
    ensures i < k && PosAt(path, i) <= pos < path[i].shard.end
  {
    if k == 1 || PosAt(path, k - 1) <= pos { i := k - 1; } else { i := CoveredBy(path, pos, k - 1); }
  }

  lemma PathServes(chain: seq<Server>, total: nat, failed: set<PeerId>, path: seq<Server>, net: Network)
    requires IsPinned(chain, total, failed, path) && !Overshoots(total, path) && AllAnswer(net)
    ensures Served(total, net, path, failed)
  {
    forall e | e in path
      ensures Dependable(total, net, path, e.peer)
    {
      forall w | w in path
        ensures Loadable(total, w.shard)
      {
        var k :| 0 <= k < |path| && path[k] == w;
        PathLoadable(chain, total, failed, path, k);
      }
    }
    forall pos | 0 <= pos < total
      ensures ServedAt(total, net, path, failed, pos)
    {
      var i := CoveredBy(path, pos, |path|);
      PathLoadable(chain, total, failed, path, i);
      assert path[i] in path && Eligible(path[i], pos, failed);
    }
  }

  /** Pin a path and run along it. Whatever the network does, an answer is the one
      the pinned path computes; and with a network that delivers, there is one
      exactly when the path does not end past the model. */
  method RunPinned(model: Model, net: Network, chain: seq<Server>, ids: seq<u32>, failed: set<PeerId>)
    returns (r: Result<Response, RpcError>, failed': set<PeerId>, ghost path: seq<Server>)
    ensures Greedy(chain, model.total, failed, path)
    ensures r.Ok? ==>
              && model.total > 0 && IsPinned(chain, model.total, failed, path) && !Overshoots(model.total, path)
              && Route(model, Shards(path), FirstRequest(ids)).Ok?
              && LastOf(Route(model, Shards(path), FirstRequest(ids)).value) == Some(r.value)
    ensures model.total > 0 && WellBehaved(model) && AllAnswer(net) && IsPinned(chain, model.total, failed, path) ==>
              && (r.Ok? <==> !Overshoots(model.total, path))
              && (r == FullAnswer(model, ids) <==> RightOn(model, path, ids))
    ensures !IsPinned(chain, model.total, failed, path) ==> Best(chain, PosAt(path, |path|), failed).None?
  {
    var pinned;
    pinned, path := BuildPinnedPath(chain, model.total, failed);
    if pinned.Err? {
      return Err(pinned.error), failed, path;
    }
    ghost var hops, pos;
    r, failed', hops, pos := ForwardThroughChain(model, net, pinned.value, FirstRequest(ids), failed);
    if r.Ok? {
      AnsweredIsFrom(net, path, hops);
      WalkIsPath(chain, model.total, failed, path, hops, 0);
      assert path[0..] == path;
    }
    assert Starts(FirstRequest(ids));
    if WellBehaved(model) { FullAnswerIsOk(model, ids); }
    if !Overshoots(model.total, path) && AllAnswer(net) {
      PathServes(chain, model.total, failed, path, net);
    }
  }

  lemma FullAnswerIsOk(model: Model, ids: seq<u32>)
    requires WellBehaved(model)
    ensures FullAnswer(model, ids).Ok?
  {
    TokenIdsRoundTrip(ids, []);
  }

  // ── When the answer is right ──────────────────────────────────────────────

  /** At every position of the greedy walk the chosen server starts there, and the
      walk ends with the last block. */
  ghost predicate TilesGreedily(chain: seq<Server>, total: nat, failed: set<PeerId>) {
    forall pos: nat :: Visits(chain, total, failed, pos) ==> pos <= total && !StartsEarly(chain, total, failed, pos)
  }

  /** The run along the path answers as one full shard does. */
  ghost predicate RightOn(model: Model, path: seq<Server>, ids: seq<u32>) {
    !Overshoots(model.total, path) && SameAsFull(model, Shards(path), ids)
  }

  lemma {:induction false} SeamlessFrom(chain: seq<Server>, total: nat, failed: set<PeerId>, path: seq<Server>, k: nat)
    requires IsPinned(chain, total, failed, path) && k <= |path|
    ensures Seamless(Shards(path[k..]), PosAt(path, k))
       <==> forall j :: k <= j < |path| ==> path[j].shard.start == PosAt(path, j)
    decreases |path| - k
  {
    if k < |path| {
      var rest := Shards(path[k..]);
      SeamlessFrom(chain, total, failed, path, k + 1);
      assert rest[1..] == Shards(path[k + 1..]);
      assert rest[0] == path[k].shard && PosAt(path, k + 1) == rest[0].end;
    }
  }

  lemma PositionsInside(chain: seq<Server>, total: nat, failed: set<PeerId>, path: seq<Server>, k: nat)
    requires IsPinned(chain, total, failed, path) && k <= |path| && !Overshoots(total, path)
    ensures PosAt(path, k) <= total
  {
    if k < |path| { assert GreedyAt(chain, total, failed, path, k); }
  }

  lemma TilesIff(chain: seq<Server>, total: nat, failed: set<PeerId>, path: seq<Server>)
    requires IsPinned(chain, total, failed, path)
    ensures TilesGreedily(chain, total, failed) <==> !Overshoots(total, path) && Seamless(Shards(path), 0)
  {
    SeamlessFrom(chain, total, failed, path, 0);
    assert path[0..] == path;
    if TilesGreedily(chain, total, failed) {
      VisitsIff(chain, total, failed, path, PosAt(path, |path|));
      forall j | 0 <= j < |path|
        ensures path[j].shard.start == PosAt(path, j)
      {
        VisitsIff(chain, total, failed, path, PosAt(path, j));
        EarlyOnPath(chain, total, failed, path, j);
        assert GreedyAt(chain, total, failed, path, j);
      }
    }
    if !Overshoots(total, path) && Seamless(Shards(path), 0) {
      forall pos: nat | Visits(chain, total, failed, pos)
        ensures pos <= total && !StartsEarly(chain, total, failed, pos)
      {
        VisitsIff(chain, total, failed, path, pos);
        var k :| 0 <= k <= |path| && PosAt(path, k) == pos;
        PositionsInside(chain, total, failed, path, k);
        EarlyOnPath(chain, total, failed, path, k);
      }
    }
  }

  /** A pinned run is right on every model exactly when, at every position the
      greedy walk over the announcements visits, the widest server starts there
      and none ends past the model: something to be checked before the run. */
  lemma PinnedIsRightIff(chain: seq<Server>, total: nat, failed: set<PeerId>, path: seq<Server>, ids: seq<u32>)
    requires total > 0 && IsPinned(chain, total, failed, path)
    ensures (forall model: Model :: WellBehaved(model) && model.total == total ==> RightOn(model, path, ids))
       <==> TilesGreedily(chain, total, failed)
  {
    TilesIff(chain, total, failed, path);
    if !Overshoots(total, path) {
      PathIsWalk(chain, total, failed, path, |path|);
      assert path[..|path|] == path;
      WalkToEnd(total, Shards(path), 0);
      WalkIsRightIff(total, Shards(path), ids);
    } else {
      CounterWellBehaved(total);
      assert !RightOn(Counter(total), path, ids);
    }
  }

  // ── Two servers that share a block ────────────────────────────────────────

  lemma SharedBlockChoices(chain: seq<Server>)
    requires chain == [Server(0, Shard(0, 2)), Server(1, Shard(1, 3))]
    ensures Best(chain, 0, {}) == Some(chain[0]) && Best(chain, 2, {}) == Some(chain[1])
  {
    assert chain[0] in chain && chain[1] in chain;
    assert Eligible(chain[0], 0, {}) && Eligible(chain[1], 2, {});
  }

  lemma SharedBlockPath(chain: seq<Server>)
    requires chain == [Server(0, Shard(0, 2)), Server(1, Shard(1, 3))]
    ensures IsPinned(chain, 3, {}, chain) && !Overshoots(3, chain) && !Seamless(Shards(chain), 0)
  {
    SharedBlockChoices(chain);
    assert GreedyAt(chain, 3, {}, chain, 0) && GreedyAt(chain, 3, {}, chain, 1);
    SeamlessFrom(chain, 3, {}, chain, 0);
    assert chain[0..] == chain && chain[1].shard.start != PosAt(chain, 1);
  }

  lemma {:induction false} PinnedIsUnique(
    chain: seq<Server>, total: nat, failed: set<PeerId>, a: seq<Server>, b: seq<Server>, k: nat)
    requires IsPinned(chain, total, failed, a) && Greedy(chain, total, failed, b) && k <= |b|
    ensures k <= |a| && a[..k] == b[..k]
  {
    if k > 0 {
      PinnedIsUnique(chain, total, failed, a, b, k - 1);
      assert PosAt(b, k - 1) == PosAt(a, k - 1);
      assert GreedyAt(chain, total, failed, b, k - 1);
      assert k - 1 < |a|;
      assert GreedyAt(chain, total, failed, a, k - 1);
    }
  }

  /** Servers for blocks [0, 2) and [1, 3), both answering: the run delivers an
      answer, and it is not that of one full shard. */
  method SharedBlockIsRunTwice(ids: seq<u32>) returns (r: Result<Response, RpcError>)
    ensures r.Ok? && r != FullAnswer(Counter(3), ids)
  {
    var chain := [Server(0, Shard(0, 2)), Server(1, Shard(1, 3))];
    SharedBlockPath(chain);
    CounterWellBehaved(3);
    var failed;
    ghost var path;
    r, failed, path := RunPinned(Counter(3), (pos, peer) => Answers, chain, ids, {});
    SharedBlockAnswer(chain, path, ids, r);
  }

  lemma SharedBlockAnswer(chain: seq<Server>, path: seq<Server>, ids: seq<u32>, r: Result<Response, RpcError>)
    requires chain == [Server(0, Shard(0, 2)), Server(1, Shard(1, 3))] && Greedy(chain, 3, {}, path)
    requires r.Ok? ==>
               && IsPinned(chain, 3, {}, path) && Route(Counter(3), Shards(path), FirstRequest(ids)).Ok?
               && LastOf(Route(Counter(3), Shards(path), FirstRequest(ids)).value) == Some(r.value)
    requires IsPinned(chain, 3, {}, path) ==> (r.Ok? <==> !Overshoots(3, path))
    requires !IsPinned(chain, 3, {}, path) ==> Best(chain, PosAt(path, |path|), {}).None?
    ensures r.Ok? && r != FullAnswer(Counter(3), ids)
  {
    SharedBlockPath(chain);
    PinnedIsUnique(chain, 3, {}, chain, path, |path|);
    assert path == chain;
    PathIsWalk(chain, 3, {}, path, |path|);
    assert path[..|path|] == path;
    WalkToEnd(3, Shards(path), 0);
    OverlapIsWrong(3, Shards(path), ids);
  }
}
