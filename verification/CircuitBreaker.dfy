/** The per-peer circuit breaker: consecutive failures open it, a cooldown lets
    requests through again, a success closes it. */
module CircuitBreaker {
  import opened Bytes

  const FAILURE_THRESHOLD: nat := 3
  const OPEN_DURATION_SECS: nat := 30

  type Time = nat

  datatype State = Closed | Open | HalfOpen

  datatype PeerEntry = PeerEntry(state: State, failures: nat, openedAt: Option<Time>)

  const DEFAULT_ENTRY := PeerEntry(Closed, 0, None)

  // ── One peer's entry ──────────────────────────────────────────────────────

  function CooledDown(entry: PeerEntry, now: Time, cooldown: nat): bool {
    match entry.openedAt
    case Some(t) => now - t >= cooldown
    case None => false
  }

  function Admits(entry: PeerEntry, now: Time, cooldown: nat): bool {
    match entry.state
    case Closed => true
    case Open => CooledDown(entry, now, cooldown)
    case HalfOpen => true
  }

  function AfterAllow(entry: PeerEntry, now: Time, cooldown: nat): PeerEntry {
    if entry.state == Open && CooledDown(entry, now, cooldown) then entry.(state := HalfOpen)
    else entry
  }

  function AfterFailure(entry: PeerEntry, now: Time): PeerEntry {
    var counted := entry.(failures := entry.failures + 1);
    var shouldOpen := counted.failures >= FAILURE_THRESHOLD || counted.state == HalfOpen;
    if shouldOpen && counted.state != Open then counted.(state := Open, openedAt := Some(now))
    else counted
  }

  // ── The shared breaker ────────────────────────────────────────────────────

  function EntryOf<PeerId>(peers: map<PeerId, PeerEntry>, peer: PeerId): PeerEntry {
    if peer in peers then peers[peer] else DEFAULT_ENTRY
  }

  class CircuitBreaker<PeerId(==)> {
    var peers: map<PeerId, PeerEntry>
    const openDuration: nat

    constructor (openDuration: nat)
      ensures peers == map[] && this.openDuration == openDuration
    {
      peers := map[];
      this.openDuration := openDuration;
    }

    method Allow(peer: PeerId, now: Time) returns (ok: bool)
      modifies this
      ensures ok == Admits(EntryOf(old(peers), peer), now, openDuration)
      ensures peers == Apply(old(peers), Event(peer, Op.Allow, now), openDuration)
    {
      var entry := EntryOf(peers, peer);
      match entry.state {
        case Closed =>
          ok := true;
        case Open =>
          var elapsed := entry.openedAt.Some? && now - entry.openedAt.value >= openDuration;
          if elapsed {
            entry := entry.(state := HalfOpen);
            ok := true;
          } else {
            ok := false;
          }
        case HalfOpen =>
          ok := true;
      }
      peers := peers[peer := entry];
    }

    method RecordSuccess(peer: PeerId, ghost now: Time)
      modifies this
      ensures peers == Apply(old(peers), Event(peer, Success, now), openDuration)
    {
      peers := peers[peer := DEFAULT_ENTRY];
    }

    method RecordFailure(peer: PeerId, now: Time)
      modifies this
      ensures peers == Apply(old(peers), Event(peer, Failure, now), openDuration)
    {
      var entry := EntryOf(peers, peer);
      entry := entry.(failures := entry.failures + 1);
      var shouldOpen := entry.failures >= FAILURE_THRESHOLD || entry.state == HalfOpen;
      if shouldOpen && entry.state != Open {
        entry := entry.(state := Open, openedAt := Some(now));
      }
      peers := peers[peer := entry];
    }
  }

  // ── Traces ────────────────────────────────────────────────────────────────

  datatype Op = Allow | Success | Failure

  datatype Event<PeerId> = Event(peer: PeerId, op: Op, at: Time)

  datatype Timed = Timed(op: Op, at: Time)

  function Next(entry: PeerEntry, op: Op, now: Time, cooldown: nat): PeerEntry {
    match op
    case Allow => AfterAllow(entry, now, cooldown)
    case Success => DEFAULT_ENTRY
    case Failure => AfterFailure(entry, now)
  }

  function Apply<PeerId>(peers: map<PeerId, PeerEntry>, e: Event<PeerId>, cooldown: nat): map<PeerId, PeerEntry> {
    peers[e.peer := Next(EntryOf(peers, e.peer), e.op, e.at, cooldown)]
  }

  /** The breaker after further events, all peers interleaved. */
  function After<PeerId>(
    peers: map<PeerId, PeerEntry>, trace: seq<Event<PeerId>>, cooldown: nat): map<PeerId, PeerEntry>
  {
    if trace == [] then peers
    else Apply(After(peers, trace[..|trace| - 1], cooldown), trace[|trace| - 1], cooldown)
  }

  /** A new breaker after every event of a trace. */
  function Run<PeerId>(trace: seq<Event<PeerId>>, cooldown: nat): map<PeerId, PeerEntry> {
    After(map[], trace, cooldown)
  }

  /** One peer's entry after its own events only. */
  function PeerRun(trace: seq<Timed>, cooldown: nat): PeerEntry {
    if trace == [] then DEFAULT_ENTRY
    else
      var last := trace[|trace| - 1];
      Next(PeerRun(trace[..|trace| - 1], cooldown), last.op, last.at, cooldown)
  }

  /** The events of `peer`, in order. */
  function Own<PeerId(==)>(trace: seq<Event<PeerId>>, peer: PeerId): seq<Timed> {
    if trace == [] then []
    else
      var last := trace[|trace| - 1];
      Own(trace[..|trace| - 1], peer) + (if last.peer == peer then [Timed(last.op, last.at)] else [])
  }

  /** Peers are independent: a peer's entry depends on its own events only. */
  lemma {:induction false} PeersAreIndependent<PeerId>(trace: seq<Event<PeerId>>, peer: PeerId, cooldown: nat)
    ensures EntryOf(Run(trace, cooldown), peer) == PeerRun(Own(trace, peer), cooldown)
  {
    if trace != [] {
      var init, last := trace[..|trace| - 1], trace[|trace| - 1];
      PeersAreIndependent(init, peer, cooldown);
      if last.peer == peer {
        var own := Own(trace, peer);
        assert own[..|own| - 1] == Own(init, peer);
      } else {
        assert Own(trace, peer) == Own(init, peer);
      }
    }
  }

  // ── When the breaker is closed ────────────────────────────────────────────

  /** Failures recorded after the last success, counted on the trace alone. */
  function FailuresSinceSuccess(trace: seq<Timed>): nat {
    if trace == [] then 0
    else
      var before := FailuresSinceSuccess(trace[..|trace| - 1]);
      match trace[|trace| - 1].op
      case Success => 0
      case Failure => before + 1
      case Allow => before
  }

  /** The breaker is not closed exactly when at least three failures were
      recorded since the last success, and it remembers an opening time exactly
      then. No assumption on the clock. */
  lemma {:induction false} NotClosedIffThreeFailures(trace: seq<Timed>, cooldown: nat)
    ensures var entry := PeerRun(trace, cooldown);
            && entry.failures == FailuresSinceSuccess(trace)
            && (entry.state != Closed <==> FailuresSinceSuccess(trace) >= 3)
            && (entry.openedAt.Some? <==> entry.state != Closed)
  {
    if trace != [] {
      NotClosedIffThreeFailures(trace[..|trace| - 1], cooldown);
    }
  }

  // ── Timing ────────────────────────────────────────────────────────────────

  ghost predicate Monotone(trace: seq<Timed>) {
    forall i, j :: 0 <= i <= j < |trace| ==> trace[i].at <= trace[j].at
  }

  /** Event `i` opens the breaker. */
  ghost predicate Opens(trace: seq<Timed>, i: nat, cooldown: nat)
    requires i < |trace|
  {
    PeerRun(trace[..i], cooldown).state != Open && PeerRun(trace[..i + 1], cooldown).state == Open
  }

  /** No success among the events strictly between `i` and `j`. */
  ghost predicate NoSuccessBetween(trace: seq<Timed>, i: nat, j: nat)
    requires j <= |trace|
  {
    forall k :: i < k < j ==> trace[k].op != Success
  }

  ghost predicate NoOpeningBetween(trace: seq<Timed>, i: nat, j: nat, cooldown: nat)
    requires j <= |trace|
  {
    forall k :: i < k < j ==> !Opens(trace, k, cooldown)
  }

  lemma PeerRunStep(trace: seq<Timed>, i: nat, cooldown: nat)
    requires i < |trace|
    ensures PeerRun(trace[..i + 1], cooldown)
         == Next(PeerRun(trace[..i], cooldown), trace[i].op, trace[i].at, cooldown)
  {
    assert trace[..i + 1][..i] == trace[..i];
  }

  /** Only a failure opens the breaker, and the opening is stamped with its time. */
  lemma OpeningStamp(trace: seq<Timed>, i: nat, cooldown: nat)
    requires i < |trace| && Opens(trace, i, cooldown)
    ensures trace[i].op == Failure
    ensures PeerRun(trace[..i + 1], cooldown).openedAt == Some(trace[i].at)
  {
    PeerRunStep(trace, i, cooldown);
  }

  /** From an opening until the next one, with no success: the stamp never
      moves, so later failures do not extend the window; and the breaker is open
      unless an `allow` came after the cooldown. */
  lemma {:induction false} WindowHolds(trace: seq<Timed>, i: nat, j: nat, cooldown: nat)
    requires i < j <= |trace| && Monotone(trace)
    requires Opens(trace, i, cooldown)
    requires NoSuccessBetween(trace, i, j) && NoOpeningBetween(trace, i, j, cooldown)
    ensures var entry := PeerRun(trace[..j], cooldown);
            && entry.openedAt == Some(trace[i].at)
            && (entry.state == Open || entry.state == HalfOpen)
            && (entry.state == HalfOpen <==>
                exists k :: i < k < j && trace[k].op == Allow && trace[k].at >= trace[i].at + cooldown)
    decreases j
  {
    OpeningStamp(trace, i, cooldown);
    if j > i + 1 {
      WindowHolds(trace, i, j - 1, cooldown);
      PeerRunStep(trace, j - 1, cooldown);
      assert !Opens(trace, j - 1, cooldown);
    }
  }

  /** After an opening at time t, and as long as no success is recorded, a
      request is admitted exactly from t + cooldown on, until the next opening. */
  lemma AdmittedExactlyAfterCooldown(trace: seq<Timed>, i: nat, j: nat, cooldown: nat)
    requires i < j < |trace| && Monotone(trace)
    requires Opens(trace, i, cooldown)
    requires NoSuccessBetween(trace, i, j) && NoOpeningBetween(trace, i, j, cooldown)
    ensures Admits(PeerRun(trace[..j], cooldown), trace[j].at, cooldown)
       <==> trace[j].at >= trace[i].at + cooldown
  {
    WindowHolds(trace, i, j, cooldown);
  }

  lemma {:induction false} NextOpeningIsLater(trace: seq<Timed>, i: nat, j: nat, cooldown: nat)
    requires i < j < |trace| && Monotone(trace)
    requires Opens(trace, i, cooldown) && Opens(trace, j, cooldown)
    requires NoSuccessBetween(trace, i, j) && NoOpeningBetween(trace, i, j, cooldown)
    ensures trace[j].at >= trace[i].at + cooldown
  {
    WindowHolds(trace, i, j, cooldown);
    assert PeerRun(trace[..j], cooldown).state == HalfOpen;
  }

  /** Openings with no success between them are at least one cooldown apart. */
  lemma {:induction false} OpeningsAreSpaced(trace: seq<Timed>, i: nat, j: nat, cooldown: nat)
    requires i < j < |trace| && Monotone(trace)
    requires Opens(trace, i, cooldown) && Opens(trace, j, cooldown) && NoSuccessBetween(trace, i, j)
    ensures trace[j].at >= trace[i].at + cooldown
    decreases j - i
  {
    if k :| i < k < j && Opens(trace, k, cooldown) {
      OpeningsAreSpaced(trace, k, j, cooldown);
    } else {
      NextOpeningIsLater(trace, i, j, cooldown);
    }
  }

  /** Every request inside a cooldown window is refused, whatever else happens,
      unless a success was recorded in between. */
  lemma RefusedDuringCooldown(trace: seq<Timed>, i: nat, j: nat, cooldown: nat)
    requires i < j < |trace| && Monotone(trace)
    requires Opens(trace, i, cooldown) && NoSuccessBetween(trace, i, j)
    requires trace[j].at < trace[i].at + cooldown
    ensures !Admits(PeerRun(trace[..j], cooldown), trace[j].at, cooldown)
  {
    forall k | i < k < j
      ensures !Opens(trace, k, cooldown)
    {
      if Opens(trace, k, cooldown) {
        OpeningsAreSpaced(trace, i, k, cooldown);
      }
    }
    AdmittedExactlyAfterCooldown(trace, i, j, cooldown);
  }

  // ── Refusal, on the trace alone ───────────────────────────────────────────

  /** Event `i` is the last opening, and no success came after it. */
  ghost predicate LastOpening(trace: seq<Timed>, i: nat, cooldown: nat) {
    && i < |trace| && Opens(trace, i, cooldown)
    && NoSuccessBetween(trace, i, |trace|) && NoOpeningBetween(trace, i, |trace|, cooldown)
  }

  /** Some request came between `i` and `j`, at least one cooldown after `i`. */
  ghost predicate ProbedBetween(trace: seq<Timed>, i: nat, j: nat, cooldown: nat)
    requires i < |trace| && j <= |trace|
  {
    exists k :: i < k < j && trace[k].op == Allow && trace[k].at >= trace[i].at + cooldown
  }

  /** Once three failures were recorded since the last success, there is a last
      opening. */
  lemma {:induction false} OpeningExists(trace: seq<Timed>, cooldown: nat) returns (i: nat)
    requires FailuresSinceSuccess(trace) >= 3
    ensures LastOpening(trace, i, cooldown)
    decreases |trace|
  {
    var n := |trace| - 1;
    var init := trace[..n];
    assert trace[..n + 1] == trace;
    NotClosedIffThreeFailures(trace, cooldown);
    NotClosedIffThreeFailures(init, cooldown);
    if Opens(trace, n, cooldown) {
      i := n;
    } else {
      PeerRunStep(trace, n, cooldown);
      i := OpeningExists(init, cooldown);
      OpensInPrefix(trace, n, cooldown);
      assert LastOpening(trace, i, cooldown);
    }
  }

  /** Whether an event opens the breaker depends on the events up to it. */
  lemma OpensInPrefix(trace: seq<Timed>, n: nat, cooldown: nat)
    requires n <= |trace|
    ensures forall i :: 0 <= i < n ==> (Opens(trace[..n], i, cooldown) <==> Opens(trace, i, cooldown))
  {
    forall i | 0 <= i < n
      ensures Opens(trace[..n], i, cooldown) <==> Opens(trace, i, cooldown)
    {
      assert trace[..n][..i] == trace[..i] && trace[..n][..i + 1] == trace[..i + 1];
    }
  }

  /** A failure opens the breaker exactly when it is the third since the last success,
      or a later one after a request was let through again. */
  lemma OpensIff(trace: seq<Timed>, j: nat, cooldown: nat)
    requires j < |trace| && Monotone(trace)
    ensures Opens(trace, j, cooldown)
       <==> && trace[j].op == Failure
            && var failures := FailuresSinceSuccess(trace[..j + 1]);
            && failures >= 3
            && (failures == 3
                || exists i: nat :: LastOpening(trace[..j], i, cooldown) && ProbedBetween(trace, i, j, cooldown))
  {
    var before := trace[..j];
    PeerRunStep(trace, j, cooldown);
    NotClosedIffThreeFailures(before, cooldown);
    NotClosedIffThreeFailures(trace[..j + 1], cooldown);
    assert trace[..j + 1][..j] == before;
    if FailuresSinceSuccess(before) >= 3 {
      var i := OpeningExists(before, cooldown);
      HalfOpenIff(trace, i, j, cooldown);
      forall h: nat | LastOpening(before, h, cooldown)
        ensures h == i
      {
        assert !(i < h) && !(h < i);
      }
    }
  }

  lemma HalfOpenIff(trace: seq<Timed>, i: nat, j: nat, cooldown: nat)
    requires j <= |trace| && Monotone(trace) && LastOpening(trace[..j], i, cooldown)
    ensures var entry := PeerRun(trace[..j], cooldown);
            && entry.openedAt == Some(trace[i].at) && entry.state != Closed
            && (entry.state == HalfOpen <==> ProbedBetween(trace, i, j, cooldown))
  {
    OpensInPrefix(trace, j, cooldown);
    WindowHolds(trace, i, j, cooldown);
  }

  /** A request is refused exactly when at least three failures were recorded since
      the last success and less than one cooldown has passed since the last opening. */
  lemma RefusedIff(trace: seq<Timed>, now: Time, cooldown: nat)
    requires Monotone(trace) && forall i :: 0 <= i < |trace| ==> trace[i].at <= now
    ensures !Admits(PeerRun(trace, cooldown), now, cooldown)
       <==> && FailuresSinceSuccess(trace) >= 3
            && exists i: nat :: LastOpening(trace, i, cooldown) && now < trace[i].at + cooldown
  {
    NotClosedIffThreeFailures(trace, cooldown);
    assert trace[..|trace|] == trace;
    if FailuresSinceSuccess(trace) >= 3 {
      var i := OpeningExists(trace, cooldown);
      HalfOpenIff(trace, i, |trace|, cooldown);
      forall h: nat | LastOpening(trace, h, cooldown)
        ensures h == i
      {
        assert !(i < h) && !(h < i);
      }
    }
  }

  /** The refusal of the shared breaker, after any trace of all peers' events. */
  lemma PeerRefusedIff<PeerId>(trace: seq<Event<PeerId>>, peer: PeerId, now: Time, cooldown: nat)
    requires Monotone(Own(trace, peer))
    requires forall i :: 0 <= i < |Own(trace, peer)| ==> Own(trace, peer)[i].at <= now
    ensures !Admits(EntryOf(Run(trace, cooldown), peer), now, cooldown)
       <==> && FailuresSinceSuccess(Own(trace, peer)) >= 3
            && exists i: nat :: LastOpening(Own(trace, peer), i, cooldown) && now < Own(trace, peer)[i].at + cooldown
  {
    PeersAreIndependent(trace, peer, cooldown);
    RefusedIff(Own(trace, peer), now, cooldown);
  }

  /** With fewer than three failures since the last success, every request passes,
      whatever the clock does. */
  lemma BelowThreeAdmits<PeerId>(trace: seq<Event<PeerId>>, peer: PeerId, now: Time, cooldown: nat)
    requires FailuresSinceSuccess(Own(trace, peer)) < 3
    ensures Admits(EntryOf(Run(trace, cooldown), peer), now, cooldown)
  {
    PeersAreIndependent(trace, peer, cooldown);
    NotClosedIffThreeFailures(Own(trace, peer), cooldown);
  }

  lemma {:induction false} AfterAppend<PeerId>(
    peers: map<PeerId, PeerEntry>, a: seq<Event<PeerId>>, b: seq<Event<PeerId>>, cooldown: nat)
    ensures After(peers, a + b, cooldown) == After(After(peers, a, cooldown), b, cooldown)
    decreases |b|
  {
    if b == [] {
      assert a + b == a;
    } else {
      AfterAppend(peers, a, b[..|b| - 1], cooldown);
      assert (a + b)[..|a + b| - 1] == a + b[..|b| - 1];
    }
  }

  // ── Half-open probes ──────────────────────────────────────────────────────

  /** Requests admitted among the events after `i` and before `j`. */
  function Admitted(trace: seq<Timed>, i: nat, j: nat, cooldown: nat): nat
    requires i < j <= |trace|
    decreases j
  {
    if j == i + 1 then 0
    else
      Admitted(trace, i, j - 1, cooldown)
      + if trace[j - 1].op == Allow && Admits(PeerRun(trace[..j - 1], cooldown), trace[j - 1].at, cooldown)
        then 1 else 0
  }

  /** Requests that arrive at or after `from`. */
  function ArrivalsFrom(trace: seq<Timed>, i: nat, j: nat, from: Time): nat
    requires i < j <= |trace|
    decreases j
  {
    if j == i + 1 then 0
    else
      ArrivalsFrom(trace, i, j - 1, from)
      + if trace[j - 1].op == Allow && trace[j - 1].at >= from then 1 else 0
  }

  /** Between an opening and the next verdict that closes or reopens it, the
      number of requests let through is the number that arrive after the
      cooldown. The documented single probe therefore holds exactly when at most
      one request arrives in that time. */
  lemma {:induction false} ProbesAreAllArrivals(trace: seq<Timed>, i: nat, j: nat, cooldown: nat)
    requires i < j <= |trace| && Monotone(trace)
    requires Opens(trace, i, cooldown)
    requires NoSuccessBetween(trace, i, j) && NoOpeningBetween(trace, i, j, cooldown)
    ensures Admitted(trace, i, j, cooldown) == ArrivalsFrom(trace, i, j, trace[i].at + cooldown)
    ensures Admitted(trace, i, j, cooldown) <= 1 <==> ArrivalsFrom(trace, i, j, trace[i].at + cooldown) <= 1
    decreases j
  {
    if j > i + 1 {
      ProbesAreAllArrivals(trace, i, j - 1, cooldown);
      AdmittedExactlyAfterCooldown(trace, i, j - 1, cooldown);
    }
  }

  /** Two probes pass the half-open breaker one after the other. */
  lemma SingleProbeFails()
    ensures exists trace: seq<Timed> ::
              && |trace| == 5 && Monotone(trace) && Opens(trace, 2, OPEN_DURATION_SECS)
              && NoSuccessBetween(trace, 2, 5) && NoOpeningBetween(trace, 2, 5, OPEN_DURATION_SECS)
              && Admitted(trace, 2, 5, OPEN_DURATION_SECS) == 2
  {
    var f, a := Timed(Failure, 0), Timed(Allow, 30);
    var trace := [f, f, f, a, a];
    var c := OPEN_DURATION_SECS;
    assert trace[..0] == [];
    PeerRunStep(trace, 0, c);
    PeerRunStep(trace, 1, c);
    PeerRunStep(trace, 2, c);
    PeerRunStep(trace, 3, c);
    PeerRunStep(trace, 4, c);
    assert Opens(trace, 2, c);
    ProbesAreAllArrivals(trace, 2, 5, c);
    assert ArrivalsFrom(trace, 2, 3, 30) == 0;
    assert ArrivalsFrom(trace, 2, 4, 30) == 1;
    assert ArrivalsFrom(trace, 2, 5, 30) == 2;
  }
}
