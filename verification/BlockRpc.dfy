/** Distributed block inference: the byte codecs, the dispatch of one request on
    a shard, and the coordinator that routes an activation through a chain of
    shards. Blocks are arbitrary functions on half-precision tensors; a half is
    its 16-bit pattern. One model value stands for one step of one session, so
    the key-value caches are part of its block functions. */
module BlockRpc {
  import opened Bytes

  type u16 = x: int | 0 <= x < 0x1_0000
  type u32 = x: int | 0 <= x < 0x1_0000_0000

  datatype RpcError = BadTokenBuffer(len: nat) | BadHalfBuffer(len: nat) | ShapeMismatch | NotFirst(start: nat)
                    | NotLoaded | NoServer(pos: nat) | AllFailed(pos: nat) | EmptyChain

  // ── Words as bytes ────────────────────────────────────────────────────────

  function WordsToBytes(words: seq<nat>, width: nat): (bs: seq<byte>)
    ensures |bs| == width * |words|
  {
    if words == [] then [] else ToLittleEndian(words[0], width) + WordsToBytes(words[1..], width)
  }

  function BytesToWords(bs: seq<byte>, width: nat): seq<nat>
    requires width > 0
    decreases |bs|
  {
    if |bs| < width then [] else [FromLittleEndian(bs[..width])] + BytesToWords(bs[width..], width)
  }

  ghost predicate Fit(words: seq<nat>, width: nat) {
    forall i :: 0 <= i < |words| ==> words[i] < Pow(0x100, width)
  }

  lemma {:induction false} WordsRoundTrip(words: seq<nat>, width: nat)
    requires width > 0 && Fit(words, width)
    ensures BytesToWords(WordsToBytes(words, width), width) == words
  {
    if words != [] {
      var bs := WordsToBytes(words, width);
      assert bs[..width] == ToLittleEndian(words[0], width);
      assert bs[width..] == WordsToBytes(words[1..], width);
      FromToLittleEndian(words[0], width);
      WordsRoundTrip(words[1..], width);
    }
  }

  /** The other way round, for buffers that hold whole words. */
  lemma {:induction false} BytesRoundTrip(bs: seq<byte>, width: nat, count: nat)
    requires width > 0 && |bs| == width * count
    ensures |BytesToWords(bs, width)| == count && Fit(BytesToWords(bs, width), width)
    ensures WordsToBytes(BytesToWords(bs, width), width) == bs
    decreases count
  {
    if count > 0 {
      OneWord(width, count);
      var word, rest := bs[..width], bs[width..];
      BytesRoundTrip(rest, width, count - 1);
      ToFromLittleEndian(word);
      assert BytesToWords(bs, width) == [FromLittleEndian(word)] + BytesToWords(rest, width);
      assert bs == word + rest;
    }
  }

  lemma OneWord(width: nat, count: nat)
    requires count > 0
    ensures width * count == width + width * (count - 1)
  {
  }

  /** Byte `i` of word `k` is its `i`-th base-256 digit. */
  lemma {:induction false} WordByte(words: seq<nat>, width: nat, k: nat, i: nat)
    requires k < |words| && i < width
    ensures 0 <= width * k + i < width * |words| && Pow(0x100, i) > 0
    ensures WordsToBytes(words, width)[width * k + i] == words[k] / Pow(0x100, i) % 0x100
    decreases k
  {
    var bs, rest := WordsToBytes(words, width), WordsToBytes(words[1..], width);
    assert bs == ToLittleEndian(words[0], width) + rest;
    OneWord(width, |words|);
    if k == 0 {
      LittleEndianByte(words[0], width, i);
    } else {
      OneWord(width, k);
      WordByte(words[1..], width, k - 1, i);
      assert bs[width + (width * (k - 1) + i)] == rest[width * (k - 1) + i];
    }
  }

  lemma PowersOf256()
    ensures Pow(0x100, 2) == 0x1_0000 && Pow(0x100, 4) == 0x1_0000_0000
  {
    assert Pow(0x100, 1) == 0x100;
    assert Pow(0x100, 2) == 0x1_0000;
    assert Pow(0x100, 3) == 0x100_0000;
  }

  // ── Token ids ─────────────────────────────────────────────────────────────

  function TokenIdsToBytes(ids: seq<u32>): (seq<nat>, seq<byte>) {
    ([|ids| % 0x1_0000_0000], WordsToBytes(ids, 4))
  }

  function AsIds(words: seq<nat>): (ids: seq<u32>)
    requires forall i :: 0 <= i < |words| ==> words[i] < 0x1_0000_0000
    ensures ids == words
  {
    words
  }

  lemma WholeWords(bs: seq<byte>, width: nat)
    requires width > 0 && |bs| % width == 0
    ensures Fit(BytesToWords(bs, width), width) && |BytesToWords(bs, width)| == |bs| / width
    ensures WordsToBytes(BytesToWords(bs, width), width) == bs
  {
    assert |bs| == width * (|bs| / width);
    BytesRoundTrip(bs, width, |bs| / width);
  }

  function BytesToTokenIds(bs: seq<byte>): Result<seq<u32>, RpcError> {
    if |bs| % 4 != 0 then Err(BadTokenBuffer(|bs|))
    else
      WholeWords(bs, 4);
      PowersOf256();
      Ok(AsIds(BytesToWords(bs, 4)))
  }

  /** Token ids survive the wire, and a buffer decodes exactly when its length is
      a multiple of four, to ids that encode back to it. */
  lemma TokenIdsRoundTrip(ids: seq<u32>, bs: seq<byte>)
    ensures BytesToTokenIds(TokenIdsToBytes(ids).1) == Ok(ids)
    ensures match BytesToTokenIds(bs)
            case Ok(decoded) => |bs| % 4 == 0 && TokenIdsToBytes(decoded).1 == bs
            case Err(_) => |bs| % 4 != 0
  {
    PowersOf256();
    WordsRoundTrip(ids, 4);
    if |bs| % 4 == 0 { WholeWords(bs, 4); }
  }

  /** Token ids go over the wire as little-endian 32-bit words, halves as
      little-endian 16-bit words. */
  lemma WireBytes(ids: seq<u32>, t: Tensor, k: nat)
    ensures k < |ids| ==>
              var bs, id := TokenIdsToBytes(ids).1, ids[k];
              && |bs| == 4 * |ids|
              && bs[4 * k] == id % 0x100 && bs[4 * k + 1] == id / 0x100 % 0x100
              && bs[4 * k + 2] == id / 0x1_0000 % 0x100 && bs[4 * k + 3] == id / 0x100_0000
    ensures k < |t.data| ==>
              var bs, half := TensorToBytes(t).1, t.data[k];
              |bs| == 2 * |t.data| && bs[2 * k] == half % 0x100 && bs[2 * k + 1] == half / 0x100
  {
    PowersOf256();
    assert Pow(0x100, 0) == 1 && Pow(0x100, 1) == 0x100 && Pow(0x100, 3) == 0x100_0000;
    if k < |ids| {
      WordByte(ids, 4, k, 0);
      WordByte(ids, 4, k, 1);
      WordByte(ids, 4, k, 2);
      WordByte(ids, 4, k, 3);
    }
    if k < |t.data| {
      WordByte(t.data, 2, k, 0);
      WordByte(t.data, 2, k, 1);
    }
  }

  // ── Tensors ───────────────────────────────────────────────────────────────

  datatype Tensor = Tensor(shape: seq<nat>, data: seq<u16>)

  function Elements(shape: seq<nat>): nat {
    if shape == [] then 1 else Elements(shape[..|shape| - 1]) * shape[|shape| - 1]
  }

  /** A tensor whose data fills its shape and whose dimensions fit in 32 bits. */
  predicate Sendable(t: Tensor) {
    Elements(t.shape) == |t.data| && forall i :: 0 <= i < |t.shape| ==> t.shape[i] < 0x1_0000_0000
  }

  function Dims32(shape: seq<nat>): (dims: seq<nat>)
    ensures |dims| == |shape| && forall i :: 0 <= i < |shape| ==> dims[i] == shape[i] % 0x1_0000_0000
  {
    seq(|shape|, i requires 0 <= i < |shape| => shape[i] % 0x1_0000_0000)
  }

  /** `tensor_to_f16_bytes` on a half-precision tensor. */
  function TensorToBytes(t: Tensor): (seq<nat>, seq<byte>) {
    (Dims32(t.shape), WordsToBytes(t.data, 2))
  }

  function AsHalves(words: seq<nat>): (halves: seq<u16>)
    requires forall i :: 0 <= i < |words| ==> words[i] < 0x1_0000
    ensures halves == words
  {
    words
  }

  /** `f16_bytes_to_tensor`. */
  function BytesToTensor(bs: seq<byte>, shape: seq<nat>): Result<Tensor, RpcError> {
    if |bs| % 2 != 0 then Err(BadHalfBuffer(|bs|))
    else
      WholeWords(bs, 2);
      PowersOf256();
      var data := AsHalves(BytesToWords(bs, 2));
      if Elements(shape) == |data| then Ok(Tensor(shape, data)) else Err(ShapeMismatch)
  }

  /** A tensor survives the wire exactly when it is sendable. */
  lemma TensorRoundTripIff(t: Tensor)
    ensures BytesToTensor(TensorToBytes(t).1, TensorToBytes(t).0) == Ok(t) <==> Sendable(t)
  {
    PowersOf256();
    WordsRoundTrip(t.data, 2);
    var dims := Dims32(t.shape);
    if forall i :: 0 <= i < |t.shape| ==> t.shape[i] < 0x1_0000_0000 {
      assert dims == t.shape;
    } else {
      var i :| 0 <= i < |t.shape| && t.shape[i] >= 0x1_0000_0000;
      assert dims[i] != t.shape[i];
    }
  }

  // ── One shard ─────────────────────────────────────────────────────────────

  datatype Model = Model(total: nat, embed: seq<u32> -> Tensor, block: (nat, Tensor) -> Tensor, head: Tensor -> Tensor)

  /** The blocks a server holds; loading one requires `start < end <= total`. */
  datatype Shard = Shard(start: nat, end: nat)

  predicate Loadable(total: nat, shard: Shard) {
    shard.start < shard.end <= total
  }

  /** The model's functions produce sendable tensors. */
  ghost predicate WellBehaved(model: Model) {
    && (forall ids :: Sendable(model.embed(ids)))
    && (forall i, t :: Sendable(t) ==> Sendable(model.block(i, t)))
    && (forall t :: Sendable(t) ==> Sendable(model.head(t)))
  }

  function RunBlocks(model: Model, x: Tensor, start: nat, end: nat): Tensor
    decreases end - start
  {
    if start >= end then x else RunBlocks(model, model.block(start, x), start + 1, end)
  }

  datatype Payload = TokenIds | HiddenStates
  datatype Kind = Hidden | Logits

  datatype Request = Request(payload: Payload, shape: seq<nat>, data: seq<byte>)
  datatype Response = Response(kind: Kind, shape: seq<nat>, data: seq<byte>)

  function Respond(kind: Kind, t: Tensor): Response {
    var (shape, data) := TensorToBytes(t);
    Response(kind, shape, data)
  }

  /** `handle_inference_request`. */
  function Handle(model: Model, shard: Shard, req: Request): Result<Response, RpcError> {
    var isLast := shard.end == model.total;
    match req.payload
    case TokenIds =>
      if shard.start != 0 then Err(NotFirst(shard.start))
      else
        (match BytesToTokenIds(req.data)
         case Err(e) => Err(e)
         case Ok(ids) =>
           var hidden := RunBlocks(model, model.embed(ids), shard.start, shard.end);
           Ok(if isLast then Respond(Logits, model.head(hidden)) else Respond(Hidden, hidden)))
    case HiddenStates =>
      match BytesToTensor(req.data, req.shape)
      case Err(e) => Err(e)
      case Ok(x) =>
        var hidden := RunBlocks(model, x, shard.start, shard.end);
        Ok(if isLast then Respond(Logits, model.head(hidden)) else Respond(Hidden, hidden))
  }

  /** `make_block_rpc_handler`. A node whose range the model does not have never
      gets its shard loaded, and only ever reports that it is warming up. */
  function Serve(model: Model, shard: Shard, req: Request): Result<Response, RpcError> {
    if Loadable(model.total, shard) then Handle(model, shard, req) else Err(NotLoaded)
  }

  // ── A chain of shards ─────────────────────────────────────────────────────

  function FirstRequest(ids: seq<u32>): Request {
    var (shape, data) := TokenIdsToBytes(ids);
    Request(TokenIds, shape, data)
  }

  /** Hop by hop, each response becomes the next request; all responses in order. */
  function Route(model: Model, hops: seq<Shard>, req: Request): Result<seq<Response>, RpcError> {
    if hops == [] then Ok([])
    else
      match Handle(model, hops[0], req)
      case Err(e) => Err(e)
      case Ok(resp) =>
        match Route(model, hops[1..], Request(HiddenStates, resp.shape, resp.data))
        case Err(e) => Err(e)
        case Ok(rest) => Ok([resp] + rest)
  }

  predicate Covers(total: nat, shard: Shard, pos: nat) {
    Loadable(total, shard) && shard.start <= pos < shard.end
  }

  /** A covering walk from `pos` to the end of the model. */
  ghost predicate Walk(total: nat, hops: seq<Shard>, pos: nat)
    decreases |hops|
  {
    if hops == [] then pos == total
    else pos < total && Covers(total, hops[0], pos) && Walk(total, hops[1..], hops[0].end)
  }

  function LastOf(responses: seq<Response>): Option<Response> {
    if responses == [] then None else Some(responses[|responses| - 1])
  }

  function NextRequest(first: Request, responses: seq<Response>): Request {
    if responses == [] then first
    else
      var last := responses[|responses| - 1];
      Request(HiddenStates, last.shape, last.data)
  }

  ghost predicate WalkTo(total: nat, hops: seq<Shard>, pos: nat, end: nat)
    decreases |hops|
  {
    if hops == [] then pos == end
    else pos < total && Covers(total, hops[0], pos) && WalkTo(total, hops[1..], hops[0].end, end)
  }

  lemma {:induction false} WalkAppend(total: nat, hops: seq<Shard>, hop: Shard, pos: nat, end: nat)
    requires WalkTo(total, hops, pos, end) && end < total && Covers(total, hop, end)
    ensures WalkTo(total, hops + [hop], pos, hop.end)
    decreases |hops|
  {
    if hops != [] {
      WalkAppend(total, hops[1..], hop, hops[0].end, end);
      assert (hops + [hop])[1..] == hops[1..] + [hop];
    } else {
      assert [hop][1..] == [];
    }
  }

  lemma {:induction false} WalkToEnd(total: nat, hops: seq<Shard>, pos: nat)
    requires WalkTo(total, hops, pos, total)
    ensures Walk(total, hops, pos)
    decreases |hops|
  {
    if hops != [] { WalkToEnd(total, hops[1..], hops[0].end); }
  }

  lemma {:induction false} RouteAppend(
    model: Model, hops: seq<Shard>, hop: Shard, first: Request, responses: seq<Response>)
    requires Route(model, hops, first) == Ok(responses)
    ensures Route(model, hops + [hop], first)
         == match Handle(model, hop, NextRequest(first, responses))
            case Err(e) => Err(e)
            case Ok(resp) => Ok(responses + [resp])
    decreases |hops|
  {
    if hops == [] {
      assert (hops + [hop])[0] == hop && (hops + [hop])[1..] == [];
      assert responses == [];
      match Handle(model, hop, first) {
        case Err(_) =>
        case Ok(resp) =>
          assert Route(model, [], Request(HiddenStates, resp.shape, resp.data)) == Ok([]);
          assert [resp] + [] == responses + [resp];
      }
    } else {
      var resp := Handle(model, hops[0], first).value;
      var second := Request(HiddenStates, resp.shape, resp.data);
      RouteAppend(model, hops[1..], hop, second, responses[1..]);
      assert (hops + [hop])[1..] == hops[1..] + [hop];
      assert responses == [resp] + responses[1..];
      assert NextRequest(second, responses[1..]) == NextRequest(first, responses);
      assert forall r :: [resp] + (responses[1..] + [r]) == responses + [r];
    }
  }

  // ── Composition ───────────────────────────────────────────────────────────

  /** The hidden state after running every hop's own blocks in turn. */
  function Compose(model: Model, x: Tensor, hops: seq<Shard>): Tensor
    decreases |hops|
  {
    if hops == [] then x
    else Compose(model, RunBlocks(model, x, hops[0].start, hops[0].end), hops[1..])
  }

  lemma {:induction false} RunBlocksSendable(model: Model, x: Tensor, start: nat, end: nat)
    requires WellBehaved(model) && Sendable(x)
    ensures Sendable(RunBlocks(model, x, start, end))
    decreases end - start
  {
    if start < end { RunBlocksSendable(model, model.block(start, x), start + 1, end); }
  }

  /** Intermediate responses carry hidden states, the last one carries logits. */
  ghost predicate KindsOk(responses: seq<Response>) {
    forall i :: 0 <= i < |responses| ==> responses[i].kind == if i == |responses| - 1 then Logits else Hidden
  }

  lemma HandleHidden(model: Model, shard: Shard, x: Tensor)
    requires WellBehaved(model) && Sendable(x)
    ensures var hidden := RunBlocks(model, x, shard.start, shard.end);
            && Sendable(hidden)
            && Handle(model, shard, Request(HiddenStates, TensorToBytes(x).0, TensorToBytes(x).1))
               == Ok(if shard.end == model.total then Respond(Logits, model.head(hidden)) else Respond(Hidden, hidden))
  {
    TensorRoundTripIff(x);
    RunBlocksSendable(model, x, shard.start, shard.end);
  }

  /** From any hop on, the codecs are transparent. */
  lemma {:induction false} RouteHidden(model: Model, hops: seq<Shard>, x: Tensor, pos: nat)
    requires WellBehaved(model) && Sendable(x) && Walk(model.total, hops, pos) && hops != []
    ensures var r := Route(model, hops, Request(HiddenStates, TensorToBytes(x).0, TensorToBytes(x).1));
            && r.Ok? && |r.value| == |hops| && KindsOk(r.value)
            && r.value[|hops| - 1] == Respond(Logits, model.head(Compose(model, x, hops)))
    decreases |hops|
  {
    HandleHidden(model, hops[0], x);
    var hidden := RunBlocks(model, x, hops[0].start, hops[0].end);
    if hops[1..] != [] {
      RouteHidden(model, hops[1..], hidden, hops[0].end);
      assert hops[0].end < model.total;
    }
  }

  /** What a walk computes from token ids: hidden states at every hop but the
      last, and at the last the logits of all the hops' blocks in order. */
  lemma RouteComputes(model: Model, hops: seq<Shard>, ids: seq<u32>)
    requires WellBehaved(model) && model.total > 0 && Walk(model.total, hops, 0)
    ensures var r := Route(model, hops, FirstRequest(ids));
            && r.Ok? && |r.value| == |hops| > 0 && KindsOk(r.value)
            && r.value[|hops| - 1] == Respond(Logits, model.head(Compose(model, model.embed(ids), hops)))
  {
    TokenIdsRoundTrip(ids, []);
    var x := model.embed(ids);
    RunBlocksSendable(model, x, hops[0].start, hops[0].end);
    var hidden := RunBlocks(model, x, hops[0].start, hops[0].end);
    if hops[1..] != [] {
      assert hops[0].end < model.total;
      RouteHidden(model, hops[1..], hidden, hops[0].end);
    }
  }

  lemma {:induction false} RunBlocksSplit(model: Model, x: Tensor, a: nat, b: nat, c: nat)
    requires a <= b <= c
    ensures RunBlocks(model, RunBlocks(model, x, a, b), b, c) == RunBlocks(model, x, a, c)
    decreases b - a
  {
    if a < b { RunBlocksSplit(model, model.block(a, x), a + 1, b, c); }
  }

  /** Every hop starts where the previous one ended. */
  ghost predicate Seamless(hops: seq<Shard>, pos: nat)
    decreases |hops|
  {
    hops == [] || (hops[0].start == pos && Seamless(hops[1..], hops[0].end))
  }

  lemma {:induction false} SeamlessComposes(model: Model, x: Tensor, hops: seq<Shard>, pos: nat)
    requires Walk(model.total, hops, pos) && Seamless(hops, pos)
    ensures pos <= model.total && Compose(model, x, hops) == RunBlocks(model, x, pos, model.total)
    decreases |hops|
  {
    if hops != [] {
      var end := hops[0].end;
      SeamlessComposes(model, RunBlocks(model, x, pos, end), hops[1..], end);
      RunBlocksSplit(model, x, pos, end, model.total);
    }
  }

  /** The answer of one server that holds the whole model. */
  function FullAnswer(model: Model, ids: seq<u32>): Result<Response, RpcError> {
    Handle(model, Shard(0, model.total), FirstRequest(ids))
  }

  ghost predicate SameAsFull(model: Model, hops: seq<Shard>, ids: seq<u32>) {
    var r := Route(model, hops, FirstRequest(ids));
    r.Ok? && r.value != [] && Ok(r.value[|r.value| - 1]) == FullAnswer(model, ids)
  }

  /** A chain of shards that tile the model answers exactly as one full shard. */
  lemma SeamlessChainIsFull(model: Model, hops: seq<Shard>, ids: seq<u32>)
    requires WellBehaved(model) && model.total > 0 && Walk(model.total, hops, 0) && Seamless(hops, 0)
    ensures SameAsFull(model, hops, ids)
  {
    RouteComputes(model, hops, ids);
    SeamlessComposes(model, model.embed(ids), hops, 0);
    TokenIdsRoundTrip(ids, []);
  }

  // ── Which blocks run ──────────────────────────────────────────────────────

  /** The states a tensor goes through in blocks `start`, `start + 1`, … */
  ghost predicate Passes(model: Model, x: Tensor, start: nat, xs: seq<Tensor>) {
    && xs != [] && xs[0] == x
    && forall i :: 0 <= i < |xs| - 1 ==> xs[i + 1] == model.block(start + i, xs[i])
  }

  lemma {:induction false} RunBlocksPasses(model: Model, x: Tensor, start: nat, xs: seq<Tensor>)
    requires Passes(model, x, start, xs)
    ensures RunBlocks(model, x, start, start + |xs| - 1) == xs[|xs| - 1]
    decreases |xs|
  {
    if |xs| > 1 {
      var rest := xs[1..];
      forall i | 0 <= i < |rest| - 1
        ensures rest[i + 1] == model.block(start + 1 + i, rest[i])
      {
        assert xs[(i + 1) + 1] == model.block(start + (i + 1), xs[i + 1]);
      }
      RunBlocksPasses(model, model.block(start, x), start + 1, rest);
    }
  }

  /** What a shard does with a hidden state: it passes it through exactly its own
      blocks, in order, and applies the head exactly when its range ends the model. */
  lemma HopRunsItsBlocks(model: Model, shard: Shard, x: Tensor, xs: seq<Tensor>)
    requires WellBehaved(model) && Sendable(x) && shard.start <= shard.end
    requires Passes(model, x, shard.start, xs) && |xs| == shard.end - shard.start + 1
    ensures var result := xs[|xs| - 1];
            Handle(model, shard, Request(HiddenStates, TensorToBytes(x).0, TensorToBytes(x).1))
            == Ok(if shard.end == model.total then Respond(Logits, model.head(result)) else Respond(Hidden, result))
  {
    HandleHidden(model, shard, x);
    RunBlocksPasses(model, x, shard.start, xs);
  }

  /** The same for the first shard, from token ids. */
  lemma FirstHopRunsItsBlocks(model: Model, shard: Shard, ids: seq<u32>, xs: seq<Tensor>)
    requires shard.start == 0 && Passes(model, model.embed(ids), 0, xs) && |xs| == shard.end + 1
    ensures var result := xs[|xs| - 1];
            Handle(model, shard, FirstRequest(ids))
            == Ok(if shard.end == model.total then Respond(Logits, model.head(result)) else Respond(Hidden, result))
  {
    TokenIdsRoundTrip(ids, []);
    RunBlocksPasses(model, model.embed(ids), 0, xs);
  }

  /** A request is refused exactly when token ids reach a shard that is not the
      first, or the bytes do not make up the ids or the tensor announced. */
  lemma RefusedIff(model: Model, shard: Shard, req: Request)
    ensures Handle(model, shard, req).Err?
       <==> match req.payload
            case TokenIds => shard.start != 0 || |req.data| % 4 != 0
            case HiddenStates => |req.data| % 2 != 0 || Elements(req.shape) != |req.data| / 2
  {
    if |req.data| % 2 == 0 { WholeWords(req.data, 2); }
  }

  /** The numbers from `a` up to, not including, `b`. */
  function Numbers(a: nat, b: nat): (r: seq<nat>)
    requires a <= b
    ensures |r| == b - a && forall i :: 0 <= i < b - a ==> r[i] == a + i
  {
    seq(b - a, i requires 0 <= i => a + i)
  }

  /** A model whose blocks write their number down, as a dimension of an empty
      tensor. */
  function Recorder(total: nat): Model {
    Model(total, ids => Tensor([0], []),
          (i: nat, t: Tensor) => if t.data == [] && i < 0x1_0000_0000 then Tensor(t.shape + [i], t.data) else t,
          (t: Tensor) => t)
  }

  lemma RecorderWellBehaved(total: nat)
    ensures WellBehaved(Recorder(total))
  {
    assert [0][..0] == [];
    assert Elements([0]) == 0;
    forall i: nat, t: Tensor | Sendable(t)
      ensures Sendable(Recorder(total).block(i, t))
    {
      if t.data == [] && i < 0x1_0000_0000 {
        assert (t.shape + [i])[..|t.shape|] == t.shape;
      }
    }
  }

  lemma {:induction false} RecorderRuns(total: nat, x: Tensor, start: nat, end: nat)
    requires start <= end <= total <= 0x1_0000_0000 && x.data == []
    ensures RunBlocks(Recorder(total), x, start, end) == Tensor(x.shape + Numbers(start, end), [])
    decreases end - start
  {
    if start < end {
      RecorderRuns(total, Recorder(total).block(start, x), start + 1, end);
      assert x.shape + [start] + Numbers(start + 1, end) == x.shape + Numbers(start, end);
    } else {
      assert x.shape + Numbers(start, end) == x.shape;
    }
  }

  /** The blocks the hops hold, hop by hop. */
  function BlocksOf(total: nat, hops: seq<Shard>): seq<nat>
    requires forall k :: 0 <= k < |hops| ==> Loadable(total, hops[k])
  {
    if hops == [] then []
    else
      assert Loadable(total, hops[0]);
      Numbers(hops[0].start, hops[0].end) + BlocksOf(total, hops[1..])
  }

  lemma {:induction false} WalkLoadable(total: nat, hops: seq<Shard>, pos: nat)
    requires Walk(total, hops, pos)
    ensures forall k :: 0 <= k < |hops| ==> Loadable(total, hops[k])
    decreases |hops|
  {
    if hops != [] {
      WalkLoadable(total, hops[1..], hops[0].end);
      forall k | 0 <= k < |hops|
        ensures Loadable(total, hops[k])
      {
        if k > 0 { assert hops[k] == hops[1..][k - 1]; }
      }
    }
  }

  lemma {:induction false} RecorderComposes(total: nat, x: Tensor, hops: seq<Shard>, pos: nat)
    requires Walk(total, hops, pos) && total <= 0x1_0000_0000 && x.data == []
    requires forall k :: 0 <= k < |hops| ==> Loadable(total, hops[k])
    ensures Compose(Recorder(total), x, hops) == Tensor(x.shape + BlocksOf(total, hops), [])
    decreases |hops|
  {
    if hops == [] {
      assert x.shape + [] == x.shape;
    } else {
      var own := Numbers(hops[0].start, hops[0].end);
      RecorderRuns(total, x, hops[0].start, hops[0].end);
      RecorderComposes(total, Tensor(x.shape + own, []), hops[1..], hops[0].end);
      assert x.shape + own + BlocksOf(total, hops[1..]) == x.shape + (own + BlocksOf(total, hops[1..]));
    }
  }

  lemma {:induction false} TilesIffNumbers(total: nat, hops: seq<Shard>, pos: nat)
    requires Walk(total, hops, pos) && pos <= total
    requires forall k :: 0 <= k < |hops| ==> Loadable(total, hops[k])
    ensures BlocksOf(total, hops) == Numbers(pos, total) <==> Seamless(hops, pos)
    ensures |BlocksOf(total, hops)| >= total - pos
    decreases |hops|
  {
    if hops != [] {
      var end := hops[0].end;
      var own, rest := Numbers(hops[0].start, end), BlocksOf(total, hops[1..]);
      TilesIffNumbers(total, hops[1..], end);
      if BlocksOf(total, hops) == Numbers(pos, total) {
        assert (own + rest)[0] == hops[0].start;
        assert rest == Numbers(pos, total)[|own|..];
        assert rest == Numbers(end, total);
      }
      if Seamless(hops, pos) {
        assert own + rest == Numbers(pos, total);
      }
    }
  }

  /** On that model a walk's answer lists the blocks its hops hold, hop by hop; it is
      0, 1, …, total - 1 exactly when the hops tile the blocks. */
  lemma WalkRunsTheseBlocks(total: nat, hops: seq<Shard>, ids: seq<u32>)
    requires 0 < total <= 0x1_0000_0000 && Walk(total, hops, 0)
    ensures forall k :: 0 <= k < |hops| ==> Loadable(total, hops[k])
    ensures var r := Route(Recorder(total), hops, FirstRequest(ids));
            && r.Ok? && LastOf(r.value) == Some(Respond(Logits, Tensor([0] + BlocksOf(total, hops), [])))
    ensures BlocksOf(total, hops) == Numbers(0, total) <==> Seamless(hops, 0)
  {
    WalkLoadable(total, hops, 0);
    RecorderWellBehaved(total);
    RouteComputes(Recorder(total), hops, ids);
    RecorderComposes(total, Tensor([0], []), hops, 0);
    TilesIffNumbers(total, hops, 0);
  }

  // ── Overlapping shards ────────────────────────────────────────────────────

  /** A model that counts block applications in the rank of its tensors. */
  function Counter(total: nat): Model {
    Model(total, ids => Tensor([], [0]), (i, t: Tensor) => Tensor(t.shape + [1], t.data), (t: Tensor) => t)
  }

  lemma CounterWellBehaved(total: nat)
    ensures WellBehaved(Counter(total))
  {
    assert Elements([]) == 1;
    forall i, t: Tensor | Sendable(t)
      ensures Sendable(Counter(total).block(i, t))
    {
      assert (t.shape + [1])[..|t.shape|] == t.shape;
    }
  }

  lemma {:induction false} CounterCounts(total: nat, x: Tensor, start: nat, end: nat)
    requires start <= end
    ensures |RunBlocks(Counter(total), x, start, end).shape| == |x.shape| + (end - start)
    decreases end - start
  {
    if start < end { CounterCounts(total, Counter(total).block(start, x), start + 1, end); }
  }

  lemma {:induction false} OverlapCounts(total: nat, x: Tensor, hops: seq<Shard>, pos: nat)
    requires Walk(total, hops, pos)
    ensures |Compose(Counter(total), x, hops).shape| >= |x.shape| + (total - pos)
    ensures !Seamless(hops, pos) ==> |Compose(Counter(total), x, hops).shape| > |x.shape| + (total - pos)
    decreases |hops|
  {
    if hops != [] {
      var y := RunBlocks(Counter(total), x, hops[0].start, hops[0].end);
      CounterCounts(total, x, hops[0].start, hops[0].end);
      OverlapCounts(total, y, hops[1..], hops[0].end);
    }
  }

  /** A walk in which some server starts before the position it was picked for
      runs the blocks in between twice: there is a model on which its answer is
      not that of one full shard. Together with SeamlessChainIsFull: a walk is
      right for every model exactly when its hops tile the blocks. */
  lemma OverlapIsWrong(total: nat, hops: seq<Shard>, ids: seq<u32>)
    requires total > 0 && Walk(total, hops, 0) && !Seamless(hops, 0)
    ensures WellBehaved(Counter(total)) && !SameAsFull(Counter(total), hops, ids)
  {
    var model := Counter(total);
    CounterWellBehaved(total);
    RouteComputes(model, hops, ids);
    var x := model.embed(ids);
    OverlapCounts(total, x, hops, 0);
    CounterCounts(total, x, 0, total);
    TokenIdsRoundTrip(ids, []);
    var chained, full := Compose(model, x, hops), RunBlocks(model, x, 0, total);
    assert |Respond(Logits, chained).shape| != |Respond(Logits, full).shape|;
  }

  /** A walk is right on every model exactly when its hops tile the blocks. */
  lemma WalkIsRightIff(total: nat, hops: seq<Shard>, ids: seq<u32>)
    requires total > 0 && Walk(total, hops, 0)
    ensures (forall model: Model :: WellBehaved(model) && model.total == total ==> SameAsFull(model, hops, ids))
       <==> Seamless(hops, 0)
  {
    if Seamless(hops, 0) {
      forall model: Model | WellBehaved(model) && model.total == total
        ensures SameAsFull(model, hops, ids)
      {
        SeamlessChainIsFull(model, hops, ids);
      }
    } else {
      OverlapIsWrong(total, hops, ids);
    }
  }
}
