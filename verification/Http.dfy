/** The HTTP request reader of the local proxy: two read loops over a TCP
    stream, then a parser. */
module Http {
  import opened Bytes
  import opened Text

  const BUFFER: nat := 16 * 1024

  const CRLFCRLF: seq<byte> := [13, 10, 13, 10]

  // ── UTF-8 ─────────────────────────────────────────────────────────────────

  predicate Continuation(b: byte) {
    0x80 <= b < 0xC0
  }

  function Low6(b: byte): int {
    b % 0x40
  }

  /** The first scalar value and the bytes it takes (`std::str::from_utf8`). */
  function DecodeScalar(bs: seq<byte>): (r: Option<(char, nat)>)
    requires bs != []
    ensures r.Some? ==> 0 < r.value.1 <= |bs|
  {
    var b0 := bs[0];
    if b0 < 0x80 then Some((b0 as char, 1))
    else if |bs| >= 2 && 0xC2 <= b0 < 0xE0 && Continuation(bs[1]) then
      Some((((b0 as int - 0xC0) * 0x40 + Low6(bs[1])) as char, 2))
    else if |bs| >= 3 && 0xE0 <= b0 < 0xF0 && Continuation(bs[1]) && Continuation(bs[2])
            && (b0 == 0xE0 ==> bs[1] >= 0xA0) && (b0 == 0xED ==> bs[1] < 0xA0) then
      Some((((b0 as int - 0xE0) * 0x1000 + Low6(bs[1]) * 0x40 + Low6(bs[2])) as char, 3))
    else if |bs| >= 4 && 0xF0 <= b0 < 0xF5 && Continuation(bs[1]) && Continuation(bs[2]) && Continuation(bs[3])
            && (b0 == 0xF0 ==> bs[1] >= 0x90) && (b0 == 0xF4 ==> bs[1] < 0x90) then
      Some((((b0 as int - 0xF0) * 0x4_0000 + Low6(bs[1]) * 0x1000 + Low6(bs[2]) * 0x40 + Low6(bs[3])) as char, 4))
    else None
  }

  function DecodeUtf8(bs: seq<byte>): Option<string>
    decreases |bs|
  {
    if bs == [] then Some("")
    else
      match DecodeScalar(bs)
      case None => None
      case Some((c, n)) =>
        match DecodeUtf8(bs[n..])
        case None => None
        case Some(rest) => Some([c] + rest)
  }

  // ── The request head ──────────────────────────────────────────────────────

  /** Position of the first blank line. */
  function HeaderEnd(buf: seq<byte>): (r: Option<nat>)
    ensures r.Some? ==> r.value + 4 <= |buf|
  {
    if |buf| < 4 then None
    else if buf[..4] == CRLFCRLF then Some(0)
    else
      match HeaderEnd(buf[1..])
      case None => None
      case Some(i) => Some(i + 1)
  }

  function StripCarriageReturn(line: string): string {
    if line != "" && line[|line| - 1] == '\r' then line[..|line| - 1] else line
  }

  /** `str::lines`. */
  function Lines(s: string): seq<string>
    decreases |s|
  {
    if s == "" then []
    else
      match Find(s, '\n')
      case None => [s]
      case Some(i) => [StripCarriageReturn(s[..i])] + Lines(s[i + 1..])
  }

  predicate IsWhitespace(c: char) {
    var n := c as int;
    || 9 <= n <= 13 || n == 0x20 || n == 0x85 || n == 0xA0 || n == 0x1680 || 0x2000 <= n <= 0x200A
    || n == 0x2028 || n == 0x2029 || n == 0x202F || n == 0x205F || n == 0x3000
  }

  /** `str::trim`. */
  function Trim(s: string): string
    decreases |s|
  {
    if s == "" then ""
    else if IsWhitespace(s[0]) then Trim(s[1..])
    else if IsWhitespace(s[|s| - 1]) then Trim(s[..|s| - 1])
    else s
  }

  predicate IsContentLength(line: string) {
    StartsWith(ToAsciiLowercase(line), "content-length:")
  }

  function HeaderValue(line: string): Option<nat> {
    match Find(line, ':')
    case None => None
    case Some(i) => ParseUsize(Trim(line[i + 1..]))
  }

  /** The first matching line decides, and anything unreadable counts as 0. */
  function LengthFromLines(lines: seq<string>): nat {
    if lines == [] then 0
    else if IsContentLength(lines[0]) then
      match HeaderValue(lines[0])
      case None => 0
      case Some(n) => n
    else LengthFromLines(lines[1..])
  }

  function ContentLength(head: seq<byte>): nat {
    match DecodeUtf8(head)
    case None => 0
    case Some(text) => LengthFromLines(Lines(text))
  }

  /** Where the request ends according to its head, on 64-bit `usize`. */
  function Total(buf: seq<byte>, headerEnd: nat): nat
    requires headerEnd + 4 <= |buf|
  {
    WrapUsize(headerEnd + 4 + ContentLength(buf[..headerEnd]))
  }

  datatype Request = Request(verb: string, path: string, body: seq<byte>)

  function ParseRequestLine(line: string): Option<(string, string)> {
    match Find(line, ' ')
    case None => None
    case Some(i) =>
      var rest := line[i + 1..];
      match Find(rest, ' ')
      case None => Some((line[..i], rest))
      case Some(j) => Some((line[..i], rest[..j]))
  }

  /** `parse_http_request`. */
  function ParseRequest(raw: seq<byte>): (r: Option<Request>)
    ensures r.Some? ==> HeaderEnd(raw).Some? && r.value.body == raw[HeaderEnd(raw).value + 4..]
  {
    match HeaderEnd(raw)
    case None => None
    case Some(sep) =>
      match DecodeUtf8(raw[..sep])
      case None => None
      case Some(text) =>
        var lines := Lines(text);
        if lines == [] then None
        else
          match ParseRequestLine(lines[0])
          case None => None
          case Some((verb, path)) => Some(Request(verb, path, raw[sep + 4..]))
  }

  /** A request is refused exactly when it has no blank line, its head is not UTF-8 or
      empty, or its first line holds no space. */
  lemma RefusedIff(raw: seq<byte>)
    ensures ParseRequest(raw).None?
       <==> || HeaderEnd(raw).None?
            || var head := DecodeUtf8(raw[..HeaderEnd(raw).value]);
               head.None? || Lines(head.value) == [] || ' ' !in Lines(head.value)[0]
  {
  }

  /** The version is optional: two words are enough, and one is not. */
  lemma TwoWords(verb: string, path: string)
    requires ' ' !in verb && ' ' !in path
    ensures ParseRequestLine(verb + " " + path) == Some((verb, path)) && ParseRequestLine(verb) == None
  {
    var line := verb + " " + path;
    assert line[..|verb|] == verb && line[|verb| + 1..] == path;
    FindFirst(line, ' ', |verb|);
  }

  lemma {:induction false} HeaderEndOfPrefix(buf: seq<byte>, n: nat)
    requires n <= |buf|
    ensures HeaderEnd(buf[..n])
         == if HeaderEnd(buf).Some? && HeaderEnd(buf).value + 4 <= n then HeaderEnd(buf) else None
  {
    if n >= 4 {
      assert buf[..n][..4] == buf[..4];
      if buf[..4] != CRLFCRLF {
        HeaderEndOfPrefix(buf[1..], n - 1);
        assert buf[..n][1..] == buf[1..][..n - 1];
      }
    }
  }

  // ── Reading ───────────────────────────────────────────────────────────────

  datatype ReadResult = Data(bytes: seq<byte>) | Eof | TimedOut | Failed

  /** A connection on which the client sends `input` and then closes its half.
      Reads return any non-empty piece the buffer admits; an unreliable one may
      also fail or time out. */
  class TcpStream {
    const input: seq<byte>
    const reliable: bool
    var pos: nat

    constructor (input: seq<byte>, reliable: bool)
      ensures pos == 0 && this.input == input && this.reliable == reliable
    {
      this.input := input;
      this.reliable := reliable;
      pos := 0;
    }

    method Read(limit: nat) returns (r: ReadResult)
      requires pos <= |input| && limit > 0
      modifies this
      ensures pos <= |input|
      ensures match r
              case Data(bytes) =>
                0 < |bytes| <= limit && pos == old(pos) + |bytes| && bytes == input[old(pos)..pos]
              case Eof => old(pos) == |input| && pos == old(pos)
              case TimedOut => !reliable && pos == old(pos)
              case Failed => !reliable && pos == old(pos)
    {
      if pos == |input| {
        return Eof;
      }
      if !reliable {
        if * { return TimedOut; }
        if * { return Failed; }
      }
      var most := if |input| - pos < limit then |input| - pos else limit;
      assert 1 <= most;
      var n :| 1 <= n <= most;
      r := Data(input[pos..pos + n]);
      pos := pos + n;
    }
  }

  /** All that matters for reading: the length of the stream, where the blank
      line is, and where the request ends. */
  datatype Shape = Shape(size: nat, head: Option<nat>, total: nat)

  function ShapeOf(input: seq<byte>): (shape: Shape)
    ensures shape.size == |input| && shape.head == HeaderEnd(input)
    ensures shape.head.Some? ==> shape.total == Total(input, shape.head.value)
  {
    match HeaderEnd(input)
    case None => Shape(|input|, None, 0)
    case Some(h) => Shape(|input|, Some(h), Total(input, h))
  }

  /** How much the loops ask for once `have` bytes are buffered; 0 when they stop. */
  function Want(shape: Shape, have: nat): nat {
    if shape.head.None? || have < shape.head.value + 4 then BUFFER
    else if have < shape.total then (if shape.total - have < BUFFER then shape.total - have else BUFFER)
    else 0
  }

  ghost predicate OneRead(shape: Shape, from: nat, to: nat) {
    from < to <= shape.size && to - from <= Want(shape, from)
  }

  /** `cuts` lists the buffer lengths after each read of some chunking. */
  ghost predicate Chunking(shape: Shape, cuts: seq<nat>) {
    && cuts != [] && cuts[0] == 0
    && forall i :: 0 <= i < |cuts| - 1 ==> OneRead(shape, cuts[i], cuts[i + 1])
  }

  /** The loops have stopped: enough was read, or the stream ended. */
  ghost predicate Complete(shape: Shape, cuts: seq<nat>)
    requires cuts != []
  {
    var have := cuts[|cuts| - 1];
    have <= shape.size && (Want(shape, have) == 0 || have == shape.size)
  }

  lemma ExtendChunking(shape: Shape, cuts: seq<nat>, to: nat)
    requires Chunking(shape, cuts) && OneRead(shape, cuts[|cuts| - 1], to)
    ensures Chunking(shape, cuts + [to])
  {
  }

  datatype Received = Closed | Buffered(buf: seq<byte>)

  /** The buffer holds the beginning of the stream, read in the pieces `cuts` lists. */
  ghost predicate ReadSoFar(stream: TcpStream, buf: seq<byte>, cuts: seq<nat>)
    reads stream
  {
    && stream.pos == |buf| <= |stream.input| && buf == stream.input[..|buf|]
    && Chunking(ShapeOf(stream.input), cuts) && cuts[|cuts| - 1] == |buf|
  }

  /** The first loop: read until the blank line is there. */
  method ReadHead(stream: TcpStream) returns (r: Received, headerEnd: nat, ghost cuts: seq<nat>)
    requires stream.pos == 0
    modifies stream
    ensures Chunking(ShapeOf(stream.input), cuts)
    ensures r.Buffered? ==> ReadSoFar(stream, r.buf, cuts)
    ensures r.Buffered? ==> HeaderEnd(stream.input) == Some(headerEnd) && headerEnd + 4 <= |r.buf|
    ensures stream.reliable && r.Closed? ==> HeaderEnd(stream.input).None?
  {
    ghost var input := stream.input;
    var buf: seq<byte> := [];
    cuts := [0];
    while HeaderEnd(buf).None?
      invariant ReadSoFar(stream, buf, cuts)
      decreases |input| - |buf|
    {
      HeaderEndOfPrefix(input, |buf|);
      assert input[..|input|] == input;
      var got := stream.Read(BUFFER);
      if !got.Data? {
        return Closed, 0, cuts;
      }
      ExtendChunking(ShapeOf(input), cuts, stream.pos);
      buf := buf + got.bytes;
      cuts := cuts + [stream.pos];
    }
    HeaderEndOfPrefix(input, |buf|);
    return Buffered(buf), HeaderEnd(buf).value, cuts;
  }

  /** The second loop: read until the announced total is there. */
  method ReadRest(stream: TcpStream, head: seq<byte>, total: nat, ghost before: seq<nat>)
    returns (r: Received, ghost cuts: seq<nat>)
    requires ReadSoFar(stream, head, before)
    requires HeaderEnd(stream.input).Some? && HeaderEnd(stream.input).value + 4 <= |head|
    requires total == Total(stream.input, HeaderEnd(stream.input).value)
    modifies stream
    ensures Chunking(ShapeOf(stream.input), cuts)
    ensures r.Buffered? ==> ReadSoFar(stream, r.buf, cuts) && |head| <= |r.buf|
    ensures stream.reliable ==> r.Buffered? && Complete(ShapeOf(stream.input), cuts)
  {
    ghost var input := stream.input;
    var buf := head;
    cuts := before;
    while |buf| < total
      invariant ReadSoFar(stream, buf, cuts) && |head| <= |buf|
      decreases |input| - |buf|
    {
      var want := if total - |buf| < BUFFER then total - |buf| else BUFFER;
      var got := stream.Read(want);
      match got {
        case Data(bytes) =>
          ExtendChunking(ShapeOf(input), cuts, stream.pos);
          buf := buf + bytes;
          cuts := cuts + [stream.pos];
        case Eof => break;
        case TimedOut => break;
        case Failed => return Closed, cuts;
      }
    }
    return Buffered(buf), cuts;
  }

  lemma SameTotal(input: seq<byte>, buf: seq<byte>, h: nat)
    requires |buf| <= |input| && buf == input[..|buf|] && h + 4 <= |buf|
    ensures Total(buf, h) == Total(input, h)
  {
    assert buf[..h] == input[..h];
  }

  /** The two read loops. A stream that ends or fails before the blank line is
      abandoned; one that ends in the body is taken as it is. */
  method ReadRequest(stream: TcpStream) returns (r: Received, ghost cuts: seq<nat>)
    requires stream.pos == 0
    modifies stream
    ensures Chunking(ShapeOf(stream.input), cuts)
    ensures r.Buffered? ==> cuts[|cuts| - 1] == |r.buf| <= |stream.input| && r.buf == stream.input[..|r.buf|]
    ensures r.Buffered? ==> HeaderEnd(stream.input).Some? && HeaderEnd(stream.input).value + 4 <= |r.buf|
    ensures stream.reliable && r.Buffered? ==> Complete(ShapeOf(stream.input), cuts)
    ensures stream.reliable ==> (r.Closed? <==> HeaderEnd(stream.input).None?)
  {
    var headerEnd;
    r, headerEnd, cuts := ReadHead(stream);
    if r.Closed? {
      return;
    }
    SameTotal(stream.input, r.buf, headerEnd);
    r, cuts := ReadRest(stream, r.buf, Total(r.buf, headerEnd), cuts);
  }

  // ── Chunking does not matter, and exactly when ────────────────────────────

  /** Where the request ends for the loops: never before the blank line does, even
      when the announced total wraps around to something smaller. */
  function End(shape: Shape): nat
    requires shape.head.Some?
  {
    if shape.total <= shape.head.value + 4 then shape.head.value + 4 else shape.total
  }

  /** What the loops always read. */
  function Needed(shape: Shape): nat
    requires shape.head.Some?
  {
    if End(shape) <= shape.size then End(shape) else shape.size
  }

  /** The blank line is in the stream. */
  ghost predicate Proper(shape: Shape) {
    shape.head.Some? && shape.head.value + 4 <= shape.size
  }

  /** No chunking reads past both the end of the request and the last buffer
      that the blank line can end in. */
  lemma {:induction false} CutBound(shape: Shape, cuts: seq<nat>, i: nat)
    requires shape.head.Some? && Chunking(shape, cuts) && i < |cuts|
    ensures cuts[i] <= shape.size
    ensures cuts[i] <= shape.head.value + 3 + BUFFER || cuts[i] <= shape.total
  {
    if i > 0 {
      CutBound(shape, cuts, i - 1);
      assert OneRead(shape, cuts[i - 1], cuts[i]);
    }
  }

  /** One byte per read, up to `n`. */
  function ByteByByte(n: nat): (cuts: seq<nat>)
    ensures |cuts| == n + 1 && forall i :: 0 <= i <= n ==> cuts[i] == i
  {
    seq(n + 1, i requires 0 <= i => i)
  }

  lemma ByteByByteIsChunking(shape: Shape, n: nat)
    requires n <= shape.size && forall i :: 0 <= i < n ==> Want(shape, i) > 0
    ensures Chunking(shape, ByteByByte(n))
  {
    var cuts := ByteByByte(n);
    forall i | 0 <= i < |cuts| - 1
      ensures OneRead(shape, cuts[i], cuts[i + 1])
    {
      assert Want(shape, i) > 0;
    }
  }

  /** The buffer is the same for every chunking. */
  ghost predicate ChunkingIndependent(shape: Shape) {
    forall a: seq<nat>, b: seq<nat> ::
      Chunking(shape, a) && Complete(shape, a) && Chunking(shape, b) && Complete(shape, b)
      ==> a[|a| - 1] == b[|b| - 1]
  }

  lemma WholeRequestIsRead(shape: Shape, cuts: seq<nat>)
    requires Proper(shape) && (shape.size <= End(shape) || shape.head.value + 3 + BUFFER <= End(shape))
    requires Chunking(shape, cuts) && Complete(shape, cuts)
    ensures cuts[|cuts| - 1] == Needed(shape)
  {
    CutBound(shape, cuts, |cuts| - 1);
  }

  /** Two chunkings that disagree: byte by byte, and one large last read. */
  lemma SurplusDependsOnChunking(shape: Shape)
    requires Proper(shape) && End(shape) < shape.size && End(shape) < shape.head.value + 3 + BUFFER
    ensures !ChunkingIndependent(shape)
  {
    var h := shape.head.value;
    var a := ByteByByte(End(shape));
    ByteByByteIsChunking(shape, End(shape));
    var slow := ByteByByte(h + 3);
    ByteByByteIsChunking(shape, h + 3);
    var last := if shape.size < h + 3 + BUFFER then shape.size else h + 3 + BUFFER;
    ExtendChunking(shape, slow, last);
    var b := slow + [last];
    assert Complete(shape, a) && Complete(shape, b);
    assert a[|a| - 1] < b[|b| - 1];
  }

  lemma ShapeIndependentIff(shape: Shape)
    requires Proper(shape)
    ensures ChunkingIndependent(shape)
       <==> shape.size <= End(shape) || shape.head.value + 3 + BUFFER <= End(shape)
  {
    if shape.size <= End(shape) || shape.head.value + 3 + BUFFER <= End(shape) {
      forall a: seq<nat>, b: seq<nat> |
        Chunking(shape, a) && Complete(shape, a) && Chunking(shape, b) && Complete(shape, b)
        ensures a[|a| - 1] == b[|b| - 1]
      {
        WholeRequestIsRead(shape, a);
        WholeRequestIsRead(shape, b);
      }
    } else {
      SurplusDependsOnChunking(shape);
    }
  }

  lemma {:induction false} LengthBound(lines: seq<string>)
    ensures LengthFromLines(lines) < USIZE
  {
    if lines != [] { LengthBound(lines[1..]); }
  }

  lemma ContentLengthBound(head: seq<byte>)
    ensures ContentLength(head) < USIZE
  {
    var text := DecodeUtf8(head);
    if text.Some? { LengthBound(Lines(text.value)); }
  }

  lemma WrapOnce(n: nat)
    requires USIZE <= n < 2 * USIZE
    ensures WrapUsize(n) == n - USIZE
  {
  }

  /** How many body bytes the loops wait for: the announced length, or none when
      the total wraps past 64 bits. */
  function AwaitedBody(h: nat, length: nat): nat {
    if h + 4 + length < USIZE then length else 0
  }

  lemma EndKnown(input: seq<byte>, h: nat)
    requires HeaderEnd(input) == Some(h) && h + 4 <= USIZE
    ensures End(ShapeOf(input)) == h + 4 + AwaitedBody(h, ContentLength(input[..h]))
  {
    var length := ContentLength(input[..h]);
    ContentLengthBound(input[..h]);
    if h + 4 + length < USIZE {
      ShapeKnown(input, h, length);
    } else {
      WrapOnce(h + 4 + length);
    }
  }

  /** The buffer, and so the request, is independent of the chunking exactly when
      nothing follows what the loops wait for, or that is a body of at least 16383
      bytes (then no single read can reach past it). A head of 2^64 bytes does not
      fit in memory. */
  lemma IndependentIff(input: seq<byte>, h: nat)
    requires HeaderEnd(input) == Some(h) && h + 4 <= USIZE
    ensures var body := AwaitedBody(h, ContentLength(input[..h]));
            ChunkingIndependent(ShapeOf(input)) <==> |input| <= h + 4 + body || body >= 16383
  {
    EndKnown(input, h);
    ShapeIndependentIff(ShapeOf(input));
  }

  lemma TotalKnown(input: seq<byte>, h: nat, length: nat)
    requires h + 4 <= |input| && length == ContentLength(input[..h]) && h + 4 + length < USIZE
    ensures Total(input, h) == h + 4 + length
  {
    WrapUsizeSmall(h + 4 + length);
  }

  lemma ShapeKnown(input: seq<byte>, h: nat, length: nat)
    requires HeaderEnd(input) == Some(h) && length == ContentLength(input[..h]) && h + 4 + length < USIZE
    ensures ShapeOf(input) == Shape(|input|, Some(h), h + 4 + length)
  {
    TotalKnown(input, h, length);
  }

  /** A connection that carries exactly one complete request: whatever the
      chunking, the handler parses the same request as on the whole byte string,
      and its body has the announced length. */
  method ReceiveRequest(stream: TcpStream) returns (r: Received, parsed: Option<Request>)
    requires stream.pos == 0
    modifies stream
    ensures var input := stream.input;
            stream.reliable && HeaderEnd(input).Some?
            && |input| == HeaderEnd(input).value + 4 + ContentLength(input[..HeaderEnd(input).value])
            && |input| < USIZE ==>
              && r == Buffered(input)
              && parsed == ParseRequest(input)
              && (parsed.Some? ==> |parsed.value.body| == ContentLength(input[..HeaderEnd(input).value]))
    ensures r.Buffered? ==> parsed == ParseRequest(r.buf)
    ensures r.Closed? ==> parsed == None
    ensures stream.reliable ==> (r.Closed? <==> HeaderEnd(stream.input).None?)
  {
    ghost var cuts;
    r, cuts := ReadRequest(stream);
    parsed := if r.Buffered? then ParseRequest(r.buf) else None;
    ghost var input := stream.input;
    if stream.reliable && HeaderEnd(input).Some?
       && |input| == HeaderEnd(input).value + 4 + ContentLength(input[..HeaderEnd(input).value])
       && |input| < USIZE
    {
      ShapeKnown(input, HeaderEnd(input).value, ContentLength(input[..HeaderEnd(input).value]));
      WholeRequestIsRead(ShapeOf(input), cuts);
      assert |r.buf| == |input|;
      assert input[..|input|] == input;
    }
  }
}
