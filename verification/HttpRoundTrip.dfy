/** Rendering a request and reading it back through the proxy's reader. */
module HttpRoundTrip {
  import opened Bytes
  import opened Text
  import opened Http
  import opened Utf8

  /** Text without the given separators of the request line, on one line. */
  predicate IsWord(word: string) {
    ' ' !in word && '\r' !in word && '\n' !in word
  }

  /** Any header line. */
  predicate IsHeader(line: string) {
    line != "" && '\r' !in line && '\n' !in line
  }

  predicate AreHeaders(lines: seq<string>) {
    forall i :: 0 <= i < |lines| ==> IsHeader(lines[i])
  }

  function RequestLine(verb: string, path: string): string {
    verb + " " + path + " HTTP/1.1"
  }

  /** Spaces and the like around a value. */
  predicate IsPadding(pad: string) {
    forall i :: 0 <= i < |pad| ==> IsWhitespace(pad[i]) && pad[i] != '\r' && pad[i] != '\n'
  }

  /** How a client announces the length: the name in any case, any padding. */
  datatype Style = Style(name: string, left: string, right: string)

  predicate IsStyle(style: Style) {
    ToAsciiLowercase(style.name) == "content-length" && IsPadding(style.left) && IsPadding(style.right)
  }

  function LengthLine(style: Style, n: nat): string {
    style.name + ":" + style.left + Print(n) + style.right
  }

  function Join(lines: seq<string>): string {
    if lines == [] then ""
    else if |lines| == 1 then lines[0]
    else lines[0] + "\r\n" + Join(lines[1..])
  }

  /** A request with any other headers before and after its length; one without a
      body need not announce it. */
  datatype Message = Message(
    verb: string, path: string, before: seq<string>, length: Option<Style>, after: seq<string>, body: seq<byte>)

  predicate NoLengthAmong(lines: seq<string>) {
    forall i :: 0 <= i < |lines| ==> !IsContentLength(lines[i])
  }

  /** Nothing before the length line claims to be one, and nothing at all if there is
      none. */
  predicate WellFormed(m: Message) {
    && IsWord(m.verb) && IsWord(m.path) && AreHeaders(m.before) && AreHeaders(m.after)
    && !IsContentLength(RequestLine(m.verb, m.path)) && NoLengthAmong(m.before)
    && match m.length
       case Some(style) => IsStyle(style)
       case None => m.body == [] && NoLengthAmong(m.after)
  }

  function LengthLines(m: Message): seq<string> {
    match m.length
    case Some(style) => [LengthLine(style, |m.body|)]
    case None => []
  }

  /** The lines of the head. */
  function HeadLines(m: Message): seq<string> {
    [RequestLine(m.verb, m.path)] + m.before + LengthLines(m) + m.after
  }

  function Head(m: Message): string {
    Join(HeadLines(m))
  }

  lemma LengthLineIsHeader(style: Style, n: nat)
    requires IsStyle(style)
    ensures IsHeader(LengthLine(style, n))
  {
    var digits, name := Print(n), style.name;
    assert forall i :: 0 <= i < |digits| ==> IsDigit(digits[i]);
    NameIsClean(name);
  }

  lemma NameIsClean(name: string)
    requires ToAsciiLowercase(name) == "content-length"
    ensures |name| == 14 && '\r' !in name && '\n' !in name && ':' !in name
  {
    var lower := ToAsciiLowercase(name);
    forall i | 0 <= i < |name|
      ensures name[i] != '\r' && name[i] != '\n' && name[i] != ':'
    {
      assert lower[i] == Lower(name[i]);
      assert lower[i] == '-' || 'a' <= lower[i] <= 'z';
    }
  }

  lemma HeadLinesAreHeaders(m: Message)
    requires WellFormed(m)
    ensures AreHeaders(HeadLines(m))
  {
    if m.length.Some? { LengthLineIsHeader(m.length.value, |m.body|); }
    assert AreHeaders(LengthLines(m));
    assert IsHeader(RequestLine(m.verb, m.path));
  }

  function Render(m: Message): seq<byte> {
    Encode(Head(m)) + CRLFCRLF + m.body
  }

  // ── Finding the blank line ────────────────────────────────────────────────

  lemma {:induction false} HeaderEndAt(buf: seq<byte>, h: nat)
    requires h + 4 <= |buf| && buf[h..h + 4] == CRLFCRLF
    requires forall i :: 0 <= i < h ==> buf[i] != 13 || buf[i + 2] != 13
    ensures HeaderEnd(buf) == Some(h)
  {
    if h > 0 {
      assert buf[..4][0] == buf[0] && buf[..4][2] == buf[2];
      assert CRLFCRLF[0] == 13 && CRLFCRLF[2] == 13;
      assert buf[1..][h - 1..h + 3] == buf[h..h + 4];
      forall i | 0 <= i < h - 1
        ensures buf[1..][i] != 13 || buf[1..][i + 2] != 13
      {
        assert buf[i + 1] != 13 || buf[i + 3] != 13;
      }
      HeaderEndAt(buf[1..], h - 1);
    } else {
      assert buf[0..4] == buf[..4];
    }
  }

  lemma EncodeJoin(line: string, rest: string)
    ensures Encode(line + "\r\n" + rest) == Encode(line) + [13, 10] + Encode(rest)
  {
    EncodeAppend(line + "\r\n", rest);
    EncodeAppend(line, "\r\n");
    var end := "\r\n";
    assert end[1..] == "\n" && end[1..][1..] == "";
    assert Encode(end) == [13] + ([10] + []);
  }

  lemma LineHasNoReturn(line: string)
    requires IsHeader(line)
    ensures 13 !in Encode(line)
  {
    if 13 in Encode(line) { AsciiStays(line, 13); }
  }

  /** Two bytes after a carriage return in the head, a line starts. */
  lemma {:induction false} JoinReturns(lines: seq<string>, i: nat)
    requires AreHeaders(lines) && i < |Encode(Join(lines))| && Encode(Join(lines))[i] == 13
    ensures i + 2 < |Encode(Join(lines))| && Encode(Join(lines))[i + 2] != 13
    decreases |lines|
  {
    LineHasNoReturn(lines[0]);
    if |lines| > 1 {
      var rest := Join(lines[1..]);
      EncodeJoin(lines[0], rest);
      var l := |Encode(lines[0])|;
      assert i >= l;
      if i == l {
        JoinStarts(lines[1..]);
        assert Encode(Join(lines))[i + 2] == Encode(rest)[0];
      } else {
        assert Encode(rest)[i - l - 2] == 13;
        JoinReturns(lines[1..], i - l - 2);
      }
    }
  }

  lemma JoinStarts(lines: seq<string>)
    requires AreHeaders(lines) && lines != []
    ensures Encode(Join(lines)) != [] && Encode(Join(lines))[0] != 13
  {
    assert IsHeader(lines[0]);
    assert Join(lines) != "" && Join(lines)[0] == lines[0][0];
    FirstByte(Join(lines));
  }

  lemma RenderHeaderEnd(m: Message)
    requires WellFormed(m)
    ensures HeaderEnd(Render(m)) == Some(|Encode(Head(m))|)
  {
    var buf, head := Render(m), Encode(Head(m));
    HeadLinesAreHeaders(m);
    assert buf[|head|..|head| + 4] == CRLFCRLF;
    forall i | 0 <= i < |head|
      ensures buf[i] != 13 || buf[i + 2] != 13
    {
      if head[i] == 13 { JoinReturns(HeadLines(m), i); }
    }
    HeaderEndAt(buf, |head|);
  }

  // ── Reading the head ──────────────────────────────────────────────────────

  lemma {:induction false} LinesOfJoin(lines: seq<string>)
    requires AreHeaders(lines)
    ensures Lines(Join(lines)) == lines
    decreases |lines|
  {
    if |lines| == 1 {
      assert IsHeader(lines[0]);
      assert lines == [lines[0]];
    } else if |lines| > 1 {
      var line, text := lines[0], Join(lines);
      assert IsHeader(line);
      FirstLine(line, Join(lines[1..]));
      LinesOfJoin(lines[1..]);
      assert lines == [line] + lines[1..];
    }
  }

  /** A bare line feed ends a line just as well, and takes nothing off it. */
  lemma BareLineFeed(line: string, rest: string)
    requires '\n' !in line && '\r' !in line
    ensures Lines(line + "\n" + rest) == [line] + Lines(rest)
  {
    var text, p := line + "\n" + rest, |line|;
    assert text[..p] == line;
    FindFirst(text, '\n', p);
    assert text[p + 1..] == rest;
  }

  lemma FirstLine(line: string, rest: string)
    requires '\n' !in line + "\r"
    ensures Lines(line + "\r\n" + rest) == [line] + Lines(rest)
  {
    var text, p := line + "\r\n" + rest, |line| + 1;
    assert text[..p] == line + "\r";
    FindFirst(text, '\n', p);
    assert StripCarriageReturn(text[..p]) == line;
    assert text[p + 1..] == rest;
  }

  lemma RequestLineParses(verb: string, path: string)
    requires IsWord(verb) && IsWord(path)
    ensures ParseRequestLine(RequestLine(verb, path)) == Some((verb, path))
  {
    var line := RequestLine(verb, path);
    var i := |verb|;
    assert line[..i] == verb;
    FindFirst(line, ' ', i);
    var rest := line[i + 1..];
    assert rest == path + " HTTP/1.1";
    assert rest[..|path|] == path;
    FindFirst(rest, ' ', |path|);
  }

  lemma {:induction false} TrimPadded(left: string, digits: string, right: string)
    requires IsPadding(left) && IsPadding(right)
    requires digits != "" && forall i :: 0 <= i < |digits| ==> IsDigit(digits[i])
    ensures Trim(left + digits + right) == digits
    decreases |left| + |right|
  {
    var s := left + digits + right;
    if left != "" {
      assert s[1..] == left[1..] + digits + right;
      TrimPadded(left[1..], digits, right);
    } else if right != "" {
      assert s[0] == digits[0] && IsDigit(digits[0]);
      assert s[..|s| - 1] == left + digits + right[..|right| - 1];
      assert s[|s| - 1] == right[|right| - 1];
      TrimPadded(left, digits, right[..|right| - 1]);
    } else {
      assert s == digits && IsDigit(digits[0]) && IsDigit(digits[|digits| - 1]);
    }
  }

  lemma LengthLineParses(style: Style, n: nat)
    requires n < USIZE && IsStyle(style)
    ensures IsContentLength(LengthLine(style, n))
    ensures HeaderValue(LengthLine(style, n)) == Some(n)
  {
    var line, value := LengthLine(style, n), style.left + Print(n) + style.right;
    NameIsClean(style.name);
    IsLengthName(style.name, value, line);
    assert line[..14] == style.name && line[15..] == value;
    FindFirst(line, ':', 14);
    TrimPadded(style.left, Print(n), style.right);
    ParseOfPrint(n);
  }

  lemma IsLengthName(name: string, value: string, line: string)
    requires ToAsciiLowercase(name) == "content-length" && |name| == 14 && line == name + ":" + value
    ensures IsContentLength(line)
  {
    var lower, prefix := ToAsciiLowercase(line), "content-length:";
    forall i | 0 <= i < 15
      ensures lower[i] == prefix[i]
    {
      assert lower[i] == Lower(line[i]);
      if i < 14 {
        assert line[i] == name[i];
        assert ToAsciiLowercase(name)[i] == Lower(name[i]);
        assert "content-length"[i] == prefix[i];
      }
    }
    assert lower[..15] == prefix;
  }

  /** The first length line decides. */
  lemma {:induction false} LengthAfter(before: seq<string>, style: Style, n: nat, after: seq<string>)
    requires n < USIZE && IsStyle(style) && NoLengthAmong(before)
    ensures LengthFromLines(before + [LengthLine(style, n)] + after) == n
    decreases |before|
  {
    var lines := before + [LengthLine(style, n)] + after;
    if before == [] {
      LengthLineParses(style, n);
      assert lines[0] == LengthLine(style, n);
    } else {
      LengthAfter(before[1..], style, n, after);
      assert lines[0] == before[0];
      assert lines[1..] == before[1..] + [LengthLine(style, n)] + after;
    }
  }

  /** Without one, the length is 0. */
  lemma {:induction false} NoLengthIsZero(lines: seq<string>)
    requires NoLengthAmong(lines)
    ensures LengthFromLines(lines) == 0
  {
    if lines != [] { NoLengthIsZero(lines[1..]); }
  }

  /** A line that names the length but holds no number that fits counts as 0, whatever
      follows. */
  lemma {:induction false} UnreadableIsZero(before: seq<string>, line: string, after: seq<string>)
    requires NoLengthAmong(before) && IsContentLength(line) && HeaderValue(line).None?
    ensures LengthFromLines(before + [line] + after) == 0
    decreases |before|
  {
    var lines := before + [line] + after;
    if before == [] {
      assert lines[0] == line;
    } else {
      UnreadableIsZero(before[1..], line, after);
      assert lines[0] == before[0];
      assert lines[1..] == before[1..] + [line] + after;
    }
  }

  /** For any head at all: no length line, no body. */
  lemma HeadWithoutLength(head: seq<byte>)
    requires DecodeUtf8(head).None? || NoLengthAmong(Lines(DecodeUtf8(head).value))
    ensures ContentLength(head) == 0
  {
    if DecodeUtf8(head).Some? { NoLengthIsZero(Lines(DecodeUtf8(head).value)); }
  }

  lemma LengthOfLines(m: Message)
    requires WellFormed(m) && |m.body| < USIZE
    ensures LengthFromLines(HeadLines(m)) == |m.body|
  {
    var first := [RequestLine(m.verb, m.path)] + m.before;
    if m.length.Some? {
      LengthAfter(first, m.length.value, |m.body|, m.after);
    } else {
      assert HeadLines(m) == first + m.after;
      NoLengthIsZero(first + m.after);
    }
  }

  lemma HeadLength(m: Message)
    requires WellFormed(m) && |m.body| < USIZE
    ensures ContentLength(Encode(Head(m))) == |m.body|
  {
    RoundTrip(Head(m));
    HeadLinesAreHeaders(m);
    LinesOfJoin(HeadLines(m));
    LengthOfLines(m);
  }

  lemma HeadParses(m: Message)
    requires WellFormed(m)
    ensures DecodeUtf8(Encode(Head(m))) == Some(Head(m))
    ensures Lines(Head(m)) != [] && ParseRequestLine(Lines(Head(m))[0]) == Some((m.verb, m.path))
  {
    RoundTrip(Head(m));
    HeadLinesAreHeaders(m);
    LinesOfJoin(HeadLines(m));
    RequestLineParses(m.verb, m.path);
  }

  /** A rendered request is parsed back to its verb, path and body, and its
      Content-Length is the length of that body, whatever other headers it has. */
  lemma RenderRoundTrip(m: Message)
    requires WellFormed(m) && |m.body| < USIZE
    ensures ParseRequest(Render(m)) == Some(Request(m.verb, m.path, m.body))
    ensures var h := |Encode(Head(m))|;
            && HeaderEnd(Render(m)) == Some(h)
            && ContentLength(Render(m)[..h]) == |m.body|
            && |Render(m)| == h + 4 + |m.body|
  {
    var buf, h := Render(m), |Encode(Head(m))|;
    RenderHeaderEnd(m);
    assert buf[..h] == Encode(Head(m));
    assert buf[h + 4..] == m.body;
    HeadParses(m);
    HeadLength(m);
  }

  /** End to end: a client renders a request, the network splits it in any way,
      and the proxy reads back exactly what was sent. */
  method DeliverRendered(m: Message) returns (parsed: Option<Request>)
    requires WellFormed(m) && |Render(m)| < USIZE
    ensures parsed == Some(Request(m.verb, m.path, m.body))
  {
    RenderRoundTrip(m);
    var stream := new TcpStream(Render(m), true);
    var received;
    received, parsed := ReceiveRequest(stream);
  }
}
