/** Length-prefixed frames: four little-endian length bytes, then the payload. */
module Frames {
  import opened Bytes

  const MAX_FRAME: nat := 64 * 1024 * 1024
  const U32: nat := 0x1_0000_0000

  /** `as u32`. */
  function Low32(n: nat): nat {
    n % 0x1_0000_0000
  }

  datatype FrameError = LengthTruncated | TooLarge(len: nat) | BodyTruncated

  type Payload = seq<byte>

  /** What `write_frame` puts on the stream. The length is cast to 32 bits. */
  function Frame(payload: Payload): (bs: seq<byte>)
    ensures |bs| == 4 + |payload|
  {
    ToLittleEndian(Low32(|payload|), 4) + payload
  }

  method WriteFrame(writer: ByteWriter, payload: Payload)
    modifies writer
    ensures writer.output == old(writer.output) + Frame(payload)
  {
    var len := Low32(|payload|);
    writer.WriteAll(ToLittleEndian(len, 4));
    writer.WriteAll(payload);
  }

  /** The first frame of `bs` and what follows it. */
  function ParseFrame(bs: seq<byte>): (r: Result<(Payload, seq<byte>), FrameError>)
    ensures r.Ok? ==> |bs| >= 4 && bs[4..] == r.value.0 + r.value.1
  {
    if |bs| < 4 then Err(LengthTruncated)
    else
      var len := FromLittleEndian(bs[..4]);
      if len > MAX_FRAME then Err(TooLarge(len))
      else if |bs| < 4 + len then Err(BodyTruncated)
      else Ok((bs[4..4 + len], bs[4 + len..]))
  }

  method ReadFrame(reader: ByteReader) returns (r: Result<Payload, FrameError>)
    requires reader.Valid()
    modifies reader
    ensures reader.Valid()
    ensures match ParseFrame(old(reader.Remaining()))
            case Ok((payload, rest)) => r == Ok(payload) && reader.Remaining() == rest
            case Err(e) => r == Err(e)
    ensures r.Ok? ==> |reader.Remaining()| < |old(reader.Remaining())|
  {
    ghost var bs := reader.Remaining();
    var lenBuf := reader.ReadExact(4);
    if lenBuf.None? {
      return Err(LengthTruncated);
    }
    var len := FromLittleEndian(lenBuf.value);
    if len > MAX_FRAME {
      return Err(TooLarge(len));
    }
    var buf := reader.ReadExact(len);
    if buf.None? {
      return Err(BodyTruncated);
    }
    assert bs[4..][len..] == bs[4 + len..];
    return Ok(buf.value);
  }

  /** The bytes of `payloads` written one frame after the other. */
  function Stream(payloads: seq<Payload>): seq<byte> {
    if payloads == [] then [] else Frame(payloads[0]) + Stream(payloads[1..])
  }

  /** Everything a loop of `read_frame` calls sees before its first error. */
  function ParseAll(bs: seq<byte>): (seq<Payload>, FrameError)
    decreases |bs|
  {
    match ParseFrame(bs)
    case Err(e) => ([], e)
    case Ok((payload, rest)) => ([payload] + ParseAll(rest).0, ParseAll(rest).1)
  }

  /** The frame loop shared by the server (`handle_mux_stream_server`) and the
      client's reader task: read frames until one fails. */
  method ReadFrames(reader: ByteReader) returns (payloads: seq<Payload>, end: FrameError)
    requires reader.Valid()
    modifies reader
    ensures reader.Valid()
    ensures (payloads, end) == ParseAll(old(reader.Remaining()))
  {
    ghost var all := ParseAll(reader.Remaining());
    payloads := [];
    while true
      invariant reader.Valid()
      invariant all.0 == payloads + ParseAll(reader.Remaining()).0
      invariant all.1 == ParseAll(reader.Remaining()).1
      decreases |reader.Remaining()|
    {
      ghost var before := reader.Remaining();
      var frame := ReadFrame(reader);
      match frame {
        case Err(e) =>
          assert ParseAll(before).0 == [] && all.0 == payloads;
          return payloads, e;
        case Ok(payload) =>
          assert payloads + ([payload] + ParseAll(reader.Remaining()).0)
              == payloads + [payload] + ParseAll(reader.Remaining()).0;
          payloads := payloads + [payload];
      }
    }
  }

  lemma Pow256To4()
    ensures Pow(0x100, 4) == U32
  {
    assert Pow(0x100, 1) == 0x100;
    assert Pow(0x100, 2) == 0x1_0000;
    assert Pow(0x100, 3) == 0x100_0000;
  }

  /** The bytes of a frame: the four base-256 digits of the length, least significant
      first, then the payload. */
  lemma FrameBytes(payload: Payload)
    requires |payload| < 0x1_0000_0000
    ensures Frame(payload) == Digits(|payload|) + payload
  {
    FourDigits(|payload|);
    assert Low32(|payload|) == |payload|;
  }

  function Digits(n: nat): seq<byte>
    requires n < 0x1_0000_0000
  {
    [n % 0x100, n / 0x100 % 0x100, n / 0x1_0000 % 0x100, n / 0x100_0000]
  }

  lemma FourDigits(n: nat)
    requires n < 0x1_0000_0000
    ensures ToLittleEndian(n, 4) == Digits(n)
  {
    var a, b, c := n / 0x100, n / 0x1_0000, n / 0x100_0000;
    assert a / 0x100 == b && b / 0x100 == c && c < 0x100;
    assert ToLittleEndian(c, 1) == [c] + [];
    assert ToLittleEndian(b, 2) == [b % 0x100] + ToLittleEndian(c, 1);
    assert ToLittleEndian(a, 3) == [a % 0x100] + ToLittleEndian(b, 2);
  }

  /** The length prefix reads back as the payload length cut to 32 bits. */
  lemma PrefixReads(payload: Payload, rest: seq<byte>)
    ensures |Frame(payload) + rest| >= 4
    ensures FromLittleEndian((Frame(payload) + rest)[..4]) == Low32(|payload|)
  {
    Pow256To4();
    FromToLittleEndian(Low32(|payload|), 4);
    assert (Frame(payload) + rest)[..4] == ToLittleEndian(Low32(|payload|), 4);
  }

  /** A frame is read back, with the stream left at the next byte, exactly when
      its payload is within the 64 MiB limit. A longer payload is rejected, or,
      past 4 GiB, silently cut because of the 32-bit length. */
  lemma FrameRoundTrip(payload: Payload, rest: seq<byte>)
    ensures ParseFrame(Frame(payload) + rest) == Ok((payload, rest)) <==> |payload| <= 67_108_864
    ensures 67_108_864 < |payload| < U32 ==> ParseFrame(Frame(payload) + rest) == Err(TooLarge(|payload|))
    ensures |payload| >= U32 && Low32(|payload|) <= 67_108_864 ==>
              ParseFrame(Frame(payload) + rest)
              == Ok((payload[..Low32(|payload|)], payload[Low32(|payload|)..] + rest))
  {
    var bs := Frame(payload) + rest;
    var len := Low32(|payload|);
    PrefixReads(payload, rest);
    if len <= MAX_FRAME {
      assert bs[4..4 + len] == payload[..len];
      assert bs[4 + len..] == payload[len..] + rest;
    }
  }

  /** How many whole frames fit in the first `cut` bytes of the stream. */
  function Contained(payloads: seq<Payload>, cut: nat): (m: nat)
    ensures m <= |payloads|
  {
    if payloads == [] || |Frame(payloads[0])| > cut then 0
    else 1 + Contained(payloads[1..], cut - |Frame(payloads[0])|)
  }

  /** `Contained` is the largest number of frames that end at or before the cut. */
  lemma {:induction false} ContainedIsLargest(payloads: seq<Payload>, cut: nat, m: nat)
    requires m <= |payloads|
    ensures |Stream(payloads[..m])| <= cut <==> m <= Contained(payloads, cut)
  {
    if m > 0 {
      assert payloads[..m][1..] == payloads[1..][..m - 1];
      if |Frame(payloads[0])| <= cut {
        ContainedIsLargest(payloads[1..], cut - |Frame(payloads[0])|, m - 1);
      }
    }
  }

  ghost predicate Sendable(payloads: seq<Payload>) {
    forall i :: 0 <= i < |payloads| ==> |payloads[i]| <= MAX_FRAME
  }

  /** Less than one whole frame: the reader reports where it was cut. */
  lemma PartialFrame(payload: Payload, rest: seq<byte>, cut: nat)
    requires |payload| <= MAX_FRAME && cut < |Frame(payload)|
    ensures ParseFrame((Frame(payload) + rest)[..cut])
         == Err(if cut < 4 then LengthTruncated else BodyTruncated)
  {
    if cut >= 4 {
      PrefixReads(payload, rest);
      assert (Frame(payload) + rest)[..cut][..4] == (Frame(payload) + rest)[..4];
    }
  }

  /** A cut stream yields exactly the contained frames, then an error that says whether
      the cut fell in a length or in a body. */
  ghost predicate YieldsContained(payloads: seq<Payload>, cut: nat)
    requires cut <= |Stream(payloads)|
  {
    var m := Contained(payloads, cut);
    && |Stream(payloads[..m])| <= cut
    && ParseAll(Stream(payloads)[..cut])
       == (payloads[..m], if cut - |Stream(payloads[..m])| < 4 then LengthTruncated else BodyTruncated)
  }

  lemma CutAfter(a: seq<byte>, b: seq<byte>, cut: nat)
    requires |a| <= cut <= |a + b|
    ensures (a + b)[..cut] == a + b[..cut - |a|]
  {
  }

  lemma ContainedPrefix(payloads: seq<Payload>, m: nat)
    requires payloads != [] && m < |payloads|
    ensures payloads[..m + 1] == [payloads[0]] + payloads[1..][..m]
    ensures Stream(payloads[..m + 1]) == Frame(payloads[0]) + Stream(payloads[1..][..m])
  {
    var prefix := payloads[..m + 1];
    assert prefix[1..] == payloads[1..][..m];
    assert prefix == [payloads[0]] + prefix[1..];
  }

  lemma OneFrameMore(payloads: seq<Payload>, cut: nat)
    requires payloads != [] && Sendable(payloads) && |Frame(payloads[0])| <= cut <= |Stream(payloads)|
    requires YieldsContained(payloads[1..], cut - |Frame(payloads[0])|)
    ensures YieldsContained(payloads, cut)
  {
    var first, rest, used := payloads[0], Stream(payloads[1..]), |Frame(payloads[0])|;
    CutAfter(Frame(first), rest, cut);
    ReadsFirst(first, rest[..cut - used]);
    ContainedPrefix(payloads, Contained(payloads[1..], cut - used));
  }

  /** Cutting the stream anywhere loses only the frames that are not whole. */
  lemma {:induction false} TruncatedStream(payloads: seq<Payload>, cut: nat)
    requires Sendable(payloads) && cut <= |Stream(payloads)|
    ensures YieldsContained(payloads, cut)
    decreases |payloads|
  {
    if payloads == [] {
      assert ParseFrame([]) == Err(LengthTruncated);
    } else if cut < |Frame(payloads[0])| {
      PartialFrame(payloads[0], Stream(payloads[1..]), cut);
      assert payloads[..0] == [];
    } else {
      TruncatedStream(payloads[1..], cut - |Frame(payloads[0])|);
      OneFrameMore(payloads, cut);
    }
  }

  /** Frame by frame, what was written is what is read. */
  lemma {:induction false} StreamRoundTrip(payloads: seq<Payload>)
    requires Sendable(payloads)
    ensures ParseAll(Stream(payloads)) == (payloads, LengthTruncated)
  {
    if payloads == [] {
      assert ParseFrame([]) == Err(LengthTruncated);
    } else {
      StreamRoundTrip(payloads[1..]);
      ReadsFirst(payloads[0], Stream(payloads[1..]));
      assert payloads == [payloads[0]] + payloads[1..];
    }
  }

  lemma ReadsFirst(first: Payload, rest: seq<byte>)
    requires |first| <= MAX_FRAME
    ensures ParseAll(Frame(first) + rest) == ([first] + ParseAll(rest).0, ParseAll(rest).1)
  {
    FrameRoundTrip(first, rest);
  }

  // ── Messages over frames ──────────────────────────────────────────────────

  function EncodeAll<M>(encode: M -> Payload, messages: seq<M>): (payloads: seq<Payload>)
    ensures |payloads| == |messages|
  {
    if messages == [] then [] else [encode(messages[0])] + EncodeAll(encode, messages[1..])
  }

  /** Decoding in the frame loops: a payload that is not a message is skipped. */
  function DecodeAll<M>(decode: Payload -> Option<M>, payloads: seq<Payload>): seq<M> {
    if payloads == [] then []
    else match decode(payloads[0])
      case Some(m) => [m] + DecodeAll(decode, payloads[1..])
      case None => DecodeAll(decode, payloads[1..])
  }

  /** A payload that is not a message is skipped, and costs none of the others. */
  lemma {:induction false} UndecodableIsSkipped<M>(
    decode: Payload -> Option<M>, before: seq<Payload>, bad: Payload, after: seq<Payload>)
    requires decode(bad) == None
    ensures DecodeAll(decode, before + [bad] + after) == DecodeAll(decode, before) + DecodeAll(decode, after)
    decreases |before|
  {
    var all := before + [bad] + after;
    if before == [] {
      assert all[0] == bad && all[1..] == after;
    } else {
      UndecodableIsSkipped(decode, before[1..], bad, after);
      assert all[0] == before[0] && all[1..] == before[1..] + [bad] + after;
    }
  }

  lemma {:induction false} EncodeAllAt<M>(encode: M -> Payload, messages: seq<M>, i: nat)
    requires i < |messages|
    ensures EncodeAll(encode, messages)[i] == encode(messages[i])
  {
    if i > 0 { EncodeAllAt(encode, messages[1..], i - 1); }
  }

  lemma EncodePrefix<M>(encode: M -> Payload, messages: seq<M>, m: nat)
    requires m <= |messages|
    ensures EncodeAll(encode, messages)[..m] == EncodeAll(encode, messages[..m])
  {
    forall i | 0 <= i < m
      ensures EncodeAll(encode, messages)[i] == EncodeAll(encode, messages[..m])[i]
    {
      EncodeAllAt(encode, messages, i);
      EncodeAllAt(encode, messages[..m], i);
    }
  }

  lemma {:induction false} DecodeEncodeAll<M>(encode: M -> Payload, decode: Payload -> Option<M>, messages: seq<M>)
    requires forall i :: 0 <= i < |messages| ==> decode(encode(messages[i])) == Some(messages[i])
    ensures DecodeAll(decode, EncodeAll(encode, messages)) == messages
  {
    if messages != [] {
      var tail := messages[1..];
      assert forall i :: 0 <= i < |tail| ==> tail[i] == messages[i + 1];
      DecodeEncodeAll(encode, decode, tail);
      assert EncodeAll(encode, messages)[1..] == EncodeAll(encode, tail);
    }
  }

  /** A byte stream that is cut at any point delivers a prefix of the messages
      written to it, in order: this is the FIFO wire the multiplexer's protocol
      model (module MuxProtocol) is stated over. */
  lemma CutStreamDeliversPrefix<M>(encode: M -> Payload, decode: Payload -> Option<M>, messages: seq<M>, cut: nat)
    requires forall i :: 0 <= i < |messages| ==>
               decode(encode(messages[i])) == Some(messages[i]) && |encode(messages[i])| <= MAX_FRAME
    requires cut <= |Stream(EncodeAll(encode, messages))|
    ensures var delivered := DecodeAll(decode, ParseAll(Stream(EncodeAll(encode, messages))[..cut]).0);
            delivered == messages[..Contained(EncodeAll(encode, messages), cut)]
  {
    var payloads := EncodeAll(encode, messages);
    forall i | 0 <= i < |messages|
      ensures payloads[i] == encode(messages[i])
    {
      EncodeAllAt(encode, messages, i);
    }
    var m := Contained(payloads, cut);
    TruncatedStream(payloads, cut);
    EncodePrefix(encode, messages, m);
    assert forall i :: 0 <= i < m ==> messages[..m][i] == messages[i];
    DecodeEncodeAll(encode, decode, messages[..m]);
  }
}
