/** The prologue of a stream handed over by the p2p daemon: a base-128 varint
    length, then that many bytes to discard. */
module Varint {
  import opened Bytes

  const U64: nat := 0x1_0000_0000_0000_0000

  // ── 64-bit machine arithmetic, written out ────────────────────────────────

  /** Bitwise OR of two naturals, bit by bit. */
  function BitOr(a: nat, b: nat): nat
    decreases a + b
  {
    if a == 0 && b == 0 then 0
    else (if a % 2 == 1 || b % 2 == 1 then 1 else 0) + 2 * BitOr(a / 2, b / 2)
  }

  function Wrap64(n: nat): nat {
    n % 0x1_0000_0000_0000_0000
  }

  /** `<<` on `u64`: bits moved past the top are lost. */
  function Shl64(x: nat, shift: nat): nat {
    Wrap64(x * Pow(2, shift))
  }

  lemma {:induction false} OrZero(b: nat)
    ensures BitOr(0, b) == b
  {
    if b > 0 { OrZero(b / 2); }
  }

  /** ORing in bits above everything already there is addition. */
  lemma {:induction false} OrAboveIsAdd(low: nat, high: nat, shift: nat)
    requires low < Pow(2, shift)
    ensures BitOr(low, high * Pow(2, shift)) == low + high * Pow(2, shift)
  {
    if shift == 0 {
      OrZero(high);
    } else if low + high * Pow(2, shift) > 0 {
      var half := Pow(2, shift - 1);
      var b := high * Pow(2, shift);
      assert b == 2 * (high * half);
      OrAboveIsAdd(low / 2, high, shift - 1);
    }
  }

  // ── The encoding ──────────────────────────────────────────────────────────

  /** Sum of the 7-bit groups at their positions, least significant first. */
  function Positional(bs: seq<byte>): nat {
    if bs == [] then 0 else bs[0] % 0x80 + 0x80 * Positional(bs[1..])
  }

  /** A terminated varint: every byte but the last has its top bit set. */
  ghost predicate Terminated(bs: seq<byte>) {
    && bs != []
    && bs[|bs| - 1] < 0x80
    && forall i :: 0 <= i < |bs| - 1 ==> bs[i] >= 0x80
  }

  /** The canonical encoding of `n`. */
  function Encode(n: nat): (bs: seq<byte>)
    ensures Terminated(bs)
  {
    if n < 0x80 then [n]
    else
      var tail := Encode(n / 0x80);
      [0x80 + n % 0x80] + tail
  }

  lemma {:induction false} EncodeIsPositional(n: nat)
    ensures Positional(Encode(n)) == n
  {
    if n >= 0x80 {
      EncodeIsPositional(n / 0x80);
      assert Encode(n)[1..] == Encode(n / 0x80);
    }
  }

  lemma {:induction false} EncodeLength(n: nat, digits: nat)
    requires digits > 0 && n < Pow(0x80, digits)
    ensures |Encode(n)| <= digits
  {
    if n >= 0x80 {
      assert Pow(0x80, 1) == 0x80;
      EncodeLength(n / 0x80, digits - 1);
    }
  }

  lemma {:induction false} PositionalAppend(bs: seq<byte>, b: byte)
    ensures Positional(bs + [b]) == Positional(bs) + (b % 0x80) * Pow(2, 7 * |bs|)
  {
    if bs == [] {
      assert bs + [b] == [b];
      assert Positional([b]) == b % 0x80;
    } else {
      var tail := bs[1..];
      PositionalAppend(tail, b);
      assert (bs + [b])[1..] == tail + [b];
      Pow2Shift7(7 * |tail|);
      var p, q := Pow(2, 7 * |tail|), Pow(2, 7 * |bs|);
      assert q == 0x80 * p;
      MulAssoc(b % 0x80, 0x80, p);
    }
  }

  lemma MulAssoc(x: nat, y: nat, z: nat)
    ensures x * (y * z) == y * (x * z)
  {
  }

  lemma Pow2Shift7(shift: nat)
    ensures Pow(2, shift + 7) == 0x80 * Pow(2, shift)
  {
    assert Pow(2, shift + 7) == 2 * Pow(2, shift + 6);
    assert Pow(2, shift + 6) == 2 * Pow(2, shift + 5);
    assert Pow(2, shift + 5) == 2 * Pow(2, shift + 4);
    assert Pow(2, shift + 4) == 2 * Pow(2, shift + 3);
    assert Pow(2, shift + 3) == 2 * Pow(2, shift + 2);
    assert Pow(2, shift + 2) == 2 * Pow(2, shift + 1);
  }

  lemma {:induction false} PositionalBound(bs: seq<byte>)
    ensures Positional(bs) < Pow(2, 7 * |bs|)
  {
    if bs != [] {
      PositionalBound(bs[1..]);
      Pow2Shift7(7 * |bs[1..]|);
    }
  }

  // ── The reader ────────────────────────────────────────────────────────────

  datatype PrologueError = VarintTruncated | VarintOverflow | BodyTruncated

  /** Position of the first byte without a continuation bit. */
  function VarintLength(bs: seq<byte>): (k: Option<nat>)
    ensures k.Some? ==> 0 < k.value <= |bs| && Terminated(bs[..k.value])
    ensures k.None? ==> forall i :: 0 <= i < |bs| ==> bs[i] >= 0x80
  {
    if bs == [] then None
    else if bs[0] < 0x80 then Some(1)
    else
      match VarintLength(bs[1..])
      case None => None
      case Some(k) =>
        assert bs[..k + 1][1..] == bs[1..][..k];
        assert forall i {:trigger bs[i]} :: 1 <= i < k ==> bs[i] == bs[1..][..k][i - 1];
        Some(k + 1)
  }

  function FirstTen(bs: seq<byte>): seq<byte> {
    if |bs| <= 10 then bs else bs[..10]
  }

  /** What the varint reader must do on any input at all: the number is the
      first terminated group of at most ten bytes, taken modulo 2^64. */
  function ParseVarint(bs: seq<byte>): Result<(nat, seq<byte>), PrologueError> {
    match VarintLength(FirstTen(bs))
    case None => Err(if |bs| < 10 then VarintTruncated else VarintOverflow)
    case Some(k) => Ok((Wrap64(Positional(bs[..k])), bs[k..]))
  }

  /** The prologue: a length, then that many bytes to discard. */
  function ParsePrologue(bs: seq<byte>): Result<seq<byte>, PrologueError> {
    match ParseVarint(bs)
    case Err(e) => Err(e)
    case Ok((len, rest)) => if |rest| < len then Err(BodyTruncated) else Ok(rest[len..])
  }

  lemma {:induction false} VarintLengthAt(bs: seq<byte>, i: nat)
    requires i < |bs| && bs[i] < 0x80
    requires forall j :: 0 <= j < i ==> bs[j] >= 0x80
    ensures VarintLength(bs) == Some(i + 1)
  {
    if i > 0 {
      VarintLengthAt(bs[1..], i - 1);
    }
  }

  lemma {:induction false} VarintLengthNone(bs: seq<byte>)
    requires forall j :: 0 <= j < |bs| ==> bs[j] >= 0x80
    ensures VarintLength(bs) == None
  {
    if bs != [] {
      VarintLengthNone(bs[1..]);
    }
  }

  lemma Pow2To63()
    ensures 2 * Pow(2, 63) == U64
    ensures Pow(2, 7 * 9) == Pow(2, 63)
  {
    Pow2Shift7(0); Pow2Shift7(7); Pow2Shift7(14); Pow2Shift7(21); Pow2Shift7(28);
    Pow2Shift7(35); Pow2Shift7(42); Pow2Shift7(49); Pow2Shift7(56);
  }

  lemma {:induction false} Pow2Monotone(a: nat, b: nat)
    requires a <= b
    ensures Pow(2, a) <= Pow(2, b)
  {
    if a < b { Pow2Monotone(a, b - 1); }
  }

  lemma AccumulatorLow(read: seq<byte>, b: byte)
    requires |read| < 9
    ensures Positional(read + [b]) < U64
    ensures BitOr(Positional(read), Shl64(b % 0x80, 7 * |read|)) == Wrap64(Positional(read + [b]))
  {
    var low, high, shift := Positional(read), b % 0x80, 7 * |read|;
    assert low < Pow(2, shift) by { PositionalBound(read); }
    assert Positional(read + [b]) == low + high * Pow(2, shift) by { PositionalAppend(read, b); }
    PositionalSmall(read + [b]);
    OrBelowTop(low, high, shift);
  }

  lemma BelowU64(shift: nat)
    requires shift <= 63
    ensures Pow(2, shift) < U64
  {
    Pow2To63();
    Pow2Monotone(shift, 63);
  }

  lemma PositionalSmall(bs: seq<byte>)
    requires |bs| <= 9
    ensures Positional(bs) < U64
  {
    PositionalBound(bs);
    BelowU64(7 * |bs|);
  }

  lemma OrBelowTop(low: nat, high: nat, shift: nat)
    requires low < Pow(2, shift) && low + high * Pow(2, shift) < U64
    ensures BitOr(low, Shl64(high, shift)) == Wrap64(low + high * Pow(2, shift))
  {
    OrAboveIsAdd(low, high, shift);
    var shifted: nat := high * Pow(2, shift);
    WrapSmall(shifted);
    WrapSmall(low + shifted);
  }

  lemma WrapSmall(n: nat)
    requires n < U64
    ensures Wrap64(n) == n
  {
  }

  lemma AccumulatorTop(read: seq<byte>, b: byte)
    requires |read| == 9
    ensures BitOr(Positional(read), Shl64(b % 0x80, 7 * |read|)) == Wrap64(Positional(read + [b]))
  {
    var p := Pow(2, 63);
    PositionalBound(read);
    PositionalAppend(read, b);
    Pow2To63();
    TopBit(b % 0x80, p);
    OrAboveIsAdd(Positional(read), b % 0x80 % 2, 63);
    TopBitSum(Positional(read), b % 0x80, p);
  }

  /** One round of the shift-and-OR loop: the accumulator stays the positional
      sum of the bytes read, modulo 2^64. */
  lemma AccumulatorStep(read: seq<byte>, b: byte)
    requires |read| <= 9
    ensures |read| < 9 ==> Positional(read + [b]) < U64
    ensures BitOr(Positional(read), Shl64(b % 0x80, 7 * |read|)) == Wrap64(Positional(read + [b]))
  {
    if |read| < 9 { AccumulatorLow(read, b); } else { AccumulatorTop(read, b); }
  }

  /** Of a group shifted to bit 63 only its lowest bit survives. */
  lemma TopBit(x: nat, p: nat)
    requires 2 * p == U64
    ensures Wrap64(x * p) == (x % 2) * p
  {
    TopBitSum(0, x, p);
  }

  lemma TopBitSum(low: nat, x: nat, p: nat)
    requires 2 * p == U64 && low < p
    ensures Wrap64(low + x * p) == low + (x % 2) * p
  {
    var q, r := x / 2, x % 2;
    assert x == 2 * q + r;
    assert x * p == q * (2 * p) + r * p;
    assert r == 0 || r == 1;
    RemainderOf(low + x * p, q, low + r * p);
  }

  lemma {:induction false} RemainderOf(n: nat, q: nat, r: nat)
    requires n == q * U64 + r && r < U64
    ensures Wrap64(n) == r
  {
  }

  lemma ParseTerminated(bs: seq<byte>, k: nat)
    requires k <= 10 && k <= |bs| && Terminated(bs[..k])
    ensures ParseVarint(bs) == Ok((Wrap64(Positional(bs[..k])), bs[k..]))
  {
    assert forall i :: 0 <= i < k ==> bs[i] == bs[..k][i] == FirstTen(bs)[i];
    VarintLengthAt(FirstTen(bs), k - 1);
  }

  lemma ParseUnterminated(bs: seq<byte>, k: nat)
    requires k == |FirstTen(bs)| && forall j :: 0 <= j < k ==> bs[j] >= 0x80
    ensures ParseVarint(bs) == Err(if k < 10 then VarintTruncated else VarintOverflow)
  {
    VarintLengthNone(FirstTen(bs));
  }

  /** The shift-and-OR loop of `read_p2pd_stream_info`. It always leaves by
      `break` or by an error. */
  method ReadVarint(reader: ByteReader) returns (r: Result<nat, PrologueError>)
    requires reader.Valid()
    modifies reader
    ensures reader.Valid()
    ensures match ParseVarint(old(reader.Remaining()))
            case Ok((len, rest)) => r == Ok(len) && reader.Remaining() == rest
            case Err(e) => r == Err(e)
  {
    ghost var bs := reader.Remaining();
    var len := 0;
    var shift := 0;
    for i := 0 to 10
      invariant reader.Valid()
      invariant i < 10 && shift == 7 * i
      invariant i <= |bs| && reader.Remaining() == bs[i..]
      invariant forall j :: 0 <= j < i ==> bs[j] >= 0x80
      invariant len == Positional(bs[..i])
    {
      var buf := reader.ReadExact(1);
      if buf.None? {
        ParseUnterminated(bs, i);
        return Err(VarintTruncated);
      }
      var b := buf.value[0];
      AccumulatorStep(bs[..i], b);
      assert bs[..i] + [b] == bs[..i + 1];
      len := BitOr(len, Shl64(b % 0x80, shift));
      if b < 0x80 {
        ParseTerminated(bs, i + 1);
        break;
      }
      shift := shift + 7;
      if shift > 63 {
        ParseUnterminated(bs, 10);
        return Err(VarintOverflow);
      }
      WrapSmall(Positional(bs[..i + 1]));
    }
    return Ok(len);
  }

  /** `read_p2pd_stream_info`. */
  method ReadStreamInfo(reader: ByteReader) returns (r: Result<(), PrologueError>)
    requires reader.Valid()
    modifies reader
    ensures reader.Valid()
    ensures match ParsePrologue(old(reader.Remaining()))
            case Ok(rest) => r == Ok(()) && reader.Remaining() == rest
            case Err(e) => r == Err(e)
  {
    var len := ReadVarint(reader);
    if len.Err? {
      return Err(len.error);
    }
    var body := reader.ReadExact(len.value);
    return if body.None? then Err(BodyTruncated) else Ok(());
  }

  /** Every byte of the first ten, as far as there are any, has its top bit set. */
  ghost predicate NeverEnds(bs: seq<byte>) {
    forall i :: 0 <= i < |bs| && i < 10 ==> bs[i] >= 0x80
  }

  /** When the prologue is refused, and why: the number does not end within the bytes
      there are, or not within ten of them, or fewer bytes follow than it says. */
  lemma PrologueErrors(bs: seq<byte>)
    ensures ParsePrologue(bs) == Err(VarintTruncated) <==> NeverEnds(bs) && |bs| < 10
    ensures ParsePrologue(bs) == Err(VarintOverflow) <==> NeverEnds(bs) && |bs| >= 10
    ensures ParsePrologue(bs) == Err(BodyTruncated)
       <==> exists k :: 0 < k <= 10 && k <= |bs| && Terminated(bs[..k]) && |bs| - k < Wrap64(Positional(bs[..k]))
  {
    if NeverEnds(bs) {
      ParseUnterminated(bs, |FirstTen(bs)|);
      forall k | 0 < k <= 10 && k <= |bs|
        ensures !Terminated(bs[..k])
      {
        assert bs[..k][k - 1] == bs[k - 1];
      }
    } else {
      var k := EndOf(bs, 0);
      ParseTerminated(bs, k);
      forall h | 0 < h <= 10 && h <= |bs| && Terminated(bs[..h])
        ensures h == k
      {
        OneEnd(bs, h, k);
      }
    }
  }

  lemma OneEnd(bs: seq<byte>, h: nat, k: nat)
    requires 0 < h <= |bs| && Terminated(bs[..h]) && 0 < k <= |bs| && Terminated(bs[..k])
    ensures h == k
  {
    assert bs[h - 1] < 0x80 by { assert bs[..h][h - 1] == bs[h - 1]; }
    assert bs[k - 1] < 0x80 by { assert bs[..k][k - 1] == bs[k - 1]; }
    assert forall i :: 0 <= i < h - 1 ==> bs[i] == bs[..h][i] >= 0x80;
    assert forall i :: 0 <= i < k - 1 ==> bs[i] == bs[..k][i] >= 0x80;
  }

  /** The end of the number. */
  lemma EndOf(bs: seq<byte>, from: nat) returns (k: nat)
    requires !NeverEnds(bs) && from <= |bs| && from <= 10 && forall i :: 0 <= i < from ==> bs[i] >= 0x80
    ensures 0 < k <= 10 && k <= |bs| && Terminated(bs[..k])
    decreases 10 - from
  {
    if bs[from] < 0x80 {
      k := from + 1;
    } else {
      k := EndOf(bs, from + 1);
    }
  }

  lemma Below2To64(n: nat)
    requires n < U64
    ensures n < Pow(0x80, 10)
  {
    assert Pow(0x80, 1) == 0x80;
    assert Pow(0x80, 2) == 0x4000;
    assert Pow(0x80, 3) == 0x20_0000;
    assert Pow(0x80, 4) == 0x1000_0000;
    assert Pow(0x80, 5) == 0x8_0000_0000;
    assert Pow(0x80, 6) == 0x400_0000_0000;
    assert Pow(0x80, 7) == 0x2_0000_0000_0000;
    assert Pow(0x80, 8) == 0x100_0000_0000_0000;
    assert Pow(0x80, 9) == 0x8000_0000_0000_0000;
  }

  lemma AtMostTenBytes(n: nat)
    requires n < U64
    ensures |Encode(n)| <= 10
  {
    Below2To64(n);
    EncodeLength(n, 10);
  }

  /** For every canonical length below 2^64 and a body of that length, the
      reader stops exactly at the byte after the body. */
  lemma PrologueStopsAtNextByte(body: seq<byte>, rest: seq<byte>)
    requires |body| < U64
    ensures ParsePrologue(Encode(|body|) + (body + rest)) == Ok(rest)
  {
    AtMostTenBytes(|body|);
    ReadsBack(Encode(|body|), body + rest, |body|);
    SkipsBody(Encode(|body|) + (body + rest), body, rest);
  }

  lemma SkipsBody(bs: seq<byte>, body: seq<byte>, rest: seq<byte>)
    requires ParseVarint(bs) == Ok((|body|, body + rest))
    ensures ParsePrologue(bs) == Ok(rest)
  {
    assert (body + rest)[|body|..] == rest;
  }

  lemma ReadsBack(prefix: seq<byte>, rest: seq<byte>, n: nat)
    requires n < U64 && prefix == Encode(n) && |prefix| <= 10
    ensures ParseVarint(prefix + rest) == Ok((n, rest))
  {
    assert (prefix + rest)[..|prefix|] == prefix;
    assert (prefix + rest)[|prefix|..] == rest;
    ParseTerminated(prefix + rest, |prefix|);
    EncodeIsPositional(n);
    WrapSmall(n);
  }

  lemma NineGroups(nine: seq<byte>, top: byte)
    requires |nine| == 9 && top < 0x80
    ensures Positional(nine + [top]) < U64 <==> top <= 1
  {
    PositionalAppend(nine, top);
    PositionalBound(nine);
    Pow2To63();
    var p := Pow(2, 63);
    if top >= 2 { assert top * p >= 2 * p; }
  }

  /** On any terminated prefix of at most ten bytes, canonical or not, the length
      read is the one encoded exactly when that length fits in 64 bits:
      the only loss is a tenth byte with a bit above bit 63. */
  lemma LengthIsExactIffItFits(prefix: seq<byte>, rest: seq<byte>)
    requires Terminated(prefix) && |prefix| <= 10
    ensures ParseVarint(prefix + rest) == Ok((Wrap64(Positional(prefix)), rest))
    ensures Wrap64(Positional(prefix)) == Positional(prefix) <==> |prefix| < 10 || prefix[9] <= 1
  {
    assert (prefix + rest)[..|prefix|] == prefix && (prefix + rest)[|prefix|..] == rest;
    ParseTerminated(prefix + rest, |prefix|);
    if |prefix| < 10 {
      PositionalSmall(prefix);
    } else {
      assert prefix == prefix[..9] + [prefix[9]];
      NineGroups(prefix[..9], prefix[9]);
    }
    if Positional(prefix) < U64 { WrapSmall(Positional(prefix)); }
  }
}
