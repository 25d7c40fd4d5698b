/** UTF-8 encoding, the inverse of the decoder the parsers use. */
module Utf8 {
  import opened Bytes
  import opened Http

  function EncodeScalar(c: char): (bs: seq<byte>)
    ensures bs != []
  {
    var n := c as int;
    if n < 0x80 then [n]
    else if n < 0x800 then [0xC0 + n / 0x40, 0x80 + n % 0x40]
    else if n < 0x1_0000 then [0xE0 + n / 0x1000, 0x80 + n / 0x40 % 0x40, 0x80 + n % 0x40]
    else [0xF0 + n / 0x4_0000, 0x80 + n / 0x1000 % 0x40, 0x80 + n / 0x40 % 0x40, 0x80 + n % 0x40]
  }

  function Encode(s: string): seq<byte> {
    if s == "" then [] else EncodeScalar(s[0]) + Encode(s[1..])
  }

  // ── Decoding ──────────────────────────────────────────────────────────────

  lemma TwoBytes(c: char, rest: seq<byte>)
    requires 0x80 <= c as int < 0x800
    ensures DecodeScalar(EncodeScalar(c) + rest) == Some((c, 2))
  {
    var n, bs := c as int, EncodeScalar(c) + rest;
    assert bs[0] == 0xC0 + n / 0x40 && bs[1] == 0x80 + n % 0x40;
    assert Low6(bs[1]) == n % 0x40;
  }

  lemma ThreeBytes(c: char, rest: seq<byte>)
    requires 0x800 <= c as int < 0x1_0000
    ensures DecodeScalar(EncodeScalar(c) + rest) == Some((c, 3))
  {
    var n, bs := c as int, EncodeScalar(c) + rest;
    assert bs[0] == 0xE0 + n / 0x1000 && bs[1] == 0x80 + n / 0x40 % 0x40 && bs[2] == 0x80 + n % 0x40;
    assert Low6(bs[1]) == n / 0x40 % 0x40 && Low6(bs[2]) == n % 0x40;
    assert n == n / 0x1000 * 0x1000 + n / 0x40 % 0x40 * 0x40 + n % 0x40;
  }

  lemma SixBitGroups(n: nat)
    ensures n / 0x1000 == n / 0x40 / 0x40 && n / 0x4_0000 == n / 0x1000 / 0x40
    ensures n == n / 0x4_0000 * 0x4_0000 + n / 0x1000 % 0x40 * 0x1000 + n / 0x40 % 0x40 * 0x40 + n % 0x40
  {
    var a, b, c := n / 0x40, n / 0x1000, n / 0x4_0000;
    assert b == a / 0x40;
    assert c == b / 0x40;
  }

  lemma FourByteValue(b0: byte, b1: byte, b2: byte, b3: byte, n: nat)
    requires 0x1_0000 <= n < 0x11_0000
    requires b0 == 0xF0 + n / 0x4_0000 && b1 == 0x80 + n / 0x1000 % 0x40
    requires b2 == 0x80 + n / 0x40 % 0x40 && b3 == 0x80 + n % 0x40
    ensures 0xF0 <= b0 < 0xF5 && Continuation(b1) && Continuation(b2) && Continuation(b3)
    ensures (b0 == 0xF0 ==> b1 >= 0x90) && (b0 == 0xF4 ==> b1 < 0x90)
    ensures (b0 as int - 0xF0) * 0x4_0000 + Low6(b1) * 0x1000 + Low6(b2) * 0x40 + Low6(b3) == n
  {
    SixBitGroups(n);
  }

  lemma FourBytes(c: char, rest: seq<byte>)
    requires 0x1_0000 <= c as int
    ensures DecodeScalar(EncodeScalar(c) + rest) == Some((c, 4))
  {
    var bs := EncodeScalar(c) + rest;
    FourByteValue(bs[0], bs[1], bs[2], bs[3], c as int);
  }

  lemma ScalarRoundTrip(c: char, rest: seq<byte>)
    ensures DecodeScalar(EncodeScalar(c) + rest) == Some((c, |EncodeScalar(c)|))
  {
    var n := c as int;
    if n < 0x80 {
      assert (EncodeScalar(c) + rest)[0] == n;
    } else if n < 0x800 {
      TwoBytes(c, rest);
    } else if n < 0x1_0000 {
      ThreeBytes(c, rest);
    } else {
      FourBytes(c, rest);
    }
  }

  /** Every string is decoded from its encoding. */
  lemma {:induction false} RoundTrip(s: string)
    ensures DecodeUtf8(Encode(s)) == Some(s)
  {
    if s != "" {
      var first, rest := EncodeScalar(s[0]), Encode(s[1..]);
      ScalarRoundTrip(s[0], rest);
      RoundTrip(s[1..]);
      assert (first + rest)[|first|..] == rest;
      assert [s[0]] + s[1..] == s;
    }
  }

  lemma GroupsAreDigits(n: nat, a: nat, b: nat, c: nat, d: nat)
    requires n == a * 0x4_0000 + b * 0x1000 + c * 0x40 + d && b < 0x40 && c < 0x40 && d < 0x40
    ensures n % 0x40 == d && n / 0x40 % 0x40 == c && n / 0x1000 % 0x40 == b && n / 0x4_0000 == a
  {
    SixBitGroups(n);
    var m, k := a * 0x1000 + b * 0x40 + c, a * 0x40 + b;
    assert n == 0x40 * m + d && m == 0x40 * k + c;
    assert n / 0x40 == m;
    assert m / 0x40 == k;
  }

  lemma DecodedFour(bs: seq<byte>, c: char)
    requires |bs| >= 4 && 0xF0 <= bs[0] < 0xF5 && Continuation(bs[1]) && Continuation(bs[2]) && Continuation(bs[3])
    requires (bs[0] == 0xF0 ==> bs[1] >= 0x90) && (bs[0] == 0xF4 ==> bs[1] < 0x90)
    requires c as int == (bs[0] as int - 0xF0) * 0x4_0000 + Low6(bs[1]) * 0x1000 + Low6(bs[2]) * 0x40 + Low6(bs[3])
    ensures EncodeScalar(c) == bs[..4]
  {
    GroupsAreDigits(c as int, bs[0] as int - 0xF0, Low6(bs[1]), Low6(bs[2]), Low6(bs[3]));
    assert c as int >= 0x1_0000;
  }

  lemma DecodedThree(bs: seq<byte>, c: char)
    requires |bs| >= 3 && 0xE0 <= bs[0] < 0xF0 && Continuation(bs[1]) && Continuation(bs[2])
    requires bs[0] == 0xE0 ==> bs[1] >= 0xA0
    requires c as int == (bs[0] as int - 0xE0) * 0x1000 + Low6(bs[1]) * 0x40 + Low6(bs[2])
    ensures EncodeScalar(c) == bs[..3]
  {
    var n := c as int;
    assert n % 0x40 == Low6(bs[2]) && n / 0x40 % 0x40 == Low6(bs[1]) && n / 0x1000 == bs[0] as int - 0xE0;
  }

  lemma DecodedTwo(bs: seq<byte>, c: char)
    requires |bs| >= 2 && 0xC2 <= bs[0] < 0xE0 && Continuation(bs[1])
    requires c as int == (bs[0] as int - 0xC0) * 0x40 + Low6(bs[1])
    ensures EncodeScalar(c) == bs[..2]
  {
  }

  lemma ScalarConverse(bs: seq<byte>)
    requires bs != [] && DecodeScalar(bs).Some?
    ensures var (c, n) := DecodeScalar(bs).value; EncodeScalar(c) == bs[..n]
  {
    var (c, n) := DecodeScalar(bs).value;
    if bs[0] < 0x80 {
      assert bs[..1] == [bs[0]];
    } else if n == 2 {
      DecodedTwo(bs, c);
    } else if n == 3 {
      DecodedThree(bs, c);
    } else {
      DecodedFour(bs, c);
    }
  }

  /** And only from its encoding: every other byte string is refused. */
  lemma {:induction false} DecodesIff(bs: seq<byte>, s: string)
    ensures DecodeUtf8(bs) == Some(s) <==> bs == Encode(s)
    decreases |bs|
  {
    RoundTrip(s);
    if DecodeUtf8(bs) == Some(s) && bs != [] {
      ScalarConverse(bs);
      var (c, n) := DecodeScalar(bs).value;
      var rest := DecodeUtf8(bs[n..]).value;
      DecodesIff(bs[n..], rest);
      assert s[1..] == rest && s[0] == c;
      assert bs == bs[..n] + bs[n..];
    }
  }

  // ── Shape ─────────────────────────────────────────────────────────────────

  lemma {:induction false} EncodeAppend(a: string, b: string)
    ensures Encode(a + b) == Encode(a) + Encode(b)
  {
    if a == "" {
      assert a + b == b;
    } else {
      EncodeAppend(a[1..], b);
      assert (a + b)[0] == a[0] && (a + b)[1..] == a[1..] + b;
      Assoc(EncodeScalar(a[0]), Encode(a[1..]), Encode(b));
    }
  }

  lemma Assoc(x: seq<byte>, y: seq<byte>, z: seq<byte>)
    ensures x + (y + z) == x + y + z
  {
  }

  /** An ASCII byte in the encoding is that character. */
  lemma {:induction false} AsciiStays(s: string, b: byte)
    requires b < 0x80 && b in Encode(s)
    ensures b as char in s
  {
    var first, rest := EncodeScalar(s[0]), Encode(s[1..]);
    if b in first {
      assert s[0] as int == b;
    } else {
      assert b in rest;
      AsciiStays(s[1..], b);
    }
  }

  lemma FirstByte(s: string)
    requires s != ""
    ensures Encode(s) != [] && (Encode(s)[0] == 13 ==> s[0] == '\r')
  {
    assert Encode(s)[0] == EncodeScalar(s[0])[0];
  }
}
