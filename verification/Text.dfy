/** The string operations the parsers use, with the standard library's edge
    cases written out, and decimal numbers. */
module Text {
  import opened Bytes

  const USIZE: nat := 0x1_0000_0000_0000_0000

  /** Arithmetic on `usize` wraps. */
  function WrapUsize(n: nat): nat {
    n % 0x1_0000_0000_0000_0000
  }

  lemma WrapUsizeSmall(n: nat)
    requires n < USIZE
    ensures WrapUsize(n) == n
  {
  }

  predicate StartsWith(s: string, prefix: string) {
    prefix <= s
  }

  predicate EndsWith(s: string, suffix: string) {
    |suffix| <= |s| && s[|s| - |suffix|..] == suffix
  }

  /** `str::find(char)`: the first position. */
  function Find(s: string, c: char): (r: Option<nat>)
    ensures r.Some? ==> r.value < |s| && s[r.value] == c && c !in s[..r.value]
    ensures r.None? ==> c !in s
  {
    if s == "" then None
    else if s[0] == c then Some(0)
    else
      match Find(s[1..], c)
      case None => None
      case Some(i) =>
        assert s[..i + 1] == [s[0]] + s[1..][..i];
        Some(i + 1)
  }

  lemma {:induction false} FindFirst(s: string, c: char, i: nat)
    requires i < |s| && s[i] == c && c !in s[..i]
    ensures Find(s, c) == Some(i)
  {
    if i > 0 {
      assert s[..i] == [s[0]] + s[1..][..i - 1];
      FindFirst(s[1..], c, i - 1);
    }
  }

  function Lower(c: char): char {
    if 'A' <= c <= 'Z' then (c as int + 32) as char else c
  }

  /** `to_ascii_lowercase`. */
  function ToAsciiLowercase(s: string): (r: string)
    ensures |r| == |s| && forall i :: 0 <= i < |s| ==> r[i] == Lower(s[i])
  {
    seq(|s|, i requires 0 <= i < |s| => Lower(s[i]))
  }

  // ── Decimal numbers ───────────────────────────────────────────────────────

  predicate IsDigit(c: char) {
    '0' <= c <= '9'
  }

  function DigitChar(d: nat): (c: char)
    requires d < 10
    ensures IsDigit(c) && c as int == '0' as int + d
  {
    ('0' as int + d) as char
  }

  /** `Display` for unsigned integers. */
  function Print(n: nat): (s: string)
    ensures s != "" && forall i :: 0 <= i < |s| ==> IsDigit(s[i])
  {
    if n < 10 then [DigitChar(n)] else Print(n / 10) + [DigitChar(n % 10)]
  }

  function Digits(s: string): Option<nat> {
    if s == "" then Some(0)
    else
      var last := s[|s| - 1];
      match Digits(s[..|s| - 1])
      case None => None
      case Some(n) => if IsDigit(last) then Some(10 * n + (last as int - '0' as int)) else None
  }

  /** `str::parse::<usize>`: an optional plus sign, then at least one digit, and
      a value that fits in 64 bits. */
  function ParseUsize(s: string): Option<nat> {
    var body := if StartsWith(s, "+") then s[1..] else s;
    if body == "" then None
    else
      match Digits(body)
      case None => None
      case Some(n) => if n < USIZE then Some(n) else None
  }

  lemma {:induction false} DigitsOfPrint(n: nat)
    ensures Digits(Print(n)) == Some(n)
  {
    var s := Print(n);
    if n < 10 {
      assert Digits(s[..0]) == Some(0);
    } else {
      DigitsOfPrint(n / 10);
      assert s[..|s| - 1] == Print(n / 10);
    }
  }

  lemma {:induction false} DigitsIff(s: string)
    ensures Digits(s).Some? <==> forall i :: 0 <= i < |s| ==> IsDigit(s[i])
  {
    if s != "" {
      DigitsIff(s[..|s| - 1]);
      assert s == s[..|s| - 1] + [s[|s| - 1]];
    }
  }

  /** What parses at all: digits after an optional plus sign, if the number fits. */
  lemma ParsesIff(s: string)
    ensures ParseUsize(s).Some?
       <==> && var body := if s != "" && s[0] == '+' then s[1..] else s;
            && body != "" && (forall i :: 0 <= i < |body| ==> IsDigit(body[i]))
            && Digits(body).Some? && Digits(body).value < USIZE
    ensures ParseUsize(s).Some? ==>
              ParseUsize(s) == Digits(if s != "" && s[0] == '+' then s[1..] else s)
  {
    DigitsIff(s);
    if s != "" { DigitsIff(s[1..]); }
    assert StartsWith(s, "+") <==> s != "" && s[0] == '+';
  }

  /** Printing and parsing are inverse on every 64-bit number. */
  lemma ParseOfPrint(n: nat)
    ensures ParseUsize(Print(n)) == if n < USIZE then Some(n) else None
  {
    DigitsOfPrint(n);
    assert !StartsWith(Print(n), "+") by {
      assert IsDigit(Print(n)[0]);
    }
  }
}
