/** Bytes, fixed-width little-endian integers, and the byte stream that every
    reader of the inference multiplexer is built on. */
module Bytes {

  datatype Option<+T> = None | Some(value: T)

  datatype Result<+T, +E> = Ok(value: T) | Err(error: E)

  type byte = x: int | 0 <= x < 0x100

  function Pow(base: nat, exponent: nat): nat {
    if exponent == 0 then 1 else base * Pow(base, exponent - 1)
  }

  /** `uN::to_le_bytes`: the `width` low bytes of `n`, least significant first. */
  function ToLittleEndian(n: nat, width: nat): (bs: seq<byte>)
    ensures |bs| == width
  {
    if width == 0 then [] else [n % 0x100] + ToLittleEndian(n / 0x100, width - 1)
  }

  /** `uN::from_le_bytes`. */
  function FromLittleEndian(bs: seq<byte>): nat {
    if bs == [] then 0 else bs[0] + 0x100 * FromLittleEndian(bs[1..])
  }

  lemma DivideTwice(n: nat, b: nat)
    requires b > 0
    ensures n / 0x100 / b == n / (0x100 * b)
  {
    var q, r := n / 0x100, n % 0x100;
    var qq, rr := q / b, q % b;
    ScaledProduct(b, qq);
    QuotientIs(n, 0x100 * b, qq, 0x100 * rr + r);
  }

  lemma ScaledProduct(b: nat, q: nat)
    ensures (0x100 * b) * q == 0x100 * (b * q)
  {
  }

  lemma QuotientIs(n: nat, d: nat, q: nat, r: nat)
    requires d > 0 && n == d * q + r && r < d
    ensures n / d == q
  {
    var q', r' := n / d, n % d;
    assert n == d * q' + r';
    Distributes(d, q, q');
    SmallMultiple(d, q - q');
  }

  lemma Distributes(d: int, q: int, q': int)
    ensures d * (q - q') == d * q - d * q'
  {
  }

  lemma SmallMultiple(d: int, k: int)
    requires d > 0 && -d < d * k < d
    ensures k == 0
  {
    Distributes(d, k, 1);
    Distributes(d, k, -1);
  }

  /** Byte `i` is the `i`-th base-256 digit, the least significant one first. */
  lemma {:induction false} LittleEndianByte(n: nat, width: nat, i: nat)
    requires i < width
    ensures Pow(0x100, i) > 0 && ToLittleEndian(n, width)[i] == n / Pow(0x100, i) % 0x100
  {
    if i > 0 {
      LittleEndianByte(n / 0x100, width - 1, i - 1);
      DivideTwice(n, Pow(0x100, i - 1));
    }
  }

  lemma {:induction false} FromToLittleEndian(n: nat, width: nat)
    requires n < Pow(0x100, width)
    ensures FromLittleEndian(ToLittleEndian(n, width)) == n
  {
    if width > 0 {
      FromToLittleEndian(n / 0x100, width - 1);
      assert ToLittleEndian(n, width)[1..] == ToLittleEndian(n / 0x100, width - 1);
    }
  }

  lemma {:induction false} ToFromLittleEndian(bs: seq<byte>)
    ensures FromLittleEndian(bs) < Pow(0x100, |bs|)
    ensures ToLittleEndian(FromLittleEndian(bs), |bs|) == bs
  {
    if bs != [] {
      ToFromLittleEndian(bs[1..]);
      assert FromLittleEndian(bs) % 0x100 == bs[0];
      assert FromLittleEndian(bs) / 0x100 == FromLittleEndian(bs[1..]);
    }
  }

  /** A stream that delivers `input` in order and then ends. */
  class ByteReader {
    const input: seq<byte>
    var pos: nat

    ghost predicate Valid()
      reads this
    {
      pos <= |input|
    }

    ghost function Remaining(): seq<byte>
      requires Valid()
      reads this
    {
      input[pos..]
    }

    constructor (input: seq<byte>)
      ensures Valid() && Remaining() == input
    {
      this.input := input;
      pos := 0;
    }

    /** `AsyncReadExt::read_exact`: all `n` bytes, or an error once the stream
        has ended short of them. */
    method ReadExact(n: nat) returns (r: Option<seq<byte>>)
      requires Valid()
      modifies this
      ensures Valid()
      ensures r.Some? <==> n <= |old(Remaining())|
      ensures r.Some? ==> r.value == old(Remaining())[..n] && Remaining() == old(Remaining())[n..]
      ensures r.None? ==> Remaining() == []
    {
      if n <= |input| - pos {
        r := Some(input[pos..pos + n]);
        pos := pos + n;
      } else {
        r := None;
        pos := |input|;
      }
    }
  }

  class ByteWriter {
    var output: seq<byte>

    constructor ()
      ensures output == []
    {
      output := [];
    }

    method WriteAll(bytes: seq<byte>)
      modifies this
      ensures output == old(output) + bytes
    {
      output := output + bytes;
    }
  }
}
