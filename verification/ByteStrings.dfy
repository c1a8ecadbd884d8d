/** Byte strings and fixed-width little-endian integers. */
module ByteStrings {

  newtype byte = i: int | 0 <= i < 256

  type Bytes = seq<byte>

  /** 256 to the power `width`: the number of values `width` bytes can hold. */
  function Span(width: nat): (n: nat)
    ensures n > 0
  {
    if width == 0 then 1 else 256 * Span(width - 1)
  }

  /** The low `width` bytes of `n`, least significant first (`to_le_bytes`, after an `as` cast). */
  function LittleEndian(n: nat, width: nat): (bytes: Bytes)
    ensures |bytes| == width
  {
    if width == 0 then [] else [(n % 256) as byte] + LittleEndian(n / 256, width - 1)
  }

  function FromLittleEndian(bytes: Bytes): nat {
    if bytes == [] then 0 else bytes[0] as nat + 256 * FromLittleEndian(bytes[1..])
  }

  lemma {:induction false} LittleEndianRoundTrip(n: nat, width: nat)
    requires n < Span(width)
    ensures FromLittleEndian(LittleEndian(n, width)) == n
  {
    if width > 0 {
      assert LittleEndian(n, width)[1..] == LittleEndian(n / 256, width - 1);
      LittleEndianRoundTrip(n / 256, width - 1);
    }
  }

  /** Byte `i` is the digit of 256 to the power `i`. */
  lemma {:induction false} LittleEndianDigit(n: nat, width: nat, i: nat)
    requires i < width
    ensures LittleEndian(n, width)[i] as nat == n / Span(i) % 256
  {
    if i > 0 {
      LittleEndianDigit(n / 256, width - 1, i - 1);
      DivideTwice(n, Span(i - 1));
    }
  }

  lemma DivideTwice(n: nat, d: nat)
    requires d > 0
    ensures n / (256 * d) == n / 256 / d
  {
    var q, r := n / 256, n % 256;
    var u, v := q / d, q % d;
    assert n == 256 * (d * u + v) + r;
    assert n == (256 * d) * u + (256 * v + r);
    assert 0 <= 256 * v + r < 256 * d;
    QuotientUnique(n, 256 * d, u, 256 * v + r);
  }

  lemma QuotientUnique(n: nat, d: nat, q: nat, r: nat)
    requires d > 0 && n == d * q + r && r < d
    ensures n / d == q
  {
    var p: int := n / d;
    assert n == d * p + n % d;
    assert d * (p - q) == r - n % d;
    MultipleAtLeast(d, p - q);
  }

  lemma MultipleAtLeast(d: int, k: int)
    requires d > 0
    ensures k >= 1 ==> d * k >= d
    ensures k <= -1 ==> d * k <= -d
  {
  }

  /** The other way round, for any bytes. */
  lemma {:induction false} BytesRoundTrip(bytes: Bytes)
    ensures FromLittleEndian(bytes) < Span(|bytes|)
    ensures LittleEndian(FromLittleEndian(bytes), |bytes|) == bytes
  {
    if bytes != [] {
      var first, rest := bytes[0] as nat, FromLittleEndian(bytes[1..]);
      BytesRoundTrip(bytes[1..]);
      var n := first + 256 * rest;
      assert n % 256 == first && n / 256 == rest;
      assert LittleEndian(n, |bytes|) == [bytes[0]] + LittleEndian(rest, |bytes| - 1);
    }
  }

  lemma SpanOfU32()
    ensures Span(4) == 0x1_0000_0000
  {
    assert Span(2) == 256 * Span(1) == 65536;
    assert Span(4) == 256 * Span(3) == 65536 * Span(2);
  }

  lemma SpanOfU64()
    ensures Span(8) == 0x1_0000_0000_0000_0000
  {
    SpanOfU32();
    assert Span(6) == 256 * Span(5) == 65536 * Span(4);
    assert Span(8) == 256 * Span(7) == 65536 * Span(6);
  }

  /** The bytes of a literal made of ASCII characters. */
  function Ascii(s: string): (bytes: Bytes)
    requires forall i | 0 <= i < |s| :: s[i] < 128 as char
    ensures |bytes| == |s|
    ensures forall i | 0 <= i < |s| :: bytes[i] as int == s[i] as int
  {
    seq(|s|, i requires 0 <= i < |s| => s[i] as int as byte)
  }
}
