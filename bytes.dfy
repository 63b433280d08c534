/** Bytes, big-endian integers and the IEEE-754 binary64 pattern of an
    integer, as Node's Buffer writes them. */
module Bytes {

  newtype byte = x: int | 0 <= x < 0x100

  /** The 8-byte payload of a double. */
  type Bytes8 = s: seq<byte> | |s| == 8 witness [0, 0, 0, 0, 0, 0, 0, 0]

  function Pow256(k: nat): (r: nat)
    ensures r >= 1
  {
    if k == 0 then 1 else 0x100 * Pow256(k - 1)
  }

  /** The k big-endian bytes of x; the bytes above the k-th are dropped. */
  function BigEndian(x: nat, k: nat): (r: seq<byte>)
    ensures |r| == k
  {
    if k == 0 then [] else BigEndian(x / 0x100, k - 1) + [(x % 0x100) as byte]
  }

  /** The unsigned value of a big-endian byte string. */
  function FromBigEndian(bs: seq<byte>): (r: nat)
    ensures r < Pow256(|bs|)
  {
    if bs == [] then 0
    else FromBigEndian(bs[..|bs| - 1]) * 0x100 + bs[|bs| - 1] as nat
  }

  lemma {:induction false} BigEndianRoundTrip(x: nat, k: nat)
    requires x < Pow256(k)
    ensures FromBigEndian(BigEndian(x, k)) == x
  {
    if k > 0 {
      var bs := BigEndian(x, k);
      assert bs[..k - 1] == BigEndian(x / 0x100, k - 1);
      BigEndianRoundTrip(x / 0x100, k - 1);
    }
  }

  lemma Pow256Widths()
    ensures Pow256(1) == 0x100 && Pow256(2) == 0x1_0000 && Pow256(4) == 0x1_0000_0000
  {
    assert Pow256(2) == 0x100 * Pow256(1);
    assert Pow256(4) == 0x100 * Pow256(3);
  }

  /** The first byte of a two- or four-byte big-endian number is its top eight bits. */
  lemma BigEndianLead(x: nat, k: nat)
    requires (k == 2 && x < 0x1_0000) || (k == 4 && x < 0x1_0000_0000)
    ensures k == 2 ==> BigEndian(x, k)[0] as int == x / 0x100
    ensures k == 4 ==> BigEndian(x, k)[0] as int == x / 0x100_0000
  {
    if k == 2 {
      assert BigEndian(x, 2)[0] == BigEndian(x / 0x100, 1)[0];
      assert BigEndian(x / 0x100, 1) == BigEndian(x / 0x100 / 0x100, 0) + [(x / 0x100 % 0x100) as byte];
    } else {
      assert BigEndian(x, 4)[0] == BigEndian(x / 0x100, 3)[0];
      assert BigEndian(x / 0x100, 3)[0] == BigEndian(x / 0x100 / 0x100, 2)[0];
      assert BigEndian(x / 0x100 / 0x100, 2)[0] == BigEndian(x / 0x100 / 0x100 / 0x100, 1)[0];
      var y := x / 0x100 / 0x100 / 0x100;
      assert BigEndian(y, 1) == BigEndian(y / 0x100, 0) + [(y % 0x100) as byte];
      assert y == x / 0x100_0000;
    }
  }

  // ---------------------------------------------------------------------
  // binary64 (writeDoubleBE) for integer values

  function Pow2(k: nat): (r: nat)
    ensures r >= 1
  {
    if k == 0 then 1 else 2 * Pow2(k - 1)
  }

  lemma {:induction false} Pow2Add(a: nat, b: nat)
    ensures Pow2(a + b) == Pow2(a) * Pow2(b)
  {
    if a > 0 {
      Pow2Add(a - 1, b);
    }
  }

  /** The exponent e with 2^e <= m < 2^(e+1). */
  function FloorLog2(m: nat): (e: nat)
    requires m >= 1
    ensures Pow2(e) <= m < Pow2(e + 1)
  {
    if m == 1 then 0 else 1 + FloorLog2(m / 2)
  }

  /** m / 2^k rounded to the nearest integer, ties to even (IEEE-754 default rounding). */
  function RoundHalfEven(m: nat, k: nat): (q: nat)
    ensures m / Pow2(k) <= q <= m / Pow2(k) + 1
  {
    RoundDiv(m, Pow2(k))
  }

  /** m / p rounded to the nearest integer, ties to even. */
  function RoundDiv(m: nat, p: nat): (q: nat)
    requires p >= 1
    ensures m / p <= q <= m / p + 1
  {
    var d := m / p;
    var r := m % p;
    if 2 * r > p || (2 * r == p && d % 2 == 1) then d + 1 else d
  }

  lemma MulMono(a: int, b: int, c: nat)
    ensures a <= b ==> a * c <= b * c
  {
  }

  lemma DivBounds(m: nat, d: nat, lo: nat, hi: nat)
    requires d >= 1 && lo * d <= m < hi * d
    ensures lo <= m / d < hi
  {
    var q, r := m / d, m % d;
    assert m == q * d + r && r < d;
    assert (q + 1) * d == q * d + d;
    MulMono(q + 1, lo, d);
    MulMono(hi, q, d);
  }

  const Two52: nat := 0x10_0000_0000_0000
  const Two53: nat := 0x20_0000_0000_0000

  lemma Pow2Value52()
    ensures Pow2(52) == Two52 && Pow2(53) == Two53
  {
    assert Pow2(10) == 0x400 && Pow2(2) == 4;
    Pow2Add(10, 10);
    Pow2Add(20, 20);
    Pow2Add(40, 10);
    Pow2Add(50, 2);
  }

  /** Scaling a bracket lo <= m < hi by a positive factor. */
  lemma ScaleBracket(lo: nat, m: nat, hi: nat, a: nat)
    requires lo <= m < hi && a >= 1
    ensures lo * a <= m * a < hi * a
  {
    MulMono(lo, m, a);
    MulMono(m + 1, hi, a);
    assert (m + 1) * a == m * a + a;
  }

  /** The significand bound of Normalize when m needs no rounding. */
  lemma ExactSignificand(m: nat, e: nat)
    requires e <= 52 && Pow2(e) <= m < Pow2(e + 1)
    ensures Two52 <= m * Pow2(52 - e) < Two53
  {
    var a := Pow2(52 - e);
    Pow2Value52();
    Pow2Add(e, 52 - e);
    Pow2Add(e + 1, 52 - e);
    assert Pow2(e) * a == Two52 && Pow2(e + 1) * a == Two53;
    ScaleBracket(Pow2(e), m, Pow2(e + 1), a);
  }

  /** The significand bound of Normalize before rounding when m is wider than 53 bits. */
  lemma TruncatedSignificand(m: nat, e: nat)
    requires e > 52 && Pow2(e) <= m < Pow2(e + 1)
    ensures Two52 <= m / Pow2(e - 52) < Two53
  {
    Pow2Value52();
    Pow2Add(52, e - 52);
    Pow2Add(53, e - 52);
    DivBounds(m, Pow2(e - 52), Two52, Two53);
  }

  /** The 53-bit significand (leading one included) and the binary exponent
      of the binary64 value nearest to m >= 1. */
  function Normalize(m: nat): (r: (nat, nat))
    requires m >= 1
    ensures Two52 <= r.0 < Two53
  {
    var e := FloorLog2(m);
    if e <= 52 then
      ExactSignificand(m, e);
      (m * Pow2(52 - e), e)
    else
      TruncatedSignificand(m, e);
      var q := RoundHalfEven(m, e - 52);
      if q == Two53 then (Two52, e + 1) else (q, e)
  }

  /** The eight big-endian bytes writeDoubleBE stores for the integer n:
      sign bit, 11-bit biased exponent, 52-bit fraction; magnitudes beyond
      the largest finite double become +-Infinity, and 0 is +0. */
  function Binary64OfInt(n: int): (r: Bytes8)
  {
    var sign: nat := if n < 0 then 0x8000_0000_0000_0000 else 0;
    var m: nat := if n < 0 then -n else n;
    if m == 0 then BigEndian(0, 8)
    else
      var normal := Normalize(m);
      var biased: nat := normal.1 + 1023;
      var bits: nat := if biased >= 0x7FF then sign + 0x7FF * Two52
                       else sign + biased * Two52 + (normal.0 - Two52);
      BigEndian(bits, 8)
  }

  /** A binary64 pattern that is a NaN: all exponent bits set, fraction non-zero. */
  predicate IsNaN(bits: Bytes8)
  {
    && bits[0] % 0x80 == 0x7F
    && bits[1] >= 0xF0
    && (bits[1] % 0x10 != 0 || bits[2] != 0 || bits[3] != 0 || bits[4] != 0
        || bits[5] != 0 || bits[6] != 0 || bits[7] != 0)
  }

  /** +0 and -0: every bit zero except, perhaps, the sign. */
  predicate IsZero(bits: Bytes8)
  {
    bits[0] % 0x80 == 0 && bits[1..] == [0, 0, 0, 0, 0, 0, 0]
  }
}
