/** Bytes and big-endian integers, as Go's encoding/binary lays them out. */
module Bytes {
  type Byte = b: int | 0 <= b < 256

  /** 256 to the power of `width`. */
  function Pow256(width: nat): (p: nat)
    ensures p > 0
  {
    if width == 0 then 1 else 256 * Pow256(width - 1)
  }

  /** The low `width` bytes of `n`, most significant first. */
  function BigEndian(n: nat, width: nat): (s: seq<Byte>)
    ensures |s| == width
  {
    if width == 0 then [] else BigEndian(n / 256, width - 1) + [n % 256]
  }

  function FromBigEndian(s: seq<Byte>): nat {
    if s == [] then 0 else 256 * FromBigEndian(s[..|s| - 1]) + s[|s| - 1]
  }

  lemma {:induction false} FromBigEndianBound(s: seq<Byte>)
    ensures FromBigEndian(s) < Pow256(|s|)
  {
    if s != [] {
      FromBigEndianBound(s[..|s| - 1]);
    }
  }

  /** Decoding inverts encoding for every number that fits. */
  lemma {:induction false} DecodeEncoded(n: nat, width: nat)
    requires n < Pow256(width)
    ensures FromBigEndian(BigEndian(n, width)) == n
  {
    if width > 0 {
      DecodeEncoded(n / 256, width - 1);
      assert BigEndian(n, width)[..width - 1] == BigEndian(n / 256, width - 1);
    }
  }

  /** Encoding inverts decoding for every byte string. */
  lemma {:induction false} EncodeDecoded(s: seq<Byte>)
    ensures BigEndian(FromBigEndian(s), |s|) == s
  {
    if s != [] {
      var n := FromBigEndian(s);
      assert n / 256 == FromBigEndian(s[..|s| - 1]) && n % 256 == s[|s| - 1];
      EncodeDecoded(s[..|s| - 1]);
    }
  }

  /** The bytes of a number, the most significant first. */
  lemma {:induction false} MostSignificantFirst(n: nat, width: nat, k: nat)
    requires k < width
    ensures BigEndian(n, width)[k] == (n / Pow256(width - 1 - k)) % 256
  {
    if k < width - 1 {
      MostSignificantFirst(n / 256, width - 1, k);
      DivTwice(n, Pow256(width - 2 - k));
    }
  }

  lemma DivTwice(n: nat, p: nat)
    requires p > 0
    ensures n / 256 / p == n / (256 * p)
  {
    var q, r := n / 256 / p, n / 256 % p;
    assert n / 256 == q * p + r;
    var rest := 256 * r + n % 256;
    assert n == q * (256 * p) + rest by {
      assert n == 256 * (n / 256) + n % 256;
      assert 256 * (q * p) == q * (256 * p);
    }
    assert 0 <= rest < 256 * p;
    QuotientIs(n, 256 * p, q, rest);
  }

  lemma QuotientIs(n: nat, d: nat, q: nat, r: nat)
    requires n == q * d + r && r < d
    ensures n / d == q
  {
    var e := n / d - q;
    assert d * e == r - n % d by {
      assert d * (n / d) + n % d == q * d + r;
      assert d * e == d * (n / d) - q * d;
    }
    Multiples(d, e);
  }

  lemma Multiples(d: nat, e: int)
    ensures e >= 1 ==> d * e >= d
    ensures e <= -1 ==> d * e + d <= 0
  {
  }

  const TWO_16 := 0x1_0000
  const TWO_31 := 0x8000_0000
  const TWO_32 := 0x1_0000_0000
  const TWO_63 := 0x8000_0000_0000_0000
  const TWO_64 := 0x1_0000_0000_0000_0000

  /** Go's int64, and a 64-bit pattern. */
  type I64 = x: int | -TWO_63 <= x < TWO_63
  type U64 = x: int | 0 <= x < TWO_64

  lemma Powers()
    ensures Pow256(2) == TWO_16 && Pow256(4) == TWO_32 && Pow256(8) == TWO_64
  {
    assert Pow256(1) == 256 && Pow256(2) == TWO_16 && Pow256(3) == 0x100_0000 && Pow256(4) == TWO_32;
    assert Pow256(5) == 0x100_0000_0000 && Pow256(6) == 0x1_0000_0000_0000 && Pow256(7) == 0x100_0000_0000_0000;
  }

  // ---- Two's complement ----------------------------------------------------

  predicate Fits(x: int, width: nat) {
    0 - Pow256(width) as int <= 2 * x < Pow256(width)
  }

  /** Go's conversion to an unsigned integer of `width` bytes. */
  function Unsigned(x: int, width: nat): nat
    requires Fits(x, width)
  {
    if x < 0 then x + Pow256(width) else x
  }

  /** Go's conversion back to the signed integer. */
  function Signed(u: nat, width: nat): int {
    if 2 * u >= Pow256(width) then u - Pow256(width) else u
  }

  function EncodeInt(x: int, width: nat): (s: seq<Byte>)
    requires Fits(x, width)
    ensures |s| == width
  {
    BigEndian(Unsigned(x, width), width)
  }

  function DecodeInt(s: seq<Byte>): int { Signed(FromBigEndian(s), |s|) }

  lemma IntRoundTrip(x: int, width: nat)
    requires Fits(x, width)
    ensures DecodeInt(EncodeInt(x, width)) == x
  {
    DecodeEncoded(Unsigned(x, width), width);
  }

  /** Two's complement: the top bit says whether the number is negative. */
  lemma TopBitIsSign(s: seq<Byte>)
    requires |s| > 0
    ensures DecodeInt(s) == FromBigEndian(s) - if s[0] >= 128 then Pow256(|s|) else 0
  {
    var p, top := Pow256(|s| - 1), s[0] as nat;
    TopByteDecides(s);
    assert Pow256(|s|) == 256 * p;
    if top >= 128 {
      TimesGrows(128, top, p);
    } else {
      TimesGrows(top + 1, 128, p);
    }
  }

  lemma {:induction false} TopByteDecides(s: seq<Byte>)
    requires |s| > 0
    ensures s[0] * Pow256(|s| - 1) <= FromBigEndian(s) < (s[0] + 1) * Pow256(|s| - 1)
  {
    if |s| > 1 {
      var rest := s[..|s| - 1];
      TopByteDecides(rest);
      OneMoreByte(s[0], Pow256(|rest| - 1), FromBigEndian(rest), s[|s| - 1]);
    } else {
      assert s[..0] == [] && FromBigEndian(s) == s[0];
    }
  }

  lemma OneMoreByte(top: nat, p: nat, n: nat, last: Byte)
    requires top * p <= n < (top + 1) * p
    ensures top * (256 * p) <= 256 * n + last < (top + 1) * (256 * p)
  {
    assert top * (256 * p) == 256 * (top * p);
    assert (top + 1) * (256 * p) == 256 * ((top + 1) * p);
  }

  lemma TimesGrows(a: nat, b: nat, p: nat)
    requires a <= b
    ensures a * p <= b * p
  {
  }

  lemma DecodedFits(s: seq<Byte>)
    requires |s| > 0
    ensures Fits(DecodeInt(s), |s|) && EncodeInt(DecodeInt(s), |s|) == s
  {
    FromBigEndianBound(s);
    EncodeDecoded(s);
  }
}
