/** Octets, the exclusive-or of octets, and network byte order. */
module Bytes {

  type byte = b: int | 0 <= b < 256
  type bytes = seq<byte>

  /** The number of values that fit in `width` bits. */
  function Pow2(width: nat): (n: nat)
    ensures n > 0
  {
    if width == 0 then 1 else 2 * Pow2(width - 1)
  }

  /** Exclusive or of the lowest bits of two numbers. */
  function LowBit(a: nat, b: nat): (x: nat)
    ensures x < 2
  {
    if a % 2 == b % 2 then 0 else 1
  }

  /** Bitwise exclusive or of two numbers of `width` bits. */
  function XorBits(a: nat, b: nat, width: nat): (x: nat)
    requires a < Pow2(width) && b < Pow2(width)
    ensures x < Pow2(width)
  {
    if width == 0 then 0
    else LowBit(a, b) + 2 * XorBits(a / 2, b / 2, width - 1)
  }

  lemma HalfAndLow(low: nat, high: nat)
    requires low < 2
    ensures (low + 2 * high) / 2 == high && (low + 2 * high) % 2 == low
  {
  }

  lemma {:induction false} XorBitsCancels(a: nat, b: nat, width: nat)
    requires a < Pow2(width) && b < Pow2(width)
    ensures XorBits(XorBits(a, b, width), b, width) == a
  {
    if width > 0 {
      var high := XorBits(a / 2, b / 2, width - 1);
      HalfAndLow(LowBit(a, b), high);
      XorBitsCancels(a / 2, b / 2, width - 1);
    }
  }

  lemma Pow2Of8()
    ensures Pow2(8) == 256
  {
    assert Pow2(4) == 16;
  }

  function Xor(a: byte, b: byte): byte
  {
    Pow2Of8();
    XorBits(a, b, 8)
  }

  /** Exclusive or with the same octet twice is the identity. */
  lemma XorCancels(a: byte, b: byte)
    ensures Xor(Xor(a, b), b) == a
  {
    Pow2Of8();
    XorBitsCancels(a, b, 8);
  }

  /** Bit `k` of a number, counted from the lowest. */
  function Bit(n: nat, k: nat): (b: nat)
    ensures b < 2
  {
    n / Pow2(k) % 2
  }

  lemma MultipleAtLeast(x: int, d: nat)
    ensures x >= 1 ==> x * d >= d
    ensures x <= -1 ==> -x * d >= d
  {
    if x >= 1 {
      assert (x - 1) * d >= 0;
    } else if x <= -1 {
      assert (-x - 1) * d >= 0;
    }
  }

  lemma SmallMultiple(x: int, d: int)
    requires -d < x * d < d
    ensures x == 0
  {
    MultipleAtLeast(x, d);
  }

  lemma DivideIs(n: nat, d: nat, q: nat, r: nat)
    requires d > 0 && n == q * d + r && r < d
    ensures n / d == q
  {
    var x := n / d - q;
    assert x * d == r - n % d;
    SmallMultiple(x, d);
  }

  lemma HalveThenDivide(n: nat, p: nat)
    requires p > 0
    ensures n / (2 * p) == n / 2 / p
  {
    var q, r := n / 2 / p, n / 2 % p;
    assert q * (2 * p) == 2 * (q * p);
    DivideIs(n, 2 * p, q, n % 2 + 2 * r);
  }

  lemma BitOfHalf(n: nat, k: nat)
    requires k > 0
    ensures Bit(n, k) == Bit(n / 2, k - 1)
  {
    HalveThenDivide(n, Pow2(k - 1));
  }

  lemma LowestBit(n: nat)
    ensures Bit(n, 0) == n % 2
  {
    assert n / 1 == n;
  }

  lemma {:induction false} XorBitsAreBitwise(a: nat, b: nat, width: nat, k: nat)
    requires a < Pow2(width) && b < Pow2(width) && k < width
    ensures Bit(XorBits(a, b, width), k) == 1 <==> Bit(a, k) != Bit(b, k)
    decreases width
  {
    var x, high := XorBits(a, b, width), XorBits(a / 2, b / 2, width - 1);
    HalfAndLow(LowBit(a, b), high);
    if k == 0 {
      LowestBit(x);
      LowestBit(a);
      LowestBit(b);
    } else {
      BitOfHalf(x, k);
      BitOfHalf(a, k);
      BitOfHalf(b, k);
      XorBitsAreBitwise(a / 2, b / 2, width - 1, k - 1);
    }
  }

  /** A bit of the exclusive or is set exactly when the two octets differ in it. */
  lemma XorIsBitwise(a: byte, b: byte, k: nat)
    requires k < 8
    ensures Bit(Xor(a, b), k) == 1 <==> Bit(a, k) != Bit(b, k)
  {
    Pow2Of8();
    XorBitsAreBitwise(a, b, 8, k);
  }

  lemma {:induction false} XorBitsWithNothing(a: nat, width: nat)
    requires a < Pow2(width)
    ensures XorBits(a, 0, width) == a
    decreases width
  {
    if width > 0 {
      XorBitsWithNothing(a / 2, width - 1);
    }
  }

  /** Exclusive or with 1 turns over the lowest bit. */
  lemma XorWithOne(a: byte)
    ensures Xor(a, 1) == if a % 2 == 0 then a + 1 else a - 1
  {
    Pow2Of8();
    XorBitsWithNothing(a / 2, 7);
  }

  /** The number of values of `width` octets. */
  function Pow256(width: nat): nat
  {
    if width == 0 then 1 else 256 * Pow256(width - 1)
  }

  /** `n` as `width` octets, most significant first. */
  function BigEndian(n: nat, width: nat): (s: bytes)
    requires n < Pow256(width)
    ensures |s| == width
  {
    if width == 0 then [] else BigEndian(n / 256, width - 1) + [n % 256]
  }

  /** The number that the octets `s` denote, most significant first. */
  function FromBigEndian(s: bytes): (n: nat)
    ensures n < Pow256(|s|)
  {
    if s == [] then 0
    else FromBigEndian(s[..|s| - 1]) * 256 + s[|s| - 1]
  }

  lemma {:induction false} BigEndianRoundTrip(n: nat, width: nat)
    requires n < Pow256(width)
    ensures FromBigEndian(BigEndian(n, width)) == n
  {
    if width > 0 {
      BigEndianRoundTrip(n / 256, width - 1);
      var s := BigEndian(n, width);
      assert s[..|s| - 1] == BigEndian(n / 256, width - 1);
    }
  }

  lemma ByteOfNumber(high: nat, low: byte)
    ensures (high * 256 + low) / 256 == high && (high * 256 + low) % 256 == low
  {
  }

  lemma {:induction false} BigEndianOnto(s: bytes)
    ensures BigEndian(FromBigEndian(s), |s|) == s
  {
    if s != [] {
      var init, last := s[..|s| - 1], s[|s| - 1];
      BigEndianOnto(init);
      ByteOfNumber(FromBigEndian(init), last);
      assert s == init + [last];
    }
  }

  lemma ShiftSum(x: nat, power: nat, n: nat)
    ensures (x * power + n) * 256 == x * (256 * power) + n * 256
  {
  }

  /** The first octet counts most. */
  lemma {:induction false} FirstCountsMost(x: byte, s: bytes)
    ensures FromBigEndian([x] + s) == x * Pow256(|s|) + FromBigEndian(s)
    decreases |s|
  {
    if s == [] {
      assert [x] + s == [x] && [x][..0] == [];
      assert FromBigEndian([x]) == x && x * Pow256(0) == x;
    } else {
      var init, last := s[..|s| - 1], s[|s| - 1];
      assert ([x] + s)[..|s|] == [x] + init;
      FirstCountsMost(x, init);
      ShiftSum(x, Pow256(|init|), FromBigEndian(init));
    }
  }

  lemma Pow256Values()
    ensures Pow256(2) == 0x1_0000
    ensures Pow256(8) == 0x1_0000_0000_0000_0000
  {
    assert Pow256(4) == 0x1_0000_0000;
    assert Pow256(6) == 0x1_0000_0000_0000;
  }
}
