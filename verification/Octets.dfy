/** Bytes and big-endian numbers, shared by the wire formats. */
module Octets {

  type byte = n: nat | n < 256

  /** A number truncated to its low byte. */
  function ByteOf(n: nat): byte { n % 256 }

  // ---- bit operations, bit by bit --------------------------------------------------------------

  function Pow2(width: nat): (p: nat)
    ensures p > 0
  {
    if width == 0 then 1 else 2 * Pow2(width - 1)
  }

  /** Exclusive or of the low `width` bits. */
  function XorBits(a: nat, b: nat, width: nat): (x: nat)
    ensures x < Pow2(width)
  {
    if width == 0 then 0 else (if a % 2 == b % 2 then 0 else 1) + 2 * XorBits(a / 2, b / 2, width - 1)
  }

  /** Inclusive or of the low `width` bits. */
  function OrBits(a: nat, b: nat, width: nat): (x: nat)
    ensures x < Pow2(width)
  {
    if width == 0 then 0 else (if a % 2 == 0 && b % 2 == 0 then 0 else 1) + 2 * OrBits(a / 2, b / 2, width - 1)
  }

  /** A number is its low bit and its half. */
  lemma LowBit(a: nat)
    ensures a == 2 * (a / 2) + a % 2 && (a % 2 == 0 || a % 2 == 1)
  {
  }

  lemma FromLowBit(bit: nat, half: nat)
    requires bit == 0 || bit == 1
    ensures (bit + 2 * half) % 2 == bit && (bit + 2 * half) / 2 == half
  {
  }

  lemma {:induction false} XorBitsTwice(a: nat, b: nat, width: nat)
    requires a < Pow2(width)
    ensures XorBits(XorBits(a, b, width), b, width) == a
  {
    if width > 0 {
      LowBit(a);
      LowBit(b);
      FromLowBit(if a % 2 == b % 2 then 0 else 1, XorBits(a / 2, b / 2, width - 1));
      XorBitsTwice(a / 2, b / 2, width - 1);
    }
  }

  lemma {:induction false} XorBitsZero(a: nat, b: nat, width: nat)
    requires a < Pow2(width) && b < Pow2(width)
    ensures XorBits(a, b, width) == 0 <==> a == b
  {
    if width > 0 {
      LowBit(a);
      LowBit(b);
      XorBitsZero(a / 2, b / 2, width - 1);
    }
  }

  lemma {:induction false} OrBitsZero(a: nat, b: nat, width: nat)
    requires a < Pow2(width) && b < Pow2(width)
    ensures OrBits(a, b, width) == 0 <==> a == 0 && b == 0
  {
    if width > 0 {
      LowBit(a);
      LowBit(b);
      OrBitsZero(a / 2, b / 2, width - 1);
    }
  }

  lemma Pow2Of8()
    ensures Pow2(8) == 256
  {
    assert Pow2(4) == 16;
  }

  function XorByte(a: byte, b: byte): byte {
    Pow2Of8();
    XorBits(a, b, 8)
  }

  function OrByte(a: byte, b: byte): byte {
    Pow2Of8();
    OrBits(a, b, 8)
  }

  lemma XorByteTwice(a: byte, b: byte)
    ensures XorByte(XorByte(a, b), b) == a
  {
    Pow2Of8();
    XorBitsTwice(a, b, 8);
  }

  lemma OrOfXor(d: byte, x: byte, y: byte)
    ensures OrByte(d, XorByte(x, y)) == 0 <==> d == 0 && x == y
  {
    Pow2Of8();
    OrBitsZero(d, XorByte(x, y), 8);
    XorBitsZero(x, y, 8);
  }

  // ---- big-endian numbers ------------------------------------------------------------------------

  /** The low `width` bytes of `n`, most significant first. */
  function BigEndian(n: nat, width: nat): (s: seq<byte>)
    ensures |s| == width
  {
    if width == 0 then [] else BigEndian(n / 256, width - 1) + [ByteOf(n)]
  }

  /** Network order, byte by byte. */
  lemma BigEndianBytes(n: nat)
    ensures BigEndian(n, 2) == [n / 0x100 % 256, n % 256]
    ensures BigEndian(n, 4) == [n / 0x100_0000 % 256, n / 0x1_0000 % 256, n / 0x100 % 256, n % 256]
  {
    assert n / 0x1_0000 == n / 256 / 256 && n / 0x100_0000 == n / 256 / 256 / 256;
    assert BigEndian(n, 1) == [n % 256];
    assert BigEndian(n / 256, 1) == [n / 256 % 256];
    var m := n / 256 / 256;
    assert BigEndian(m / 256, 1) == [m / 256 % 256];
    assert BigEndian(m, 2) == [m / 256 % 256, m % 256];
    assert BigEndian(n / 256, 3) == [m / 256 % 256, m % 256, n / 256 % 256];
  }

  function Value(s: seq<byte>): nat {
    if s == [] then 0 else Value(s[..|s| - 1]) * 256 + s[|s| - 1]
  }

  function Pow256(w: nat): (p: nat)
    ensures p > 0
  {
    if w == 0 then 1 else 256 * Pow256(w - 1)
  }

  lemma MulMonotone(m: nat, a: nat, b: nat)
    requires a <= b
    ensures m * a <= m * b
  {
  }

  lemma ModIs(n: nat, m: nat, q: nat, r: nat)
    requires m > 0 && n == m * q + r && r < m
    ensures n % m == r
  {
    var q', r' := n / m, n % m;
    assert n == m * q' + r';
    if q' < q {
      MulMonotone(m, q' + 1, q);
    } else if q < q' {
      MulMonotone(m, q + 1, q');
    }
  }

  lemma SplitLow(n: nat, p: nat)
    requires p > 0
    ensures (n / 256 % p) * 256 + n % 256 == n % (256 * p)
  {
    var q, r := n / 256 / p, n / 256 % p;
    assert n / 256 == p * q + r;
    assert 256 * (p * q + r) == (256 * p) * q + 256 * r;
    ModIs(n, 256 * p, q, 256 * r + n % 256);
  }

  /** Writing a number in `width` bytes and reading it back truncates it to that width. */
  lemma {:induction false} ValueOfBigEndian(n: nat, width: nat)
    ensures Value(BigEndian(n, width)) == n % Pow256(width)
  {
    if width > 0 {
      ValueOfBigEndian(n / 256, width - 1);
      SplitLow(n, Pow256(width - 1));
      var s := BigEndian(n, width);
      assert s[..|s| - 1] == BigEndian(n / 256, width - 1);
    }
  }

  lemma Pow256Values()
    ensures Pow256(1) == 0x100 && Pow256(2) == 0x1_0000 && Pow256(4) == 0x1_0000_0000
  {
    assert Pow256(3) == 0x100_0000;
  }

  /** A hash with 16-byte results, otherwise unknown. */
  type Digest = s: seq<byte> | |s| == 16 witness seq(16, _ => 0)
  type Hash = seq<byte> -> Digest

  function Xor(a: seq<byte>, b: seq<byte>): (c: seq<byte>)
    requires |a| <= |b|
    ensures |c| == |a|
  {
    seq(|a|, i requires 0 <= i < |a| => XorByte(a[i], b[i]))
  }

  lemma XorTwice(a: seq<byte>, b: seq<byte>)
    requires |a| <= |b|
    ensures Xor(Xor(a, b), b) == a
  {
    forall i | 0 <= i < |a| ensures XorByte(XorByte(a[i], b[i]), b[i]) == a[i] { XorByteTwice(a[i], b[i]); }
  }
}
