/** Unsigned machine words as numbers: bytes, little-endian 32-bit words, and exclusive or. */
module Bits {

  type Byte = x: int | 0 <= x < 256

  const UINT_SIZE := 0x1_0000_0000

  const SIZE_T := 0x1_0000_0000_0000_0000

  type Uint32 = x: int | 0 <= x < UINT_SIZE

  /** `++` and `--` on an `unsigned int`, which wrap. */
  function Inc(x: Uint32): Uint32 { if x == UINT_SIZE - 1 then 0 else x + 1 }

  function Dec(x: Uint32): Uint32 { if x == 0 then UINT_SIZE - 1 else x - 1 }

  /** They undo each other and wrap at 32 bits. */
  lemma IncDec(x: Uint32)
    ensures Dec(Inc(x)) == x && Inc(Dec(x)) == x && Inc(0xffff_ffff) == 0 && (x < 0xffff_ffff ==> Inc(x) == x + 1)
  {
  }

  /** Exclusive or of the lowest bits of two numbers. */
  function XorBit(a: nat, b: nat): nat {
    if a % 2 == b % 2 then 0 else 1
  }

  /** Exclusive or of the lowest `bits` bits, bit by bit. */
  function Xor(a: nat, b: nat, bits: nat): nat
    decreases bits, a, b
  {
    if bits == 0 then 0 else XorBit(a, b) + 2 * Xor(a / 2, b / 2, bits - 1)
  }

  /** Bit i of a number. */
  function Bit(x: nat, i: nat): nat {
    if i == 0 then x % 2 else Bit(x / 2, i - 1)
  }

  /** Bit by bit, exclusive or says where two numbers differ. */
  lemma {:induction false} XorBits(a: nat, b: nat, bits: nat, i: nat)
    requires i < bits
    ensures Bit(Xor(a, b, bits), i) == if Bit(a, i) == Bit(b, i) then 0 else 1
  {
    LowBit(XorBit(a, b), Xor(a / 2, b / 2, bits - 1));
    if i > 0 {
      XorBits(a / 2, b / 2, bits - 1, i - 1);
    }
  }

  /** Zero masks nothing, and a number masks itself away. */
  lemma {:induction false} XorZeroSelf(a: nat, bits: nat)
    requires a < Shl(1, bits)
    ensures Xor(a, 0, bits) == a && Xor(a, a, bits) == 0
  {
    if bits > 0 {
      XorZeroSelf(a / 2, bits - 1);
    }
  }

  /** `x << k`, unbounded. */
  function Shl(x: nat, k: nat): nat {
    if k == 0 then x else 2 * Shl(x, k - 1)
  }

  lemma {:induction false} XorBound(a: nat, b: nat, bits: nat)
    ensures Xor(a, b, bits) < Shl(1, bits)
  {
    if bits > 0 {
      XorBound(a / 2, b / 2, bits - 1);
    }
  }

  /** The lowest bit of a number and the rest of it. */
  lemma LowBit(bit: nat, x: nat)
    requires bit < 2
    ensures (bit + 2 * x) % 2 == bit && (bit + 2 * x) / 2 == x
  {
  }

  /** Exclusive or with the same mask again gives the low bits back. */
  lemma {:induction false} XorTwice(a: nat, m: nat, bits: nat)
    requires a < Shl(1, bits)
    ensures Xor(Xor(a, m, bits), m, bits) == a
  {
    if bits > 0 {
      var x := Xor(a / 2, m / 2, bits - 1);
      XorTwice(a / 2, m / 2, bits - 1);
      LowBit(XorBit(a, m), x);
      assert XorBit(XorBit(a, m) + 2 * x, m) == a % 2;
    }
  }

  /** Exclusive or works on the low k bits and the rest independently. */
  lemma {:induction false} XorSplit(lo: nat, hi: nat, mlo: nat, mhi: nat, k: nat, n: nat)
    requires lo < Shl(1, k) && mlo < Shl(1, k)
    ensures Xor(lo + Shl(hi, k), mlo + Shl(mhi, k), k + n) == Xor(lo, mlo, k) + Shl(Xor(hi, mhi, n), k)
  {
    if k > 0 {
      var a, b := lo + Shl(hi, k), mlo + Shl(mhi, k);
      LowBit(lo % 2, lo / 2 + Shl(hi, k - 1));
      LowBit(mlo % 2, mlo / 2 + Shl(mhi, k - 1));
      XorSplit(lo / 2, hi, mlo / 2, mhi, k - 1, n);
      assert Xor(a, b, k + n) == XorBit(a, b) + 2 * Xor(a / 2, b / 2, k - 1 + n);
    }
  }

  lemma ShlBy8(x: nat)
    ensures Shl(x, 8) == 256 * x
  {
    assert Shl(x, 1) == 2 * x;
    assert Shl(x, 3) == 8 * x;
    assert Shl(x, 5) == 32 * x;
    assert Shl(x, 7) == 128 * x;
  }

  /** `^` on two bytes. */
  function XorByte(a: Byte, b: Byte): (r: Byte)
  {
    XorBound(a, b, 8);
    ShlBy8(1);
    Xor(a, b, 8)
  }

  lemma XorByteTwice(a: Byte, m: Byte)
    ensures XorByte(XorByte(a, m), m) == a
  {
    ShlBy8(1);
    XorTwice(a, m, 8);
  }

  lemma XorByteZeroSelf(a: Byte)
    ensures XorByte(a, 0) == a && XorByte(a, a) == 0
  {
    ShlBy8(1);
    XorZeroSelf(a, 8);
  }

  lemma XorByteBits(a: Byte, b: Byte, i: nat)
    requires i < 8
    ensures Bit(XorByte(a, b), i) == if Bit(a, i) == Bit(b, i) then 0 else 1
  {
    XorBits(a, b, 8, i);
  }

  /** Four bytes as the host reads them into a `uint32_t`, the first byte least significant. */
  function Word(b0: Byte, b1: Byte, b2: Byte, b3: Byte): Uint32 {
    b0 + 256 * (b1 + 256 * (b2 + 256 * b3))
  }

  /** `(w >> 8*j) & 0xff`. */
  function ByteAt(w: nat, j: nat): Byte {
    if j == 0 then w % 256 else ByteAt(w / 256, j - 1)
  }

  lemma LowByte(b: Byte, hi: nat)
    ensures (b + 256 * hi) % 256 == b && (b + 256 * hi) / 256 == hi
  {
  }

  lemma BytesOfWord(b0: Byte, b1: Byte, b2: Byte, b3: Byte)
    ensures var w := Word(b0, b1, b2, b3);
            ByteAt(w, 0) == b0 && ByteAt(w, 1) == b1 && ByteAt(w, 2) == b2 && ByteAt(w, 3) == b3
  {
    LowByte(b0, b1 + 256 * (b2 + 256 * b3));
    LowByte(b1, b2 + 256 * b3);
    LowByte(b2, b3);
    assert ByteAt(b2 + 256 * b3, 1) == ByteAt(b3, 0);
    assert ByteAt(b1 + 256 * (b2 + 256 * b3), 1) == ByteAt(b2 + 256 * b3, 0);
    assert ByteAt(b1 + 256 * (b2 + 256 * b3), 2) == ByteAt(b2 + 256 * b3, 1);
  }

  /** Dividing by 256 again and again. */
  lemma BytesByDivision(w: nat)
    ensures ByteAt(w, 0) == w % 256 && ByteAt(w, 1) == w / 256 % 256
    ensures ByteAt(w, 2) == w / 256 / 256 % 256 && ByteAt(w, 3) == w / 256 / 256 / 256 % 256
  {
    var w1 := w / 256;
    var w2 := w1 / 256;
    assert ByteAt(w, 2) == ByteAt(w1, 1) == ByteAt(w2, 0);
    assert ByteAt(w, 3) == ByteAt(w1, 2) == ByteAt(w2, 1) == ByteAt(w2 / 256, 0);
  }

  lemma TopByte(w: Uint32)
    ensures w / 256 / 256 / 256 < 256
  {
    assert w / 256 < 0x100_0000;
    assert w / 256 / 256 < 0x1_0000;
  }

  lemma WordOfBytes(w: Uint32)
    ensures w == Word(ByteAt(w, 0), ByteAt(w, 1), ByteAt(w, 2), ByteAt(w, 3))
  {
    var w1 := w / 256;
    var w2 := w1 / 256;
    var w3 := w2 / 256;
    BytesByDivision(w);
    TopByte(w);
    assert w == w % 256 + 256 * w1;
    assert w1 == w1 % 256 + 256 * w2;
    assert w2 == w2 % 256 + 256 * w3;
    assert w3 % 256 == w3;
  }

  lemma XorCons(b: Byte, hi: nat, m: Byte, mhi: nat, n: nat)
    ensures Xor(b + 256 * hi, m + 256 * mhi, 8 + n) == XorByte(b, m) + 256 * Xor(hi, mhi, n)
  {
    ShlBy8(1);
    ShlBy8(hi);
    ShlBy8(mhi);
    ShlBy8(Xor(hi, mhi, n));
    XorSplit(b, hi, m, mhi, 8, n);
  }

  /** `^` on two 32-bit words is `^` on each of their bytes. */
  lemma XorWord(b0: Byte, b1: Byte, b2: Byte, b3: Byte, m0: Byte, m1: Byte, m2: Byte, m3: Byte)
    ensures Xor(Word(b0, b1, b2, b3), Word(m0, m1, m2, m3), 32) ==
            Word(XorByte(b0, m0), XorByte(b1, m1), XorByte(b2, m2), XorByte(b3, m3))
  {
    XorCons(b0, b1 + 256 * (b2 + 256 * b3), m0, m1 + 256 * (m2 + 256 * m3), 24);
    XorCons(b1, b2 + 256 * b3, m1, m2 + 256 * m3, 16);
    XorCons(b2, b3, m2, m3, 8);
  }

  /** So the bytes of a word exclusive-ored with a mask are the bytes exclusive-ored one by one. */
  lemma XorWordBytes(b0: Byte, b1: Byte, b2: Byte, b3: Byte, mask: Uint32)
    ensures var w := Xor(Word(b0, b1, b2, b3), mask, 32);
            && ByteAt(w, 0) == XorByte(b0, ByteAt(mask, 0)) && ByteAt(w, 1) == XorByte(b1, ByteAt(mask, 1))
            && ByteAt(w, 2) == XorByte(b2, ByteAt(mask, 2)) && ByteAt(w, 3) == XorByte(b3, ByteAt(mask, 3))
  {
    var m0, m1, m2, m3 := ByteAt(mask, 0), ByteAt(mask, 1), ByteAt(mask, 2), ByteAt(mask, 3);
    WordOfBytes(mask);
    XorWord(b0, b1, b2, b3, m0, m1, m2, m3);
    BytesOfWord(XorByte(b0, m0), XorByte(b1, m1), XorByte(b2, m2), XorByte(b3, m3));
  }

  lemma MulStep(a: nat, b: nat, d: nat)
    requires a < b
    ensures a * d + d <= b * d
  {
    var k := b - a - 1;
    assert b * d == (a + 1 + k) * d == a * d + d + k * d;
  }

  /** Quotient and remainder are the only ones there are. */
  lemma DivModIs(n: nat, d: nat, q: nat, r: nat)
    requires n == q * d + r && r < d
    ensures n / d == q && n % d == r
  {
    assert n == n / d * d + n % d;
    if q < n / d {
      MulStep(q, n / d, d);
    } else if n / d < q {
      MulStep(n / d, q, d);
    }
  }
}
