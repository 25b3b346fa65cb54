/** Base 64 (section 4 of RFC 4648) with the wrapping 32-bit accumulators of the source. */
module Base64 {
  import opened Bits

  type Sextet = x: int | 0 <= x < 64

  /** The Base 64 alphabet, Table 1 of the RFC. */
  function Letter(i: Sextet): char {
    if i < 26 then ('A' as int + i) as char
    else if i < 52 then ('a' as int + (i - 26)) as char
    else if i < 62 then ('0' as int + (i - 52)) as char
    else if i == 62 then '+'
    else '/'
  }

  /** The value of a character of the alphabet, -1 for any other. */
  function Value(c: char): (v: int)
    ensures -1 <= v < 64
    ensures v >= 0 ==> Letter(v) == c
  {
    if 'A' <= c <= 'Z' then c as int - 'A' as int
    else if 'a' <= c <= 'z' then c as int - 'a' as int + 26
    else if '0' <= c <= '9' then c as int - '0' as int + 52
    else if c == '+' then 62
    else if c == '/' then 63
    else -1
  }

  lemma ValueOfLetter(i: Sextet)
    ensures Value(Letter(i)) == i && Letter(i) as int < 128
  {
  }

  // ----- The definition: 24-bit groups as four 6-bit groups, padded at the end -----

  function First(b0: int): int { b0 / 4 }
  function Second(b0: int, b1: int): int { b0 % 4 * 16 + b1 / 16 }
  function Third(b1: int, b2: int): int { b1 % 16 * 4 + b2 / 64 }
  function Fourth(b2: int): int { b2 % 64 }

  /** Byte i, or zero bits past the end. */
  function At(x: seq<Byte>, i: nat): Byte {
    if i < |x| then x[i] else 0
  }

  /** Character r of the four that stand for byte group k. */
  function CharAt(x: seq<Byte>, k: nat, r: nat): char
    requires 3 * k < |x| && r < 4
  {
    if r == 0 then Letter(First(x[3 * k]))
    else if r == 1 then Letter(Second(x[3 * k], At(x, 3 * k + 1)))
    else if r == 2 then if 3 * k + 1 < |x| then Letter(Third(x[3 * k + 1], At(x, 3 * k + 2))) else '='
    else if 3 * k + 2 < |x| then Letter(Fourth(x[3 * k + 2])) else '='
  }

  function Groups(x: seq<Byte>): nat {
    (|x| + 2) / 3
  }

  /** The Base 64 encoding of a byte string: four characters for each three bytes or part of three. */
  function Encoding(x: seq<Byte>): (s: string)
    ensures |s| == 4 * ((|x| + 2) / 3)
  {
    seq(4 * Groups(x), j requires 0 <= j < 4 * Groups(x) => CharAt(x, j / 4, j % 4))
  }

  // ----- The encoder's accumulator -----

  /** `val << 8` and `+ c` on an `unsigned int`. */
  function ShiftIn(val: Uint32, c: Byte): Uint32 {
    (val * 256 + c) % 0x1_0000_0000
  }

  /** `(val >> k) & 0x3f`. */
  function Six(val: Uint32, k: int): Sextet
    requires k in {0, 2, 4, 6}
  {
    if k == 0 then val % 64 else if k == 2 then val / 4 % 64 else if k == 4 then val / 16 % 64 else val / 64 % 64
  }

  /** Wrapping at 32 bits loses nothing that the shifts still look at. */
  lemma WrapHarmless(y: nat)
    ensures var w := y % 0x1_0000_0000;
            && w % 64 == y % 64 && w / 4 % 64 == y / 4 % 64 && w / 16 % 64 == y / 16 % 64 && w / 64 % 64 == y / 64 % 64
            && w % 4 == y % 4 && w % 16 == y % 16
  {
    var q, w := y / 0x1_0000_0000, y % 0x1_0000_0000;
    DivModIs(y, 4, 0x4000_0000 * q + w / 4, w % 4);
    DivModIs(y, 16, 0x1000_0000 * q + w / 16, w % 16);
    DivModIs(y, 64, 0x400_0000 * q + w / 64, w % 64);
    DivModIs(y / 4, 64, 0x100_0000 * q + w / 4 / 64, w / 4 % 64);
    DivModIs(y / 16, 64, 0x40_0000 * q + w / 16 / 64, w / 16 % 64);
    DivModIs(y / 64, 64, 0x10_0000 * q + w / 64 / 64, w / 64 % 64);
  }

  lemma Shift0And2(v: nat, c: Byte)
    ensures var y := v * 256 + c; y % 64 == Fourth(c) && y / 4 % 64 == First(c) && y % 4 == c % 4 && y % 16 == c % 16
  {
    var y := v * 256 + c;
    DivModIs(y, 4, 64 * v + c / 4, c % 4);
    DivModIs(y, 16, 16 * v + c / 16, c % 16);
    DivModIs(y, 64, 4 * v + c / 64, c % 64);
    DivModIs(y / 4, 64, v, c / 4);
  }

  lemma Shift4(v: nat, c: Byte)
    ensures (v * 256 + c) / 16 % 64 == Second(v % 4, c)
  {
    DivModIs(v * 256 + c, 16, 16 * v + c / 16, c % 16);
    DivModIs(16 * v + c / 16, 64, v / 4, v % 4 * 16 + c / 16);
  }

  lemma Shift6(v: nat, c: Byte)
    ensures (v * 256 + c) / 64 % 64 == Third(v % 16, c)
  {
    DivModIs(v * 256 + c, 64, 4 * v + c / 64, c % 64);
    DivModIs(4 * v + c / 64, 64, v / 16, v % 16 * 4 + c / 64);
  }

  /** What comes out of the accumulator is the definition's 6-bit groups. */
  lemma SixAfterShift(val: Uint32, c: Byte)
    ensures var w := ShiftIn(val, c);
            && Six(w, 2) == First(c) && Six(w, 0) == Fourth(c)
            && Six(w, 4) == Second(val % 4, c) && Six(w, 6) == Third(val % 16, c)
            && w % 4 == c % 4 && w % 16 == c % 16
  {
    var y := val * 256 + c;
    WrapHarmless(y);
    Shift0And2(val, c);
    Shift4(val, c);
    Shift6(val, c);
  }

  // ----- The encoder -----

  /** `out` is the beginning of the encoding, up to character r of group k. */
  ghost predicate Written(x: seq<Byte>, out: string, k: nat, r: nat) {
    && |out| == 4 * k + r && |out| <= 4 * Groups(x)
    && out == Encoding(x)[..|out|]
  }

  lemma WriteOne(x: seq<Byte>, out: string, k: nat, r: nat, c: char)
    requires Written(x, out, k, r) && r < 4 && 3 * k < |x| && c == CharAt(x, k, r)
    ensures Written(x, out + [c], k, r + 1)
  {
    DivModIs(4 * k + r, 4, k, r);
    assert k < Groups(x);
    assert Encoding(x)[4 * k + r] == c;
    assert Encoding(x)[..|out| + 1] == Encoding(x)[..|out|] + [c];
  }

  /** What the accumulator still holds when r bytes of group k have gone in. */
  ghost predicate Pending(x: seq<Byte>, k: nat, r: nat, val: Uint32, valb: int) {
    && r < 3 && valb == -6 + 2 * r
    && (r == 1 ==> 3 * k < |x| && val % 4 == x[3 * k] % 4)
    && (r == 2 ==> 3 * k + 1 < |x| && val % 16 == x[3 * k + 1] % 16)
  }

  lemma LowBitsOnly(a: nat, b: nat, c: Byte)
    ensures a % 4 == b % 4 ==> Second(a % 4, c) == Second(b, c)
    ensures a % 16 == b % 16 ==> Third(a % 16, c) == Third(b, c)
  {
  }

  /** The next 6-bit group or two, read off the accumulator. */
  lemma GroupsOut(x: seq<Byte>, k: nat, r: nat, val: Uint32, valb: int)
    requires Pending(x, k, r, val, valb) && 3 * k + r < |x|
    ensures var c := x[3 * k + r];
            var w := ShiftIn(val, c);
            && (r == 0 ==> Six(w, 2) == First(c) && w % 4 == c % 4)
            && (r == 1 ==> Six(w, 4) == Second(x[3 * k], c) && w % 16 == c % 16)
            && (r == 2 ==> Six(w, 6) == Third(x[3 * k + 1], c) && Six(w, 0) == Fourth(c))
  {
    var c := x[3 * k + r];
    SixAfterShift(val, c);
    if r == 1 {
      LowBitsOnly(val, x[3 * k], c);
    } else if r == 2 {
      LowBitsOnly(val, x[3 * k + 1], c);
    }
  }

  /** So the letters that come out are the next characters of the encoding. */
  lemma LettersOut(x: seq<Byte>, k: nat, r: nat, val: Uint32, valb: int)
    requires Pending(x, k, r, val, valb) && 3 * k + r < |x|
    ensures var w := ShiftIn(val, x[3 * k + r]);
            && Letter(Six(w, valb + 8)) == CharAt(x, k, r)
            && (r == 2 ==> Letter(Six(w, 0)) == CharAt(x, k, 3))
            && (r < 2 ==> Pending(x, k, r + 1, w, valb + 2))
  {
    GroupsOut(x, k, r, val, valb);
  }

  /** The last character before the padding. */
  lemma LastLetterOut(x: seq<Byte>, k: nat, r: nat, val: Uint32, valb: int)
    requires Pending(x, k, r, val, valb) && |x| == 3 * k + r && 0 < r
    ensures Letter(Six(ShiftIn(val, 0), valb + 8)) == CharAt(x, k, r)
  {
    var b := x[3 * k + r - 1];
    SixAfterShift(val, 0);
    LowBitsOnly(val, b, 0);
    if r == 1 {
      assert CharAt(x, k, r) == Letter(Second(b, 0));
    } else {
      assert CharAt(x, k, r) == Letter(Third(b, 0));
    }
  }

  /** The loop over the input, with the inner loop that empties the accumulator six bits at a time. */
  method EncodeBytes(buf: array<Byte>) returns (out: string, val: Uint32, valb: int, ghost k: nat, ghost r: nat)
    ensures buf.Length == 3 * k + r && Pending(buf[..], k, r, val, valb) && Written(buf[..], out, k, r)
  {
    k, r := 0, 0;
    out := "";
    val, valb := 0, -6;
    for i := 0 to buf.Length
      invariant i == 3 * k + r && Pending(buf[..], k, r, val, valb) && Written(buf[..], out, k, r)
    {
      LettersOut(buf[..], k, r, val, valb);
      val := ShiftIn(val, buf[i]);
      valb := valb + 8;
      ghost var w := r;
      while valb >= 0
        invariant w == r ==> valb == 2 * r + 2
        invariant w == r + 1 ==> valb == 2 * r - 4
        invariant w == 4 ==> valb == -6
        invariant r <= w <= r + 1 || (r == 2 && w == 4)
        invariant Written(buf[..], out, k, w)
      {
        WriteOne(buf[..], out, k, w, Letter(Six(val, valb)));
        out := out + [Letter(Six(val, valb))];
        valb := valb - 6;
        w := w + 1;
      }
      if r == 2 {
        k, r := k + 1, 0;
      } else {
        r := r + 1;
      }
    }
  }

  /** `base64_encode`: the accumulator wraps, and still the result is the RFC's encoding. */
  method Encode(buf: array<Byte>) returns (out: string)
    ensures out == Encoding(buf[..])
  {
    var val, valb;
    ghost var k, r;
    out, val, valb, k, r := EncodeBytes(buf);
    if valb > -6 {
      // (val << 8) >> (valb + 8), masked to six bits
      LastLetterOut(buf[..], k, r, val, valb);
      var last := Letter(Six(ShiftIn(val, 0), valb + 8));
      WriteOne(buf[..], out, k, r, last);
      out := out + [last];
      r := r + 1;
    }
    out := Pad(buf[..], out, k, r);
  }

  method Pad(ghost x: seq<Byte>, out0: string, ghost k: nat, ghost r0: nat) returns (out: string)
    requires Written(x, out0, k, r0)
    requires (r0 == 0 && |x| == 3 * k) || (2 <= r0 <= 3 && |x| == 3 * k + r0 - 1)
    ensures out == Encoding(x)
  {
    out := out0;
    ghost var r := r0;
    while |out| % 4 != 0
      invariant r0 <= r <= 4 && Written(x, out, k, r) && (r0 == 0 ==> r == 0)
      decreases 4 - r
    {
      DivModIs(4 * k + 4, 4, k + 1, 0);
      WriteOne(x, out, k, r, '=');
      out := out + "=";
      r := r + 1;
    }
    DivModIs(|out|, 4, |out| / 4, 0);
  }

  // ----- The decoder -----

  /** How many leading characters belong to the alphabet, from position i on. */
  function Prefix(s: string, i: nat): (m: nat)
    requires i <= |s|
    ensures i <= m <= |s|
    ensures forall j :: i <= j < m ==> Value(s[j]) >= 0
    ensures m < |s| ==> Value(s[m]) == -1
    decreases |s| - i
  {
    if i == |s| || Value(s[i]) == -1 then i else Prefix(s, i + 1)
  }

  function OctetA(q0: Sextet, q1: Sextet): Byte { q0 * 4 + q1 / 16 }
  function OctetB(q1: Sextet, q2: Sextet): Byte { q1 % 16 * 16 + q2 / 4 }
  function OctetC(q2: Sextet, q3: Sextet): Byte { q2 % 4 * 64 + q3 }

  /** Byte j of the three that character group k stands for. */
  function OctetAt(s: string, k: nat, j: nat): Byte
    requires j < 3 && 4 * k + j + 1 < Prefix(s, 0)
  {
    if j == 0 then OctetA(Value(s[4 * k]), Value(s[4 * k + 1]))
    else if j == 1 then OctetB(Value(s[4 * k + 1]), Value(s[4 * k + 2]))
    else OctetC(Value(s[4 * k + 2]), Value(s[4 * k + 3]))
  }

  lemma OctetInRange(m: nat, t: nat)
    requires t < m * 3 / 4
    ensures 4 * (t / 3) + t % 3 + 1 < m
  {
  }

  /** What the decoder makes of any string: the whole bytes in its leading alphabet characters. */
  function Decoding(s: string): (x: seq<Byte>)
    ensures |x| == Prefix(s, 0) * 3 / 4
  {
    var n := Prefix(s, 0) * 3 / 4;
    seq(n, t requires 0 <= t < n => OctetInRange(Prefix(s, 0), t); OctetAt(s, t / 3, t % 3))
  }

  /** `val << 6` and `+ v` at 32 bits. */
  function ShiftIn6(val: Uint32, v: Sextet): Uint32 {
    (val * 64 + v) % 0x1_0000_0000
  }

  /** `(val >> k) & 0xff`; for these k the sign of `val` makes no difference. */
  function Eight(val: Uint32, k: int): Byte
    requires k in {0, 2, 4}
  {
    if k == 0 then val % 256 else if k == 2 then val / 4 % 256 else val / 16 % 256
  }

  lemma WrapHarmless8(y: nat)
    ensures var w := y % 0x1_0000_0000;
            && w % 256 == y % 256 && w / 4 % 256 == y / 4 % 256 && w / 16 % 256 == y / 16 % 256
            && w % 4 == y % 4 && w % 16 == y % 16 && w % 64 == y % 64
  {
    var q, w := y / 0x1_0000_0000, y % 0x1_0000_0000;
    WrapHarmless(y);
    DivModIs(y, 4, 0x4000_0000 * q + w / 4, w % 4);
    DivModIs(y, 16, 0x1000_0000 * q + w / 16, w % 16);
    DivModIs(y, 256, 0x100_0000 * q + w / 256, w % 256);
    DivModIs(y / 4, 256, 0x40_0000 * q + w / 4 / 256, w / 4 % 256);
    DivModIs(y / 16, 256, 0x10_0000 * q + w / 16 / 256, w / 16 % 256);
  }

  lemma ShiftedLow(val: nat, v: Sextet)
    ensures var y := val * 64 + v;
            y % 64 == v && y % 16 == v % 16 && y % 4 == v % 4
  {
    var y := val * 64 + v;
    DivModIs(y, 64, val, v);
    DivModIs(y, 16, val * 4 + v / 16, v % 16);
    DivModIs(y, 4, val * 16 + v / 4, v % 4);
  }

  lemma ShiftedA(val: nat, v: Sextet)
    ensures (val * 64 + v) / 16 % 256 == OctetA(val % 64, v)
  {
    DivModIs(val * 64 + v, 16, val * 4 + v / 16, v % 16);
    DivModIs(val * 4 + v / 16, 256, val / 64, val % 64 * 4 + v / 16);
  }

  lemma ShiftedB(val: nat, v: Sextet)
    ensures (val * 64 + v) / 4 % 256 == OctetB(val % 16, v)
  {
    DivModIs(val * 64 + v, 4, val * 16 + v / 4, v % 4);
    DivModIs(val * 16 + v / 4, 256, val / 16, val % 16 * 16 + v / 4);
  }

  lemma ShiftedC(val: nat, v: Sextet)
    ensures (val * 64 + v) % 256 == OctetC(val % 4, v)
  {
    DivModIs(val * 64 + v, 256, val / 4, val % 4 * 64 + v);
  }

  lemma EightAfterShift(val: Uint32, v: Sextet)
    ensures var w := ShiftIn6(val, v);
            && Eight(w, 4) == OctetA(val % 64, v) && Eight(w, 2) == OctetB(val % 16, v) && Eight(w, 0) == OctetC(val % 4, v)
            && w % 64 == v && w % 16 == v % 16 && w % 4 == v % 4
  {
    WrapHarmless8(val * 64 + v);
    ShiftedLow(val, v);
    ShiftedA(val, v);
    ShiftedB(val, v);
    ShiftedC(val, v);
  }

  /** What the accumulator still holds when r characters of group k have gone in. */
  ghost predicate Held(s: string, k: nat, r: nat, val: Uint32, valb: int)
    requires 4 * k + r <= |s|
  {
    && r < 4
    && valb == (if r == 0 then -8 else -2 * r)
    && (r == 1 ==> val % 64 == Value(s[4 * k]))
    && (r == 2 ==> val % 16 == Value(s[4 * k + 1]) % 16)
    && (r == 3 ==> val % 4 == Value(s[4 * k + 2]) % 4)
  }

  /** The bytes out so far are the beginning of the decoding: j bytes of group k. */
  ghost predicate Decoded(s: string, out: seq<Byte>, k: nat, j: nat) {
    && |out| == 3 * k + j && |out| <= |Decoding(s)|
    && out == Decoding(s)[..|out|]
  }

  lemma DecodeOne(s: string, out: seq<Byte>, k: nat, j: nat, b: Byte)
    requires Decoded(s, out, k, j) && j < 3 && 4 * k + j + 1 < Prefix(s, 0) && b == OctetAt(s, k, j)
    ensures Decoded(s, out + [b], k, j + 1)
  {
    DivModIs(3 * k + j, 3, k, j);
    assert 3 * k + j < Prefix(s, 0) * 3 / 4;
    assert Decoding(s)[3 * k + j] == b;
    assert Decoding(s)[..|out| + 1] == Decoding(s)[..|out|] + [b];
  }

  lemma LowBitsOnly8(a: nat, q: Sextet, v: Sextet)
    ensures a % 16 == q % 16 ==> OctetB(a % 16, v) == OctetB(q, v)
    ensures a % 4 == q % 4 ==> OctetC(a % 4, v) == OctetC(q, v)
  {
  }

  /** The byte that comes out with a character, and what stays behind. */
  lemma OctetOut(s: string, k: nat, r: nat, val: Uint32, valb: int)
    requires 4 * k + r < Prefix(s, 0) && Held(s, k, r, val, valb)
    ensures var v := Value(s[4 * k + r]);
            var w := ShiftIn6(val, v);
            && (r > 0 ==> Eight(w, valb + 6) == OctetAt(s, k, r - 1))
            && w % 64 == v && w % 16 == v % 16 && w % 4 == v % 4
  {
    var v := Value(s[4 * k + r]);
    EightAfterShift(val, v);
    if r == 2 {
      LowBitsOnly8(val, Value(s[4 * k + 1]), v);
    } else if r == 3 {
      LowBitsOnly8(val, Value(s[4 * k + 2]), v);
    }
  }

  /** The table of the source: the value of each byte, -1 outside the alphabet. */
  method Table() returns (t: array<int>)
    ensures t.Length == 256 && forall c: char :: c as int < 256 ==> t[c as int] == Value(c)
    ensures fresh(t)
  {
    t := new int[256](_ => -1);
    for i := 0 to 64
      invariant forall c: char :: c as int < 256 ==> t[c as int] == if 0 <= Value(c) < i then Value(c) else -1
    {
      ValueOfLetter(i);
      t[Letter(i) as int] := i;
    }
  }

  /** `base64_decode`, on any string of bytes. */
  method Decode(s: string) returns (out: seq<Byte>)
    requires forall c :: c in s ==> c as int < 256
    ensures out == Decoding(s)
  {
    var t := Table();
    out := [];
    var val: Uint32, valb := 0, -8;
    ghost var k, r := 0, 0;
    ghost var m := Prefix(s, 0);
    var i := 0;
    while i < |s|
      invariant i == 4 * k + r <= m && 0 <= k && 0 <= r && Held(s, k, r, val, valb)
      invariant Decoded(s, out, k, if r == 0 then 0 else r - 1)
      invariant forall c: char :: c as int < 256 ==> t[c as int] == Value(c)
    {
      var c := s[i];
      assert c in s && t[c as int] == Value(c);
      if t[c as int] == -1 {
        break;
      }
      OctetOut(s, k, r, val, valb);
      val := ShiftIn6(val, t[c as int]);
      valb := valb + 6;
      if valb >= 0 {
        DecodeOne(s, out, k, r - 1, Eight(val, valb));
        out := out + [Eight(val, valb)];
        valb := valb - 8;
      }
      if r == 3 {
        k, r := k + 1, 0;
      } else {
        r := r + 1;
      }
      i := i + 1;
    }
    assert i == m;
    DivModIs(m * 3, 4, 3 * k + (if r == 0 then 0 else r - 1), 3 * r - 4 * (if r == 0 then 0 else r - 1));
  }

  // ----- The round trip -----

  lemma OctetsBack(b0: Byte, b1: Byte, b2: Byte)
    ensures OctetA(First(b0), Second(b0, b1)) == b0
    ensures OctetB(Second(b0, b1), Third(b1, b2)) == b1
    ensures OctetC(Third(b1, b2), Fourth(b2)) == b2
  {
    DivModIs(Second(b0, b1), 16, b0 % 4, b1 / 16);
    DivModIs(Third(b1, b2), 4, b1 % 16, b2 / 64);
  }

  /** How many of the characters are not padding. */
  function Letters(n: nat): nat {
    4 * (n / 3) + (if n % 3 == 0 then 0 else n % 3 + 1)
  }

  /** The 6-bit group that character r of group k stands for, if it is not padding. */
  function SextetAt(x: seq<Byte>, k: nat, r: nat): Sextet
    requires 3 * k < |x| && r < 4 && 3 * k + r - 1 < |x|
  {
    if r == 0 then First(x[3 * k])
    else if r == 1 then Second(x[3 * k], At(x, 3 * k + 1))
    else if r == 2 then Third(x[3 * k + 1], At(x, 3 * k + 2))
    else Fourth(x[3 * k + 2])
  }

  /** The characters of an encoding stand for the definition's groups, and the rest is padding. */
  lemma ValueInEncoding(x: seq<Byte>, k: nat, r: nat)
    requires 3 * k < |x| && r < 4
    ensures 4 * k + r < |Encoding(x)|
    ensures Value(Encoding(x)[4 * k + r]) == if 3 * k + r - 1 < |x| then SextetAt(x, k, r) else -1
  {
    DivModIs(4 * k + r, 4, k, r);
    if 3 * k + r - 1 < |x| {
      ValueOfLetter(SextetAt(x, k, r));
      assert CharAt(x, k, r) == Letter(SextetAt(x, k, r));
    }
  }

  lemma {:induction false} PrefixStops(s: string, i: nat, m: nat)
    requires i <= m <= |s| && (forall j :: i <= j < m ==> Value(s[j]) >= 0) && (m < |s| ==> Value(s[m]) == -1)
    ensures Prefix(s, i) == m
    decreases m - i
  {
    if i < m {
      PrefixStops(s, i + 1, m);
    }
  }

  lemma LettersSplit(n: nat, i: nat)
    requires i < 4 * ((n + 2) / 3)
    ensures 3 * (i / 4) < n
    ensures i < Letters(n) <==> 3 * (i / 4) + i % 4 - 1 < n
  {
  }

  lemma LettersBound(n: nat)
    ensures Letters(n) <= 4 * ((n + 2) / 3) && Letters(n) * 3 / 4 == n
  {
  }

  lemma EncodingPrefix(x: seq<Byte>)
    ensures Prefix(Encoding(x), 0) == Letters(|x|) && |Decoding(Encoding(x))| == |x|
  {
    var s := Encoding(x);
    LettersBound(|x|);
    forall i | 0 <= i < |s|
      ensures Value(s[i]) >= 0 <==> i < Letters(|x|)
    {
      LettersSplit(|x|, i);
      ValueInEncoding(x, i / 4, i % 4);
    }
    PrefixStops(s, 0, Letters(|x|));
  }

  function OctetOf(j: nat, u: Sextet, v: Sextet): Byte {
    if j == 0 then OctetA(u, v) else if j == 1 then OctetB(u, v) else OctetC(u, v)
  }

  lemma OctetOfValues(s: string, k: nat, j: nat, u: Sextet, v: Sextet)
    requires j < 3 && 4 * k + j + 1 < Prefix(s, 0) && Value(s[4 * k + j]) == u && Value(s[4 * k + j + 1]) == v
    ensures OctetAt(s, k, j) == OctetOf(j, u, v)
  {
  }

  lemma OctetBack(x: seq<Byte>, k: nat, j: nat)
    requires j < 3 && 3 * k + j < |x| && 4 * k + j + 1 < Prefix(Encoding(x), 0)
    ensures OctetAt(Encoding(x), k, j) == x[3 * k + j]
  {
    ValueInEncoding(x, k, j);
    ValueInEncoding(x, k, j + 1);
    OctetOfValues(Encoding(x), k, j, SextetAt(x, k, j), SextetAt(x, k, j + 1));
    SextetsBack(x, k, j);
  }

  /** The two 6-bit groups around a byte give it back. */
  lemma SextetsBack(x: seq<Byte>, k: nat, j: nat)
    requires j < 3 && 3 * k + j < |x|
    ensures OctetOf(j, SextetAt(x, k, j), SextetAt(x, k, j + 1)) == x[3 * k + j]
  {
    OctetsBack(x[3 * k], At(x, 3 * k + 1), At(x, 3 * k + 2));
  }

  lemma ByteBack(x: seq<Byte>, t: nat)
    requires t < |x| == |Decoding(Encoding(x))|
    ensures Decoding(Encoding(x))[t] == x[t]
  {
    var k, j := t / 3, t % 3;
    OctetInRange(Prefix(Encoding(x), 0), t);
    OctetBack(x, k, j);
    assert 3 * k + j == t;
  }

  /** Decoding an encoding gives back every byte string. */
  lemma RoundTrip(x: seq<Byte>)
    ensures Decoding(Encoding(x)) == x
  {
    EncodingPrefix(x);
    forall t | 0 <= t < |x|
      ensures Decoding(Encoding(x))[t] == x[t]
    {
      ByteBack(x, t);
    }
  }

  // ----- The encoding, read off the RFC -----

  /** Table 1 of the RFC, written out. */
  const UPPER := "ABCDEFGHIJKLMNOPQRSTUVWXYZ"
  const LOWER := "abcdefghijklmnopqrstuvwxyz"
  const ALPHABET := UPPER + LOWER + "0123456789" + "+/"

  lemma LetterIsTable(i: Sextet)
    ensures |ALPHABET| == 64 && Letter(i) == ALPHABET[i]
  {
  }

  /** 64 to the power 3 - r: what stands behind the 6-bit group r of a 24-bit number. */
  function Behind(r: nat): (d: nat)
    ensures d > 0
  {
    if r == 0 then 0x4_0000 else if r == 1 then 0x1000 else if r == 2 then 0x40 else 1
  }

  lemma GroupZero(b0: Byte, b1: Byte, b2: Byte)
    ensures (65536 * b0 + 256 * b1 + b2) / 0x4_0000 % 64 == First(b0)
  {
    var n := 65536 * b0 + 256 * b1 + b2;
    DivModIs(n, 0x4_0000, b0 / 4, b0 % 4 * 65536 + 256 * b1 + b2);
    DivModIs(b0 / 4, 64, 0, b0 / 4);
  }

  lemma GroupOne(b0: Byte, b1: Byte, b2: Byte)
    ensures (65536 * b0 + 256 * b1 + b2) / 0x1000 % 64 == Second(b0, b1)
  {
    var n := 65536 * b0 + 256 * b1 + b2;
    DivModIs(n, 0x1000, 16 * b0 + b1 / 16, b1 % 16 * 256 + b2);
    DivModIs(16 * b0 + b1 / 16, 64, b0 / 4, b0 % 4 * 16 + b1 / 16);
  }

  lemma GroupTwo(b0: Byte, b1: Byte, b2: Byte)
    ensures (65536 * b0 + 256 * b1 + b2) / 0x40 % 64 == Third(b1, b2)
  {
    var n := 65536 * b0 + 256 * b1 + b2;
    DivModIs(n, 0x40, 1024 * b0 + 4 * b1 + b2 / 64, b2 % 64);
    DivModIs(1024 * b0 + 4 * b1 + b2 / 64, 64, 16 * b0 + b1 / 16, b1 % 16 * 4 + b2 / 64);
  }

  lemma GroupThree(b0: Byte, b1: Byte, b2: Byte)
    ensures (65536 * b0 + 256 * b1 + b2) / 1 % 64 == Fourth(b2)
  {
    var n := 65536 * b0 + 256 * b1 + b2;
    DivModIs(n, 64, 1024 * b0 + 4 * b1 + b2 / 64, b2 % 64);
    assert n / 1 == n;
  }

  lemma SextetIs(x: seq<Byte>, k: nat, r: nat)
    requires 3 * k < |x| && r < 4 && 3 * k + r - 1 < |x|
    ensures SextetAt(x, k, r) == (65536 * x[3 * k] + 256 * At(x, 3 * k + 1) + At(x, 3 * k + 2)) / Behind(r) % 64
  {
    var b0, b1, b2 := x[3 * k], At(x, 3 * k + 1), At(x, 3 * k + 2);
    if r == 0 {
      GroupZero(b0, b1, b2);
    } else if r == 1 {
      GroupOne(b0, b1, b2);
    } else if r == 2 {
      GroupTwo(b0, b1, b2);
    } else {
      GroupThree(b0, b1, b2);
    }
  }

  lemma CharOfSextet(x: seq<Byte>, k: nat, r: nat)
    requires 3 * k < |x| && r < 4
    ensures 4 * k + r < |Encoding(x)|
    ensures Encoding(x)[4 * k + r] == if 3 * k + r - 1 < |x| then Letter(SextetAt(x, k, r)) else '='
  {
    DivModIs(4 * k + r, 4, k, r);
  }

  /** Each character of an encoding is the alphabet's at the index that its six bits of the 24-bit
      group make, missing bytes counting as zero, and from the end of the data on it is '='. */
  lemma EncodingIs(x: seq<Byte>, j: nat)
    requires j < |Encoding(x)|
    ensures 3 * (j / 4) < |x| && |ALPHABET| == 64
    ensures var k := j / 4;
            var group := 65536 * x[3 * k] + 256 * At(x, 3 * k + 1) + At(x, 3 * k + 2);
            Encoding(x)[j] == if j < Letters(|x|) then ALPHABET[group / Behind(j % 4) % 64] else '='
  {
    var k, r := j / 4, j % 4;
    LettersSplit(|x|, j);
    CharOfSextet(x, k, r);
    assert j == 4 * k + r;
    if j < Letters(|x|) {
      SextetIs(x, k, r);
      LetterIsTable(SextetAt(x, k, r));
    }
  }
}
