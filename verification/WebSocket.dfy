/** Unmasking of WebSocket payloads (RFC 6455), a word at a time and in place. */
module WebSocket {
  import opened Bits

  // ----- Unmasking (section 5.3) -----

  /** Octet i of the payload is exclusive-ored with octet i mod 4 of the mask. */
  function Unmasked(data: seq<Byte>, mask: seq<Byte>): (r: seq<Byte>)
    requires |mask| == 4
    ensures |r| == |data|
  {
    seq(|data|, i requires 0 <= i < |data| => XorByte(data[i], mask[i % 4]))
  }

  /** Masking is its own inverse. */
  lemma UnmaskTwice(data: seq<Byte>, mask: seq<Byte>)
    requires |mask| == 4
    ensures Unmasked(Unmasked(data, mask), mask) == data
  {
    var once := Unmasked(data, mask);
    var twice := Unmasked(once, mask);
    forall i | 0 <= i < |data|
      ensures twice[i] == data[i]
    {
      XorByteTwice(data[i], mask[i % 4]);
      assert once[i] == XorByte(data[i], mask[i % 4]);
    }
  }

  /** Each bit of an unmasked octet is the masked one where the mask's octet i mod 4 has a 0, and its
      opposite where that has a 1. */
  lemma UnmaskedBits(data: seq<Byte>, mask: seq<Byte>, i: nat, b: nat)
    requires |mask| == 4 && i < |data| && b < 8
    ensures Bit(Unmasked(data, mask)[i], b) == if Bit(data[i], b) == Bit(mask[i % 4], b) then 0 else 1
  {
    XorByteBits(data[i], mask[i % 4], b);
  }

  /** A zero mask changes nothing. */
  lemma UnmaskZeros(data: seq<Byte>, zeros: seq<Byte>)
    requires |zeros| == 4 && forall k :: 0 <= k < 4 ==> zeros[k] == 0
    ensures Unmasked(data, zeros) == data
  {
    var r := Unmasked(data, zeros);
    forall i | 0 <= i < |data|
      ensures r[i] == data[i]
    {
      XorByteZeroSelf(data[i]);
      assert zeros[i % 4] == 0;
    }
  }

  /** A word in memory, least significant byte first. */
  function WordBytes(w: nat): (b: seq<Byte>)
    ensures |b| == 4
  {
    [ByteAt(w, 0), ByteAt(w, 1), ByteAt(w, 2), ByteAt(w, 3)]
  }

  lemma FourBytes(b: seq<Byte>, m: seq<Byte>)
    requires |b| == |m| == 4
    ensures Unmasked(b, m) == [XorByte(b[0], m[0]), XorByte(b[1], m[1]), XorByte(b[2], m[2]), XorByte(b[3], m[3])]
  {
  }

  lemma FourAtOnce(b: seq<Byte>, mask: Uint32)
    requires |b| == 4
    ensures WordBytes(Xor(Word(b[0], b[1], b[2], b[3]), mask, 32)) == Unmasked(b, WordBytes(mask))
  {
    XorWordBytes(b[0], b[1], b[2], b[3], mask);
    FourBytes(b, WordBytes(mask));
  }

  /** A word is loaded from four bytes, exclusive-ored with the mask and stored as four bytes. */
  method XorFour(b: seq<Byte>, mask: Uint32) returns (c: seq<Byte>)
    requires |b| == 4
    ensures c == Unmasked(b, WordBytes(mask))
  {
    FourAtOnce(b, mask);
    c := WordBytes(Xor(Word(b[0], b[1], b[2], b[3]), mask, 32));
  }

  ghost function WordDone(d: seq<Byte>, i: nat, mask: Uint32): seq<Byte>
    requires i + 4 <= |d|
  {
    d[..i] + Unmasked(d[i..i + 4], WordBytes(mask)) + d[i + 4..]
  }

  /** One turn of the bulk loop, in place. */
  method XorWordAt(data: array<Byte>, i: nat, mask: Uint32)
    requires i + 4 <= data.Length
    modifies data
    ensures data[..] == WordDone(old(data[..]), i, mask)
  {
    ghost var was := data[..];
    var c := XorFour(data[i..i + 4], mask);
    assert data[i..i + 4] == was[i..i + 4];
    data[i], data[i + 1], data[i + 2], data[i + 3] := c[0], c[1], c[2], c[3];
    assert data[..] == was[..i] + c + was[i + 4..];
  }

  /** The payload when its first i bytes are done. */
  ghost function DoneTo(was: seq<Byte>, i: nat, m: seq<Byte>): (s: seq<Byte>)
    requires i <= |was| && |m| == 4
    ensures |s| == |was|
  {
    seq(|was|, t requires 0 <= t < |was| => if t < i then XorByte(was[t], m[t % 4]) else was[t])
  }

  lemma WordDoneAt(d: seq<Byte>, i: nat, mask: Uint32, t: nat)
    requires i + 4 <= |d| && i % 4 == 0 && t < |d|
    ensures |WordDone(d, i, mask)| == |d|
    ensures WordDone(d, i, mask)[t] == if i <= t < i + 4 then XorByte(d[t], WordBytes(mask)[t % 4]) else d[t]
  {
    if i <= t < i + 4 {
      assert t % 4 == t - i;
      assert WordDone(d, i, mask)[t] == Unmasked(d[i..i + 4], WordBytes(mask))[t - i];
    }
  }

  lemma NextWord(was: seq<Byte>, i: nat, mask: Uint32)
    requires i + 4 <= |was| && i % 4 == 0
    ensures DoneTo(was, i + 4, WordBytes(mask)) == WordDone(DoneTo(was, i, WordBytes(mask)), i, mask)
  {
    var m := WordBytes(mask);
    var d, e := DoneTo(was, i, m), DoneTo(was, i + 4, m);
    var f := WordDone(d, i, mask);
    forall t | 0 <= t < |was|
      ensures |f| == |was| && e[t] == f[t]
    {
      WordDoneAt(d, i, mask, t);
    }
  }

  lemma NothingDone(was: seq<Byte>, m: seq<Byte>)
    requires |m| == 4
    ensures DoneTo(was, 0, m) == was
  {
  }

  /** The loop over whole words; returns how far it came. */
  method UnmaskWords(data: array<Byte>, mask: Uint32) returns (i: nat)
    modifies data
    ensures i == data.Length - data.Length % 4
    ensures data[..] == DoneTo(old(data[..]), i, WordBytes(mask))
  {
    i := 0;
    ghost var was, m := data[..], WordBytes(mask);
    NothingDone(was, m);
    while i <= data.Length - 4
      invariant i <= data.Length && i % 4 == 0
      invariant data[..] == DoneTo(was, i, m)
    {
      NextWord(was, i, mask);
      XorWordAt(data, i, mask);
      i := i + 4;
    }
  }

  lemma NextByte(was: seq<Byte>, i: nat, j: nat, m: seq<Byte>)
    requires i + j < |was| && i % 4 == 0 && j < 4 && |m| == 4
    ensures DoneTo(was, i + j, m)[i + j] == was[i + j]
    ensures DoneTo(was, i + j + 1, m) == DoneTo(was, i + j, m)[i + j := XorByte(was[i + j], m[j])]
  {
    assert (i + j) % 4 == j;
  }

  /** The loop over the bytes left over. */
  method UnmaskTail(data: array<Byte>, mask: Uint32, i: nat, ghost was: seq<Byte>)
    requires i == data.Length - data.Length % 4 && |was| == data.Length
    requires data[..] == DoneTo(was, i, WordBytes(mask))
    modifies data
    ensures data[..] == DoneTo(was, data.Length, WordBytes(mask))
  {
    ghost var m := WordBytes(mask);
    for j := 0 to data.Length % 4
      invariant data[..] == DoneTo(was, i + j, m)
    {
      NextByte(was, i, j, m);
      assert data[i + j] == data[..][i + j];
      assert ByteAt(mask, j) == m[j];
      data[i + j] := XorByte(data[i + j], ByteAt(mask, j));
    }
  }

  /** The in-place unmasking by words and then bytes is the octet-wise definition. */
  method Unmask(data: array<Byte>, mask: Uint32)
    modifies data
    ensures data[..] == Unmasked(old(data[..]), WordBytes(mask))
  {
    ghost var was := data[..];
    var i := UnmaskWords(data, mask);
    UnmaskTail(data, mask, i, was);
    assert DoneTo(was, |was|, WordBytes(mask)) == Unmasked(was, WordBytes(mask));
  }
}
