/** Byte strings shared by both ends of the protocol: exclusive or, little-endian fields
    and the hexadecimal form in which identifiers are written to extended attributes. */
module Bytes {

  const ID_LENGTH: nat := 16

  /** An object or process identifier: sixteen bytes. */
  type Id = s: seq<bv8> | |s| == ID_LENGTH witness Zeros(ID_LENGTH)

  function Zeros(n: nat): (r: seq<bv8>)
    ensures |r| == n
    ensures forall i :: 0 <= i < n ==> r[i] == 0
  {
    seq(n, _ => 0)
  }

  /** Bytewise exclusive or. */
  function Xor(a: seq<bv8>, b: seq<bv8>): (r: seq<bv8>)
    requires |a| == |b|
    ensures |r| == |a|
    ensures forall i :: 0 <= i < |a| ==> r[i] == a[i] ^ b[i]
  {
    seq(|a|, i requires 0 <= i < |a| => a[i] ^ b[i])
  }

  lemma XorZero(a: seq<bv8>)
    ensures Xor(a, Zeros(|a|)) == a
  {
    assert forall i :: 0 <= i < |a| ==> a[i] ^ 0 == a[i];
  }

  lemma XorAssoc(a: seq<bv8>, b: seq<bv8>, c: seq<bv8>)
    requires |a| == |b| == |c|
    ensures Xor(Xor(a, b), c) == Xor(a, Xor(b, c))
  {
    forall i | 0 <= i < |a|
      ensures Xor(Xor(a, b), c)[i] == Xor(a, Xor(b, c))[i]
    {
      assert (a[i] ^ b[i]) ^ c[i] == a[i] ^ (b[i] ^ c[i]);
    }
  }

  /** Exclusive or is cancellative: a key is unchanged by a value exactly when the value is zero. */
  lemma XorCancel(a: seq<bv8>, d: seq<bv8>)
    requires |a| == |d|
    ensures Xor(a, d) == a <==> d == Zeros(|a|)
  {
    if Xor(a, d) == a {
      forall i | 0 <= i < |a|
        ensures d[i] == 0
      {
        assert Xor(a, d)[i] == a[i] ^ d[i];
        CancelByte(a[i], d[i]);
      }
    } else {
      XorZero(a);
    }
  }

  lemma CancelByte(x: bv8, y: bv8)
    requires x ^ y == x
    ensures y == 0
  {
  }

  // ----- fields of the wire format (little-endian, as on x86)

  /** A 32-bit signed integer. */
  type Int32 = n: int | -0x8000_0000 <= n < 0x8000_0000

  /** The signed reading of a 32-bit field. */
  function Signed(w: bv32): (n: Int32) {
    var u := w as int;
    if u >= 0x8000_0000 then u - 0x1_0000_0000 else u
  }

  function Le32(p: bv32): (r: seq<bv8>)
    ensures |r| == 4
  {
    [(p & 0xFF) as bv8, ((p >> 8) & 0xFF) as bv8, ((p >> 16) & 0xFF) as bv8, (p >> 24) as bv8]
  }

  function FromLe32(s: seq<bv8>): (p: bv32)
    requires |s| == 4
  {
    (s[0] as bv32) | (s[1] as bv32 << 8) | (s[2] as bv32 << 16) | (s[3] as bv32 << 24)
  }

  lemma Le32RoundTrip(p: bv32)
    ensures FromLe32(Le32(p)) == p
  {
  }

  function Le16(op: bv16): (r: seq<bv8>)
    ensures |r| == 2
  {
    [(op & 0xFF) as bv8, (op >> 8) as bv8]
  }

  function FromLe16(s: seq<bv8>): (op: bv16)
    requires |s| == 2
  {
    (s[0] as bv16) | (s[1] as bv16 << 8)
  }

  lemma Le16RoundTrip(op: bv16)
    ensures FromLe16(Le16(op)) == op
  {
  }

  /** The least significant byte first. */
  lemma LittleEndian()
    ensures Le32(0x0403_0201) == [1, 2, 3, 4] && Le16(0x0201) == [1, 2]
  {
  }

  lemma Le16Back(s: seq<bv8>)
    requires |s| == 2
    ensures Le16(FromLe16(s)) == s
  {
    BackBytes(s[0], s[1]);
  }

  lemma BackBytes(lo: bv8, hi: bv8)
    ensures (((lo as bv16) | (hi as bv16 << 8)) & 0xFF) as bv8 == lo
    ensures (((lo as bv16) | (hi as bv16 << 8)) >> 8) as bv8 == hi
  {
  }

  // ----- hexadecimal identifiers; characters are bytes here

  /** The character of a digit in "0123456789ABCDEF". */
  function Digit(n: bv8): (c: bv8)
    requires n < 16
    ensures c != 0
  {
    if n < 10 then 0x30 + n else 0x37 + n
  }

  function High(b: bv8): (n: bv8)
    ensures n < 16
  {
    b >> 4
  }

  function Low(b: bv8): (n: bv8)
    ensures n < 16
  {
    b & 0x0F
  }

  /** Two digits a byte, the high one first. */
  function HexOf(s: seq<bv8>): (h: seq<bv8>)
    ensures |h| == 2 * |s|
    ensures forall i :: 0 <= i < |h| ==> h[i] != 0
  {
    if s == [] then []
    else
      var b := s[|s| - 1];
      HexOf(s[..|s| - 1]) + [Digit(High(b)), Digit(Low(b))]
  }

  /** Byte `i` is at 2i and 2i + 1, in capital letters. */
  lemma {:induction false} HexAt(s: seq<bv8>, i: nat)
    requires i < |s|
    ensures HexOf(s)[2 * i] == Digit(High(s[i])) && HexOf(s)[2 * i + 1] == Digit(Low(s[i]))
    ensures s[i] == 0x9A ==> HexOf(s)[2 * i..2 * i + 2] == ['9' as int as bv8, 'A' as int as bv8]
  {
    if i < |s| - 1 {
      HexAt(s[..|s| - 1], i);
    }
  }

  /** The string written by to_hexstring, with its terminating NUL. */
  method ToHexString(buf: seq<bv8>) returns (out: seq<bv8>)
    ensures out == HexOf(buf) + [0]
  {
    out := [];
    var i := 0;
    while i < |buf|
      invariant 0 <= i <= |buf|
      invariant out == HexOf(buf[..i])
    {
      assert buf[..i + 1][..i] == buf[..i];
      out := out + [Digit(High(buf[i])), Digit(Low(buf[i]))];
      i := i + 1;
    }
    assert buf[..i] == buf;
    out := out + [0];
  }

  /** The value of one character, by the arithmetic the kernel uses. */
  function Nibble(c: bv8): (n: bv8) {
    (c % 32 + 9) % 25
  }

  function Join(c: bv8, d: bv8): (b: bv8) {
    Nibble(c) * 16 + Nibble(d)
  }

  /** What hexstring_to_bytes yields for a string of even length. */
  function BytesOf(h: seq<bv8>): (s: seq<bv8>)
    requires |h| % 2 == 0
    ensures |s| == |h| / 2
  {
    if h == [] then []
    else BytesOf(h[..|h| - 2]) + [Join(h[|h| - 2], h[|h| - 1])]
  }

  method HexStringToBytes(h: seq<bv8>) returns (ok: bool, s: seq<bv8>)
    ensures ok <==> |h| % 2 == 0
    ensures ok ==> s == BytesOf(h)
  {
    s := [];
    if |h| % 2 != 0 {
      return false, s;
    }
    var i := 0;
    while i < |h|
      invariant 0 <= i <= |h| && i % 2 == 0
      invariant s == BytesOf(h[..i])
    {
      assert h[..i + 2][..i] == h[..i];
      s := s + [Join(h[i], h[i + 1])];
      i := i + 2;
    }
    assert h[..i] == h;
    return true, s;
  }

  lemma DecodeByte(b: bv8)
    ensures Join(Digit(High(b)), Digit(Low(b))) == b
  {
  }

  /** Decoding an encoded byte string gives it back: what is written to an identifier attribute
      is what a later load reads. */
  lemma {:induction false} HexRoundTrip(s: seq<bv8>)
    ensures BytesOf(HexOf(s)) == s
  {
    if s != [] {
      var n, h := |s| - 1, HexOf(s);
      assert h[..|h| - 2] == HexOf(s[..n]);
      DecodeByte(s[n]);
      HexRoundTrip(s[..n]);
      assert s == s[..n] + [s[n]];
    }
  }
}
