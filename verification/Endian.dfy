/** net/Endian.h: integers of a given width in network byte order, two's complement. */
module Endian {
  type Byte = b: int | 0 <= b < 256
  type Bytes = seq<Byte>

  function Power256(width: nat): nat
    ensures 0 < Power256(width)
  {
    if width == 0 then 1 else 256 * Power256(width - 1)
  }

  /** The representable range of a signed integer of that many bytes. */
  predicate Fits(x: int, width: nat) {
    0 <= 2 * x + Power256(width) && 2 * x < Power256(width)
  }

  /** Big-endian bytes of a non-negative value, reduced modulo the width. */
  function BigEndian(x: nat, width: nat): (s: Bytes)
    ensures |s| == width
  {
    if width == 0 then [] else BigEndian(x / 256, width - 1) + [x % 256]
  }

  function Value(s: Bytes): nat {
    if s == [] then 0 else 256 * Value(s[..|s| - 1]) + s[|s| - 1]
  }

  /** hostToNetwork and a copy of the integer's bytes */
  function Encode(x: int, width: nat): (s: Bytes)
    requires Fits(x, width)
    ensures |s| == width
  {
    BigEndian(if x < 0 then x + Power256(width) else x, width)
  }

  /** networkToHost of copied bytes, read as a signed integer */
  function Decode(s: Bytes): int {
    if 2 * Value(s) < Power256(|s|) then Value(s) else Value(s) - Power256(|s|)
  }

  lemma {:induction false} ValueOfBytes(x: nat, width: nat)
    requires x < Power256(width)
    ensures Value(BigEndian(x, width)) == x
  {
    if width == 0 {
    } else {
      ValueOfBytes(x / 256, width - 1);
      var s := BigEndian(x, width);
      assert s[..|s| - 1] == BigEndian(x / 256, width - 1);
    }
  }

  lemma {:induction false} BytesOfValue(s: Bytes)
    ensures Value(s) < Power256(|s|)
    ensures BigEndian(Value(s), |s|) == s
  {
    if s == [] {
    } else {
      var rest := s[..|s| - 1];
      BytesOfValue(rest);
      assert Value(s) / 256 == Value(rest) && Value(s) % 256 == s[|s| - 1];
      assert s == rest + [s[|s| - 1]];
    }
  }

  lemma LowByte(m: nat, x: nat)
    ensures (256 * m + x) / 256 == m + x / 256 && (256 * m + x) % 256 == x % 256
  {
  }

  lemma Scaled(b: nat, p: nat)
    ensures b * (256 * p) == 256 * (b * p)
  {
  }

  /** The most significant byte comes first. */
  lemma {:induction false} MostSignificantFirst(b: Byte, x: nat, width: nat)
    requires x < Power256(width)
    ensures BigEndian(b * Power256(width) + x, width + 1) == [b] + BigEndian(x, width)
  {
    if width == 0 {
      assert BigEndian(b, 1) == BigEndian(b / 256, 0) + [b % 256];
    } else {
      var p := Power256(width - 1);
      Scaled(b, p);
      var high := b * p;
      LowByte(high, x);
      MostSignificantFirst(b, x / 256, width - 1);
      assert BigEndian(256 * high + x, width + 1) == BigEndian(high + x / 256, width) + [x % 256];
    }
  }

  /** Every signed integer reads back unchanged, and every byte string is the encoding of what it reads as. */
  lemma DecodeEncode(x: int, width: nat)
    requires Fits(x, width)
    ensures Decode(Encode(x, width)) == x
  {
    ValueOfBytes(if x < 0 then x + Power256(width) else x, width);
  }

  lemma EncodeDecode(s: Bytes)
    ensures Fits(Decode(s), |s|) || s == []
    ensures s != [] ==> Encode(Decode(s), |s|) == s
  {
    BytesOfValue(s);
    if s != [] {
      assert Power256(|s|) == 2 * (128 * Power256(|s| - 1));
    }
  }
}
