/** base/LogStream.cpp: integers written as text into the free part of a FixedBuffer, in place. */
module LogStream {
  import opened Endian
  import opened CInt
  import opened NumberText
  import F = FixedBuffer

  /** "9876543210123456789"; zero points at its middle. */
  const DIGITS: Bytes := [57, 56, 55, 54, 53, 52, 51, 50, 49, 48, 49, 50, 51, 52, 53, 54, 55, 56, 57]
  const ZERO: nat := 9

  /** "0123456789ABCDEF" */
  const DIGITS_HEX: Bytes := [48, 49, 50, 51, 52, 53, 54, 55, 56, 57, 65, 66, 67, 68, 69, 70]

  /** Truncating division by 10, on either side of zero, goes through the digits of the magnitude. */
  lemma TruncatedDigit(i: int)
    ensures -9 <= Mod(i, 10) <= 9 && Abs(Mod(i, 10)) == Abs(i) % 10 && Abs(Div(i, 10)) == Abs(i) / 10
    ensures DIGITS[ZERO + Mod(i, 10)] == DigitChar(Abs(i) % 10)
  {
  }

  lemma HexDigit(i: nat)
    ensures DIGITS_HEX[i % 16] == DigitChar(i % 16)
  {
  }

  /** What is left to write, least significant digit first: nothing once i has reached 0. */
  function Left(more: bool, n: nat, base: nat): Bytes
    requires IsBase(base)
  {
    if more then Digits(n, base) else []
  }

  lemma ReversedSnoc(s: Bytes, c: Byte)
    ensures Reversed(s + [c]) == [c] + Reversed(s)
  {
  }

  /** One turn of the loops: the next digit goes behind the text so far. */
  lemma DigitStep(n: nat, base: nat, text: Bytes)
    requires IsBase(base)
    ensures Left(n / base != 0, n / base, base) + Reversed(text + [DigitChar(n % base)]) == Digits(n, base) + Reversed(text)
    ensures n > 0 ==> n / base < n
  {
    var c := DigitChar(n % base);
    LastDigit(n, base);
    hide DigitChar, Reversed, Digits, Left;
    ReversedSnoc(text, c);
    Regroup(Left(n / base != 0, n / base, base), [c], Reversed(text));
  }

  lemma Regroup(a: Bytes, b: Bytes, c: Bytes)
    ensures a + (b + c) == (a + b) + c
  {
  }

  lemma LastDigit(n: nat, base: nat)
    requires IsBase(base)
    ensures Digits(n, base) == Left(n / base != 0, n / base, base) + [DigitChar(n % base)]
    ensures n > 0 ==> n / base < n
  {
    if n < base {
      assert n / base == 0 && n % base == n;
    } else {
      assert n / base > 0;
    }
  }

  /** The array holds `text` from index `at` on and is otherwise as it was. */
  predicate Written(now: Bytes, was: Bytes, at: nat, text: Bytes) {
    at + |text| <= |was| && now == was[..at] + text + was[at + |text|..]
  }

  /** *p++ = c */
  method Put(buf: array<Byte>, p: nat, c: Byte, ghost was: Bytes, ghost at: nat, ghost text: Bytes)
    requires p < buf.Length && p == at + |text| && Written(buf[..], was, at, text)
    modifies buf
    ensures Written(buf[..], was, at, text + [c])
  {
    buf[p] := c;
    assert was[p..] == [was[p]] + was[p + 1..];
  }

  /** The swaps of std::reverse. */
  method SwapRange(buf: array<Byte>, lo: nat, hi: nat)
    requires lo <= hi <= buf.Length
    modifies buf
    ensures forall k :: lo <= k < hi ==> buf[k] == old(buf[lo + hi - 1 - k])
    ensures forall k :: 0 <= k < lo || hi <= k < buf.Length ==> buf[k] == old(buf[k])
  {
    var i, j := lo, hi;
    while i + 1 < j
      invariant lo <= i <= j + 1 && j <= hi && i - lo == hi - j
      invariant forall k :: lo <= k < i ==> buf[k] == old(buf[lo + hi - 1 - k])
      invariant forall k :: j <= k < hi ==> buf[k] == old(buf[lo + hi - 1 - k])
      invariant forall k :: i <= k < j ==> buf[k] == old(buf[k])
      invariant forall k :: 0 <= k < lo || hi <= k < buf.Length ==> buf[k] == old(buf[k])
    {
      j := j - 1;
      buf[i], buf[j] := buf[j], buf[i];
      i := i + 1;
    }
  }

  /** std::reverse on part of an array: what lies before and behind it stays. */
  method ReverseRange(buf: array<Byte>, ghost before: Bytes, ghost text: Bytes, ghost behind: Bytes, lo: nat, hi: nat)
    requires lo <= hi <= buf.Length && |before| == lo && |text| == hi - lo
    requires buf[..] == before + text + behind
    modifies buf
    ensures buf[..] == before + Reversed(text) + behind
  {
    ghost var was := buf[..];
    SwapRange(buf, lo, hi);
    var now := before + Reversed(text) + behind;
    assert |now| == |was| == buf.Length;
    forall k | 0 <= k < buf.Length
      ensures buf[k] == now[k]
    {
      if lo <= k < hi {
        assert buf[k] == was[lo + hi - 1 - k] == text[hi - 1 - k];
      } else {
        assert buf[k] == was[k];
      }
    }
  }

  /** The do-while loop of convert: the digits of the magnitude, least significant first. */
  method WriteDecimal(buf: array<Byte>, at: nat, value: int) returns (p: nat, ghost text: Bytes)
    requires at + |Digits(Abs(value), 10)| <= buf.Length
    modifies buf
    ensures p == at + |text| && Reversed(text) == Digits(Abs(value), 10) && Written(buf[..], old(buf[..]), at, text)
  {
    assert Reversed([]) == [];
    assert Written(buf[..], buf[..], at, []);
    hide Digits, Reversed, DigitChar, Written;
    var i, more := value, true;
    p, text := at, [];
    while more
      invariant at <= p == at + |text|
      invariant Left(more, Abs(i), 10) + Reversed(text) == Digits(Abs(value), 10) + Reversed([])
      invariant Written(buf[..], old(buf[..]), at, text)
      invariant |text| > 0 && more ==> i != 0
      decreases if more then Abs(i) + 1 else 0
    {
      TruncatedDigit(i);
      DigitStep(Abs(i), 10, text);
      var lsd := Mod(i, 10);
      assert p < buf.Length;
      Put(buf, p, DIGITS[ZERO + lsd], old(buf[..]), at, text);
      text := text + [DIGITS[ZERO + lsd]];
      p := p + 1;
      i := Div(i, 10);
      more := i != 0;
    }
    assert [] + Reversed(text) == Reversed(text) && Digits(Abs(value), 10) + [] == Digits(Abs(value), 10);
  }

  /** convert: writes the decimal text of value at index `at`, and a NUL behind it. */
  method Convert(buf: array<Byte>, at: nat, value: int) returns (len: nat)
    requires at + |Decimal(value)| < buf.Length
    modifies buf
    ensures len == |Decimal(value)| && Written(buf[..], old(buf[..]), at, Decimal(value) + [0])
  {
    hide Digits, Reversed, Written;
    var p, text := WriteDecimal(buf, at, value);
    if value < 0 {
      Put(buf, p, MINUS, old(buf[..]), at, text);
      ReversedSnoc(text, MINUS);
      text := text + [MINUS];
      p := p + 1;
    }
    len := p - at;
    Terminate(buf, old(buf[..]), text, at, p);
  }

  /** *p = '\0', and the text behind `at` is reversed in place. */
  method Terminate(buf: array<Byte>, ghost was: Bytes, ghost text: Bytes, at: nat, p: nat)
    requires Written(buf[..], was, at, text) && p == at + |text| < buf.Length
    modifies buf
    ensures Written(buf[..], was, at, Reversed(text) + [0])
  {
    Put(buf, p, 0, was, at, text);
    assert buf[..] == was[..at] + text + ([0] + was[p + 1..]);
    ReverseRange(buf, was[..at], text, [0] + was[p + 1..], at, p);
  }

  /** The do-while loop of convertHex. */
  method WriteHex(buf: array<Byte>, at: nat, value: nat) returns (p: nat, ghost text: Bytes)
    requires at + |Digits(value, 16)| <= buf.Length
    modifies buf
    ensures p == at + |text| && Reversed(text) == Digits(value, 16) && Written(buf[..], old(buf[..]), at, text)
  {
    assert Reversed([]) == [];
    assert Written(buf[..], buf[..], at, []);
    hide Digits, Reversed, DigitChar, Written;
    var i, more := value, true;
    p, text := at, [];
    while more
      invariant at <= p == at + |text|
      invariant Left(more, i, 16) + Reversed(text) == Digits(value, 16) + Reversed([])
      invariant Written(buf[..], old(buf[..]), at, text)
      invariant |text| > 0 && more ==> i != 0
      decreases if more then i + 1 else 0
    {
      HexDigit(i);
      DigitStep(i, 16, text);
      var lsd := i % 16;
      assert p < buf.Length;
      Put(buf, p, DIGITS_HEX[lsd], old(buf[..]), at, text);
      text := text + [DIGITS_HEX[lsd]];
      p := p + 1;
      i := i / 16;
      more := i != 0;
    }
    assert [] + Reversed(text) == Reversed(text) && Digits(value, 16) + [] == Digits(value, 16);
  }

  /** convertHex */
  method ConvertHex(buf: array<Byte>, at: nat, value: nat) returns (len: nat)
    requires at + |Digits(value, 16)| < buf.Length
    modifies buf
    ensures len == |Digits(value, 16)| && Written(buf[..], old(buf[..]), at, Digits(value, 16) + [0])
  {
    hide Digits, Reversed, Written;
    var p, text := WriteHex(buf, at, value);
    len := p - at;
    Terminate(buf, old(buf[..]), text, at, p);
  }

  lemma TextWritten(now: Bytes, was: Bytes, at: nat, text: Bytes)
    requires Written(now, was, at, text + [0])
    ensures at + |text| < |now| == |was| && now[..at + |text|] == was[..at] + text
  {
  }

  class LogStream {
    const buffer: F.FixedBuffer

    constructor ()
      ensures buffer.Valid() && buffer.Contents() == [] && buffer.data.Length == F.SMALL_BUFFER
    {
      buffer := new F.FixedBuffer(F.SMALL_BUFFER);
    }

    /** formatInteger, behind operator<< of the integer types: the whole text, or nothing if fewer than 32 bytes
        are free. */
    method FormatInteger(v: int)
      requires buffer.Valid() && Is64Bit(v)
      modifies buffer`cur, buffer.data
      ensures buffer.Valid()
      ensures buffer.Contents() == old(buffer.Contents()) + if old(buffer.Avail()) >= MAX_NUMERIC_SIZE then Decimal(v) else []
    {
      if buffer.Avail() >= MAX_NUMERIC_SIZE {
        DecimalFits(v);
        hide Decimal, Written;
        ghost var before := buffer.Contents();
        ghost var was := buffer.data[..];
        var len := Convert(buffer.data, buffer.cur, v);
        TextWritten(buffer.data[..], was, buffer.cur, Decimal(v));
        buffer.Add(len);
        assert buffer.Contents() == buffer.data[..][..buffer.cur] && was[..|before|] == before;
      }
    }

    /** operator<< of a pointer */
    method FormatPointer(v: nat)
      requires buffer.Valid() && Is64Bit(v)
      modifies buffer`cur, buffer.data
      ensures buffer.Valid()
      ensures buffer.Contents() == old(buffer.Contents()) + if old(buffer.Avail()) >= MAX_NUMERIC_SIZE then [48, 120] + Digits(v, 16) else []
    {
      if buffer.Avail() >= MAX_NUMERIC_SIZE {
        PointerFits(v);
        hide Digits, Written;
        ghost var before := buffer.Contents();
        buffer.data[buffer.cur], buffer.data[buffer.cur + 1] := 48, 120;
        ghost var was := buffer.data[..];
        assert was[..buffer.cur + 2] == before + [48, 120];
        var len := ConvertHex(buffer.data, buffer.cur + 2, v);
        TextWritten(buffer.data[..], was, buffer.cur + 2, Digits(v, 16));
        buffer.Add(len + 2);
        assert buffer.Contents() == buffer.data[..][..buffer.cur];
        Regroup(before, [48, 120], Digits(v, 16));
      }
    }
  }
}
