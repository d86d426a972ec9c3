/** base/LogStream.cpp: the decimal and hexadecimal texts of integers, and what they parse back to. */
module NumberText {
  import opened Endian

  const MINUS: Byte := 45

  predicate IsBase(base: nat) {
    base == 10 || base == 16
  }

  /** digits and digitsHex */
  function DigitChar(d: nat): Byte
    requires d < 16
  {
    if d < 10 then 48 + d else 55 + d
  }

  function Digits(n: nat, base: nat): (s: Bytes)
    requires IsBase(base)
    ensures s != []
  {
    if n < base then [DigitChar(n)] else Digits(n / base, base) + [DigitChar(n % base)]
  }

  function Abs(x: int): nat {
    if x < 0 then -x else x
  }

  function Decimal(value: int): (s: Bytes)
    ensures s != []
  {
    if value < 0 then [MINUS] + Digits(-value, 10) else Digits(value, 10)
  }

  // ---- Reading the text back ----

  function DigitValue(c: Byte): nat {
    if 48 <= c < 58 then c - 48 else if 65 <= c < 71 then c - 55 else 16
  }

  /** One more digit on the right. */
  function Shift(high: nat, base: nat, d: nat): nat
    requires IsBase(base)
  {
    (if base == 10 then 10 * high else 16 * high) + d
  }

  function NumberOf(s: Bytes, base: nat): nat
    requires IsBase(base)
  {
    if s == [] then 0 else Shift(NumberOf(s[..|s| - 1], base), base, DigitValue(s[|s| - 1]))
  }

  function IntegerOf(s: Bytes): int {
    if s != [] && s[0] == MINUS then
      var magnitude: int := NumberOf(s[1..], 10);
      -magnitude
    else NumberOf(s, 10)
  }

  /** Digits of the base, without a leading zero unless that is all. */
  predicate CanonicalDigits(s: Bytes, base: nat) {
    && s != []
    && (forall i :: 0 <= i < |s| ==> DigitValue(s[i]) < base)
    && (|s| > 1 ==> DigitValue(s[0]) != 0)
  }

  /** Canonical digits, with a minus sign in front only if they are not zero. */
  predicate CanonicalDecimal(s: Bytes) {
    if s != [] && s[0] == MINUS then CanonicalDigits(s[1..], 10) && DigitValue(s[1]) != 0 else CanonicalDigits(s, 10)
  }

  lemma {:induction false} DigitsReadBack(n: nat, base: nat)
    requires IsBase(base)
    ensures CanonicalDigits(Digits(n, base), base) && NumberOf(Digits(n, base), base) == n
    ensures n > 0 ==> DigitValue(Digits(n, base)[0]) != 0
  {
    var s := Digits(n, base);
    if n >= base {
      DigitsReadBack(n / base, base);
      assert s[..|s| - 1] == Digits(n / base, base);
      ShiftSplits(n, base);
      hide Shift;
    } else {
      assert NumberOf(s[..0], base) == 0;
    }
  }

  lemma ShiftSplits(n: nat, base: nat)
    requires IsBase(base)
    ensures Shift(n / base, base, n % base) == n && n % base < base && (n >= base ==> n / base > 0)
  {
  }

  /** "-907", and "BEEF" for 48879 in base 16. */
  lemma KnownTexts()
    ensures Decimal(-907) == [45, 57, 48, 55] && Digits(48879, 16) == [66, 69, 69, 70]
  {
    assert Digits(9, 10) == [57] && Digits(90, 10) == [57, 48];
    assert Digits(11, 16) == [66] && Digits(190, 16) == [66, 69] && Digits(3054, 16) == [66, 69, 69];
  }

  /** A digit on the right of a positive number is a digit on the right of its text. */
  lemma DigitsSnoc(n: nat, base: nat, d: nat)
    requires IsBase(base) && n > 0 && d < base
    ensures Digits(Shift(n, base, d), base) == Digits(n, base) + [DigitChar(d)] && Shift(n, base, d) >= base
  {
    Quotient(n, base, d);
    hide Shift, DigitChar;
  }

  lemma {:induction false} CanonicalIsDigits(s: Bytes, base: nat)
    requires IsBase(base) && CanonicalDigits(s, base)
    ensures Digits(NumberOf(s, base), base) == s
    ensures |s| > 1 ==> NumberOf(s, base) >= base
    ensures NumberOf(s, base) == 0 <==> s == [48]
  {
    var init, last := s[..|s| - 1], s[|s| - 1];
    DigitChars(last);
    if |s| == 1 {
      assert NumberOf(init, base) == 0;
    } else {
      DigitChars(s[0]);
      CanonicalInit(s, base);
      CanonicalIsDigits(init, base);
      hide Shift, DigitValue, DigitChar, Digits, CanonicalDigits;
      DigitsSnoc(NumberOf(init, base), base, DigitValue(last));
      assert s == init + [last];
    }
  }

  lemma CanonicalInit(s: Bytes, base: nat)
    requires CanonicalDigits(s, base) && |s| > 1
    ensures CanonicalDigits(s[..|s| - 1], base) && s[..|s| - 1] != [48] && DigitValue(s[|s| - 1]) < base
  {
    assert s[..|s| - 1][0] == s[0];
  }

  lemma DigitChars(c: Byte)
    requires DigitValue(c) < 16
    ensures DigitChar(DigitValue(c)) == c && (DigitValue(c) == 0 <==> c == 48)
  {
  }

  lemma Quotient(n: nat, base: nat, d: nat)
    requires IsBase(base) && n > 0 && d < base
    ensures var x := Shift(n, base, d); x >= base && x / base == n && x % base == d
  {
    if base == 10 {
      assert (10 * n + d) / 10 == n;
    } else {
      assert (16 * n + d) / 16 == n;
    }
  }

  /** Every integer's text is canonical and reads back as that integer. */
  lemma DecimalReadsBack(value: int)
    ensures CanonicalDecimal(Decimal(value)) && IntegerOf(Decimal(value)) == value
  {
    DigitsReadBack(Abs(value), 10);
    if value < 0 {
      assert Decimal(value)[1..] == Digits(-value, 10);
    }
  }

  /** Every canonical text is the text of what it reads as, so no integer has two. */
  lemma CanonicalIsDecimal(s: Bytes)
    requires CanonicalDecimal(s)
    ensures Decimal(IntegerOf(s)) == s
  {
    if s[0] == MINUS {
      CanonicalIsDigits(s[1..], 10);
      assert s == [MINUS] + s[1..];
    } else {
      CanonicalIsDigits(s, 10);
    }
  }

  function Power(base: nat, k: nat): nat
    requires IsBase(base)
    ensures Power(base, k) > 0
  {
    if k == 0 then 1 else if base == 10 then 10 * Power(base, k - 1) else 16 * Power(base, k - 1)
  }

  lemma {:induction false} DigitsLength(n: nat, base: nat, k: nat)
    requires IsBase(base) && k > 0 && n < Power(base, k)
    ensures |Digits(n, base)| <= k
  {
    if n < base {
    } else {
      assert Power(base, 0) == 1;
      assert n / base < Power(base, k - 1);
      DigitsLength(n / base, base, k - 1);
    }
  }

  /** The integers that formatInteger is instantiated for: signed and unsigned, up to 64 bits. */
  predicate Is64Bit(value: int) {
    -0x8000_0000_0000_0000 <= value < 0x1_0000_0000_0000_0000
  }

  const MAX_NUMERIC_SIZE: nat := 32

  lemma PowerOfTen20()
    ensures Power(10, 20) == 100_000_000_000_000_000_000
  {
    assert Power(10, 5) == 100_000;
    assert Power(10, 10) == 10_000_000_000;
    assert Power(10, 15) == 1_000_000_000_000_000;
  }

  lemma PowerOf16()
    ensures Power(16, 16) == 0x1_0000_0000_0000_0000
  {
    assert Power(16, 4) == 0x1_0000;
    assert Power(16, 8) == 0x1_0000_0000;
    assert Power(16, 12) == 0x1_0000_0000_0000;
  }

  /** With its terminating NUL a 64-bit integer takes at most 22 of the 32 bytes that formatInteger asks for. */
  lemma DecimalFits(value: int)
    requires Is64Bit(value)
    ensures |Decimal(value)| + 1 <= 22 <= MAX_NUMERIC_SIZE
  {
    PowerOfTen20();
    DigitsLength(Abs(value), 10, 20);
  }

  lemma PointerFits(value: nat)
    requires Is64Bit(value)
    ensures 2 + |Digits(value, 16)| + 1 <= 19 <= MAX_NUMERIC_SIZE
  {
    PowerOf16();
    DigitsLength(value, 16, 16);
  }

  // ---- The reversed text that the loops write ----

  function Reversed(s: Bytes): (r: Bytes)
    ensures |r| == |s| && forall i :: 0 <= i < |s| ==> r[i] == s[|s| - 1 - i]
  {
    if s == [] then [] else [s[|s| - 1]] + Reversed(s[..|s| - 1])
  }
}
