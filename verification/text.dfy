/**
 * The pieces of Kotlin's string handling the app relies on: decimal rendering
 * of integers in string templates, zero-padded number fields of date patterns,
 * `String.contains`, and `String.length` counted in UTF-16 code units.
 */
module Text {

  predicate IsDigit(c: char) {
    '0' <= c <= '9'
  }

  predicate AllDigits(s: string) {
    forall i :: 0 <= i < |s| ==> IsDigit(s[i])
  }

  function DigitChar(d: nat): (c: char)
    requires d < 10
    ensures IsDigit(c)
    ensures c as int - '0' as int == d
  {
    ['0', '1', '2', '3', '4', '5', '6', '7', '8', '9'][d]
  }

  /** The number a string of decimal digits denotes (the reading direction). */
  function DigitsValue(s: string): nat
    requires AllDigits(s)
  {
    if s == [] then 0
    else DigitsValue(s[..|s| - 1]) * 10 + (s[|s| - 1] as int - '0' as int)
  }

  /** Decimal rendering of a natural number, as `toString()` prints it. */
  function NatToString(n: nat): (s: string)
    ensures 1 <= |s|
    ensures AllDigits(s)
    ensures s[0] == '0' ==> n == 0 && s == "0"
    ensures DigitsValue(s) == n
    decreases n
  {
    if n < 10 then [DigitChar(n)]
    else
      var prefix := NatToString(n / 10);
      var s := prefix + [DigitChar(n % 10)];
      assert s[..|s| - 1] == prefix;
      s
  }

  /** Decimal rendering of a Kotlin `Int`/`Long` in a string template. */
  function IntToString(i: int): (s: string)
    ensures 1 <= |s|
    ensures i < 0 <==> s[0] == '-'
    ensures i < 0 ==> s == "-" + NatToString(-i)
    ensures 0 <= i ==> s == NatToString(i)
  {
    if i < 0 then "-" + NatToString(-i) else NatToString(i)
  }

  /** Reads back what `IntToString` writes: an optional minus sign and digits. */
  function ParseInt(s: string): int
    requires 1 <= |s|
    requires s[0] == '-' ==> AllDigits(s[1..])
    requires s[0] != '-' ==> AllDigits(s)
  {
    if s[0] == '-' then -(DigitsValue(s[1..]) as int) else DigitsValue(s)
  }

  /** Rendering an integer and parsing it back gives the same integer. */
  lemma IntToStringRoundTrip(i: int)
    ensures var s := IntToString(i);
            && (s[0] == '-' ==> AllDigits(s[1..]))
            && (s[0] != '-' ==> AllDigits(s))
            && ParseInt(s) == i
  {
    var s := IntToString(i);
    if i < 0 {
      assert s[1..] == NatToString(-i);
      assert NatToString(-i)[0] != '-';
    }
  }

  /** Distinct integers render to distinct strings. */
  lemma IntToStringInjective(i: int, j: int)
    requires IntToString(i) == IntToString(j)
    ensures i == j
  {
    IntToStringRoundTrip(i);
    IntToStringRoundTrip(j);
  }

  function Zeros(k: nat): (s: string)
    ensures |s| == k
    ensures forall i :: 0 <= i < k ==> s[i] == '0'
  {
    if k == 0 then [] else Zeros(k - 1) + ['0']
  }

  /**
   * A numeric field of a date pattern with `width` letters: the decimal value,
   * left-padded with zeros to at least `width` characters.
   */
  function ZeroPad(n: nat, width: nat): (s: string)
    ensures |s| == if |NatToString(n)| < width then width else |NatToString(n)|
    ensures AllDigits(s)
  {
    var digits := NatToString(n);
    if |digits| < width then Zeros(width - |digits|) + digits else digits
  }

  /** Numbers below `10^width` fill exactly `width` characters. */
  lemma {:induction false} NatToStringLength(n: nat, width: nat)
    requires 1 <= width
    requires n < Pow10(width)
    ensures |NatToString(n)| <= width
    decreases width
  {
    if n >= 10 {
      NatToStringLength(n / 10, width - 1);
    }
  }

  function Pow10(k: nat): (p: nat)
    ensures 1 <= p
  {
    if k == 0 then 1 else 10 * Pow10(k - 1)
  }

  /** A two-digit field (`HH`, `mm`, `ss`, `MM`, `dd`, `yy`) for values 0..99: tens, then units. */
  lemma TwoDigitField(n: nat)
    requires n < 100
    ensures ZeroPad(n, 2) == [DigitChar(n / 10), DigitChar(n % 10)]
  {
    if n >= 10 {
      assert NatToString(n / 10) == [DigitChar(n / 10)];
    }
  }

  lemma {:induction false} ZerosValue(k: nat)
    ensures DigitsValue(Zeros(k)) == 0
  {
    if k > 0 {
      assert Zeros(k)[..k - 1] == Zeros(k - 1);
      ZerosValue(k - 1);
    }
  }

  /** Leading zeros do not change the value a digit string denotes. */
  lemma {:induction false} LeadingZerosValue(k: nat, d: string)
    requires AllDigits(d)
    ensures AllDigits(Zeros(k) + d)
    ensures DigitsValue(Zeros(k) + d) == DigitsValue(d)
    decreases |d|
  {
    var s := Zeros(k) + d;
    if d == [] {
      assert s == Zeros(k);
      ZerosValue(k);
    } else {
      assert s[..|s| - 1] == Zeros(k) + d[..|d| - 1];
      LeadingZerosValue(k, d[..|d| - 1]);
    }
  }

  /** A number below `10^width` padded to `width` fills exactly `width` digits and reads back as itself. */
  lemma FixedWidthField(n: nat, width: nat)
    requires 1 <= width
    requires n < Pow10(width)
    ensures |ZeroPad(n, width)| == width
    ensures DigitsValue(ZeroPad(n, width)) == n
  {
    NatToStringLength(n, width);
    ZeroPadValue(n, width);
  }

  /** A padded field reads back as the number it renders. */
  lemma ZeroPadValue(n: nat, width: nat)
    ensures DigitsValue(ZeroPad(n, width)) == n
  {
    var digits := NatToString(n);
    if |digits| < width {
      LeadingZerosValue(width - |digits|, digits);
    }
  }

  /** `sub` occurs in `s` starting at index `i`. */
  predicate OccursAt(s: string, sub: string, i: int) {
    0 <= i && i + |sub| <= |s| && s[i..i + |sub|] == sub
  }

  /** Kotlin's `sub in s`: a literal substring test, no parsing. */
  predicate Contains(s: string, sub: string) {
    exists i | 0 <= i <= |s| - |sub| :: OccursAt(s, sub, i)
  }

  /** The naive left-to-right scan behind `String.contains`. */
  method SearchSubstring(s: string, sub: string) returns (found: bool)
    ensures found <==> Contains(s, sub)
  {
    if |s| < |sub| {
      return false;
    }
    var i := 0;
    while i <= |s| - |sub|
      invariant 0 <= i <= |s| - |sub| + 1
      invariant forall j :: 0 <= j < i ==> !OccursAt(s, sub, j)
    {
      if s[i..i + |sub|] == sub {
        assert OccursAt(s, sub, i);
        return true;
      }
      i := i + 1;
    }
    return false;
  }

  /**
   * Kotlin's `String.length`: UTF-16 code units, so a character outside the
   * Basic Multilingual Plane (most emoji) counts twice.
   */
  function Utf16Length(s: string): (n: nat)
    ensures |s| <= n <= 2 * |s|
  {
    if s == [] then 0
    else Utf16Length(s[..|s| - 1]) + (if s[|s| - 1] as int > 0xFFFF then 2 else 1)
  }

  /** Code-unit length is additive over concatenation. */
  lemma {:induction false} Utf16LengthAppend(a: string, b: string)
    ensures Utf16Length(a + b) == Utf16Length(a) + Utf16Length(b)
    decreases |b|
  {
    if b == [] {
      assert a + b == a;
    } else {
      var b' := b[..|b| - 1];
      assert (a + b)[..|a + b| - 1] == a + b';
      assert (a + b)[|a + b| - 1] == b[|b| - 1];
      Utf16LengthAppend(a, b');
    }
  }
}
