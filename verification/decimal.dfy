/**
 The C runtime's `_wtoi`, as the exporter uses it to turn the code page
 strings returned by `GetLocaleInfoW` into the `UINT` handed to
 `GetCPInfoExW`, together with the decimal rendering it inverts.
 */
module Decimal {
  import opened Win32

  const IntMax: int := 0x7FFF_FFFF
  const IntMin: int := -0x8000_0000

  predicate IsDigit(c: char) {
    '0' <= c <= '9'
  }

  predicate AllDigits(s: string) {
    forall i :: 0 <= i < |s| ==> IsDigit(s[i])
  }

  /** The white-space characters `_wtoi` skips before the number. */
  predicate IsSpace(c: char) {
    c == ' ' || c == '\t' || c == '\n' || c == '\U{B}' || c == '\U{C}' || c == '\r'
  }

  function DigitValue(c: char): (d: nat)
    requires IsDigit(c)
    ensures d < 10
  {
    (c as int) - ('0' as int)
  }

  function DigitChar(d: nat): (c: char)
    requires d < 10
    ensures IsDigit(c) && DigitValue(c) == d
  {
    (('0' as int) + d) as char
  }

  /** The number a string of decimal digits denotes (0 for the empty string). */
  function ValueOf(s: string): nat
    requires AllDigits(s)
  {
    if |s| == 0 then 0 else 10 * ValueOf(s[..|s| - 1]) + DigitValue(s[|s| - 1])
  }

  /** The text left once leading white space is skipped. */
  function SkipSpace(s: string): (t: string)
    ensures |t| <= |s|
  {
    if |s| > 0 && IsSpace(s[0]) then SkipSpace(s[1..]) else s
  }

  /** The text after an optional leading sign. */
  function SkipSign(t: string): (u: string)
    ensures |u| <= |t|
  {
    if |t| > 0 && (t[0] == '-' || t[0] == '+') then t[1..] else t
  }

  /**
   The digit loop of `_wtoi`: starting from `acc`, take each leading digit
   as the next decimal place, and stop at the first character that is not a
   digit.
   */
  function Accumulate(s: string, acc: nat): nat {
    if |s| > 0 && IsDigit(s[0]) then Accumulate(s[1..], 10 * acc + DigitValue(s[0])) else acc
  }

  /** Saturation to the range of a 32-bit `int`, as `_wtoi` does on overflow. */
  function Clamp(v: int): (r: int)
    ensures IntMin <= r <= IntMax
    ensures IntMin <= v <= IntMax ==> r == v
    ensures v > IntMax ==> r == IntMax
    ensures v < IntMin ==> r == IntMin
  {
    if v > IntMax then IntMax else if v < IntMin then IntMin else v
  }

  /**
   `_wtoi(s)`: skip white space, read an optional sign and then as many
   decimal digits as follow; anything else ends the number. A string with no
   digits gives 0.
   */
  function WToI(s: string): (r: int)
    ensures IntMin <= r <= IntMax
  {
    var t := SkipSpace(s);
    var negative := |t| > 0 && t[0] == '-';
    var v: int := Accumulate(SkipSign(t), 0);
    Clamp(if negative then -v else v)
  }

  /** The implicit conversion of a 32-bit `int` to `UINT` (two's complement). */
  function ToUint(i: int): (r: Dword)
    requires IntMin <= i <= IntMax
    ensures 0 <= i ==> r == i
    ensures i < 0 ==> r == i + 0x1_0000_0000
  {
    i % 0x1_0000_0000
  }

  /**
   The code page `UINT codePage = _wtoi(s)` the exporter computes from a
   string: the sign bit of the `UINT` is set exactly when `_wtoi` was negative.
   */
  function CodePageOf(s: string): (cp: Dword)
    ensures cp < 0x8000_0000 <==> WToI(s) >= 0
    ensures WToI(s) >= 0 ==> cp == WToI(s)
  {
    ToUint(WToI(s))
  }

  /** The shortest decimal rendering of `n`, as `GetLocaleInfoW` reports code pages. */
  function DecimalString(n: nat): (s: string)
    ensures |s| > 0
  {
    if n < 10 then [DigitChar(n)] else DecimalString(n / 10) + [DigitChar(n % 10)]
  }

  /** `DecimalString` produces digits only and `ValueOf` reads its number back. */
  lemma {:induction false} DecimalStringRoundTrip(n: nat)
    ensures AllDigits(DecimalString(n))
    ensures ValueOf(DecimalString(n)) == n
  {
    if n >= 10 {
      DecimalStringRoundTrip(n / 10);
      var s := DecimalString(n);
      assert s[..|s| - 1] == DecimalString(n / 10);
    }
  }

  /**
   The digit loop reads a digit string as its decimal value: continuing
   from the value of digits `p` already read, it reaches the value of `p + s`.
   */
  lemma {:induction false} AccumulateIsValueOf(p: string, s: string)
    requires AllDigits(p) && AllDigits(s)
    ensures AllDigits(p + s) && Accumulate(s, ValueOf(p)) == ValueOf(p + s)
    decreases |s|
  {
    if |s| == 0 {
      assert p + s == p;
    } else {
      var p' := p + [s[0]];
      assert p'[..|p'| - 1] == p;
      assert AllDigits(p');
      AccumulateIsValueOf(p', s[1..]);
      assert p' + s[1..] == p + s;
    }
  }

  /** On a string of digits `_wtoi` is the saturated value of those digits. */
  lemma WToIOfDigits(s: string)
    requires AllDigits(s)
    ensures WToI(s) == Clamp(ValueOf(s))
  {
    assert SkipSpace(s) == s;
    if |s| > 0 {
      assert s[0] != '-' && s[0] != '+';
    }
    AccumulateIsValueOf("", s);
    assert "" + s == s;
  }

  /**
   The code page the exporter passes to `GetCPInfoExW` is the decimal value
   of the code page string, when that string is a number that fits an `int`.
   */
  lemma CodePageOfDecimal(s: string)
    requires AllDigits(s)
    requires ValueOf(s) <= IntMax
    ensures CodePageOf(s) == ValueOf(s)
  {
    WToIOfDigits(s);
  }

  /** Rendering a code page and reading it back with `_wtoi` gives it back. */
  lemma WToIRoundTrip(n: nat)
    requires n <= IntMax
    ensures WToI(DecimalString(n)) == n
    ensures CodePageOf(DecimalString(n)) == n
  {
    DecimalStringRoundTrip(n);
    WToIOfDigits(DecimalString(n));
  }

  /**
   A string in which no digit follows the white space and the optional sign,
   such as the empty buffer a failed lookup leaves behind, denotes code page 0.
   */
  lemma CodePageOfNoDigits(s: string)
    requires var u := SkipSign(SkipSpace(s)); |u| == 0 || !IsDigit(u[0])
    ensures WToI(s) == 0
    ensures CodePageOf(s) == 0
  {
  }
}
