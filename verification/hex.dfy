/**
 The LCID column: `printf`'s `"0x%04lX"` applied to an `LCID`, i.e. "0x"
 followed by the value in upper-case hexadecimal, zero-padded on the left to
 at least four digits.
 */
module Hex {
  import opened Win32

  predicate IsUpperHexDigit(c: char) {
    '0' <= c <= '9' || 'A' <= c <= 'F'
  }

  predicate IsUpperHex(s: string) {
    forall i :: 0 <= i < |s| ==> IsUpperHexDigit(s[i])
  }

  function HexChar(d: nat): (c: char)
    requires d < 16
    ensures IsUpperHexDigit(c)
  {
    if d < 10 then (('0' as int) + d) as char else (('A' as int) + d - 10) as char
  }

  function HexValue(c: char): (d: nat)
    requires IsUpperHexDigit(c)
    ensures d < 16
  {
    if c <= '9' then (c as int) - ('0' as int) else (c as int) - ('A' as int) + 10
  }

  /** The number an upper-case hexadecimal digit string denotes (0 for ""). */
  function ParseHex(s: string): nat
    requires IsUpperHex(s)
  {
    if |s| == 0 then 0 else 16 * ParseHex(s[..|s| - 1]) + HexValue(s[|s| - 1])
  }

  function Pow16(k: nat): (p: nat)
    ensures p >= 1
  {
    if k == 0 then 1 else 16 * Pow16(k - 1)
  }

  /** `%lX` without a width: the shortest upper-case hexadecimal rendering of `n`. */
  function HexDigits(n: nat): (s: string)
    ensures |s| >= 1 && IsUpperHex(s)
  {
    if n < 16 then [HexChar(n)] else HexDigits(n / 16) + [HexChar(n % 16)]
  }

  /** The `0` flag with a field width: prepend '0' until `s` is `width` long. */
  function ZeroPad(s: string, width: nat): (r: string)
    ensures |r| >= width && |r| >= |s|
    decreases width - |s|
  {
    if |s| >= width then s else ZeroPad(['0'] + s, width)
  }

  /** `"0x%04lX"` applied to `lcid`. */
  function FormatLcid(lcid: Dword): (r: string)
    ensures |r| >= 6 && r[..2] == "0x"
  {
    "0x" + ZeroPad(HexDigits(lcid), 4)
  }

  lemma {:induction false} HexCharValue(d: nat)
    requires d < 16
    ensures HexValue(HexChar(d)) == d
  {
  }

  /** Reading back the rendering of `n` gives `n`. */
  lemma {:induction false} HexRoundTrip(n: nat)
    ensures ParseHex(HexDigits(n)) == n
  {
    if n < 16 {
      HexCharValue(n);
      assert HexDigits(n)[..0] == "";
    } else {
      HexRoundTrip(n / 16);
      HexCharValue(n % 16);
      var s := HexDigits(n);
      assert s[..|s| - 1] == HexDigits(n / 16);
    }
  }

  /** The rendering has no leading zero unless the number is zero. */
  lemma {:induction false} HexDigitsNoLeadingZero(n: nat)
    requires n > 0
    ensures HexDigits(n)[0] != '0'
  {
    if n >= 16 {
      HexDigitsNoLeadingZero(n / 16);
    }
  }

  /** The rendering fits in `k` digits exactly when `n` is below 16^k. */
  lemma {:induction false} HexDigitsLength(n: nat, k: nat)
    requires k >= 1
    ensures |HexDigits(n)| <= k <==> n < Pow16(k)
  {
    if n >= 16 && k > 1 {
      HexDigitsLength(n / 16, k - 1);
    }
  }

  /** Zero padding yields `max(|s|, width)` characters: zeros, then `s` unchanged. */
  lemma {:induction false} ZeroPadShape(s: string, width: nat)
    ensures var r := ZeroPad(s, width);
      && |r| == (if |s| >= width then |s| else width)
      && r[|r| - |s|..] == s
      && (forall i :: 0 <= i < |r| - |s| ==> r[i] == '0')
    decreases width - |s|
  {
    if |s| < width {
      ZeroPadShape(['0'] + s, width);
      var r := ZeroPad(s, width);
      assert r[|r| - |s| - 1..] == ['0'] + s;
      assert r[|r| - |s|..] == (['0'] + s)[1..];
    }
  }

  /** A leading '0' does not change the number a hexadecimal string denotes. */
  lemma {:induction false} ParseHexLeadingZero(s: string)
    requires IsUpperHex(s)
    ensures IsUpperHex(['0'] + s) && ParseHex(['0'] + s) == ParseHex(s)
    decreases |s|
  {
    var z := ['0'] + s;
    if |s| > 0 {
      ParseHexLeadingZero(s[..|s| - 1]);
      assert z[..|z| - 1] == ['0'] + s[..|s| - 1];
    } else {
      assert z[..0] == "";
    }
  }

  /** Zero padding does not change the number a hexadecimal string denotes. */
  lemma {:induction false} ParseHexZeroPad(s: string, width: nat)
    requires IsUpperHex(s)
    ensures IsUpperHex(ZeroPad(s, width)) && ParseHex(ZeroPad(s, width)) == ParseHex(s)
    decreases width - |s|
  {
    if |s| < width {
      ParseHexLeadingZero(s);
      ParseHexZeroPad(['0'] + s, width);
    }
  }

  /**
   The LCID column is "0x" and then upper-case hexadecimal digits that denote
   the LCID: exactly four of them below 0x10000, and for larger LCIDs as many
   as the value needs (up to eight, since an LCID is 32 bits wide), without a
   leading zero.
   */
  lemma FormatLcidSpec(lcid: Dword)
    ensures var r := FormatLcid(lcid);
      && r[..2] == "0x"
      && IsUpperHex(r[2..])
      && ParseHex(r[2..]) == lcid
      && (lcid < 0x10000 <==> |r| == 6)
      && (|r| > 6 ==> r[2] != '0')
      && 6 <= |r| <= 10
  {
    var h := HexDigits(lcid);
    var r := FormatLcid(lcid);
    assert r[2..] == ZeroPad(h, 4);
    HexRoundTrip(lcid);
    ParseHexZeroPad(h, 4);
    ZeroPadShape(h, 4);
    HexDigitsLength(lcid, 4);
    assert Pow16(4) == 0x10000;
    HexDigitsLength(lcid, 8);
    assert Pow16(8) == 0x1_0000_0000;
    if |r| > 6 {
      HexDigitsNoLeadingZero(lcid);
      assert r[2..] == h;
    }
  }
}
