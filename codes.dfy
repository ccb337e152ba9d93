/**
 * Decimal rendering of non-negative integers as Python's zero-padded
 * integer format produces it (digits of `n`, left-padded with zeros
 * to at least W characters, never truncated), and the asset code
 * `YYYY-MM-NNNN` built from it.
 */
module Codes {

  predicate IsDigit(c: char) {
    '0' <= c <= '9'
  }

  predicate AllDigits(s: string) {
    forall i :: 0 <= i < |s| ==> IsDigit(s[i])
  }

  function DigitChar(d: nat): (c: char)
    requires d < 10
    ensures IsDigit(c)
  {
    "0123456789"[d]
  }

  function DigitValue(c: char): nat
    requires IsDigit(c)
  {
    c as int - '0' as int
  }

  /** The decimal rendering of a non-negative integer. */
  function Digits(n: nat): (s: string)
    ensures |s| >= 1 && AllDigits(s)
    decreases n
  {
    if n < 10 then [DigitChar(n)] else Digits(n / 10) + [DigitChar(n % 10)]
  }

  function Zeros(k: nat): (s: string)
    ensures |s| == k && AllDigits(s)
  {
    seq(k, _ => '0')
  }

  /** The digits of n, padded on the left with zeros to at least `width` characters. */
  function ZeroPad(n: nat, width: nat): (s: string)
    ensures AllDigits(s)
  {
    var ds := Digits(n);
    (if |ds| < width then Zeros(width - |ds|) else []) + ds
  }

  /** The value of a string of decimal digits (0 for the empty string). */
  function DecimalValue(s: string): nat
    requires AllDigits(s)
    decreases |s|
  {
    if s == [] then 0 else DecimalValue(s[..|s| - 1]) * 10 + DigitValue(s[|s| - 1])
  }

  function Pow10(k: nat): nat {
    if k == 0 then 1 else 10 * Pow10(k - 1)
  }

  lemma {:induction false} DigitsRoundTrip(n: nat)
    ensures DecimalValue(Digits(n)) == n
    decreases n
  {
    var s := Digits(n);
    if n >= 10 {
      DigitsRoundTrip(n / 10);
      assert s[..|s| - 1] == Digits(n / 10);
    }
  }

  lemma {:induction false} LeadingZerosIgnored(k: nat, s: string)
    requires AllDigits(s)
    ensures DecimalValue(Zeros(k) + s) == DecimalValue(s)
    decreases |s|
  {
    var t := Zeros(k) + s;
    if s == [] {
      ZerosAreZero(k);
      assert t == Zeros(k);
    } else {
      assert t[..|t| - 1] == Zeros(k) + s[..|s| - 1];
      LeadingZerosIgnored(k, s[..|s| - 1]);
    }
  }

  lemma {:induction false} ZerosAreZero(k: nat)
    ensures DecimalValue(Zeros(k)) == 0
  {
    if k > 0 {
      assert Zeros(k)[..k - 1] == Zeros(k - 1);
      ZerosAreZero(k - 1);
    }
  }

  /** Padding never changes the value the digits denote. */
  lemma ZeroPadRoundTrip(n: nat, width: nat)
    ensures DecimalValue(ZeroPad(n, width)) == n
  {
    var ds := Digits(n);
    DigitsRoundTrip(n);
    if |ds| < width {
      LeadingZerosIgnored(width - |ds|, ds);
    } else {
      assert ZeroPad(n, width) == ds;
    }
  }

  /** A number below 10^k has at most k digits. */
  lemma {:induction false} DigitsLength(n: nat, k: nat)
    requires 1 <= k && n < Pow10(k)
    ensures |Digits(n)| <= k
    decreases k
  {
    if n >= 10 {
      DigitsLength(n / 10, k - 1);
    }
  }

  /** The padded rendering is exactly `width` long while n has at most `width` digits. */
  lemma ZeroPadLength(n: nat, width: nat)
    requires 1 <= width && n < Pow10(width)
    ensures |ZeroPad(n, width)| == width
  {
    DigitsLength(n, width);
  }

  /**
   * The asset code of models.py:85: the year padded to four digits, the
   * month to two and the serial to four, joined by dashes.
   */
  function FormatCode(year: nat, month: nat, serial: nat): (code: string)
    ensures '-' in code
  {
    assert (ZeroPad(year, 4) + "-")[|ZeroPad(year, 4)|] == '-';
    ZeroPad(year, 4) + "-" + ZeroPad(month, 2) + "-" + ZeroPad(serial, 4)
  }

  /** In digits + "-" + rest, the first dash stands right after the digits. */
  lemma FirstDash(a: string, b: string)
    requires AllDigits(a)
    ensures (a + "-" + b)[|a|] == '-'
    ensures forall i :: 0 <= i < |a| ==> (a + "-" + b)[i] != '-'
  {
  }

  /** Two strings of digits joined by a dash can be split apart again at the first dash. */
  lemma SplitAtDash(a: string, b: string, c: string, d: string)
    requires AllDigits(a) && AllDigits(c)
    requires a + "-" + b == c + "-" + d
    ensures a == c && b == d
  {
    var s := a + "-" + b;
    assert |a| == |c| by {
      FirstDash(a, b);
      FirstDash(c, d);
    }
    assert a == s[..|a|] == c;
    assert b == s[|a| + 1..] == d;
  }

  /** Padding is injective for a fixed width. */
  lemma ZeroPadInjective(a: nat, b: nat, width: nat)
    requires ZeroPad(a, width) == ZeroPad(b, width)
    ensures a == b
  {
    ZeroPadRoundTrip(a, width);
    ZeroPadRoundTrip(b, width);
  }

  /** Distinct (year, month, serial) triples never render to the same code. */
  lemma FormatCodeInjective(y1: nat, m1: nat, s1: nat, y2: nat, m2: nat, s2: nat)
    requires FormatCode(y1, m1, s1) == FormatCode(y2, m2, s2)
    ensures y1 == y2 && m1 == m2 && s1 == s2
  {
    var rest1 := ZeroPad(m1, 2) + "-" + ZeroPad(s1, 4);
    var rest2 := ZeroPad(m2, 2) + "-" + ZeroPad(s2, 4);
    assert FormatCode(y1, m1, s1) == ZeroPad(y1, 4) + "-" + rest1;
    assert FormatCode(y2, m2, s2) == ZeroPad(y2, 4) + "-" + rest2;
    SplitAtDash(ZeroPad(y1, 4), rest1, ZeroPad(y2, 4), rest2);
    SplitAtDash(ZeroPad(m1, 2), ZeroPad(s1, 4), ZeroPad(m2, 2), ZeroPad(s2, 4));
    ZeroPadInjective(y1, y2, 4);
    ZeroPadInjective(m1, m2, 2);
    ZeroPadInjective(s1, s2, 4);
  }

  /** While year and serial fit in four digits the code is exactly twelve characters, dashes at 4 and 7. */
  lemma CodeLayout(year: nat, month: nat, serial: nat)
    requires year <= 9999 && 1 <= month <= 12 && serial <= 9999
    ensures var code := FormatCode(year, month, serial);
      |code| == 12 && code[4] == '-' && code[7] == '-'
      && forall i :: 0 <= i < 12 && i != 4 && i != 7 ==> IsDigit(code[i])
  {
    assert Pow10(2) == 100 && Pow10(4) == 10000 by {
      assert Pow10(1) == 10;
      assert Pow10(3) == 1000;
    }
    ZeroPadLength(year, 4);
    ZeroPadLength(month, 2);
    ZeroPadLength(serial, 4);
  }

  lemma PaddedYear()
    ensures ZeroPad(2024, 4) == "2024"
  {
    assert Digits(20) == "20";
    assert Digits(202) == "202";
    assert Digits(2024) == "2024";
  }

  lemma PaddedMonth()
    ensures ZeroPad(1, 2) == "01"
  {
    assert Digits(1) == "1";
    assert Zeros(1) == "0";
  }

  lemma FiveDigitSerial()
    ensures ZeroPad(10000, 4) == "10000"
  {
    assert Digits(10) == "10";
    assert Digits(100) == "100";
    assert Digits(1000) == "1000";
    assert Digits(10000) == "10000";
  }

  /** The serial is never truncated: a fifth digit appears at 10000. */
  lemma FifthDigit()
    ensures FormatCode(2024, 1, 10000) == "2024-01-10000"
  {
    PaddedYear();
    PaddedMonth();
    FiveDigitSerial();
  }
}
