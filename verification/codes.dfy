/** The one-time code: an integer drawn from [100000, 999999] and stored as
    its decimal text. This module defines that text and proves that it is
    always six digits without a leading zero, and that the text determines
    the number (so two different codes never compare equal as strings). */
module Codes {

  /** The range `Math.floor(100000 + Math.random() * 900000)` can produce. */
  type CodeValue = n: int | 100000 <= n <= 999999 witness 100000

  predicate IsDigit(c: char) {
    '0' <= c <= '9'
  }

  function DigitChar(d: nat): (c: char)
    requires d < 10
    ensures IsDigit(c)
  {
    ('0' as int + d) as char
  }

  function DigitValue(c: char): (d: nat)
    requires IsDigit(c)
    ensures d < 10
  {
    c as int - '0' as int
  }

  predicate AllDigits(s: string) {
    forall i :: 0 <= i < |s| ==> IsDigit(s[i])
  }

  function Pow10(k: nat): (p: nat)
    ensures p >= 1
  {
    if k == 0 then 1 else 10 * Pow10(k - 1)
  }

  /** Decimal text of a non-negative integer, as JavaScript's `toString`
      writes it: no sign, no leading zero. */
  function Decimal(n: nat): (s: string)
    ensures |s| >= 1
    ensures AllDigits(s)
    decreases n
  {
    if n < 10 then [DigitChar(n)] else Decimal(n / 10) + [DigitChar(n % 10)]
  }

  /** Reads a string of decimal digits back into the number it denotes. */
  function ParseDecimal(s: string): (n: nat)
    requires AllDigits(s)
    ensures n < Pow10(|s|)
  {
    if |s| == 0 then 0
    else ParseDecimal(s[..|s| - 1]) * 10 + DigitValue(s[|s| - 1])
  }

  /** What a stored code looks like: six digits, the first not zero. */
  predicate SixDigitCode(s: string) {
    |s| == 6 && AllDigits(s) && s[0] != '0'
  }

  /** The stored form of a generated code. */
  function CodeText(n: CodeValue): (s: string)
    ensures SixDigitCode(s)
  {
    DecimalLength(n, 5);
    DecimalLeading(n);
    Decimal(n)
  }

  lemma {:induction false} DecimalLength(n: nat, k: nat)
    requires Pow10(k) <= n < Pow10(k + 1)
    ensures |Decimal(n)| == k + 1
    decreases k
  {
    if k > 0 {
      DecimalLength(n / 10, k - 1);
    }
  }

  lemma {:induction false} DecimalLeading(n: nat)
    requires n >= 1
    ensures Decimal(n)[0] != '0'
    decreases n
  {
    if n >= 10 {
      DecimalLeading(n / 10);
    }
  }

  /** Parsing undoes rendering. */
  lemma {:induction false} ParseDecimalInvertsDecimal(n: nat)
    ensures ParseDecimal(Decimal(n)) == n
    decreases n
  {
    if n >= 10 {
      var s := Decimal(n);
      assert s[..|s| - 1] == Decimal(n / 10);
      ParseDecimalInvertsDecimal(n / 10);
    }
  }

  /** A digit string without a leading zero denotes at least 10^(length-1). */
  lemma {:induction false} ParseDecimalLowerBound(s: string)
    requires AllDigits(s) && |s| >= 1 && s[0] != '0'
    ensures ParseDecimal(s) >= Pow10(|s| - 1)
    decreases |s|
  {
    if |s| > 1 {
      var p := s[..|s| - 1];
      assert p[0] == s[0];
      ParseDecimalLowerBound(p);
    }
  }

  /** Rendering undoes parsing, for digit strings without a leading zero. */
  lemma {:induction false} DecimalInvertsParseDecimal(s: string)
    requires AllDigits(s) && |s| >= 1 && s[0] != '0'
    ensures Decimal(ParseDecimal(s)) == s
    decreases |s|
  {
    var n := ParseDecimal(s);
    if |s| == 1 {
      assert n == DigitValue(s[0]);
      assert Decimal(n) == [DigitChar(n)];
    } else {
      var p := s[..|s| - 1];
      assert p[0] == s[0];
      ParseDecimalLowerBound(p);
      DecimalInvertsParseDecimal(p);
      var d := DigitValue(s[|s| - 1]);
      assert n == ParseDecimal(p) * 10 + d;
      assert n / 10 == ParseDecimal(p) && n % 10 == d;
      assert s == p + [s[|s| - 1]];
    }
  }

  /** Different codes have different texts, so a submitted string can
      match at most one issued code. */
  lemma CodeTextInjective(m: CodeValue, n: CodeValue)
    ensures CodeText(m) == CodeText(n) <==> m == n
  {
    ParseDecimalInvertsDecimal(m);
    ParseDecimalInvertsDecimal(n);
  }

  /** Every six-digit code text is the text of exactly the code it denotes. */
  lemma SixDigitCodeIsCodeText(s: string)
    requires SixDigitCode(s)
    ensures 100000 <= ParseDecimal(s) <= 999999
    ensures CodeText(ParseDecimal(s)) == s
  {
    ParseDecimalLowerBound(s);
    assert Pow10(5) == 100000 && Pow10(6) == 1000000;
    DecimalInvertsParseDecimal(s);
  }
}
