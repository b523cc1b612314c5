/**
 * The decimal rendering that `format!("{}", id)` applies to an `i32`:
 * an optional '-' followed by the digits of the magnitude, with no leading
 * zeros. DecimalValue and ParseInt read such text back, so that the
 * rendering is shown to lose nothing.
 */
module Decimal {
  import opened Wrappers

  predicate IsDigit(c: char) {
    '0' <= c <= '9'
  }

  predicate AllDigits(s: string) {
    forall i :: 0 <= i < |s| ==> IsDigit(s[i])
  }

  function DigitChar(d: nat): (c: char)
    requires d < 10
    ensures IsDigit(c) && (c as int) - ('0' as int) == d
  {
    (('0' as int) + d) as char
  }

  /** The decimal digits of `n`, most significant first. */
  function NatToDecimal(n: nat): (s: string)
    ensures |s| >= 1 && AllDigits(s)
    ensures s[0] == '0' ==> n == 0 && |s| == 1
    decreases n
  {
    if n < 10 then [DigitChar(n)] else NatToDecimal(n / 10) + [DigitChar(n % 10)]
  }

  /** What `{}` prints for an integer: a leading '-' exactly for negative values. */
  function IntToDecimal(i: int): (s: string)
    ensures |s| >= 1
    ensures (s[0] == '-') <==> i < 0
    ensures i >= 0 ==> AllDigits(s)
    ensures i < 0 ==> AllDigits(s[1..])
  {
    if i < 0 then "-" + NatToDecimal(-i) else NatToDecimal(i)
  }

  /** The number a string of decimal digits denotes. */
  function DecimalValue(s: string): nat
    requires AllDigits(s)
    decreases |s|
  {
    if s == [] then 0
    else DecimalValue(s[..|s| - 1]) * 10 + ((s[|s| - 1] as int) - ('0' as int))
  }

  /** Digits as `{}` prints a magnitude: at least one, and no leading zero unless the number is 0. */
  predicate IsCanonical(s: string) {
    |s| >= 1 && AllDigits(s) && (s[0] != '0' || |s| == 1)
  }

  /**
   * Reads back an integer as `{}` prints it; `None` for any other text,
   * including leading zeros ("0999") and a negative zero ("-0").
   */
  function ParseInt(s: string): Option<int> {
    if |s| >= 2 && s[0] == '-' && IsCanonical(s[1..]) && s[1] != '0' then Some(-(DecimalValue(s[1..]) as int))
    else if IsCanonical(s) then Some(DecimalValue(s))
    else None
  }

  lemma {:induction false} NatToDecimalRoundTrip(n: nat)
    ensures DecimalValue(NatToDecimal(n)) == n
    decreases n
  {
    if n >= 10 {
      NatToDecimalRoundTrip(n / 10);
      var s := NatToDecimal(n);
      assert s[..|s| - 1] == NatToDecimal(n / 10);
    }
  }

  /** Digits that do not start with '0' denote a positive number. */
  lemma {:induction false} DecimalValuePositive(s: string)
    requires |s| >= 1 && AllDigits(s) && s[0] != '0'
    ensures DecimalValue(s) >= 1
    decreases |s|
  {
    if |s| > 1 {
      DecimalValuePositive(s[..|s| - 1]);
    }
  }

  /** Canonical digits are the printing of the number they denote. */
  lemma {:induction false} CanonicalIsNatToDecimal(s: string)
    requires IsCanonical(s)
    ensures NatToDecimal(DecimalValue(s)) == s
    decreases |s|
  {
    var v := DecimalValue(s);
    if |s| > 1 {
      var t := s[..|s| - 1];
      assert IsCanonical(t);
      DecimalValuePositive(t);
      CanonicalIsNatToDecimal(t);
      assert v / 10 == DecimalValue(t) && v % 10 == (s[|s| - 1] as int) - ('0' as int);
      assert s == t + [s[|s| - 1]];
    }
  }

  /** Whatever ParseInt accepts is exactly the printing of the integer it returns. */
  lemma ParseIntIsCanonical(s: string, i: int)
    requires ParseInt(s) == Some(i)
    ensures s == IntToDecimal(i)
  {
    if |s| >= 2 && s[0] == '-' && IsCanonical(s[1..]) && s[1] != '0' {
      DecimalValuePositive(s[1..]);
      CanonicalIsNatToDecimal(s[1..]);
      assert s == "-" + s[1..];
    } else {
      CanonicalIsNatToDecimal(s);
    }
  }

  /** Printing an integer and reading it back gives the same integer. */
  lemma IntToDecimalRoundTrip(i: int)
    ensures ParseInt(IntToDecimal(i)) == Some(i)
  {
    var s := IntToDecimal(i);
    if i < 0 {
      assert s[1..] == NatToDecimal(-i);
      NatToDecimalRoundTrip(-i);
    } else {
      NatToDecimalRoundTrip(i);
    }
  }

  /** Distinct integers print differently. */
  lemma IntToDecimalInjective(a: int, b: int)
    requires IntToDecimal(a) == IntToDecimal(b)
    ensures a == b
  {
    IntToDecimalRoundTrip(a);
    IntToDecimalRoundTrip(b);
  }
}
