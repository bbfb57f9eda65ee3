/** Decimal rendering of integers, as `fmt.Sprintf("%d", n)` produces it, and the matching parser
    that serves as its inverse. */
module Format {
  import opened Wrappers

  predicate IsDigit(c: char)
  {
    '0' <= c <= '9'
  }

  predicate AllDigits(s: string)
  {
    forall i :: 0 <= i < |s| ==> IsDigit(s[i])
  }

  function DigitChar(d: nat): (c: char)
    requires d < 10
    ensures IsDigit(c) && c as int - '0' as int == d
  {
    "0123456789"[d]
  }

  function DigitValue(c: char): nat
    requires IsDigit(c)
  {
    (c as int - '0' as int) as nat
  }

  /** Canonical decimal digits of a natural number: never empty, no leading zero except for 0 itself. */
  function NatToDecimal(n: nat): (r: string)
    ensures |r| > 0 && AllDigits(r)
    ensures r[0] == '0' ==> n == 0 && r == "0"
    decreases n
  {
    if n < 10 then [DigitChar(n)] else NatToDecimal(n / 10) + [DigitChar(n % 10)]
  }

  /** `fmt.Sprintf("%d", n)`: a minus sign for negative numbers, then the digits of the magnitude. */
  function FormatInt(n: int): (r: string)
    ensures |r| > 0
    ensures n < 0 <==> r[0] == '-'
    ensures var digits := if n < 0 then r[1..] else r;
            |digits| > 0 && AllDigits(digits) && (digits[0] == '0' ==> digits == "0")
  {
    if n < 0 then "-" + NatToDecimal(-n) else NatToDecimal(n)
  }

  /** The number a string of digits denotes, most significant digit first. */
  function DigitsValue(s: string): nat
    requires AllDigits(s)
  {
    if |s| == 0 then 0 else DigitsValue(s[..|s| - 1]) * 10 + DigitValue(s[|s| - 1])
  }

  /** Reads an optionally signed, non-empty run of decimal digits. */
  function ParseInt(s: string): Option<int>
  {
    if |s| > 0 && s[0] == '-' then
      if |s| > 1 && AllDigits(s[1..]) then var v: int := DigitsValue(s[1..]); Some(-v) else None
    else if |s| > 0 && AllDigits(s) then Some(DigitsValue(s))
    else None
  }

  lemma {:induction false} NatToDecimalValue(n: nat)
    ensures DigitsValue(NatToDecimal(n)) == n
    decreases n
  {
    if n >= 10 {
      NatToDecimalValue(n / 10);
      var r := NatToDecimal(n);
      assert r[..|r| - 1] == NatToDecimal(n / 10);
    }
  }

  /** A minus sign followed by the digits of a positive number reads back as its negation. */
  lemma ParseNegative(n: int)
    requires n < 0
    ensures ParseInt("-" + NatToDecimal(-n)) == Some(n)
  {
    var digits := NatToDecimal(-n);
    var r := "-" + digits;
    assert r[1..] == digits;
    NatToDecimalValue(-n);
    assert DigitsValue(r[1..]) == -n;
  }

  /** The digits of a natural number read back as that number. */
  lemma ParseNonNegative(m: nat)
    ensures ParseInt(NatToDecimal(m)) == Some(m)
  {
    var digits := NatToDecimal(m);
    assert digits[0] != '-' by { assert IsDigit(digits[0]); }
    NatToDecimalValue(m);
  }

  /** Reading the rendering back yields the original number. */
  lemma FormatIntRoundTrip(n: int)
    ensures ParseInt(FormatInt(n)) == Some(n)
  {
    if n < 0 {
      assert FormatInt(n) == "-" + NatToDecimal(-n);
      ParseNegative(n);
    } else {
      assert FormatInt(n) == NatToDecimal(n);
      ParseNonNegative(n);
    }
  }

  /** Distinct numbers render differently. */
  lemma FormatIntInjective(a: int, b: int)
    ensures FormatInt(a) == FormatInt(b) ==> a == b
  {
    FormatIntRoundTrip(a);
    FormatIntRoundTrip(b);
  }
}
