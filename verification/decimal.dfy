/**
 * Decimal text for integers: Python's `str(k)` and the `int(k)` that reads
 * such text back. The index mapping file is a JSON object, whose keys are
 * strings, so every dense id crosses this conversion on save and load.
 */
module Decimal {
  import opened Maybe

  predicate IsDigit(c: char) {
    '0' <= c <= '9'
  }

  function DigitChar(d: nat): (c: char)
    requires d < 10
    ensures IsDigit(c) && c as int - '0' as int == d
  {
    ('0' as int + d) as char
  }

  function DigitValue(c: char): (d: nat)
    requires IsDigit(c)
    ensures d < 10 && DigitChar(d) == c
  {
    c as int - '0' as int
  }

  predicate AllDigits(s: string) {
    forall k :: 0 <= k < |s| ==> IsDigit(s[k])
  }

  /** A digit string as Python's `str` writes a natural number: no leading zero. */
  predicate CanonicalDigits(s: string) {
    |s| >= 1 && AllDigits(s) && (s[0] == '0' ==> |s| == 1)
  }

  /** `str(n)` for a natural number. */
  function NatToString(n: nat): (s: string)
    ensures CanonicalDigits(s)
    ensures s[0] == '0' <==> n == 0
    decreases n
  {
    if n < 10 then [DigitChar(n)] else NatToString(n / 10) + [DigitChar(n % 10)]
  }

  /** The number a digit string denotes, most significant digit first. */
  function DigitsValue(s: string): nat
    requires AllDigits(s)
  {
    if s == [] then 0 else DigitsValue(s[..|s| - 1]) * 10 + DigitValue(s[|s| - 1])
  }

  /** `str(i)` for any integer: a minus sign before the magnitude when negative. */
  function Show(i: int): (s: string)
    ensures |s| >= 1
    ensures i < 0 <==> s[0] == '-'
  {
    if i < 0 then "-" + NatToString(-i) else NatToString(i)
  }

  /**
   * `int(s)` on the strings `Show` produces: an optional minus sign and a
   * canonical digit string ("-0" is not one). Anything else is `None`.
   */
  function Parse(s: string): (r: Option<int>)
  {
    if |s| >= 1 && s[0] == '-' then
      if CanonicalDigits(s[1..]) && s[1..] != "0" then Some(-(DigitsValue(s[1..]) as int)) else None
    else if CanonicalDigits(s) then Some(DigitsValue(s) as int)
    else None
  }

  lemma {:induction false} NatRoundTrip(n: nat)
    ensures DigitsValue(NatToString(n)) == n
    decreases n
  {
    if n >= 10 {
      var s := NatToString(n);
      assert s[..|s| - 1] == NatToString(n / 10);
      NatRoundTrip(n / 10);
    }
  }

  lemma {:induction false} DigitsValuePositive(s: string)
    requires CanonicalDigits(s) && s[0] != '0'
    ensures DigitsValue(s) >= 1
    decreases |s|
  {
    if |s| > 1 {
      DigitsValuePositive(s[..|s| - 1]);
    }
  }

  lemma {:induction false} DigitsRoundTrip(s: string)
    requires CanonicalDigits(s)
    ensures NatToString(DigitsValue(s)) == s
    decreases |s|
  {
    if |s| > 1 {
      var p := s[..|s| - 1];
      DigitsValuePositive(p);
      DigitsRoundTrip(p);
      var v := DigitsValue(s);
      assert v / 10 == DigitsValue(p) && v % 10 == DigitValue(s[|s| - 1]);
      assert s == p + [s[|s| - 1]];
    }
  }

  /** Reading back what `Show` wrote gives the same integer. */
  lemma ParseShow(i: int)
    ensures Parse(Show(i)) == Some(i)
  {
    var s := Show(i);
    if i < 0 {
      var digits := NatToString(-i);
      assert s[1..] == digits;
      assert digits != "0" by {
        assert digits[0] != '0';
      }
      NatRoundTrip(-i);
    } else {
      assert s == NatToString(i) && IsDigit(s[0]);
      NatRoundTrip(i);
    }
  }

  /** Every string `Parse` accepts is the text `Show` writes for its value. */
  lemma ShowParse(s: string)
    requires Parse(s).Some?
    ensures Show(Parse(s).value) == s
  {
    if |s| >= 1 && s[0] == '-' {
      DigitsValuePositive(s[1..]);
      DigitsRoundTrip(s[1..]);
      assert s == "-" + s[1..];
    } else {
      DigitsRoundTrip(s);
    }
  }

  /** `Show` never writes the same text for two integers. */
  lemma ShowInjective(i: int, j: int)
    requires Show(i) == Show(j)
    ensures i == j
  {
    ParseShow(i);
    ParseShow(j);
  }
}
