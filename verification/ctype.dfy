/** The string-to-integer conversions that `Arr::slice` relies on: PHP's
    `ctype_digit`, the `(string)` cast of an integer, and the integer value a
    decimal digit string is coerced to when it is passed as an `int` argument. */
module CType {

  predicate IsDigit(c: char) {
    '0' <= c <= '9'
  }

  /** Every character is a decimal digit (the empty string qualifies). */
  predicate AllDigits(s: string) {
    forall i :: 0 <= i < |s| ==> IsDigit(s[i])
  }

  /** `ctype_digit($s)` for a string argument: true exactly when the string is
      non-empty and made only of the characters '0'..'9'. */
  predicate IsDigitString(s: string)
    ensures IsDigitString(s) <==> |s| > 0 && forall i :: 0 <= i < |s| ==> s[i] in "0123456789"
    ensures IsDigitString(s) ==> '-' !in s && '.' !in s && ' ' !in s
  {
    |s| > 0 && AllDigits(s)
  }

  function DigitValue(c: char): (d: nat)
    requires IsDigit(c)
    ensures d < 10
  {
    (c as int) - ('0' as int)
  }

  function DigitChar(d: nat): (c: char)
    requires d < 10
    ensures IsDigit(c) && DigitValue(c) == d
  {
    (('0' as int) + d) as char
  }

  /** The natural number a string of decimal digits denotes; leading zeros are
      allowed ("007" denotes 7), as in PHP's numeric-string coercion. */
  function DigitsValue(s: string): nat
    requires AllDigits(s)
    decreases |s|
  {
    if s == [] then 0 else DigitsValue(s[..|s| - 1]) * 10 + DigitValue(s[|s| - 1])
  }

  /** PHP's `(string)` cast of a non-negative integer: its shortest decimal form. */
  function NatToString(n: nat): (s: string)
    ensures IsDigitString(s)
    ensures DigitsValue(s) == n
    ensures s[0] == '0' ==> s == "0"
  {
    if n < 10 then [DigitChar(n)]
    else
      var p := NatToString(n / 10);
      var s := p + [DigitChar(n % 10)];
      assert s[..|s| - 1] == p;
      s
  }

  /** PHP's `(string)` cast of any integer: a minus sign before the magnitude of
      a negative number. */
  function IntToString(i: int): (s: string)
    ensures |s| > 0
    ensures i < 0 <==> s[0] == '-'
    ensures i >= 0 ==> IsDigitString(s) && DigitsValue(s) == i
    ensures i < 0 ==> IsDigitString(s[1..]) && DigitsValue(s[1..]) == -i
    ensures i >= 0 && s[0] == '0' ==> s == "0"
    ensures i < 0 ==> s[1] != '0'
  {
    if i < 0 then "-" + NatToString(-i) else NatToString(i)
  }

  /** `ctype_digit((string)$i)` accepts an integer exactly when it is not negative,
      and the accepted string denotes the integer itself. */
  lemma IntStringIsDigitsIffNonNegative(i: int)
    ensures IsDigitString(IntToString(i)) <==> i >= 0
    ensures i >= 0 ==> DigitsValue(IntToString(i)) == i
  {
  }

  /** A digit string whose first digit is not zero (or the string "0") is the
      string form of the number it denotes: parsing and printing are inverse. */
  lemma {:induction false} CanonicalDigitsRoundTrip(s: string)
    requires IsDigitString(s)
    requires s[0] != '0' || s == "0"
    ensures NatToString(DigitsValue(s)) == s
    decreases |s|
  {
    if |s| == 1 {
      assert DigitsValue(s) == DigitValue(s[0]) by {
        assert s[..0] == [];
      }
      assert [DigitChar(DigitValue(s[0]))] == s;
    } else {
      var p := s[..|s| - 1];
      assert p[0] == s[0];
      LeadingDigitBound(p);
      CanonicalDigitsRoundTrip(p);
      var n := DigitsValue(s);
      var d := DigitValue(s[|s| - 1]);
      assert n == DigitsValue(p) * 10 + d;
      assert n / 10 == DigitsValue(p) && n % 10 == d;
      assert DigitChar(d) == s[|s| - 1];
      assert p + [s[|s| - 1]] == s;
    }
  }

  /** A digit string with a non-zero first digit denotes a number of at least one. */
  lemma {:induction false} LeadingDigitBound(s: string)
    requires IsDigitString(s)
    requires s[0] != '0'
    ensures DigitsValue(s) >= 1
    decreases |s|
  {
    if |s| > 1 {
      var p := s[..|s| - 1];
      assert p[0] == s[0];
      LeadingDigitBound(p);
    } else {
      assert s[..0] == [];
    }
  }
}
