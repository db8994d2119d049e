/**
 Decimal digits and numerals over ASCII characters: the character-to-digit
 step the validator performs with `int.Parse(c.ToString())` and the
 number-to-text step it performs with `resto.ToString()`.
 Only the ASCII digits '0'..'9' count as digits here.
 */
module Decimal {

  /** An ASCII decimal digit character: one of the ten characters '0'..'9'. */
  predicate IsDigit(c: char)
    ensures IsDigit(c) <==> c in {'0', '1', '2', '3', '4', '5', '6', '7', '8', '9'}
  {
    '0' <= c <= '9'
  }

  /** Every character of `s` is an ASCII decimal digit. */
  predicate AllDigits(s: seq<char>) {
    forall i :: 0 <= i < |s| ==> IsDigit(s[i])
  }

  /** The numeric value of a digit character. */
  function DigitValue(c: char): (d: nat)
    requires IsDigit(c)
    ensures d < 10
  {
    c as int - '0' as int
  }

  /** The digit character that stands for `d`. */
  function DigitChar(d: nat): (c: char)
    requires d < 10
    ensures IsDigit(c)
  {
    ('0' as int + d) as char
  }

  /** Reading back the character written for a digit gives the digit. */
  lemma DigitValueOfChar(d: nat)
    requires d < 10
    ensures DigitValue(DigitChar(d)) == d
  {
  }

  /** Writing the value of a digit character gives the character back. */
  lemma DigitCharOfValue(c: char)
    requires IsDigit(c)
    ensures DigitChar(DigitValue(c)) == c
  {
  }

  function Pow10(k: nat): (p: nat)
    ensures p >= 1
  {
    if k == 0 then 1 else 10 * Pow10(k - 1)
  }

  /**
   The decimal rendering of a non-negative integer, most significant digit
   first, without leading zeros (what `ToString()` gives for a non-negative
   `int`). It is a single character exactly for the numbers below ten.
   */
  function ToDecimalString(n: nat): (s: seq<char>)
    ensures |s| >= 1 && AllDigits(s)
    ensures |s| == 1 <==> n < 10
    ensures |s| > 1 ==> s[0] != '0'
    decreases n
  {
    if n < 10 then [DigitChar(n)] else ToDecimalString(n / 10) + [DigitChar(n % 10)]
  }

  /**
   The value of a non-empty string of decimal digits (what `int.Parse`
   gives for such a string, ignoring the range of `int`); it has fewer
   than |s| + 1 decimal places.
   */
  function ParseDecimal(s: seq<char>): (n: nat)
    requires |s| >= 1 && AllDigits(s)
    ensures n < Pow10(|s|)
  {
    if |s| == 1 then DigitValue(s[0])
    else ParseDecimal(s[..|s| - 1]) * 10 + DigitValue(s[|s| - 1])
  }

  /** Parsing a one-character string yields the value of that digit. */
  lemma ParseSingleDigit(c: char)
    requires IsDigit(c)
    ensures ParseDecimal([c]) == DigitValue(c)
  {
  }

  /** Parsing the rendering of a number gives the number back. */
  lemma {:induction false} ParseToDecimalString(n: nat)
    ensures ParseDecimal(ToDecimalString(n)) == n
    decreases n
  {
    if n >= 10 {
      var s := ToDecimalString(n);
      assert s[..|s| - 1] == ToDecimalString(n / 10);
      ParseToDecimalString(n / 10);
      DigitValueOfChar(n % 10);
    } else {
      DigitValueOfChar(n);
    }
  }

  /** Rendering the value of a digit string without leading zeros gives the string back. */
  lemma {:induction false} ToDecimalStringOfParse(s: seq<char>)
    requires |s| >= 1 && AllDigits(s)
    requires |s| > 1 ==> s[0] != '0'
    ensures ToDecimalString(ParseDecimal(s)) == s
    decreases |s|
  {
    if |s| == 1 {
      DigitCharOfValue(s[0]);
    } else {
      var prefix := s[..|s| - 1];
      var n := ParseDecimal(s);
      ToDecimalStringOfParse(prefix);
      NoLeadingZeroValue(prefix);
      assert n / 10 == ParseDecimal(prefix);
      assert n % 10 == DigitValue(s[|s| - 1]);
      DigitCharOfValue(s[|s| - 1]);
      assert s == prefix + [s[|s| - 1]];
    }
  }

  /** A digit string longer than one character and without a leading zero is worth at least 10; a single digit less. */
  lemma {:induction false} NoLeadingZeroValue(s: seq<char>)
    requires |s| >= 1 && AllDigits(s)
    requires |s| > 1 ==> s[0] != '0'
    ensures |s| > 1 ==> ParseDecimal(s) >= 10
    ensures |s| == 1 ==> ParseDecimal(s) < 10
    decreases |s|
  {
    if |s| > 2 {
      NoLeadingZeroValue(s[..|s| - 1]);
    } else if |s| == 2 {
      assert s[..1] == [s[0]];
    }
  }
}
