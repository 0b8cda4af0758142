/**
 * Decimal text of non-negative integers: what a JavaScript template literal
 * such as `${n}` produces for an integral number, and its inverse.
 */
module Decimal {
  import opened Wrappers

  predicate IsDigit(c: char) {
    '0' <= c <= '9'
  }

  predicate AllDigits(s: string) {
    forall i :: 0 <= i < |s| ==> IsDigit(s[i])
  }

  function DigitChar(d: nat): (c: char)
    requires d < 10
    ensures IsDigit(c)
  {
    (48 + d) as char
  }

  function DigitValue(c: char): (d: nat)
    requires IsDigit(c)
    ensures d < 10
  {
    c as int - 48
  }

  /** The decimal representation of n, without sign, separators or leading zeros. */
  function Digits(n: nat): (s: string)
    ensures s != [] && AllDigits(s)
    ensures n < 10 <==> |s| == 1
    ensures s[0] == '0' ==> n == 0
    decreases n
  {
    if n < 10 then [DigitChar(n)] else Digits(n / 10) + [DigitChar(n % 10)]
  }

  /** Reads a string of decimal digits back as a number; None unless every character is a digit. */
  function ParseDigits(s: string): (r: Option<nat>)
    ensures r.Some? <==> s != [] && AllDigits(s)
    decreases |s|
  {
    if s == [] || !IsDigit(s[|s| - 1]) then None
    else if |s| == 1 then Some(DigitValue(s[0]))
    else
      match ParseDigits(s[..|s| - 1])
      case None => None
      case Some(p) => Some(10 * p + DigitValue(s[|s| - 1]))
  }

  /** Reading back the decimal text of n gives n. */
  lemma {:induction false} ParseDigitsOfDigits(n: nat)
    ensures ParseDigits(Digits(n)) == Some(n)
    decreases n
  {
    if n >= 10 {
      var s := Digits(n);
      assert s[..|s| - 1] == Digits(n / 10);
      ParseDigitsOfDigits(n / 10);
    }
  }

  /** A digit string without a leading zero (or "0" itself) is the decimal text of the number it reads as. */
  lemma {:induction false} CanonicalDigits(s: string, n: nat)
    requires ParseDigits(s) == Some(n)
    requires s[0] != '0' || s == "0"
    ensures s == Digits(n)
    decreases |s|
  {
    var last := s[|s| - 1];
    if |s| == 1 {
      assert DigitChar(DigitValue(last)) == last;
    } else {
      var prefix := s[..|s| - 1];
      var p := ParseDigits(prefix).value;
      assert prefix[0] == s[0];
      CanonicalDigits(prefix, p);
      assert p != 0;
      assert n / 10 == p && n % 10 == DigitValue(last);
      assert DigitChar(DigitValue(last)) == last;
      assert s == prefix + [last];
    }
  }
}
