/** Decimal digit strings as PHP and JavaScript print and read them: the
    `%d` conversion of `sprintf`, the `${postId}` template literal of the
    editor script, and `intval` applied to a string of digits. */
module Decimal {

  /** PHP_INT_MAX on the 64-bit builds the host application runs on. */
  const PhpIntMax: int := 0x7FFF_FFFF_FFFF_FFFF

  /** 2^1024 - 2^970: the least integer that a correctly rounded conversion to an
      IEEE double turns into infinity. */
  const DoubleOverflow: int :=
    0xFFFF_FFFF_FFFF_FC00_0000_0000_0000_0000_0000_0000_0000_0000_0000_0000_0000_0000_0000_0000_0000_0000_0000_0000_0000_0000_0000_0000_0000_0000_0000_0000_0000_0000_0000_0000_0000_0000_0000_0000_0000_0000_0000_0000_0000_0000_0000_0000_0000_0000_0000_0000_0000_0000_0000_0000_0000_0000_0000_0000_0000_0000_0000_0000_0000_0000

  predicate IsDigit(c: char) {
    '0' <= c <= '9'
  }

  predicate AllDigits(s: string) {
    forall i :: 0 <= i < |s| ==> IsDigit(s[i])
  }

  /** True when some digit of `s` is not '0'. */
  predicate HasNonZeroDigit(s: string) {
    exists i :: 0 <= i < |s| && s[i] != '0'
  }

  function DigitValue(c: char): (d: nat)
    requires IsDigit(c)
    ensures d < 10
  {
    (c as int) - ('0' as int)
  }

  function DigitChar(d: nat): (c: char)
    requires d < 10
    ensures IsDigit(c) && DigitValue(c) == d
  {
    (('0' as int) + d) as char
  }

  /** The number a string of decimal digits denotes; leading zeros are allowed. */
  function DigitsValue(s: string): nat
    requires AllDigits(s)
    decreases |s|
  {
    if |s| == 0 then 0 else 10 * DigitsValue(s[..|s| - 1]) + DigitValue(s[|s| - 1])
  }

  /** The shortest decimal representation of `n`. */
  function NatToString(n: nat): (s: string)
    ensures |s| > 0 && AllDigits(s)
    ensures n > 0 ==> s[0] != '0'
    decreases n
  {
    if n < 10 then [DigitChar(n)] else NatToString(n / 10) + [DigitChar(n % 10)]
  }

  /** `sprintf('%d', n)`: an optional minus sign followed by the digits of |n|. */
  function IntToString(n: int): (s: string)
    ensures |s| > 0
    ensures n < 0 <==> s[0] == '-'
    ensures AllDigits(s[1..])
  {
    if n < 0 then "-" + NatToString(-n) else NatToString(n)
  }

  /** `intval` of a digit string. A value that fits a PHP int is read exactly. A
      larger one is read as a double and capped: a finite double becomes
      PHP_INT_MAX, while a value that overflows the double range becomes infinity,
      which PHP turns into 0. So the result is positive exactly when some digit is
      not '0' and the value is below the double range. */
  function IntVal(s: string): (n: int)
    requires AllDigits(s)
    ensures 0 <= n <= PhpIntMax
    ensures n > 0 <==> HasNonZeroDigit(s) && DigitsValue(s) < DoubleOverflow
  {
    DigitsValuePositive(s);
    if DigitsValue(s) <= PhpIntMax then DigitsValue(s)
    else if DigitsValue(s) < DoubleOverflow then PhpIntMax
    else 0
  }

  /** A leading zero does not change a digit string's value. */
  lemma {:induction false} DigitsValueLeadingZero(s: string)
    requires AllDigits(s)
    ensures AllDigits("0" + s) && DigitsValue("0" + s) == DigitsValue(s)
    decreases |s|
  {
    if |s| > 0 {
      var p := s[..|s| - 1];
      DigitsValueLeadingZero(p);
      assert ("0" + s)[..|s|] == "0" + p;
    }
  }

  /** `intval` ignores leading zeros. */
  lemma IntValLeadingZero(s: string)
    requires AllDigits(s)
    ensures AllDigits("0" + s) && IntVal("0" + s) == IntVal(s)
  {
    DigitsValueLeadingZero(s);
  }

  /** `intval` reads back what `%d` prints, for every non-negative PHP int. */
  lemma IntValNatToString(n: nat)
    requires n <= PhpIntMax
    ensures IntVal(NatToString(n)) == n
  {
    NatToStringRoundTrip(n);
  }

  /** Reading back the printed digits gives the number that was printed. */
  lemma {:induction false} NatToStringRoundTrip(n: nat)
    ensures DigitsValue(NatToString(n)) == n
    decreases n
  {
    var s := NatToString(n);
    if n < 10 {
      assert s[..|s| - 1] == [];
    } else {
      NatToStringRoundTrip(n / 10);
      assert s[..|s| - 1] == NatToString(n / 10);
    }
  }

  lemma NatToStringInjective(a: nat, b: nat)
    ensures NatToString(a) == NatToString(b) ==> a == b
  {
    NatToStringRoundTrip(a);
    NatToStringRoundTrip(b);
  }

  /** Distinct integers print differently under `%d`. */
  lemma IntToStringInjective(a: int, b: int)
    ensures IntToString(a) == IntToString(b) ==> a == b
  {
    if IntToString(a) == IntToString(b) {
      if a < 0 {
        assert IntToString(a)[1..] == NatToString(-a);
        assert IntToString(b)[1..] == NatToString(-b);
        NatToStringInjective(-a, -b);
      } else {
        NatToStringInjective(a, b);
      }
    }
  }

  /** A digit string denotes a positive number exactly when one of its digits is not '0'. */
  lemma {:induction false} DigitsValuePositive(s: string)
    requires AllDigits(s)
    ensures DigitsValue(s) > 0 <==> HasNonZeroDigit(s)
    decreases |s|
  {
    if |s| > 0 {
      var p := s[..|s| - 1];
      DigitsValuePositive(p);
      if HasNonZeroDigit(p) {
        var i :| 0 <= i < |p| && p[i] != '0';
        assert s[i] != '0';
      }
      if HasNonZeroDigit(s) && s[|s| - 1] == '0' {
        var i :| 0 <= i < |s| && s[i] != '0';
        assert p[i] != '0';
      }
    }
  }
}
