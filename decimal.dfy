/**
  Decimal text of non-negative integers: what BigInt's `toString()` produces,
  and the exact value that `BigInt(s)` reads from a string made only of the
  ASCII digits 0 to 9. `Number(s)` is that value rounded to a double; the
  model uses it only in `IsSafeIntegerText`.
 */
module Decimal {

  predicate IsDigit(c: char)
  {
    '0' <= c <= '9'
  }

  /** Every character is an ASCII decimal digit (the empty string included). */
  predicate IsDecimal(s: string)
  {
    forall i :: 0 <= i < |s| ==> IsDigit(s[i])
  }

  /** The text `toString()` produces: at least one digit, and no leading zero unless it is "0". */
  predicate IsCanonical(s: string)
  {
    IsDecimal(s) && |s| >= 1 && (s[0] == '0' ==> |s| == 1)
  }

  function DigitValue(c: char): (d: nat)
    requires IsDigit(c)
    ensures d < 10
  {
    c as int - '0' as int
  }

  function DigitChar(d: nat): (c: char)
    requires d < 10
    ensures IsDigit(c) && DigitValue(c) == d
  {
    ('0' as int + d) as char
  }

  /**
    The integer a digit string denotes, most significant digit first; leading
    zeros do not count and the empty string denotes 0, as for `Number("")`.
   */
  function Value(s: string): nat
    requires IsDecimal(s)
  {
    if s == [] then 0 else Value(s[..|s| - 1]) * 10 + DigitValue(s[|s| - 1])
  }

  /** BigInt's `toString()` for a non-negative value. */
  function ToString(n: nat): (s: string)
    ensures IsCanonical(s)
  {
    if n < 10 then [DigitChar(n)] else ToString(n / 10) + [DigitChar(n % 10)]
  }

  /** Reading back the text of n gives n. */
  lemma {:induction false} ValueOfToString(n: nat)
    ensures Value(ToString(n)) == n
  {
    if n >= 10 {
      var s := ToString(n);
      assert s[..|s| - 1] == ToString(n / 10);
      ValueOfToString(n / 10);
    }
  }

  /** A digit string that does not start with 0 denotes a positive number. */
  lemma {:induction false} LeadingDigitPositive(s: string)
    requires IsDecimal(s) && |s| >= 1 && s[0] != '0'
    ensures Value(s) >= 1
  {
    if |s| > 1 {
      LeadingDigitPositive(s[..|s| - 1]);
    }
  }

  /** The other direction: the text of the value of a canonical digit string is that string. */
  lemma {:induction false} ToStringOfValue(s: string)
    requires IsCanonical(s)
    ensures ToString(Value(s)) == s
  {
    var last := s[|s| - 1];
    var d := DigitValue(last);
    assert DigitChar(d) == last;
    if |s| > 1 {
      var init := s[..|s| - 1];
      assert IsCanonical(init);
      LeadingDigitPositive(init);
      var n := Value(s);
      assert n == Value(init) * 10 + d;
      assert n / 10 == Value(init) && n % 10 == d;
      ToStringOfValue(init);
      assert s == init + [last];
    }
  }
}
