/** Decimal printing of integers, as Python's str() and f-strings do it. */
module Decimal {

  predicate IsDigit(c: char) {
    '0' <= c <= '9'
  }

  function DigitChar(d: nat): (c: char)
    requires d < 10
    ensures IsDigit(c)
  {
    ('0' as int + d) as char
  }

  function Digits(n: nat): string {
    if n < 10 then [DigitChar(n)] else Digits(n / 10) + [DigitChar(n % 10)]
  }

  function PrintInt(n: int): string {
    if n < 0 then "-" + Digits(-n) else Digits(n)
  }

  /** The number a digit string spells. */
  function Value(s: string): int {
    if |s| == 0 then 0 else 10 * Value(s[..|s| - 1]) + (s[|s| - 1] as int - '0' as int)
  }

  lemma {:induction false} DigitsAreDigits(n: nat)
    ensures |Digits(n)| > 0
    ensures forall i :: 0 <= i < |Digits(n)| ==> IsDigit(Digits(n)[i])
  {
    if n >= 10 {
      DigitsAreDigits(n / 10);
    }
  }

  lemma {:induction false} ValueOfDigits(n: nat)
    ensures Value(Digits(n)) == n
  {
    if n < 10 {
      assert [DigitChar(n)][..0] == [];
    } else {
      ValueOfDigits(n / 10);
      var s := Digits(n / 10) + [DigitChar(n % 10)];
      assert s[..|s| - 1] == Digits(n / 10);
    }
  }

  lemma DigitsInjective(m: nat, n: nat)
    requires Digits(m) == Digits(n)
    ensures m == n
  {
    ValueOfDigits(m);
    ValueOfDigits(n);
  }

  lemma PrintIntInjective(m: int, n: int)
    requires PrintInt(m) == PrintInt(n)
    ensures m == n
  {
    PrintIntShape(m);
    PrintIntShape(n);
    if m < 0 {
      assert PrintInt(m)[1..] == Digits(-m) && PrintInt(n)[1..] == Digits(-n);
      DigitsInjective(-m, -n);
    } else {
      DigitsInjective(m, n);
    }
  }

  /** A printed integer is a nonempty string of digits, with a minus sign in front exactly when negative. */
  lemma PrintIntShape(n: int)
    ensures |PrintInt(n)| > 0
    ensures n < 0 <==> PrintInt(n)[0] == '-'
    ensures forall c :: c in PrintInt(n) ==> IsDigit(c) || c == '-'
  {
    DigitsAreDigits(if n < 0 then -n else n);
  }

  /** A decimal numeral without superfluous zeros. */
  predicate IsNumeral(s: string) {
    && |s| > 0
    && (forall i :: 0 <= i < |s| ==> IsDigit(s[i]))
    && (|s| > 1 ==> s[0] != '0')
  }

  lemma {:induction false} DigitsAreNumerals(n: nat)
    ensures IsNumeral(Digits(n))
    ensures n > 0 ==> Digits(n)[0] != '0'
  {
    if n >= 10 {
      DigitsAreNumerals(n / 10);
    }
  }

  lemma OneDigit(d: nat)
    requires d < 10
    ensures Digits(d) == [DigitChar(d)]
  {
  }

  lemma DigitsSnoc(n: nat, d: nat)
    requires n > 0 && d < 10
    ensures Digits(10 * n + d) == Digits(n) + [DigitChar(d)]
  {
    assert (10 * n + d) / 10 == n && (10 * n + d) % 10 == d;
  }

  /** Every numeral is the printed form of the number it spells. */
  lemma {:induction false} NumeralsAreDigits(s: string)
    requires IsNumeral(s)
    ensures Value(s) >= 0 && Digits(Value(s)) == s
    ensures s[0] != '0' ==> Value(s) > 0
  {
    hide Digits;
    var front, last := s[..|s| - 1], s[|s| - 1] as int - '0' as int;
    assert s == front + [s[|s| - 1]] && DigitChar(last) == s[|s| - 1];
    if |s| == 1 {
      OneDigit(last);
    } else {
      NumeralsAreDigits(front);
      DigitsSnoc(Value(front), last);
    }
  }
}
