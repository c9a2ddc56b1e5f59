/**
 Decimal numerals, as strconv.Itoa writes them: they consist of digits only, and
 different numbers have different numerals.
 */
module Numerals {
  function Digit(n: nat): char
    requires n < 10
  {
    "0123456789"[n]
  }

  /** The decimal numeral of a salt. */
  function Numeral(n: nat): string {
    if n < 10 then [Digit(n)] else Numeral(n / 10) + [Digit(n % 10)]
  }

  function DigitValue(c: char): nat {
    if '0' <= c <= '9' then (c - '0') as nat else 0
  }

  function Value(s: string): nat {
    if s == "" then 0 else 10 * Value(s[..|s| - 1]) + DigitValue(s[|s| - 1])
  }

  lemma DigitRead(n: nat)
    requires n < 10
    ensures DigitValue(Digit(n)) == n
  {
  }

  lemma ValueAppend(s: string, c: char)
    ensures Value(s + [c]) == 10 * Value(s) + DigitValue(c)
  {
    assert (s + [c])[..|s|] == s;
  }

  lemma {:induction false} NumeralValue(n: nat)
    ensures Value(Numeral(n)) == n
  {
    hide Digit, DigitValue, Value;
    DigitRead(n % 10);
    if n < 10 {
      EmptyValue();
      ValueAppend("", Digit(n));
      assert "" + [Digit(n)] == [Digit(n)];
    } else {
      NumeralValue(n / 10);
      ValueAppend(Numeral(n / 10), Digit(n % 10));
    }
  }

  lemma EmptyValue()
    ensures Value("") == 0
  {
  }

  lemma {:induction false} DigitsOnly(n: nat)
    ensures Numeral(n) != "" && forall k :: 0 <= k < |Numeral(n)| ==> '0' <= Numeral(n)[k] <= '9'
  {
    if n < 10 {
    } else {
      DigitsOnly(n / 10);
    }
  }

  lemma NumeralInjective(a: nat, b: nat)
    requires Numeral(a) == Numeral(b)
    ensures a == b
  {
    NumeralValue(a);
    NumeralValue(b);
  }
}
