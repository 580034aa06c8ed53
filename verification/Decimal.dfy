/** Decimal numerals without leading zeros, and their values. */
module Decimal {

  predicate IsDigit(c: char) { '0' <= c <= '9' }

  predicate AllDigits(s: string) { forall i :: 0 <= i < |s| ==> IsDigit(s[i]) }

  /** The language 0|[1-9][0-9]*. */
  predicate Numeral(s: string) {
    s != "" && AllDigits(s) && (s[0] == '0' ==> s == "0")
  }

  function DigitValue(c: char): nat
    requires IsDigit(c)
  {
    c as int - '0' as int
  }

  function Digit(d: nat): char
    requires d < 10
  {
    (d + '0' as int) as char
  }

  /** The number a digit string denotes; leading zeros are allowed. */
  function Value(s: string): nat
    requires AllDigits(s)
  {
    if s == "" then 0 else 10 * Value(s[..|s| - 1]) + DigitValue(s[|s| - 1])
  }

  function Print(n: nat): string {
    if n < 10 then [Digit(n)] else Print(n / 10) + [Digit(n % 10)]
  }

  function Pow10(k: nat): nat {
    if k == 0 then 1 else 10 * Pow10(k - 1)
  }

  lemma {:induction false} PrintIsNumeral(n: nat)
    ensures Numeral(Print(n)) && Value(Print(n)) == n && (n > 0 ==> Print(n)[0] != '0')
  {
    if n >= 10 {
      PrintIsNumeral(n / 10);
      assert Print(n)[..|Print(n)| - 1] == Print(n / 10);
    } else {
      assert Print(n)[..0] == "";
    }
  }

  lemma {:induction false} NumeralIsPrinted(s: string)
    requires Numeral(s)
    ensures Print(Value(s)) == s && (s != "0" ==> Value(s) > 0)
  {
    var init := s[..|s| - 1];
    var d := DigitValue(s[|s| - 1]);
    assert s == init + [Digit(d)];
    if |s| > 1 {
      NumeralIsPrinted(init);
      assert Value(s) / 10 == Value(init) && Value(s) % 10 == d;
    }
  }

  /** A numeral has at most `k` digits exactly when its value is below 10^k. */
  lemma {:induction false} PrintedLength(n: nat, k: nat)
    requires k >= 1
    ensures |Print(n)| <= k <==> n < Pow10(k)
  {
    if n < 10 {
      Pow10Grows(1, k);
    } else if k > 1 {
      PrintedLength(n / 10, k - 1);
    }
  }

  lemma {:induction false} Pow10Grows(j: nat, k: nat)
    requires j <= k
    ensures Pow10(j) <= Pow10(k)
  {
    if j < k { Pow10Grows(j, k - 1); }
  }
}
