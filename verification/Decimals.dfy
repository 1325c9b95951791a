/** Decimal numerals as Python prints them: no sign, no leading zero. */
module Decimals {

  predicate IsDigit(c: char) {
    '0' <= c <= '9'
  }

  predicate AllDigits(s: string) {
    forall i :: 0 <= i < |s| ==> IsDigit(s[i])
  }

  /** A nonempty digit string that starts with zero only when it is zero. */
  predicate Canonical(s: string) {
    |s| > 0 && AllDigits(s) && (s[0] == '0' ==> |s| == 1)
  }

  function DigitValue(c: char): nat
    requires IsDigit(c)
  {
    (c as int) - ('0' as int)
  }

  function Value(s: string): nat
    requires AllDigits(s)
  {
    if s == "" then 0 else 10 * Value(s[..|s| - 1]) + DigitValue(s[|s| - 1])
  }

  function Show(n: nat): string {
    if n < 10 then [(n + ('0' as int)) as char] else Show(n / 10) + Show(n % 10)
  }

  lemma {:induction false} ShowRoundTrip(n: nat)
    ensures Canonical(Show(n)) && Value(Show(n)) == n
    ensures Show(n)[0] == '0' ==> n == 0
  {
    if n >= 10 {
      ShowRoundTrip(n / 10);
      var s := Show(n);
      assert |Show(n % 10)| == 1;
      assert s[..|s| - 1] == Show(n / 10);
      assert s[0] == Show(n / 10)[0];
    } else {
      assert Show(n)[..0] == "";
    }
  }

  lemma ShowInjective(m: nat, n: nat)
    requires Show(m) == Show(n)
    ensures m == n
  {
    ShowRoundTrip(m);
    ShowRoundTrip(n);
  }
}
