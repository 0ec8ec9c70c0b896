/** Decimal numerals, as `%d` and `%zu` print them and `%zu` reads them. */
module Decimal {
  function Digit(d: nat): (c: char)
    requires d < 10
    ensures '0' <= c <= '9'
  {
    (d + '0' as int) as char
  }

  predicate IsDigit(c: char) { '0' <= c <= '9' }

  predicate AllDigits(s: string) { forall i :: 0 <= i < |s| ==> IsDigit(s[i]) }

  function Print(n: nat): (s: string)
    ensures |s| >= 1 && AllDigits(s)
  {
    if n < 10 then [Digit(n)] else Print(n / 10) + [Digit(n % 10)]
  }

  function Value(s: string): nat
    requires AllDigits(s)
  {
    if s == [] then 0
    else 10 * Value(s[..|s| - 1]) + (s[|s| - 1] as int - '0' as int)
  }

  lemma {:induction false} ValueOfPrint(n: nat)
    ensures Value(Print(n)) == n
  {
    if n < 10 {
      assert Print(n)[..0] == [];
    } else {
      ValueOfPrint(n / 10);
      assert Print(n)[..|Print(n)| - 1] == Print(n / 10);
    }
  }

  function Pow10(k: nat): nat { if k == 0 then 1 else 10 * Pow10(k - 1) }

  /** A numeral has at most k digits exactly when the number is below 10^k. */
  lemma {:induction false} PrintLength(n: nat, k: nat)
    requires k >= 1
    ensures |Print(n)| <= k <==> n < Pow10(k)
    decreases k
  {
    if k == 1 {
      assert Pow10(1) == 10;
    } else if n >= 10 {
      PrintLength(n / 10, k - 1);
    } else {
      PowAtLeast(k);
    }
  }

  /** n divided by ten i times. */
  function Shifted(n: nat, i: nat): nat { if i == 0 then n else Shifted(n / 10, i - 1) }

  /** The digit i places from the right is what is left of n modulo ten after i divisions, and a
      numeral of several digits does not begin with 0. */
  lemma {:induction false} DigitAt(n: nat, i: nat)
    requires i < |Print(n)|
    ensures Print(n)[|Print(n)| - 1 - i] as int - '0' as int == Shifted(n, i) % 10
    ensures |Print(n)| > 1 ==> Print(n)[0] != '0'
    decreases n
  {
    if n < 10 {
    } else {
      DigitAt(n / 10, if i == 0 then 0 else i - 1);
    }
  }

  lemma {:induction false} PowAtLeast(k: nat)
    requires k >= 1
    ensures Pow10(k) >= 10
  {
    if k == 1 {
    } else {
      PowAtLeast(k - 1);
    }
  }
}
