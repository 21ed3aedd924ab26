// Decimal rendering of counters, as string formatting writes them.
module Decimals {

  const DIGITS := "0123456789"

  function Decimal(n: nat): string {
    if n < 10 then [DIGITS[n]] else Decimal(n / 10) + [DIGITS[n % 10]]
  }

  predicate AllDigits(s: string) {
    forall i :: 0 <= i < |s| ==> s[i] in DIGITS
  }

  lemma {:induction false} DecimalIsDigits(n: nat)
    ensures AllDigits(Decimal(n)) && Decimal(n) != ""
  {
    if n >= 10 {
      DecimalIsDigits(n / 10);
    }
  }

  lemma DigitsDiffer(i: nat, j: nat)
    requires i < 10 && j < 10 && DIGITS[i] == DIGITS[j]
    ensures i == j
  {
  }

  lemma LongerFromTen(n: nat)
    ensures n < 10 ==> |Decimal(n)| == 1
    ensures n >= 10 ==> |Decimal(n)| >= 2
  {
  }

  /** Distinct numbers have distinct renderings. */
  lemma {:induction false} DecimalInjective(m: nat, n: nat)
    requires Decimal(m) == Decimal(n)
    ensures m == n
  {
    LongerFromTen(m);
    LongerFromTen(n);
    if m < 10 {
      DigitsDiffer(m, n);
    } else {
      var s, t := Decimal(m), Decimal(n);
      assert s[..|s| - 1] == Decimal(m / 10) && t[..|t| - 1] == Decimal(n / 10);
      assert s[|s| - 1] == DIGITS[m % 10] && t[|t| - 1] == DIGITS[n % 10];
      DigitsDiffer(m % 10, n % 10);
      DecimalInjective(m / 10, n / 10);
    }
  }

  /** A text, a separator that is no digit, and a number can be told apart again. */
  lemma SuffixInjective(text1: string, n1: nat, text2: string, n2: nat, sep: char)
    requires sep !in DIGITS
    requires text1 + [sep] + Decimal(n1) == text2 + [sep] + Decimal(n2)
    ensures text1 == text2 && n1 == n2
  {
    SeparatorPlaced(text1, n1, text2, n2, sep);
    SeparatorPlaced(text2, n2, text1, n1, sep);
    var s := text1 + [sep] + Decimal(n1);
    assert text1 == s[..|text1|] && text2 == s[..|text2|];
    assert Decimal(n1) == s[|text1| + 1..] && Decimal(n2) == s[|text2| + 1..];
    DecimalInjective(n1, n2);
  }

  lemma SeparatorPlaced(text1: string, n1: nat, text2: string, n2: nat, sep: char)
    requires sep !in DIGITS
    requires text1 + [sep] + Decimal(n1) == text2 + [sep] + Decimal(n2)
    ensures |text1| <= |text2|
  {
    DecimalIsDigits(n2);
    var s := text2 + [sep] + Decimal(n2);
    assert s[|text1|] == sep;
    assert forall i :: |text2| < i < |s| ==> s[i] == Decimal(n2)[i - |text2| - 1];
  }
}
