/** Decimal rendering of natural numbers, as Python's `str(n)` / f-string `{n}`. */
module Decimal {

  function Digit(d: nat): (c: char)
    requires d < 10
    ensures '0' <= c <= '9'
  {
    (48 + d) as char
  }

  /** The decimal digits of `n`, most significant first, without leading zeros. */
  function Show(n: nat): (s: string)
    ensures 1 <= |s|
    ensures |s| == 1 <==> n < 10
  {
    if n < 10 then [Digit(n)] else Show(n / 10) + [Digit(n % 10)]
  }

  /** Distinct numbers have distinct decimal renderings. */
  lemma {:induction false} ShowInjective(a: nat, b: nat)
    requires Show(a) == Show(b)
    ensures a == b
  {
    if a >= 10 && b >= 10 {
      var sa, sb := Show(a), Show(b);
      assert sa[|sa| - 1] == sb[|sb| - 1];
      assert sa[..|sa| - 1] == Show(a / 10);
      assert sb[..|sb| - 1] == Show(b / 10);
      ShowInjective(a / 10, b / 10);
    }
  }

  predicate IsDigit(c: char) {
    '0' <= c <= '9'
  }

  predicate AllDigits(s: string) {
    forall i :: 0 <= i < |s| ==> IsDigit(s[i])
  }

  /** Python's `int(s)` on a string of decimal digits (leading zeros allowed). */
  function Parse(s: string): (n: nat)
    requires AllDigits(s)
  {
    if s == [] then 0 else Parse(s[..|s| - 1]) * 10 + (s[|s| - 1] as int - 48)
  }

  /** Reading back a rendering gives the number: `int(str(n)) == n`. */
  lemma {:induction false} ParseShow(n: nat)
    ensures AllDigits(Show(n)) && Parse(Show(n)) == n
  {
    if n >= 10 {
      ParseShow(n / 10);
      var s := Show(n);
      assert s[..|s| - 1] == Show(n / 10);
    }
  }
}
