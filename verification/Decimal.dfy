/** Decimal text of a natural number, as Python's `str` writes it. */
module Decimal {

  function Digit(d: nat): (c: char)
    requires d < 10
  {
    ('0' as int + d) as char
  }

  predicate IsDigit(c: char) {
    '0' <= c <= '9'
  }

  function Text(n: nat): (s: string)
    ensures |s| > 0
    ensures forall i | 0 <= i < |s| :: IsDigit(s[i])
  {
    if n < 10 then [Digit(n)] else Text(n / 10) + [Digit(n % 10)]
  }

  function Parse(s: string): (n: nat)
    requires forall i | 0 <= i < |s| :: IsDigit(s[i])
  {
    if s == [] then 0
    else
      assert IsDigit(s[|s| - 1]);
      10 * Parse(s[..|s| - 1]) + (s[|s| - 1] as int - '0' as int)
  }

  lemma {:induction false} ParseText(n: nat)
    ensures Parse(Text(n)) == n
  {
    if n >= 10 {
      var s := Text(n);
      assert s[..|s| - 1] == Text(n / 10);
      ParseText(n / 10);
    } else {
      assert Text(n)[..0] == [];
    }
  }

  lemma TextInjective(m: nat, n: nat)
    requires Text(m) == Text(n)
    ensures m == n
  {
    ParseText(m);
    ParseText(n);
  }

  function Pow10(d: nat): (p: nat)
    ensures p > 0
  {
    if d == 0 then 1 else 10 * Pow10(d - 1)
  }

  /** A number has at most d digits exactly when it is below 10^d. */
  lemma {:induction false} TextLength(n: nat, d: nat)
    requires d > 0
    ensures |Text(n)| <= d <==> n < Pow10(d)
  {
    if n < 10 {
      assert Pow10(d - 1) >= 1;
    } else if d == 1 {
      assert Pow10(1) == 10 * Pow10(0);
    } else {
      TextLength(n / 10, d - 1);
    }
  }
}
