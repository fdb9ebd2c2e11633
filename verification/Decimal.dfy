/** Decimal text of integers, as `str(n)` and SQL's `n::text` write it. */
module Decimal {

  function Digit(d: nat): char
    requires d < 10
  {
    '0' + d as char
  }

  predicate IsDigit(c: char) {
    '0' <= c <= '9'
  }

  function NatText(n: nat): (t: string)
    ensures t != [] && forall c | c in t :: IsDigit(c)
  {
    if n < 10 then [Digit(n)] else NatText(n / 10) + [Digit(n % 10)]
  }

  function Text(n: int): (t: string)
    ensures t != [] && forall c | c in t :: IsDigit(c) || c == '-'
  {
    if n < 0 then "-" + NatText(-n) else NatText(n)
  }

  /** The number that a string of digits denotes. */
  function Value(t: string): nat
    requires forall c | c in t :: IsDigit(c)
  {
    if t == [] then 0
    else
      assert IsDigit(t[|t| - 1]);
      Value(t[..|t| - 1]) * 10 + (t[|t| - 1] as int - '0' as int)
  }

  lemma {:induction false} ValueOfText(n: nat)
    ensures Value(NatText(n)) == n
  {
    if n < 10 {
      assert NatText(n)[..0] == [];
    } else {
      ValueOfText(n / 10);
      var t := NatText(n);
      assert t[..|t| - 1] == NatText(n / 10);
    }
  }

  lemma {:induction false} SignShows(n: int)
    ensures Text(n)[0] == '-' <==> n < 0
  {
    if n >= 0 {
      assert IsDigit(NatText(n)[0]);
    }
  }

  /** Different integers have different texts. */
  lemma {:induction false} TextIsInjective(m: int, n: int)
    requires Text(m) == Text(n)
    ensures m == n
  {
    if m < 0 && n < 0 {
      assert NatText(-m) == Text(m)[1..] == Text(n)[1..] == NatText(-n);
      ValueOfText(-m);
      ValueOfText(-n);
    } else if m >= 0 && n >= 0 {
      ValueOfText(m);
      ValueOfText(n);
    } else {
      SignShows(m);
      SignShows(n);
    }
  }
}
