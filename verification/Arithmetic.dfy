/** Division and multiplication of natural numbers. */
module Arithmetic {

  lemma Division(n: nat, d: nat)
    requires d > 0
    ensures n == n / d * d + n % d && n % d < d
  {
  }

  lemma Product(a: nat, b: nat, d: nat)
    requires a <= b
    ensures a * d <= b * d
  {
  }

  lemma Ordered(a: nat, b: nat, d: nat)
    ensures a > b ==> a * d >= b * d + d
  {
    if a > b {
      Product(b + 1, a, d);
      assert (b + 1) * d == b * d + d;
    }
  }

  lemma ExactDivision(n: nat, d: nat, q: nat)
    requires d > 0 && q * d <= n < q * d + d
    ensures n / d == q
  {
    Division(n, d);
    Ordered(n / d, q, d);
    Ordered(q, n / d, d);
  }

  lemma ExactMultiple(q: nat, d: nat)
    requires d > 0
    ensures q * d % d == 0
  {
    ExactDivision(q * d, d, q);
    Division(q * d, d);
  }
}
