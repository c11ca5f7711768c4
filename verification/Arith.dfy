/** Facts about division that the solver finds only in isolation. */
module Arith {

  lemma MulAtLeast(b: nat, q: nat)
    requires b > 0
    ensures q <= b * q
  {
  }

  function Quotient(a: nat, b: nat): (q: nat)
    requires b > 0
    ensures q <= a && q * b <= a < q * b + b
  {
    var q := a / b;
    assert a == b * q + a % b;
    MulAtLeast(b, q);
    q
  }

  lemma Times(a: nat, b: nat, n: nat)
    requires a <= b
    ensures n * a <= n * b
  {
  }

  lemma Distribute(fb: nat, a: nat, b: nat)
    ensures fb * (a + b) == fb * a + fb * b
  {
  }

  lemma Regroup(a: nat, n: nat, b: nat)
    ensures a * (n * b) == a * b * n
  {
  }

  /** Dividing twice is dividing by the product. */
  lemma TwoQuotients(x: nat, a: nat, b: nat, q: nat, n: nat)
    requires a > 0 && b > 0 && q * a <= x < q * a + a && n * b <= q < n * b + b
    ensures a * b > 0 && a * b * n <= x < a * b * (n + 1)
  {
    Times(1, b, a);
    Times(n * b, q, a);
    Times(q + 1, n * b + b, a);
    Regroup(a, n, b);
    Distribute(a, n * b, b);
    Distribute(a * b, n, 1);
    Distribute(a, q, 1);
  }
}
