/** Multiplication and division by a divisor that is not a constant. */
module Arith {

  lemma MulMono(a: nat, b: nat, k: nat)
    requires a <= b
    ensures a * k <= b * k
  {
  }

  lemma MulNext(a: nat, k: nat)
    ensures (a + 1) * k == a * k + k
  {
  }

  /** Quotient and remainder are determined by n == q * d + r with r < d. */
  lemma DivUnique(n: nat, q: nat, r: nat, d: nat)
    requires d > 0 && n == q * d + r && r < d
    ensures n / d == q && n % d == r
  {
    var q' := n / d;
    assert n == q' * d + n % d && 0 <= n % d < d;
    MulNext(q, d);
    MulNext(q', d);
    if q' > q {
      MulMono(q + 1, q', d);
    } else if q' < q {
      MulMono(q' + 1, q, d);
    }
  }

  lemma Decompose(n: nat, d: nat)
    requires d > 0
    ensures n == (n / d) * d + n % d && n % d < d
  {
  }

  lemma Quotient(n: nat, d: nat) returns (q: nat, r: nat)
    requires d > 0
    ensures q == n / d && r == n % d && r < d && n == q * d + r
  {
    q, r := n / d, n % d;
  }

  lemma NextInRound(n: nat, d: nat, q: nat, r: nat)
    requires d > 0 && n == q * d + r && r + 1 < d
    ensures (n + 1) / d == q && (n + 1) % d == r + 1
  {
    DivUnique(n + 1, q, r + 1, d);
  }

  lemma NextRound(n: nat, d: nat, q: nat, r: nat)
    requires d > 0 && n == q * d + r && r + 1 == d
    ensures (n + 1) / d == q + 1 && (n + 1) % d == 0
  {
    MulNext(q, d);
    DivUnique(n + 1, q + 1, 0, d);
  }

  /** Numbers are ordered by quotient, then by remainder. */
  lemma DivOrder(p: nat, q: nat, d: nat)
    requires d > 0 && (p / d < q / d || (p / d == q / d && p % d < q % d))
    ensures p < q
  {
    var a, r := Quotient(p, d);
    var b, s := Quotient(q, d);
    if a < b {
      MulNext(a, d);
      MulMono(a + 1, b, d);
    }
  }
}
