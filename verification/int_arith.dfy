/** Small facts of integer arithmetic that the solver does not find unaided. */
module IntArith {

  lemma MulMonotone(a: int, b: int, m: nat)
    requires a <= b
    ensures a * m <= b * m
  {
    assert b * m - a * m == (b - a) * m;
  }

  lemma MulStrict(a: int, b: int, m: nat)
    requires a < b && m > 0
    ensures a * m < b * m
  {
    assert b * m - a * m == (b - a) * m;
    assert (b - a) * m >= m by { MulMonotone(1, b - a, m); }
  }

  /** Division by a positive divisor recovers the quotient and the remainder of `q * d + r`. */
  lemma DivModUnique(q: int, r: int, d: int)
    requires d > 0 && 0 <= r < d
    ensures (q * d + r) / d == q
    ensures (q * d + r) % d == r
  {
    var n := q * d + r;
    var q', r' := n / d, n % d;
    assert n == q' * d + r';
    if q' < q {
      MulMonotone(q' + 1, q, d);
    } else if q' > q {
      MulMonotone(q + 1, q', d);
    }
  }

  /** `n / d` is below `m` exactly when `n` is below `m * d`. */
  lemma DivBelow(n: nat, d: int, m: int)
    requires d > 0
    ensures n / d < m <==> n < m * d
  {
    var q, r := n / d, n % d;
    assert n == q * d + r;
    if q < m {
      MulMonotone(q + 1, m, d);
      assert (q + 1) * d == q * d + d;
    } else {
      MulMonotone(m, q, d);
    }
  }
}
