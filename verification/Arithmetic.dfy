/** Division by a divisor that need not be constant. */
module Arithmetic {

  lemma {:induction false} MulGap(a: nat, b: nat, n: nat)
    requires a > b
    ensures a * n >= b * n + n
  {
    if a > b + 1 {
      MulGap(a - 1, b, n);
    }
    assert a * n == (a - 1) * n + n;
  }

  /** A quotient and a remainder in range are the quotient and the remainder. */
  lemma DivModUnique(x: nat, n: nat, q: nat, r: nat)
    requires n > 0 && r < n && x == q * n + r
    ensures x / n == q && x % n == r
  {
    var q', r' := x / n, x % n;
    assert x == q' * n + r';
    if q' > q {
      MulGap(q', q, n);
    } else if q' < q {
      MulGap(q, q', n);
    }
  }
}
