/** Facts about products and quotients of integers that the solver needs to be told. */
module Arith {

  lemma MulMonotone(a: int, b: int, c: int)
    requires a <= b && 0 <= c
    ensures a * c <= b * c
  {
    assert b * c - a * c == (b - a) * c;
  }

  lemma DivMonotone(a: int, b: int, m: int)
    requires a <= b && m > 0
    ensures a / m <= b / m
  {
    var x, y := a / m, b / m;
    assert a == x * m + a % m && b == y * m + b % m;
    assert (y + 1) * m == y * m + m;
    if x > y {
      MulMonotone(y + 1, x, m);
    }
  }

  lemma DivExact(q: int, r: int, m: int)
    requires 0 <= r < m
    ensures (q * m + r) / m == q
  {
    var x := (q * m + r) / m;
    var s := (q * m + r) % m;
    assert x * m + s == q * m + r && 0 <= s < m;
    assert (q + 1) * m == q * m + m && (x + 1) * m == x * m + m;
    if x > q {
      MulMonotone(q + 1, x, m);
    } else if x < q {
      MulMonotone(x + 1, q, m);
    }
  }

  /** Multiplication by one more and by two more. */
  lemma OneMore(n: int, c: int)
    ensures (n + 1) * c == n * c + c
    ensures (n + 2) * c == n * c + 2 * c
  {
  }
}
