/** Facts about remainders and products that the other modules use. */
module Arithmetic {

  lemma {:induction false} MulAtLeast(n: int, d: int)
    requires 0 < n && 1 <= d
    ensures n * d >= n
    decreases d
  {
    if d > 1 {
      MulAtLeast(n, d - 1);
      assert n * d == n * (d - 1) + n;
    }
  }

  /** Quotient and remainder are unique. */
  lemma DivModUnique(k: int, n: int, q: int, r: int)
    requires 0 < n && 0 <= r < n && k == n * q + r
    ensures k % n == r && k / n == q
  {
    var p, t := k / n, k % n;
    assert k == n * p + t && 0 <= t < n;
    var d := q - p;
    assert n * d == n * q - n * p;
    if d >= 1 {
      MulAtLeast(n, d);
    } else if d <= -1 {
      assert n * -d == -(n * d);
      MulAtLeast(n, -d);
    } else {
      assert n * d == 0;
    }
  }
}
