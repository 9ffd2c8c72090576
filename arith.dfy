/** Small facts about multiplication and division by a variable, which the solver does not
    find on its own. */
module Arith {

  /** Multiplying by a non-negative factor keeps order (stated as an implication so that callers
      need no case split). */
  lemma ScaleMonotone(t: int, a: int, b: int)
    requires t >= 0
    ensures a >= b ==> t * a >= t * b
  {
  }

  /** `(m + k - 1) / k` is the ceiling of m / k: the least multiple of k at or above m. */
  lemma CeilDiv(m: int, k: int)
    requires m >= 0 && k >= 1
    ensures var q := (m + k - 1) / k; m <= k * q < m + k
  {
    var q := (m + k - 1) / k;
    var rem := (m + k - 1) % k;
    assert m + k - 1 == k * q + rem;
  }

  /** A multiple of k leaves no remainder. */
  lemma MultipleHasNoRemainder(q: int, k: int)
    requires k >= 1
    ensures (k * q) % k == 0
  {
    var x := k * q;
    var d := x / k;
    assert x == k * d + x % k;
    assert k * (q - d) == x % k;
    ScaleMonotone(k, q - d, 1);
    ScaleMonotone(k, -1, q - d);
  }

  /** Division is unique: a quotient and a remainder in [0, k) that rebuild x are x / k and x % k. */
  lemma DivModUnique(x: int, k: int, q: int, r: int)
    requires k >= 1 && 0 <= r < k && x == k * q + r
    ensures x / k == q && x % k == r
  {
    var d := x / k;
    assert x == k * d + x % k;
    assert k * (q - d) == x % k - r;
    ScaleMonotone(k, q - d, 1);
    ScaleMonotone(k, -1, q - d);
  }

  /** A number below k * m has a quotient by k below m. */
  lemma QuotientBelow(v: int, k: int, m: int)
    requires k >= 1 && 0 <= v < k * m
    ensures v / k < m
  {
    var q := v / k;
    assert v == k * q + v % k;
    ScaleMonotone(k, q, m);
  }
}
