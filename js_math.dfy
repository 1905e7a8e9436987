/** The integer side of JavaScript's `Math.min`, `Math.max` and `Math.round`. */
module JsMath {
  function Min(a: int, b: int): (r: int)
    ensures r <= a && r <= b && (r == a || r == b)
  {
    if a <= b then a else b
  }

  function Max(a: int, b: int): (r: int)
    ensures r >= a && r >= b && (r == a || r == b)
  {
    if a >= b then a else b
  }

  /** `r` is the integer nearest to `n / d`, a half going up (d > 0). */
  predicate IsRoundOf(r: int, n: int, d: int)
  {
    2 * d * r - d <= 2 * n < 2 * d * r + d
  }

  /** `Math.round(n / d)` for a positive divisor, computed exactly. */
  function RoundHalfUp(n: int, d: int): (r: int)
    requires d > 0
    ensures IsRoundOf(r, n, d)
  {
    var q := (2 * n + d) / (2 * d);
    DivBounds(2 * n + d, 2 * d);
    q
  }

  lemma DivBounds(x: int, y: int)
    requires y > 0
    ensures y * (x / y) <= x < y * (x / y) + y
  {
  }

  lemma MulStep(d: int, a: int, b: int)
    requires d > 0 && a < b
    ensures d * a + d <= d * b
  {
    var k := b - a - 1;
    assert b == a + 1 + k;
    assert d * b == d * a + d + d * k;
    assert d * k >= 0;
  }

  /** Rounding is unique: it singles out one integer. */
  lemma RoundUnique(r: int, s: int, n: int, d: int)
    requires d > 0 && IsRoundOf(r, n, d) && IsRoundOf(s, n, d)
    ensures r == s
  {
    if r < s {
      MulStep(d, r, s);
    } else if s < r {
      MulStep(d, s, r);
    }
  }

  /** Rounding moves with its numerator. */
  lemma RoundMonotone(n: int, m: int, d: int)
    requires d > 0 && n <= m
    ensures RoundHalfUp(n, d) <= RoundHalfUp(m, d)
  {
    var r, s := RoundHalfUp(n, d), RoundHalfUp(m, d);
    if s < r {
      MulStep(d, s, r);
    }
  }

  /** The rounded value reaches `k` exactly when `n / d` reaches `k - 1/2`. */
  lemma RoundAtLeast(n: int, d: int, k: int)
    requires d > 0
    ensures RoundHalfUp(n, d) >= k <==> 2 * n >= 2 * d * k - d
  {
    var r := RoundHalfUp(n, d);
    if r < k {
      MulStep(d, r, k);
    } else if r > k {
      MulStep(d, k, r);
    }
  }
}
