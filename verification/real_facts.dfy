/**
 Facts of real arithmetic that the solver does not find on its own: signs of
 products and squares, and division by a positive count. Squares go through
 `Sq`, so that a square stays one term in the proofs that use it.
 */
module RealFacts {

  /** The square of a real. */
  function Sq(x: real): real
  {
    x * x
  }

  /** Solver hint: the product of two positive reals is positive. */
  lemma ProductPositive(a: real, b: real)
    requires a > 0.0 && b > 0.0
    ensures a * b > 0.0
  {
  }

  /** Solver hint: the product of two non-negative reals is non-negative. */
  lemma ProductNonNegative(a: real, b: real)
    requires a >= 0.0 && b >= 0.0
    ensures a * b >= 0.0
  {
  }

  /** Squaring is strictly increasing on the non-negative reals. */
  lemma SquareIncreasing(a: real, b: real)
    requires 0.0 <= a < b
    ensures Sq(a) < Sq(b)
  {
    var d := b - a;
    ProductNonNegative(a, d);
    ProductPositive(b, d);
    var aa, ab, bb := a * a, a * b, b * b;
    assert a * d == ab - aa;
    assert b * d == bb - ab;
  }

  /** A square is non-negative, and positive away from zero. */
  lemma SquareSign(d: real)
    ensures Sq(d) >= 0.0
    ensures d != 0.0 ==> Sq(d) > 0.0
  {
    if d > 0.0 {
      SquareIncreasing(0.0, d);
    } else if d < 0.0 {
      SquareIncreasing(0.0, -d);
      assert Sq(-d) == Sq(d);
    }
  }

  /** Solver hint: dividing by a positive count undoes multiplying by it. */
  lemma DivideByCount(s: real, n: real)
    requires n > 0.0
    ensures (s / n) * n == s
  {
  }

  /** A quotient by a positive count has the sign of the total. */
  lemma DivideSign(s: real, n: real)
    requires n > 0.0
    ensures s >= 0.0 ==> s / n >= 0.0
    ensures s / n == 0.0 <==> s == 0.0
  {
    var q := s / n;
    assert q * n == s;
    if q < 0.0 {
      ProductPositive(-q, n);
    } else if q > 0.0 {
      ProductPositive(q, n);
    }
  }

  /** Solver hint: (x - m)² = x² - 2mx + m². */
  lemma SquareOfDifference(x: real, m: real)
    ensures Sq(x - m) == Sq(x) - 2.0 * (m * x) + Sq(m)
  {
  }

  /** Solver hint: multiplication distributes over addition. */
  lemma Distribute(a: real, b: real, c: real)
    ensures a * (b + c) == a * b + a * c
  {
  }

  /** The algebra behind "variance = mean of squares - square of mean": with
      s = m·n and v·n = q - 2·m·s + n·m², v is q/n - m². */
  lemma ShortcutAlgebra(v: real, q: real, s: real, m: real, n: real)
    requires n > 0.0
    requires s == m * n
    requires v * n == q - 2.0 * (m * s) + n * Sq(m)
    ensures v == q / n - Sq(m)
  {
    assert m * s == Sq(m) * n;
    assert v * n == q - Sq(m) * n;
    DivideByCount(q, n);
    assert (q / n - Sq(m)) * n == q - Sq(m) * n;
    CancelCount(v, q / n - Sq(m), n);
  }

  /** Equal multiples of a positive count have equal factors. */
  lemma CancelCount(a: real, b: real, n: real)
    requires n > 0.0
    requires a * n == b * n
    ensures a == b
  {
    if a < b {
      ProductPositive(b - a, n);
    } else if b < a {
      ProductPositive(a - b, n);
    }
  }

  /** Bounds on a total of n terms carry over to its share per term. */
  lemma ShareBounds(q: real, s: real, n: real, lo: real, hi: real)
    requires n > 0.0
    requires q * n == s
    requires n * lo <= s <= n * hi
    ensures lo <= q <= hi
  {
    if q < lo {
      ProductPositive(n, lo - q);
    }
    if q > hi {
      ProductPositive(n, q - hi);
    }
  }

  /** Linear interpolation a + t·(b - a) with 0 <= t <= 1 stays between a and b. */
  lemma InterpolationBetween(a: real, b: real, t: real)
    requires a <= b
    requires 0.0 <= t <= 1.0
    ensures a <= a + t * (b - a) <= b
  {
    ProductNonNegative(t, b - a);
    ProductNonNegative(1.0 - t, b - a);
  }

  /** Linear interpolation towards a larger value grows with the fraction. */
  lemma InterpolationMonotone(a: real, b: real, t1: real, t2: real)
    requires a <= b
    requires t1 <= t2
    ensures a + t1 * (b - a) <= a + t2 * (b - a)
  {
    ProductNonNegative(t2 - t1, b - a);
  }
}
