/**
 * Square root and the exponential are not definable over Dafny's reals.
 * Every operation of the model that needs them takes a `Math` value holding
 * the two functions, and the properties that depend on them take the laws
 * stated by `Lawful`. Rounding and IEEE special values are not modelled.
 */
module RealMath {
  datatype Math = Math(sqrt: real -> real, exp: real -> real)

  /** `sqrt` is the non-negative square root on the non-negative reals. */
  ghost predicate SqrtLaw(sqrt: real -> real) {
    forall x :: 0.0 <= x ==> 0.0 <= sqrt(x) && sqrt(x) * sqrt(x) == x
  }

  /** `exp` is positive, strictly increasing and maps 0 to 1. */
  ghost predicate ExpLaw(exp: real -> real) {
    && exp(0.0) == 1.0
    && (forall x :: 0.0 < exp(x))
    && (forall x, y :: x < y ==> exp(x) < exp(y))
  }

  ghost predicate Lawful(m: Math) {
    SqrtLaw(m.sqrt) && ExpLaw(m.exp)
  }

  /** Of two non-negative reals, the one with the larger square is the larger. */
  lemma SquareOrder(a: real, b: real)
    requires 0.0 <= a && 0.0 <= b && a * a <= b * b
    ensures a <= b
  {
    if a > b {
      SquareStrict(b, a);
    }
  }

  lemma SquareStrict(a: real, b: real)
    requires 0.0 <= a < b
    ensures a * a < b * b
  {
    var aa, ab, bb := a * a, a * b, b * b;
    assert aa <= ab;
    assert ab < bb;
  }

  lemma SqrtOfSquare(m: Math, x: real, r: real)
    requires SqrtLaw(m.sqrt) && 0.0 <= r && x == r * r
    ensures m.sqrt(x) == r
  {
    var s := m.sqrt(x);
    assert s * s == r * r;
    SquareOrder(s, r);
    SquareOrder(r, s);
  }

  lemma SqrtMonotone(m: Math, x: real, y: real)
    requires SqrtLaw(m.sqrt) && 0.0 <= x <= y
    ensures m.sqrt(x) <= m.sqrt(y)
  {
    SquareOrder(m.sqrt(x), m.sqrt(y));
  }

  lemma SqrtPositive(m: Math, x: real)
    requires SqrtLaw(m.sqrt) && 0.0 < x
    ensures 0.0 < m.sqrt(x)
  {
  }

  /** sqrt(a + b) <= sqrt(a) + sqrt(b) for non-negative a and b. */
  lemma SqrtSubadditive(m: Math, a: real, b: real)
    requires SqrtLaw(m.sqrt) && 0.0 <= a && 0.0 <= b
    ensures m.sqrt(a + b) <= m.sqrt(a) + m.sqrt(b)
  {
    var s, t, u := m.sqrt(a + b), m.sqrt(a), m.sqrt(b);
    assert (t + u) * (t + u) == a + b + 2.0 * t * u;
    assert 0.0 <= t * u;
    SquareOrder(s, t + u);
  }

  lemma ExpAtMostOne(m: Math, x: real)
    requires ExpLaw(m.exp) && x <= 0.0
    ensures 0.0 < m.exp(x) <= 1.0
  {
    if x < 0.0 {
      assert m.exp(x) < m.exp(0.0);
    }
  }

  /** A non-zero factor cancels: a c = b c implies a = b. */
  lemma CancelNonzero(a: real, b: real, c: real)
    requires c != 0.0 && a * c == b * c
    ensures a == b
  {
    calc {
      a;
      (a * c) / c;
      (b * c) / c;
      b;
    }
  }

  lemma QuotientTimes(x: real, l: real)
    requires l != 0.0
    ensures (x / l) * l == x
  {
  }

  lemma SelfQuotient(x: real)
    requires x != 0.0
    ensures x / x == 1.0
  {
  }
}
