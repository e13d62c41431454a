/** Real arithmetic used by the orbit geometry.

    The source computes with `Math.cos`, `Math.sin` (through `dcos`/`dsin`, which take
    degrees) and `Math.sqrt`. Here these are three real functions supplied by the caller;
    `Sound` states what is assumed of them, and every geometric result is proved from
    those facts alone, over the reals (no floating point). */
module Maths {

  /** The library functions the source calls: cosine and sine in degrees, square root. */
  datatype Maths = Maths(dcos: real -> real, dsin: real -> real, sqrt: real -> real)

  /** What the proofs may assume of the library functions. */
  ghost predicate Sound(m: Maths)
  {
    && (forall t :: Unit(m, t))
    && (forall x :: RootOf(m, x))
    // exact values at the quarter turns
    && m.dcos(0.0) == 1.0 && m.dsin(0.0) == 0.0
    && m.dcos(90.0) == 0.0 && m.dsin(90.0) == 1.0
    && m.dcos(180.0) == -1.0 && m.dsin(180.0) == 0.0
    && m.dcos(270.0) == 0.0 && m.dsin(270.0) == -1.0
    // the signs of the sine and the cosine over one turn
    && (forall t :: SineSign(m, t))
    && (forall t :: CosineSign(m, t))
  }

  /** `(sin t, cos t)` is a unit vector. */
  predicate Unit(m: Maths, t: real)
  {
    m.dsin(t) * m.dsin(t) + m.dcos(t) * m.dcos(t) == 1.0
  }

  /** `sqrt x` is the non-negative square root of every `x >= 0`. */
  predicate RootOf(m: Maths, x: real)
  {
    x >= 0.0 ==> m.sqrt(x) >= 0.0 && m.sqrt(x) * m.sqrt(x) == x
  }

  /** The sine is positive over the first half-turn and negative over the second. */
  predicate SineSign(m: Maths, t: real)
  {
    && (0.0 < t < 180.0 ==> m.dsin(t) > 0.0)
    && (180.0 < t < 360.0 ==> m.dsin(t) < 0.0)
  }

  /** The cosine is positive before 90 and after 270, and negative in between. */
  predicate CosineSign(m: Maths, t: real)
  {
    && (0.0 <= t < 90.0 || 270.0 < t < 360.0 ==> m.dcos(t) > 0.0)
    && (90.0 < t < 270.0 ==> m.dcos(t) < 0.0)
  }

  lemma UnitAt(m: Maths, t: real)
    ensures Sound(m) ==> m.dsin(t) * m.dsin(t) + m.dcos(t) * m.dcos(t) == 1.0
  {
    if Sound(m) {
      assert Unit(m, t);
    }
  }

  lemma RootAt(m: Maths, x: real)
    requires Sound(m) && x >= 0.0
    ensures m.sqrt(x) >= 0.0 && m.sqrt(x) * m.sqrt(x) == x
  {
    assert RootOf(m, x);
  }

  lemma SineSignAt(m: Maths, t: real)
    requires Sound(m)
    ensures 0.0 < t < 180.0 ==> m.dsin(t) > 0.0
    ensures 180.0 < t < 360.0 ==> m.dsin(t) < 0.0
  {
    assert SineSign(m, t);
  }

  lemma CosineSignAt(m: Maths, t: real)
    requires Sound(m)
    ensures 0.0 <= t < 90.0 || 270.0 < t < 360.0 ==> m.dcos(t) > 0.0
    ensures 90.0 < t < 270.0 ==> m.dcos(t) < 0.0
  {
    assert CosineSign(m, t);
  }

  function Sq(x: real): (r: real)
    ensures r >= 0.0
  {
    x * x
  }

  function Abs(x: real): (r: real)
    ensures r >= 0.0 && (r == x || r == -x)
  {
    if x < 0.0 then -x else x
  }

  /** The non-negative square root is the only one. */
  lemma SqrtOfSquare(m: Maths, x: real, r: real)
    requires Sound(m) && r >= 0.0 && x == r * r
    ensures m.sqrt(x) == r
  {
    RootAt(m, x);
    SquaresEqual(m.sqrt(x), r);
  }

  /** Two non-negative reals with equal squares are equal. */
  lemma SquaresEqual(s: real, r: real)
    requires s >= 0.0 && r >= 0.0 && s * s == r * r
    ensures s == r
  {
    if s > r {
      ProductPositive(s - r, s + r);
    } else if s < r {
      ProductPositive(r - s, r + s);
    }
  }

  lemma ProductPositive(x: real, y: real)
    requires x > 0.0 && y > 0.0
    ensures x * y > 0.0
  {
  }

  /** Neither sine nor cosine leaves [-1, 1]. */
  lemma TrigBounded(m: Maths, t: real)
    requires Sound(m)
    ensures Sq(m.dcos(t)) <= 1.0 && Sq(m.dsin(t)) <= 1.0
    ensures Abs(m.dcos(t)) <= 1.0 && Abs(m.dsin(t)) <= 1.0
  {
    var c, s := m.dcos(t), m.dsin(t);
    UnitAt(m, t);
    assert Abs(c) * Abs(c) == c * c && Abs(s) * Abs(s) == s * s;
    SquareMonotone(Abs(c), 1.0);
    SquareMonotone(Abs(s), 1.0);
  }

  /** Between non-negative reals, squaring keeps the order. */
  lemma SquareMonotone(u: real, v: real)
    requires u >= 0.0 && v >= 0.0 && u * u <= v * v
    ensures u <= v
  {
    if u > v {
      ProductPositive(u - v, u + v);
    }
  }

  /** The two roots `.5 * (-B ± s) / A` of `A·x² + B·x + C`, where `s² = B² − 4AC`:
      each is a root, the `+` one is the larger when `A > 0`, and they sum to `-B/A`. */
  lemma QuadraticRoots(qa: real, qb: real, qc: real, s: real)
    requires qa != 0.0 && s * s == qb * qb - 4.0 * qa * qc
    ensures var hi, lo := 0.5 * (-qb + s) / qa, 0.5 * (-qb - s) / qa;
      && qa * hi * hi + qb * hi + qc == 0.0
      && qa * lo * lo + qb * lo + qc == 0.0
      && hi + lo == -qb / qa
      && (qa > 0.0 && s >= 0.0 ==> hi >= lo)
  {
    var hi, lo := 0.5 * (-qb + s) / qa, 0.5 * (-qb - s) / qa;
    assert 2.0 * qa * hi == -qb + s;
    assert 2.0 * qa * lo == -qb - s;
    RootOfSquare(qa, qb, qc, s, hi);
    RootOfSquare(qa, qb, qc, -s, lo);
    if qa > 0.0 && s >= 0.0 {
      assert 2.0 * qa * (hi - lo) == 2.0 * s;
    }
  }

  lemma RootOfSquare(qa: real, qb: real, qc: real, s: real, x: real)
    requires qa != 0.0 && s * s == qb * qb - 4.0 * qa * qc
    requires 2.0 * qa * x == -qb + s
    ensures qa * x * x + qb * x + qc == 0.0
  {
    var u := 2.0 * qa * x + qb;
    assert u == s;
    calc {
      4.0 * qa * (qa * x * x + qb * x + qc);
      u * u - (qb * qb - 4.0 * qa * qc);
      s * s - s * s;
      0.0;
    }
  }

  /** With the roots `hi` and `lo` of a quadratic with `A ≠ 0`, the polynomial factors as
      `A·(x − hi)·(x − lo)`: so these are its only roots, and where it is negative (for
      `A > 0`), `x` lies strictly between them. */
  lemma QuadraticFactors(qa: real, qb: real, qc: real, s: real, x: real)
    requires qa != 0.0 && s * s == qb * qb - 4.0 * qa * qc
    ensures var hi, lo := 0.5 * (-qb + s) / qa, 0.5 * (-qb - s) / qa;
      qa * x * x + qb * x + qc == qa * (x - hi) * (x - lo)
  {
    var hi, lo := 0.5 * (-qb + s) / qa, 0.5 * (-qb - s) / qa;
    QuadraticRoots(qa, qb, qc, s);
    assert 2.0 * qa * hi == -qb + s;
    assert 2.0 * qa * lo == -qb - s;
    assert 4.0 * qa * qa * hi * lo == qb * qb - s * s by {
      assert (2.0 * qa * hi) * (2.0 * qa * lo) == (-qb + s) * (-qb - s);
    }
    assert qa * hi * lo == qc by {
      assert 4.0 * qa * (qa * hi * lo) == 4.0 * qa * qc;
    }
    assert qa * (hi + lo) == -qb;
  }
}
