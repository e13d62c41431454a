/** The rotated ellipse of a planet's orbit, centred on the origin (`Orbit` in
    assets/Seasons.js), and its intersections with vertical and horizontal lines. */
module OrbitGeometry {
  import opened Maths
  import opened Optional
  import opened Shapes

  const DefaultAxis: real := 200.0
  const DefaultRotation: real := 0.0

  /** Semi-axes `a`, `b`, rotation `rot` in degrees, and the coefficients the constructor
      precomputes from them: cos and sin of the rotation, their squares, 1/a² and 1/b². */
  datatype Orbit = Orbit(a: real, b: real, rot: real,
                         cosR: real, sinR: real, cosR2: real, sinR2: real,
                         invA2: real, invB2: real)

  /** The coefficients of `o` are the ones its constructor computes from a, b and rot. */
  predicate Valid(m: Maths, o: Orbit)
  {
    && o.a > 0.0 && o.b > 0.0
    && o.cosR == m.dcos(o.rot) && o.sinR == m.dsin(o.rot)
    && o.cosR2 == o.cosR * o.cosR && o.sinR2 == o.sinR * o.sinR
    && o.invA2 == 1.0 / (o.a * o.a) && o.invB2 == 1.0 / (o.b * o.b)
  }

  /** The `Orbit` constructor; an absent argument takes its default (200, 200, 0). */
  function NewOrbit(m: Maths, a: Option<real>, b: Option<real>, rot: Option<real>): (o: Orbit)
    requires a.GetOr(DefaultAxis) > 0.0 && b.GetOr(DefaultAxis) > 0.0
    ensures Valid(m, o)
    ensures o.a == a.GetOr(DefaultAxis) && o.b == b.GetOr(DefaultAxis)
    ensures o.rot == rot.GetOr(DefaultRotation)
    ensures Sound(m) ==> o.cosR2 + o.sinR2 == 1.0
    ensures o.invA2 > 0.0 && o.invB2 > 0.0
    ensures o.invA2 * o.a * o.a == 1.0 && o.invB2 * o.b * o.b == 1.0
  {
    var a, b, rot := a.GetOr(DefaultAxis), b.GetOr(DefaultAxis), rot.GetOr(DefaultRotation);
    var c, s := m.dcos(rot), m.dsin(rot);
    ProductPositive(a, a);
    ProductPositive(b, b);
    UnitAt(m, rot);
    Orbit(a, b, rot, c, s, c * c, s * s, 1.0 / (a * a), 1.0 / (b * b))
  }

  lemma ValidFacts(m: Maths, o: Orbit)
    requires Sound(m) && Valid(m, o)
    ensures o.cosR2 + o.sinR2 == 1.0 && o.cosR2 >= 0.0 && o.sinR2 >= 0.0
    ensures o.invA2 > 0.0 && o.invB2 > 0.0
    ensures o.invA2 * (o.a * o.a) == 1.0 && o.invB2 * (o.b * o.b) == 1.0
  {
    ProductPositive(o.a, o.a);
    ProductPositive(o.b, o.b);
    UnitAt(m, o.rot);
  }

  /** The left-hand side of the ellipse equation
      `(X·cos r + Y·sin r)²/a² + (X·sin r − Y·cos r)²/b²`, with the stored 1/a² and 1/b². */
  function Form(o: Orbit, x: real, y: real): real
  {
    Sq(x * o.cosR + y * o.sinR) * o.invA2 + Sq(x * o.sinR - y * o.cosR) * o.invB2
  }

  /** (x, y) lies on the orbit. */
  predicate OnEllipse(o: Orbit, x: real, y: real)
  {
    Form(o, x, y) == 1.0
  }

  /** With the coefficients of a valid orbit, `Form` is the ellipse equation written
      with the semi-axes themselves. */
  lemma FormInAxes(m: Maths, o: Orbit, x: real, y: real)
    requires Sound(m) && Valid(m, o)
    ensures Form(o, x, y) == Sq(x * o.cosR + y * o.sinR) / (o.a * o.a)
                           + Sq(x * o.sinR - y * o.cosR) / (o.b * o.b)
  {
    ValidFacts(m, o);
  }

  /** Without rotation the ellipse equation is `X²/a² + Y²/b² = 1`. */
  lemma UnrotatedForm(o: Orbit, x: real, y: real)
    requires o.cosR == 1.0 && o.sinR == 0.0
    ensures Form(o, x, y) == Sq(x) * o.invA2 + Sq(y) * o.invB2
  {
    assert x * o.cosR + y * o.sinR == x;
    assert x * o.sinR - y * o.cosR == -y;
  }

  /** A quadratic `qa·t² + qb·t + qc`. */
  datatype Quadratic = Quadratic(qa: real, qb: real, qc: real) {
    function Eval(t: real): real
    {
      qa * t * t + qb * t + qc
    }

    function Disc(): real
    {
      qb * qb - 4.0 * qa * qc
    }
  }

  /** The two roots `.5·(−B ± √D)/A`, the `+` one first. */
  function Roots(m: Maths, q: Quadratic): (r: (real, real))
    requires Sound(m) && q.qa > 0.0 && q.Disc() >= 0.0
    ensures q.Eval(r.0) == 0.0 && q.Eval(r.1) == 0.0
    ensures r.0 >= r.1
    ensures r.0 + r.1 == -q.qb / q.qa
  {
    var s := m.sqrt(q.Disc());
    RootAt(m, q.Disc());
    QuadraticRoots(q.qa, q.qb, q.qc, s);
    (0.5 * (-q.qb + s) / q.qa, 0.5 * (-q.qb - s) / q.qa)
  }

  /** A quadratic with `qa > 0` and a discriminant that is not negative has no roots but
      the two of `Roots`, and it is negative exactly strictly between them. */
  lemma {:induction false} RootsAreAll(m: Maths, q: Quadratic, t: real)
    requires Sound(m) && q.qa > 0.0 && q.Disc() >= 0.0
    ensures q.Eval(t) == 0.0 <==> (t == Roots(m, q).0 || t == Roots(m, q).1)
    ensures q.Eval(t) < 0.0 <==> Roots(m, q).1 < t < Roots(m, q).0
  {
    var s := m.sqrt(q.Disc());
    var hi, lo := Roots(m, q).0, Roots(m, q).1;
    QuadraticFactors(q.qa, q.qb, q.qc, s, t);
    assert q.Eval(t) == q.qa * ((t - hi) * (t - lo));
    SignOfProduct(q.qa, (t - hi) * (t - lo));
    SignOfProduct(t - hi, t - lo);
  }

  lemma SignOfProduct(x: real, y: real)
    ensures x * y == 0.0 <==> x == 0.0 || y == 0.0
    ensures x * y < 0.0 <==> (x < 0.0 && y > 0.0) || (x > 0.0 && y < 0.0)
  {
    if x > 0.0 && y > 0.0 {
      ProductPositive(x, y);
    } else if x < 0.0 && y < 0.0 {
      ProductPositive(-x, -y);
    } else if x > 0.0 && y < 0.0 {
      ProductPositive(x, -y);
    } else if x < 0.0 && y > 0.0 {
      ProductPositive(-x, y);
    }
  }

  /** The quadratic in Y whose roots are the orbit's points on the line `x = X`
      (the coefficients of `ell_Y`). */
  function YQuadratic(o: Orbit, x: real): Quadratic
  {
    Quadratic(o.sinR2 * o.invA2 + o.cosR2 * o.invB2,
              2.0 * x * o.cosR * o.sinR * (o.invA2 - o.invB2),
              x * x * (o.cosR2 * o.invA2 + o.sinR2 * o.invB2) - 1.0)
  }

  /** The quadratic in X whose roots are the orbit's points on the line `y = Y`
      (the coefficients of `ell_X`). */
  function XQuadratic(o: Orbit, y: real): Quadratic
  {
    Quadratic(o.cosR2 * o.invA2 + o.sinR2 * o.invB2,
              2.0 * y * o.cosR * o.sinR * (o.invA2 - o.invB2),
              y * y * (o.sinR2 * o.invA2 + o.cosR2 * o.invB2) - 1.0)
  }

  /** The `ell_Y` coefficients are the ellipse equation with X fixed. */
  lemma YQuadraticIsEllipse(o: Orbit, x: real, y: real)
    requires o.cosR2 == o.cosR * o.cosR && o.sinR2 == o.sinR * o.sinR
    ensures YQuadratic(o, x).Eval(y) == Form(o, x, y) - 1.0
  {
  }

  /** The `ell_X` coefficients are the ellipse equation with Y fixed. */
  lemma XQuadraticIsEllipse(o: Orbit, x: real, y: real)
    requires o.cosR2 == o.cosR * o.cosR && o.sinR2 == o.sinR * o.sinR
    ensures XQuadratic(o, y).Eval(x) == Form(o, x, y) - 1.0
  {
  }

  /** Both leading coefficients are positive on a valid orbit, so `ell_Y`/`ell_X` never
      divide by zero. */
  lemma LeadingPositive(m: Maths, o: Orbit, x: real, y: real)
    requires Sound(m) && Valid(m, o)
    ensures YQuadratic(o, x).qa > 0.0 && XQuadratic(o, y).qa > 0.0
  {
    ValidFacts(m, o);
    WeightedPositive(o.sinR2, o.cosR2, o.invA2, o.invB2, YQuadratic(o, x).qa);
    WeightedPositive(o.cosR2, o.sinR2, o.invA2, o.invB2, XQuadratic(o, y).qa);
  }

  /** A convex combination of two positive numbers is positive. */
  lemma WeightedPositive(u: real, v: real, p: real, q: real, w: real)
    requires u >= 0.0 && v >= 0.0 && u + v == 1.0 && p > 0.0 && q > 0.0 && w == u * p + v * q
    ensures w > 0.0
  {
    WeightedAtLeast(u, v, p, q, if p < q then p else q);
  }

  /** A convex combination of two numbers is at least any common lower bound. */
  lemma WeightedAtLeast(u: real, v: real, p: real, q: real, lo: real)
    requires u >= 0.0 && v >= 0.0 && u + v == 1.0 && p >= lo && q >= lo
    ensures u * p + v * q >= lo
  {
    assert u * (p - lo) >= 0.0 by { NonNegativeProduct(u, p - lo); }
    assert v * (q - lo) >= 0.0 by { NonNegativeProduct(v, q - lo); }
  }

  lemma NonNegativeProduct(x: real, y: real)
    requires x >= 0.0 && y >= 0.0
    ensures x * y >= 0.0
  {
    if x > 0.0 && y > 0.0 {
      ProductPositive(x, y);
    }
  }

  /** The two ellipse discriminants in closed form: `D = 4·(A − X²/(a²b²))`, so the line
      `x = X` meets the orbit iff `X² ≤ a²·cos²r + b²·sin²r` (and symmetrically). */
  lemma DiscriminantsClosedForm(m: Maths, o: Orbit, x: real, y: real)
    requires Sound(m) && Valid(m, o)
    ensures YQuadratic(o, x).Disc() == 4.0 * (YQuadratic(o, x).qa - o.invA2 * o.invB2 * x * x)
    ensures XQuadratic(o, y).Disc() == 4.0 * (XQuadratic(o, y).qa - o.invA2 * o.invB2 * y * y)
  {
    ValidFacts(m, o);
    var p, q, c2, s2 := o.invA2, o.invB2, o.cosR2, o.sinR2;
    assert (s2 * p + c2 * q) * (c2 * p + s2 * q) == c2 * s2 * (p - q) * (p - q) + p * q by {
      assert s2 * s2 + c2 * c2 == 1.0 - 2.0 * s2 * c2 by {
        assert (s2 + c2) * (s2 + c2) == 1.0;
      }
    }
    assert Sq(o.cosR * o.sinR) == c2 * s2;
  }

  /** `ell_Y`: the two Y where the vertical line `x = X` meets the orbit, larger first. */
  function EllY(m: Maths, o: Orbit, x: real): (r: (real, real))
    requires Sound(m) && Valid(m, o) && YQuadratic(o, x).Disc() >= 0.0
    ensures YQuadratic(o, x).Eval(r.0) == 0.0 && YQuadratic(o, x).Eval(r.1) == 0.0
    ensures OnEllipse(o, x, r.0) && OnEllipse(o, x, r.1)
    ensures r.0 >= r.1
  {
    LeadingPositive(m, o, x, 0.0);
    var r := Roots(m, YQuadratic(o, x));
    YQuadraticIsEllipse(o, x, r.0);
    YQuadraticIsEllipse(o, x, r.1);
    r
  }

  /** `ell_X`: the two X where the horizontal line `y = Y` meets the orbit, larger first. */
  function EllX(m: Maths, o: Orbit, y: real): (r: (real, real))
    requires Sound(m) && Valid(m, o) && XQuadratic(o, y).Disc() >= 0.0
    ensures XQuadratic(o, y).Eval(r.0) == 0.0 && XQuadratic(o, y).Eval(r.1) == 0.0
    ensures OnEllipse(o, r.0, y) && OnEllipse(o, r.1, y)
    ensures r.0 >= r.1
  {
    LeadingPositive(m, o, 0.0, y);
    var r := Roots(m, XQuadratic(o, y));
    XQuadraticIsEllipse(o, r.0, y);
    XQuadraticIsEllipse(o, r.1, y);
    r
  }

  /** The two values of `ell_Y` are the only points of the orbit on the line `x = X`,
      and Y lies strictly between them exactly when (X, Y) is inside the orbit. */
  lemma {:induction false} EllYAllIntersections(m: Maths, o: Orbit, x: real, y: real)
    requires Sound(m) && Valid(m, o) && YQuadratic(o, x).Disc() >= 0.0
    ensures OnEllipse(o, x, y) <==> (y == EllY(m, o, x).0 || y == EllY(m, o, x).1)
    ensures Form(o, x, y) < 1.0 <==> EllY(m, o, x).1 < y < EllY(m, o, x).0
  {
    LeadingPositive(m, o, x, 0.0);
    YQuadraticIsEllipse(o, x, y);
    RootsAreAll(m, YQuadratic(o, x), y);
  }

  /** The two values of `ell_X` are the only points of the orbit on the line `y = Y`,
      and X lies strictly between them exactly when (X, Y) is inside the orbit. */
  lemma {:induction false} EllXAllIntersections(m: Maths, o: Orbit, x: real, y: real)
    requires Sound(m) && Valid(m, o) && XQuadratic(o, y).Disc() >= 0.0
    ensures OnEllipse(o, x, y) <==> (x == EllX(m, o, y).0 || x == EllX(m, o, y).1)
    ensures Form(o, x, y) < 1.0 <==> EllX(m, o, y).1 < x < EllX(m, o, y).0
  {
    LeadingPositive(m, o, 0.0, y);
    XQuadraticIsEllipse(o, x, y);
    RootsAreAll(m, XQuadratic(o, y), x);
  }

  /** The quadratic in X whose roots are the orbit's points on the line `y = c·x + d`
      (the coefficients `Sun.Ls` computes). */
  function LineQuadratic(o: Orbit, c: real, d: real): Quadratic
  {
    Quadratic(Sq(c * o.sinR + o.cosR) * o.invA2 + Sq(c * o.cosR - o.sinR) * o.invB2,
              2.0 * d * (o.cosR * o.sinR * (o.invA2 - o.invB2) + c * (o.sinR2 * o.invA2 + o.cosR2 * o.invB2)),
              d * d * (o.sinR2 * o.invA2 + o.cosR2 * o.invB2) - 1.0)
  }

  /** On a valid orbit the leading coefficient of `LineQuadratic` is positive, so the
      `Ls` roots never divide by zero. */
  lemma LineLeadingPositive(m: Maths, o: Orbit, c: real, d: real)
    requires Sound(m) && Valid(m, o)
    ensures LineQuadratic(o, c, d).qa > 0.0
  {
    ValidFacts(m, o);
    SquaresOfLine(o.cosR, o.sinR, o.cosR2, o.sinR2, c);
    PositiveWeights(Sq(c * o.sinR + o.cosR), Sq(c * o.cosR - o.sinR), o.invA2, o.invB2);
  }

  lemma SquaresOfLine(k: real, l: real, k2: real, l2: real, c: real)
    requires k2 == k * k && l2 == l * l && k2 + l2 == 1.0
    ensures Sq(c * l + k) + Sq(c * k - l) == c * c + 1.0
  {
    assert Sq(c * l + k) + Sq(c * k - l) == (c * c + 1.0) * (k * k + l * l);
  }

  /** A weighted sum with weights of total at least one and positive values is positive. */
  lemma PositiveWeights(u: real, v: real, p: real, q: real)
    requires u >= 0.0 && v >= 0.0 && u + v >= 1.0 && p > 0.0 && q > 0.0
    ensures u * p + v * q > 0.0
  {
    var lo := if p < q then p else q;
    NonNegativeProduct(u, p - lo);
    NonNegativeProduct(v, q - lo);
    NonNegativeProduct(u + v - 1.0, lo);
  }

  /** The `Ls` coefficients are the orbit's equation along the line `y = c·x + d`. */
  lemma LineQuadraticIsEllipse(o: Orbit, c: real, d: real, x: real, y: real)
    requires o.cosR2 == o.cosR * o.cosR && o.sinR2 == o.sinR * o.sinR
    requires y == c * x + d
    ensures LineQuadratic(o, c, d).Eval(x) == Form(o, x, y) - 1.0
  {
    LineEval(o, c, d, x);
    LineIdentity(o.cosR, o.sinR, o.cosR2, o.sinR2, o.invA2, o.invB2, c, d, x, y);
  }

  /** (X, X·c + d) lies on the orbit. */
  predicate OnLine(o: Orbit, c: real, d: real, x: real)
  {
    OnEllipse(o, x, x * c + d)
  }

  /** The two X where the line `y = c·x + d` meets the orbit, larger first (the roots
      `Sun.Ls` chooses between). */
  function EllLine(m: Maths, o: Orbit, c: real, d: real): (r: (real, real))
    requires Sound(m) && Valid(m, o) && LineQuadratic(o, c, d).Disc() >= 0.0
    ensures LineQuadratic(o, c, d).qa > 0.0
    ensures OnLine(o, c, d, r.0) && OnLine(o, c, d, r.1)
    ensures r.0 >= r.1
  {
    LineLeadingPositive(m, o, c, d);
    var r := Roots(m, LineQuadratic(o, c, d));
    LineQuadraticIsEllipse(o, c, d, r.0, r.0 * c + d);
    LineQuadraticIsEllipse(o, c, d, r.1, r.1 * c + d);
    r
  }

  /** The two values of `EllLine` are the only points of the orbit on the line, and a
      point of the line is inside the orbit exactly when it lies strictly between them. */
  lemma {:induction false} EllLineAllIntersections(m: Maths, o: Orbit, c: real, d: real, x: real)
    requires Sound(m) && Valid(m, o) && LineQuadratic(o, c, d).Disc() >= 0.0
    ensures OnLine(o, c, d, x) <==> (x == EllLine(m, o, c, d).0 || x == EllLine(m, o, c, d).1)
    ensures Form(o, x, x * c + d) < 1.0 <==> EllLine(m, o, c, d).1 < x < EllLine(m, o, c, d).0
  {
    LineLeadingPositive(m, o, c, d);
    LineQuadraticIsEllipse(o, c, d, x, x * c + d);
    RootsAreAll(m, LineQuadratic(o, c, d), x);
  }

  /** Every point of the orbit on the line lies between the two values of `EllLine`. */
  lemma EllLineExtremes(m: Maths, o: Orbit, c: real, d: real)
    requires Sound(m) && Valid(m, o) && LineQuadratic(o, c, d).Disc() >= 0.0
    ensures forall x :: OnLine(o, c, d, x) ==> EllLine(m, o, c, d).1 <= x <= EllLine(m, o, c, d).0
  {
    forall x | OnLine(o, c, d, x)
      ensures EllLine(m, o, c, d).1 <= x <= EllLine(m, o, c, d).0
    {
      EllLineAllIntersections(m, o, c, d, x);
    }
  }

  /** `p` lies on the line `y = x·c + d`. */
  predicate OnLineXY(c: real, d: real, p: Point)
  {
    p.y == p.x * c + d
  }

  /** The point of the orbit on the line `y = x·c + d` with the smaller X when `left`,
      the larger otherwise. */
  function LinePoint(m: Maths, o: Orbit, c: real, d: real, left: bool): (p: Point)
    requires Sound(m) && Valid(m, o) && LineQuadratic(o, c, d).Disc() >= 0.0
    ensures OnEllipse(o, p.x, p.y) && OnLineXY(c, d, p) && OnLine(o, c, d, p.x)
    ensures forall x :: OnLine(o, c, d, x) ==> (left ==> p.x <= x) && (!left ==> p.x >= x)
  {
    var r := EllLine(m, o, c, d);
    EllLineExtremes(m, o, c, d);
    if left then Point(r.1, r.1 * c + d) else Point(r.0, r.0 * c + d)
  }

  /** Of a point strictly inside the orbit on the line, the left point of `LinePoint` is
      to its left and the right one to its right. */
  lemma LinePointSides(m: Maths, o: Orbit, c: real, d: real, x: real, y: real)
    requires Sound(m) && Valid(m, o) && y == x * c + d && Form(o, x, y) < 1.0
    ensures LineQuadratic(o, c, d).Disc() > 0.0
    ensures LinePoint(m, o, c, d, true).x < x < LinePoint(m, o, c, d, false).x
  {
    InsideCrosses(m, o, c, d, x, y);
    EllLineAllIntersections(m, o, c, d, x);
  }

  /** A line through a point strictly inside the orbit crosses it twice. */
  lemma InsideCrosses(m: Maths, o: Orbit, c: real, d: real, x: real, y: real)
    requires Sound(m) && Valid(m, o) && y == x * c + d && Form(o, x, y) < 1.0
    ensures LineQuadratic(o, c, d).Disc() > 0.0
  {
    LineLeadingPositive(m, o, c, d);
    LineQuadraticIsEllipse(o, c, d, x, y);
    var q := LineQuadratic(o, c, d);
    NegativeValueCrosses(q.qa, q.qb, q.qc, x);
  }

  /** A quadratic with positive leading coefficient and a negative value has two roots. */
  lemma NegativeValueCrosses(qa: real, qb: real, qc: real, t: real)
    requires qa > 0.0 && qa * t * t + qb * t + qc < 0.0
    ensures qb * qb - 4.0 * qa * qc > 0.0
  {
    var e := qa * t * t + qb * t + qc;
    assert qb * qb - 4.0 * qa * qc == Sq(2.0 * qa * t + qb) - 4.0 * (qa * e);
    ProductPositive(qa, -e);
  }

  /** `LineQuadratic` evaluated, its coefficients written out. */
  lemma LineEval(o: Orbit, c: real, d: real, x: real)
    ensures LineQuadratic(o, c, d).Eval(x)
         == (Sq(c * o.sinR + o.cosR) * o.invA2 + Sq(c * o.cosR - o.sinR) * o.invB2) * x * x
            + 2.0 * d * (o.cosR * o.sinR * (o.invA2 - o.invB2) + c * (o.sinR2 * o.invA2 + o.cosR2 * o.invB2)) * x
            + (d * d * (o.sinR2 * o.invA2 + o.cosR2 * o.invB2) - 1.0)
  {
  }

  /** The polynomial identity behind `LineQuadraticIsEllipse`, on plain reals. */
  lemma LineIdentity(k: real, l: real, k2: real, l2: real, p: real, q: real, c: real, d: real, x: real, y: real)
    requires k2 == k * k && l2 == l * l
    requires y == c * x + d
    ensures (Sq(c * l + k) * p + Sq(c * k - l) * q) * x * x
            + 2.0 * d * (k * l * (p - q) + c * (l2 * p + k2 * q)) * x
            + (d * d * (l2 * p + k2 * q) - 1.0)
         == Sq(x * k + y * l) * p + Sq(x * l - y * k) * q - 1.0
  {
    ExpandedLineIdentity(k, l, p, q, c, d, x);
  }

  /** `LineIdentity` with every square written out and the line substituted. */
  lemma ExpandedLineIdentity(k: real, l: real, p: real, q: real, c: real, d: real, x: real)
    ensures ((c * l + k) * (c * l + k) * p + (c * k - l) * (c * k - l) * q) * x * x
            + 2.0 * d * (k * l * (p - q) + c * (l * l * p + k * k * q)) * x
            + (d * d * (l * l * p + k * k * q) - 1.0)
         == (x * k + (c * x + d) * l) * (x * k + (c * x + d) * l) * p
            + (x * l - (c * x + d) * k) * (x * l - (c * x + d) * k) * q - 1.0
  {
  }
}
