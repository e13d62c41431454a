/** The sun inside the orbit (`Sun` in assets/Seasons.js) and the conversion of a solar
    longitude into a point of the orbit, with what is drawn from it: ticks, coverage
    bands and legend labels. */
module SunGeometry {
  import opened Maths
  import opened Optional
  import opened Shapes
  import opened OrbitGeometry

  const DefaultSunRadius: real := 25.0

  /** The sun: its orbit, its drawn radius, its position, and the equinox and solstice
      chords the constructor precomputes (`yEq`, `lineEq`, `xSol`, `lineSol`). */
  datatype Sun = Sun(orbit: Orbit, R: real, x: real, y: real,
                     yEq: (real, real), lineEq: Line,
                     xSol: (real, real), lineSol: Line)

  /** A sun at eccentricity `e` can be built: both its chords meet the orbit (in the
      source a negative discriminant would give NaN chords). */
  predicate Placeable(m: Maths, o: Orbit, e: real)
  {
    && YQuadratic(o, e * o.a * o.cosR).Disc() >= 0.0
    && XQuadratic(o, e * o.a * o.sinR).Disc() >= 0.0
  }

  /** The fields of `s` are the ones its constructor computes from its orbit and position. */
  ghost predicate Valid(m: Maths, s: Sun)
  {
    && Sound(m) && OrbitGeometry.Valid(m, s.orbit)
    && YQuadratic(s.orbit, s.x).Disc() >= 0.0 && XQuadratic(s.orbit, s.y).Disc() >= 0.0
    && s.yEq == EllY(m, s.orbit, s.x) && s.xSol == EllX(m, s.orbit, s.y)
    && s.lineEq == Line(s.x, s.yEq.0, s.x, s.yEq.1)
    && s.lineSol == Line(s.xSol.0, s.y, s.xSol.1, s.y)
  }

  /** The `Sun` constructor: the sun sits at `e·a·(cos r, sin r)` on the major axis; the
      equinox line is the vertical chord through it and the solstice line the horizontal
      one, each ending on the orbit, upper (right) end first. */
  function NewSun(m: Maths, o: Orbit, e: real, R: Option<real>): (s: Sun)
    requires Sound(m) && OrbitGeometry.Valid(m, o) && Placeable(m, o, e)
    ensures Valid(m, s)
    ensures s.orbit == o && s.R == R.GetOr(DefaultSunRadius)
    ensures s.x == e * o.a * o.cosR && s.y == e * o.a * o.sinR
    ensures s.lineEq.x1 == s.x && s.lineEq.x2 == s.x && s.lineEq.y1 >= s.lineEq.y2
    ensures OnEllipse(o, s.x, s.lineEq.y1) && OnEllipse(o, s.x, s.lineEq.y2)
    ensures s.lineSol.y1 == s.y && s.lineSol.y2 == s.y && s.lineSol.x1 >= s.lineSol.x2
    ensures OnEllipse(o, s.lineSol.x1, s.y) && OnEllipse(o, s.lineSol.x2, s.y)
  {
    var x, y := e * o.a * o.cosR, e * o.a * o.sinR;
    PlaceableChords(m, o, e);
    var yEq := EllY(m, o, x);
    var xSol := EllX(m, o, y);
    Sun(o, R.GetOr(DefaultSunRadius), x, y, yEq, Line(x, yEq.0, x, yEq.1), xSol, Line(xSol.0, y, xSol.1, y))
  }

  /** `Placeable` unfolded: both chords through the sun meet the orbit. */
  lemma PlaceableChords(m: Maths, o: Orbit, e: real)
    requires Placeable(m, o, e)
    ensures YQuadratic(o, e * o.a * o.cosR).Disc() >= 0.0
    ensures XQuadratic(o, e * o.a * o.sinR).Disc() >= 0.0
  {
  }

  /** The sun at eccentricity `e` is on the ellipse of "radius" |e|: its `Form` is e². */
  lemma SunForm(m: Maths, o: Orbit, e: real)
    requires Sound(m) && OrbitGeometry.Valid(m, o)
    ensures Form(o, e * o.a * o.cosR, e * o.a * o.sinR) == e * e
  {
    ValidFacts(m, o);
    var x, y := e * o.a * o.cosR, e * o.a * o.sinR;
    assert x * o.cosR + y * o.sinR == e * o.a * (o.cosR2 + o.sinR2);
    assert x * o.sinR - y * o.cosR == 0.0;
    assert Sq(e * o.a) * o.invA2 == e * e * (o.invA2 * (o.a * o.a));
  }

  /** For |e| ≤ 1 both chords through the sun meet the orbit: the constructor's
      precondition holds for every eccentricity of a real orbit. */
  lemma {:induction false} PlaceableWithinUnit(m: Maths, o: Orbit, e: real)
    requires Sound(m) && OrbitGeometry.Valid(m, o) && -1.0 <= e <= 1.0
    ensures Placeable(m, o, e)
  {
    EquinoxChordMeets(m, o, e);
    SolsticeChordMeets(m, o, e);
  }

  lemma EquinoxChordMeets(m: Maths, o: Orbit, e: real)
    requires Sound(m) && OrbitGeometry.Valid(m, o) && -1.0 <= e <= 1.0
    ensures YQuadratic(o, e * o.a * o.cosR).Disc() >= 0.0
  {
    ValidFacts(m, o);
    var p, q, x := o.invA2, o.invB2, e * o.a * o.cosR;
    DiscriminantsClosedForm(m, o, x, 0.0);
    ChordTerm(p, q, e, o.a, o.cosR, o.cosR2, x);
    ChordDiscriminant(p, q, e, o.sinR2, o.cosR2, YQuadratic(o, x).qa, p * q * x * x, YQuadratic(o, x).Disc());
  }

  lemma SolsticeChordMeets(m: Maths, o: Orbit, e: real)
    requires Sound(m) && OrbitGeometry.Valid(m, o) && -1.0 <= e <= 1.0
    ensures XQuadratic(o, e * o.a * o.sinR).Disc() >= 0.0
  {
    ValidFacts(m, o);
    var p, q, y := o.invA2, o.invB2, e * o.a * o.sinR;
    DiscriminantsClosedForm(m, o, 0.0, y);
    ChordTerm(p, q, e, o.a, o.sinR, o.sinR2, y);
    ChordDiscriminant(p, q, e, o.cosR2, o.sinR2, XQuadratic(o, y).qa, p * q * y * y, XQuadratic(o, y).Disc());
  }

  /** `4·(s2·p + c2·q − e²·c2·q) = 4·(s2·p + (1 − e²)·c2·q)`, which no factor makes negative. */
  lemma ChordDiscriminant(p: real, q: real, e: real, s2: real, c2: real, qa: real, w: real, d: real)
    requires p > 0.0 && q > 0.0 && s2 >= 0.0 && c2 >= 0.0 && -1.0 <= e <= 1.0
    requires qa == s2 * p + c2 * q && w == e * e * c2 * q && d == 4.0 * (qa - w)
    ensures d >= 0.0
  {
    assert 1.0 - e * e >= 0.0 by { NonNegativeProduct(1.0 - e, 1.0 + e); }
    assert d == 4.0 * (s2 * p + (1.0 - e * e) * c2 * q);
    NonNegativeProduct(s2, p);
    NonNegativeProduct(1.0 - e * e, c2);
    NonNegativeProduct((1.0 - e * e) * c2, q);
  }

  lemma ChordTerm(p: real, q: real, e: real, a: real, c: real, c2: real, x: real)
    requires p * (a * a) == 1.0 && c2 == c * c && x == e * a * c
    ensures p * q * x * x == e * e * c2 * q
  {
    assert x * x == e * e * (a * a) * c2;
    assert p * q * x * x == (p * (a * a)) * q * e * e * c2;
  }

  /** The slope `c = cos/sin` of the line through the sun at solar longitude `angle`. */
  function Slope(m: Maths, angle: real): real
    requires m.dsin(angle) != 0.0
  {
    m.dcos(angle) / m.dsin(angle)
  }

  /** The intercept `d = sun.y − sun.x·c` of that line. */
  function Intercept(m: Maths, s: Sun, angle: real): real
    requires m.dsin(angle) != 0.0
  {
    s.y - s.x * Slope(m, angle)
  }

  /** The quadratic of `Sun.Ls` at `angle`: the orbit along the line through the sun
      with slope `c = cos/sin`, that is `Y = c·X + d` with `d = sun.y − sun.x·c`. */
  function RayQuadratic(m: Maths, s: Sun, angle: real): Quadratic
    requires m.dsin(angle) != 0.0
  {
    LineQuadratic(s.orbit, Slope(m, angle), Intercept(m, s, angle))
  }

  /** `p` is on the line through the sun with direction `(sin, cos)` of `angle`. */
  predicate Aligned(m: Maths, s: Sun, angle: real, p: Point)
  {
    (p.x - s.x) * m.dcos(angle) == (p.y - s.y) * m.dsin(angle)
  }

  /** `Sun.Ls(angle)` gives a number: the two special angles, or a sine that is not zero
      (else the slope divides by zero) and a discriminant that is not negative (else NaN). */
  predicate LsDefined(m: Maths, s: Sun, angle: real)
  {
    angle == 0.0 || angle == 180.0 || (m.dsin(angle) != 0.0 && RayQuadratic(m, s, angle).Disc() >= 0.0)
  }

  /** The line of `Ls` at `angle` crosses the orbit at `X`. */
  predicate OnRay(m: Maths, s: Sun, angle: real, x: real)
    requires m.dsin(angle) != 0.0
  {
    OnLine(s.orbit, Slope(m, angle), Intercept(m, s, angle), x)
  }

  /** `Sun.Ls`: the point of the orbit at solar longitude `angle`. 0 and 180 take the
      lower and upper ends of the equinox chord; any other angle intersects the orbit
      with the line through the sun of slope `cos/sin`, taking the root with `−√D`
      (the leftmost intersection) when `angle ≤ 180` and `+√D` (the rightmost) otherwise. */
  function Ls(m: Maths, s: Sun, angle: real): (p: Point)
    requires Sound(m) && OrbitGeometry.Valid(m, s.orbit) && LsDefined(m, s, angle)
    ensures angle == 0.0 ==> p == Point(s.x, s.yEq.1)
    ensures angle == 180.0 ==> p == Point(s.x, s.yEq.0)
  {
    if angle == 0.0 then
      Point(s.x, s.yEq.1)
    else if angle == 180.0 then
      Point(s.x, s.yEq.0)
    else
      var c := Slope(m, angle);
      var d := Intercept(m, s, angle);
      assert RayQuadratic(m, s, angle) == LineQuadratic(s.orbit, c, d);
      LinePoint(m, s.orbit, c, d, angle <= 180.0)
  }

  /** Away from 0 and 180, `Ls` is the point of the orbit on the line `Y = c·X + d`
      through the sun with the smallest X when `angle ≤ 180` and the largest otherwise
      (so the root with `−√D`, respectively `+√D`, as the roots of `EllLine` are ordered). */
  lemma LsOnRay(m: Maths, s: Sun, angle: real)
    requires Sound(m) && OrbitGeometry.Valid(m, s.orbit) && LsDefined(m, s, angle)
    requires angle != 0.0 && angle != 180.0
    ensures OnRay(m, s, angle, Ls(m, s, angle).x)
    ensures OnLineXY(Slope(m, angle), Intercept(m, s, angle), Ls(m, s, angle))
    ensures Aligned(m, s, angle, Ls(m, s, angle))
    ensures forall x :: OnRay(m, s, angle, x) ==>
      (angle <= 180.0 ==> Ls(m, s, angle).x <= x) && (angle > 180.0 ==> Ls(m, s, angle).x >= x)
  {
    var c, d := Slope(m, angle), Intercept(m, s, angle);
    assert RayQuadratic(m, s, angle) == LineQuadratic(s.orbit, c, d);
    var p := LinePoint(m, s.orbit, c, d, angle <= 180.0);
    assert Ls(m, s, angle) == p;
    ThroughSun(m, s, angle, p);
  }

  /** Every value of `Ls` is on the line through the sun with direction `(sin, cos)` of
      the angle. */
  lemma LsAligned(m: Maths, s: Sun, angle: real)
    requires Sound(m) && OrbitGeometry.Valid(m, s.orbit) && LsDefined(m, s, angle)
    ensures Aligned(m, s, angle, Ls(m, s, angle))
  {
    if angle == 0.0 || angle == 180.0 {
      assert Ls(m, s, angle).x - s.x == 0.0;
    } else {
      LsOnRay(m, s, angle);
    }
  }

  /** Every value of `Ls` is a point of the orbit. */
  lemma LsOnOrbit(m: Maths, s: Sun, angle: real)
    requires Valid(m, s) && LsDefined(m, s, angle)
    ensures OnEllipse(s.orbit, Ls(m, s, angle).x, Ls(m, s, angle).y)
  {
    if angle != 0.0 && angle != 180.0 {
      LsOnRay(m, s, angle);
      assert OnLine(s.orbit, Slope(m, angle), Intercept(m, s, angle), Ls(m, s, angle).x);
    }
  }

  /** Seen from `p`, the sun lies ahead in direction `(sin, cos)` of `angle`. */
  predicate SunAhead(m: Maths, s: Sun, angle: real, p: Point)
  {
    (s.x - p.x) * m.dsin(angle) + (s.y - p.y) * m.dcos(angle) > 0.0
  }

  /** The root `Ls` chooses is the right one: for a sun strictly inside the orbit, `Ls`
      is defined at every angle of a turn and the sun lies in direction `(sin, cos)` from
      the point it returns, which is why ticks and bands drawn along `(sin, cos)` point
      inward. */
  lemma {:induction false} SunSeenAlong(m: Maths, s: Sun, angle: real)
    requires Valid(m, s) && Form(s.orbit, s.x, s.y) < 1.0 && 0.0 <= angle < 360.0
    ensures LsDefined(m, s, angle)
    ensures Aligned(m, s, angle, Ls(m, s, angle)) && SunAhead(m, s, angle, Ls(m, s, angle))
  {
    if angle == 0.0 || angle == 180.0 {
      SeenAlongAtEquinox(m, s, angle);
    } else {
      SeenAlongElsewhere(m, s, angle);
    }
  }

  lemma SeenAlongAtEquinox(m: Maths, s: Sun, angle: real)
    requires Valid(m, s) && Form(s.orbit, s.x, s.y) < 1.0 && (angle == 0.0 || angle == 180.0)
    ensures LsDefined(m, s, angle)
    ensures Aligned(m, s, angle, Ls(m, s, angle)) && SunAhead(m, s, angle, Ls(m, s, angle))
  {
    EllYAllIntersections(m, s.orbit, s.x, s.y);
    LsOnOrbit(m, s, angle);
  }

  lemma SeenAlongElsewhere(m: Maths, s: Sun, angle: real)
    requires Valid(m, s) && Form(s.orbit, s.x, s.y) < 1.0
    requires 0.0 < angle < 360.0 && angle != 180.0
    ensures LsDefined(m, s, angle)
    ensures Aligned(m, s, angle, Ls(m, s, angle)) && SunAhead(m, s, angle, Ls(m, s, angle))
  {
    var o := s.orbit;
    SineSignAt(m, angle);
    var c, d := Slope(m, angle), Intercept(m, s, angle);
    LinePointSides(m, o, c, d, s.x, s.y);
    assert RayQuadratic(m, s, angle) == LineQuadratic(o, c, d);
    var p := Ls(m, s, angle);
    assert p == LinePoint(m, o, c, d, angle <= 180.0);
    LsAligned(m, s, angle);
    AheadOnSlope(m, s, angle, p);
  }

  lemma AheadOnSlope(m: Maths, s: Sun, angle: real, p: Point)
    requires Sound(m) && m.dsin(angle) != 0.0
    requires OnLineXY(Slope(m, angle), Intercept(m, s, angle), p)
    requires (p.x < s.x && m.dsin(angle) > 0.0) || (p.x > s.x && m.dsin(angle) < 0.0)
    ensures SunAhead(m, s, angle, p)
  {
    var c := Slope(m, angle);
    assert c * m.dsin(angle) == m.dcos(angle);
    assert s.y - p.y == (s.x - p.x) * c;
    UnitAt(m, angle);
    AlongSlopeSign(m.dsin(angle), m.dcos(angle), c, s.x - p.x, s.y - p.y);
  }

  lemma AlongSlopeSign(sn: real, cs: real, c: real, dx: real, dy: real)
    requires sn * sn + cs * cs == 1.0 && c * sn == cs && dy == dx * c
    requires (dx > 0.0 && sn > 0.0) || (dx < 0.0 && sn < 0.0)
    ensures dx * sn + dy * cs > 0.0
  {
    var sum := dx * sn + dy * cs;
    assert sum * (sn * sn) == dx * sn;
    if sn > 0.0 {
      ProductPositive(sn, sn);
      ProductPositive(dx, sn);
    } else {
      ProductPositive(-sn, -sn);
      ProductPositive(-dx, -sn);
    }
    PositiveFactor(sum, sn * sn);
  }

  /** A factor of a positive product with the other factor positive is positive. */
  lemma PositiveFactor(u: real, v: real)
    requires u * v > 0.0 && v > 0.0
    ensures u > 0.0
  {
    if u <= 0.0 {
      NonNegativeProduct(-u, v);
    }
  }

  /** A point on the line of slope `cos/sin` through the sun is on the line through the
      sun with direction `(sin, cos)`. */
  lemma ThroughSun(m: Maths, s: Sun, angle: real, p: Point)
    requires m.dsin(angle) != 0.0 && OnLineXY(Slope(m, angle), Intercept(m, s, angle), p)
    ensures Aligned(m, s, angle, p)
  {
    var c := Slope(m, angle);
    assert c * m.dsin(angle) == m.dcos(angle);
    assert p.y - s.y == (p.x - s.x) * c;
  }

  /** The orbit with semi-axes a, b, no rotation, and the sun at its centre. */
  function CentredSun(m: Maths, a: real, b: real): (s: Sun)
    requires Sound(m) && a > 0.0 && b > 0.0
    ensures Valid(m, s) && s.x == 0.0 && s.y == 0.0
    ensures s.orbit == NewOrbit(m, Some(a), Some(b), None)
  {
    var o := NewOrbit(m, Some(a), Some(b), None);
    PlaceableWithinUnit(m, o, 0.0);
    NewSun(m, o, 0.0, None)
  }

  /** With no rotation and the sun at the centre, the quarter turns land on the ends of
      the axes: 0 at the bottom (0, −b), 90 on the left (−a, 0), 180 at the top (0, b)
      and 270 on the right (a, 0). */
  lemma {:induction false} CentredQuarterTurns(m: Maths, a: real, b: real)
    requires Sound(m) && a > 0.0 && b > 0.0
    ensures var s := CentredSun(m, a, b);
      && LsDefined(m, s, 0.0) && Ls(m, s, 0.0) == Point(0.0, -b)
      && LsDefined(m, s, 90.0) && Ls(m, s, 90.0) == Point(-a, 0.0)
      && LsDefined(m, s, 180.0) && Ls(m, s, 180.0) == Point(0.0, b)
      && LsDefined(m, s, 270.0) && Ls(m, s, 270.0) == Point(a, 0.0)
  {
    CentredEquinoxes(m, a, b);
    CentredSolstices(m, a, b);
  }

  lemma CentredEquinoxes(m: Maths, a: real, b: real)
    requires Sound(m) && a > 0.0 && b > 0.0
    ensures CentredSun(m, a, b).yEq == (b, -b)
  {
    var s := CentredSun(m, a, b);
    var o := s.orbit;
    assert o.cosR == 1.0 && o.sinR == 0.0;
    assert OnEllipse(o, 0.0, b) && OnEllipse(o, 0.0, -b);
    EllYAllIntersections(m, o, 0.0, b);
    EllYAllIntersections(m, o, 0.0, -b);
  }

  lemma CentredSolstices(m: Maths, a: real, b: real)
    requires Sound(m) && a > 0.0 && b > 0.0
    ensures var s := CentredSun(m, a, b);
      && LsDefined(m, s, 90.0) && Ls(m, s, 90.0) == Point(-a, 0.0)
      && LsDefined(m, s, 270.0) && Ls(m, s, 270.0) == Point(a, 0.0)
  {
    var s := CentredSun(m, a, b);
    var o := s.orbit;
    assert o.cosR == 1.0 && o.sinR == 0.0;
    assert Slope(m, 90.0) == 0.0 && Intercept(m, s, 90.0) == 0.0;
    assert Slope(m, 270.0) == 0.0 && Intercept(m, s, 270.0) == 0.0;
    InsideCrosses(m, o, 0.0, 0.0, 0.0, 0.0);
    assert RayQuadratic(m, s, 90.0) == LineQuadratic(o, 0.0, 0.0);
    assert RayQuadratic(m, s, 270.0) == LineQuadratic(o, 0.0, 0.0);
    assert OnLine(o, 0.0, 0.0, a) && OnLine(o, 0.0, 0.0, -a);
    EllLineAllIntersections(m, o, 0.0, 0.0, a);
    EllLineAllIntersections(m, o, 0.0, 0.0, -a);
    assert Ls(m, s, 90.0) == LinePoint(m, o, 0.0, 0.0, true);
    assert Ls(m, s, 270.0) == LinePoint(m, o, 0.0, 0.0, false);
  }

  /** With a circular orbit of radius `r`, no rotation and the sun at the centre, `Ls`
      has a closed form at every angle of a turn: the point `−r·(sin, cos)` of the
      angle. It agrees with the special cases at 0 and 180, so the root chosen by the
      general branch never jumps to the far side of the circle. */
  lemma {:induction false} CentredCircle(m: Maths, r: real, angle: real)
    requires Sound(m) && r > 0.0 && 0.0 <= angle < 360.0
    ensures var s := CentredSun(m, r, r);
      && LsDefined(m, s, angle)
      && Ls(m, s, angle) == Point(-r * m.dsin(angle), -r * m.dcos(angle))
  {
    CircleOrbit(m, r);
    CircleLs(m, CentredSun(m, r, r), r, angle);
  }

  lemma CircleLs(m: Maths, s: Sun, r: real, angle: real)
    requires Valid(m, s) && s.x == 0.0 && s.y == 0.0 && r > 0.0 && 0.0 <= angle < 360.0
    requires s.orbit.cosR == 1.0 && s.orbit.sinR == 0.0
    requires s.orbit.invA2 == s.orbit.invB2 && s.orbit.invA2 * r * r == 1.0
    requires Form(s.orbit, s.x, s.y) == 0.0
    ensures LsDefined(m, s, angle) && Ls(m, s, angle) == Point(-r * m.dsin(angle), -r * m.dcos(angle))
  {
    SunSeenAlong(m, s, angle);
    LsOnOrbit(m, s, angle);
    CircleAt(m, s, angle, Ls(m, s, angle), r);
  }

  /** The orbit of `CentredCircle`: unrotated, with equal inverse squares `1/r²`. */
  lemma CircleOrbit(m: Maths, r: real)
    requires Sound(m) && r > 0.0
    ensures var s := CentredSun(m, r, r);
      && s.orbit.cosR == 1.0 && s.orbit.sinR == 0.0
      && s.orbit.invA2 == s.orbit.invB2 && s.orbit.invA2 * r * r == 1.0
      && Form(s.orbit, s.x, s.y) == 0.0
  {
  }

  /** A point of the centred circle on the sun's line, facing the sun, is `−r·(sin, cos)`. */
  lemma CircleAt(m: Maths, s: Sun, angle: real, p: Point, r: real)
    requires Sound(m) && s.x == 0.0 && s.y == 0.0 && r > 0.0
    requires s.orbit.cosR == 1.0 && s.orbit.sinR == 0.0
    requires s.orbit.invA2 == s.orbit.invB2 && s.orbit.invA2 * r * r == 1.0
    requires OnEllipse(s.orbit, p.x, p.y) && Aligned(m, s, angle, p) && SunAhead(m, s, angle, p)
    ensures p == Point(-r * m.dsin(angle), -r * m.dcos(angle))
  {
    var sn, cs := m.dsin(angle), m.dcos(angle);
    UnrotatedForm(s.orbit, p.x, p.y);
    OnCircle(s.orbit.invA2, p.x, p.y, r);
    UnitAt(m, angle);
    assert p.x * cs == p.y * sn;
    assert p.x * sn + p.y * cs < 0.0;
    CircleRay(sn, cs, p.x, p.y, r);
  }

  lemma OnCircle(inv: real, x: real, y: real, r: real)
    requires Sq(x) * inv + Sq(y) * inv == 1.0 && inv * r * r == 1.0
    ensures x * x + y * y == r * r
  {
    assert (x * x + y * y) * inv == inv * (r * r);
    assert inv != 0.0;
  }

  /** A point of the circle of radius `r` on the line through the centre with direction
      `(sn, cs)`, seeing the centre ahead, is `−r·(sn, cs)`. */
  lemma CircleRay(sn: real, cs: real, x: real, y: real, r: real)
    requires sn * sn + cs * cs == 1.0 && x * cs == y * sn && x * sn + y * cs < 0.0
    requires x * x + y * y == r * r && r > 0.0
    ensures x == -r * sn && y == -r * cs
  {
    var k := -(x * sn + y * cs);
    assert x == -k * sn by {
      assert x == x * (sn * sn) + (x * cs) * cs;
      assert x == x * (sn * sn) + (y * sn) * cs;
    }
    assert y == -k * cs by {
      assert y == (y * sn) * sn + y * (cs * cs);
      assert y == (x * cs) * sn + y * (cs * cs);
    }
    assert k * k == r * r by {
      assert x * x + y * y == k * k * (sn * sn + cs * cs);
    }
    SquaresEqual(k, r);
  }
}
