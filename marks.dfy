/** What `Sun` draws from the points of `Ls` (`tick`, `coverage` and `legend` in
    assets/Seasons.js): every mark is placed along the line through the sun and the point
    of the orbit, in direction `(sin, cos)` of the solar longitude. */
module SunMarks {
  import opened Maths
  import opened Optional
  import opened Shapes
  import opened OrbitGeometry
  import opened SunGeometry

  const DefaultTickLength: real := 10.0
  const TickLabelSize: real := 10.0
  /** A tick label sits 2.5 tick lengths from the orbit. */
  const TickLabelDistance: real := 2.5
  const DefaultBandColor: string := "gray"
  const DefaultThickness: real := 30.0
  const BandLabelSize: real := 10.0
  /** A band label sits 0.85 thicknesses beyond the inner corner. */
  const BandLabelDistance: real := 0.85
  const DefaultLegendSize: real := 10.0

  /** `p + k·(sin, cos)` of `angle`. */
  function Along(m: Maths, angle: real, p: Point, k: real): Point
  {
    Offset(p, k, m.dsin(angle), m.dcos(angle))
  }

  /** The squared distance from `p` to `q` is `k²`. */
  predicate AtDistance(p: Point, q: Point, k: real)
  {
    (q.x - p.x) * (q.x - p.x) + (q.y - p.y) * (q.y - p.y) == k * k
  }

  /** Moving along `(sin, cos)` keeps a point on the line through the sun. */
  lemma AlongAligned(m: Maths, s: Sun, angle: real, p: Point, k: real)
    requires Aligned(m, s, angle, p)
    ensures Aligned(m, s, angle, Along(m, angle, p, k))
  {
    var sn, cs := m.dsin(angle), m.dcos(angle);
    assert k * sn * cs == k * cs * sn;
  }

  /** `(sin, cos)` is a unit vector, so moving by `k` along it covers distance |k|. */
  lemma AlongDistance(m: Maths, angle: real, p: Point, k: real)
    requires Sound(m)
    ensures AtDistance(p, Along(m, angle, p, k), k)
  {
    UnitAt(m, angle);
    UnitStep(m.dsin(angle), m.dcos(angle), k);
  }

  lemma UnitStep(sn: real, cs: real, k: real)
    requires sn * sn + cs * cs == 1.0
    ensures (k * sn) * (k * sn) + (k * cs) * (k * cs) == k * k
  {
    assert (k * sn) * (k * sn) + (k * cs) * (k * cs) == k * k * (sn * sn + cs * cs);
  }

  /** A point on the line through the sun reaches the sun after moving along
      `(sin, cos)` by its signed distance `k` to the sun. */
  lemma SunAlongLine(m: Maths, s: Sun, angle: real, p: Point)
    requires Sound(m) && Aligned(m, s, angle, p)
    ensures Along(m, angle, p, (s.x - p.x) * m.dsin(angle) + (s.y - p.y) * m.dcos(angle)) == Point(s.x, s.y)
  {
    UnitAt(m, angle);
    UnitDecompose(m.dsin(angle), m.dcos(angle), s.x - p.x, s.y - p.y);
  }

  lemma UnitDecompose(sn: real, cs: real, vx: real, vy: real)
    requires sn * sn + cs * cs == 1.0 && vx * cs == vy * sn
    ensures (vx * sn + vy * cs) * sn == vx && (vx * sn + vy * cs) * cs == vy
  {
    assert (vx * sn + vy * cs) * sn == vx * (sn * sn) + (vy * sn) * cs;
    assert (vx * sn + vy * cs) * cs == (vx * cs) * sn + vy * (cs * cs);
  }

  /** The rotation of a label at solar longitude `ls`: along the line through the sun,
      turned so that the text reads upright. */
  function LabelRotation(ls: real): (rt: real)
    ensures rt == 90.0 - ls <==> ls < 180.0
    ensures rt == 90.0 - ls || rt == 90.0 - ls - 180.0
    ensures 0.0 <= ls < 360.0 ==> -90.0 < rt <= 90.0 || -90.0 < rt + 360.0 <= 90.0
  {
    if ls < 180.0 then 90.0 - ls else -90.0 - ls
  }

  // ---------------------------------------------------------------- ticks

  /** A tick: a move to the point of the orbit, a relative line, and an optional label. */
  datatype TickMark = TickMark(path: seq<Segment>, caption: Option<Label>)

  /** The tick drawn at the point `p`: a stroke of `length` (default 10) along
      `(sin, cos)` of `angle`, labelled `txt` (when given) 2.5 lengths away. */
  function TickAt(m: Maths, angle: real, p: Point, txt: Option<string>, length: Option<real>): (t: TickMark)
    requires Sound(m)
    ensures var l := length.GetOr(DefaultTickLength);
      && |t.path| == 2 && t.path[0] == MoveTo(p) && t.path[1].LineBy?
      && Shift(p, t.path[1].dx, t.path[1].dy) == Along(m, angle, p, l)
      && AtDistance(p, Shift(p, t.path[1].dx, t.path[1].dy), l)
      && (t.caption.Some? <==> txt.Some?)
      && (t.caption.Some? ==>
            && t.caption.value.text == txt.value && t.caption.value.size == TickLabelSize
            && t.caption.value.rotation.None?
            && t.caption.value.at == Along(m, angle, p, TickLabelDistance * l))
  {
    var l := length.GetOr(DefaultTickLength);
    AlongDistance(m, angle, p, l);
    var lx, ly := l * m.dsin(angle), l * m.dcos(angle);
    TickMark([MoveTo(p), LineBy(lx, ly)],
             if txt.Some? then Some(Label(Point(p.x + TickLabelDistance * lx, p.y + TickLabelDistance * ly),
                                          TickLabelSize, None, txt.value))
             else None)
  }

  /** `Sun.tick(Ls, txt, length)`: the tick at `Ls(angle)`. Its stroke and its label stay
      on the line through the sun and the point of the orbit. */
  function Tick(m: Maths, s: Sun, angle: real, txt: Option<string>, length: Option<real>): (t: TickMark)
    requires Sound(m) && OrbitGeometry.Valid(m, s.orbit) && LsDefined(m, s, angle)
    ensures t == TickAt(m, angle, Ls(m, s, angle), txt, length)
    ensures |t.path| == 2 && t.path[1].LineBy?
    ensures Aligned(m, s, angle, Shift(Ls(m, s, angle), t.path[1].dx, t.path[1].dy))
    ensures t.caption.Some? ==> Aligned(m, s, angle, t.caption.value.at)
  {
    var p, l := Ls(m, s, angle), length.GetOr(DefaultTickLength);
    LsAligned(m, s, angle);
    AlongAligned(m, s, angle, p, l);
    AlongAligned(m, s, angle, p, TickLabelDistance * l);
    TickAt(m, angle, p, txt, length)
  }

  /** For a sun inside the orbit a tick of positive length points at the sun, and one of
      negative length (the year ticks) points away from it. */
  lemma {:induction false} TickTowardSun(m: Maths, s: Sun, angle: real, txt: Option<string>, length: Option<real>)
    requires SunGeometry.Valid(m, s) && Form(s.orbit, s.x, s.y) < 1.0 && 0.0 <= angle < 360.0
    ensures LsDefined(m, s, angle)
    ensures var p, step := Ls(m, s, angle), Tick(m, s, angle, txt, length).path[1];
      Toward(p, step.dx, step.dy, Point(s.x, s.y)) <==> length.GetOr(DefaultTickLength) > 0.0
  {
    SunSeenAlong(m, s, angle);
    TickAtTowardSun(m, s, angle, Ls(m, s, angle), txt, length);
  }

  lemma TickAtTowardSun(m: Maths, s: Sun, angle: real, p: Point, txt: Option<string>, length: Option<real>)
    requires Sound(m) && SunAhead(m, s, angle, p)
    ensures var step := TickAt(m, angle, p, txt, length).path[1];
      Toward(p, step.dx, step.dy, Point(s.x, s.y)) <==> length.GetOr(DefaultTickLength) > 0.0
  {
    var step := TickAt(m, angle, p, txt, length).path[1];
    StepSign(length.GetOr(DefaultTickLength), m.dsin(angle), m.dcos(angle), s.x - p.x, s.y - p.y, step.dx, step.dy);
  }

  /** A step `(dx, dy)` from `p` goes toward `q`: it has a positive component along `q − p`. */
  predicate Toward(p: Point, dx: real, dy: real, q: Point)
  {
    dx * (q.x - p.x) + dy * (q.y - p.y) > 0.0
  }

  /** A step `l·u` along a direction `u` that has a positive component toward `v`
      goes toward `v` exactly when `l > 0`. */
  lemma StepSign(l: real, sn: real, cs: real, vx: real, vy: real, dx: real, dy: real)
    requires dx == l * sn && dy == l * cs && vx * sn + vy * cs > 0.0
    ensures dx * vx + dy * vy > 0.0 <==> l > 0.0
  {
    assert dx * vx + dy * vy == l * (vx * sn + vy * cs);
    SignOfProduct(l, vx * sn + vy * cs);
  }

  // ---------------------------------------------------------------- coverage bands

  /** A coverage band: its outline, its fill colour and an optional label. */
  datatype Band = Band(path: seq<Segment>, fill: string, caption: Option<Label>)

  /** A band corner: `Ls(angle)` moved by the thickness `t` along `(sin, cos)`. */
  function Corner(m: Maths, s: Sun, angle: real, t: real): (q: Point)
    requires Sound(m) && OrbitGeometry.Valid(m, s.orbit) && LsDefined(m, s, angle)
    ensures Aligned(m, s, angle, q) && AtDistance(Ls(m, s, angle), q, t)
  {
    LsAligned(m, s, angle);
    AlongAligned(m, s, angle, Ls(m, s, angle), t);
    AlongDistance(m, angle, Ls(m, s, angle), t);
    Along(m, angle, Ls(m, s, angle), t)
  }

  /** `Sun.coverage(Ls1, Ls2, color, name, thickness)`: the band between two solar
      longitudes. Its outline runs from `Ls(Ls1)` along the orbit (radii a, b, sweep 0)
      to `Ls(Ls2)`, across to the inner corner at distance `t` (default 30), back along
      an arc of radii `(a − t, b − t)` with sweep 1 to the other inner corner, and closes.
      The label, when named, sits 0.85·t beyond the inner corner of `Ls2`, upright. */
  function Coverage(m: Maths, s: Sun, ls1: real, ls2: real, color: Option<string>,
                    name: Option<string>, thickness: Option<real>): (band: Band)
    requires Sound(m) && OrbitGeometry.Valid(m, s.orbit) && LsDefined(m, s, ls1) && LsDefined(m, s, ls2)
    ensures var o, t := s.orbit, thickness.GetOr(DefaultThickness);
      && |band.path| == 5
      && band.path[0] == MoveTo(Ls(m, s, ls1))
      && band.path[1] == Arc(o.a, o.b, o.rot, false, false, Ls(m, s, ls2))
      && band.path[2] == LineTo(Corner(m, s, ls2, t))
      && band.path[3] == Arc(o.a - t, o.b - t, o.rot, false, true, Corner(m, s, ls1, t))
      && band.path[4] == Close
      && band.fill == color.GetOr(DefaultBandColor)
      && (band.caption.Some? <==> name.Some?)
      && (band.caption.Some? ==>
            && band.caption.value.text == name.value && band.caption.value.size == BandLabelSize
            && band.caption.value.rotation == Some(LabelRotation(ls2))
            && Aligned(m, s, ls2, band.caption.value.at)
            && AtDistance(Corner(m, s, ls2, t), band.caption.value.at, BandLabelDistance * t)
            && band.caption.value.at == Along(m, ls2, Corner(m, s, ls2, t), BandLabelDistance * t))
  {
    var o, t := s.orbit, thickness.GetOr(DefaultThickness);
    var p1, p2 := Ls(m, s, ls1), Ls(m, s, ls2);
    var p3, p4 := Corner(m, s, ls2, t), Corner(m, s, ls1, t);
    var a2, b2 := o.a - t, o.b - t;
    var at := Along(m, ls2, p3, BandLabelDistance * t);
    AlongAligned(m, s, ls2, p3, BandLabelDistance * t);
    AlongDistance(m, ls2, p3, BandLabelDistance * t);
    Band([MoveTo(p1), Arc(o.a, o.b, o.rot, false, false, p2), LineTo(p3),
          Arc(a2, b2, o.rot, false, true, p4), Close],
         color.GetOr(DefaultBandColor),
         if name.Some? then Some(Label(at, BandLabelSize, Some(LabelRotation(ls2)), name.value)) else None)
  }

  /** For a sun inside the orbit the inner corners are on the sun's side: moving from
      `Ls(angle)` to the corner goes toward the sun, and for `t` below the distance to
      the sun the corner lies strictly between the orbit and the sun. */
  lemma {:induction false} CornerTowardSun(m: Maths, s: Sun, angle: real, t: real)
    requires SunGeometry.Valid(m, s) && Form(s.orbit, s.x, s.y) < 1.0 && 0.0 <= angle < 360.0
    ensures LsDefined(m, s, angle)
    ensures var p, k := Ls(m, s, angle), (s.x - Ls(m, s, angle).x) * m.dsin(angle)
                                          + (s.y - Ls(m, s, angle).y) * m.dcos(angle);
      && k > 0.0
      && Along(m, angle, p, k) == Point(s.x, s.y)
      && Corner(m, s, angle, t) == Along(m, angle, p, t)
  {
    SunSeenAlong(m, s, angle);
    var p := Ls(m, s, angle);
    SunAheadAlong(m, s, angle, p);
    var k := (s.x - p.x) * m.dsin(angle) + (s.y - p.y) * m.dcos(angle);
    assert k == (s.x - Ls(m, s, angle).x) * m.dsin(angle) + (s.y - Ls(m, s, angle).y) * m.dcos(angle);
    assert Corner(m, s, angle, t) == Along(m, angle, p, t);
  }

  /** From a point aligned with the sun and facing it, the sun is reached by a positive
      step along `(sin, cos)`. */
  lemma SunAheadAlong(m: Maths, s: Sun, angle: real, p: Point)
    requires Sound(m) && Aligned(m, s, angle, p) && SunAhead(m, s, angle, p)
    ensures var k := (s.x - p.x) * m.dsin(angle) + (s.y - p.y) * m.dcos(angle);
      k > 0.0 && Along(m, angle, p, k) == Point(s.x, s.y)
  {
    SunAlongLine(m, s, angle, p);
  }

  /** With no rotation and the sun at the centre, the inner corners at the quarter turns
      lie on the ellipse of semi-axes `(a − t, b − t)` that the inner arc draws. */
  lemma {:induction false} CentredCornersOnInnerArc(m: Maths, a: real, b: real, t: real, angle: real)
    requires Sound(m) && 0.0 < t < a && t < b
    requires angle == 0.0 || angle == 90.0 || angle == 180.0 || angle == 270.0
    ensures var s := CentredSun(m, a, b);
      && LsDefined(m, s, angle)
      && OnEllipse(NewOrbit(m, Some(a - t), Some(b - t), None),
                   Corner(m, s, angle, t).x, Corner(m, s, angle, t).y)
  {
    var s := CentredSun(m, a, b);
    CentredQuarterTurns(m, a, b);
    assert Corner(m, s, angle, t) == Along(m, angle, Ls(m, s, angle), t);
    AxisEndInward(m, a, b, t, angle, Ls(m, s, angle));
  }

  /** Moving an end of an axis of the `a × b` ellipse by `t` toward the centre lands on
      the end of the same axis of the `(a − t) × (b − t)` ellipse. */
  lemma AxisEndInward(m: Maths, a: real, b: real, t: real, angle: real, p: Point)
    requires Sound(m) && 0.0 < t < a && t < b
    requires (angle == 0.0 && p == Point(0.0, -b)) || (angle == 90.0 && p == Point(-a, 0.0))
          || (angle == 180.0 && p == Point(0.0, b)) || (angle == 270.0 && p == Point(a, 0.0))
    ensures OnEllipse(NewOrbit(m, Some(a - t), Some(b - t), None),
                      Along(m, angle, p, t).x, Along(m, angle, p, t).y)
  {
    var inner := NewOrbit(m, Some(a - t), Some(b - t), None);
    var q := Along(m, angle, p, t);
    UnrotatedForm(inner, q.x, q.y);
    if angle == 0.0 {
      assert q == Point(0.0, t - b);
      InnerAxisEnd(inner.invB2, b - t, t - b);
    } else if angle == 90.0 {
      assert q == Point(t - a, 0.0);
      InnerAxisEnd(inner.invA2, a - t, t - a);
    } else if angle == 180.0 {
      assert q == Point(0.0, b - t);
      InnerAxisEnd(inner.invB2, b - t, b - t);
    } else {
      assert q == Point(a - t, 0.0);
      InnerAxisEnd(inner.invA2, a - t, a - t);
    }
  }

  lemma InnerAxisEnd(inv: real, r: real, v: real)
    requires inv * r * r == 1.0 && (v == r || v == -r)
    ensures Sq(v) * inv == 1.0
  {
  }

  // ---------------------------------------------------------------- legends

  /** A legend entry: solar longitude, distance as a fraction of the orbit point's
      distance from the centre, optional rotation and size, and text. */
  datatype Legend = Legend(ls: real, r: real, rot: Option<real>, size: Option<real>, text: string)

  /** Distance of `p` from the origin (the centre of the orbit). */
  function Norm(m: Maths, p: Point): (r: real)
    requires Sound(m)
    ensures r >= 0.0 && r * r == p.x * p.x + p.y * p.y
  {
    RootAt(m, p.x * p.x + p.y * p.y);
    m.sqrt(p.x * p.x + p.y * p.y)
  }

  /** The legend label for the orbit point `p`: the text at distance `leg.r·|p|` back
      from the sun along `(sin, cos)` of `leg.Ls`, rotated by `leg.rot` (default the
      upright label rotation) and of size `leg.size` (default 10). */
  function LegendAt(m: Maths, s: Sun, leg: Legend, p: Point): (l: Label)
    requires Sound(m)
    ensures l.text == leg.text && l.size == leg.size.GetOr(DefaultLegendSize)
    ensures l.rotation == Some(leg.rot.GetOr(LabelRotation(leg.ls)))
    ensures Aligned(m, s, leg.ls, l.at)
    ensures AtDistance(Point(s.x, s.y), l.at, leg.r * Norm(m, p))
    ensures Along(m, leg.ls, l.at, leg.r * Norm(m, p)) == Point(s.x, s.y)
  {
    var k := leg.r * Norm(m, p);
    var at := Point(s.x - k * m.dsin(leg.ls), s.y - k * m.dcos(leg.ls));
    LegendPlacement(m, s, leg.ls, k, at);
    Label(at, leg.size.GetOr(DefaultLegendSize), Some(leg.rot.GetOr(LabelRotation(leg.ls))), leg.text)
  }

  /** `Sun.legend(leg)`: the legend label for `Ls(leg.Ls)`. */
  function LegendLabel(m: Maths, s: Sun, leg: Legend): (l: Label)
    requires Sound(m) && OrbitGeometry.Valid(m, s.orbit) && LsDefined(m, s, leg.ls)
    ensures l == LegendAt(m, s, leg, Ls(m, s, leg.ls))
    ensures AtDistance(Point(s.x, s.y), l.at, leg.r * Norm(m, Ls(m, s, leg.ls)))
    ensures Along(m, leg.ls, l.at, leg.r * Norm(m, Ls(m, s, leg.ls))) == Point(s.x, s.y)
  {
    LegendAt(m, s, leg, Ls(m, s, leg.ls))
  }

  /** The point `k` back from the sun along `(sin, cos)` is on the sun's line, at distance `k`. */
  lemma LegendPlacement(m: Maths, s: Sun, angle: real, k: real, at: Point)
    requires Sound(m) && at == Point(s.x - k * m.dsin(angle), s.y - k * m.dcos(angle))
    ensures Aligned(m, s, angle, at) && AtDistance(Point(s.x, s.y), at, k)
  {
    var sn, cs := m.dsin(angle), m.dcos(angle);
    assert (at.x - s.x) * cs == (at.y - s.y) * sn by {
      assert (at.x - s.x) * cs == -(k * sn * cs);
    }
    UnitAt(m, angle);
    UnitStep(sn, cs, -k);
  }

  /** With the sun at the centre of the orbit the legend sits at the fraction `leg.r` of
      the way from the sun to `Ls(leg.Ls)`. */
  lemma {:induction false} CentredLegendAtFraction(m: Maths, s: Sun, leg: Legend)
    requires SunGeometry.Valid(m, s) && s.x == 0.0 && s.y == 0.0 && 0.0 <= leg.ls < 360.0
    ensures LsDefined(m, s, leg.ls)
    ensures LegendLabel(m, s, leg).at == Scale(Ls(m, s, leg.ls), leg.r)
  {
    assert Form(s.orbit, s.x, s.y) == 0.0;
    SunSeenAlong(m, s, leg.ls);
    LegendAtFraction(m, s, leg, Ls(m, s, leg.ls));
  }

  lemma LegendAtFraction(m: Maths, s: Sun, leg: Legend, p: Point)
    requires Sound(m) && s.x == 0.0 && s.y == 0.0
    requires Aligned(m, s, leg.ls, p) && SunAhead(m, s, leg.ls, p)
    ensures LegendAt(m, s, leg, p).at == Scale(p, leg.r)
  {
    var sn, cs := m.dsin(leg.ls), m.dcos(leg.ls);
    var k := (s.x - p.x) * sn + (s.y - p.y) * cs;
    UnitAt(m, leg.ls);
    SunAlongLine(m, s, leg.ls, p);
    NormOfStep(m, sn, cs, k, p);
    FractionOfStep(s.x, s.y, sn, cs, k, leg.r, p);
  }

  /** A point at `−k·(sin, cos)` with `k >= 0` is at distance `k` from the origin. */
  lemma NormOfStep(m: Maths, sn: real, cs: real, k: real, p: Point)
    requires Sound(m) && sn * sn + cs * cs == 1.0 && k >= 0.0
    requires p.x + k * sn == 0.0 && p.y + k * cs == 0.0
    ensures Norm(m, p) == k
  {
    StepSquare(sn, cs, k, p.x, p.y);
    SquaresEqual(Norm(m, p), k);
  }

  lemma StepSquare(sn: real, cs: real, k: real, x: real, y: real)
    requires sn * sn + cs * cs == 1.0 && x + k * sn == 0.0 && y + k * cs == 0.0
    ensures x * x + y * y == k * k
  {
    assert x == (-k) * sn && y == (-k) * cs;
    UnitStep(sn, cs, -k);
  }

  lemma FractionOfStep(sx: real, sy: real, sn: real, cs: real, k: real, r: real, p: Point)
    requires sx == 0.0 && sy == 0.0 && p.x + k * sn == 0.0 && p.y + k * cs == 0.0
    ensures Point(sx - r * k * sn, sy - r * k * cs) == Scale(p, r)
  {
    assert p.x == -(k * sn) && p.y == -(k * cs);
    assert r * p.x == -(r * k * sn) by {
      assert r * p.x == r * (-(k * sn));
    }
    assert r * p.y == -(r * k * cs) by {
      assert r * p.y == r * (-(k * cs));
    }
  }
}
