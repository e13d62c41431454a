/** The body that travels on the orbit (`Planet` and its preset `Titan` in
    assets/Seasons.js): its fixed drawing parts, and the shadow outline `dShadow` that
    shows which half of it the sun lights at a given solar longitude. */
module PlanetShadow {
  import opened Maths
  import opened Optional
  import opened Shapes
  import opened SunGeometry

  const DefaultRadius: real := 15.0
  const DefaultObliquity: real := 0.0
  const DefaultColor: string := "blue"
  const DefaultKind: string := "Planet"
  const PoleLabelSize: real := 12.0
  /** The equator is drawn as the front half of an ellipse 0.3 radii high. */
  const EquatorFlattening: real := 0.3

  const TitanRadius: real := 15.0
  const TitanObliquity: real := 26.73
  const TitanColor: string := "gold"
  const TitanName: string := "Titan"

  /** A planet: the sun it orbits, radius, obliquity (degrees), colour, kind (the
      `class` of its drawing), pole line, disc, the anchors of the N and S labels and
      the equator path. */
  datatype Planet = Planet(sun: Sun, R: real, obl: real, color: string, kind: string,
                           pole: Line, disc: Circle, poleN: Label, poleS: Label,
                           equator: seq<Segment>)

  /** The `Planet` constructor; an absent argument takes its default
      (radius 15, obliquity 0, "blue", "Planet"). */
  function NewPlanet(sun: Sun, R: Option<real>, obl: Option<real>, color: Option<string>,
                     kind: Option<string>): (p: Planet)
    ensures p.sun == sun && p.R == R.GetOr(DefaultRadius) && p.obl == obl.GetOr(DefaultObliquity)
    ensures p.color == color.GetOr(DefaultColor) && p.kind == kind.GetOr(DefaultKind)
    // the pole is the vertical diameter extended to twice the radius on each side
    ensures p.pole.x1 == 0.0 && p.pole.x2 == 0.0
    ensures p.pole.y1 == 2.0 * p.R && p.pole.y2 == -p.pole.y1
    ensures p.disc == Circle(Point(0.0, 0.0), p.R)
    ensures p.poleN == Label(Point(p.R, -2.0 * p.R), PoleLabelSize, None, "N")
    ensures p.poleS == Label(Point(-p.R, 2.5 * p.R), PoleLabelSize, None, "S")
    // the equator runs from the right end of the horizontal diameter to the left one
    ensures p.equator == [MoveTo(Point(p.R, 0.0)),
                          Arc(p.R, EquatorFlattening * p.R, 0.0, false, true, Point(-p.R, 0.0))]
  {
    var r := R.GetOr(DefaultRadius);
    Planet(sun, r, obl.GetOr(DefaultObliquity), color.GetOr(DefaultColor), kind.GetOr(DefaultKind),
           Line(0.0, 2.0 * r, 0.0, -2.0 * r), Circle(Point(0.0, 0.0), r),
           Label(Point(r, -2.0 * r), PoleLabelSize, None, "N"),
           Label(Point(-r, 2.5 * r), PoleLabelSize, None, "S"),
           [MoveTo(Point(r, 0.0)), Arc(r, EquatorFlattening * r, 0.0, false, true, Point(-r, 0.0))])
  }

  /** `Titan`: the planet preset of radius 15, obliquity 26.73, colour "gold" and kind
      "Titan". */
  function Titan(sun: Sun): (p: Planet)
    ensures p.sun == sun && p.R == 15.0 && p.obl == 26.73
    ensures p.color == "gold" && p.kind == "Titan"
    ensures p == NewPlanet(sun, Some(TitanRadius), Some(TitanObliquity), Some(TitanColor), Some(TitanName))
  {
    NewPlanet(sun, Some(TitanRadius), Some(TitanObliquity), Some(TitanColor), Some(TitanName))
  }

  /** `Planet.dShadow(Ls)`: the outline of the dark part of the disc. From the top of the
      disc, a half circle of radius R down to the bottom (flags `1 1` up to 180, `0 0`
      after), then back to the top along the terminator, a half ellipse of half-width
      `h = R·|cos Ls|`, with flags `0 1` when `cos·sin < 0`, `0 0` before 90 and `1 0`
      otherwise. */
  function DShadow(m: Maths, p: Planet, ls: real): (path: seq<Segment>)
    ensures |path| == 3 && path[0] == MoveTo(Point(0.0, p.R))
    ensures path[1].Arc? && path[1].rx == p.R && path[1].ry == p.R && path[1].rotation == 0.0
    ensures path[1].to == Point(0.0, -p.R)
    ensures path[1].largeArc == path[1].sweep && (path[1].sweep <==> ls <= 180.0)
    ensures path[2].Arc? && path[2].ry == p.R && path[2].rotation == 0.0
    ensures path[2].to == Point(0.0, p.R)
    ensures path[2].rx == p.R * Abs(m.dcos(ls))
    ensures path[2].sweep <==> m.dcos(ls) * m.dsin(ls) < 0.0
    ensures path[2].largeArc <==> !(m.dcos(ls) * m.dsin(ls) < 0.0) && ls >= 90.0
  {
    var h := p.R * Abs(m.dcos(ls));
    var side := ls <= 180.0;
    var crossed := m.dcos(ls) * m.dsin(ls) < 0.0;
    var large, sweep := if crossed then false else !(ls < 90.0), crossed;
    [MoveTo(Point(0.0, p.R)), Arc(p.R, p.R, 0.0, side, side, Point(0.0, -p.R)),
     Arc(h, p.R, 0.0, large, sweep, Point(0.0, p.R))]
  }

  /** The terminator is never wider than the disc: `0 <= h <= R`; it is the full disc
      exactly when the cosine is ±1 and a straight line exactly when the cosine is 0. */
  lemma TerminatorWidth(m: Maths, p: Planet, ls: real)
    requires Sound(m) && p.R > 0.0
    ensures var h := DShadow(m, p, ls)[2].rx;
      && 0.0 <= h <= p.R
      && (h == 0.0 <==> m.dcos(ls) == 0.0)
      && (h == p.R <==> Abs(m.dcos(ls)) == 1.0)
  {
    var c := Abs(m.dcos(ls));
    TrigBounded(m, ls);
    ScaledFraction(p.R, c);
  }

  lemma ScaledFraction(r: real, c: real)
    requires r > 0.0 && 0.0 <= c <= 1.0
    ensures 0.0 <= r * c <= r
    ensures r * c == 0.0 <==> c == 0.0
    ensures r * c == r <==> c == 1.0
  {
    assert r * c <= r * 1.0;
    if r * c == r {
      assert r * (c - 1.0) == 0.0;
    }
  }

  /** The flags over one turn: the terminator arc takes `0 0` exactly in the first
      quadrant [0, 90), `0 1` exactly in the open second and fourth quadrants, and
      `1 0` at 90 and over [180, 270]; the outer half circle takes `1 1` exactly over
      [0, 180]. */
  lemma ShadowQuadrants(m: Maths, p: Planet, ls: real)
    requires Sound(m) && 0.0 <= ls < 360.0
    ensures var path := DShadow(m, p, ls);
      && (!path[2].largeArc && !path[2].sweep <==> ls < 90.0)
      && (!path[2].largeArc && path[2].sweep <==> 90.0 < ls < 180.0 || 270.0 < ls)
      && (path[2].largeArc && !path[2].sweep <==> ls == 90.0 || 180.0 <= ls <= 270.0)
      && (path[1].sweep <==> ls <= 180.0)
  {
    SineSignAt(m, ls);
    CosineSignAt(m, ls);
    var c, s := m.dcos(ls), m.dsin(ls);
    if ls == 0.0 || ls == 90.0 || ls == 180.0 || ls == 270.0 {
      assert c * s == 0.0;
    } else if ls < 90.0 {
      ProductPositive(c, s);
    } else if ls < 180.0 {
      ProductPositive(-c, s);
    } else if ls < 270.0 {
      ProductPositive(-c, -s);
    } else {
      ProductPositive(c, -s);
    }
  }

  /** At the quarter turns the terminator is the full disc (0 and 180) or the vertical
      diameter (90 and 270). */
  lemma ShadowAtQuarterTurns(m: Maths, p: Planet)
    requires Sound(m)
    ensures DShadow(m, p, 0.0)[2] == Arc(p.R, p.R, 0.0, false, false, Point(0.0, p.R))
    ensures DShadow(m, p, 90.0)[2] == Arc(0.0, p.R, 0.0, true, false, Point(0.0, p.R))
    ensures DShadow(m, p, 180.0)[2] == Arc(p.R, p.R, 0.0, true, false, Point(0.0, p.R))
    ensures DShadow(m, p, 270.0)[2] == Arc(0.0, p.R, 0.0, true, false, Point(0.0, p.R))
  {
  }
}
