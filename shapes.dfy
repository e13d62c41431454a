/** The drawing instructions the geometry produces, as values instead of SVG strings:
    points, straight lines, path segments and text labels. */
module Shapes {
  import opened Optional

  datatype Point = Point(x: real, y: real)

  /** A straight line from (x1, y1) to (x2, y2), the `line` helper of the source. */
  datatype Line = Line(x1: real, y1: real, x2: real, y2: real)

  /** One instruction of a vector path: move, absolute line, relative line, elliptical
      arc (radii, rotation of the x axis in degrees, the two flags, end point), close. */
  datatype Segment =
    | MoveTo(to: Point)
    | LineTo(to: Point)
    | LineBy(dx: real, dy: real)
    | Arc(rx: real, ry: real, rotation: real, largeArc: bool, sweep: bool, to: Point)
    | Close

  /** A circle: centre and radius. */
  datatype Circle = Circle(centre: Point, r: real)

  /** A text label: anchor, font size, rotation about the anchor (if any) and text. */
  datatype Label = Label(at: Point, size: real, rotation: Option<real>, text: string)

  /** Where a relative line `LineBy(dx, dy)` from `p` ends. */
  function Shift(p: Point, dx: real, dy: real): (q: Point)
    ensures q.x - p.x == dx && q.y - p.y == dy
  {
    Point(p.x + dx, p.y + dy)
  }

  /** The point `p + k·(dx, dy)`. */
  function Offset(p: Point, k: real, dx: real, dy: real): (q: Point)
    ensures q.x - p.x == k * dx && q.y - p.y == k * dy
  {
    Point(p.x + k * dx, p.y + k * dy)
  }

  /** The point `r·p`. */
  function Scale(p: Point, r: real): (q: Point)
    ensures q.x == r * p.x && q.y == r * p.y
  {
    Point(r * p.x, r * p.y)
  }
}
