/** Planar geometry over exact reals.

    The planner compares Euclidean distances (`std::hypot`) against radii. Over
    the reals `hypot(dx, dy) < c` holds exactly when `dx*dx + dy*dy < c*c` for a
    non-negative `c`, so every comparison here is made on squared distances and
    no square root is needed.
 */
module Geometry {

  datatype Point = Point(x: real, y: real)

  /** Squared Euclidean distance between two points. */
  function SqDist(p: Point, q: Point): real
  {
    (p.x - q.x) * (p.x - q.x) + (p.y - q.y) * (p.y - q.y)
  }

  /** Squared distance of a point from the origin, `hypot(p.x, p.y)` squared. */
  function SqNorm(p: Point): real
  {
    p.x * p.x + p.y * p.y
  }

  /** Strictly closer than `radius` to `q`, as `hypot(...) < radius` decides it. */
  predicate Within(p: Point, q: Point, radius: real)
  {
    SqDist(p, q) < radius * radius
  }

  /** Midpoint of two points, as the centre-point computation forms it. */
  function Midpoint(a: Point, b: Point): (m: Point)
    ensures SqDist(m, a) == SqDist(m, b)
    ensures 4.0 * SqDist(m, a) == SqDist(a, b)
  {
    Point((a.x + b.x) / 2.0, (a.y + b.y) / 2.0)
  }

  /** Comparing two non-negative lengths is the same as comparing their squares:
      this is what licenses replacing `hypot(dx, dy) < c` by squared distances. */
  lemma SquaredCompare(d: real, c: real)
    requires 0.0 <= d && 0.0 <= c
    ensures d < c <==> d * d < c * c
  {
    var dd, dc, cc := d * d, d * c, c * c;
    if d < c {
      assert dd <= dc;
      assert dc < cc;
    } else {
      assert cc <= dc;
      assert dc <= dd;
    }
  }
}
