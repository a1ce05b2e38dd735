/** Plane geometry used by the collision tests of src/components/GameEngine.tsx:
    squared distances instead of `Math.sqrt`, and the nearest point of a
    rocket's trajectory to a click. */
module Geometry {
  import opened Types

  /** The ground line: rockets fall from y = 0 to y = Ground. */
  const Ground: real := 0.9

  function Abs(a: real): real { if a < 0.0 then -a else a }

  function Max(a: real, b: real): real { if a < b then b else a }

  /** The point at parameter p on the way from a to b. */
  function Lerp(a: real, b: real, p: real): real { a + (b - a) * p }

  function DistSq(p: Point, q: Point): (d: real)
    ensures 0.0 <= d
  {
    (p.x - q.x) * (p.x - q.x) + (p.y - q.y) * (p.y - q.y)
  }

  /** Comparing a distance d with a bound is the same as comparing d*d with the
      bound squared when the bound is positive; a non-positive bound is never
      exceeded from below by a distance. This is why the model never needs a
      square root. */
  lemma SquaredComparison(d: real, bound: real)
    requires 0.0 <= d
    ensures d < bound <==> (0.0 < bound && d * d < bound * bound)
  {
    if d < bound {
      assert 0.0 < bound;
      assert 0.0 <= d * (bound - d);
      assert 0.0 < bound * (bound - d);
    } else if 0.0 < bound {
      assert 0.0 <= bound * (d - bound);
      assert 0.0 <= d * (d - bound);
    }
  }

  /** The point at parameter t on a rocket's straight path from (originX, 0)
      to (targetX, Ground). */
  function TrajectoryAt(originX: real, targetX: real, t: real): Point
  {
    Point(Lerp(originX, targetX, t), Ground * t)
  }

  /** The projection parameter of p on the line through the trajectory, before
      clamping; the `lenSq == 0` branch of the source cannot be taken because
      the vertical extent of every trajectory is Ground. */
  function ProjectionParam(p: Point, originX: real, targetX: real): real
  {
    var a := p.x - originX;
    var b := p.y - 0.0;
    var c := targetX - originX;
    var d := Ground - 0.0;
    var dot := a * c + b * d;
    var lenSq := c * c + d * d;
    if lenSq != 0.0 then dot / lenSq else -1.0
  }

  /** The point of the trajectory nearest to p: the projection, clamped to the
      segment's end points. */
  function NearestOnTrajectory(p: Point, originX: real, targetX: real): Point
  {
    var param := ProjectionParam(p, originX, targetX);
    if param < 0.0 then Point(originX, 0.0)
    else if param > 1.0 then Point(targetX, Ground)
    else Point(originX + param * (targetX - originX), 0.0 + param * Ground)
  }

  /** The parameter at which NearestOnTrajectory lies on the trajectory. */
  function NearestParam(p: Point, originX: real, targetX: real): (t: real)
    ensures 0.0 <= t <= 1.0
    ensures NearestOnTrajectory(p, originX, targetX) == TrajectoryAt(originX, targetX, t)
  {
    var param := ProjectionParam(p, originX, targetX);
    if param < 0.0 then 0.0 else if param > 1.0 then 1.0 else param
  }

  /** The quadratic f(u) = k - 2 u dot + u^2 len. */
  function Quadratic(k: real, dot: real, len: real, u: real): real
  {
    k - 2.0 * u * dot + u * u * len
  }

  /** A quadratic with len > 0 is smallest over [0, 1] at the clamp s of
      param = dot / len. */
  lemma QuadraticMin(k: real, dot: real, len: real, param: real, s: real, t: real)
    requires 0.0 < len && param * len == dot && 0.0 <= t <= 1.0
    requires s == if param < 0.0 then 0.0 else if param > 1.0 then 1.0 else param
    ensures Quadratic(k, dot, len, s) <= Quadratic(k, dot, len, t)
  {
    if param < 0.0 {
      assert dot < 0.0;
      assert 0.0 <= t * (t * len - 2.0 * dot);
    } else if param > 1.0 {
      assert len < dot;
      assert 0.0 <= 2.0 * dot - len * (t + 1.0);
      assert 0.0 <= (1.0 - t) * (2.0 * dot - len * (t + 1.0));
      assert Quadratic(k, dot, len, t) - Quadratic(k, dot, len, s)
          == (1.0 - t) * (2.0 * dot - len * (t + 1.0));
    } else {
      assert Quadratic(k, dot, len, t) - Quadratic(k, dot, len, s)
          == len * ((t - s) * (t - s));
      assert 0.0 <= (t - s) * (t - s);
    }
  }

  /** Squared distance from p to the trajectory point at t, as a quadratic in t. */
  lemma DistSqQuadratic(p: Point, originX: real, targetX: real, t: real)
    ensures var c := targetX - originX;
            var a := p.x - originX;
            DistSq(p, TrajectoryAt(originX, targetX, t))
              == Quadratic(a * a + p.y * p.y, a * c + p.y * Ground, c * c + Ground * Ground, t)
  {
    var c := targetX - originX;
    var a := p.x - originX;
    var q := TrajectoryAt(originX, targetX, t);
    assert p.x - q.x == a - c * t;
    assert p.y - q.y == p.y - Ground * t;
    assert (a - c * t) * (a - c * t) == a * a - 2.0 * t * a * c + t * t * c * c;
    assert (p.y - Ground * t) * (p.y - Ground * t) == p.y * p.y - 2.0 * t * p.y * Ground + t * t * Ground * Ground;
  }

  /** The unclamped projection parameter, as dot / len of the quadratic. */
  lemma ProjectionParamValue(p: Point, originX: real, targetX: real)
    ensures var c := targetX - originX;
            var len := c * c + Ground * Ground;
            0.0 < len && ProjectionParam(p, originX, targetX) * len == (p.x - originX) * c + p.y * Ground
  {
    var c := targetX - originX;
    assert 0.0 <= c * c;
  }

  /** The clamped projection is the nearest point of the whole segment. */
  lemma NearestIsClosest(p: Point, originX: real, targetX: real, t: real)
    requires 0.0 <= t <= 1.0
    ensures DistSq(p, NearestOnTrajectory(p, originX, targetX))
              <= DistSq(p, TrajectoryAt(originX, targetX, t))
  {
    var c := targetX - originX;
    var a := p.x - originX;
    var k, dot, len := a * a + p.y * p.y, a * c + p.y * Ground, c * c + Ground * Ground;
    var s := NearestParam(p, originX, targetX);
    NearestParamMinimises(p, originX, targetX, t);
    DistSqQuadratic(p, originX, targetX, s);
    DistSqQuadratic(p, originX, targetX, t);
  }

  /** The clamped projection parameter minimises the quadratic over [0, 1]. */
  lemma NearestParamMinimises(p: Point, originX: real, targetX: real, t: real)
    requires 0.0 <= t <= 1.0
    ensures var c := targetX - originX;
            var a := p.x - originX;
            var k, dot, len := a * a + p.y * p.y, a * c + p.y * Ground, c * c + Ground * Ground;
            Quadratic(k, dot, len, NearestParam(p, originX, targetX)) <= Quadratic(k, dot, len, t)
  {
    var c := targetX - originX;
    var a := p.x - originX;
    var k, dot, len := a * a + p.y * p.y, a * c + p.y * Ground, c * c + Ground * Ground;
    ProjectionParamValue(p, originX, targetX);
    QuadraticMin(k, dot, len, ProjectionParam(p, originX, targetX), NearestParam(p, originX, targetX), t);
  }

  /** The nearest point is closer than a bound exactly when some point of the
      trajectory is. */
  lemma NearTrajectoryIff(p: Point, originX: real, targetX: real, boundSq: real)
    ensures DistSq(p, NearestOnTrajectory(p, originX, targetX)) < boundSq
        <==> exists t :: 0.0 <= t <= 1.0 && DistSq(p, TrajectoryAt(originX, targetX, t)) < boundSq
  {
    var s := NearestParam(p, originX, targetX);
    if DistSq(p, NearestOnTrajectory(p, originX, targetX)) < boundSq {
      assert DistSq(p, TrajectoryAt(originX, targetX, s)) < boundSq;
    }
    if exists t :: 0.0 <= t <= 1.0 && DistSq(p, TrajectoryAt(originX, targetX, t)) < boundSq {
      var t :| 0.0 <= t <= 1.0 && DistSq(p, TrajectoryAt(originX, targetX, t)) < boundSq;
      NearestIsClosest(p, originX, targetX, t);
    }
  }
}
