/** The pointer paths `HumanSimulator` synthesises: the Bézier curve through
    random control points evaluated by de Casteljau reduction, the bounded
    jitter added to it, and the eased straight path.  Coordinates are
    integers; the curve's intermediate points are reals, turned back into
    integers by Python's truncating `int()`. */
module Geometry {
  import opened Common
  import opened Chance

  type Point = (int, int)
  type RPoint = (real, real)

  function ToReal(p: Point): RPoint {
    (p.0 as real, p.1 as real)
  }

  /** `(int(p[0]), int(p[1]))`. */
  function Truncated(p: RPoint): Point {
    (Trunc(p.0), Trunc(p.1))
  }

  // ---------------------------------------------------------------------
  // Control points

  /** The largest random offset of a control point, in pixels. */
  const MaxOffset := 50

  /** The point of the straight line from `start` to `end` at fraction
      `(i + 1) / (n + 1)`, where control point `i` of `n` is placed. */
  function LinePoint(start: Point, end: Point, i: nat, n: nat): RPoint {
    var t := (i + 1) as real / (n + 1) as real;
    (start.0 as real + (end.0 - start.0) as real * t, start.1 as real + (end.1 - start.1) as real * t)
  }

  /** Control point `i` of `n`, its line point moved by `offset`. */
  function ControlPoint(start: Point, end: Point, i: nat, n: nat, offset: Point): Point {
    var p := LinePoint(start, end, i, n);
    (Trunc(p.0 + offset.0 as real), Trunc(p.1 + offset.1 as real))
  }

  function ControlPoints(start: Point, end: Point, offsets: seq<Point>): (ctrl: seq<Point>)
    ensures |ctrl| == |offsets|
  {
    seq(|offsets|, i requires 0 <= i < |offsets| => ControlPoint(start, end, i, |offsets|, offsets[i]))
  }

  predicate SmallOffset(o: Point) {
    WithinBound(o, MaxOffset)
  }

  /** Truncation after an offset of at most 50 stays within 51 pixels, on
      each axis, of the control point's place on the line. */
  lemma ControlPointNearLine(start: Point, end: Point, i: nat, n: nat, offset: Point)
    requires SmallOffset(offset)
    ensures var c := ControlPoint(start, end, i, n, offset);
      var p := LinePoint(start, end, i, n);
      p.0 - 51.0 < c.0 as real < p.0 + 51.0 && p.1 - 51.0 < c.1 as real < p.1 + 51.0
  {
  }

  // ---------------------------------------------------------------------
  // de Casteljau reduction

  /** `(1 - t) * a + t * b`. */
  function Mix(a: real, b: real, t: real): real {
    (1.0 - t) * a + t * b
  }

  function Lerp(p: RPoint, q: RPoint, t: real): RPoint {
    (Mix(p.0, q.0, t), Mix(p.1, q.1, t))
  }

  /** One round of the reduction: each neighbouring pair becomes one point. */
  function Reduce(ps: seq<RPoint>, t: real): (r: seq<RPoint>)
    requires |ps| >= 1
    ensures |r| == |ps| - 1
    ensures forall j | 0 <= j < |r| :: r[j] == Lerp(ps[j], ps[j + 1], t)
  {
    seq(|ps| - 1, j requires 0 <= j < |ps| - 1 => Lerp(ps[j], ps[j + 1], t))
  }

  /** Reducing until one point is left: the curve's point at `t`. */
  function Casteljau(ps: seq<RPoint>, t: real): RPoint
    requires |ps| >= 1
    decreases |ps|
  {
    if |ps| == 1 then ps[0] else Casteljau(Reduce(ps, t), t)
  }

  /** The reduction at `t = 0` keeps the first point. */
  lemma {:induction false} CasteljauAtStart(ps: seq<RPoint>)
    requires |ps| >= 1
    ensures Casteljau(ps, 0.0) == ps[0]
    decreases |ps|
  {
    if |ps| > 1 {
      var r := Reduce(ps, 0.0);
      assert r[0] == Lerp(ps[0], ps[1], 0.0);
      CasteljauAtStart(r);
    }
  }

  /** The reduction at `t = 1` keeps the last point. */
  lemma {:induction false} CasteljauAtEnd(ps: seq<RPoint>)
    requires |ps| >= 1
    ensures Casteljau(ps, 1.0) == ps[|ps| - 1]
    decreases |ps|
  {
    if |ps| > 1 {
      var r := Reduce(ps, 1.0);
      assert r[|r| - 1] == Lerp(ps[|ps| - 2], ps[|ps| - 1], 1.0);
      CasteljauAtEnd(r);
    }
  }

  /** All points lie in the box `[lo, hi]`. */
  predicate InBox(ps: seq<RPoint>, lo: RPoint, hi: RPoint) {
    forall j | 0 <= j < |ps| :: lo.0 <= ps[j].0 <= hi.0 && lo.1 <= ps[j].1 <= hi.1
  }

  /** A mix of two values for `0 <= t <= 1` lies between them. */
  lemma MixBetween(a: real, b: real, t: real, lo: real, hi: real)
    requires 0.0 <= t <= 1.0 && lo <= a <= hi && lo <= b <= hi
    ensures lo <= Mix(a, b, t) <= hi
  {
    NonNegativeProduct(1.0 - t, a - lo);
    NonNegativeProduct(t, b - lo);
    NonNegativeProduct(1.0 - t, hi - a);
    NonNegativeProduct(t, hi - b);
  }

  /** The curve never leaves the bounding box of its control polygon. */
  lemma {:induction false} CasteljauInBox(ps: seq<RPoint>, t: real, lo: RPoint, hi: RPoint)
    requires |ps| >= 1 && 0.0 <= t <= 1.0 && InBox(ps, lo, hi)
    ensures InBox([Casteljau(ps, t)], lo, hi)
    decreases |ps|
  {
    if |ps| > 1 {
      var r := Reduce(ps, t);
      forall j | 0 <= j < |r| ensures lo.0 <= r[j].0 <= hi.0 && lo.1 <= r[j].1 <= hi.1 {
        MixBetween(ps[j].0, ps[j + 1].0, t, lo.0, hi.0);
        MixBetween(ps[j].1, ps[j + 1].1, t, lo.1, hi.1);
      }
      CasteljauInBox(r, t, lo, hi);
    }
  }

  // ---------------------------------------------------------------------
  // The curve

  /** The number of points on a generated curve. */
  const CurvePoints := 50

  /** The reduction's input: start, control points, end. */
  function Polygon(start: Point, end: Point, ctrl: seq<Point>): (ps: seq<RPoint>)
    ensures |ps| == |ctrl| + 2 && ps[0] == ToReal(start) && ps[|ps| - 1] == ToReal(end)
  {
    [ToReal(start)] + seq(|ctrl|, j requires 0 <= j < |ctrl| => ToReal(ctrl[j])) + [ToReal(end)]
  }

  /** The curve parameter of point `i`: `t = i / 49`. */
  function CurveParam(i: nat): real {
    i as real / (CurvePoints - 1) as real
  }

  lemma CurveParamEnds()
    ensures CurveParam(0) == 0.0 && CurveParam(CurvePoints - 1) == 1.0
  {
  }

  /** Point `i` of the curve. */
  function CurvePoint(start: Point, end: Point, ctrl: seq<Point>, i: nat): Point {
    Truncated(Casteljau(Polygon(start, end, ctrl), CurveParam(i)))
  }

  /** The 50 points of the curve. */
  function Curve(start: Point, end: Point, ctrl: seq<Point>): (curve: seq<Point>)
    ensures |curve| == CurvePoints
  {
    seq(CurvePoints, i requires 0 <= i < CurvePoints => CurvePoint(start, end, ctrl, i))
  }

  /** One curve point: the polygon reduced round by round, in place of
      `points`, until one point is left. */
  method Evaluate(polygon: seq<RPoint>, t: real) returns (p: RPoint)
    requires |polygon| >= 1
    ensures p == Casteljau(polygon, t)
  {
    var points := polygon;
    while |points| > 1
      invariant |points| >= 1
      invariant Casteljau(points, t) == Casteljau(polygon, t)
      decreases |points|
    {
      var next: seq<RPoint> := [];
      for j := 0 to |points| - 1
        invariant next == Reduce(points, t)[..j]
      {
        next := next + [Lerp(points[j], points[j + 1], t)];
      }
      assert next == Reduce(points, t);
      points := next;
    }
    p := points[0];
  }

  /** `_generate_bezier_curve(start, end, len(offsets))` for given control
      point offsets: first the control points, then 50 curve points, each
      the truncated last point of a de Casteljau reduction. */
  method BezierCurve(start: Point, end: Point, offsets: seq<Point>) returns (curve: seq<Point>)
    ensures curve == Curve(start, end, ControlPoints(start, end, offsets))
  {
    var ctrl := PlaceControlPoints(start, end, offsets);
    var polygon := Polygon(start, end, ctrl);
    ghost var full := Curve(start, end, ctrl);
    curve := [];
    for i := 0 to CurvePoints
      invariant curve == full[..i]
    {
      var p := Evaluate(polygon, CurveParam(i));
      PrefixStep(full, i);
      curve := curve + [Truncated(p)];
    }
  }

  /** The control points, one per offset, spread evenly along the line. */
  method PlaceControlPoints(start: Point, end: Point, offsets: seq<Point>) returns (ctrl: seq<Point>)
    ensures ctrl == ControlPoints(start, end, offsets)
  {
    ctrl := [];
    for i := 0 to |offsets|
      invariant ctrl == ControlPoints(start, end, offsets)[..i]
    {
      ctrl := ctrl + [ControlPoint(start, end, i, |offsets|, offsets[i])];
    }
  }

  /** The curve starts at `start` and ends at `end`. */
  lemma CurveEnds(start: Point, end: Point, ctrl: seq<Point>)
    ensures CurvePoint(start, end, ctrl, 0) == start
    ensures CurvePoint(start, end, ctrl, CurvePoints - 1) == end
    ensures Curve(start, end, ctrl)[0] == start && Curve(start, end, ctrl)[CurvePoints - 1] == end
  {
    var ps := Polygon(start, end, ctrl);
    CasteljauAtStart(ps);
    CasteljauAtEnd(ps);
    CurveParamEnds();
    TruncOfWhole(start.0);
    TruncOfWhole(start.1);
    TruncOfWhole(end.0);
    TruncOfWhole(end.1);
  }

  /** Every point of the curve lies within any box, with whole-number
      corners, that holds the start, the end and the control points. */
  lemma CurveInBox(start: Point, end: Point, ctrl: seq<Point>, i: nat, lo: Point, hi: Point)
    requires i < CurvePoints
    requires forall p | p in [start, end] + ctrl :: lo.0 <= p.0 <= hi.0 && lo.1 <= p.1 <= hi.1
    ensures var c := CurvePoint(start, end, ctrl, i);
      lo.0 <= c.0 <= hi.0 && lo.1 <= c.1 <= hi.1
  {
    var ps := Polygon(start, end, ctrl);
    forall j | 0 <= j < |ps|
      ensures lo.0 as real <= ps[j].0 <= hi.0 as real && lo.1 as real <= ps[j].1 <= hi.1 as real
    {
      if j == 0 {
        assert start in [start, end] + ctrl;
      } else if j == |ps| - 1 {
        assert end in [start, end] + ctrl;
      } else {
        assert ps[j] == ToReal(ctrl[j - 1]);
        assert ctrl[j - 1] in [start, end] + ctrl;
      }
    }
    var t := CurveParam(i);
    assert 0.0 <= t <= 1.0;
    CasteljauInBox(ps, t, ToReal(lo), ToReal(hi));
    var q := Casteljau(ps, t);
    assert InBox([q], ToReal(lo), ToReal(hi));
    assert [q][0] == q;
    TruncWithin(q.0, lo.0, hi.0);
    TruncWithin(q.1, lo.1, hi.1);
  }

  // ---------------------------------------------------------------------
  // Jitter

  /** `int(jitter_factor * 10)`: the largest jitter on each axis. */
  function JitterBound(jitterFactor: real): int {
    Trunc(jitterFactor * 10.0)
  }

  predicate WithinBound(o: Point, bound: int) {
    -bound <= o.0 <= bound && -bound <= o.1 <= bound
  }

  /** `n` pairs of `random.randint(-bound, bound)`, x before y, made from
      the values of the stream `u` from position `d` on. */
  function DrawnOffsets(u: nat -> Unit, d: nat, n: nat, bound: int): (offsets: seq<Point>)
    requires bound >= 0
    ensures |offsets| == n && forall i | 0 <= i < n :: WithinBound(offsets[i], bound)
    decreases n
  {
    if n == 0 then []
    else [(RandInt(-bound, bound, u(d)), RandInt(-bound, bound, u(d + 1)))] + DrawnOffsets(u, d + 2, n - 1, bound)
  }

  /** `path` with each point moved by its own offset. */
  function Shifted(path: seq<Point>, offsets: seq<Point>): (moved: seq<Point>)
    requires |offsets| == |path|
    ensures |moved| == |path|
    ensures forall i | 0 <= i < |path| :: moved[i] == (path[i].0 + offsets[i].0, path[i].1 + offsets[i].1)
  {
    seq(|path|, i requires 0 <= i < |path| => (path[i].0 + offsets[i].0, path[i].1 + offsets[i].1))
  }

  /** A curve moved by offsets within the bound leaves within the bound of
      its start and arrives within the bound of its end. */
  lemma JitteredCurveEnds(start: Point, end: Point, ctrl: seq<Point>, jitter: seq<Point>, bound: int, path: seq<Point>)
    requires |jitter| == CurvePoints && path == Shifted(Curve(start, end, ctrl), jitter)
    requires forall k | 0 <= k < |jitter| :: WithinBound(jitter[k], bound)
    ensures Abs(path[0].0 - start.0) <= bound && Abs(path[0].1 - start.1) <= bound
    ensures Abs(path[|path| - 1].0 - end.0) <= bound && Abs(path[|path| - 1].1 - end.1) <= bound
  {
    CurveEnds(start, end, ctrl);
    assert WithinBound(jitter[0], bound) && WithinBound(jitter[CurvePoints - 1], bound);
  }

  /** `_add_jitter_to_path(path, jitter_factor)` for given per-point offsets
      of at most `bound` pixels: each point moved by its offset, in order. */
  method JitterPath(path: seq<Point>, bound: int, offsets: seq<Point>) returns (jittered: seq<Point>)
    requires |offsets| == |path|
    requires forall i | 0 <= i < |offsets| :: WithinBound(offsets[i], bound)
    ensures jittered == Shifted(path, offsets)
    ensures forall i | 0 <= i < |path| ::
              Abs(jittered[i].0 - path[i].0) <= bound && Abs(jittered[i].1 - path[i].1) <= bound
  {
    jittered := [];
    for i := 0 to |path|
      invariant |jittered| == i
      invariant forall k | 0 <= k < i :: jittered[k] == (path[k].0 + offsets[k].0, path[k].1 + offsets[k].1)
    {
      jittered := jittered + [(path[i].0 + offsets[i].0, path[i].1 + offsets[i].1)];
    }
    assert jittered == Shifted(path, offsets);
  }

  // ---------------------------------------------------------------------
  // The eased straight path

  /** `t * t * (3 - 2 * t)`. */
  function Smoothstep(t: real): real {
    t * t * (3.0 - 2.0 * t)
  }

  /** Smoothstep maps [0, 1] onto itself, fixing both ends. */
  lemma SmoothstepRange(t: real)
    requires 0.0 <= t <= 1.0
    ensures 0.0 <= Smoothstep(t) <= 1.0
    ensures Smoothstep(0.0) == 0.0 && Smoothstep(1.0) == 1.0
  {
    NonNegativeProduct(t, t);
    NonNegativeProduct(t * t, 3.0 - 2.0 * t);
    NonNegativeProduct(1.0 - t, 1.0 - t);
    NonNegativeProduct((1.0 - t) * (1.0 - t), 1.0 + 2.0 * t);
    assert 1.0 - Smoothstep(t) == (1.0 - t) * (1.0 - t) * (1.0 + 2.0 * t);
  }

  /** The integer square root: the largest `r` with `r * r <= n`. */
  function IntSqrt(n: nat): (r: nat)
    ensures r * r <= n < (r + 1) * (r + 1)
  {
    if n == 0 then 0
    else
      var r := IntSqrt(n - 1);
      if (r + 1) * (r + 1) <= n then r + 1 else r
  }

  /** `int(math.sqrt(dx ** 2 + dy ** 2) / 10)`: the largest `k` with
      `10 * k` at most the distance. */
  function DistanceTenths(dx: int, dy: int): (k: nat)
    ensures 100 * (k * k) <= dx * dx + dy * dy < 100 * ((k + 1) * (k + 1))
  {
    var d := dx * dx + dy * dy;
    Squares(dx, dy);
    var k := IntSqrt(d / 100);
    assert k * k <= d / 100 < (k + 1) * (k + 1);
    k
  }

  lemma Squares(dx: int, dy: int)
    ensures dx * dx + dy * dy >= 0
  {
  }

  /** `max(5, int(distance / 10))`: the number of steps of the eased path. */
  function EasedSteps(from: Point, to: Point): (n: nat)
    ensures n >= 5
  {
    var k := DistanceTenths(to.0 - from.0, to.1 - from.1);
    if k < 5 then 5 else k
  }

  /** `int(a + (b - a) * e)`: the coordinate a fraction `e` of the way
      from `a` to `b`. */
  function Toward(a: int, b: int, e: real): int {
    Trunc(a as real + Scale((b - a) as real, e))
  }

  /** `w * e`, which for `0 <= e <= 1` lies between 0 and `w`. */
  function Scale(w: real, e: real): (p: real)
    ensures 0.0 <= e <= 1.0 && w >= 0.0 ==> 0.0 <= p <= w
    ensures 0.0 <= e <= 1.0 && w <= 0.0 ==> w <= p <= 0.0
    ensures e == 0.0 ==> p == 0.0
    ensures e == 1.0 ==> p == w
  {
    if 0.0 <= e <= 1.0 then
      if w >= 0.0 then
        NonNegativeProduct(w, e);
        NonNegativeProduct(w, 1.0 - e);
        w * e
      else
        NonNegativeProduct(-w, e);
        NonNegativeProduct(-w, 1.0 - e);
        w * e
    else w * e
  }

  lemma TowardEnds(a: int, b: int)
    ensures Toward(a, b, 0.0) == a && Toward(a, b, 1.0) == b
  {
    TruncOfWhole(a);
    TruncOfWhole(b);
  }

  lemma TruncOfWhole(n: int)
    ensures Trunc(n as real) == n
  {
  }

  /** Point `i` of `n` of the eased path. */
  function EasedPoint(from: Point, to: Point, i: nat, n: nat): Point
    requires n > 0
  {
    var e := Smoothstep(i as real / n as real);
    (Toward(from.0, to.0, e), Toward(from.1, to.1, e))
  }

  /** The `num_points + 1` points of the eased path. */
  function Eased(from: Point, to: Point): (path: seq<Point>)
    ensures |path| == EasedSteps(from, to) + 1
  {
    var n := EasedSteps(from, to);
    seq(n + 1, i requires 0 <= i <= n => EasedPoint(from, to, i, n))
  }

  /** The straight branch of `move_mouse_human`: the eased points from the
      current position to the target. */
  method EasedPath(from: Point, to: Point) returns (path: seq<Point>)
    ensures path == Eased(from, to)
  {
    var n := EasedSteps(from, to);
    ghost var full := Eased(from, to);
    path := [];
    for i := 0 to n + 1
      invariant path == full[..i]
    {
      var t := i as real / n as real;
      var eased := Smoothstep(t);
      var x := Toward(from.0, to.0, eased);
      var y := Toward(from.1, to.1, eased);
      assert full[i] == (x, y);
      PrefixStep(full, i);
      path := path + [(x, y)];
    }
  }

  /** The eased path starts at the current position and ends exactly at
      the target. */
  lemma EasedEnds(from: Point, to: Point, n: nat)
    requires n > 0
    ensures EasedPoint(from, to, 0, n) == from
    ensures EasedPoint(from, to, n, n) == to
  {
    SmoothstepRange(0.0);
    var t := n as real / n as real;
    assert t == 1.0;
    assert Smoothstep(t) == 1.0;
    TowardEnds(from.0, to.0);
    TowardEnds(from.1, to.1);
  }

  /** The point lies in the box the two ends span. */
  predicate WithinSpan(from: Point, to: Point, p: Point) {
    Min(from.0, to.0) <= p.0 <= Max(from.0, to.0) && Min(from.1, to.1) <= p.1 <= Max(from.1, to.1)
  }

  /** The eased path has at least six points, starts at the current
      position, ends exactly at the target and stays in the box the two
      span. */
  lemma EasedShape(from: Point, to: Point)
    ensures var path := Eased(from, to);
      |path| >= 6 && path[0] == from && path[|path| - 1] == to &&
      forall i | 0 <= i < |path| :: WithinSpan(from, to, path[i])
  {
    var n := EasedSteps(from, to);
    var path := Eased(from, to);
    EasedEnds(from, to, n);
    assert path[0] == EasedPoint(from, to, 0, n);
    assert path[n] == EasedPoint(from, to, n, n);
    forall i | 0 <= i < |path|
      ensures WithinSpan(from, to, path[i])
    {
      EasedInBox(from, to, i, n);
    }
  }

  /** Every eased point lies in the box spanned by the two ends. */
  lemma EasedInBox(from: Point, to: Point, i: nat, n: nat)
    requires 0 < n && i <= n
    ensures WithinSpan(from, to, EasedPoint(from, to, i, n))
  {
    var t := i as real / n as real;
    SmoothstepRange(t);
    var e := Smoothstep(t);
    AlongSegment(from.0, to.0, e);
    AlongSegment(from.1, to.1, e);
  }

  function Min(a: int, b: int): int { if a < b then a else b }

  /** `int(a + (b - a) * e)` for `0 <= e <= 1` lies between `a` and `b`. */
  lemma AlongSegment(a: int, b: int, e: real)
    requires 0.0 <= e <= 1.0
    ensures Min(a, b) <= Toward(a, b, e) <= Max(a, b)
  {
    var p := Scale((b - a) as real, e);
    if a <= b {
      TruncWithin(a as real + p, a, b);
    } else {
      TruncWithin(a as real + p, b, a);
    }
  }
}
