/** Box geometry shared by the tracker: centres, areas and intersection-over-union. */
module Geometry {

  /** An axis-aligned box [x1, y1, x2, y2]. Nothing forces x1 <= x2 or y1 <= y2:
      degenerate boxes are tolerated, not rejected. */
  datatype Box = Box(x1: real, y1: real, x2: real, y2: real)

  /** A point (x, y) in pixel coordinates. */
  datatype Point = Point(x: real, y: real)

  function Max(a: real, b: real): real { if a >= b then a else b }

  function Min(a: real, b: real): real { if a <= b then a else b }

  /** The centre of a box. */
  function Center(b: Box): Point {
    Point((b.x1 + b.x2) / 2.0, (b.y1 + b.y2) / 2.0)
  }

  /** Signed area: negative or zero for a degenerate box. */
  function Area(b: Box): real {
    (b.x2 - b.x1) * (b.y2 - b.y1)
  }

  /** Width and height of the overlap of two boxes, clamped at zero. */
  function OverlapWidth(a: Box, b: Box): real {
    Max(0.0, Min(a.x2, b.x2) - Max(a.x1, b.x1))
  }

  function OverlapHeight(a: Box, b: Box): real {
    Max(0.0, Min(a.y2, b.y2) - Max(a.y1, b.y1))
  }

  function Intersection(a: Box, b: Box): real {
    OverlapWidth(a, b) * OverlapHeight(a, b)
  }

  function Union(a: Box, b: Box): real {
    Area(a) + Area(b) - Intersection(a, b)
  }

  /** A box whose corners are in order and whose area is positive. */
  predicate Proper(b: Box) {
    b.x1 < b.x2 && b.y1 < b.y2
  }

  /** Intersection-over-union of two boxes, 0 when the union is not positive.
      The result lies in [0, 1] for every pair of boxes, degenerate ones included:
      a positive overlap forces both boxes to be proper. */
  function ComputeIou(a: Box, b: Box): (r: real)
    ensures 0.0 <= r <= 1.0
    ensures Union(a, b) <= 0.0 ==> r == 0.0
    ensures OverlapWidth(a, b) == 0.0 || OverlapHeight(a, b) == 0.0 ==> r == 0.0
    ensures r > 0.0 ==> Proper(a) && Proper(b)
  {
    var inter := Intersection(a, b);
    var union := Union(a, b);
    IntersectionBounded(a, b);
    if union > 0.0 then
      assert 0.0 <= inter <= union;
      DivisionAtMostOne(inter, union);
      inter / union
    else
      0.0
  }

  lemma MulMonotone(p: real, q: real, s: real, t: real)
    requires 0.0 <= p <= s && 0.0 <= q <= t
    ensures p * q <= s * t
  {
    assert p * q <= s * q;
    assert s * q <= s * t;
  }

  lemma DivisionAtMostOne(n: real, d: real)
    requires 0.0 <= n <= d && d > 0.0
    ensures 0.0 <= n / d <= 1.0
  {
    assert n / d * d == n;
  }

  /** The overlap is never negative, never larger than either box, and positive
      only when both boxes are proper. */
  lemma IntersectionBounded(a: Box, b: Box)
    ensures 0.0 <= Intersection(a, b)
    ensures Intersection(a, b) > 0.0 ==> Proper(a) && Proper(b)
    ensures Intersection(a, b) > 0.0 ==> Intersection(a, b) <= Area(a) && Intersection(a, b) <= Area(b)
    ensures Intersection(a, b) <= Union(a, b) || Intersection(a, b) == 0.0
  {
    var w, h := OverlapWidth(a, b), OverlapHeight(a, b);
    MulMonotone(0.0, 0.0, w, h);
    if w * h > 0.0 {
      assert w > 0.0 && h > 0.0;
      MulMonotone(w, h, a.x2 - a.x1, a.y2 - a.y1);
      MulMonotone(w, h, b.x2 - b.x1, b.y2 - b.y1);
    }
  }

  /** IoU does not depend on the order of its arguments. */
  lemma IouSymmetric(a: Box, b: Box)
    ensures ComputeIou(a, b) == ComputeIou(b, a)
  {
    assert OverlapWidth(a, b) == OverlapWidth(b, a);
    assert OverlapHeight(a, b) == OverlapHeight(b, a);
  }

  /** A proper box overlaps itself completely. */
  lemma IouOfItself(a: Box)
    requires Proper(a)
    ensures ComputeIou(a, a) == 1.0
  {
    assert OverlapWidth(a, a) == a.x2 - a.x1;
    assert OverlapHeight(a, a) == a.y2 - a.y1;
    assert Intersection(a, a) == Area(a);
    MulMonotone(0.0, 0.0, a.x2 - a.x1, a.y2 - a.y1);
    assert a.x2 - a.x1 > 0.0 && a.y2 - a.y1 > 0.0;
    assert Area(a) > 0.0;
  }
}
