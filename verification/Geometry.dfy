/** Boxes, centres and overlap, as in src/utils/geometry.py. */
module Geometry {
  import opened Prelude

  datatype Point = Point(x: real, y: real)

  datatype Box = Box(x1: real, y1: real, x2: real, y2: real)

  function Center(b: Box): Point {
    Point((b.x1 + b.x2) / 2.0, (b.y1 + b.y2) / 2.0)
  }

  /** The Euclidean distance of `p` and `q` is at most `d`, stated on squares. */
  predicate Within(p: Point, q: Point, d: real) {
    d >= 0.0 && (p.x - q.x) * (p.x - q.x) + (p.y - q.y) * (p.y - q.y) <= d * d
  }

  /** Exponential smoothing of every coordinate. */
  function Blend(old_: Box, new_: Box, alpha: real): Box {
    Box(old_.x1 * (1.0 - alpha) + new_.x1 * alpha,
        old_.y1 * (1.0 - alpha) + new_.y1 * alpha,
        old_.x2 * (1.0 - alpha) + new_.x2 * alpha,
        old_.y2 * (1.0 - alpha) + new_.y2 * alpha)
  }

  function Overlap(a: Box, b: Box): real {
    MaxReal(0.0, MinReal(a.x2, b.x2) - MaxReal(a.x1, b.x1))
    * MaxReal(0.0, MinReal(a.y2, b.y2) - MaxReal(a.y1, b.y1))
  }

  function Area(b: Box): real {
    MaxReal(0.0, b.x2 - b.x1) * MaxReal(0.0, b.y2 - b.y1)
  }

  function Ratio(part: real, whole: real): real {
    if whole <= 0.0 then 0.0 else part / whole
  }

  function Iou(a: Box, b: Box): real {
    Ratio(Overlap(a, b), Area(a) + Area(b) - Overlap(a, b))
  }

  /** A box of positive area, and two boxes that share no area. */
  predicate Proper(b: Box) { b.x1 < b.x2 && b.y1 < b.y2 }

  predicate Apart(a: Box, b: Box) {
    a.x2 <= b.x1 || b.x2 <= a.x1 || a.y2 <= b.y1 || b.y2 <= a.y1
  }

  lemma WithinBoundsEachAxis(p: Point, q: Point, d: real)
    requires Within(p, q, d)
    ensures Abs(p.x - q.x) <= d && Abs(p.y - q.y) <= d
  {
    SquareBound(p.x - q.x, p.y - q.y, d);
    SquareBound(p.y - q.y, p.x - q.x, d);
  }

  lemma ProductPositive(a: real, b: real)
    requires a > 0.0 && b > 0.0
    ensures a * b > 0.0
  {
  }

  lemma SquareBound(u: real, v: real, d: real)
    requires d >= 0.0 && u * u + v * v <= d * d
    ensures Abs(u) <= d
  {
    var a := Abs(u);
    assert v * v >= 0.0 && a * a == u * u;
    assert (a - d) * (a + d) == a * a - d * d;
    if a > d {
      ProductPositive(a - d, a + d);
    }
  }

  /** Whenever `r` is the distance of the points: they are within `d` exactly if `r` is at
      most `d`. */
  lemma WithinIsDistance(p: Point, q: Point, d: real, r: real)
    requires r >= 0.0 && r * r == (p.x - q.x) * (p.x - q.x) + (p.y - q.y) * (p.y - q.y)
    ensures Within(p, q, d) <==> r <= d
  {
    if r <= d {
      ProductMonotone(r, r, d, d);
    } else if d >= 0.0 {
      ProductPositive(r - d, r + d);
      assert (r - d) * (r + d) == r * r - d * d;
    }
  }

  /** The centre is as far from one edge as from the opposite one. */
  lemma CenterIsMiddle(b: Box)
    ensures var c := Center(b); c.x - b.x1 == b.x2 - c.x && c.y - b.y1 == b.y2 - c.y
  {
  }

  /** `p'` lies `alpha` of the way from `p` to `q`. */
  ghost predicate Moved(p: Point, q: Point, alpha: real, p': Point) {
    && p'.x - p.x == alpha * (q.x - p.x)
    && p'.y - p.y == alpha * (q.y - p.y)
  }

  /** Smoothing moves the centre by `alpha` of the way to the new centre. */
  lemma BlendMovesCenter(a: Box, b: Box, alpha: real)
    ensures Moved(Center(a), Center(b), alpha, Center(Blend(a, b, alpha)))
  {
  }

  /** Every edge of `b` lies `alpha` of the way from `old_` to `seen`. */
  ghost predicate PartOfTheWay(old_: Box, seen: Box, alpha: real, b: Box) {
    && b.x1 - old_.x1 == alpha * (seen.x1 - old_.x1) && b.y1 - old_.y1 == alpha * (seen.y1 - old_.y1)
    && b.x2 - old_.x2 == alpha * (seen.x2 - old_.x2) && b.y2 - old_.y2 == alpha * (seen.y2 - old_.y2)
  }

  /** Smoothing moves every edge `alpha` of the way. */
  lemma BlendIsPartOfTheWay(a: Box, b: Box, alpha: real)
    ensures PartOfTheWay(a, b, alpha, Blend(a, b, alpha))
  {
  }

  lemma BlendOfEqualBoxes(b: Box, alpha: real)
    ensures Blend(b, b, alpha) == b
  {
  }

  lemma RatioOfEqual(z: real)
    requires z > 0.0
    ensures Ratio(z, z) == 1.0 && Ratio(0.0, z) == 0.0
  {
  }

  lemma OverlapOfSelf(a: Box)
    requires Proper(a)
    ensures Overlap(a, a) == Area(a) > 0.0
  {
    ProductPositive(a.x2 - a.x1, a.y2 - a.y1);
  }

  lemma OverlapApart(a: Box, b: Box)
    requires Apart(a, b)
    ensures Overlap(a, b) == 0.0
  {
  }

  lemma OverlapIsSymmetric(a: Box, b: Box)
    ensures Overlap(a, b) == Overlap(b, a)
  {
    assert MinReal(a.x2, b.x2) == MinReal(b.x2, a.x2) && MaxReal(a.x1, b.x1) == MaxReal(b.x1, a.x1);
    assert MinReal(a.y2, b.y2) == MinReal(b.y2, a.y2) && MaxReal(a.y1, b.y1) == MaxReal(b.y1, a.y1);
  }

  /** The box covers the point `(x, y)`. */
  predicate Covers(b: Box, x: real, y: real) { b.x1 <= x < b.x2 && b.y1 <= y < b.y2 }

  /** `common` covers exactly the points that both boxes cover. */
  ghost predicate IsCommonPart(a: Box, b: Box, common: Box) {
    forall x, y :: Covers(common, x, y) <==> Covers(a, x, y) && Covers(b, x, y)
  }

  /** The overlap is the area of the common part, width times height. */
  lemma OverlapIsCommonArea(a: Box, b: Box) returns (common: Box)
    ensures IsCommonPart(a, b, common)
    ensures Overlap(a, b) == if Proper(common) then (common.x2 - common.x1) * (common.y2 - common.y1) else 0.0
  {
    common := Box(MaxReal(a.x1, b.x1), MaxReal(a.y1, b.y1), MinReal(a.x2, b.x2), MinReal(a.y2, b.y2));
  }

  /** Area is width times height. */
  lemma AreaIsProduct(b: Box)
    ensures Area(b) == if Proper(b) then (b.x2 - b.x1) * (b.y2 - b.y1) else 0.0
  {
  }

  lemma RatioTimesWhole(part: real, whole: real)
    requires whole > 0.0
    ensures Ratio(part, whole) * whole == part
  {
  }

  /** The overlap ratio of two proper boxes is the share of the common part in all that
      they cover together. */
  lemma IouIsShare(a: Box, b: Box)
    requires Proper(a) && Proper(b)
    ensures var whole := Area(a) + Area(b) - Overlap(a, b); whole > 0.0 && Iou(a, b) * whole == Overlap(a, b)
  {
    OverlapOfSelf(b);
    OverlapWithin(a, b);
    RatioTimesWhole(Overlap(a, b), Area(a) + Area(b) - Overlap(a, b));
  }

  /** The overlap ratio of a proper box with itself is 1; of boxes apart, 0. */
  lemma IouOfSelf(a: Box)
    requires Proper(a)
    ensures Iou(a, a) == 1.0
  {
    OverlapOfSelf(a);
    RatioOfEqual(Area(a));
  }

  lemma IouApart(a: Box, b: Box)
    requires Proper(a) && Proper(b) && Apart(a, b)
    ensures Iou(a, b) == 0.0
  {
    OverlapOfSelf(a);
    OverlapOfSelf(b);
    OverlapApart(a, b);
    RatioOfEqual(Area(a) + Area(b));
  }

  lemma IouIsSymmetric(a: Box, b: Box)
    ensures Iou(a, b) == Iou(b, a)
  {
    OverlapIsSymmetric(a, b);
  }

  lemma ProductMonotone(a: real, b: real, c: real, d: real)
    requires 0.0 <= a <= c && 0.0 <= b <= d
    ensures a * b <= c * d
  {
    if c - a > 0.0 && b > 0.0 {
      ProductPositive(c - a, b);
    }
    if c > 0.0 && d - b > 0.0 {
      ProductPositive(c, d - b);
    }
    assert c * d - a * b == (c - a) * b + c * (d - b);
  }

  lemma OverlapWithin(a: Box, b: Box)
    ensures 0.0 <= Overlap(a, b) <= Area(a)
  {
    var w := MaxReal(0.0, MinReal(a.x2, b.x2) - MaxReal(a.x1, b.x1));
    var h := MaxReal(0.0, MinReal(a.y2, b.y2) - MaxReal(a.y1, b.y1));
    ProductMonotone(0.0, 0.0, w, h);
    ProductMonotone(w, h, MaxReal(0.0, a.x2 - a.x1), MaxReal(0.0, a.y2 - a.y1));
  }

  lemma RatioAtMostOne(part: real, whole: real)
    requires part <= whole
    ensures Ratio(part, whole) <= 1.0
  {
    if whole > 0.0 {
      var q := part / whole;
      assert q * whole == part;
      assert (q - 1.0) * whole == q * whole - whole;
      if q > 1.0 {
        ProductPositive(q - 1.0, whole);
      }
    }
  }

  /** No two boxes have an overlap ratio above 1. */
  lemma IouAtMostOne(a: Box, b: Box)
    ensures Iou(a, b) <= 1.0
  {
    OverlapWithin(a, b);
    OverlapWithin(b, a);
    OverlapIsSymmetric(a, b);
    RatioAtMostOne(Overlap(a, b), Area(a) + Area(b) - Overlap(a, b));
  }

  /** The overlap function tells the boxes of `world` apart: each matches itself
      and none overlaps another. */
  ghost predicate ToldApart(iou: (Box, Box) -> real, threshold: real, world: set<Box>) {
    && (forall b :: b in world ==> iou(b, b) > 0.0 && iou(b, b) >= threshold)
    && (forall a, b :: a in world && b in world && a != b ==> iou(a, b) <= 0.0)
  }

  /** Boxes of positive area that share none are told apart by the overlap ratio. */
  lemma ApartBoxesAreToldApart(threshold: real, world: set<Box>)
    requires threshold <= 1.0
    requires forall b :: b in world ==> Proper(b)
    requires forall a, b :: a in world && b in world && a != b ==> Apart(a, b)
    ensures ToldApart(Iou, threshold, world)
  {
    forall b | b in world ensures Iou(b, b) == 1.0 {
      IouOfSelf(b);
    }
    forall a, b | a in world && b in world && a != b ensures Iou(a, b) == 0.0 {
      IouApart(a, b);
    }
  }
}
