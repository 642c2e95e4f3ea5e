/** Detections that jitter: each object is detected anywhere within a few pixels of its
    true box, and is found again anywhere there.  Under the overlap ratio such boxes
    still are one place, as long as the jitter is small against the boxes and the gaps. */
module ObjectJitter {
  import opened Prelude
  import opened Geometry
  import opened ObjectTracks
  import opened ObjectRuns
  import opened ObjectSteps
  import opened ObjectStability

  /** Every edge of `b` is within `e` of that of `w`. */
  predicate Near(b: Box, w: Box, e: real) {
    && w.x1 - e <= b.x1 <= w.x1 + e && w.y1 - e <= b.y1 <= w.y1 + e
    && w.x2 - e <= b.x2 <= w.x2 + e && w.y2 - e <= b.y2 <= w.y2 + e
  }

  /** The first box of the world near `b`. */
  function PlaceOf(world: seq<Box>, e: real, b: Box): (r: Option<Box>)
    ensures r.Some? ==> r.value in world && Near(b, r.value, e)
    ensures r.None? ==> forall w :: w in world ==> !Near(b, w, e)
  {
    if world == [] then None
    else if Near(b, world[0], e) then Some(world[0])
    else PlaceOf(world[1..], e, b)
  }

  function JitterPlaces(world: seq<Box>, e: real): Places {
    b => PlaceOf(world, e, b)
  }

  /** However two different boxes of the world jitter, they share no area. */
  ghost predicate Spread(world: seq<Box>, e: real) {
    forall w, w' :: w in world && w' in world && w != w' ==>
      w.x2 + e <= w'.x1 - e || w'.x2 + e <= w.x1 - e || w.y2 + e <= w'.y1 - e || w'.y2 + e <= w.y1 - e
  }

  /** The least overlap of two boxes near `w`, and the largest area of one. */
  function Core(w: Box, e: real): real { (w.x2 - w.x1 - 2.0 * e) * (w.y2 - w.y1 - 2.0 * e) }

  function Hull(w: Box, e: real): real { (w.x2 - w.x1 + 2.0 * e) * (w.y2 - w.y1 + 2.0 * e) }

  /** The jitter leaves a core of every box, large enough for the overlap threshold. */
  predicate Roomy(w: Box, e: real, threshold: real) {
    && w.x2 - w.x1 > 2.0 * e && w.y2 - w.y1 > 2.0 * e
    && threshold * (2.0 * Hull(w, e) - Core(w, e)) <= Core(w, e)
  }

  /** The jitter is small against the shift limit, the boxes and their gaps. */
  ghost predicate SmallJitter(s: Settings, world: seq<Box>, e: real) {
    && s.iou == Iou && e >= 0.0 && Clamped(s)
    && s.maxCenterShift >= 0.0 && 8.0 * e * e <= s.maxCenterShift * s.maxCenterShift
    && Spread(world, e) && forall w :: w in world ==> Roomy(w, e, s.iouThreshold)
  }

  // ---- boxes near the same box ----

  lemma NearIsProper(b: Box, w: Box, e: real, threshold: real)
    requires Near(b, w, e) && Roomy(w, e, threshold)
    ensures Proper(b)
  {
  }

  lemma OverlapAtLeast(a: Box, b: Box, width: real, height: real)
    requires 0.0 < width <= MinReal(a.x2, b.x2) - MaxReal(a.x1, b.x1)
    requires 0.0 < height <= MinReal(a.y2, b.y2) - MaxReal(a.y1, b.y1)
    ensures width * height <= Overlap(a, b)
  {
    ProductMonotone(width, height, MinReal(a.x2, b.x2) - MaxReal(a.x1, b.x1),
                    MinReal(a.y2, b.y2) - MaxReal(a.y1, b.y1));
  }

  lemma AreaAtMost(b: Box, width: real, height: real)
    requires 0.0 < b.x2 - b.x1 <= width && 0.0 < b.y2 - b.y1 <= height
    ensures Area(b) <= width * height
  {
    ProductMonotone(b.x2 - b.x1, b.y2 - b.y1, width, height);
  }

  lemma OverlapOfNear(a: Box, b: Box, w: Box, e: real)
    requires Near(a, w, e) && Near(b, w, e) && w.x2 - w.x1 > 2.0 * e && w.y2 - w.y1 > 2.0 * e
    ensures 0.0 < Core(w, e) <= Overlap(a, b)
  {
    var width, height := w.x2 - w.x1 - 2.0 * e, w.y2 - w.y1 - 2.0 * e;
    ProductPositive(width, height);
    assert Core(w, e) == width * height;
    OverlapAtLeast(a, b, width, height);
  }

  lemma AreaOfNear(b: Box, w: Box, e: real)
    requires Near(b, w, e) && w.x2 - w.x1 > 2.0 * e && w.y2 - w.y1 > 2.0 * e
    ensures Area(b) <= Hull(w, e)
  {
    AreaAtMost(b, w.x2 - w.x1 + 2.0 * e, w.y2 - w.y1 + 2.0 * e);
  }

  lemma ScaledAtMost(r: real, x: real, y: real)
    requires r >= 0.0 && x <= y
    ensures r * x <= r * y
  {
    if r > 0.0 && y - x > 0.0 {
      ProductPositive(r, y - x);
    }
    assert r * y - r * x == r * (y - x);
  }

  lemma RatioAtLeast(part: real, whole: real, r: real)
    requires 0.0 < part && 0.0 < whole && r * whole <= part
    ensures Ratio(part, whole) > 0.0 && Ratio(part, whole) >= r
  {
    var q := part / whole;
    assert q * whole == part;
    assert (r - q) * whole == r * whole - q * whole;
    if r - q > 0.0 {
      ProductPositive(r - q, whole);
    }
    assert q > 0.0 by {
      if q < 0.0 {
        ProductPositive(-q, whole);
      }
    }
  }

  lemma ThresholdReached(part: real, areas: real, core: real, hull: real, threshold: real)
    requires 0.0 < core <= part && part < areas <= 2.0 * hull && threshold * (2.0 * hull - core) <= core
    ensures Ratio(part, areas - part) > 0.0 && Ratio(part, areas - part) >= threshold
  {
    var whole := areas - part;
    if threshold > 0.0 {
      ScaledAtMost(threshold, whole, 2.0 * hull - core);
    } else {
      ScaledAtMost(-threshold, 0.0, whole);
      assert (-threshold) * whole == -(threshold * whole);
    }
    RatioAtLeast(part, whole, threshold);
  }

  lemma OverlapBelowAreas(a: Box, b: Box)
    requires Overlap(a, b) > 0.0
    ensures Overlap(a, b) < Area(a) + Area(b)
  {
    OverlapWithin(a, b);
    OverlapIsSymmetric(a, b);
    OverlapWithin(b, a);
  }

  /** Two boxes near the same one overlap at least by the threshold. */
  lemma IouOfNear(a: Box, b: Box, w: Box, e: real, threshold: real)
    requires Near(a, w, e) && Near(b, w, e) && Roomy(w, e, threshold)
    ensures Iou(a, b) > 0.0 && Iou(a, b) >= threshold
  {
    OverlapOfNear(a, b, w, e);
    AreaOfNear(a, w, e);
    AreaOfNear(b, w, e);
    OverlapBelowAreas(a, b);
    ThresholdReached(Overlap(a, b), Area(a) + Area(b), Core(w, e), Hull(w, e), threshold);
  }

  lemma SquareAtMost(u: real, c: real)
    requires -c <= u <= c
    ensures u * u <= c * c
  {
    var a := if u >= 0.0 then u else -u;
    assert u * u == a * a;
    ProductMonotone(a, a, c, c);
  }

  lemma CentersWithin(p: Point, q: Point, e: real, limit: real)
    requires -2.0 * e <= p.x - q.x <= 2.0 * e && -2.0 * e <= p.y - q.y <= 2.0 * e
    requires limit >= 0.0 && 8.0 * e * e <= limit * limit
    ensures Within(p, q, limit)
  {
    var d := 2.0 * e;
    SquareAtMost(p.x - q.x, d);
    SquareAtMost(p.y - q.y, d);
    assert d * d + d * d == 8.0 * e * e;
  }

  lemma CenterOfNear(b: Box, w: Box, e: real)
    requires Near(b, w, e)
    ensures Center(w).x - e <= Center(b).x <= Center(w).x + e
    ensures Center(w).y - e <= Center(b).y <= Center(w).y + e
  {
  }

  lemma CentersOfNear(a: Box, b: Box, w: Box, e: real, limit: real)
    requires Near(a, w, e) && Near(b, w, e) && limit >= 0.0 && 8.0 * e * e <= limit * limit
    ensures Within(Center(a), Center(b), limit)
  {
    CenterOfNear(a, w, e);
    CenterOfNear(b, w, e);
    CentersWithin(Center(a), Center(b), e, limit);
  }

  lemma ProductNonNegative(x: real, y: real)
    requires x >= 0.0 && y >= 0.0
    ensures x * y >= 0.0
  {
  }

  /** A mixture of two numbers lies between the bounds of both. */
  lemma MixBetween(x: real, y: real, lo: real, hi: real, alpha: real)
    requires lo <= x <= hi && lo <= y <= hi && 0.0 <= alpha <= 1.0
    ensures lo <= x * (1.0 - alpha) + y * alpha <= hi
  {
    ProductNonNegative(x - lo, 1.0 - alpha);
    ProductNonNegative(y - lo, alpha);
    ProductNonNegative(hi - x, 1.0 - alpha);
    ProductNonNegative(hi - y, alpha);
    assert (x - lo) * (1.0 - alpha) + (y - lo) * alpha == x * (1.0 - alpha) + y * alpha - lo;
    assert (hi - x) * (1.0 - alpha) + (hi - y) * alpha == hi - (x * (1.0 - alpha) + y * alpha);
  }

  lemma BlendOfNear(a: Box, b: Box, w: Box, e: real, alpha: real)
    requires Near(a, w, e) && Near(b, w, e) && 0.0 <= alpha <= 1.0
    ensures Near(Blend(a, b, alpha), w, e)
  {
    MixBetween(a.x1, b.x1, w.x1 - e, w.x1 + e, alpha);
    MixBetween(a.y1, b.y1, w.y1 - e, w.y1 + e, alpha);
    MixBetween(a.x2, b.x2, w.x2 - e, w.x2 + e, alpha);
    MixBetween(a.y2, b.y2, w.y2 - e, w.y2 + e, alpha);
  }

  // ---- the places ----

  /** A box is near only one box of the world. */
  lemma OnlyPlace(s: Settings, world: seq<Box>, e: real, b: Box, w: Box)
    requires SmallJitter(s, world, e) && w in world && Near(b, w, e)
    ensures PlaceOf(world, e, b) == Some(w)
  {
    NearIsProper(b, w, e, s.iouThreshold);
  }

  lemma SamePlaceTogether(s: Settings, world: seq<Box>, e: real, a: Box, b: Box, w: Box)
    requires SmallJitter(s, world, e) && w in world && Near(a, w, e) && Near(b, w, e)
    ensures Together(s, JitterPlaces(world, e), a, b)
  {
    IouOfNear(b, a, w, e, s.iouThreshold);
    CentersOfNear(a, b, w, e, s.maxCenterShift);
    BlendOfNear(a, b, w, e, s.bboxAlpha);
    BlendOfNear(a, b, w, e, s.visualAlpha);
    OnlyPlace(s, world, e, a, w);
    OnlyPlace(s, world, e, Blend(a, b, s.bboxAlpha), w);
    OnlyPlace(s, world, e, Blend(a, b, s.visualAlpha), w);
  }

  lemma OtherPlaceApart(s: Settings, world: seq<Box>, e: real, a: Box, b: Box, w: Box, w': Box)
    requires SmallJitter(s, world, e) && w in world && w' in world && w != w' && Near(a, w, e) && Near(b, w', e)
    ensures Iou(a, b) == 0.0
  {
    NearIsProper(a, w, e, s.iouThreshold);
    NearIsProper(b, w', e, s.iouThreshold);
    IouApart(a, b);
  }

  /** Boxes that jitter a little around a world of boxes are kept apart. */
  lemma JitterKeptApart(s: Settings, world: seq<Box>, e: real)
    requires SmallJitter(s, world, e)
    ensures KeptApart(s, JitterPlaces(world, e))
  {
    var place := JitterPlaces(world, e);
    forall a, b | place(a).Some? && place(a) == place(b) ensures Together(s, place, a, b) {
      SamePlaceTogether(s, world, e, a, b, place(a).value);
    }
    forall a, b | place(a).Some? && place(b).Some? && place(a) != place(b) ensures s.iou(a, b) <= 0.0 {
      OtherPlaceApart(s, world, e, a, b, place(a).value, place(b).value);
    }
  }

  /** Identity stability under jitter: objects whose detections and rediscoveries stay
      within `e` of their true boxes keep their ids, and every live track stays as near.
      Two live tracks have the same id exactly when they are near the same object. */
  lemma JitteringDetectionsKeepTheirIds(s: Settings, ops: seq<Op>, world: seq<Box>, e: real, m: nat, n: nat,
                                        t: Track, u: Track)
    requires SmallJitter(s, world, e) && Patient(s) && Attended(s, ops, JitterPlaces(world, e)) && m <= n <= |ops|
    requires t in TracksAfter(s, ops, m) && u in TracksAfter(s, ops, n)
    ensures exists w :: w in world && Near(t.bbox, w, e)
    ensures t.id == u.id <==> exists w :: w in world && Near(t.bbox, w, e) && Near(u.bbox, w, e)
  {
    var place := JitterPlaces(world, e);
    JitterKeptApart(s, world, e);
    TracksKeepTheirIds(s, ops, place, m, n, t, u);
    TracksKeepTheirIds(s, ops, place, n, n, u, u);
    assert place(t.bbox).value in world && Near(t.bbox, place(t.bbox).value, e);
    forall w | w in world && Near(t.bbox, w, e) && Near(u.bbox, w, e) ensures place(t.bbox) == place(u.bbox) {
      OnlyPlace(s, world, e, t.bbox, w);
      OnlyPlace(s, world, e, u.bbox, w);
    }
  }
}
