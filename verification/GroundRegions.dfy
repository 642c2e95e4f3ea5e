/** The before/after comparison of one dwell zone in
    src/detection/person_departure_detector.py: which two crops are compared and
    where the differences found lie in the frame. */
module GroundRegions {
  import opened Prelude
  import opened Geometry
  import opened DwellZones

  /** One difference reported by the region comparison, in crop coordinates. */
  datatype Diff = Diff(bbox: Area, contour: int, ssimScore: real)

  datatype Finding = Finding(bbox: Box, contour: int, ssimScore: real, zoneBox: Area, personDwellSeconds: real)

  /** The lower part of a zone box, clipped to the frame. */
  function GroundRegion(b: Area, frameW: int, frameH: int): Area {
    var groundY := Truncate(b.y1 as real + (b.y2 - b.y1) as real * 0.4);
    Area(Max(0, b.x1), Max(0, groundY), Min(frameW, b.x2), Min(frameH, b.y2))
  }

  function MapToLocal(g: Area, container: Area): Option<Area> {
    var r := Area(g.x1 - container.x1, g.y1 - container.y1, g.x2 - container.x1, g.y2 - container.y1);
    if r.x2 <= r.x1 || r.y2 <= r.y1 then None else Some(r)
  }

  function ClampTo(v: int, n: int): int { Max(0, Min(v, n)) }

  /** `crop[y1:y2, x1:x2]` with the ends clamped to the crop. */
  function SubCrop(v: Crop, r: Area): Crop {
    var x1, y1 := ClampTo(r.x1, v.width), ClampTo(r.y1, v.height);
    var x2, y2 := ClampTo(r.x2, v.width), ClampTo(r.y2, v.height);
    Crop(v.frame, v.x + x1, v.y + y1, Max(0, x2 - x1), Max(0, y2 - y1))
  }

  /** The ground region with the reference crop and the current crop, or `None`
      when the zone is skipped. */
  datatype Comparison = Comparison(region: Area, before: Crop, after: Crop)

  function Prepare(z: Zone, f: Frame, frameW: int, frameH: int): Option<Comparison> {
    if z.reference.None? then None
    else
      var region := GroundRegion(z.bbox, frameW, frameH);
      var after, local := CropRegion(f, region), MapToLocal(region, z.bbox);
      if after.None? || local.None? then None
      else
        var before := SubCrop(z.reference.value, local.value);
        if before.width == 0 || before.height == 0 then None
        else Some(Comparison(region, before, after.value))
  }

  function Place(region: Area, d: Diff): Box {
    Box((region.x1 + d.bbox.x1) as real, (region.y1 + d.bbox.y1) as real,
        (region.x1 + d.bbox.x2) as real, (region.y1 + d.bbox.y2) as real)
  }

  function FindingOf(z: Zone, lastSeenAt: real, region: Area, d: Diff): Finding {
    Finding(Place(region, d), d.contour, d.ssimScore, z.bbox, MaxReal(0.0, lastSeenAt - z.enteredAt))
  }

  function CheckZone(z: Zone, lastSeenAt: real, f: Frame, frameW: int, frameH: int,
                     compare: (Crop, Crop) -> seq<Diff>): seq<Finding>
  {
    var p := Prepare(z, f, frameW, frameH);
    if p.None? then []
    else
      var diffs := compare(p.value.before, p.value.after);
      seq(|diffs|, i requires 0 <= i < |diffs| => FindingOf(z, lastSeenAt, p.value.region, diffs[i]))
  }

  function CheckZones(zones: seq<Zone>, lastSeenAt: real, f: Frame, frameW: int, frameH: int,
                      compare: (Crop, Crop) -> seq<Diff>): seq<Finding>
  {
    if zones == [] then []
    else
      CheckZones(zones[..|zones| - 1], lastSeenAt, f, frameW, frameH, compare)
      + CheckZone(zones[|zones| - 1], lastSeenAt, f, frameW, frameH, compare)
  }

  lemma CheckZonesStep(zones: seq<Zone>, lastSeenAt: real, f: Frame, frameW: int, frameH: int,
                       compare: (Crop, Crop) -> seq<Diff>, i: nat)
    requires i < |zones|
    ensures CheckZones(zones[..i + 1], lastSeenAt, f, frameW, frameH, compare)
         == CheckZones(zones[..i], lastSeenAt, f, frameW, frameH, compare)
            + CheckZone(zones[i], lastSeenAt, f, frameW, frameH, compare)
  {
    assert zones[..i + 1][..i] == zones[..i];
  }

  // ---- alignment ----

  predicate Inside(a: Area, b: Area) {
    b.x1 <= a.x1 && a.x2 <= b.x2 && b.y1 <= a.y1 && a.y2 <= b.y2
  }

  /** The frame really has the announced size. */
  predicate Sized(f: Frame, frameW: int, frameH: int) {
    f.width == frameW && f.height == frameH
  }

  /** A zone box clipped to the frame, whose reference, if any, is the crop of that
      box from some frame of the announced size. */
  ghost predicate Fits(b: Area, reference: Option<Crop>, frameW: int, frameH: int) {
    && b.x1 >= 0 && b.y1 >= 0 && b.x2 <= frameW && b.y2 <= frameH
    && (reference.Some? ==>
          Sized(reference.value.frame, frameW, frameH) && reference == CropRegion(reference.value.frame, b))
  }

  lemma GroundRegionInside(b: Area, frameW: int, frameH: int)
    requires 0 <= b.x1 < b.x2 <= frameW && 0 <= b.y1 < b.y2 <= frameH
    ensures var g := GroundRegion(b, frameW, frameH);
      Inside(g, b) && g.x1 == b.x1 && g.x2 == b.x2 && g.y2 == b.y2 && b.y1 <= g.y1 < g.y2
  {
    var h := (b.y2 - b.y1) as real;
    var y := b.y1 as real + h * 0.4;
    assert b.y1 as real <= y < b.y2 as real;
  }

  /** The two compared crops show the same place: the ground region lies inside the
      zone box and the frame; both crops have the region's size; and pixel `(i, j)` of
      either crop is the frame pixel `(i, j)` away from the region's corner. */
  ghost predicate Aligned(p: Comparison, z: Zone, f: Frame, frameW: int, frameH: int) {
    && Inside(p.region, z.bbox) && Inside(p.region, Area(0, 0, frameW, frameH))
    && z.reference.Some? && p.before.frame == z.reference.value.frame && p.after.frame == f
    && p.before.width == p.after.width == p.region.x2 - p.region.x1 > 0
    && p.before.height == p.after.height == p.region.y2 - p.region.y1 > 0
    && (forall i, j :: PixelAt(p.before, i, j) == p.before.frame.pixel(p.region.x1 + i, p.region.y1 + j))
    && (forall i, j :: PixelAt(p.after, i, j) == f.pixel(p.region.x1 + i, p.region.y1 + j))
  }

  /** A zone with a reference is never skipped, and its two crops are aligned. */
  lemma CropsAligned(z: Zone, f: Frame, frameW: int, frameH: int)
    requires Fits(z.bbox, z.reference, frameW, frameH) && z.reference.Some? && Sized(f, frameW, frameH)
    ensures Prepare(z, f, frameW, frameH).Some?
    ensures Aligned(Prepare(z, f, frameW, frameH).value, z, f, frameW, frameH)
  {
    GroundRegionInside(z.bbox, frameW, frameH);
  }

  /** The comparison's contract: differences lie inside the crops it was given. */
  ghost predicate DiffsInside(compare: (Crop, Crop) -> seq<Diff>) {
    forall a, b, i :: 0 <= i < |compare(a, b)| ==>
      var d := compare(a, b)[i].bbox;
      0 <= d.x1 <= d.x2 <= a.width && 0 <= d.y1 <= d.y2 <= a.height
  }

  predicate BoxInside(b: Box, a: Area) {
    a.x1 as real <= b.x1 <= b.x2 <= a.x2 as real && a.y1 as real <= b.y1 <= b.y2 <= a.y2 as real
  }

  /** Every finding, mapped back, lies in the zone's ground region and the frame. */
  lemma FindingsInsideGround(z: Zone, lastSeenAt: real, f: Frame, frameW: int, frameH: int,
                             compare: (Crop, Crop) -> seq<Diff>, k: nat)
    requires Fits(z.bbox, z.reference, frameW, frameH) && Sized(f, frameW, frameH) && DiffsInside(compare)
    requires k < |CheckZone(z, lastSeenAt, f, frameW, frameH, compare)|
    ensures var b := CheckZone(z, lastSeenAt, f, frameW, frameH, compare)[k].bbox;
      && BoxInside(b, GroundRegion(z.bbox, frameW, frameH))
      && BoxInside(b, z.bbox) && BoxInside(b, Area(0, 0, frameW, frameH))
  {
    CropsAligned(z, f, frameW, frameH);
    var p := Prepare(z, f, frameW, frameH).value;
    var d := compare(p.before, p.after)[k].bbox;
    assert 0 <= d.x1 <= d.x2 <= p.before.width && 0 <= d.y1 <= d.y2 <= p.before.height;
  }

  // ---- where a difference lies, pixel by pixel ----

  /** The frame pixel `(x, y)` lies in the box. */
  predicate HasPixel(b: Box, x: int, y: int) {
    b.x1 <= x as real < b.x2 && b.y1 <= y as real < b.y2
  }

  predicate HasCell(a: Area, i: int, j: int) {
    a.x1 <= i < a.x2 && a.y1 <= j < a.y2
  }

  /** The crop is the lower three fifths of the zone box, up to a pixel, from this frame. */
  ghost predicate ShowsGround(v: Crop, zoneBox: Area, f: Frame) {
    && v.frame == f && v.x == zoneBox.x1 && v.x + v.width == zoneBox.x2 && v.y + v.height == zoneBox.y2
    && var cut := zoneBox.y1 as real + (zoneBox.y2 - zoneBox.y1) as real * 2.0 / 5.0;
    v.y as real <= cut < v.y as real + 1.0
  }

  /** The finding covers exactly the frame pixels that the crop shows inside the reported
      difference, and carries its measures. */
  ghost predicate Marks(fd: Finding, d: Diff, v: Crop) {
    && (forall i, j :: HasPixel(fd.bbox, v.x + i, v.y + j) <==> HasCell(d.bbox, i, j))
    && fd.contour == d.contour && fd.ssimScore == d.ssimScore
  }

  /** The zone's whole dwell: from its entry to the person's last sighting, never below 0. */
  ghost predicate DwellOf(fd: Finding, z: Zone, lastSeenAt: real) {
    && fd.zoneBox == z.bbox && fd.personDwellSeconds >= 0.0
    && (lastSeenAt >= z.enteredAt ==> fd.personDwellSeconds == lastSeenAt - z.enteredAt)
    && (lastSeenAt < z.enteredAt ==> fd.personDwellSeconds == 0.0)
  }

  lemma PlaceMarks(z: Zone, lastSeenAt: real, region: Area, v: Crop, d: Diff)
    requires v.x == region.x1 && v.y == region.y1
    ensures var fd := FindingOf(z, lastSeenAt, region, d); Marks(fd, d, v) && DwellOf(fd, z, lastSeenAt)
  {
    var b := Place(region, d);
    forall i, j ensures HasPixel(b, v.x + i, v.y + j) <==> HasCell(d.bbox, i, j) {
      assert b.x1 <= (v.x + i) as real <==> d.bbox.x1 <= i;
    }
  }

  /** The findings of a zone are the differences of its reference and the current frame on
      the ground of the zone, one by one and in order, each where it really is. */
  lemma FindingsMarkDiffs(z: Zone, lastSeenAt: real, f: Frame, frameW: int, frameH: int,
                          compare: (Crop, Crop) -> seq<Diff>)
    returns (before: Crop, after: Crop)
    requires Fits(z.bbox, z.reference, frameW, frameH) && z.reference.Some? && Sized(f, frameW, frameH)
    ensures ShowsGround(before, z.bbox, z.reference.value.frame) && ShowsGround(after, z.bbox, f)
    ensures var found, diffs := CheckZone(z, lastSeenAt, f, frameW, frameH, compare), compare(before, after);
      && |found| == |diffs|
      && (forall k :: 0 <= k < |found| ==> Marks(found[k], diffs[k], after) && DwellOf(found[k], z, lastSeenAt))
  {
    GroundRegionInside(z.bbox, frameW, frameH);
    var p := Prepare(z, f, frameW, frameH).value;
    before, after := p.before, p.after;
    var diffs := compare(before, after);
    forall k | 0 <= k < |diffs|
      ensures Marks(FindingOf(z, lastSeenAt, p.region, diffs[k]), diffs[k], after)
      ensures DwellOf(FindingOf(z, lastSeenAt, p.region, diffs[k]), z, lastSeenAt)
    {
      PlaceMarks(z, lastSeenAt, p.region, after, diffs[k]);
    }
  }

  /** A zone without a reference has no findings. */
  lemma NoReferenceNoFindings(z: Zone, lastSeenAt: real, f: Frame, frameW: int, frameH: int,
                              compare: (Crop, Crop) -> seq<Diff>)
    requires z.reference.None?
    ensures CheckZone(z, lastSeenAt, f, frameW, frameH, compare) == []
  {
  }

  function FindingsByZone(zones: seq<Zone>, lastSeenAt: real, f: Frame, frameW: int, frameH: int,
                          compare: (Crop, Crop) -> seq<Diff>): (r: seq<seq<Finding>>)
    ensures |r| == |zones|
  {
    seq(|zones|, i requires 0 <= i < |zones| => CheckZone(zones[i], lastSeenAt, f, frameW, frameH, compare))
  }

  /** A check lists the findings of all zones, zone after zone. */
  lemma {:induction false} CheckGoesByZone(zones: seq<Zone>, lastSeenAt: real, f: Frame, frameW: int, frameH: int,
                                           compare: (Crop, Crop) -> seq<Diff>)
    ensures CheckZones(zones, lastSeenAt, f, frameW, frameH, compare)
         == Flatten(FindingsByZone(zones, lastSeenAt, f, frameW, frameH, compare))
  {
    if zones != [] {
      var n := |zones| - 1;
      CheckGoesByZone(zones[..n], lastSeenAt, f, frameW, frameH, compare);
      assert FindingsByZone(zones, lastSeenAt, f, frameW, frameH, compare)[..n]
          == FindingsByZone(zones[..n], lastSeenAt, f, frameW, frameH, compare);
    }
  }

  // ---- the boxes and references a person holds fit the frame ----

  /** Everything the person remembers was cropped from frames of this size. */
  ghost predicate PersonFits(p: Person, frameW: int, frameH: int) {
    && (p.anchor.Some? ==> Fits(p.zoneBox, p.reference, frameW, frameH))
    && (forall i :: 0 <= i < |p.zones| ==> Fits(p.zones[i].bbox, p.zones[i].reference, frameW, frameH))
    && (p.zones != [] ==> p.anchor.Some?)
  }

  ghost predicate SightingFits(s: Sighting, frameW: int, frameH: int) {
    s.frameW == frameW && s.frameH == frameH && (s.frame.Some? ==> Sized(s.frame.value, frameW, frameH))
  }

  lemma SightKeepsFit(c: Settings, p: Person, s: Sighting, frameW: int, frameH: int)
    requires PersonFits(p, frameW, frameH) && SightingFits(s, frameW, frameH)
    ensures PersonFits(Sight(c, p, s), frameW, frameH)
  {
    var m := MatchZone(c, p.zones, Center(s.box));
    if m.None? && StaysAtAnchor(c, p, Center(s.box)) {
      assert Fits(p.zoneBox, RunReference(p, s), frameW, frameH);
      ZonesFit(c, p, s, frameW, frameH);
    }
  }

  lemma ZonesFit(c: Settings, p: Person, s: Sighting, frameW: int, frameH: int)
    requires PersonFits(p, frameW, frameH) && p.anchor.Some?
    requires Fits(p.zoneBox, RunReference(p, s), frameW, frameH)
    ensures var zones := WithNewZone(c, p, s);
      forall i :: 0 <= i < |zones| ==> Fits(zones[i].bbox, zones[i].reference, frameW, frameH)
  {
    var all := p.zones + [NewZone(p, s)];
    assert forall i :: 0 <= i < |all| ==> Fits(all[i].bbox, all[i].reference, frameW, frameH);
  }
}
