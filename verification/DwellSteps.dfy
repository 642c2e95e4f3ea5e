/** What one sighting does to a person's dwell zones, told pixel by pixel and from the
    person's own fields: which zone moves and by how much, when a stationary run begins,
    what is cropped for it, and when it becomes a zone. */
module DwellSteps {
  import opened Prelude
  import opened Geometry
  import opened DwellZones
  import opened DwellSoundness
  import opened GroundRegions

  // ---- boxes and crops, pixel by pixel ----

  predicate InFrame(x: int, y: int, width: int, height: int) {
    0 <= x < width && 0 <= y < height
  }

  /** Along one axis: the padded side `[low - padding, high + padding)` reaches into the
      unit cell `x` from the left and covers it up to its right end. */
  predicate Padded(low: real, high: real, padding: real, x: int) {
    low - padding < (x + 1) as real <= high + padding
  }

  /** The zone box holds exactly the frame pixels of the padded person box. */
  ghost predicate IsPaddedBox(c: Settings, s: Sighting, b: Area) {
    forall x, y :: HasCell(b, x, y) <==>
      && InFrame(x, y, s.frameW, s.frameH)
      && Padded(s.box.x1, s.box.x2, c.padding, x) && Padded(s.box.y1, s.box.y2, c.padding, y)
  }

  /** One axis of a clipped box. */
  lemma ClippedSide(low: real, high: real, padding: real, n: int, x: int)
    ensures Max(0, Truncate(low - padding)) <= x < Min(n, Truncate(high + padding))
       <==> 0 <= x < n && Padded(low, high, padding, x)
  {
  }

  lemma ZoneBoxIsPadded(c: Settings, s: Sighting)
    ensures IsPaddedBox(c, s, ZoneBoxOf(c, s))
  {
    var b := ZoneBoxOf(c, s);
    forall x, y
      ensures HasCell(b, x, y) <==>
        && InFrame(x, y, s.frameW, s.frameH)
        && Padded(s.box.x1, s.box.x2, c.padding, x) && Padded(s.box.y1, s.box.y2, c.padding, y)
    {
      ClippedSide(s.box.x1, s.box.x2, c.padding, s.frameW, x);
      ClippedSide(s.box.y1, s.box.y2, c.padding, s.frameH, y);
    }
  }

  predicate Shows(v: Crop, x: int, y: int) {
    v.x <= x < v.x + v.width && v.y <= y < v.y + v.height
  }

  /** The crop shows exactly the pixels of the box that the frame has; there is none if
      there is no frame or no such pixel. */
  ghost predicate IsCropOf(v: Option<Crop>, frame: Option<Frame>, b: Area) {
    match v
    case None =>
      frame.None? || forall x, y :: HasCell(b, x, y) ==> !InFrame(x, y, frame.value.width, frame.value.height)
    case Some(crop) =>
      && frame == Some(crop.frame) && crop.width > 0 && crop.height > 0
      && forall x, y :: Shows(crop, x, y) <==> HasCell(b, x, y) && InFrame(x, y, crop.frame.width, crop.frame.height)
  }

  lemma CropIsCropOf(s: Sighting, b: Area)
    ensures IsCropOf(CropOf(s, b), s.frame, b)
  {
  }

  // ---- the three outcomes of a sighting ----

  /** Zone `i` is the first whose centre is within the match distance. */
  ghost predicate FirstNear(c: Settings, zones: seq<Zone>, at: Point, i: nat) {
    && i < |zones| && Within(at, zones[i].center, c.matchDistance)
    && forall j :: 0 <= j < i ==> !Within(at, zones[j].center, c.matchDistance)
  }

  ghost predicate NoneNear(c: Settings, zones: seq<Zone>, at: Point) {
    forall j :: 0 <= j < |zones| ==> !Within(at, zones[j].center, c.matchDistance)
  }

  predicate AwayFromAnchor(c: Settings, p: Person, at: Point) {
    p.anchor.None? || !Within(at, p.anchor.value, c.stationaryDistance)
  }

  ghost predicate JustSeen(p: Person, s: Sighting, q: Person) {
    && q.lastSeenAt == s.now && q.lastBox == s.box && !q.processed
    && q.id == p.id && q.cameraId == p.cameraId && q.firstSeenAt == p.firstSeenAt
  }

  /** Near a zone: its centre moves a tenth of the way to the person, the run is taken up
      from that zone's entry, and nothing else changes. */
  ghost predicate Revisited(p: Person, s: Sighting, i: nat, q: Person)
    requires i < |p.zones|
  {
    && |q.zones| == |p.zones|
    && (forall j :: 0 <= j < |p.zones| && j != i ==> q.zones[j] == p.zones[j])
    && SameZone(p.zones[i], q.zones[i]) && q.zones[i].lastPersonBox == s.box
    && Moved(p.zones[i].center, Center(s.box), 0.1, q.zones[i].center)
    && q.anchor == Some(q.zones[i].center) && q.since == p.zones[i].enteredAt
    && q.zoneBox == p.zoneBox && q.reference == p.reference
  }

  /** Away from everything: a new run begins here and now. */
  ghost predicate Settled(c: Settings, p: Person, s: Sighting, q: Person) {
    && q.zones == p.zones && q.anchor == Some(Center(s.box)) && q.since == s.now
    && IsPaddedBox(c, s, q.zoneBox) && IsCropOf(q.reference, s.frame, q.zoneBox)
  }

  /** The zone that a run of the person becomes. */
  ghost predicate ZoneOfRun(p: Person, s: Sighting, reference: Option<Crop>, z: Zone) {
    && Some(z.center) == p.anchor && z.bbox == p.zoneBox && z.enteredAt == p.since
    && z.reference == reference && z.lastPersonBox == s.box
  }

  /** The newest `limit` zones; no limit at 0, and a negative one drops as many of the
      oldest. */
  ghost predicate Newest(all: seq<Zone>, limit: int, kept: seq<Zone>) {
    && |kept| <= |all| && kept == all[|all| - |kept|..]
    && |kept| == if limit >= |all| || limit == 0 then |all| else if limit > 0 then limit else Max(0, |all| + limit)
  }

  ghost predicate Grown(p: Person, s: Sighting, limit: int, q: Person) {
    exists z: Zone :: ZoneOfRun(p, s, q.reference, z) && Newest(p.zones + [z], limit, q.zones)
  }

  /** Still at the anchor: a missing reference is cropped now if possible, and a run of the
      full dwell becomes a zone. */
  ghost predicate Stayed(c: Settings, p: Person, s: Sighting, q: Person) {
    && q.anchor == p.anchor && q.since == p.since && q.zoneBox == p.zoneBox
    && (if p.reference.Some? then q.reference == p.reference else IsCropOf(q.reference, s.frame, p.zoneBox))
    && (if s.now - p.since < c.minDwellSeconds then q.zones == p.zones else Grown(p, s, c.maxSnapshots, q))
  }

  lemma DriftMoves(old_: Point, at: Point)
    ensures Moved(old_, at, 0.1, Drift(old_, at))
  {
  }

  lemma FirstNearIsMatch(c: Settings, zones: seq<Zone>, at: Point, i: nat)
    requires FirstNear(c, zones, at, i)
    ensures MatchZone(c, zones, at) == Some(i)
  {
  }

  lemma NewestSuffix(all: seq<Zone>, limit: int)
    requires |all| > limit
    ensures Newest(all, limit, Suffix(all, limit))
  {
  }

  lemma StayGrows(c: Settings, p: Person, s: Sighting)
    requires p.anchor.Some? && s.now - p.since >= c.minDwellSeconds
    ensures Grown(p, s, c.maxSnapshots, Stay(c, p, s))
  {
    var z := NewZone(p, s);
    assert ZoneOfRun(p, s, RunReference(p, s), z);
    if |p.zones + [z]| > c.maxSnapshots {
      NewestSuffix(p.zones + [z], c.maxSnapshots);
    }
  }

  /** What a sighting does to a person, in full: it revisits the first zone near enough;
      else it begins a new run away from the anchor; else the run goes on. */
  lemma SightMeans(c: Settings, p: Person, s: Sighting)
    ensures var q, at := Sight(c, p, s), Center(s.box);
      && JustSeen(p, s, q)
      && (forall i: nat :: FirstNear(c, p.zones, at, i) ==> Revisited(p, s, i, q))
      && (NoneNear(c, p.zones, at) ==>
            if AwayFromAnchor(c, p, at) then Settled(c, p, s, q) else Stayed(c, p, s, q))
  {
    var at := Center(s.box);
    forall i: nat | FirstNear(c, p.zones, at, i) ensures Revisited(p, s, i, Sight(c, p, s)) {
      FirstNearIsMatch(c, p.zones, at, i);
      DriftMoves(p.zones[i].center, at);
    }
    if NoneNear(c, p.zones, at) {
      var p' := p.(lastSeenAt := s.now, lastBox := s.box, processed := false);
      ZoneBoxIsPadded(c, s);
      CropIsCropOf(s, ZoneBoxOf(c, s));
      CropIsCropOf(s, p.zoneBox);
      if !AwayFromAnchor(c, p, at) && s.now - p.since >= c.minDwellSeconds {
        StayGrows(c, p', s);
      }
    }
  }

  // ---- what a check compares ----

  /** The ground of a zone box: its frame pixels in the lower three fifths. */
  ghost predicate IsGround(region: Area, b: Area, frameW: int, frameH: int) {
    var cut := b.y1 as real + (b.y2 - b.y1) as real * 2.0 / 5.0;
    forall x, y :: HasCell(region, x, y) <==> InFrame(x, y, frameW, frameH) && HasCell(b, x, y) && cut < (y + 1) as real
  }

  /** The crop shows exactly the pixels of the reference that lie in the region, counted from
      the corner of the zone box. */
  ghost predicate ShowsPart(v: Crop, whole: Crop, corner: Area, region: Area) {
    forall i, j :: Shows(v, whole.x + i, whole.y + j) <==>
      InFrame(i, j, whole.width, whole.height) && HasCell(region, corner.x1 + i, corner.y1 + j)
  }

  ghost predicate HasNoPart(whole: Crop, corner: Area, region: Area) {
    forall i, j :: HasCell(region, corner.x1 + i, corner.y1 + j) ==> !InFrame(i, j, whole.width, whole.height)
  }

  lemma GroundIsGround(b: Area, frameW: int, frameH: int)
    ensures IsGround(GroundRegion(b, frameW, frameH), b, frameW, frameH)
  {
    var h := (b.y2 - b.y1) as real;
    var cut := b.y1 as real + h * 0.4;
    assert h * 0.4 == h * 2.0 / 5.0;
    assert if h >= 0.0 then cut >= b.y1 as real else cut >= b.y2 as real;
    forall x, y ensures HasCell(GroundRegion(b, frameW, frameH), x, y) <==>
      InFrame(x, y, frameW, frameH) && HasCell(b, x, y) && cut < (y + 1) as real
    {
      assert h >= 0.0 && cut < (y + 1) as real ==> b.y1 <= y;
    }
  }

  /** One axis of a clamped slice. */
  lemma ClampedSide(low: int, high: int, n: int, i: int)
    ensures ClampTo(low, n) <= i < ClampTo(low, n) + Max(0, ClampTo(high, n) - ClampTo(low, n))
       <==> 0 <= i < n && low <= i < high
  {
  }

  lemma SubCropShows(v: Crop, r: Area, i: int, j: int)
    ensures Shows(SubCrop(v, r), v.x + i, v.y + j) <==> InFrame(i, j, v.width, v.height) && HasCell(r, i, j)
  {
    ClampedSide(r.x1, r.x2, v.width, i);
    ClampedSide(r.y1, r.y2, v.height, j);
  }

  /** The part of the reference that a check takes. */
  function TakenPart(whole: Crop, corner: Area, region: Area): Crop {
    SubCrop(whole, Area(region.x1 - corner.x1, region.y1 - corner.y1, region.x2 - corner.x1, region.y2 - corner.y1))
  }

  lemma TakenPartShows(whole: Crop, corner: Area, region: Area)
    ensures var v := TakenPart(whole, corner, region);
      && v.frame == whole.frame && ShowsPart(v, whole, corner, region)
      && (v.width == 0 || v.height == 0 ==> HasNoPart(whole, corner, region))
  {
    var v := TakenPart(whole, corner, region);
    forall i, j
      ensures Shows(v, whole.x + i, whole.y + j) <==>
        InFrame(i, j, whole.width, whole.height) && HasCell(region, corner.x1 + i, corner.y1 + j)
    {
      SubCropShows(whole, Area(region.x1 - corner.x1, region.y1 - corner.y1,
                               region.x2 - corner.x1, region.y2 - corner.y1), i, j);
    }
  }

  lemma PrepareTakes(z: Zone, f: Frame, frameW: int, frameH: int)
    requires z.reference.Some?
    ensures var p, region := Prepare(z, f, frameW, frameH), GroundRegion(z.bbox, frameW, frameH);
      var after, before := CropRegion(f, region), TakenPart(z.reference.value, z.bbox, region);
      if after.None? || before.width == 0 || before.height == 0 || region.x2 <= region.x1 || region.y2 <= region.y1
      then p.None? else p == Some(Comparison(region, before, after.value))
  {
  }

  /** What a check compares for a zone with a reference, whatever the sizes of the frames:
      the ground in the current frame with the ground in the reference; nothing exactly if
      one of them has no pixel there. */
  lemma PrepareMeans(z: Zone, f: Frame, frameW: int, frameH: int) returns (region: Area)
    requires z.reference.Some?
    ensures IsGround(region, z.bbox, frameW, frameH)
    ensures var whole := z.reference.value;
      match Prepare(z, f, frameW, frameH)
      case Some(it) =>
        && it.region == region && IsCropOf(Some(it.after), Some(f), region)
        && it.before.frame == whole.frame && it.before.width > 0 && it.before.height > 0
        && ShowsPart(it.before, whole, z.bbox, region)
      case None => IsCropOf(None, Some(f), region) || HasNoPart(whole, z.bbox, region)
  {
    region := GroundRegion(z.bbox, frameW, frameH);
    GroundIsGround(z.bbox, frameW, frameH);
    PrepareTakes(z, f, frameW, frameH);
    TakenPartShows(z.reference.value, z.bbox, region);
    CropIsCropOf(Sighting(z.lastPersonBox, Some(f), 0, 0, 0.0), region);
  }
}
