/** Values and per-person transitions of src/detection/person_departure_detector.py:
    crops, dwell zones, and what one sighting does to a person. */
module DwellZones {
  import opened Prelude
  import opened Geometry

  /** Integer pixel box, half open. */
  datatype Area = Area(x1: int, y1: int, x2: int, y2: int)

  datatype Frame = Frame(width: nat, height: nat, pixel: (int, int) -> int)

  /** A copied rectangle of a frame: `width` by `height` pixels from `(x, y)` on. */
  datatype Crop = Crop(frame: Frame, x: int, y: int, width: int, height: int)

  /** The pixel of a crop at column `i`, row `j`. */
  function PixelAt(v: Crop, i: int, j: int): int { v.frame.pixel(v.x + i, v.y + j) }

  /** `_crop_region`: clip to the frame; an empty result is `None`. */
  function CropRegion(f: Frame, b: Area): (r: Option<Crop>)
    ensures r.Some? ==> r.value.frame == f && r.value.width > 0 && r.value.height > 0
    ensures r.Some? ==> 0 <= r.value.x && r.value.x + r.value.width <= f.width
    ensures r.Some? ==> 0 <= r.value.y && r.value.y + r.value.height <= f.height
  {
    var x1, y1 := Max(0, b.x1), Max(0, b.y1);
    var x2, y2 := Min(f.width, b.x2), Min(f.height, b.y2);
    if x2 <= x1 || y2 <= y1 then None else Some(Crop(f, x1, y1, x2 - x1, y2 - y1))
  }

  datatype Settings = Settings(
    confirmSeconds: real,
    padding: real,
    minDwellSeconds: real,
    maxSnapshots: int,
    stationaryDistance: real,
    matchDistance: real)

  datatype Zone = Zone(
    center: Point,
    bbox: Area,
    enteredAt: real,
    reference: Option<Crop>,
    lastPersonBox: Box)

  /** While `anchor` is `None` no stationary run has begun and `since`, `zoneBox`
      and `reference` are never read. */
  datatype Person = Person(
    id: string,
    cameraId: string,
    firstSeenAt: real,
    lastSeenAt: real,
    lastBox: Box,
    processed: bool,
    zones: seq<Zone>,
    anchor: Option<Point>,
    since: real,
    zoneBox: Area,
    reference: Option<Crop>)

  function Newborn(id: string, cameraId: string, box: Box, now: real): Person {
    Person(id, cameraId, now, now, box, false, [], None, 0.0, Area(0, 0, 0, 0), None)
  }

  /** One appearance of a person in a frame. */
  datatype Sighting = Sighting(box: Box, frame: Option<Frame>, frameW: int, frameH: int, now: real)

  function ExpandBox(c: Settings, b: Box, frameW: int, frameH: int): Area {
    Area(Max(0, Truncate(b.x1 - c.padding)), Max(0, Truncate(b.y1 - c.padding)),
         Min(frameW, Truncate(b.x2 + c.padding)), Min(frameH, Truncate(b.y2 + c.padding)))
  }

  function ZoneBoxOf(c: Settings, s: Sighting): Area { ExpandBox(c, s.box, s.frameW, s.frameH) }

  /** The first zone whose centre is close to `at`. */
  function MatchZone(c: Settings, zones: seq<Zone>, at: Point): (r: Option<nat>)
    ensures r.Some? ==> r.value < |zones| && Within(at, zones[r.value].center, c.matchDistance)
    ensures r.Some? ==> forall i :: 0 <= i < r.value ==> !Within(at, zones[i].center, c.matchDistance)
    ensures r.None? ==> forall i :: 0 <= i < |zones| ==> !Within(at, zones[i].center, c.matchDistance)
  {
    if zones == [] then None
    else
      var n := |zones| - 1;
      var r := MatchZone(c, zones[..n], at);
      if r.Some? then r
      else if Within(at, zones[n].center, c.matchDistance) then Some(n) else None
  }

  /** The moving average of a matched zone's centre. */
  function Drift(old_: Point, at: Point): Point {
    Point(old_.x * 0.9 + at.x * 0.1, old_.y * 0.9 + at.y * 0.1)
  }

  function CropOf(s: Sighting, b: Area): Option<Crop> {
    if s.frame.Some? then CropRegion(s.frame.value, b) else None
  }

  predicate StaysAtAnchor(c: Settings, p: Person, at: Point) {
    p.anchor.Some? && Within(at, p.anchor.value, c.stationaryDistance)
  }

  /** The person is near zone `i` again. */
  function Revisit(p: Person, s: Sighting, i: nat): Person
    requires i < |p.zones|
  {
    var z := p.zones[i];
    var z' := z.(lastPersonBox := s.box, center := Drift(z.center, Center(s.box)));
    p.(zones := p.zones[i := z'], anchor := Some(z'.center), since := z'.enteredAt)
  }

  /** A new stationary run begins here. */
  function Settle(c: Settings, p: Person, s: Sighting): Person {
    p.(anchor := Some(Center(s.box)), since := s.now, zoneBox := ZoneBoxOf(c, s),
       reference := CropOf(s, ZoneBoxOf(c, s)))
  }

  /** The run's reference, filled in as soon as a crop is possible. */
  function RunReference(p: Person, s: Sighting): Option<Crop> {
    if p.reference.None? then CropOf(s, p.zoneBox) else p.reference
  }

  /** This sighting turns the stationary run into a zone. */
  predicate Creates(c: Settings, p: Person, s: Sighting) {
    && MatchZone(c, p.zones, Center(s.box)).None?
    && StaysAtAnchor(c, p, Center(s.box))
    && s.now - p.since >= c.minDwellSeconds
  }

  function NewZone(p: Person, s: Sighting): Zone
    requires p.anchor.Some?
  {
    Zone(p.anchor.value, p.zoneBox, p.since, RunReference(p, s), s.box)
  }

  function WithNewZone(c: Settings, p: Person, s: Sighting): seq<Zone>
    requires p.anchor.Some?
  {
    var zones := p.zones + [NewZone(p, s)];
    if |zones| > c.maxSnapshots then Suffix(zones, c.maxSnapshots) else zones
  }

  /** The person is still near its anchor. */
  function Stay(c: Settings, p: Person, s: Sighting): Person
    requires p.anchor.Some?
  {
    var p' := p.(reference := RunReference(p, s));
    if s.now - p.since < c.minDwellSeconds then p' else p'.(zones := WithNewZone(c, p, s))
  }

  /** `_update_dwell_zones`. */
  function UpdateZones(c: Settings, p: Person, s: Sighting): Person {
    var m := MatchZone(c, p.zones, Center(s.box));
    if m.Some? then Revisit(p, s, m.value)
    else if !StaysAtAnchor(c, p, Center(s.box)) then Settle(c, p, s)
    else Stay(c, p, s)
  }

  /** Everything a sighting does to a person. */
  function Sight(c: Settings, p: Person, s: Sighting): Person {
    UpdateZones(c, p.(lastSeenAt := s.now, lastBox := s.box, processed := false), s)
  }

  lemma SightKeepsIdentity(c: Settings, p: Person, s: Sighting)
    ensures var q := Sight(c, p, s);
      && q.id == p.id && q.cameraId == p.cameraId && q.firstSeenAt == p.firstSeenAt
      && q.lastSeenAt == s.now && q.lastBox == s.box && !q.processed
  {
  }
}
