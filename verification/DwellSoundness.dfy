/** Every zone comes from one stationary run: the person stayed within the
    stationary distance of the zone's first centre from the moment recorded as
    entry to the creation, and the reference is the first crop possible in that
    very run.  This holds exactly when a matched zone cannot be left without also
    leaving the anchor. */
module DwellSoundness {
  import opened Prelude
  import opened Geometry
  import opened DwellZones

  /** The first crop of `b` that the sightings allow. */
  function FirstCrop(ss: seq<Sighting>, b: Area): Option<Crop> {
    if ss == [] then None
    else
      var before := FirstCrop(ss[..|ss| - 1], b);
      if before.Some? then before else CropOf(ss[|ss| - 1], b)
  }

  /** "First" spelled out: no earlier sighting allows a crop. */
  lemma {:induction false} FirstCropIsEarliest(ss: seq<Sighting>, b: Area, k: nat)
    requires k < |ss| && CropOf(ss[k], b).Some?
    requires forall i :: 0 <= i < k ==> CropOf(ss[i], b).None?
    ensures FirstCrop(ss, b) == CropOf(ss[k], b)
  {
    var n := |ss| - 1;
    if k < n {
      FirstCropIsEarliest(ss[..n], b, k);
    } else {
      NoCropBefore(ss[..n], b);
    }
  }

  lemma {:induction false} NoCropBefore(ss: seq<Sighting>, b: Area)
    requires forall i :: 0 <= i < |ss| ==> CropOf(ss[i], b).None?
    ensures FirstCrop(ss, b).None?
  {
    if ss != [] {
      NoCropBefore(ss[..|ss| - 1], b);
    }
  }

  function Replay(c: Settings, p: Person, ss: seq<Sighting>): Person {
    if ss == [] then p else Sight(c, Replay(c, p, ss[..|ss| - 1]), ss[|ss| - 1])
  }

  /** No zones and no stationary run yet. */
  predicate Blank(p: Person) { p.zones == [] && p.anchor.None? }

  /** All sightings after `a` are near the place of sighting `a`. */
  ghost predicate StaysNear(c: Settings, ss: seq<Sighting>, a: nat) {
    forall k :: a < k < |ss| ==> Within(Center(ss[k].box), Center(ss[a].box), c.stationaryDistance)
  }

  /** The person's current run began at sighting `a` and goes on. */
  ghost predicate Forming(c: Settings, p: Person, ss: seq<Sighting>, a: nat) {
    && a < |ss|
    && p.anchor == Some(Center(ss[a].box)) && p.since == ss[a].now && p.zoneBox == ZoneBoxOf(c, ss[a])
    && p.reference == FirstCrop(ss[a..], p.zoneBox)
    && StaysNear(c, ss, a)
  }

  /** The anchor is the centre of a zone already made. */
  ghost predicate OnZone(p: Person) {
    exists i :: 0 <= i < |p.zones| && p.anchor == Some(p.zones[i].center)
  }

  /** Zone `z`, made at the last sighting, is backed by the run from `a` on. */
  ghost predicate BackedBy(c: Settings, ss: seq<Sighting>, a: nat, z: Zone) {
    && a < |ss|
    && z.center == Center(ss[a].box) && z.enteredAt == ss[a].now && z.bbox == ZoneBoxOf(c, ss[a])
    && z.reference == FirstCrop(ss[a..], z.bbox)
    && StaysNear(c, ss, a)
    && ss[|ss| - 1].now - ss[a].now >= c.minDwellSeconds
  }

  /** A matched zone holds the person at least as strongly as an anchor does, or no
      zone is ever matched. */
  predicate MatchCoversAnchor(c: Settings) {
    c.stationaryDistance <= c.matchDistance || c.matchDistance < 0.0 || c.maxSnapshots < 0
  }

  ghost predicate Traced(c: Settings, p: Person, ss: seq<Sighting>) {
    && (c.maxSnapshots < 0 ==> p.zones == [])
    && ( || (ss == [] && Blank(p))
         || (exists a :: Forming(c, p, ss, a))
         || (c.matchDistance >= 0.0 && c.maxSnapshots >= 0 && OnZone(p)))
  }

  lemma WithinMonotone(p: Point, q: Point, d: real, e: real)
    requires Within(p, q, d) && d <= e
    ensures Within(p, q, e)
  {
    assert d * d <= e * e;
  }

  lemma FormingGoesOn(c: Settings, p: Person, ss: seq<Sighting>, a: nat, s: Sighting)
    requires Forming(c, p, ss, a) && StaysAtAnchor(c, p, Center(s.box))
    ensures Forming(c, p.(reference := RunReference(p, s)), ss + [s], a)
  {
    var more := ss + [s];
    assert more[a..] == ss[a..] + [s];
    assert more[a..][..|more[a..]| - 1] == ss[a..];
    assert forall k :: a < k < |ss| ==> more[k] == ss[k];
  }

  lemma FormingBegins(c: Settings, p: Person, ss: seq<Sighting>, s: Sighting)
    ensures Forming(c, Settle(c, p, s), ss + [s], |ss|)
  {
    var more := ss + [s];
    assert more[|ss|..] == [s];
    assert FirstCrop([s], ZoneBoxOf(c, s)) == CropOf(s, ZoneBoxOf(c, s)) by {
      assert [s][..0] == [];
    }
  }

  /** Once on a zone, a person that no zone matches has left the anchor too. */
  lemma OffZoneIsOffAnchor(c: Settings, p: Person, at: Point)
    requires MatchCoversAnchor(c) && c.matchDistance >= 0.0 && c.maxSnapshots >= 0 && OnZone(p)
    requires MatchZone(c, p.zones, at).None?
    ensures !StaysAtAnchor(c, p, at)
  {
    var i :| 0 <= i < |p.zones| && p.anchor == Some(p.zones[i].center);
    if StaysAtAnchor(c, p, at) {
      WithinMonotone(at, p.zones[i].center, c.stationaryDistance, c.matchDistance);
    }
  }

  lemma NoZonesKept(c: Settings, p: Person, s: Sighting)
    requires c.maxSnapshots < 0 && p.zones == [] && p.anchor.Some?
    ensures WithNewZone(c, p, s) == []
  {
    var zones := p.zones + [NewZone(p, s)];
    assert |zones| == 1 && |Suffix(zones, c.maxSnapshots)| == 0;
  }

  /** Only the fields the zones depend on matter for the trace. */
  lemma TracedIgnoresRest(c: Settings, p: Person, q: Person, ss: seq<Sighting>)
    requires Traced(c, p, ss)
    requires q.zones == p.zones && q.anchor == p.anchor && q.since == p.since
    requires q.zoneBox == p.zoneBox && q.reference == p.reference
    ensures Traced(c, q, ss)
  {
    if a :| Forming(c, p, ss, a) {
      assert Forming(c, q, ss, a);
    }
  }

  lemma UnmatchedStays(c: Settings, p: Person, ss: seq<Sighting>, s: Sighting) returns (a: nat)
    requires MatchCoversAnchor(c) && Traced(c, p, ss)
    requires MatchZone(c, p.zones, Center(s.box)).None? && StaysAtAnchor(c, p, Center(s.box))
    ensures Forming(c, p, ss, a)
    ensures Forming(c, p.(reference := RunReference(p, s)), ss + [s], a)
  {
    if c.matchDistance >= 0.0 && c.maxSnapshots >= 0 && OnZone(p) {
      OffZoneIsOffAnchor(c, p, Center(s.box));
    }
    a :| Forming(c, p, ss, a);
    FormingGoesOn(c, p, ss, a, s);
  }

  lemma TraceStep(c: Settings, p: Person, ss: seq<Sighting>, s: Sighting)
    requires MatchCoversAnchor(c) && Traced(c, p, ss)
    ensures Traced(c, UpdateZones(c, p, s), ss + [s])
  {
    var at, p' := Center(s.box), UpdateZones(c, p, s);
    var m := MatchZone(c, p.zones, at);
    if m.Some? {
      assert p'.anchor == Some(p'.zones[m.value].center);
    } else if !StaysAtAnchor(c, p, at) {
      FormingBegins(c, p, ss, s);
    } else {
      var a := UnmatchedStays(c, p, ss, s);
      if c.maxSnapshots < 0 {
        NoZonesKept(c, p, s);
      }
      assert Forming(c, p', ss + [s], a);
    }
  }

  lemma SightTraced(c: Settings, p: Person, ss: seq<Sighting>, s: Sighting)
    requires MatchCoversAnchor(c) && Traced(c, p, ss)
    ensures Traced(c, Sight(c, p, s), ss + [s])
  {
    var q := p.(lastSeenAt := s.now, lastBox := s.box, processed := false);
    TracedIgnoresRest(c, p, q, ss);
    TraceStep(c, q, ss, s);
  }

  lemma {:induction false} ReplayTraced(c: Settings, p: Person, ss: seq<Sighting>)
    requires MatchCoversAnchor(c) && Blank(p)
    ensures Traced(c, Replay(c, p, ss), ss)
  {
    if ss != [] {
      var front, s := ss[..|ss| - 1], ss[|ss| - 1];
      assert ss == front + [s];
      ReplayTraced(c, p, front);
      SightTraced(c, Replay(c, p, front), front, s);
    }
  }

  /** Dwell-zone soundness for one person, whatever the sightings and the clock. */
  lemma CreatedZoneIsBacked(c: Settings, p: Person, ss: seq<Sighting>, s: Sighting) returns (a: nat)
    requires MatchCoversAnchor(c) && Blank(p) && Creates(c, Replay(c, p, ss), s)
    ensures BackedBy(c, ss + [s], a, NewZone(Replay(c, p, ss), s))
  {
    var q := Replay(c, p, ss);
    ReplayTraced(c, p, ss);
    a := UnmatchedStays(c, q, ss, s);
  }

  ghost predicate IsBacked(c: Settings, ss: seq<Sighting>, z: Zone) {
    exists a :: BackedBy(c, ss, a, z)
  }

  ghost predicate ZonesAlwaysBacked(c: Settings) {
    forall p: Person, ss: seq<Sighting>, s: Sighting :: Blank(p) && Creates(c, Replay(c, p, ss), s) ==>
      IsBacked(c, ss + [s], NewZone(Replay(c, p, ss), s))
  }

  // ---- the condition is exact ----

  function Stand(x: real, now: real): Sighting {
    Sighting(Box(x, 0.0, x, 0.0), None, 0, 0, now)
  }

  /** Dwell at 0, walk far away, come back to 0, then step just out of the zone. */
  function Detour(c: Settings): seq<Sighting> {
    var t := Abs(c.minDwellSeconds) + 1.0;
    [Stand(0.0, 0.0), Stand(0.0, t), Stand(2.0 * c.stationaryDistance + 1.0, 2.0 * t), Stand(0.0, 3.0 * t)]
  }

  lemma FarApart(x: real, y: real, d: real)
    requires Abs(x - y) > d
    ensures !Within(Point(x, 0.0), Point(y, 0.0), d)
  {
    if Within(Point(x, 0.0), Point(y, 0.0), d) {
      WithinBoundsEachAxis(Point(x, 0.0), Point(y, 0.0), d);
    }
  }

  lemma Nearby(x: real, y: real, d: real)
    requires Abs(x - y) <= d
    ensures Within(Point(x, 0.0), Point(y, 0.0), d)
  {
    var a := Abs(x - y);
    assert a * a <= d * d;
    assert a * a == (x - y) * (x - y);
  }

  predicate Escapable(c: Settings) {
    c.stationaryDistance > c.matchDistance >= 0.0 && c.maxSnapshots >= 0
  }

  const ORIGIN := Point(0.0, 0.0)

  lemma CenterOfStand(x: real, now: real)
    ensures Center(Stand(x, now).box) == Point(x, 0.0)
  {
  }

  lemma DetourMakesZone(c: Settings, p: Person)
    requires Escapable(c) && Blank(p)
    ensures var q := Replay(c, p, Detour(c)[..2]);
      |q.zones| == 1 && q.zones[0].center == ORIGIN && q.zones[0].enteredAt == 0.0 && q.anchor == Some(ORIGIN)
  {
    var ss := Detour(c);
    var first, both := ss[..1], ss[..2];
    assert first[..0] == [] && both[..1] == first;
    assert first[0] == ss[0] && both[1] == ss[1];
    CenterOfStand(0.0, ss[0].now);
    CenterOfStand(0.0, ss[1].now);
    var q := Replay(c, p, first);
    assert Replay(c, p, []) == p;
    assert q == Sight(c, p, ss[0]);
    assert q.zones == [] && q.anchor == Some(ORIGIN) && q.since == 0.0;
    Nearby(0.0, 0.0, c.stationaryDistance);
    assert Creates(c, q, ss[1]);
    assert Replay(c, p, both) == Sight(c, q, ss[1]);
    assert WithNewZone(c, q, ss[1]) == [NewZone(q, ss[1])];
  }

  lemma WalkAway(c: Settings, q: Person, s: Sighting)
    requires forall i :: 0 <= i < |q.zones| ==> !Within(Center(s.box), q.zones[i].center, c.matchDistance)
    requires !StaysAtAnchor(c, q, Center(s.box))
    ensures Sight(c, q, s).zones == q.zones
  {
  }

  lemma ComeBack(c: Settings, q: Person, s: Sighting)
    requires |q.zones| == 1 && q.zones[0].center == ORIGIN == Center(s.box) && c.matchDistance >= 0.0
    ensures var q' := Sight(c, q, s);
      && |q'.zones| == 1 && q'.zones[0].center == ORIGIN
      && q'.anchor == Some(ORIGIN) && q'.since == q.zones[0].enteredAt
  {
    Nearby(0.0, 0.0, c.matchDistance);
  }

  lemma DetourReturns(c: Settings, p: Person)
    requires Escapable(c) && Blank(p)
    ensures var q := Replay(c, p, Detour(c));
      |q.zones| == 1 && q.zones[0].center == ORIGIN && q.anchor == Some(ORIGIN) && q.since == 0.0
  {
    var ss := Detour(c);
    var far := 2.0 * c.stationaryDistance + 1.0;
    var q2, q3 := Replay(c, p, ss[..2]), Replay(c, p, ss[..3]);
    DetourMakesZone(c, p);
    assert ss[..3][..2] == ss[..2] && ss[..4] == ss && ss[..4][..3] == ss[..3];
    assert q3 == Sight(c, q2, ss[2]) && Replay(c, p, ss) == Sight(c, q3, ss[3]);
    CenterOfStand(far, ss[2].now);
    CenterOfStand(0.0, ss[3].now);
    FarApart(far, 0.0, c.matchDistance);
    FarApart(far, 0.0, c.stationaryDistance);
    WalkAway(c, q2, ss[2]);
    ComeBack(c, q3, ss[3]);
  }

  /** A zone whose entry time is only that of the first sighting is not backed if
      the person was once far from there. */
  lemma WanderedOff(c: Settings, ss: seq<Sighting>, z: Zone, k: nat)
    requires 0 < k < |ss| && !Within(Center(ss[k].box), Center(ss[0].box), c.stationaryDistance)
    requires forall i :: 0 < i < |ss| ==> ss[i].now != z.enteredAt
    ensures !IsBacked(c, ss, z)
  {
    forall a: nat ensures !BackedBy(c, ss, a, z) {
    }
  }

  function LeavingStep(c: Settings): Sighting {
    Stand(c.stationaryDistance, 4.0 * (Abs(c.minDwellSeconds) + 1.0))
  }

  lemma DetourCreates(c: Settings, p: Person)
    requires Escapable(c) && Blank(p)
    ensures Creates(c, Replay(c, p, Detour(c)), LeavingStep(c))
    ensures NewZone(Replay(c, p, Detour(c)), LeavingStep(c)).enteredAt == 0.0
  {
    DetourReturns(c, p);
    CenterOfStand(c.stationaryDistance, LeavingStep(c).now);
    FarApart(c.stationaryDistance, 0.0, c.matchDistance);
    Nearby(c.stationaryDistance, 0.0, c.stationaryDistance);
  }

  lemma DetourWanders(c: Settings, z: Zone)
    requires Escapable(c) && z.enteredAt == 0.0
    ensures !IsBacked(c, Detour(c) + [LeavingStep(c)], z)
  {
    var ss := Detour(c) + [LeavingStep(c)];
    var far := 2.0 * c.stationaryDistance + 1.0;
    CenterOfStand(0.0, 0.0);
    CenterOfStand(far, ss[2].now);
    FarApart(far, 0.0, c.stationaryDistance);
    WanderedOff(c, ss, z, 2);
  }

  lemma EscapableIsUnbacked(c: Settings)
    requires Escapable(c)
    ensures !ZonesAlwaysBacked(c)
  {
    var p := Newborn("p", "cam", Box(0.0, 0.0, 0.0, 0.0), 0.0);
    DetourCreates(c, p);
    DetourWanders(c, NewZone(Replay(c, p, Detour(c)), LeavingStep(c)));
    UnbackedZoneRefutes(c, p, Detour(c), LeavingStep(c));
  }

  lemma UnbackedZoneRefutes(c: Settings, p: Person, ss: seq<Sighting>, s: Sighting)
    requires Blank(p) && Creates(c, Replay(c, p, ss), s)
    requires !IsBacked(c, ss + [s], NewZone(Replay(c, p, ss), s))
    ensures !ZonesAlwaysBacked(c)
  {
  }

  /** All zones are backed by a run if and only if a match covers the anchor. */
  lemma ZonesBackedIff(c: Settings)
    ensures ZonesAlwaysBacked(c) <==> MatchCoversAnchor(c)
  {
    if MatchCoversAnchor(c) {
      forall p: Person, ss: seq<Sighting>, s: Sighting | Blank(p) && Creates(c, Replay(c, p, ss), s)
        ensures IsBacked(c, ss + [s], NewZone(Replay(c, p, ss), s))
      {
        var a := CreatedZoneIsBacked(c, p, ss, s);
      }
    } else {
      EscapableIsUnbacked(c);
    }
  }

  // ---- a zone's box, entry time and reference never change ----

  ghost predicate SameZone(z: Zone, z': Zone) {
    z.bbox == z'.bbox && z.enteredAt == z'.enteredAt && z.reference == z'.reference
  }

  lemma SuffixMember<T>(s: seq<T>, k: int, x: T)
    requires x in Suffix(s, k)
    ensures x in s
  {
  }

  /** After a sighting every zone is the one just created or an old zone with the
      same box, entry time and reference. */
  lemma ZonesPersist(c: Settings, p: Person, s: Sighting, z': Zone)
    requires z' in Sight(c, p, s).zones
    ensures (Creates(c, p, s) && z' == NewZone(p, s)) || exists z :: z in p.zones && SameZone(z, z')
  {
    var m := MatchZone(c, p.zones, Center(s.box));
    if m.Some? {
      var j :| 0 <= j < |p.zones| && Sight(c, p, s).zones[j] == z';
      assert SameZone(p.zones[j], z');
    } else if Creates(c, p, s) {
      NewZonesAreOldOrNew(c, p, s, z');
      assert z' in p.zones ==> SameZone(z', z');
    } else {
      assert SameZone(z', z');
    }
  }

  lemma NewZonesAreOldOrNew(c: Settings, p: Person, s: Sighting, z': Zone)
    requires p.anchor.Some? && z' in WithNewZone(c, p, s)
    ensures z' == NewZone(p, s) || z' in p.zones
  {
    var zones := p.zones + [NewZone(p, s)];
    if |zones| > c.maxSnapshots {
      SuffixMember(zones, c.maxSnapshots, z');
    }
  }

  // ---- zones held later ----

  /** Sighting `k - 1` of the person made zone `z0`, and the run behind it backs it. */
  ghost predicate MadeAt(c: Settings, p: Person, ss: seq<Sighting>, k: nat, z0: Zone) {
    && 0 < k <= |ss|
    && Creates(c, Replay(c, p, ss[..k - 1]), ss[k - 1])
    && z0 == NewZone(Replay(c, p, ss[..k - 1]), ss[k - 1])
    && IsBacked(c, ss[..k], z0)
  }

  /** Zone `z` has the box, the entry time and the reference of the zone made at
      sighting `k - 1`. */
  ghost predicate GoesBackTo(c: Settings, p: Person, ss: seq<Sighting>, k: nat, z: Zone) {
    exists z0 :: MadeAt(c, p, ss, k, z0) && SameZone(z0, z)
  }

  /** The zone a sighting makes, if any. */
  function MadeBy(c: Settings, q: Person, s: Sighting): Option<Zone> {
    if Creates(c, q, s) then Some(NewZone(q, s)) else None
  }

  ghost function ZonesMade(c: Settings, p: Person, ss: seq<Sighting>): (made: seq<Option<Zone>>)
    ensures |made| == |ss|
    ensures forall n :: 0 <= n < |ss| ==> made[n] == MadeBy(c, Replay(c, p, ss[..n]), ss[n])
  {
    seq(|ss|, n requires 0 <= n < |ss| => MadeBy(c, Replay(c, p, ss[..n]), ss[n]))
  }

  ghost function ZonesHeld(c: Settings, p: Person, ss: seq<Sighting>): (held: seq<seq<Zone>>)
    ensures |held| == |ss| + 1
    ensures forall n :: 0 <= n <= |ss| ==> held[n] == Replay(c, p, ss[..n]).zones
  {
    seq(|ss| + 1, n requires 0 <= n <= |ss| => Replay(c, p, ss[..n]).zones)
  }

  /** The zone was made just now or continues one held before. */
  ghost predicate MadeOrKept(before: seq<Zone>, made: Option<Zone>, z': Zone) {
    made == Some(z') || exists z :: z in before && SameZone(z, z')
  }

  ghost predicate HandedOn(held: seq<seq<Zone>>, made: seq<Option<Zone>>) {
    && |held| == |made| + 1 && held[0] == []
    && forall n, z' :: 0 < n < |held| && z' in held[n] ==> MadeOrKept(held[n - 1], made[n - 1], z')
  }

  /** Back to the moment a held zone was made. */
  lemma {:induction false} BackToMaking(held: seq<seq<Zone>>, made: seq<Option<Zone>>, n: nat, z': Zone)
    returns (k: nat, z0: Zone)
    requires HandedOn(held, made) && n < |held| && z' in held[n]
    ensures 0 < k <= n && made[k - 1] == Some(z0) && SameZone(z0, z')
  {
    assert MadeOrKept(held[n - 1], made[n - 1], z');
    if made[n - 1] == Some(z') {
      k, z0 := n, z';
    } else {
      var z :| z in held[n - 1] && SameZone(z, z');
      k, z0 := BackToMaking(held, made, n - 1, z);
    }
  }

  lemma SightHandsOn(c: Settings, q: Person, s: Sighting, z': Zone)
    requires z' in Sight(c, q, s).zones
    ensures MadeOrKept(q.zones, MadeBy(c, q, s), z')
  {
    ZonesPersist(c, q, s, z');
  }

  lemma ReplayHandsOn(c: Settings, p: Person, ss: seq<Sighting>)
    requires Blank(p)
    ensures HandedOn(ZonesHeld(c, p, ss), ZonesMade(c, p, ss))
  {
    var held, made := ZonesHeld(c, p, ss), ZonesMade(c, p, ss);
    assert ss[..0] == [];
    forall n, z' | 0 < n < |held| && z' in held[n] ensures MadeOrKept(held[n - 1], made[n - 1], z') {
      assert ss[..n][..n - 1] == ss[..n - 1];
      SightHandsOn(c, Replay(c, p, ss[..n - 1]), ss[n - 1], z');
    }
  }

  lemma MadeIsBacked(c: Settings, p: Person, ss: seq<Sighting>, k: nat, z0: Zone)
    requires MatchCoversAnchor(c) && Blank(p) && 0 < k <= |ss|
    requires MadeBy(c, Replay(c, p, ss[..k - 1]), ss[k - 1]) == Some(z0)
    ensures MadeAt(c, p, ss, k, z0)
  {
    var a := CreatedZoneIsBacked(c, p, ss[..k - 1], ss[k - 1]);
    assert ss[..k] == ss[..k - 1] + [ss[k - 1]];
  }

  /** Every zone a person holds, at any time, still has the box, the entry time and
      the reference of a zone that was backed by a run when it was made. */
  lemma HeldZonesAreBacked(c: Settings, p: Person, ss: seq<Sighting>, z': Zone) returns (k: nat)
    requires MatchCoversAnchor(c) && Blank(p) && z' in Replay(c, p, ss).zones
    ensures GoesBackTo(c, p, ss, k, z')
  {
    var z0: Zone;
    assert ss[..|ss|] == ss;
    ReplayHandsOn(c, p, ss);
    k, z0 := BackToMaking(ZonesHeld(c, p, ss), ZonesMade(c, p, ss), |ss|, z');
    MadeIsBacked(c, p, ss, k, z0);
  }

  // ---- every zone stands for a full dwell ----

  ghost predicate Dwelt(c: Settings, p: Person) {
    forall z :: z in p.zones ==> p.lastSeenAt - z.enteredAt >= c.minDwellSeconds
  }

  lemma SightKeepsDwelt(c: Settings, p: Person, s: Sighting)
    requires Dwelt(c, p) && s.now >= p.lastSeenAt
    ensures Dwelt(c, Sight(c, p, s))
  {
    SightKeepsIdentity(c, p, s);
    forall z' | z' in Sight(c, p, s).zones ensures s.now - z'.enteredAt >= c.minDwellSeconds {
      ZonesPersist(c, p, s, z');
    }
  }
}
