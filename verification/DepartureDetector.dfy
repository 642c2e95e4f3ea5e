/** The detector object of src/detection/person_departure_detector.py: it updates
    its person objects and its two dictionaries in place, and every method is proved
    to perform the transition of the same name in DwellZones, GroundRegions or
    Departures. */
module DepartureDetector {
  import opened Prelude
  import opened Geometry
  import opened ObjectLists
  import Zones = DwellZones
  import Ground = GroundRegions
  import Spec = Departures

  class TrackedPerson {
    const id: string
    const cameraId: string
    const firstSeenAt: real
    var lastSeenAt: real
    var lastBox: Box
    var processed: bool
    var zones: seq<Zones.Zone>
    var anchor: Option<Point>
    var since: real
    var zoneBox: Zones.Area
    var reference: Option<Zones.Crop>

    constructor (id: string, cameraId: string, box: Box, now: real)
      ensures Value() == Zones.Newborn(id, cameraId, box, now)
    {
      this.id := id;
      this.cameraId := cameraId;
      firstSeenAt, lastSeenAt, lastBox, processed := now, now, box, false;
      zones, anchor, since, zoneBox, reference := [], None, 0.0, Zones.Area(0, 0, 0, 0), None;
    }

    function Value(): Zones.Person
      reads this
    {
      Zones.Person(id, cameraId, firstSeenAt, lastSeenAt, lastBox, processed, zones, anchor, since, zoneBox, reference)
    }

    /** The first dwell zone near `at`. */
    method FindZone(c: Zones.Settings, at: Point) returns (r: Option<nat>)
      ensures r == Zones.MatchZone(c, zones, at)
    {
      for i := 0 to |zones|
        invariant Zones.MatchZone(c, zones[..i], at).None?
      {
        assert zones[..i + 1][..i] == zones[..i];
        if Within(at, zones[i].center, c.matchDistance) {
          FirstMatch(c, zones, at, i);
          return Some(i);
        }
      }
      assert zones[..|zones|] == zones;
      r := None;
    }

    lemma FirstMatch(c: Zones.Settings, zs: seq<Zones.Zone>, at: Point, i: nat)
      requires i < |zs| && Zones.MatchZone(c, zs[..i], at).None? && Within(at, zs[i].center, c.matchDistance)
      ensures Zones.MatchZone(c, zs, at) == Some(i)
    {
      forall j | 0 <= j < i ensures !Within(at, zs[j].center, c.matchDistance) {
        assert zs[..i][j] == zs[j];
      }
    }

    /** Back at zone `i`. */
    method Revisit(i: nat, s: Zones.Sighting)
      requires i < |zones|
      modifies this
      ensures Value() == Zones.Revisit(old(Value()), s, i)
    {
      var z := zones[i];
      zones := zones[i := z.(lastPersonBox := s.box, center := Zones.Drift(z.center, Center(s.box)))];
      anchor, since := Some(zones[i].center), z.enteredAt;
    }

    /** Still near the anchor: keep the earliest crop and, after the dwell time, make a zone. */
    method Stay(c: Zones.Settings, s: Zones.Sighting)
      requires anchor.Some?
      modifies this
      ensures Value() == Zones.Stay(c, old(Value()), s)
    {
      if reference.None? {
        reference := Zones.CropOf(s, zoneBox);
      }
      if s.now - since < c.minDwellSeconds {
        return;
      }
      zones := zones + [Zones.Zone(anchor.value, zoneBox, since, reference, s.box)];
      if |zones| > c.maxSnapshots {
        zones := Suffix(zones, c.maxSnapshots);
      }
    }

    method UpdateZones(c: Zones.Settings, s: Zones.Sighting)
      modifies this
      ensures Value() == Zones.UpdateZones(c, old(Value()), s)
    {
      var at := Center(s.box);
      var m := FindZone(c, at);
      if m.Some? {
        Revisit(m.value, s);
        return;
      }
      if anchor.None? || !Within(at, anchor.value, c.stationaryDistance) {
        zoneBox := Zones.ZoneBoxOf(c, s);
        anchor, since, reference := Some(at), s.now, Zones.CropOf(s, zoneBox);
        return;
      }
      Stay(c, s);
    }

    method Sight(c: Zones.Settings, s: Zones.Sighting)
      modifies this
      ensures Value() == Zones.Sight(c, old(Value()), s)
    {
      lastSeenAt, lastBox, processed := s.now, s.box, false;
      UpdateZones(c, s);
    }

    /** Compare every dwell zone with the current frame. */
    method CheckZones(f: Zones.Frame, frameW: int, frameH: int, compare: (Zones.Crop, Zones.Crop) -> seq<Ground.Diff>)
      returns (found: seq<Ground.Finding>)
      ensures found == Ground.CheckZones(zones, lastSeenAt, f, frameW, frameH, compare)
    {
      found := [];
      for i := 0 to |zones|
        invariant found == Ground.CheckZones(zones[..i], lastSeenAt, f, frameW, frameH, compare)
      {
        Ground.CheckZonesStep(zones, lastSeenAt, f, frameW, frameH, compare, i);
        var ofZone := CheckZone(zones[i], f, frameW, frameH, compare);
        found := found + ofZone;
      }
      assert zones[..|zones|] == zones;
    }

    method CheckZone(z: Zones.Zone, f: Zones.Frame, frameW: int, frameH: int,
                     compare: (Zones.Crop, Zones.Crop) -> seq<Ground.Diff>)
      returns (found: seq<Ground.Finding>)
      ensures found == Ground.CheckZone(z, lastSeenAt, f, frameW, frameH, compare)
    {
      found := [];
      var p := Ground.Prepare(z, f, frameW, frameH);
      if p.None? {
        return;
      }
      var diffs := compare(p.value.before, p.value.after);
      for i := 0 to |diffs|
        invariant found == Ground.CheckZone(z, lastSeenAt, f, frameW, frameH, compare)[..i]
      {
        found := found + [Ground.FindingOf(z, lastSeenAt, p.value.region, diffs[i])];
      }
    }
  }

  ghost function ValuesOf(ps: seq<TrackedPerson>): (r: seq<Zones.Person>)
    reads ps
    ensures |r| == |ps| && forall i :: 0 <= i < |ps| ==> r[i] == ps[i].Value()
  {
    seq(|ps|, i requires 0 <= i < |ps| reads ps => ps[i].Value())
  }

  lemma ValuesOfAppend(ps: seq<TrackedPerson>, p: TrackedPerson)
    ensures ValuesOf(ps + [p]) == ValuesOf(ps) + [p.Value()]
  {
  }

  /** What one visit adds to the sweep does not depend on the persons and candidates
      gathered before. */
  lemma VisitIsLocal(c: Zones.Settings, u: Spec.Input, w: Spec.Sweep, p: Zones.Person)
    ensures var alone, all := Spec.Visit(c, u, Spec.Sweep([], w.missingSince, []), p), Spec.Visit(c, u, w, p);
      && all.persons == w.persons + alone.persons
      && all.missingSince == alone.missingSince
      && all.candidates == w.candidates + alone.candidates
      && |alone.persons| <= 1
  {
  }

  lemma VisitAllStep(c: Zones.Settings, u: Spec.Input, ps: seq<Zones.Person>, missingSince: map<string, real>, i: nat)
    requires i < |ps|
    ensures Spec.VisitAll(c, u, ps[..i + 1], missingSince)
         == Spec.Visit(c, u, Spec.VisitAll(c, u, ps[..i], missingSince), ps[i])
  {
    assert ps[..i + 1][..i] == ps[..i];
  }

  lemma PresentAllStep(c: Zones.Settings, d: Spec.Detector, u: Spec.Input, k: nat)
    requires k < |u.tracks|
    ensures Spec.PresentAll(c, d, u, u.tracks[..k + 1])
         == Spec.Present(c, Spec.PresentAll(c, d, u, u.tracks[..k]), u, u.tracks[k].0, u.tracks[k].1)
  {
    assert u.tracks[..k + 1][..k] == u.tracks[..k];
  }

  ghost function IdsAt(ps: seq<Zones.Person>, n: nat, cameraId: string): set<string>
    requires n <= |ps|
  {
    set j | 0 <= j < n && ps[j].cameraId == cameraId :: ps[j].id
  }

  lemma SplitStep(ps: seq<Zones.Person>, i: nat, cameraId: string)
    requires i < |ps|
    ensures Spec.Elsewhere(ps[..i + 1], cameraId)
         == Spec.Elsewhere(ps[..i], cameraId) + if ps[i].cameraId == cameraId then [] else [ps[i]]
    ensures IdsAt(ps, i + 1, cameraId) == IdsAt(ps, i, cameraId) + if ps[i].cameraId == cameraId then {ps[i].id} else {}
  {
    assert ps[..i + 1][..i] == ps[..i];
  }

  class PersonDepartureDetector {
    const c: Zones.Settings
    var persons: seq<TrackedPerson>
    var missingSince: map<string, real>
    ghost var Repr: set<TrackedPerson>

    constructor (c: Zones.Settings)
      ensures Valid() && Repr == {} && this.c == c && Current() == Spec.Detector([], map[])
    {
      this.c := c;
      persons, missingSince, Repr := [], map[], {};
    }

    ghost predicate Valid()
      reads this
    {
      Separate(persons) && forall p :: p in persons ==> p in Repr
    }

    ghost function Current(): Spec.Detector
      reads this, persons
    {
      Spec.Detector(ValuesOf(persons), missingSince)
    }

    /** The dictionary lookup of a person. */
    method FindPerson(id: string) returns (r: Option<nat>)
      ensures r == Spec.IndexOf(ValuesOf(persons), id)
    {
      ghost var all := ValuesOf(persons);
      r := None;
      for i := 0 to |persons|
        invariant r == Spec.IndexOf(all[..i], id)
      {
        assert all[..i + 1][..i] == all[..i];
        if persons[i].id == id {
          r := Some(i);
        }
      }
      assert all[..|persons|] == all;
    }

    /** A person seen for the first time. */
    method Newcomer(id: string, u: Spec.Input, box: Box) returns (p: TrackedPerson)
      ensures fresh(p) && p.Value() == Spec.Seen(c, u, id, None, box)
    {
      p := new TrackedPerson(id, u.cameraId, box, u.now);
      p.Sight(c, Spec.SightingOf(u, box));
    }

    method AddPerson(id: string, u: Spec.Input, box: Box)
      requires Valid()
      modifies this
      ensures Valid() && fresh(Repr - old(Repr))
      ensures Current() == old(Spec.Detector(ValuesOf(persons) + [Spec.Seen(c, u, id, None, box)], missingSince - {id}))
    {
      var p := Newcomer(id, u, box);
      SeparateAppend(persons, p);
      ValuesOfAppend(persons, p);
      persons, missingSince, Repr := persons + [p], missingSince - {id}, Repr + {p};
    }

    method SeePerson(i: nat, id: string, u: Spec.Input, box: Box)
      requires Valid() && i < |persons|
      modifies this`missingSince, persons[i]
      ensures Valid()
      ensures var seen := Spec.Seen(c, u, id, Some(old(persons[i].Value())), box);
        Current() == old(Spec.Detector(ValuesOf(persons)[i := seen], missingSince - {id}))
    {
      ghost var before := ValuesOf(persons);
      persons[i].Sight(c, Spec.SightingOf(u, box));
      missingSince := missingSince - {id};
      assert forall j :: 0 <= j < |persons| && j != i ==> persons[j].Value() == before[j];
      assert ValuesOf(persons) == before[i := persons[i].Value()];
    }

    /** One visible person. */
    method Present(u: Spec.Input, id: string, box: Box)
      requires Valid()
      modifies this, Repr
      ensures Valid() && fresh(Repr - old(Repr))
      ensures Current() == Spec.Present(c, old(Current()), u, id, box)
    {
      var i := FindPerson(id);
      Spec.SeenKeepsId(c, u, id, Spec.Find(ValuesOf(persons), id), box);
      if i.Some? {
        SeePerson(i.value, id, u, box);
      } else {
        AddPerson(id, u, box);
      }
    }

    method PresentAll(u: Spec.Input)
      requires Valid()
      modifies this, Repr
      ensures Valid() && fresh(Repr - old(Repr))
      ensures Current() == Spec.PresentAll(c, old(Current()), u, u.tracks)
    {
      ghost var start := Current();
      for k := 0 to |u.tracks|
        invariant Valid() && fresh(Repr - old(Repr))
        invariant Current() == Spec.PresentAll(c, start, u, u.tracks[..k])
      {
        PresentAllStep(c, start, u, k);
        Present(u, u.tracks[k].0, u.tracks[k].1);
      }
      assert u.tracks[..|u.tracks|] == u.tracks;
    }

    method Sees(u: Spec.Input, id: string) returns (seen: bool)
      ensures seen == Spec.Sees(u, id)
    {
      for k := 0 to |u.tracks|
        invariant forall i :: 0 <= i < k ==> u.tracks[i].0 != id
      {
        if u.tracks[k].0 == id {
          return true;
        }
      }
      return false;
    }

    method TagAll(found: seq<Ground.Finding>, id: string) returns (candidates: seq<Spec.Candidate>)
      ensures candidates == Spec.Tag(found, id)
    {
      candidates := [];
      for i := 0 to |found|
        invariant candidates == Spec.Tag(found, id)[..i]
      {
        candidates := candidates + [Spec.Candidate(found[i], id)];
      }
    }

    /** One listed person that may be absent: check it when due, and say whether it
        stays. */
    method Visit(u: Spec.Input, p: TrackedPerson) returns (keep: bool, found: seq<Spec.Candidate>)
      modifies this`missingSince, p`processed
      ensures var w := Spec.Visit(c, u, Spec.Sweep([], old(missingSince), []), old(p.Value()));
        && w.persons == (if keep then [p.Value()] else [])
        && missingSince == w.missingSince && found == w.candidates
    {
      keep, found := true, [];
      var seen := Sees(u, p.id);
      if seen || p.cameraId != u.cameraId {
        return;
      }
      if p.id !in missingSince {
        missingSince := missingSince[p.id := u.now];
      }
      var missingFor := u.now - missingSince[p.id];
      if missingFor >= c.confirmSeconds && !p.processed {
        if u.frame.None? {
          return;
        }
        p.processed := true;
        var findings := p.CheckZones(u.frame.value, u.frameW, u.frameH, u.compare);
        found := TagAll(findings, p.id);
      }
      if missingFor > Spec.PURGE_SECONDS {
        keep := false;
        missingSince := missingSince - {p.id};
      }
    }

    /** The sweep has dealt with `listed[..i]`: `kept` and the dictionaries are those
        of the specification, and the rest is untouched. */
    ghost predicate SweptUpTo(u: Spec.Input, start: Spec.Detector, listed: seq<TrackedPerson>, i: nat,
                              kept: seq<TrackedPerson>, candidates: seq<Spec.Candidate>)
      reads this, listed, kept
    {
      && i <= |listed| == |start.persons|
      && KeptFrom(listed, kept, i)
      && (forall j :: i <= j < |listed| ==> listed[j].Value() == start.persons[j])
      && Spec.Sweep(ValuesOf(kept), missingSince, candidates)
      == Spec.VisitAll(c, u, start.persons[..i], start.missingSince)
    }

    method SweepOne(u: Spec.Input, ghost start: Spec.Detector, listed: seq<TrackedPerson>, i: nat,
                    kept: seq<TrackedPerson>, candidates: seq<Spec.Candidate>)
      returns (kept': seq<TrackedPerson>, candidates': seq<Spec.Candidate>)
      requires Separate(listed) && i < |listed| && SweptUpTo(u, start, listed, i, kept, candidates)
      modifies this`missingSince, listed[i]
      ensures SweptUpTo(u, start, listed, i + 1, kept', candidates')
    {
      ghost var w := Spec.VisitAll(c, u, start.persons[..i], start.missingSince);
      VisitAllStep(c, u, start.persons, start.missingSince, i);
      VisitIsLocal(c, u, w, start.persons[i]);
      NotYetKept(listed, kept, i);
      assert forall j :: i < j < |listed| ==> listed[j] != listed[i];
      var keep, found := Visit(u, listed[i]);
      assert ValuesOf(kept) == w.persons;
      kept', candidates' := kept, candidates + found;
      if keep {
        ValuesOfAppend(kept, listed[i]);
        kept' := kept + [listed[i]];
      }
    }

    /** The persons missing from this frame: check, forget, or keep waiting. */
    method SweepMissing(u: Spec.Input) returns (candidates: seq<Spec.Candidate>)
      requires Valid()
      modifies this`persons, this`missingSince, persons
      ensures Valid()
      ensures Spec.Sweep(ValuesOf(persons), missingSince, candidates)
           == Spec.VisitAll(c, u, old(ValuesOf(persons)), old(missingSince))
    {
      ghost var start := Current();
      var listed, kept: seq<TrackedPerson> := persons, [];
      candidates := [];
      for i := 0 to |listed|
        invariant SweptUpTo(u, start, listed, i, kept, candidates)
      {
        kept, candidates := SweepOne(u, start, listed, i, kept, candidates);
      }
      assert start.persons[..|listed|] == start.persons;
      persons := kept;
    }

    /** One frame of a camera. */
    method Update(u: Spec.Input) returns (candidates: seq<Spec.Candidate>)
      requires Valid()
      modifies this, Repr
      ensures Valid() && fresh(Repr - old(Repr))
      ensures Current() == Spec.Update(c, old(Current()), u)
      ensures candidates == Spec.Output(c, old(Current()), u)
    {
      PresentAll(u);
      candidates := SweepMissing(u);
    }

    /** The persons of other cameras, and the ids of the rest. */
    method SplitByCamera(cameraId: string) returns (kept: seq<TrackedPerson>, removedIds: set<string>)
      requires Valid()
      ensures Separate(kept) && forall p :: p in kept ==> p in persons
      ensures ValuesOf(kept) == Spec.Elsewhere(ValuesOf(persons), cameraId)
      ensures removedIds == Spec.GoneIds(Current(), cameraId)
    {
      ghost var all := ValuesOf(persons);
      kept, removedIds := [], {};
      for i := 0 to |persons|
        invariant KeptFrom(persons, kept, i)
        invariant ValuesOf(kept) == Spec.Elsewhere(all[..i], cameraId)
        invariant removedIds == IdsAt(all, i, cameraId)
      {
        SplitStep(all, i, cameraId);
        NotYetKept(persons, kept, i);
        if persons[i].cameraId == cameraId {
          removedIds := removedIds + {persons[i].id};
        } else {
          ValuesOfAppend(kept, persons[i]);
          kept := kept + [persons[i]];
        }
      }
      assert all[..|persons|] == all;
    }

    /** Forget every person of a camera. */
    method ClearCamera(cameraId: string)
      requires Valid()
      modifies this`persons, this`missingSince
      ensures Valid() && Current() == Spec.ClearCamera(old(Current()), cameraId)
    {
      var kept, removedIds := SplitByCamera(cameraId);
      persons, missingSince := kept, missingSince - removedIds;
    }
  }
}
