/** The detector of src/detection/person_departure_detector.py on values: all
    persons, the missing list, one frame.  The fate of each person in a frame
    depends on that person alone, which UpdateIsPointwise states. */
module Departures {
  import opened Prelude
  import opened Geometry
  import opened DwellZones
  import opened GroundRegions

  const PURGE_SECONDS := 60.0

  /** One call of `update`.  `tracks` lists the visible persons; `compare` stands
      for the region comparison. */
  datatype Input = Input(
    cameraId: string,
    tracks: seq<(string, Box)>,
    frame: Option<Frame>,
    frameW: int,
    frameH: int,
    now: real,
    compare: (Crop, Crop) -> seq<Diff>)

  predicate Sees(u: Input, id: string) {
    exists i :: 0 <= i < |u.tracks| && u.tracks[i].0 == id
  }

  /** `tracks` comes from a dictionary: no id twice. */
  ghost predicate DistinctKeys(tracks: seq<(string, Box)>) {
    forall i, j :: 0 <= i < j < |tracks| ==> tracks[i].0 != tracks[j].0
  }

  function SightingOf(u: Input, box: Box): Sighting {
    Sighting(box, u.frame, u.frameW, u.frameH, u.now)
  }

  /** Persons in dictionary order, and since when each missing one is missing. */
  datatype Detector = Detector(persons: seq<Person>, missingSince: map<string, real>)

  datatype Candidate = Candidate(finding: Finding, departedPersonId: string)

  ghost predicate DistinctIds(ps: seq<Person>) {
    forall i, j :: 0 <= i < j < |ps| ==> ps[i].id != ps[j].id
  }

  /** The position of a person in the dictionary. */
  function IndexOf(ps: seq<Person>, id: string): (r: Option<nat>)
    ensures r.Some? ==> r.value < |ps| && ps[r.value].id == id
    ensures r.None? ==> forall i :: 0 <= i < |ps| ==> ps[i].id != id
  {
    if ps == [] then None
    else if ps[|ps| - 1].id == id then Some(|ps| - 1)
    else IndexOf(ps[..|ps| - 1], id)
  }

  function Find(ps: seq<Person>, id: string): (r: Option<Person>)
    ensures r.Some? ==> r.value in ps && r.value.id == id
  {
    var i := IndexOf(ps, id);
    if i.Some? then Some(ps[i.value]) else None
  }

  // ---- present persons ----

  /** Store a person under its id. */
  function Upsert(ps: seq<Person>, p: Person): seq<Person> {
    var i := IndexOf(ps, p.id);
    if i.Some? then ps[i.value := p] else ps + [p]
  }

  function Seen(c: Settings, u: Input, id: string, known: Option<Person>, box: Box): Person {
    Sight(c, if known.Some? then known.value else Newborn(id, u.cameraId, box, u.now), SightingOf(u, box))
  }

  function Present(c: Settings, d: Detector, u: Input, id: string, box: Box): Detector {
    Detector(Upsert(d.persons, Seen(c, u, id, Find(d.persons, id), box)), d.missingSince - {id})
  }

  function PresentAll(c: Settings, d: Detector, u: Input, tracks: seq<(string, Box)>): Detector {
    if tracks == [] then d
    else
      var n := |tracks| - 1;
      Present(c, PresentAll(c, d, u, tracks[..n]), u, tracks[n].0, tracks[n].1)
  }

  // ---- missing persons ----

  predicate IsAbsent(u: Input, p: Person) {
    !Sees(u, p.id) && p.cameraId == u.cameraId
  }

  /** What an absence does to a person: who is left, since when missing, and
      whether the zones are checked now. */
  datatype Fate = Fate(person: Option<Person>, missing: Option<real>, checked: bool)

  function MissingFor(u: Input, missing: Option<real>): real { u.now - missing.GetOr(u.now) }

  predicate IsDue(c: Settings, u: Input, p: Person, missing: Option<real>) {
    MissingFor(u, missing) >= c.confirmSeconds && !p.processed
  }

  function Absent(c: Settings, u: Input, p: Person, missing: Option<real>): Fate {
    var since := Some(missing.GetOr(u.now));
    var due := IsDue(c, u, p, missing);
    if due && u.frame.None? then Fate(Some(p), since, false)
    else
      var p' := p.(processed := p.processed || due);
      if MissingFor(u, missing) > PURGE_SECONDS then Fate(None, None, due)
      else Fate(Some(p'), since, due)
  }

  function Lookup(m: map<string, real>, id: string): Option<real> {
    if id in m then Some(m[id]) else None
  }

  function Tag(fs: seq<Finding>, id: string): (r: seq<Candidate>)
    ensures |r| == |fs|
  {
    seq(|fs|, i requires 0 <= i < |fs| => Candidate(fs[i], id))
  }

  function CandidatesOf(u: Input, p: Person): seq<Candidate>
    requires u.frame.Some?
  {
    Tag(CheckZones(p.zones, p.lastSeenAt, u.frame.value, u.frameW, u.frameH, u.compare), p.id)
  }

  /** The second loop, part way. */
  datatype Sweep = Sweep(persons: seq<Person>, missingSince: map<string, real>, candidates: seq<Candidate>)

  /** Write one person's fate into the two dictionaries and the output. */
  function Record(w: Sweep, id: string, fate: Fate, found: seq<Candidate>): Sweep {
    Sweep(
      if fate.person.Some? then w.persons + [fate.person.value] else w.persons,
      if fate.missing.Some? then w.missingSince[id := fate.missing.value] else w.missingSince - {id},
      w.candidates + found)
  }

  function FoundNow(c: Settings, u: Input, p: Person, missing: Option<real>): seq<Candidate> {
    if Absent(c, u, p, missing).checked && u.frame.Some? then CandidatesOf(u, p) else []
  }

  function Visit(c: Settings, u: Input, w: Sweep, p: Person): Sweep {
    if !IsAbsent(u, p) then w.(persons := w.persons + [p])
    else
      var missing := Lookup(w.missingSince, p.id);
      Record(w, p.id, Absent(c, u, p, missing), FoundNow(c, u, p, missing))
  }

  function VisitAll(c: Settings, u: Input, ps: seq<Person>, missingSince: map<string, real>): Sweep {
    if ps == [] then Sweep([], missingSince, [])
    else Visit(c, u, VisitAll(c, u, ps[..|ps| - 1], missingSince), ps[|ps| - 1])
  }

  function Swept(c: Settings, d: Detector, u: Input): Sweep {
    var seen := PresentAll(c, d, u, u.tracks);
    VisitAll(c, u, seen.persons, seen.missingSince)
  }

  function Update(c: Settings, d: Detector, u: Input): Detector {
    Detector(Swept(c, d, u).persons, Swept(c, d, u).missingSince)
  }

  function Output(c: Settings, d: Detector, u: Input): seq<Candidate> {
    Swept(c, d, u).candidates
  }

  /** `clear_camera`. */
  function Elsewhere(ps: seq<Person>, cameraId: string): seq<Person> {
    if ps == [] then []
    else
      var rest, p := Elsewhere(ps[..|ps| - 1], cameraId), ps[|ps| - 1];
      if p.cameraId == cameraId then rest else rest + [p]
  }

  function GoneIds(d: Detector, cameraId: string): set<string> {
    set i | 0 <= i < |d.persons| && d.persons[i].cameraId == cameraId :: d.persons[i].id
  }

  function ClearCamera(d: Detector, cameraId: string): Detector {
    Detector(Elsewhere(d.persons, cameraId), d.missingSince - GoneIds(d, cameraId))
  }

  // ---- one person's view ----

  /** A known person and the moment since when missing. */
  datatype Life = Life(person: Person, missing: Option<real>)

  function LifeOf(d: Detector, id: string): Option<Life> {
    var p := Find(d.persons, id);
    if p.Some? then Some(Life(p.value, Lookup(d.missingSince, id))) else None
  }

  function BoxOf(tracks: seq<(string, Box)>, id: string): (r: Option<Box>)
    ensures r.Some? ==> exists i :: 0 <= i < |tracks| && tracks[i] == (id, r.value)
    ensures r.None? ==> forall i :: 0 <= i < |tracks| ==> tracks[i].0 != id
  {
    if tracks == [] then None
    else if tracks[|tracks| - 1].0 == id then Some(tracks[|tracks| - 1].1)
    else BoxOf(tracks[..|tracks| - 1], id)
  }

  /** What one frame does to one person. */
  function StepSeen(c: Settings, u: Input, id: string, life: Option<Life>, box: Box): Life {
    Life(Seen(c, u, id, if life.Some? then Some(life.value.person) else None, box), None)
  }

  function StepUnseen(c: Settings, u: Input, life: Life): Option<Life> {
    if life.person.cameraId != u.cameraId then Some(life)
    else
      var fate := Absent(c, u, life.person, life.missing);
      if fate.person.Some? then Some(Life(fate.person.value, fate.missing)) else None
  }

  function StepLife(c: Settings, u: Input, id: string, life: Option<Life>): Option<Life> {
    var box := BoxOf(u.tracks, id);
    if box.Some? then Some(StepSeen(c, u, id, life, box.value))
    else if life.Some? then StepUnseen(c, u, life.value) else None
  }

  /** This frame checks the person's zones. */
  predicate Checks(c: Settings, u: Input, id: string, life: Option<Life>) {
    && life.Some? && BoxOf(u.tracks, id).None? && life.value.person.cameraId == u.cameraId
    && u.frame.Some? && IsDue(c, u, life.value.person, life.value.missing)
  }

  // ---- the detector is the sum of its persons ----

  /** Dictionary keys are unique and only known persons can be missing. */
  ghost predicate Sound(d: Detector) {
    DistinctIds(d.persons) && forall id :: id in d.missingSince ==> Find(d.persons, id).Some?
  }

  lemma IndexUnique(ps: seq<Person>, i: nat)
    requires DistinctIds(ps) && i < |ps|
    ensures IndexOf(ps, ps[i].id) == Some(i) && Find(ps, ps[i].id) == Some(ps[i])
  {
  }

  lemma FindAppend(ps: seq<Person>, p: Person, id: string)
    ensures Find(ps + [p], id) == if p.id == id then Some(p) else Find(ps, id)
  {
    assert (ps + [p])[..|ps|] == ps;
  }

  lemma FindReplace(ps: seq<Person>, i: nat, p: Person, id: string)
    requires DistinctIds(ps) && i < |ps| && p.id == ps[i].id
    ensures DistinctIds(ps[i := p])
    ensures Find(ps[i := p], id) == if p.id == id then Some(p) else Find(ps, id)
  {
    var ps' := ps[i := p];
    assert forall j :: 0 <= j < |ps| ==> ps'[j].id == ps[j].id;
    if p.id == id {
      IndexUnique(ps', i);
    } else {
      var k := IndexOf(ps, id);
      if k.Some? {
        IndexUnique(ps', k.value);
      }
    }
  }

  lemma UpsertFinds(ps: seq<Person>, p: Person, id: string)
    requires DistinctIds(ps)
    ensures DistinctIds(Upsert(ps, p))
    ensures Find(Upsert(ps, p), id) == if p.id == id then Some(p) else Find(ps, id)
  {
    var i := IndexOf(ps, p.id);
    if i.Some? {
      FindReplace(ps, i.value, p, id);
    } else {
      FindAppend(ps, p, id);
    }
  }

  lemma SeenKeepsId(c: Settings, u: Input, id: string, known: Option<Person>, box: Box)
    requires known.Some? ==> known.value.id == id
    ensures Seen(c, u, id, known, box).id == id
  {
    SightKeepsIdentity(c, if known.Some? then known.value else Newborn(id, u.cameraId, box, u.now), SightingOf(u, box));
  }

  lemma UpsertPointwise(d: Detector, p: Person, other: string)
    requires Sound(d)
    ensures var d' := Detector(Upsert(d.persons, p), d.missingSince - {p.id});
      Sound(d') && LifeOf(d', other) == if other == p.id then Some(Life(p, None)) else LifeOf(d, other)
  {
    forall id | id in d.missingSince ensures Find(Upsert(d.persons, p), id).Some? {
      UpsertFinds(d.persons, p, id);
    }
    UpsertFinds(d.persons, p, other);
  }

  lemma PresentPointwise(c: Settings, d: Detector, u: Input, id: string, box: Box, other: string)
    requires Sound(d)
    ensures Sound(Present(c, d, u, id, box))
    ensures LifeOf(Present(c, d, u, id, box), other)
         == if other == id then Some(StepSeen(c, u, id, LifeOf(d, id), box)) else LifeOf(d, other)
  {
    var known := Find(d.persons, id);
    SeenKeepsId(c, u, id, known, box);
    UpsertPointwise(d, Seen(c, u, id, known, box), other);
  }

  lemma {:induction false} PresentAllPointwise(c: Settings, d: Detector, u: Input, tracks: seq<(string, Box)>,
                                               id: string)
    requires Sound(d) && DistinctKeys(tracks)
    ensures Sound(PresentAll(c, d, u, tracks))
    ensures LifeOf(PresentAll(c, d, u, tracks), id)
         == if BoxOf(tracks, id).Some? then Some(StepSeen(c, u, id, LifeOf(d, id), BoxOf(tracks, id).value))
            else LifeOf(d, id)
  {
    if tracks != [] {
      var n := |tracks| - 1;
      PresentAllPointwise(c, d, u, tracks[..n], id);
      PresentPointwise(c, PresentAll(c, d, u, tracks[..n]), u, tracks[n].0, tracks[n].1, id);
      if tracks[n].0 == id {
        assert BoxOf(tracks[..n], id).None? by {
          assert forall i :: 0 <= i < n ==> tracks[..n][i].0 != id;
        }
      }
    }
  }

  /** The outcome of the second loop for one listed person. */
  function VisitedLife(c: Settings, u: Input, p: Person, missing: Option<real>): Option<Life> {
    if !IsAbsent(u, p) then Some(Life(p, missing))
    else
      var fate := Absent(c, u, p, missing);
      if fate.person.Some? then Some(Life(fate.person.value, fate.missing)) else None
  }

  /** What the loop has done about `id` after visiting `ps`: nothing if it is not
      listed, otherwise exactly that person's own outcome. */
  ghost predicate Reflects(c: Settings, u: Input, w: Sweep, ps: seq<Person>, missingSince: map<string, real>,
                           id: string)
  {
    var p, m := Find(ps, id), Lookup(missingSince, id);
    && LifeOf(Detector(w.persons, w.missingSince), id) == (if p.Some? then VisitedLife(c, u, p.value, m) else None)
    && (p.None? ==> Lookup(w.missingSince, id) == m)
    && (p.Some? && Find(w.persons, id).None? ==> id !in w.missingSince)
  }

  lemma AbsentKeepsId(c: Settings, u: Input, p: Person, missing: Option<real>)
    ensures Absent(c, u, p, missing).person.Some? ==> Absent(c, u, p, missing).person.value.id == p.id
    ensures Absent(c, u, p, missing).person.Some? <==> Absent(c, u, p, missing).missing.Some?
  {
  }

  lemma RecordFinds(w: Sweep, fate: Fate, found: seq<Candidate>, recorded: string, id: string)
    requires fate.person.Some? ==> fate.person.value.id == recorded
    ensures var w' := Record(w, recorded, fate, found);
      && Find(w'.persons, id) == (if recorded == id && fate.person.Some? then fate.person else Find(w.persons, id))
      && Lookup(w'.missingSince, id) == (if recorded == id then fate.missing else Lookup(w.missingSince, id))
  {
    if fate.person.Some? {
      FindAppend(w.persons, fate.person.value, id);
    }
  }

  lemma VisitFinds(c: Settings, u: Input, w: Sweep, p: Person, id: string)
    ensures var w', fate := Visit(c, u, w, p), Absent(c, u, p, Lookup(w.missingSince, p.id));
      && Find(w'.persons, id) == (if p.id != id then Find(w.persons, id)
                                  else if !IsAbsent(u, p) then Some(p)
                                  else if fate.person.Some? then fate.person else Find(w.persons, id))
      && Lookup(w'.missingSince, id)
        == (if p.id == id && IsAbsent(u, p) then fate.missing else Lookup(w.missingSince, id))
  {
    var missing := Lookup(w.missingSince, p.id);
    AbsentKeepsId(c, u, p, missing);
    FindAppend(w.persons, p, id);
    RecordFinds(w, Absent(c, u, p, missing), FoundNow(c, u, p, missing), p.id, id);
  }

  lemma VisitSelf(c: Settings, u: Input, w: Sweep, ps: seq<Person>, missingSince: map<string, real>, p: Person)
    requires Find(ps, p.id).None? && Reflects(c, u, w, ps, missingSince, p.id)
    ensures Reflects(c, u, Visit(c, u, w, p), ps + [p], missingSince, p.id)
  {
    FindAppend(ps, p, p.id);
    VisitFinds(c, u, w, p, p.id);
    AbsentKeepsId(c, u, p, Lookup(w.missingSince, p.id));
  }

  lemma VisitOther(c: Settings, u: Input, w: Sweep, w': Sweep, ps: seq<Person>, missingSince: map<string, real>,
                   p: Person, id: string)
    requires p.id != id && Reflects(c, u, w, ps, missingSince, id)
    requires Find(w'.persons, id) == Find(w.persons, id)
    requires Lookup(w'.missingSince, id) == Lookup(w.missingSince, id)
    ensures Reflects(c, u, w', ps + [p], missingSince, id)
  {
    FindAppend(ps, p, id);
  }

  lemma NotInFront(ps: seq<Person>)
    requires DistinctIds(ps) && ps != []
    ensures Find(ps[..|ps| - 1], ps[|ps| - 1].id).None?
  {
  }

  lemma {:induction false} VisitAllReflects(c: Settings, u: Input, ps: seq<Person>, missingSince: map<string, real>,
                                            id: string)
    requires DistinctIds(ps)
    ensures Reflects(c, u, VisitAll(c, u, ps, missingSince), ps, missingSince, id)
  {
    if ps != [] {
      var front, p := ps[..|ps| - 1], ps[|ps| - 1];
      var w := VisitAll(c, u, front, missingSince);
      assert ps == front + [p];
      VisitAllReflects(c, u, front, missingSince, id);
      if p.id == id {
        NotInFront(ps);
        VisitSelf(c, u, w, front, missingSince, p);
      } else {
        VisitFinds(c, u, w, p, id);
        VisitOther(c, u, w, Visit(c, u, w, p), front, missingSince, p, id);
      }
    }
  }

  lemma VisitDistinct(c: Settings, u: Input, w: Sweep, p: Person)
    requires DistinctIds(w.persons) && Find(w.persons, p.id).None?
    ensures DistinctIds(Visit(c, u, w, p).persons)
  {
  }

  lemma {:induction false} VisitAllDistinct(c: Settings, u: Input, ps: seq<Person>, missingSince: map<string, real>)
    requires DistinctIds(ps)
    ensures DistinctIds(VisitAll(c, u, ps, missingSince).persons)
  {
    if ps != [] {
      var front, p := ps[..|ps| - 1], ps[|ps| - 1];
      VisitAllDistinct(c, u, front, missingSince);
      VisitAllReflects(c, u, front, missingSince, p.id);
      NotInFront(ps);
      VisitDistinct(c, u, VisitAll(c, u, front, missingSince), p);
    }
  }

  lemma AbsentMeansUnseen(u: Input, p: Person)
    ensures IsAbsent(u, p) <==> BoxOf(u.tracks, p.id).None? && p.cameraId == u.cameraId
  {
    if i :| 0 <= i < |u.tracks| && u.tracks[i].0 == p.id {
    }
  }

  /** One frame treats every person independently: the detector's view of `id`
      afterwards is one step of that person alone, and the dictionaries stay sound. */
  lemma UpdateIsPointwise(c: Settings, d: Detector, u: Input, id: string)
    requires Sound(d) && DistinctKeys(u.tracks)
    ensures LifeOf(Update(c, d, u), id) == StepLife(c, u, id, LifeOf(d, id))
  {
    var seen := PresentAll(c, d, u, u.tracks);
    PresentAllPointwise(c, d, u, u.tracks, id);
    VisitAllReflects(c, u, seen.persons, seen.missingSince, id);
    var p := Find(seen.persons, id);
    if p.Some? {
      AbsentMeansUnseen(u, p.value);
    }
  }

  lemma UpdateKeepsSound(c: Settings, d: Detector, u: Input)
    requires Sound(d) && DistinctKeys(u.tracks)
    ensures Sound(Update(c, d, u))
  {
    var seen := PresentAll(c, d, u, u.tracks);
    var w := Swept(c, d, u);
    PresentAllPointwise(c, d, u, u.tracks, "");
    VisitAllDistinct(c, u, seen.persons, seen.missingSince);
    forall id | id in w.missingSince ensures Find(w.persons, id).Some? {
      VisitAllReflects(c, u, seen.persons, seen.missingSince, id);
    }
  }

  // ---- clearing a camera ----

  lemma {:induction false} ElsewhereFind(ps: seq<Person>, cameraId: string, id: string)
    requires DistinctIds(ps)
    ensures var p := Find(ps, id);
      Find(Elsewhere(ps, cameraId), id) == if p.Some? && p.value.cameraId == cameraId then None else p
  {
    if ps != [] {
      var front, p := ps[..|ps| - 1], ps[|ps| - 1];
      assert ps == front + [p];
      ElsewhereFind(front, cameraId, id);
      FindAppend(front, p, id);
      FindAppend(Elsewhere(front, cameraId), p, id);
      NotInFront(ps);
    }
  }

  lemma {:induction false} ElsewhereDistinct(ps: seq<Person>, cameraId: string)
    requires DistinctIds(ps)
    ensures DistinctIds(Elsewhere(ps, cameraId))
  {
    if ps != [] {
      var front, p := ps[..|ps| - 1], ps[|ps| - 1];
      ElsewhereDistinct(front, cameraId);
      ElsewhereFind(front, cameraId, p.id);
      NotInFront(ps);
    }
  }

  function ClearLife(cameraId: string, life: Option<Life>): Option<Life> {
    if life.Some? && life.value.person.cameraId == cameraId then None else life
  }

  lemma ClearIsPointwise(d: Detector, cameraId: string, id: string)
    requires Sound(d)
    ensures Sound(ClearCamera(d, cameraId))
    ensures LifeOf(ClearCamera(d, cameraId), id) == ClearLife(cameraId, LifeOf(d, id))
  {
    var d' := ClearCamera(d, cameraId);
    ElsewhereDistinct(d.persons, cameraId);
    forall x
      ensures Find(d'.persons, x) == if x in GoneIds(d, cameraId) then None else Find(d.persons, x)
    {
      ElsewhereFind(d.persons, cameraId, x);
      GoneIffThere(d, cameraId, x);
    }
    GoneIffThere(d, cameraId, id);
  }

  lemma GoneIffThere(d: Detector, cameraId: string, id: string)
    requires Sound(d)
    ensures id in GoneIds(d, cameraId) <==> Find(d.persons, id).Some? && Find(d.persons, id).value.cameraId == cameraId
  {
    if id in GoneIds(d, cameraId) {
      var i :| 0 <= i < |d.persons| && d.persons[i].cameraId == cameraId && d.persons[i].id == id;
      IndexUnique(d.persons, i);
    }
  }

  // ---- candidates ----

  lemma FindMember(ps: seq<Person>, p: Person)
    requires DistinctIds(ps) && p in ps
    ensures Find(ps, p.id) == Some(p)
  {
    var i :| 0 <= i < |ps| && ps[i] == p;
    IndexUnique(ps, i);
  }

  lemma CheckedIsCheck(c: Settings, u: Input, life: Life)
    requires IsAbsent(u, life.person) && u.frame.Some? && Absent(c, u, life.person, life.missing).checked
    ensures BoxOf(u.tracks, life.person.id).None? && Checks(c, u, life.person.id, Some(life))
  {
    AbsentMeansUnseen(u, life.person);
  }

  /** Every candidate a frame emits belongs to a person whose zones are checked in
      that frame, and is one of that person's findings. */
  lemma CandidatesComeFromChecks(c: Settings, d: Detector, u: Input, k: nat)
    requires Sound(d) && DistinctKeys(u.tracks) && k < |Output(c, d, u)|
    ensures var cand := Output(c, d, u)[k];
      && Checks(c, u, cand.departedPersonId, LifeOf(d, cand.departedPersonId))
      && cand in CandidatesOf(u, LifeOf(d, cand.departedPersonId).value.person)
  {
    var seen := PresentAll(c, d, u, u.tracks);
    PresentAllPointwise(c, d, u, u.tracks, "");
    var p := CandidateSource(c, u, seen.persons, seen.missingSince, Output(c, d, u)[k]);
    FindMember(seen.persons, p);
    CheckedIsCheck(c, u, Life(p, Lookup(seen.missingSince, p.id)));
    PresentAllPointwise(c, d, u, u.tracks, p.id);
  }

  lemma {:induction false} CandidateSource(c: Settings, u: Input, ps: seq<Person>, missingSince: map<string, real>,
                                           cand: Candidate)
    returns (p: Person)
    requires DistinctIds(ps) && cand in VisitAll(c, u, ps, missingSince).candidates
    ensures p in ps && IsAbsent(u, p) && u.frame.Some?
    ensures Absent(c, u, p, Lookup(missingSince, p.id)).checked
    ensures cand in CandidatesOf(u, p) && cand.departedPersonId == p.id
  {
    var n := |ps| - 1;
    var w := VisitAll(c, u, ps[..n], missingSince);
    if cand in w.candidates {
      p := CandidateSource(c, u, ps[..n], missingSince, cand);
    } else {
      p := ps[n];
      VisitAllReflects(c, u, ps[..n], missingSince, p.id);
      NotInFront(ps);
    }
  }

  lemma {:induction false} VisitAllEmits(c: Settings, u: Input, ps: seq<Person>, missingSince: map<string, real>,
                                         p: Person, cand: Candidate)
    requires DistinctIds(ps) && p in ps && IsAbsent(u, p) && u.frame.Some?
    requires Absent(c, u, p, Lookup(missingSince, p.id)).checked && cand in CandidatesOf(u, p)
    ensures cand in VisitAll(c, u, ps, missingSince).candidates
  {
    var n := |ps| - 1;
    if p == ps[n] {
      VisitAllReflects(c, u, ps[..n], missingSince, p.id);
      NotInFront(ps);
    } else {
      assert ps == ps[..n] + [ps[n]];
      VisitAllEmits(c, u, ps[..n], missingSince, p, cand);
    }
  }

  lemma CheckMeansChecked(c: Settings, u: Input, life: Life)
    requires Checks(c, u, life.person.id, Some(life))
    ensures IsAbsent(u, life.person) && Absent(c, u, life.person, life.missing).checked
  {
    AbsentMeansUnseen(u, life.person);
  }

  lemma ChecksEmit(c: Settings, d: Detector, u: Input, cand: Candidate)
    requires Sound(d) && DistinctKeys(u.tracks)
    requires Checks(c, u, cand.departedPersonId, LifeOf(d, cand.departedPersonId))
    requires cand in CandidatesOf(u, LifeOf(d, cand.departedPersonId).value.person)
    ensures cand in Output(c, d, u)
  {
    var seen, life := PresentAll(c, d, u, u.tracks), LifeOf(d, cand.departedPersonId).value;
    PresentAllPointwise(c, d, u, u.tracks, cand.departedPersonId);
    CheckMeansChecked(c, u, life);
    VisitAllEmits(c, u, seen.persons, seen.missingSince, life.person, cand);
  }

  /** A frame emits exactly the findings of the persons whose zones it checks. */
  lemma CandidatesAreTheFindings(c: Settings, d: Detector, u: Input, cand: Candidate)
    requires Sound(d) && DistinctKeys(u.tracks)
    ensures var life := LifeOf(d, cand.departedPersonId);
      cand in Output(c, d, u) <==>
        Checks(c, u, cand.departedPersonId, life) && cand in CandidatesOf(u, life.value.person)
  {
    if cand in Output(c, d, u) {
      var k :| 0 <= k < |Output(c, d, u)| && Output(c, d, u)[k] == cand;
      CandidatesComeFromChecks(c, d, u, k);
    } else if Checks(c, u, cand.departedPersonId, LifeOf(d, cand.departedPersonId))
              && cand in CandidatesOf(u, LifeOf(d, cand.departedPersonId).value.person) {
      ChecksEmit(c, d, u, cand);
    }
  }

  // ---- the order of candidates ----

  /** The candidates of one person of the state before the frame. */
  function EmittedBy(c: Settings, u: Input, d: Detector, p: Person): seq<Candidate> {
    if Checks(c, u, p.id, LifeOf(d, p.id)) then CandidatesOf(u, p) else []
  }

  /** Those of several persons. */
  function EmittedByEach(c: Settings, u: Input, d: Detector, ps: seq<Person>): (r: seq<seq<Candidate>>)
    ensures |r| == |ps|
  {
    seq(|ps|, i requires 0 <= i < |ps| => EmittedBy(c, u, d, ps[i]))
  }

  function FoundIfAbsent(c: Settings, u: Input, p: Person, missing: Option<real>): seq<Candidate> {
    if IsAbsent(u, p) then FoundNow(c, u, p, missing) else []
  }

  function FoundInEach(c: Settings, u: Input, ps: seq<Person>,
                       missingSince: map<string, real>): (r: seq<seq<Candidate>>)
    ensures |r| == |ps|
  {
    seq(|ps|, i requires 0 <= i < |ps| => FoundIfAbsent(c, u, ps[i], Lookup(missingSince, ps[i].id)))
  }

  lemma VisitCandidates(c: Settings, u: Input, w: Sweep, p: Person)
    ensures Visit(c, u, w, p).candidates == w.candidates + FoundIfAbsent(c, u, p, Lookup(w.missingSince, p.id))
  {
  }

  lemma UnlistedStaysMissing(c: Settings, u: Input, ps: seq<Person>, missingSince: map<string, real>, id: string)
    requires DistinctIds(ps) && Find(ps, id).None?
    ensures Lookup(VisitAll(c, u, ps, missingSince).missingSince, id) == Lookup(missingSince, id)
  {
    VisitAllReflects(c, u, ps, missingSince, id);
  }

  /** The second loop emits what it finds with each person, in order. */
  ghost predicate FindsInOrder(c: Settings, u: Input, ps: seq<Person>, missingSince: map<string, real>) {
    VisitAll(c, u, ps, missingSince).candidates == Flatten(FoundInEach(c, u, ps, missingSince))
  }

  lemma FoundInEachStep(c: Settings, u: Input, front: seq<Person>, p: Person, missingSince: map<string, real>)
    ensures Flatten(FoundInEach(c, u, front + [p], missingSince))
         == Flatten(FoundInEach(c, u, front, missingSince)) + FoundIfAbsent(c, u, p, Lookup(missingSince, p.id))
  {
    var lists := FoundInEach(c, u, front + [p], missingSince);
    assert lists[..|front|] == FoundInEach(c, u, front, missingSince);
  }

  lemma FindsOneMore(c: Settings, u: Input, ps: seq<Person>, missingSince: map<string, real>)
    requires ps != [] && DistinctIds(ps) && FindsInOrder(c, u, ps[..|ps| - 1], missingSince)
    ensures FindsInOrder(c, u, ps, missingSince)
  {
    var front, p := ps[..|ps| - 1], ps[|ps| - 1];
    assert ps == front + [p];
    NotInFront(ps);
    UnlistedStaysMissing(c, u, front, missingSince, p.id);
    VisitCandidates(c, u, VisitAll(c, u, front, missingSince), p);
    FoundInEachStep(c, u, front, p, missingSince);
  }

  lemma {:induction false} SweepFindsInOrder(c: Settings, u: Input, ps: seq<Person>, missingSince: map<string, real>)
    requires DistinctIds(ps)
    ensures FindsInOrder(c, u, ps, missingSince)
  {
    if ps != [] {
      SweepFindsInOrder(c, u, ps[..|ps| - 1], missingSince);
      FindsOneMore(c, u, ps, missingSince);
    }
  }

  /** The persons after some sightings: the old ones in their places, untouched unless
      sighted, then the newly sighted ones. */
  ghost predicate SightedIn(old_: seq<Person>, ps: seq<Person>, tracks: seq<(string, Box)>) {
    && |old_| <= |ps|
    && (forall i :: 0 <= i < |old_| ==> ps[i].id == old_[i].id && (ps[i] == old_[i] || BoxOf(tracks, ps[i].id).Some?))
    && (forall i :: |old_| <= i < |ps| ==> BoxOf(tracks, ps[i].id).Some?)
  }

  lemma SightedGrows(old_: seq<Person>, ps: seq<Person>, tracks: seq<(string, Box)>, p: Person)
    requires tracks != [] && SightedIn(old_, ps, tracks[..|tracks| - 1]) && p.id == tracks[|tracks| - 1].0
    ensures SightedIn(old_, Upsert(ps, p), tracks)
  {
    var ps' := Upsert(ps, p);
    forall i | 0 <= i < |ps'|
      ensures if i < |old_| then ps'[i].id == old_[i].id && (ps'[i] == old_[i] || BoxOf(tracks, ps'[i].id).Some?)
              else BoxOf(tracks, ps'[i].id).Some?
    {
      if i < |ps| && ps'[i] == ps[i] && ps[i].id != p.id {
        assert BoxOf(tracks, ps[i].id) == BoxOf(tracks[..|tracks| - 1], ps[i].id);
      }
    }
  }

  lemma {:induction false} PresentAllSights(c: Settings, d: Detector, u: Input, tracks: seq<(string, Box)>)
    ensures SightedIn(d.persons, PresentAll(c, d, u, tracks).persons, tracks)
  {
    if tracks != [] {
      var n := |tracks| - 1;
      var before := PresentAll(c, d, u, tracks[..n]);
      var known := Find(before.persons, tracks[n].0);
      PresentAllSights(c, d, u, tracks[..n]);
      SeenKeepsId(c, u, tracks[n].0, known, tracks[n].1);
      SightedGrows(d.persons, before.persons, tracks, Seen(c, u, tracks[n].0, known, tracks[n].1));
    }
  }

  /** A person of the old state emits the same before and after the first loop. */
  lemma SameEmission(c: Settings, d: Detector, u: Input, p: Person, q: Person, missing: Option<real>)
    requires LifeOf(d, p.id).Some? && LifeOf(d, p.id).value.person == p && q.id == p.id
    requires BoxOf(u.tracks, p.id).None? ==> q == p && missing == LifeOf(d, p.id).value.missing
    ensures FoundIfAbsent(c, u, q, missing) == EmittedBy(c, u, d, p)
  {
    AbsentMeansUnseen(u, q);
  }

  lemma PersonEmission(c: Settings, d: Detector, u: Input, i: nat)
    requires Sound(d) && DistinctKeys(u.tracks) && i < |d.persons|
    ensures var seen := PresentAll(c, d, u, u.tracks);
      && |d.persons| <= |seen.persons|
      && FoundIfAbsent(c, u, seen.persons[i], Lookup(seen.missingSince, seen.persons[i].id))
        == EmittedBy(c, u, d, d.persons[i])
  {
    var seen, p := PresentAll(c, d, u, u.tracks), d.persons[i];
    PresentAllSights(c, d, u, u.tracks);
    PresentAllPointwise(c, d, u, u.tracks, p.id);
    IndexUnique(d.persons, i);
    IndexUnique(seen.persons, i);
    SameEmission(c, d, u, p, seen.persons[i], Lookup(seen.missingSince, p.id));
  }

  lemma NewcomerEmitsNothing(c: Settings, u: Input, p: Person, missing: Option<real>)
    requires BoxOf(u.tracks, p.id).Some?
    ensures FoundIfAbsent(c, u, p, missing) == []
  {
    AbsentMeansUnseen(u, p);
  }

  /** Position by position the first list finds what the second emits, and nothing
      beyond. */
  lemma SightedFindings(c: Settings, d: Detector, u: Input)
    requires Sound(d) && DistinctKeys(u.tracks)
    ensures var seen := PresentAll(c, d, u, u.tracks);
      var found := FoundInEach(c, u, seen.persons, seen.missingSince);
      && |d.persons| <= |found| && found[..|d.persons|] == EmittedByEach(c, u, d, d.persons)
      && forall i :: |d.persons| <= i < |found| ==> found[i] == []
  {
    var seen := PresentAll(c, d, u, u.tracks);
    PresentAllSights(c, d, u, u.tracks);
    forall i | 0 <= i < |d.persons|
      ensures FoundIfAbsent(c, u, seen.persons[i], Lookup(seen.missingSince, seen.persons[i].id))
        == EmittedBy(c, u, d, d.persons[i])
    {
      PersonEmission(c, d, u, i);
    }
    forall i | |d.persons| <= i < |seen.persons|
      ensures FoundIfAbsent(c, u, seen.persons[i], Lookup(seen.missingSince, seen.persons[i].id)) == []
    {
      NewcomerEmitsNothing(c, u, seen.persons[i], Lookup(seen.missingSince, seen.persons[i].id));
    }
  }

  lemma SweptInOrder(c: Settings, d: Detector, u: Input)
    requires Sound(d) && DistinctKeys(u.tracks)
    ensures var seen := PresentAll(c, d, u, u.tracks);
      Output(c, d, u) == Flatten(FoundInEach(c, u, seen.persons, seen.missingSince))
  {
    var seen := PresentAll(c, d, u, u.tracks);
    PresentAllPointwise(c, d, u, u.tracks, "");
    SweepFindsInOrder(c, u, seen.persons, seen.missingSince);
  }

  /** The candidates are these findings, one by one and in order, under this person's id. */
  ghost predicate TaggedWith(cs: seq<Candidate>, fs: seq<Finding>, id: string) {
    |cs| == |fs| && forall k :: 0 <= k < |fs| ==> cs[k].finding == fs[k] && cs[k].departedPersonId == id
  }

  /** What one person adds to the output of a frame. */
  ghost predicate AddsFindings(c: Settings, d: Detector, u: Input, p: Person, cs: seq<Candidate>) {
    if Checks(c, u, p.id, LifeOf(d, p.id)) then
      TaggedWith(cs, CheckZones(p.zones, p.lastSeenAt, u.frame.value, u.frameW, u.frameH, u.compare), p.id)
    else cs == []
  }

  lemma EmittedAdds(c: Settings, d: Detector, u: Input, p: Person)
    ensures AddsFindings(c, d, u, p, EmittedBy(c, u, d, p))
  {
  }

  /** A frame emits, person by person in dictionary order, all findings of the persons
      it checks, each once and in the order of their zones. */
  lemma CandidatesInOrder(c: Settings, d: Detector, u: Input) returns (byPerson: seq<seq<Candidate>>)
    requires Sound(d) && DistinctKeys(u.tracks)
    ensures Output(c, d, u) == Flatten(byPerson) && |byPerson| == |d.persons|
    ensures forall i :: 0 <= i < |d.persons| ==> AddsFindings(c, d, u, d.persons[i], byPerson[i])
  {
    var seen := PresentAll(c, d, u, u.tracks);
    byPerson := EmittedByEach(c, u, d, d.persons);
    forall i | 0 <= i < |d.persons| ensures AddsFindings(c, d, u, d.persons[i], byPerson[i]) {
      EmittedAdds(c, d, u, d.persons[i]);
    }
    SweptInOrder(c, d, u);
    SightedFindings(c, d, u);
    FlattenPadded(FoundInEach(c, u, seen.persons, seen.missingSince), |d.persons|);
  }
}
