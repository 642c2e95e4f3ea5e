/** What holds of the persons and candidates of every run of the departure
    detector: zones go back to real dwells, candidates come at the right time and
    lie in the right place. */
module DepartureFacts {
  import opened Prelude
  import opened Geometry
  import opened DwellZones
  import opened DwellSoundness
  import opened GroundRegions
  import opened Departures
  import opened DepartureRuns

  function SightingAt(es: seq<Event>, k: nat, id: string): Sighting
    requires k < |es| && SeenAt(es, k, id)
  {
    SightingOf(es[k].u, BoxOf(es[k].u.tracks, id).value)
  }

  /** The sightings since the person last became known. */
  function History(c: Settings, es: seq<Event>, n: nat, id: string): seq<Sighting>
    requires n <= |es|
  {
    if n == 0 then []
    else
      var before := History(c, es, n - 1, id);
      if !SeenAt(es, n - 1, id) then before
      else if LifeAfter(c, es, n - 1, id).None? then [SightingAt(es, n - 1, id)]
      else before + [SightingAt(es, n - 1, id)]
  }

  // ---- a life is the replay of its sightings ----

  /** Up to the processed flag, the life is what the sightings alone make of a
      newborn person. */
  ghost predicate IsReplay(c: Settings, id: string, life: Life, ss: seq<Sighting>) {
    && ss != []
    && life.person.(processed := false) == Replay(c, Newborn(id, life.person.cameraId, ss[0].box, ss[0].now), ss)
  }

  lemma ReplayBegins(c: Settings, u: Input, id: string, box: Box)
    ensures IsReplay(c, id, StepSeen(c, u, id, None, box), [SightingOf(u, box)])
  {
    var s, p := SightingOf(u, box), Newborn(id, u.cameraId, box, u.now);
    SightKeepsIdentity(c, p, s);
    assert [s][..0] == [] && Replay(c, p, []) == p;
    assert Replay(c, p, [s]) == Sight(c, p, s);
  }

  lemma ReplayGoesOn(c: Settings, u: Input, id: string, box: Box, life: Life, ss: seq<Sighting>)
    requires IsReplay(c, id, life, ss)
    ensures IsReplay(c, id, StepSeen(c, u, id, Some(life), box), ss + [SightingOf(u, box)])
  {
    var s := SightingOf(u, box);
    SightKeepsIdentity(c, life.person, s);
    assert (ss + [s])[..|ss|] == ss;
    assert Sight(c, life.person, s) == Sight(c, life.person.(processed := false), s);
  }

  lemma {:induction false} LifeIsReplay(c: Settings, es: seq<Event>, n: nat, id: string)
    requires n <= |es|
    ensures var life := LifeAfter(c, es, n, id);
      life.Some? ==> IsReplay(c, id, life.value, History(c, es, n, id))
  {
    if n > 0 {
      var life, e := LifeAfter(c, es, n - 1, id), es[n - 1];
      LifeIsReplay(c, es, n - 1, id);
      if !SeenAt(es, n - 1, id) {
        UnseenStep(c, e, id, life);
      } else if life.None? {
        ReplayBegins(c, e.u, id, BoxOf(e.u.tracks, id).value);
      } else {
        ReplayGoesOn(c, e.u, id, BoxOf(e.u.tracks, id).value, life.value, History(c, es, n - 1, id));
      }
    }
  }

  /** The person as first known. */
  function Origin(c: Settings, es: seq<Event>, n: nat, id: string): Person
    requires n <= |es| && LifeAfter(c, es, n, id).Some? && History(c, es, n, id) != []
  {
    var first := History(c, es, n, id)[0];
    Newborn(id, LifeAfter(c, es, n, id).value.person.cameraId, first.box, first.now)
  }

  /** Dwell-zone soundness of whole runs: every zone held in a reachable state goes
      back to the sighting of that person that made it, at the end of a run of sightings
      all near one place for the full dwell time, and its reference is the earliest crop
      of the zone box among them. */
  lemma RunZonesAreBacked(c: Settings, es: seq<Event>, n: nat, id: string, z: Zone) returns (k: nat)
    requires MatchCoversAnchor(c) && n <= |es|
    requires LifeAfter(c, es, n, id).Some? && z in LifeAfter(c, es, n, id).value.person.zones
    ensures History(c, es, n, id) != []
    ensures GoesBackTo(c, Origin(c, es, n, id), History(c, es, n, id), k, z)
  {
    LifeIsReplay(c, es, n, id);
    k := HeldZonesAreBacked(c, Origin(c, es, n, id), History(c, es, n, id), z);
  }

  /** The run in which a camera sees one person and nobody else. */
  function Watch(ss: seq<Sighting>, id: string, cameraId: string): (es: seq<Event>)
    ensures |es| == |ss|
  {
    seq(|ss|, k requires 0 <= k < |ss| =>
      Observe(Input(cameraId, [(id, ss[k].box)], ss[k].frame, ss[k].frameW, ss[k].frameH, ss[k].now,
                    (before, after) => [])))
  }

  lemma WatchedSight(c: Settings, s: Sighting, u: Input, id: string, life: Option<Life>)
    requires u.tracks == [(id, s.box)] && SightingOf(u, s.box) == s
    ensures StepLife(c, u, id, life) == Some(StepSeen(c, u, id, life, s.box))
  {
  }

  /** Every list of sightings really happens to a person in some run. */
  lemma {:induction false} ReplayIsReachable(c: Settings, ss: seq<Sighting>, n: nat, id: string, cameraId: string)
    requires 0 < n <= |ss|
    ensures var life := LifeAfter(c, Watch(ss, id, cameraId), n, id);
      life == Some(Life(Replay(c, Newborn(id, cameraId, ss[0].box, ss[0].now), ss[..n]), None))
  {
    var es, s := Watch(ss, id, cameraId), ss[n - 1];
    var newborn := Newborn(id, cameraId, ss[0].box, ss[0].now);
    WatchedSight(c, s, es[n - 1].u, id, LifeAfter(c, es, n - 1, id));
    assert ss[..n][..n - 1] == ss[..n - 1];
    if n == 1 {
      assert Replay(c, newborn, ss[..n - 1]) == newborn;
    } else {
      ReplayIsReachable(c, ss, n - 1, id, cameraId);
    }
  }

  /** A sighting after `n` events makes a zone that no run of the person's sightings
      backs. */
  ghost predicate MakesUnbacked(c: Settings, es: seq<Event>, n: nat, id: string, s: Sighting)
    requires n <= |es|
  {
    && LifeAfter(c, es, n, id).Some?
    && var p := LifeAfter(c, es, n, id).value.person;
    Creates(c, p, s) && !IsBacked(c, History(c, es, n, id) + [s], NewZone(p, s))
  }

  ghost predicate RunsBackZones(c: Settings) {
    forall es: seq<Event>, n: nat, id: string, s: Sighting :: n <= |es| ==> !MakesUnbacked(c, es, n, id, s)
  }

  lemma CoveredRunBacks(c: Settings, es: seq<Event>, n: nat, id: string, s: Sighting)
    requires MatchCoversAnchor(c) && n <= |es|
    ensures !MakesUnbacked(c, es, n, id, s)
  {
    if LifeAfter(c, es, n, id).Some? {
      LifeIsReplay(c, es, n, id);
      ReplayBacks(c, LifeAfter(c, es, n, id).value.person, Origin(c, es, n, id), History(c, es, n, id), s);
    }
  }

  /** The processed flag plays no part in making zones. */
  lemma ReplayBacks(c: Settings, p: Person, origin: Person, ss: seq<Sighting>, s: Sighting)
    requires MatchCoversAnchor(c) && Blank(origin) && p.(processed := false) == Replay(c, origin, ss)
    ensures Creates(c, p, s) ==> IsBacked(c, ss + [s], NewZone(p, s))
  {
    var q := Replay(c, origin, ss);
    assert q.zones == p.zones && q.anchor == p.anchor && q.since == p.since;
    if Creates(c, p, s) {
      var a := CreatedZoneIsBacked(c, origin, ss, s);
      assert NewZone(q, s) == NewZone(p, s);
    }
  }

  lemma WatchedSeen(ss: seq<Sighting>, k: nat, id: string, cameraId: string)
    requires k < |ss|
    ensures SeenAt(Watch(ss, id, cameraId), k, id) && SightingAt(Watch(ss, id, cameraId), k, id) == ss[k]
  {
  }

  /** Every event shows the person, as the sightings say. */
  ghost predicate Shows(es: seq<Event>, ss: seq<Sighting>, id: string) {
    |es| == |ss| && forall k :: 0 <= k < |es| ==> SeenAt(es, k, id) && SightingAt(es, k, id) == ss[k]
  }

  lemma KnownOnceSeen(c: Settings, es: seq<Event>, ss: seq<Sighting>, n: nat, id: string)
    requires Shows(es, ss, id) && n <= |es|
    ensures LifeAfter(c, es, n, id).None? <==> n == 0
  {
    if n > 0 {
      assert SeenAt(es, n - 1, id);
      SeenIsPending(c, es, n - 1, id);
    }
  }

  ghost predicate Remembers(c: Settings, es: seq<Event>, n: nat, id: string, ss: seq<Sighting>)
    requires n <= |es|
  {
    History(c, es, n, id) == ss
  }

  lemma ShownStep(c: Settings, es: seq<Event>, ss: seq<Sighting>, n: nat, id: string, before: seq<Sighting>)
    requires Shows(es, ss, id) && 0 < n <= |es| && Remembers(c, es, n - 1, id, before) && |before| == n - 1
    ensures Remembers(c, es, n, id, before + [ss[n - 1]])
  {
    assert SeenAt(es, n - 1, id) && SightingAt(es, n - 1, id) == ss[n - 1];
    KnownOnceSeen(c, es, ss, n - 1, id);
  }

  lemma {:induction false} ShownHistory(c: Settings, es: seq<Event>, ss: seq<Sighting>, n: nat, id: string)
    requires Shows(es, ss, id) && n <= |es|
    ensures Remembers(c, es, n, id, ss[..n])
  {
    if n > 0 {
      ShownHistory(c, es, ss, n - 1, id);
      ShownStep(c, es, ss, n, id, ss[..n - 1]);
      assert ss[..n] == ss[..n - 1] + [ss[n - 1]];
    }
  }

  lemma WatchedHistory(c: Settings, ss: seq<Sighting>, id: string, cameraId: string)
    ensures History(c, Watch(ss, id, cameraId), |ss|, id) == ss
  {
    var es := Watch(ss, id, cameraId);
    forall k | 0 <= k < |ss| ensures SeenAt(es, k, id) && SightingAt(es, k, id) == ss[k] {
      WatchedSeen(ss, k, id, cameraId);
    }
    ShownHistory(c, es, ss, |ss|, id);
    assert ss[..|ss|] == ss;
  }

  lemma EscapableRun(c: Settings, ss: seq<Sighting>, id: string, cameraId: string)
    requires Escapable(c) && ss == Detour(c)
    ensures MakesUnbacked(c, Watch(ss, id, cameraId), |ss|, id, LeavingStep(c))
  {
    var p := Newborn(id, cameraId, ss[0].box, ss[0].now);
    assert ss[..|ss|] == ss;
    ReplayIsReachable(c, ss, |ss|, id, cameraId);
    WatchedHistory(c, ss, id, cameraId);
    DetourCreates(c, p);
    DetourWanders(c, NewZone(Replay(c, p, ss), LeavingStep(c)));
  }

  /** In every run every zone is backed when it is made, if and only if a matched zone
      cannot be left without leaving the anchor, or no zone is ever matched. */
  lemma RunsBackZonesIff(c: Settings)
    ensures RunsBackZones(c) <==> MatchCoversAnchor(c)
  {
    if MatchCoversAnchor(c) {
      forall es: seq<Event>, n: nat, id: string, s: Sighting | n <= |es| ensures !MakesUnbacked(c, es, n, id, s) {
        CoveredRunBacks(c, es, n, id, s);
      }
    } else {
      EscapableRun(c, Detour(c), "p", "cam");
    }
  }

  // ---- timing ----

  ghost predicate MonotoneClock(es: seq<Event>) {
    forall i, j :: 0 <= i <= j < |es| && es[i].Observe? && es[j].Observe? ==> es[i].u.now <= es[j].u.now
  }

  /** Event `k` is the last sighting before event `n`. */
  ghost predicate LastSighting(es: seq<Event>, k: nat, n: nat, id: string)
    requires n <= |es|
  {
    k < n && SeenAt(es, k, id) && Unseen(es, k + 1, n, id)
  }

  lemma {:induction false} LastSeenIsLastSighting(c: Settings, es: seq<Event>, n: nat, id: string) returns (k: nat)
    requires n <= |es| && LifeAfter(c, es, n, id).Some?
    ensures LastSighting(es, k, n, id) && LifeAfter(c, es, n, id).value.person.lastSeenAt == es[k].u.now
  {
    if SeenAt(es, n - 1, id) {
      k := n - 1;
      SeenIsPending(c, es, n - 1, id);
      LastSeenStep(c, es, n - 1, id);
    } else {
      UnseenStep(c, es[n - 1], id, LifeAfter(c, es, n - 1, id));
      k := LastSeenIsLastSighting(c, es, n - 1, id);
    }
  }

  lemma LastSeenStep(c: Settings, es: seq<Event>, n: nat, id: string)
    requires n < |es| && SeenAt(es, n, id)
    ensures LifeAfter(c, es, n + 1, id).Some? && LifeAfter(c, es, n + 1, id).value.person.lastSeenAt == es[n].u.now
  {
    var life, u := LifeAfter(c, es, n, id), es[n].u;
    var box := BoxOf(u.tracks, id).value;
    var known := if life.Some? then life.value.person else Newborn(id, u.cameraId, box, u.now);
    SightKeepsIdentity(c, known, SightingOf(u, box));
  }

  /** Missing only after last seen, and every zone stands for a full dwell. */
  ghost predicate Timely(c: Settings, life: Life) {
    && Dwelt(c, life.person)
    && (life.missing.Some? ==> life.missing.value >= life.person.lastSeenAt)
  }

  lemma TimelySeen(c: Settings, u: Input, id: string, life: Option<Life>, box: Box)
    requires life.Some? ==> Timely(c, life.value) && u.now >= life.value.person.lastSeenAt
    ensures Timely(c, StepSeen(c, u, id, life, box))
  {
    var known := if life.Some? then life.value.person else Newborn(id, u.cameraId, box, u.now);
    SightKeepsDwelt(c, known, SightingOf(u, box));
  }

  lemma TimelyUnseen(c: Settings, e: Event, id: string, life: Life)
    requires e.Observe? ==> BoxOf(e.u.tracks, id).None? && e.u.now >= life.person.lastSeenAt
    requires Timely(c, life)
    ensures var after := Evolve(c, e, id, Some(life)); after.Some? ==> Timely(c, after.value)
  {
    UnseenStep(c, e, id, Some(life));
  }

  lemma {:induction false} LifeIsTimely(c: Settings, es: seq<Event>, n: nat, id: string)
    requires MonotoneClock(es) && n <= |es|
    ensures var life := LifeAfter(c, es, n, id); life.Some? ==> Timely(c, life.value)
  {
    if n > 0 {
      var life, e := LifeAfter(c, es, n - 1, id), es[n - 1];
      LifeIsTimely(c, es, n - 1, id);
      if life.Some? {
        var k := LastSeenIsLastSighting(c, es, n - 1, id);
      }
      if SeenAt(es, n - 1, id) {
        TimelySeen(c, e.u, id, life, BoxOf(e.u.tracks, id).value);
      } else if life.Some? {
        TimelyUnseen(c, e, id, life.value);
      }
    }
  }

  // ---- candidates ----

  lemma {:induction false} FindingSource(zones: seq<Zone>, lastSeenAt: real, f: Frame, frameW: int, frameH: int,
                                         compare: (Crop, Crop) -> seq<Diff>, finding: Finding)
    returns (z: Zone, i: nat)
    requires finding in CheckZones(zones, lastSeenAt, f, frameW, frameH, compare)
    ensures z in zones && i < |CheckZone(z, lastSeenAt, f, frameW, frameH, compare)|
    ensures CheckZone(z, lastSeenAt, f, frameW, frameH, compare)[i] == finding
  {
    var n := |zones| - 1;
    if finding in CheckZone(zones[n], lastSeenAt, f, frameW, frameH, compare) {
      z := zones[n];
      i :| 0 <= i < |CheckZone(z, lastSeenAt, f, frameW, frameH, compare)|
           && CheckZone(z, lastSeenAt, f, frameW, frameH, compare)[i] == finding;
    } else {
      z, i := FindingSource(zones[..n], lastSeenAt, f, frameW, frameH, compare, finding);
    }
  }

  /** Candidate `k` of frame `n`. */
  function CandidateAt(c: Settings, es: seq<Event>, n: nat, k: nat): Candidate
    requires n < |es| && es[n].Observe? && k < |Output(c, After(c, es, n), es[n].u)|
  {
    Output(c, After(c, es, n), es[n].u)[k]
  }

  /** A candidate comes from a check of its person in that very frame, and from one
      of the zones the person holds. */
  lemma CandidateOrigin(c: Settings, es: seq<Event>, n: nat, k: nat) returns (z: Zone, i: nat)
    requires WellFormed(es) && n < |es| && es[n].Observe? && k < |Output(c, After(c, es, n), es[n].u)|
    ensures var cand, u := CandidateAt(c, es, n, k), es[n].u;
      && CheckedAt(c, es, n, cand.departedPersonId)
      && var p := LifeAfter(c, es, n, cand.departedPersonId).value.person;
      && z in p.zones
      && i < |CheckZone(z, p.lastSeenAt, u.frame.value, u.frameW, u.frameH, u.compare)|
      && cand.finding == CheckZone(z, p.lastSeenAt, u.frame.value, u.frameW, u.frameH, u.compare)[i]
  {
    var cand, u := CandidateAt(c, es, n, k), es[n].u;
    RunIsPointwise(c, es, n, cand.departedPersonId);
    CandidatesComeFromChecks(c, After(c, es, n), u, k);
    var p := LifeAfter(c, es, n, cand.departedPersonId).value.person;
    z, i := FindingSource(p.zones, p.lastSeenAt, u.frame.value, u.frameW, u.frameH, u.compare, cand.finding);
  }

  /** Under a monotone clock a candidate comes at least the confirmation time after
      the person's last sighting, and reports at least the minimum dwell. */
  lemma CandidateTiming(c: Settings, es: seq<Event>, n: nat, k: nat) returns (last: nat)
    requires WellFormed(es) && MonotoneClock(es)
    requires n < |es| && es[n].Observe? && k < |Output(c, After(c, es, n), es[n].u)|
    ensures var cand := CandidateAt(c, es, n, k);
      && LastSighting(es, last, n, cand.departedPersonId)
      && es[n].u.now - es[last].u.now >= c.confirmSeconds
      && cand.finding.personDwellSeconds >= c.minDwellSeconds
  {
    var id := CandidateAt(c, es, n, k).departedPersonId;
    var z, i := CandidateOrigin(c, es, n, k);
    last := LastSeenIsLastSighting(c, es, n, id);
    LifeIsTimely(c, es, n, id);
    LongAfterSeen(c, es[n].u, id, LifeAfter(c, es, n, id).value);
  }

  lemma LongAfterSeen(c: Settings, u: Input, id: string, life: Life)
    requires Checks(c, u, id, Some(life)) && Timely(c, life) && u.now >= life.person.lastSeenAt
    ensures u.now - life.person.lastSeenAt >= c.confirmSeconds
  {
  }

  // ---- place ----

  /** Whenever the person is seen, the frame has the announced size. */
  ghost predicate SeenInSize(es: seq<Event>, n: nat, id: string, frameW: int, frameH: int)
    requires n <= |es|
  {
    forall k :: 0 <= k < n && SeenAt(es, k, id) ==> SightingFits(SightingAt(es, k, id), frameW, frameH)
  }

  lemma {:induction false} LifeFits(c: Settings, es: seq<Event>, n: nat, id: string, frameW: int, frameH: int)
    requires n <= |es| && SeenInSize(es, n, id, frameW, frameH)
    ensures var life := LifeAfter(c, es, n, id); life.Some? ==> PersonFits(life.value.person, frameW, frameH)
  {
    if n > 0 {
      var life, e := LifeAfter(c, es, n - 1, id), es[n - 1];
      LifeFits(c, es, n - 1, id, frameW, frameH);
      if SeenAt(es, n - 1, id) {
        var box := BoxOf(e.u.tracks, id).value;
        var p := if life.Some? then life.value.person else Newborn(id, e.u.cameraId, box, e.u.now);
        SightKeepsFit(c, p, SightingAt(es, n - 1, id), frameW, frameH);
      } else {
        UnseenStep(c, e, id, life);
      }
    }
  }

  /** If all frames have the announced size, a check compares every zone that has a
      reference, on pixel-aligned crops. */
  lemma RunCropsAligned(c: Settings, es: seq<Event>, n: nat, id: string, z: Zone, f: Frame)
    requires n <= |es| && SeenInSize(es, n, id, f.width, f.height)
    requires LifeAfter(c, es, n, id).Some? && z in LifeAfter(c, es, n, id).value.person.zones && z.reference.Some?
    ensures Prepare(z, f, f.width, f.height).Some?
    ensures Aligned(Prepare(z, f, f.width, f.height).value, z, f, f.width, f.height)
  {
    LifeFits(c, es, n, id, f.width, f.height);
    CropsAligned(z, f, f.width, f.height);
  }

  /** If all frames have the announced size, every candidate's box lies in its
      zone's ground region and in the frame. */
  lemma CandidateInsideFrame(c: Settings, es: seq<Event>, n: nat, k: nat, frameW: int, frameH: int)
    requires WellFormed(es) && n < |es| && es[n].Observe? && k < |Output(c, After(c, es, n), es[n].u)|
    requires es[n].u.frameW == frameW && es[n].u.frameH == frameH && DiffsInside(es[n].u.compare)
    requires es[n].u.frame.Some? ==> Sized(es[n].u.frame.value, frameW, frameH)
    requires SeenInSize(es, n, CandidateAt(c, es, n, k).departedPersonId, frameW, frameH)
    ensures var b, zoneBox := CandidateAt(c, es, n, k).finding.bbox, CandidateAt(c, es, n, k).finding.zoneBox;
      && BoxInside(b, GroundRegion(zoneBox, frameW, frameH))
      && BoxInside(b, zoneBox) && BoxInside(b, Area(0, 0, frameW, frameH))
  {
    var id := CandidateAt(c, es, n, k).departedPersonId;
    var z, i := CandidateOrigin(c, es, n, k);
    LifeFits(c, es, n, id, frameW, frameH);
    var p, u := LifeAfter(c, es, n, id).value.person, es[n].u;
    FindingsInsideGround(z, p.lastSeenAt, u.frame.value, frameW, frameH, u.compare, i);
  }

  /** If all frames have the announced size, every candidate is one difference between the
      reference of a zone its person holds and the current frame, on the ground of that
      zone: it covers exactly the frame pixels of that difference. */
  lemma CandidateMarksDiff(c: Settings, es: seq<Event>, n: nat, k: nat, frameW: int, frameH: int)
    returns (z: Zone, before: Crop, after: Crop, i: nat)
    requires WellFormed(es) && n < |es| && es[n].Observe? && k < |Output(c, After(c, es, n), es[n].u)|
    requires es[n].u.frameW == frameW && es[n].u.frameH == frameH
    requires es[n].u.frame.Some? ==> Sized(es[n].u.frame.value, frameW, frameH)
    requires SeenInSize(es, n, CandidateAt(c, es, n, k).departedPersonId, frameW, frameH)
    ensures es[n].u.frame.Some? && LifeAfter(c, es, n, CandidateAt(c, es, n, k).departedPersonId).Some?
    ensures var cand := CandidateAt(c, es, n, k);
      var p := LifeAfter(c, es, n, cand.departedPersonId).value.person;
      && z in p.zones && z.reference.Some?
      && ShowsGround(before, z.bbox, z.reference.value.frame) && ShowsGround(after, z.bbox, es[n].u.frame.value)
      && i < |es[n].u.compare(before, after)|
      && Marks(cand.finding, es[n].u.compare(before, after)[i], after) && DwellOf(cand.finding, z, p.lastSeenAt)
  {
    var id := CandidateAt(c, es, n, k).departedPersonId;
    z, i := CandidateOrigin(c, es, n, k);
    LifeFits(c, es, n, id, frameW, frameH);
    var p, u := LifeAfter(c, es, n, id).value.person, es[n].u;
    before, after := FindingsMarkDiffs(z, p.lastSeenAt, u.frame.value, frameW, frameH, u.compare);
  }
}
