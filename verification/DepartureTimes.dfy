/** When a person counts as missing, is checked and is forgotten, over whole runs and in
    terms of the events alone: its sightings, the frames of its camera, their times. */
module DepartureTimes {
  import opened Prelude
  import opened Geometry
  import opened DwellZones
  import opened DwellSteps
  import opened Departures
  import opened DepartureRuns
  import opened DepartureFacts

  /** No frame of the camera strictly between `k` and `n`. */
  ghost predicate NoFrames(es: seq<Event>, k: nat, n: nat, cameraId: string)
    requires n <= |es|
  {
    forall i :: k < i < n ==> !FrameOf(es, i, cameraId)
  }

  /** Event `j` is the first frame of the camera after `k`. */
  ghost predicate FirstFrame(es: seq<Event>, j: nat, k: nat, n: nat, cameraId: string)
    requires n <= |es|
  {
    k < j < n && FrameOf(es, j, cameraId) && NoFrames(es, k, j, cameraId)
  }

  /** Missing since the first frame of the camera after event `k`, if there was one. */
  ghost predicate MissingSince(es: seq<Event>, k: nat, n: nat, cameraId: string, missing: Option<real>)
    requires n <= |es|
  {
    match missing
    case None => NoFrames(es, k, n, cameraId)
    case Some(since) => exists j: nat :: FirstFrame(es, j, k, n, cameraId) && since == es[j].u.now
  }

  /** One more event that does not show the person. */
  lemma MissingLonger(es: seq<Event>, k: nat, n: nat, cameraId: string, missing: Option<real>)
    requires k < n < |es| && MissingSince(es, k, n, cameraId, missing)
    ensures MissingSince(es, k, n + 1, cameraId,
              if FrameOf(es, n, cameraId) then Some(missing.GetOr(es[n].u.now)) else missing)
  {
    match missing
    case None =>
      if FrameOf(es, n, cameraId) {
        assert FirstFrame(es, n, k, n + 1, cameraId);
      }
    case Some(since) =>
      var j: nat :| FirstFrame(es, j, k, n, cameraId) && since == es[j].u.now;
      assert FirstFrame(es, j, k, n + 1, cameraId);
  }

  lemma UnseenMissing(c: Settings, e: Event, id: string, life: Life)
    requires e.Observe? ==> BoxOf(e.u.tracks, id).None?
    ensures var after, cameraId := Evolve(c, e, id, Some(life)), life.person.cameraId;
      after.Some? ==>
        && after.value.person.cameraId == cameraId
        && after.value.missing
          == if e.Observe? && e.u.cameraId == cameraId then Some(life.missing.GetOr(e.u.now)) else life.missing
  {
  }

  /** The life after `n` events, last seen at `k`. */
  ghost predicate Tracked(es: seq<Event>, n: nat, id: string, life: Life, k: nat)
    requires n <= |es|
  {
    LastSighting(es, k, n, id) && MissingSince(es, k, n, life.person.cameraId, life.missing)
  }

  lemma SeenTracked(c: Settings, es: seq<Event>, n: nat, id: string)
    requires n < |es| && SeenAt(es, n, id)
    ensures LifeAfter(c, es, n + 1, id).Some? && Tracked(es, n + 1, id, LifeAfter(c, es, n + 1, id).value, n)
  {
  }

  lemma UnseenTracked(c: Settings, es: seq<Event>, n: nat, id: string, k: nat)
    requires n < |es| && !SeenAt(es, n, id) && LifeAfter(c, es, n, id).Some?
    requires Tracked(es, n, id, LifeAfter(c, es, n, id).value, k) && LifeAfter(c, es, n + 1, id).Some?
    ensures Tracked(es, n + 1, id, LifeAfter(c, es, n + 1, id).value, k)
  {
    var life := LifeAfter(c, es, n, id).value;
    UnseenMissing(c, es[n], id, life);
    MissingLonger(es, k, n, life.person.cameraId, life.missing);
  }

  /** A known person is missing since the first frame of its camera after its last
      sighting. */
  lemma {:induction false} MissingSinceFirstFrame(c: Settings, es: seq<Event>, n: nat, id: string) returns (k: nat)
    requires n <= |es| && LifeAfter(c, es, n, id).Some?
    ensures Tracked(es, n, id, LifeAfter(c, es, n, id).value, k)
  {
    if SeenAt(es, n - 1, id) {
      k := n - 1;
      SeenTracked(c, es, n - 1, id);
    } else {
      UnseenStep(c, es[n - 1], id, LifeAfter(c, es, n - 1, id));
      k := MissingSinceFirstFrame(c, es, n - 1, id);
      UnseenTracked(c, es, n - 1, id, k);
    }
  }

  /** At event `n` the person, last seen at `k`, has been missing for at least this long;
      the first frame without it counts as 0. */
  ghost predicate AwayFor(es: seq<Event>, k: nat, n: nat, cameraId: string, seconds: real)
    requires n < |es| && es[n].Observe?
  {
    || (NoFrames(es, k, n, cameraId) && seconds <= 0.0)
    || exists j: nat :: FirstFrame(es, j, k, n, cameraId) && es[n].u.now - es[j].u.now >= seconds
  }

  ghost predicate AwayLonger(es: seq<Event>, k: nat, n: nat, cameraId: string, seconds: real)
    requires n < |es| && es[n].Observe?
  {
    exists j: nat :: FirstFrame(es, j, k, n, cameraId) && es[n].u.now - es[j].u.now > seconds
  }

  lemma OneFirstFrame(es: seq<Event>, i: nat, j: nat, k: nat, n: nat, cameraId: string)
    requires n <= |es| && FirstFrame(es, i, k, n, cameraId) && FirstFrame(es, j, k, n, cameraId)
    ensures i == j
  {
  }

  lemma AwayIsMissing(es: seq<Event>, k: nat, n: nat, cameraId: string, missing: Option<real>, seconds: real)
    requires n < |es| && es[n].Observe? && MissingSince(es, k, n, cameraId, missing)
    ensures AwayFor(es, k, n, cameraId, seconds) <==> MissingFor(es[n].u, missing) >= seconds
    ensures seconds >= 0.0 ==> (AwayLonger(es, k, n, cameraId, seconds) <==> MissingFor(es[n].u, missing) > seconds)
  {
    if missing.Some? {
      var j: nat :| FirstFrame(es, j, k, n, cameraId) && missing.value == es[j].u.now;
      forall i: nat | FirstFrame(es, i, k, n, cameraId) ensures i == j {
        OneFirstFrame(es, i, j, k, n, cameraId);
      }
    }
  }

  lemma ProcessedIff(c: Settings, es: seq<Event>, n: nat, id: string)
    requires n <= |es| && LifeAfter(c, es, n, id).Some?
    ensures LifeAfter(c, es, n, id).value.person.processed <==> CheckedSinceSeen(c, es, n, id)
  {
    if LifeAfter(c, es, n, id).value.person.processed {
      ProcessedWasChecked(c, es, n, id);
    } else if CheckedSinceSeen(c, es, n, id) {
      var k: nat :| k < n && CheckedAt(c, es, k, id) && Unseen(es, k + 1, n, id);
      StaysProcessed(c, es, k, n, id);
    }
  }

  /** The check of a known person that no sighting interrupts, told step by step. */
  lemma ChecksMeans(c: Settings, u: Input, id: string, life: Life)
    ensures Checks(c, u, id, Some(life)) <==>
      && BoxOf(u.tracks, id).None? && life.person.cameraId == u.cameraId && u.frame.Some?
      && !life.person.processed && MissingFor(u, life.missing) >= c.confirmSeconds
  {
  }

  /** A known person is checked exactly in the first frame of its camera that has an image,
      does not show the person, and comes at least the confirmation time after the first
      frame without it. */
  lemma CheckedIff(c: Settings, es: seq<Event>, n: nat, id: string) returns (k: nat)
    requires n < |es| && LifeAfter(c, es, n, id).Some?
    ensures LastSighting(es, k, n, id)
    ensures var cameraId := LifeAfter(c, es, n, id).value.person.cameraId;
      CheckedAt(c, es, n, id) <==>
        && FrameOf(es, n, cameraId) && !SeenAt(es, n, id) && es[n].u.frame.Some?
        && !CheckedSinceSeen(c, es, n, id) && AwayFor(es, k, n, cameraId, c.confirmSeconds)
  {
    k := MissingSinceFirstFrame(c, es, n, id);
    var life := LifeAfter(c, es, n, id).value;
    ProcessedIff(c, es, n, id);
    if es[n].Observe? {
      ChecksMeans(c, es[n].u, id, life);
      AwayIsMissing(es, k, n, life.person.cameraId, life.missing, c.confirmSeconds);
    }
  }

  lemma PurgeMeans(c: Settings, u: Input, id: string, life: Life)
    requires BoxOf(u.tracks, id).None?
    ensures StepLife(c, u, id, Some(life)).None? <==>
      && life.person.cameraId == u.cameraId && MissingFor(u, life.missing) > PURGE_SECONDS
      && (life.person.processed || u.frame.Some? || MissingFor(u, life.missing) < c.confirmSeconds)
  {
  }

  /** The person is forgotten: its camera is cleared, or a frame of it comes more than 60
      seconds after the first one without the person; only a check that waits for an image
      keeps the person. */
  ghost predicate Forgotten(c: Settings, es: seq<Event>, n: nat, id: string, k: nat, cameraId: string)
    requires n < |es|
  {
    || es[n] == Clear(cameraId)
    || (&& FrameOf(es, n, cameraId) && AwayLonger(es, k, n, cameraId, 60.0)
        && (CheckedSinceSeen(c, es, n, id) || es[n].u.frame.Some? || !AwayFor(es, k, n, cameraId, c.confirmSeconds)))
  }

  /** A person is known exactly from a sighting on until it is forgotten. */
  lemma KnownIff(c: Settings, es: seq<Event>, n: nat, id: string) returns (k: nat)
    requires n < |es|
    ensures LifeAfter(c, es, n, id).None? ==> (LifeAfter(c, es, n + 1, id).Some? <==> SeenAt(es, n, id))
    ensures LifeAfter(c, es, n, id).Some? ==>
      && LastSighting(es, k, n, id)
      && (LifeAfter(c, es, n + 1, id).Some? <==>
            SeenAt(es, n, id) || !Forgotten(c, es, n, id, k, LifeAfter(c, es, n, id).value.person.cameraId))
  {
    k := 0;
    if LifeAfter(c, es, n, id).Some? {
      k := MissingSinceFirstFrame(c, es, n, id);
      var life := LifeAfter(c, es, n, id).value;
      ProcessedIff(c, es, n, id);
      if es[n].Observe? && !SeenAt(es, n, id) {
        PurgeMeans(c, es[n].u, id, life);
        AwayIsMissing(es, k, n, life.person.cameraId, life.missing, c.confirmSeconds);
        AwayIsMissing(es, k, n, life.person.cameraId, life.missing, 60.0);
      }
    }
  }

  // ---- what a sighting does, in runs ----

  /** A person seen for the first time begins its first run. */
  ghost predicate Arrived(c: Settings, u: Input, id: string, s: Sighting, q: Person) {
    && q.id == id && q.cameraId == u.cameraId && q.firstSeenAt == u.now
    && q.lastSeenAt == u.now && q.lastBox == s.box && !q.processed && q.zones == []
    && q.anchor == Some(Center(s.box)) && q.since == u.now
    && IsPaddedBox(c, s, q.zoneBox) && IsCropOf(q.reference, u.frame, q.zoneBox)
  }

  /** The three outcomes for a person known before. */
  ghost predicate Continued(c: Settings, p: Person, s: Sighting, q: Person) {
    var at := Center(s.box);
    && JustSeen(p, s, q)
    && (forall i: nat :: FirstNear(c, p.zones, at, i) ==> Revisited(p, s, i, q))
    && (NoneNear(c, p.zones, at) ==>
          if AwayFromAnchor(c, p, at) then Settled(c, p, s, q) else Stayed(c, p, s, q))
  }

  /** In every run a sighting makes a new person arrive, and moves a known one. */
  lemma SightingInRun(c: Settings, es: seq<Event>, n: nat, id: string)
    requires n < |es| && SeenAt(es, n, id)
    ensures LifeAfter(c, es, n + 1, id).Some?
    ensures var life, q, s := LifeAfter(c, es, n, id), LifeAfter(c, es, n + 1, id).value.person, SightingAt(es, n, id);
      && s == Sighting(s.box, es[n].u.frame, es[n].u.frameW, es[n].u.frameH, es[n].u.now)
      && (id, s.box) in es[n].u.tracks
      && if life.None? then Arrived(c, es[n].u, id, s, q) else Continued(c, life.value.person, s, q)
  {
    var u, s := es[n].u, SightingAt(es, n, id);
    var life := LifeAfter(c, es, n, id);
    var p := if life.Some? then life.value.person else Newborn(id, u.cameraId, s.box, u.now);
    SightMeans(c, p, s);
  }
}
