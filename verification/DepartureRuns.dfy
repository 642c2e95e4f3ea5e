/** Whole runs of the departure detector: any sequence of frames and camera
    clears.  Times are arbitrary unless a lemma asks for a monotone clock. */
module DepartureRuns {
  import opened Prelude
  import opened Geometry
  import opened DwellZones
  import opened Departures

  datatype Event = Observe(u: Input) | Clear(cameraId: string)

  ghost predicate WellFormed(es: seq<Event>) {
    forall k :: 0 <= k < |es| && es[k].Observe? ==> DistinctKeys(es[k].u.tracks)
  }

  function Apply(c: Settings, e: Event, d: Detector): Detector {
    match e
    case Observe(u) => Update(c, d, u)
    case Clear(cameraId) => ClearCamera(d, cameraId)
  }

  /** The detector after the first `n` events. */
  function After(c: Settings, es: seq<Event>, n: nat): Detector
    requires n <= |es|
  {
    if n == 0 then Detector([], map[]) else Apply(c, es[n - 1], After(c, es, n - 1))
  }

  function Evolve(c: Settings, e: Event, id: string, life: Option<Life>): Option<Life> {
    match e
    case Observe(u) => StepLife(c, u, id, life)
    case Clear(cameraId) => ClearLife(cameraId, life)
  }

  /** One person's life after the first `n` events, told without the others. */
  function LifeAfter(c: Settings, es: seq<Event>, n: nat, id: string): Option<Life>
    requires n <= |es|
  {
    if n == 0 then None else Evolve(c, es[n - 1], id, LifeAfter(c, es, n - 1, id))
  }

  ghost predicate Mirrors(c: Settings, es: seq<Event>, n: nat, id: string)
    requires n <= |es|
  {
    Sound(After(c, es, n)) && LifeOf(After(c, es, n), id) == LifeAfter(c, es, n, id)
  }

  lemma MirrorStart(c: Settings, es: seq<Event>, n: nat, id: string)
    requires n == 0
    ensures Mirrors(c, es, n, id)
  {
  }

  lemma MirrorStep(c: Settings, es: seq<Event>, n: nat, id: string)
    requires 0 < n <= |es| && Mirrors(c, es, n - 1, id)
    requires es[n - 1].Observe? ==> DistinctKeys(es[n - 1].u.tracks)
    ensures Mirrors(c, es, n, id)
  {
    ApplyIsPointwise(c, es[n - 1], After(c, es, n - 1), id);
  }

  lemma {:induction false} RunMirrors(c: Settings, es: seq<Event>, n: nat, id: string)
    requires WellFormed(es) && n <= |es|
    ensures Mirrors(c, es, n, id)
  {
    if n == 0 {
      MirrorStart(c, es, n, id);
    } else {
      RunMirrors(c, es, n - 1, id);
      MirrorStep(c, es, n, id);
    }
  }

  /** The detector over a whole run is the sum of independent lives; ids are unique and
      only known persons are ever listed as missing. */
  lemma RunIsPointwise(c: Settings, es: seq<Event>, n: nat, id: string)
    requires WellFormed(es) && n <= |es|
    ensures Sound(After(c, es, n)) && LifeOf(After(c, es, n), id) == LifeAfter(c, es, n, id)
  {
    RunMirrors(c, es, n, id);
  }

  lemma ApplyIsPointwise(c: Settings, e: Event, d: Detector, id: string)
    requires Sound(d) && (e.Observe? ==> DistinctKeys(e.u.tracks))
    ensures Sound(Apply(c, e, d)) && LifeOf(Apply(c, e, d), id) == Evolve(c, e, id, LifeOf(d, id))
  {
    match e
    case Observe(u) =>
      UpdateIsPointwise(c, d, u, id);
      UpdateKeepsSound(c, d, u);
    case Clear(cameraId) =>
      ClearIsPointwise(d, cameraId, id);
  }

  // ---- what happens at one event ----

  predicate SeenAt(es: seq<Event>, k: nat, id: string)
    requires k < |es|
  {
    es[k].Observe? && BoxOf(es[k].u.tracks, id).Some?
  }

  predicate CheckedAt(c: Settings, es: seq<Event>, k: nat, id: string)
    requires k < |es|
  {
    es[k].Observe? && Checks(c, es[k].u, id, LifeAfter(c, es, k, id))
  }

  /** Not seen at any event from `i` up to but excluding `j`. */
  ghost predicate Unseen(es: seq<Event>, i: nat, j: nat, id: string)
    requires j <= |es|
  {
    forall k :: i <= k < j ==> !SeenAt(es, k, id)
  }

  /** What an event that does not show the person can do to the life. */
  lemma UnseenStep(c: Settings, e: Event, id: string, life: Option<Life>)
    requires e.Observe? ==> BoxOf(e.u.tracks, id).None?
    ensures var after := Evolve(c, e, id, life);
      && (life.None? ==> after.None?)
      && (after.Some? ==> after.value.person == life.value.person.(processed := after.value.person.processed))
      && (after.Some? && life.value.person.processed ==> after.value.person.processed)
      && (after.Some? && after.value.person.processed ==>
            life.value.person.processed || (e.Observe? && Checks(c, e.u, id, life)))
      && (e.Observe? && Checks(c, e.u, id, life) && after.Some? ==> after.value.person.processed)
  {
  }

  /** In every reachable state a processed person is listed as missing. */
  lemma {:induction false} ProcessedIsMissing(c: Settings, es: seq<Event>, n: nat, id: string)
    requires n <= |es|
    ensures var life := LifeAfter(c, es, n, id);
      life.Some? && life.value.person.processed ==> life.value.missing.Some?
  {
    if n > 0 {
      ProcessedIsMissing(c, es, n - 1, id);
      MissingStep(c, es[n - 1], id, LifeAfter(c, es, n - 1, id));
    }
  }

  lemma MissingStep(c: Settings, e: Event, id: string, life: Option<Life>)
    requires life.Some? && life.value.person.processed ==> life.value.missing.Some?
    ensures var after := Evolve(c, e, id, life);
      after.Some? && after.value.person.processed ==> after.value.missing.Some?
  {
    if e.Observe? && BoxOf(e.u.tracks, id).Some? {
      var known := if life.Some? then life.value.person
        else Newborn(id, e.u.cameraId, BoxOf(e.u.tracks, id).value, e.u.now);
      SightKeepsIdentity(c, known, SightingOf(e.u, BoxOf(e.u.tracks, id).value));
    }
  }

  // ---- at most once ----

  lemma {:induction false} StaysProcessed(c: Settings, es: seq<Event>, i: nat, n: nat, id: string)
    requires i < n <= |es| && CheckedAt(c, es, i, id) && Unseen(es, i + 1, n, id)
    ensures var life := LifeAfter(c, es, n, id); life.Some? ==> life.value.person.processed
  {
    if n > i + 1 {
      StaysProcessed(c, es, i, n - 1, id);
      assert !SeenAt(es, n - 1, id);
    }
    UnseenStep(c, es[n - 1], id, LifeAfter(c, es, n - 1, id));
  }

  /** Between two checks of a person there is a sighting; every check happens in a
      frame with an image, after at least the confirmation time. */
  lemma CheckedAtMostOnce(c: Settings, es: seq<Event>, i: nat, j: nat, id: string)
    requires i < j < |es| && CheckedAt(c, es, i, id) && CheckedAt(c, es, j, id)
    ensures exists k :: i < k < j && SeenAt(es, k, id)
  {
    if Unseen(es, i + 1, j, id) {
      StaysProcessed(c, es, i, j, id);
    }
  }

  // ---- never lost ----

  /** Event `n - 1` forgets the person because it was away too long. */
  predicate PurgedAt(c: Settings, es: seq<Event>, n: nat, id: string)
    requires n < |es|
  {
    es[n].Observe? && LifeAfter(c, es, n, id).Some? && LifeAfter(c, es, n + 1, id).None?
  }

  /** Checked at some event before `n` and not seen since. */
  ghost predicate CheckedSinceSeen(c: Settings, es: seq<Event>, n: nat, id: string)
    requires n <= |es|
  {
    exists k :: 0 <= k < n && CheckedAt(c, es, k, id) && Unseen(es, k + 1, n, id)
  }

  lemma CheckedSinceStep(c: Settings, es: seq<Event>, n: nat, id: string)
    requires n < |es| && !SeenAt(es, n, id)
    requires CheckedSinceSeen(c, es, n, id) || CheckedAt(c, es, n, id)
    ensures CheckedSinceSeen(c, es, n + 1, id)
  {
    if CheckedAt(c, es, n, id) {
      assert Unseen(es, n + 1, n + 1, id);
    } else {
      var k :| 0 <= k < n && CheckedAt(c, es, k, id) && Unseen(es, k + 1, n, id);
      assert Unseen(es, k + 1, n + 1, id);
    }
  }

  /** The processed flag means what it says. */
  lemma {:induction false} ProcessedWasChecked(c: Settings, es: seq<Event>, n: nat, id: string)
    requires n <= |es| && LifeAfter(c, es, n, id).Some? && LifeAfter(c, es, n, id).value.person.processed
    ensures CheckedSinceSeen(c, es, n, id)
  {
    if n > 0 {
      SeenIsUnprocessed(c, es, n - 1, id);
      UnseenStep(c, es[n - 1], id, LifeAfter(c, es, n - 1, id));
      if !CheckedAt(c, es, n - 1, id) {
        ProcessedWasChecked(c, es, n - 1, id);
      }
      CheckedSinceStep(c, es, n - 1, id);
    }
  }

  lemma SeenIsUnprocessed(c: Settings, es: seq<Event>, n: nat, id: string)
    requires n < |es| && LifeAfter(c, es, n + 1, id).Some? && LifeAfter(c, es, n + 1, id).value.person.processed
    ensures !SeenAt(es, n, id)
  {
    if SeenAt(es, n, id) {
      var life, u := LifeAfter(c, es, n, id), es[n].u;
      var box := BoxOf(u.tracks, id).value;
      var known := if life.Some? then life.value.person else Newborn(id, u.cameraId, box, u.now);
      SightKeepsIdentity(c, known, SightingOf(u, box));
    }
  }

  lemma PurgeMeansOld(c: Settings, u: Input, id: string, life: Life)
    requires StepLife(c, u, id, Some(life)).None?
    ensures BoxOf(u.tracks, id).None? && MissingFor(u, life.missing) > PURGE_SECONDS
    ensures IsDue(c, u, life.person, life.missing) ==> Checks(c, u, id, Some(life))
  {
  }

  lemma PurgedWasChecked(c: Settings, es: seq<Event>, n: nat, id: string)
    requires c.confirmSeconds <= PURGE_SECONDS && n < |es| && PurgedAt(c, es, n, id)
    ensures CheckedSinceSeen(c, es, n + 1, id)
  {
    var life := LifeAfter(c, es, n, id).value;
    PurgeMeansOld(c, es[n].u, id, life);
    if !IsDue(c, es[n].u, life.person, life.missing) {
      ProcessedWasChecked(c, es, n, id);
    }
    CheckedSinceStep(c, es, n, id);
  }

  ghost predicate NeverPurgedUnchecked(c: Settings) {
    forall es: seq<Event>, n: nat, id: string ::
      n < |es| && PurgedAt(c, es, n, id) ==> CheckedSinceSeen(c, es, n + 1, id)
  }

  function Moment(tracks: seq<(string, Box)>, now: real): Event {
    Observe(Input("cam", tracks, None, 0, 0, now, (before, after) => []))
  }

  /** Seen at 0, then gone; the next frame comes between the purge time and the
      longer confirmation time. */
  function Vanishing(c: Settings): seq<Event> {
    [Moment([("p", Box(0.0, 0.0, 0.0, 0.0))], 0.0), Moment([], 0.0),
     Moment([], (PURGE_SECONDS + c.confirmSeconds) / 2.0)]
  }

  /** With no image and a short absence nothing but the missing time changes. */
  lemma FirstAbsence(c: Settings, now: real, id: string, life: Life)
    requires c.confirmSeconds > PURGE_SECONDS && Pending(Some(life), "cam", None)
    ensures Evolve(c, Moment([], now), id, Some(life)) == Some(Life(life.person, Some(now)))
    ensures !Checks(c, Moment([], now).u, id, Some(life))
  {
  }

  lemma EarlyPurge(c: Settings, now: real, id: string, life: Life)
    requires Pending(Some(life), "cam", Some(0.0)) && PURGE_SECONDS < now < c.confirmSeconds
    ensures Evolve(c, Moment([], now), id, Some(life)) == None
    ensures !Checks(c, Moment([], now).u, id, Some(life))
  {
  }

  lemma UncheckedPurge(c: Settings, es: seq<Event>, i: nat, id: string, now: real)
    requires c.confirmSeconds > now > PURGE_SECONDS
    requires i + 2 < |es| && SeenAt(es, i, id) && Pending(LifeAfter(c, es, i + 1, id), "cam", None)
    requires es[i + 1] == Moment([], 0.0) && es[i + 2] == Moment([], now)
    ensures PurgedAt(c, es, i + 2, id) && !CheckedSinceSeen(c, es, i + 3, id)
  {
    var life := LifeAfter(c, es, i + 1, id).value;
    FirstAbsence(c, 0.0, id, life);
    EarlyPurge(c, now, id, Life(life.person, Some(0.0)));
    assert LifeAfter(c, es, i + 2, id) == Some(Life(life.person, Some(0.0)));
    assert !CheckedAt(c, es, i + 1, id) && !CheckedAt(c, es, i + 2, id);
    forall k | 0 <= k <= i ensures !CheckedAt(c, es, k, id) || !Unseen(es, k + 1, i + 3, id) {
    }
  }

  lemma FirstSight(c: Settings, es: seq<Event>, i: nat, id: string)
    requires i == 0 && i < |es| && SeenAt(es, i, id) && es[i].u.cameraId == "cam"
    ensures Pending(LifeAfter(c, es, i + 1, id), "cam", None)
  {
    var u := es[i].u;
    var box := BoxOf(u.tracks, id).value;
    SightKeepsIdentity(c, Newborn(id, u.cameraId, box, u.now), SightingOf(u, box));
  }

  lemma VanishingIsPurged(c: Settings, es: seq<Event>, i: nat, id: string, now: real)
    requires c.confirmSeconds > PURGE_SECONDS && now == (PURGE_SECONDS + c.confirmSeconds) / 2.0
    requires es == Vanishing(c) && i == 0 && id == "p"
    ensures !NeverPurgedUnchecked(c)
  {
    assert es[i].u.tracks[i].0 == id;
    FirstSight(c, es, i, id);
    UncheckedPurge(c, es, i, id, now);
  }

  /** The purge never removes a person unchecked since last seen, if and only if the
      confirmation time does not exceed the purge time. */
  lemma NeverPurgedUncheckedIff(c: Settings)
    ensures NeverPurgedUnchecked(c) <==> c.confirmSeconds <= PURGE_SECONDS
  {
    if c.confirmSeconds <= PURGE_SECONDS {
      forall es: seq<Event>, n: nat, id: string | n < |es| && PurgedAt(c, es, n, id)
        ensures CheckedSinceSeen(c, es, n + 1, id)
      {
        PurgedWasChecked(c, es, n, id);
      }
    } else {
      var es, i, id, now := Vanishing(c), 0, "p", (PURGE_SECONDS + c.confirmSeconds) / 2.0;
      VanishingIsPurged(c, es, i, id, now);
    }
  }

  /** Event `k` is a frame of the camera. */
  predicate FrameOf(es: seq<Event>, k: nat, cameraId: string)
    requires k < |es|
  {
    es[k].Observe? && es[k].u.cameraId == cameraId
  }

  /** From `i` to `j` the person is away from its camera, which is not cleared. */
  ghost predicate Away(es: seq<Event>, i: nat, j: nat, cameraId: string, id: string)
    requires j <= |es|
  {
    Unseen(es, i, j, id) && forall k :: i <= k < j ==> es[k] != Clear(cameraId)
  }

  ghost predicate CheckedWithin(c: Settings, es: seq<Event>, i: nat, j: nat, id: string)
    requires j <= |es|
  {
    exists k :: i <= k < j && CheckedAt(c, es, k, id)
  }

  /** The person waits for its check. */
  predicate Pending(life: Option<Life>, cameraId: string, missing: Option<real>) {
    life.Some? && !life.value.person.processed && life.value.person.cameraId == cameraId
      && life.value.missing == missing
  }

  lemma PendingStep(c: Settings, e: Event, id: string, life: Option<Life>, cameraId: string, missing: Option<real>)
    requires c.confirmSeconds <= PURGE_SECONDS && Pending(life, cameraId, missing)
    requires e != Clear(cameraId) && (e.Observe? ==> BoxOf(e.u.tracks, id).None? && !Checks(c, e.u, id, life))
    ensures Pending(Evolve(c, e, id, life), cameraId,
              if e.Observe? && e.u.cameraId == cameraId then Some(missing.GetOr(e.u.now)) else missing)
  {
  }

  /** Before the first frame of its camera without it, nothing happens to a person. */
  lemma {:induction false} PendingBefore(c: Settings, es: seq<Event>, i: nat, n: nat, cameraId: string, id: string)
    requires c.confirmSeconds <= PURGE_SECONDS && i < n <= |es| && Away(es, i + 1, n, cameraId, id)
    requires Pending(LifeAfter(c, es, i + 1, id), cameraId, None)
    requires forall k :: i < k < n ==> !FrameOf(es, k, cameraId)
    ensures Pending(LifeAfter(c, es, n, id), cameraId, None)
  {
    if n > i + 1 {
      PendingBefore(c, es, i, n - 1, cameraId, id);
      assert !SeenAt(es, n - 1, id) && !FrameOf(es, n - 1, cameraId);
      PendingStep(c, es[n - 1], id, LifeAfter(c, es, n - 1, id), cameraId, None);
    }
  }

  lemma {:induction false} PendingUntilChecked(c: Settings, es: seq<Event>, m: nat, n: nat, cameraId: string,
                                               id: string)
    requires c.confirmSeconds <= PURGE_SECONDS && m < n <= |es| && Away(es, m, n, cameraId, id)
    requires FrameOf(es, m, cameraId) && Pending(LifeAfter(c, es, m, id), cameraId, None)
    requires !CheckedWithin(c, es, m, n, id)
    ensures Pending(LifeAfter(c, es, n, id), cameraId, Some(es[m].u.now))
  {
    var missing := if n == m + 1 then None else Some(es[m].u.now);
    if n > m + 1 {
      PendingUntilChecked(c, es, m, n - 1, cameraId, id);
    }
    assert !SeenAt(es, n - 1, id) && !CheckedAt(c, es, n - 1, id);
    PendingStep(c, es[n - 1], id, LifeAfter(c, es, n - 1, id), cameraId, missing);
  }

  lemma SeenIsPending(c: Settings, es: seq<Event>, i: nat, id: string)
    requires i < |es| && SeenAt(es, i, id)
    ensures LifeAfter(c, es, i + 1, id).Some?
    ensures Pending(LifeAfter(c, es, i + 1, id), LifeAfter(c, es, i + 1, id).value.person.cameraId, None)
  {
    var life, u := LifeAfter(c, es, i, id), es[i].u;
    var box := BoxOf(u.tracks, id).value;
    var known := if life.Some? then life.value.person else Newborn(id, u.cameraId, box, u.now);
    SightKeepsIdentity(c, known, SightingOf(u, box));
  }

  /** No departure is lost: a person seen at `i`, first absent from a frame of its
      camera at `m` and away until a frame `j` with an image that comes at least the
      confirmation time after `m`, is checked at `j` or earlier. */
  lemma DepartureIsChecked(c: Settings, es: seq<Event>, i: nat, m: nat, j: nat, id: string)
    requires c.confirmSeconds <= PURGE_SECONDS && i < m <= j < |es| && SeenAt(es, i, id)
    requires LifeAfter(c, es, i + 1, id).Some?
    requires var cam := LifeAfter(c, es, i + 1, id).value.person.cameraId;
      && Away(es, i + 1, j + 1, cam, id) && FrameOf(es, m, cam) && FrameOf(es, j, cam)
      && (forall k :: i < k < m ==> !FrameOf(es, k, cam))
    requires es[j].u.frame.Some? && es[j].u.now - es[m].u.now >= c.confirmSeconds
    ensures CheckedWithin(c, es, m, j + 1, id)
  {
    var cam := LifeAfter(c, es, i + 1, id).value.person.cameraId;
    SeenIsPending(c, es, i, id);
    PendingBefore(c, es, i, m, cam, id);
    assert !SeenAt(es, j, id);
    if m < j && !CheckedWithin(c, es, m, j, id) {
      PendingUntilChecked(c, es, m, j, cam, id);
      assert CheckedAt(c, es, j, id);
    } else if m == j {
      assert CheckedAt(c, es, j, id);
    } else {
      var k :| m <= k < j && CheckedAt(c, es, k, id);
    }
  }
}
