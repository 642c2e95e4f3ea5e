/** The track histories inside whole runs of the tracker: from one frame to the
    next a track has at most one event, so its consecutive hits bound how far its
    box has drifted since the frame in which it was last reset. */
module ObjectDrift {
  import opened Prelude
  import opened Geometry
  import opened ObjectTracks
  import opened ObjectAssociation
  import opened ObjectHistory
  import opened ObjectMatches
  import opened ObjectRuns
  import opened ObjectSteps
  import opened ObjectSnapshot

  /** A track's mark from one moment to the next: unchanged, or one event. */
  ghost predicate OneEvent(s: Settings, m: Mark, m': Mark) {
    m' == m || CountsOrRestarts(m, m', OneMove(s))
  }

  lemma ContinuesIsOneEvent(s: Settings, f: Scene, before: Track, t: Track)
    requires Clamped(s) && Usable(f) && Continues(s, f, before, t)
    ensures OneEvent(s, MarkOf(before), MarkOf(t))
  {
    if Rematched(s, f, before, t) {
      var d :| d in f.detections && Overlaps(s, d.bbox, before.bbox)
        && t == WithTemplate(Refresh(s, before, d, f.now), f.view);
      SeenCountsOrRestarts(s, before, d, f.now);
    } else if Found(s, f, before, t) {
      var found := Locate(s, before, f.view.value).value;
      RediscoveredCountsOrRestarts(s, before, Scale(found.0, f.view.value), found.1, f.now);
    }
  }

  /** A frame brings each track at most one event, and a new track counts one hit. */
  lemma FrameEvents(s: Settings, st: State, ds: seq<Detection>, v: Option<View>, now: real, i: nat)
    requires Clamped(s) && Scaled(v) && Sound(st) && i < |Observed(s, st, ds, v, now)|
    ensures var t := Observed(s, st, ds, v, now)[i];
      if i < |st.tracks| then t.id == st.tracks[i].id && OneEvent(s, MarkOf(st.tracks[i]), MarkOf(t))
      else t.consecutiveHits == 1
  {
    var f := Scene(ds, v, now);
    ObservedFrom(s, f, st, i);
    if i < |st.tracks| {
      ContinuesIsOneEvent(s, f, st.tracks[i], Observed(s, st, ds, v, now)[i]);
    }
  }

  lemma NearAdds(p: Point, q: Point, r: Point, a: real, b: real)
    requires Near(p, q, a) && Near(q, r, b)
    ensures Near(p, r, a + b)
  {
  }

  /** One more event adds at most one hit and the drift of one hit. */
  lemma MarkDrifts(s: Settings, before: Mark, after: Mark, from: Point)
    requires OneEvent(s, before, after) && before.hits >= 1 && after.hits != 1
    requires Near(before.at, from, Times(before.hits - 1, OneMove(s)))
    ensures 1 <= after.hits <= before.hits + 1
    ensures Near(after.at, from, Times(after.hits - 1, OneMove(s)))
  {
    if after != before {
      NearAdds(after.at, before.at, from, OneMove(s), Times(before.hits - 1, OneMove(s)));
    }
  }

  lemma StartedCountsOne(s: Settings, ops: seq<Op>, n: nat, t: Track)
    requires Runnable(ops) && 0 < n <= |ops| && StartedIn(s, ops, n, t)
    ensures t.consecutiveHits == 1
  {
  }

  lemma EarlierTrack(s: Settings, ops: seq<Op>, n: nat, t: Track) returns (before: Track)
    requires Clamped(s) && Runnable(ops) && n <= |ops| && t in TracksAfter(s, ops, n) && t.consecutiveHits != 1
    ensures n > 0 && before in TracksAfter(s, ops, n - 1) && before.id == t.id
    ensures OneEvent(s, MarkOf(before), MarkOf(t))
  {
    var origin := RunOrigin(s, ops, n, t);
    assert origin.Some? by {
      if origin.None? {
        StartedCountsOne(s, ops, n, t);
      }
    }
    before := origin.value;
    ContinuesIsOneEvent(s, SceneOf(ops[n - 1]), before, t);
  }

  /** The track of this id is live with more than one hit. */
  ghost predicate Counting(ts: seq<Track>, id: nat) {
    exists u :: u in ts && u.id == id && u.consecutiveHits > 1
  }

  /** The tracks at each moment, from none on: one with several hits continues one of
      the moment before by at most one event. */
  ghost predicate Eventful(s: Settings, line: seq<seq<Track>>) {
    && line != [] && line[0] == []
    && forall k, t: Track :: 0 < k < |line| && t in line[k] && t.consecutiveHits != 1 ==> HasEarlier(s, line[k - 1], t)
  }

  ghost predicate HasEarlier(s: Settings, ts: seq<Track>, t: Track) {
    exists before :: before in ts && before.id == t.id && OneEvent(s, MarkOf(before), MarkOf(t))
  }

  lemma {:induction false} DriftAlong(s: Settings, line: seq<seq<Track>>, n: nat, t: Track) returns (m: nat, t0: Track)
    requires Eventful(s, line) && n < |line| && t in line[n]
    ensures 1 <= t.consecutiveHits && m + t.consecutiveHits - 1 <= n
    ensures t0 in line[m] && t0.id == t.id && t0.consecutiveHits == 1
    ensures forall k :: m < k <= n ==> Counting(line[k], t.id)
    ensures Near(Center(t.bbox), Center(t0.bbox), Times(t.consecutiveHits - 1, OneMove(s)))
  {
    if t.consecutiveHits == 1 {
      m, t0 := n, t;
    } else {
      assert HasEarlier(s, line[n - 1], t);
      var before :| before in line[n - 1] && before.id == t.id && OneEvent(s, MarkOf(before), MarkOf(t));
      m, t0 := DriftAlong(s, line, n - 1, before);
      MarkDrifts(s, MarkOf(before), MarkOf(t), Center(t0.bbox));
    }
  }

  lemma TimelineIsEventful(s: Settings, ops: seq<Op>)
    requires Clamped(s) && Runnable(ops)
    ensures Eventful(s, Timeline(s, ops))
  {
    var line := Timeline(s, ops);
    forall n, t: Track | 0 < n < |line| && t in line[n] && t.consecutiveHits != 1
      ensures HasEarlier(s, line[n - 1], t)
    {
      var before := EarlierTrack(s, ops, n, t);
    }
  }

  /** "Stationary" in whole runs: a track live after `n` operations with `k`
      consecutive hits was last reset by some operation `m` at least `k - 1`
      operations before (after `m` it had a single hit, and after every later
      operation it was live with more), and its centre has since moved by at most
      `k - 1` times the bound of one hit on each axis. */
  lemma RunDriftIsBounded(s: Settings, ops: seq<Op>, n: nat, t: Track) returns (m: nat, t0: Track)
    requires Clamped(s) && Runnable(ops) && n <= |ops| && t in TracksAfter(s, ops, n)
    ensures 1 <= t.consecutiveHits && m + t.consecutiveHits - 1 <= n
    ensures t0 in TracksAfter(s, ops, m) && t0.id == t.id && t0.consecutiveHits == 1
    ensures forall k :: m < k <= n ==> Counting(TracksAfter(s, ops, k), t.id)
    ensures Near(Center(t.bbox), Center(t0.bbox), Times(t.consecutiveHits - 1, OneMove(s)))
  {
    var line := Timeline(s, ops);
    TimelineIsEventful(s, ops);
    m, t0 := DriftAlong(s, line, n, t);
    forall k | m < k <= n ensures Counting(TracksAfter(s, ops, k), t.id) {
      assert Counting(line[k], t.id);
    }
  }

  // ---- labels ----

  /** Some detection fed from operation `m` up to `n`, of a source that may relabel a
      specific track, has this label. */
  ghost predicate RelabelledBetween(ops: seq<Op>, m: nat, n: nat, labelName: string)
    requires n <= |ops|
  {
    exists k, d :: m <= k < n && ops[k].Feed? && d in ops[k].detections && IsSpecific(d)
      && d.className == Some(labelName)
  }

  lemma SpecificStep(s: Settings, f: Scene, before: Track, t: Track)
    requires Usable(f) && Continues(s, f, before, t) && before.source == SPECIFIC
    ensures t.source == SPECIFIC
    ensures t.labelName == before.labelName
         || exists d :: d in f.detections && IsSpecific(d) && d.className == Some(t.labelName)
  {
  }

  lemma SpecificStepIn(s: Settings, ops: seq<Op>, m: nat, n: nat, before: Track, t: Track)
    requires Runnable(ops) && m < n <= |ops| && ContinuesIn(s, ops, n, before, t) && before.source == SPECIFIC
    ensures t.source == SPECIFIC && (t.labelName == before.labelName || RelabelledBetween(ops, m, n, t.labelName))
  {
    SpecificStep(s, SceneOf(ops[n - 1]), before, t);
  }

  /** Between two moments of a track the specific source stayed, and so did the label
      unless a detection of that source changed it. */
  ghost predicate NotDowngraded(ops: seq<Op>, m: nat, n: nat, t: Track, t': Track)
    requires n <= |ops|
  {
    t.source == SPECIFIC ==>
      t'.source == SPECIFIC && (t'.labelName == t.labelName || RelabelledBetween(ops, m, n, t'.labelName))
  }

  lemma NotDowngradedFurther(ops: seq<Op>, m: nat, n: nat, t: Track, before: Track, t': Track)
    requires n < |ops| && NotDowngraded(ops, m, n, t, before) && NotDowngraded(ops, m, n + 1, before, t')
    ensures NotDowngraded(ops, m, n + 1, t, t')
  {
  }

  lemma SpecificOrigin(s: Settings, ops: seq<Op>, m: nat, n: nat, t: Track, t': Track) returns (before: Track)
    requires Runnable(ops) && m < n <= |ops|
    requires t in TracksAfter(s, ops, m) && t' in TracksAfter(s, ops, n) && t.id == t'.id
    ensures before in TracksAfter(s, ops, n - 1) && before.id == t'.id && NotDowngraded(ops, m, n, before, t')
  {
    before := OldTrackContinues(s, ops, m, n, t, t');
    if before.source == SPECIFIC {
      SpecificStepIn(s, ops, m, n, before, t');
    }
  }

  /** From moment `m` on the track of this id continues the one just before. */
  ghost predicate Labelled(ops: seq<Op>, line: seq<seq<Track>>, m: nat, id: nat) {
    && |line| == |ops| + 1
    && forall k, u: Track :: m < k < |line| && u in line[k] && u.id == id ==> HasLabelled(ops, m, k, line[k - 1], u)
  }

  ghost predicate HasLabelled(ops: seq<Op>, m: nat, k: nat, ts: seq<Track>, u: Track)
    requires k <= |ops|
  {
    exists before :: before in ts && before.id == u.id && NotDowngraded(ops, m, k, before, u)
  }

  lemma {:induction false} LabelAlong(ops: seq<Op>, line: seq<seq<Track>>, m: nat, n: nat, t: Track, t': Track)
    requires Labelled(ops, line, m, t.id) && m <= n <= |ops| && t'.id == t.id && t' in line[n]
    requires forall u :: u in line[m] && u.id == t.id ==> u == t
    ensures NotDowngraded(ops, m, n, t, t')
  {
    if m < n {
      assert HasLabelled(ops, m, n, line[n - 1], t');
      var before :| before in line[n - 1] && before.id == t'.id && NotDowngraded(ops, m, n, before, t');
      LabelAlong(ops, line, m, n - 1, t, before);
      NotDowngradedFurther(ops, m, n - 1, t, before, t');
    }
  }

  lemma TimelineIsLabelled(s: Settings, ops: seq<Op>, m: nat, t: Track)
    requires Runnable(ops) && m <= |ops| && t in TracksAfter(s, ops, m)
    ensures Labelled(ops, Timeline(s, ops), m, t.id)
  {
    var line := Timeline(s, ops);
    forall k, u: Track | m < k < |line| && u in line[k] && u.id == t.id ensures HasLabelled(ops, m, k, line[k - 1], u) {
      var before := SpecificOrigin(s, ops, m, k, t, u);
    }
  }

  /** A specific label is never downgraded in a run: from a moment when a track's
      source is the open-vocabulary detector to any later one, the source stays and
      the label is the same or one that such a detection was fed with in between. */
  lemma RunKeepsSpecificLabel(s: Settings, ops: seq<Op>, m: nat, n: nat, t: Track, t': Track)
    requires Runnable(ops) && m <= n <= |ops|
    requires t in TracksAfter(s, ops, m) && t' in TracksAfter(s, ops, n) && t.id == t'.id
    ensures NotDowngraded(ops, m, n, t, t')
  {
    var line := Timeline(s, ops);
    TimelineIsLabelled(s, ops, m, t);
    forall u: Track | u in line[m] && u.id == t.id ensures u == t {
      SameIdSameTrack(s, ops, m, t, u);
    }
    LabelAlong(ops, line, m, n, t, t');
  }

  // ---- evidence ----

  /** A live track counts the detections that association gave to its id; its
      confidence and margin are their decayed peaks, in the order they were given,
      and with a non-negative margin threshold it is strong only if one of them is. */
  lemma ReachableTrackHistory(s: Settings, ops: seq<Op>, n: nat, t: Track)
    requires Runnable(ops) && n <= |ops| && t in TracksAfter(s, ops, n)
    ensures var hits := HitsOf(s, ops, n, t.id);
      && multiset(hits) <= Fed(ops[..n]) && t.semanticHits == |hits|
      && PeaksOf(hits, t)
      && (s.strongVisualMargin >= 0.0 && IsStrong(s, t) ==>
            exists i :: 0 <= i < |hits| && MarginOf(hits[i]) >= s.strongVisualMargin)
  {
    var h := TrackLife(s, ops, n, t);
    HitsAreFed(s, ops, n, t.id);
    HitsCountDetections(s, h);
    PeakHold(s, h);
    if s.strongVisualMargin >= 0.0 && IsStrong(s, t) {
      StrongNeedsStrongHit(s, h);
    }
  }

  /** The reported track behind an observation. */
  lemma ReportedTrack(s: Settings, ops: seq<Op>, now: real, k: nat) returns (t: Track)
    requires Runnable(ops) && k < |Snapshot(s, Run(s, ops).tracks, now)|
    ensures t in TracksAfter(s, ops, |ops|) && Snapshot(s, Run(s, ops).tracks, now)[k] == Report(s, t)
  {
    var ts := Run(s, ops).tracks;
    SelectedIsConflictFree(s, ts, now);
    t := Selected(s, ts, now)[k];
    assert ops[..|ops|] == ops;
  }

  /** An object of any run is reported as publishable exactly when its id was given
      enough detections or the margin of one of them, decayed by the later ones,
      still reaches the strong margin; with a non-negative strong margin that
      detection reached it by itself. */
  lemma PublishedHasEvidence(s: Settings, ops: seq<Op>, now: real, k: nat)
    requires Runnable(ops) && k < |Snapshot(s, Run(s, ops).tracks, now)|
    ensures var o := Snapshot(s, Run(s, ops).tracks, now)[k];
      var hits := HitsOf(s, ops, |ops|, o.objectId);
      && multiset(hits) <= Fed(ops) && o.semanticHits == |hits|
      && (o.publishable <==>
            || |hits| >= s.minHitsForPublish
            || exists i :: 0 <= i < |Margins(hits)| && Decayed(Margins(hits), i) >= s.strongPublishMargin)
      && (o.publishable && s.strongPublishMargin >= 0.0 ==>
            || |hits| >= s.minHitsForPublish
            || exists i :: 0 <= i < |hits| && MarginOf(hits[i]) >= s.strongPublishMargin)
  {
    var t := ReportedTrack(s, ops, now, k);
    ReachableTrackHistory(s, ops, |ops|, t);
    assert ops[..|ops|] == ops;
    if t.targetMargin >= s.strongPublishMargin && s.strongPublishMargin >= 0.0 {
      PeakMarginNeedsHit(HitsOf(s, ops, |ops|, t.id), t.targetMargin, s.strongPublishMargin);
    }
  }
}
