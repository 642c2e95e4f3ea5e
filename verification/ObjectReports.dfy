/** Field by field: what a frame makes of a track, how long a track is kept, and what the
    snapshot tells about it. */
module ObjectReports {
  import opened Prelude
  import opened Geometry
  import opened ObjectTracks
  import opened ObjectHistory
  import opened ObjectRuns
  import opened ObjectSteps
  import opened ObjectMatches
  import opened ObjectTemplates
  import opened ObjectSearch
  import opened ObjectLabels
  import opened ObjectDrift
  import opened ObjectSnapshot

  // ---- one frame ----

  /** The template is the patch under the box where the view shows a distinctive one, and
      otherwise the one before. */
  ghost predicate Templated(view: Option<View>, box: Box, before: Option<Template>, after: Option<Template>)
    requires Scaled(view)
  {
    match view
    case None => after == before
    case Some(v) =>
      exists patch: Rect :: IsClipOf(patch, box, v)
        && after == if Distinctive(patch, v.frame)
                    then Some(Template(patch.width, patch.height, v.frame.pixels(patch))) else before
  }

  /** The track a detection starts. */
  ghost predicate BornFrom(f: Scene, d: Detection, t: Track)
    requires Usable(f)
  {
    && t.bbox == d.bbox && t.lastSeenAt == f.now && t.consecutiveHits == t.semanticHits == 1 && t.visualScore == 0.0
    && t.labelName == (match d.className case Some(name) => name case None => "object")
    && t.source == (match d.source case Some(source) => source case None => "detector")
    && t.confidence == (match d.confidence case Some(x) => x case None => 0.0)
    && t.targetMargin == (match d.targetMargin case Some(x) => x case None => 0.0)
    && Templated(f.view, d.bbox, None, t.template)
  }

  /** `peak` is the new value or the old one less a tenth, whichever is larger. */
  predicate HeldPeak(seen: Option<real>, old_: real, peak: real) {
    var x := if seen.Some? then seen.value else 0.0;
    peak >= x && 10.0 * peak >= 9.0 * old_ && (peak == x || 10.0 * peak == 9.0 * old_)
  }

  /** The track a detection matches: moved part of the way, seen now, one more hit, and
      one more consecutive hit unless it moved too far. */
  ghost predicate MatchedWith(s: Settings, f: Scene, b: Track, d: Detection, t: Track)
    requires Usable(f)
  {
    && PartOfTheWay(b.bbox, d.bbox, s.bboxAlpha, t.bbox) && t.lastSeenAt == f.now
    && t.semanticHits == b.semanticHits + 1
    && t.consecutiveHits
      == (if Within(Center(b.bbox), Center(d.bbox), s.maxCenterShift) then b.consecutiveHits + 1 else 1)
    && HeldPeak(d.confidence, b.confidence, t.confidence) && HeldPeak(d.targetMargin, b.targetMargin, t.targetMargin)
    && t.id == b.id && t.visualScore == b.visualScore && Templated(f.view, t.bbox, b.template, t.template)
  }

  lemma BirthMeans(f: Scene, d: Detection, id: nat)
    requires Usable(f)
    ensures BornFrom(f, d, WithTemplate(Birth(id, d, f.now), f.view))
  {
    if f.view.Some? {
      var patch := CaptureIsPatch(Birth(id, d, f.now), f.view.value);
    }
  }

  lemma RefreshMeans(s: Settings, f: Scene, b: Track, d: Detection)
    requires Usable(f)
    ensures MatchedWith(s, f, b, d, WithTemplate(Refresh(s, b, d, f.now), f.view))
  {
    BlendIsPartOfTheWay(b.bbox, d.bbox, s.bboxAlpha);
    if f.view.Some? {
      var patch := CaptureIsPatch(Refresh(s, b, d, f.now), f.view.value);
    }
  }

  /** Any live track of a run, told by the detections that the latest operation gave to it:
      one started or matched it; or none did and it was found again or left as it was. */
  ghost predicate ToldBy(s: Settings, f: Scene, before: Option<Track>, t: Track, hits: seq<Detection>)
    requires Usable(f)
  {
    match before
    case None => |hits| == 1 && BornFrom(f, hits[0], t)
    case Some(b) =>
      || (|hits| == 1 && Overlaps(s, hits[0].bbox, b.bbox) && MatchedWith(s, f, b, hits[0], t))
      || (hits == [] && t == b)
      || (hits == [] && exists seen: Box, score: real :: FoundAt(s, b, seen, score, f.now, t))
  }

  lemma BecomesTold(s: Settings, f: Scene, before: Option<Track>, t: Track, hits: seq<Detection>)
    requires Usable(f) && Becomes(s, f, before, t, hits)
    ensures ToldBy(s, f, before, t, hits)
  {
    if |hits| == 1 {
      if before.Some? {
        RefreshMeans(s, f, before.value, hits[0]);
      } else {
        BirthMeans(f, hits[0], t.id);
      }
    } else if t != before.value {
      var seen := SearchOutcome(s, before.value, f.view.value, f.now);
      LocatedIff(s, before.value, f.view.value);
    }
  }

  lemma RunTrackTells(s: Settings, ops: seq<Op>, n: nat, t: Track) returns (before: Option<Track>, hits: seq<Detection>)
    requires Runnable(ops) && n <= |ops| && t in TracksAfter(s, ops, n)
    ensures n > 0 && ops[n - 1].Feed? && ToldBy(s, SceneOf(ops[n - 1]), before, t, hits)
    ensures before.None? ==> HitsOf(s, ops, n, t.id) == hits
    ensures before.Some? ==>
      && before.value in TracksAfter(s, ops, n - 1) && before.value.id == t.id
      && HitsOf(s, ops, n, t.id) == HitsOf(s, ops, n - 1, t.id) + hits
  {
    before, hits := RunTold(s, ops, n, t);
    BecomesTold(s, SceneOf(ops[n - 1]), before, t, hits);
  }

  // ---- how long a track is kept ----

  /** The time the track may go unseen: longest for a strong margin, then for enough
      detector hits. */
  function Grace(s: Settings, t: Track): real {
    if t.targetMargin >= s.strongVisualMargin then s.strongMaxMissed
    else if t.semanticHits >= s.minHitsForPublish then s.maxMissed else s.unconfirmedMaxMissed
  }

  /** A run keeps a track, over a frame, exactly while it has not gone unseen for longer than
      its grace time. */
  lemma KeptIffWithinGrace(s: Settings, ops: seq<Op>, n: nat, t: Track) returns (t': Track)
    requires Runnable(ops) && 0 < n <= |ops| && t in TracksAfter(s, ops, n - 1) && ops[n - 1].Feed?
    ensures t'.id == t.id && ContinuesIn(s, ops, n, t, t')
    ensures HasId(TracksAfter(s, ops, n), t.id) <==> ops[n - 1].now - t'.lastSeenAt <= Grace(s, t')
  {
    t' := RunSurvives(s, ops, n, t);
  }

  // ---- the snapshot ----

  /** The fields that only repeat the track. */
  ghost predicate Copies(o: Observation, t: Track) {
    && o.objectId == t.id && o.bbox == t.bbox && o.consecutiveHits == t.consecutiveHits
    && (o.isNew <==> t.consecutiveHits == 1) && o.visualScore == t.visualScore
  }

  /** The fields that tell the track's history. */
  ghost predicate TellsHistory(o: Observation, hits: seq<Detection>) {
    && o.semanticHits == |hits|
    && LastWord(hits, (d: Detection) => d.className, o.labelName, "object")
    && LastWord(hits, (d: Detection) => d.source, o.source, "detector")
    && IsDecayedPeak(Confidences(hits), o.labelConfidence) && IsDecayedPeak(Margins(hits), o.targetMargin)
  }

  /** Every observation of a run is of the one live track of its id, which is within its
      grace time, and tells the detections given to it: their number, their last words, and
      the decayed peaks of their confidences and margins. */
  lemma ObservationTells(s: Settings, ops: seq<Op>, now: real, k: nat) returns (t: Track)
    requires Runnable(ops) && k < |Snapshot(s, Run(s, ops).tracks, now)|
    ensures var o := Snapshot(s, Run(s, ops).tracks, now)[k];
      && t in Run(s, ops).tracks && now - t.lastSeenAt <= Grace(s, t)
      && (forall u :: u in Run(s, ops).tracks && u.id == o.objectId ==> u == t)
      && Copies(o, t) && TellsHistory(o, HitsOf(s, ops, |ops|, o.objectId))
  {
    t := ReportedTrack(s, ops, now, k);
    assert ops[..|ops|] == ops;
    SelectedIsConflictFree(s, Run(s, ops).tracks, now);
    FreshMember(s, Run(s, ops).tracks, now, t);
    ReachableTrackHistory(s, ops, |ops|, t);
    RunTrackIsNamed(s, ops, |ops|, t);
    forall u | u in Run(s, ops).tracks && u.id == t.id ensures u == t {
      SameIdSameTrack(s, ops, |ops|, u, t);
    }
  }
}
