/** The search for a lost track: which tracks are searched for, in which part of the
    frame, and how good a match must be, each in terms of the track's own fields. */
module ObjectSearch {
  import opened Prelude
  import opened Geometry
  import opened StableSort
  import opened ObjectTracks
  import opened ObjectAssociation
  import opened ObjectRuns
  import opened ObjectSteps
  import opened ObjectMatches
  import opened ObjectTemplates

  /** The search goes beyond a box by the given part of its length, rounded, at least 16. */
  lemma PaddingMeans(length: real, ratio: real)
    ensures var pad := Padding(length, ratio);
      pad >= 16 && (pad > 16 ==> Nearest(pad, MaxReal(1.0, length) * ratio))
    ensures MaxReal(1.0, length) * ratio > 16.5 ==> Padding(length, ratio) > 16
  {
  }

  /** The interval `[low, high)` of frame columns, or rows. */
  datatype Range = Range(low: int, high: int)

  function Around(first: real, last: real, ratio: real): Range {
    Range(Round(first) - Padding(last - first, ratio), Round(last) + Padding(last - first, ratio))
  }

  /** The rectangle lies within the padding around the box. */
  predicate NearBox(b: Box, ratio: real, r: Rect) {
    var xs, ys := Around(b.x1, b.x2, ratio), Around(b.y1, b.y2, ratio);
    xs.low <= r.x && r.x + r.width <= xs.high && ys.low <= r.y && r.y + r.height <= ys.high
  }

  predicate Holds(window: Rect, r: Rect) {
    && window.x <= r.x && r.x + r.width <= window.x + window.width
    && window.y <= r.y && r.y + r.height <= window.y + window.height
  }

  /** Where a slice of an axis of length `n` ends: a negative end counts from the far side. */
  function End(high: int, n: nat): int { if high < 0 then high + n else high }

  /** The slice of one axis as the source takes it. */
  lemma SliceHolds(low: int, high: int, n: nat, at: int, length: int)
    requires 0 <= at && length > 0 && at + length <= n
    ensures var from, to := Max(0, low), Min(n, high);
      from <= at && at + length <= from + SliceLength(from, to, n) <==> low <= at && at + length <= End(high, n)
  {
    SliceSelects(Max(0, low), Min(n, high), n, at + length - 1);
  }

  /** The window holds exactly the non-empty rectangles of the frame between these ends: as
      long as the padding reaches into the frame, those near the box. */
  lemma WindowIsNeighbourhood(b: Box, ratio: real, f: Frame, r: Rect)
    requires InFrame(r, f) && r.width > 0 && r.height > 0
    ensures var xs, ys := Around(b.x1, b.x2, ratio), Around(b.y1, b.y2, ratio);
      && (Holds(WindowAround(b, ratio, f), r) <==>
            && xs.low <= r.x && r.x + r.width <= End(xs.high, f.width)
            && ys.low <= r.y && r.y + r.height <= End(ys.high, f.height))
      && (xs.high >= 0 && ys.high >= 0 ==> (Holds(WindowAround(b, ratio, f), r) <==> NearBox(b, ratio, r)))
  {
    var xs, ys := Around(b.x1, b.x2, ratio), Around(b.y1, b.y2, ratio);
    SliceHolds(xs.low, xs.high, f.width, r.x, r.width);
    SliceHolds(ys.low, ys.high, f.height, r.y, r.height);
  }

  // ---- when a track is found ----

  /** The score a match must reach: a lower or higher one for tracks whose margin is
      strong. */
  function RequiredScore(s: Settings, t: Track): real {
    if t.targetMargin >= s.strongVisualMargin then s.strongVisualThreshold else s.visualThreshold
  }

  /** The track is searched for: it has a template and enough detector hits, or a strong
      margin, and the window has room for the template. */
  predicate SearchedFor(s: Settings, t: Track, window: Rect) {
    && t.template.Some?
    && (t.semanticHits >= s.minHitsForVisual || t.targetMargin >= s.strongVisualMargin)
    && t.template.value.width <= window.width && t.template.value.height <= window.height
  }

  predicate GoodMatch(s: Settings, t: Track, peak: Peak) {
    peak.score.Some? && peak.score.value >= RequiredScore(s, t)
  }

  /** The box in the coordinates of the small frame. */
  function Shrunk(b: Box, v: View): Box
    requires v.scaleX != 0.0 && v.scaleY != 0.0
  {
    Box(b.x1 / v.scaleX, b.y1 / v.scaleY, b.x2 / v.scaleX, b.y2 / v.scaleY)
  }

  /** A search succeeds exactly for an eligible track with a good match in its window. */
  lemma LocatedIff(s: Settings, t: Track, v: View)
    requires v.scaleX != 0.0 && v.scaleY != 0.0
    ensures var window := WindowAround(Shrunk(t.bbox, v), s.searchPadding, v.frame);
      Locate(s, t, v).Some? <==>
        SearchedFor(s, t, window) && GoodMatch(s, t, v.frame.bestMatch(window, t.template.value))
  {
  }

  /** The place of the peak, in camera coordinates. */
  ghost predicate AtPeak(b: Box, window: Rect, peak: Peak, template: Template, v: View) {
    && b.x1 == (window.x + peak.x) as real * v.scaleX && b.x2 - b.x1 == template.width as real * v.scaleX
    && b.y1 == (window.y + peak.y) as real * v.scaleY && b.y2 - b.y1 == template.height as real * v.scaleY
  }

  /** A track found at `seen`: it moves part of the way, is seen now, and counts the hit
      only if it is static and has not moved too far; nothing else about it changes. */
  ghost predicate FoundAt(s: Settings, t: Track, seen: Box, score: real, now: real, t': Track) {
    && PartOfTheWay(t.bbox, seen, s.visualAlpha, t'.bbox) && t'.lastSeenAt == now && t'.visualScore == score
    && t'.consecutiveHits
      == (if t.semanticHits >= s.minHitsForStatic && Within(Center(t.bbox), Center(seen), s.maxCenterShift)
          then t.consecutiveHits + 1 else 1)
    && (t'.id, t'.labelName, t'.source, t'.semanticHits) == (t.id, t.labelName, t.source, t.semanticHits)
    && (t'.confidence, t'.targetMargin, t'.template) == (t.confidence, t.targetMargin, t.template)
  }

  lemma RediscoverMeans(s: Settings, t: Track, seen: Box, score: real, now: real)
    ensures FoundAt(s, t, seen, score, now, Rediscover(s, t, seen, score, now))
  {
  }

  lemma PeakPlace(window: Rect, peak: Peak, template: Template, v: View)
    ensures AtPeak(Scale(Rect(window.x + peak.x, window.y + peak.y, template.width, template.height), v),
                   window, peak, template, v)
  {
  }

  /** What the search makes of a track. */
  lemma SearchOutcome(s: Settings, t: Track, v: View, now: real) returns (seen: Box)
    requires v.scaleX != 0.0 && v.scaleY != 0.0
    ensures var window, t' := WindowAround(Shrunk(t.bbox, v), s.searchPadding, v.frame), VisualUpdate(s, t, v, now);
      if SearchedFor(s, t, window) && GoodMatch(s, t, v.frame.bestMatch(window, t.template.value)) then
        var peak := v.frame.bestMatch(window, t.template.value);
        AtPeak(seen, window, peak, t.template.value, v) && FoundAt(s, t, seen, peak.score.value, now, t')
      else t' == t
  {
    LocatedIff(s, t, v);
    seen := t.bbox;
    var found := Locate(s, t, v);
    if found.Some? {
      var window := WindowAround(Shrunk(t.bbox, v), s.searchPadding, v.frame);
      seen := Scale(found.value.0, v);
      PeakPlace(window, v.frame.bestMatch(window, t.template.value), t.template.value, v);
      RediscoverMeans(s, t, seen, found.value.1, now);
    }
  }

  /** In a frame, a track that no detection chose is found again exactly when the image is
      searched, the track is eligible, and the match in its window is good enough; a track
      that is not found stays as it was. */
  lemma UnusedIsFoundIff(s: Settings, f: Scene, st: State, i: nat) returns (seen: Box)
    requires Usable(f) && Sound(st) && i < |st.tracks| && i < |Observed(s, st, f.detections, f.view, f.now)|
    requires ChosenIn(s, f, st, st.tracks[i].id) == []
    ensures var t, t' := st.tracks[i], Observed(s, st, f.detections, f.view, f.now)[i];
      if s.visualEnabled && f.view.Some? then
        var v := f.view.value;
        var window := WindowAround(Shrunk(t.bbox, v), s.searchPadding, v.frame);
        if SearchedFor(s, t, window) && GoodMatch(s, t, v.frame.bestMatch(window, t.template.value)) then
          var peak := v.frame.bestMatch(window, t.template.value);
          AtPeak(seen, window, peak, t.template.value, v) && FoundAt(s, t, seen, peak.score.value, f.now, t')
        else t' == t
      else t' == t
  {
    var t, order := st.tracks[i], Sort(f.detections, ByConfidence);
    var l := Associated(s, st, f.detections, f.view, f.now);
    ProgressHolds(s, st, order, f.view, f.now);
    ChosenIffTaken(order, l.taken, t.id);
    seen := t.bbox;
    if s.visualEnabled && f.view.Some? {
      seen := SearchOutcome(s, t, f.view.value, f.now);
    }
  }

  /** Every rediscovery of a run was of an eligible track and reached the score its margin
      asks for. */
  lemma RediscoveriesAreGood(s: Settings, ops: seq<Op>, n: nat, before: Track, t: Track)
    requires Runnable(ops) && 0 < n <= |ops| && ops[n - 1].Feed? && before in TracksAfter(s, ops, n - 1)
    requires Found(s, SceneOf(ops[n - 1]), before, t)
    ensures before.template.Some?
    ensures before.semanticHits >= s.minHitsForVisual || before.targetMargin >= s.strongVisualMargin
    ensures t.visualScore
         >= if before.targetMargin >= s.strongVisualMargin then s.strongVisualThreshold else s.visualThreshold
    ensures t.lastSeenAt == ops[n - 1].now
  {
    var seen := SearchOutcome(s, before, ops[n - 1].view.value, ops[n - 1].now);
    LocatedIff(s, before, ops[n - 1].view.value);
  }
}
