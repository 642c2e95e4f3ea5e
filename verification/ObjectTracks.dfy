/** Values and transitions of src/detection/detected_object_tracker.py: one track,
    one detection, one frame.  The class in ObjectTracker.dfy is proved to
    perform exactly these transitions. */
module ObjectTracks {
  import opened Prelude
  import opened Geometry
  import opened StableSort
  import opened Association

  /** One detector output; an absent dictionary key is `None`. */
  datatype Detection = Detection(
    bbox: Box,
    className: Option<string>,
    confidence: Option<real>,
    source: Option<string>,
    targetMargin: Option<real>)

  function ConfidenceOf(d: Detection): real { d.confidence.GetOr(0.0) }

  function MarginOf(d: Detection): real { d.targetMargin.GetOr(0.0) }

  datatype Rect = Rect(x: int, y: int, width: int, height: int)

  /** A stored grey patch: its size and an opaque name for its pixels. */
  datatype Template = Template(width: int, height: int, pixels: int)

  /** The peak of the correlation map; `score` is `None` when it is not finite. */
  datatype Peak = Peak(score: Option<real>, x: int, y: int)

  /** A grey frame as the tracker sees it: its size and the three pixel
      operations applied to it (spread of a patch, copy of a patch, matching). */
  datatype Frame = Frame(
    width: nat,
    height: nat,
    spread: Rect -> real,
    pixels: Rect -> int,
    bestMatch: (Rect, Template) -> Peak)

  /** A frame together with the scale from frame to camera coordinates. */
  datatype View = View(frame: Frame, scaleX: real, scaleY: real)

  datatype Track = Track(
    id: nat,
    bbox: Box,
    labelName: string,
    confidence: real,
    source: string,
    lastSeenAt: real,
    consecutiveHits: int,
    semanticHits: int,
    template: Option<Template>,
    visualScore: real,
    targetMargin: real)

  datatype Settings = Settings(
    iou: (Box, Box) -> real,
    iouThreshold: real,
    maxCenterShift: real,
    maxMissed: real,
    unconfirmedMaxMissed: real,
    visualEnabled: bool,
    visualThreshold: real,
    strongVisualThreshold: real,
    searchPadding: real,
    minHitsForVisual: int,
    minHitsForStatic: int,
    minHitsForPublish: int,
    strongPublishMargin: real,
    strongVisualMargin: real,
    strongMaxMissed: real,
    nmsThreshold: real,
    containmentThreshold: real,
    bboxAlpha: real,
    visualAlpha: real)

  /** What the constructor's clamps establish. */
  ghost predicate Clamped(s: Settings) {
    && s.minHitsForVisual >= 1 && s.minHitsForStatic >= 2 && s.minHitsForPublish >= 2
    && s.strongMaxMissed >= s.maxMissed
    && 0.05 <= s.bboxAlpha <= 1.0 && 0.05 <= s.visualAlpha <= 1.0
  }

  function Clamp(raw: Settings): (s: Settings)
    ensures Clamped(s)
    ensures Clamped(raw) ==> s == raw
    ensures MovedInto(0.05, 1.0, raw.bboxAlpha, s.bboxAlpha) && MovedInto(0.05, 1.0, raw.visualAlpha, s.visualAlpha)
    ensures s.strongMaxMissed == raw.strongMaxMissed || raw.strongMaxMissed < raw.maxMissed == s.strongMaxMissed
  {
    raw.(minHitsForVisual := Max(1, raw.minHitsForVisual),
         minHitsForStatic := Max(2, raw.minHitsForStatic),
         minHitsForPublish := Max(2, raw.minHitsForPublish),
         strongMaxMissed := MaxReal(raw.maxMissed, raw.strongMaxMissed),
         bboxAlpha := MinReal(1.0, MaxReal(0.05, raw.bboxAlpha)),
         visualAlpha := MinReal(1.0, MaxReal(0.05, raw.visualAlpha)))
  }

  predicate IsStrong(s: Settings, t: Track) {
    t.targetMargin >= s.strongVisualMargin
  }

  function MaxMissedFor(s: Settings, t: Track): real {
    if IsStrong(s, t) then s.strongMaxMissed
    else if t.semanticHits >= s.minHitsForPublish then s.maxMissed
    else s.unconfirmedMaxMissed
  }

  predicate IsLive(s: Settings, t: Track, now: real) {
    now - t.lastSeenAt <= MaxMissedFor(s, t)
  }

  // ---- one track ----

  function Birth(id: nat, d: Detection, now: real): Track {
    Track(id, d.bbox, d.className.GetOr("object"), ConfidenceOf(d), d.source.GetOr("detector"),
          now, 1, 1, None, 0.0, MarginOf(d))
  }

  /** A hit stays consecutive only while the centre moves at most the limit. */
  function NextHits(s: Settings, t: Track, seen: Box): int {
    if Within(Center(t.bbox), Center(seen), s.maxCenterShift) then t.consecutiveHits + 1 else 1
  }

  /** A detection matched to an existing track. */
  function Refresh(s: Settings, t: Track, d: Detection, now: real): Track {
    var newSource := d.source.GetOr(t.source);
    var relabel := t.source != "yolo_world" || newSource == "yolo_world";
    t.(consecutiveHits := NextHits(s, t, d.bbox),
       semanticHits := t.semanticHits + 1,
       bbox := Blend(t.bbox, d.bbox, s.bboxAlpha),
       labelName := if relabel then d.className.GetOr(t.labelName) else t.labelName,
       source := if relabel then newSource else t.source,
       confidence := MaxReal(ConfidenceOf(d), t.confidence * 0.90),
       targetMargin := MaxReal(MarginOf(d), t.targetMargin * 0.90),
       lastSeenAt := now)
  }

  /** The track re-found by template matching at `seen` with `score`. */
  function Rediscover(s: Settings, t: Track, seen: Box, score: real, now: real): Track {
    t.(consecutiveHits := if t.semanticHits >= s.minHitsForStatic then NextHits(s, t, seen) else 1,
       bbox := Blend(t.bbox, seen, s.visualAlpha),
       lastSeenAt := now,
       visualScore := score)
  }

  // ---- template capture and matching ----

  function SmallBox(b: Box, v: View): Box
    requires v.scaleX != 0.0 && v.scaleY != 0.0
  {
    Box(b.x1 / v.scaleX, b.y1 / v.scaleY, b.x2 / v.scaleX, b.y2 / v.scaleY)
  }

  /** The template after `_capture_template`: a new patch when the clipped box is
      at least 8x8 and not uniform, otherwise the old one. */
  function Capture(t: Track, v: View): Option<Template>
    requires v.scaleX != 0.0 && v.scaleY != 0.0
  {
    var b := SmallBox(t.bbox, v);
    var x1, y1 := Max(0, Round(b.x1)), Max(0, Round(b.y1));
    var x2, y2 := Min(v.frame.width, Round(b.x2)), Min(v.frame.height, Round(b.y2));
    if x2 - x1 < 8 || y2 - y1 < 8 then t.template
    else
      var patch := Rect(x1, y1, x2 - x1, y2 - y1);
      if v.frame.spread(patch) >= 5.0
      then Some(Template(patch.width, patch.height, v.frame.pixels(patch)))
      else t.template
  }

  function WithTemplate(t: Track, v: Option<View>): Track
    requires Scaled(v)
  {
    if v.Some? then t.(template := Capture(t, v.value)) else t
  }

  /** How far around a box of this length the search goes. */
  function Padding(length: real, ratio: real): int {
    Max(16, Round(MaxReal(1.0, length) * ratio))
  }

  /** The window around a box, as the array slice really selects it. */
  function WindowAround(b: Box, ratio: real, f: Frame): Rect {
    var padX, padY := Padding(b.x2 - b.x1, ratio), Padding(b.y2 - b.y1, ratio);
    var sx1, sy1 := Max(0, Round(b.x1) - padX), Max(0, Round(b.y1) - padY);
    var sx2, sy2 := Min(f.width, Round(b.x2) + padX), Min(f.height, Round(b.y2) + padY);
    Rect(sx1, sy1, SliceLength(sx1, sx2, f.width), SliceLength(sy1, sy2, f.height))
  }

  /** The window searched around the track. */
  function SearchWindow(s: Settings, t: Track, v: View): Rect
    requires v.scaleX != 0.0 && v.scaleY != 0.0
  {
    WindowAround(SmallBox(t.bbox, v), s.searchPadding, v.frame)
  }

  /** Where, and with what score, the template is found; `None` when the track is
      not eligible, the window is too small, or the score is below threshold. */
  function Locate(s: Settings, t: Track, v: View): Option<(Rect, real)>
    requires v.scaleX != 0.0 && v.scaleY != 0.0
  {
    if t.template.None? || !(t.semanticHits >= s.minHitsForVisual || IsStrong(s, t)) then None
    else
      var template, window := t.template.value, SearchWindow(s, t, v);
      if window.height < template.height || window.width < template.width then None
      else
        var peak := v.frame.bestMatch(window, template);
        var threshold := if IsStrong(s, t) then s.strongVisualThreshold else s.visualThreshold;
        if peak.score.None? || peak.score.value < threshold then None
        else Some((Rect(window.x + peak.x, window.y + peak.y, template.width, template.height), peak.score.value))
  }

  function Scale(r: Rect, v: View): Box {
    Box(r.x as real * v.scaleX, r.y as real * v.scaleY,
        (r.x + r.width) as real * v.scaleX, (r.y + r.height) as real * v.scaleY)
  }

  function VisualUpdate(s: Settings, t: Track, v: View, now: real): Track
    requires v.scaleX != 0.0 && v.scaleY != 0.0
  {
    var found := Locate(s, t, v);
    if found.Some? then Rediscover(s, t, Scale(found.value.0, v), found.value.1, now) else t
  }

  /** The matcher's contract: the peak is a placement of the template inside the
      searched window. */
  ghost predicate MatchesInside(f: Frame) {
    forall w: Rect, t: Template :: t.width <= w.width && t.height <= w.height ==>
      var peak := f.bestMatch(w, t);
      0 <= peak.x <= w.width - t.width && 0 <= peak.y <= w.height - t.height
  }

  /** Whatever the track's box, a template found in a frame at least as large as
      the template lies wholly inside that frame. */
  lemma LocatedInsideFrame(s: Settings, t: Track, v: View)
    requires v.scaleX != 0.0 && v.scaleY != 0.0 && MatchesInside(v.frame)
    requires t.template.Some? ==> t.template.value.width > 0 && t.template.value.height > 0
    ensures Locate(s, t, v).Some? ==>
      var r := Locate(s, t, v).value.0;
      && 0 <= r.x && r.x + r.width <= v.frame.width
      && 0 <= r.y && r.y + r.height <= v.frame.height
      && r.width == t.template.value.width && r.height == t.template.value.height
  {
    if Locate(s, t, v).Some? {
      var template, w := t.template.value, SearchWindow(s, t, v);
      var peak := v.frame.bestMatch(w, template);
      assert 0 <= peak.x <= w.width - template.width && 0 <= peak.y <= w.height - template.height;
    }
  }

  // ---- one frame ----

  predicate Scaled(v: Option<View>) {
    v.Some? ==> v.value.scaleX != 0.0 && v.value.scaleY != 0.0
  }

  function ByConfidence(d: Detection): Rank { Rank(0, ConfidenceOf(d)) }

  function ByStrength(t: Track): Rank { Rank(t.semanticHits, t.confidence) }

  /** The tracks in dictionary order, the next fresh id, and the id given to each
      detection processed so far in this frame. */
  datatype Ledger = Ledger(tracks: seq<Track>, nextId: nat, taken: seq<nat>)

  function Scores(s: Settings, l: Ledger, box: Box): (r: seq<real>)
    ensures |r| == |l.tracks|
  {
    seq(|l.tracks|, i requires 0 <= i < |l.tracks| =>
      if l.tracks[i].id in l.taken then 0.0 else s.iou(box, l.tracks[i].bbox))
  }

  function Match(s: Settings, l: Ledger, box: Box): (r: Option<nat>)
    ensures r.Some? ==> r.value < |l.tracks|
  {
    Accepted(Scores(s, l, box), s.iouThreshold)
  }

  function Appended(l: Ledger, t: Track): Ledger {
    Ledger(l.tracks + [t], l.nextId + 1, l.taken + [l.nextId])
  }

  function Replaced(l: Ledger, i: nat, t: Track): Ledger
    requires i < |l.tracks|
  {
    Ledger(l.tracks[i := t], l.nextId, l.taken + [l.tracks[i].id])
  }

  function AssignOne(s: Settings, l: Ledger, d: Detection, v: Option<View>, now: real): Ledger
    requires Scaled(v)
  {
    var m := Match(s, l, d.bbox);
    if m.None? then Appended(l, WithTemplate(Birth(l.nextId, d, now), v))
    else Replaced(l, m.value, WithTemplate(Refresh(s, l.tracks[m.value], d, now), v))
  }

  function Assign(s: Settings, l: Ledger, ds: seq<Detection>, v: Option<View>, now: real): Ledger
    requires Scaled(v)
  {
    if ds == [] then l
    else AssignOne(s, Assign(s, l, ds[..|ds| - 1], v, now), ds[|ds| - 1], v, now)
  }

  /** Template matching of a track, unless a detection was assigned to it. */
  function Swept(s: Settings, t: Track, taken: seq<nat>, v: Option<View>, now: real): Track
    requires Scaled(v)
  {
    if s.visualEnabled && v.Some? && t.id !in taken then VisualUpdate(s, t, v.value, now) else t
  }

  function Sweep(s: Settings, l: Ledger, v: Option<View>, now: real): (r: seq<Track>)
    requires Scaled(v)
    ensures |r| == |l.tracks|
  {
    seq(|l.tracks|, i requires 0 <= i < |l.tracks| => Swept(s, l.tracks[i], l.taken, v, now))
  }

  function Fresh(s: Settings, ts: seq<Track>, now: real): seq<Track> {
    if ts == [] then []
    else
      var rest := Fresh(s, ts[..|ts| - 1], now);
      if IsLive(s, ts[|ts| - 1], now) then rest + [ts[|ts| - 1]] else rest
  }

  function Stale(s: Settings, ts: seq<Track>, now: real): seq<Track> {
    if ts == [] then []
    else
      var rest := Stale(s, ts[..|ts| - 1], now);
      if IsLive(s, ts[|ts| - 1], now) then rest else rest + [ts[|ts| - 1]]
  }

  lemma FreshStep(s: Settings, ts: seq<Track>, now: real, i: nat)
    requires i < |ts|
    ensures Fresh(s, ts[..i + 1], now)
         == if IsLive(s, ts[i], now) then Fresh(s, ts[..i], now) + [ts[i]] else Fresh(s, ts[..i], now)
  {
    assert ts[..i + 1][..i] == ts[..i];
  }

  lemma {:induction false} FreshMember(s: Settings, ts: seq<Track>, now: real, t: Track)
    ensures t in Fresh(s, ts, now) <==> t in ts && IsLive(s, t, now)
  {
    if ts != [] {
      FreshMember(s, ts[..|ts| - 1], now, t);
      assert ts == ts[..|ts| - 1] + [ts[|ts| - 1]];
    }
  }

  lemma {:induction false} FreshOfLive(s: Settings, ts: seq<Track>, now: real)
    requires forall t :: t in ts ==> IsLive(s, t, now)
    ensures Fresh(s, ts, now) == ts
  {
    if ts != [] {
      FreshOfLive(s, ts[..|ts| - 1], now);
      assert ts == ts[..|ts| - 1] + [ts[|ts| - 1]];
    }
  }

  lemma AssignStep(s: Settings, l: Ledger, ds: seq<Detection>, v: Option<View>, now: real, k: nat)
    requires Scaled(v) && k < |ds|
    ensures Assign(s, l, ds[..k + 1], v, now) == AssignOne(s, Assign(s, l, ds[..k], v, now), ds[k], v, now)
  {
    assert ds[..k + 1][..k] == ds[..k];
  }

  datatype State = State(tracks: seq<Track>, nextId: nat)

  /** A frame starts with no detection assigned. */
  function Start(st: State): Ledger { Ledger(st.tracks, st.nextId, []) }

  /** The ledger after all detections of a frame, strongest first. */
  function Associated(s: Settings, st: State, ds: seq<Detection>, v: Option<View>, now: real): Ledger
    requires Scaled(v)
  {
    Assign(s, Start(st), Sort(ds, ByConfidence), v, now)
  }

  /** All tracks after association and template matching, before eviction. */
  function Observed(s: Settings, st: State, ds: seq<Detection>, v: Option<View>, now: real): seq<Track>
    requires Scaled(v)
  {
    Sweep(s, Associated(s, st, ds, v, now), v, now)
  }

  function Update(s: Settings, st: State, ds: seq<Detection>, v: Option<View>, now: real): State
    requires Scaled(v)
  {
    State(Fresh(s, Observed(s, st, ds, v, now), now), Associated(s, st, ds, v, now).nextId)
  }

  // ---- snapshot ----

  function Size(b: Box): real {
    MaxReal(1.0, (b.x2 - b.x1) * (b.y2 - b.y1))
  }

  function Containment(a: Box, b: Box): real {
    Overlap(a, b) / MinReal(Size(a), Size(b))
  }

  /** `later` describes the same object as the already kept `earlier`. */
  predicate Conflicts(s: Settings, later: Track, earlier: Track) {
    || s.iou(later.bbox, earlier.bbox) >= s.nmsThreshold
    || Containment(later.bbox, earlier.bbox) >= s.containmentThreshold
  }

  predicate Duplicate(s: Settings, t: Track, kept: seq<Track>) {
    exists i :: 0 <= i < |kept| && Conflicts(s, t, kept[i])
  }

  function Kept(s: Settings, order: seq<Track>): seq<Track> {
    if order == [] then []
    else
      var kept, t := Kept(s, order[..|order| - 1]), order[|order| - 1];
      if Duplicate(s, t, kept) then kept else kept + [t]
  }

  function Selected(s: Settings, ts: seq<Track>, now: real): seq<Track> {
    Kept(s, Sort(Fresh(s, ts, now), ByStrength))
  }

  datatype Observation = Observation(
    objectId: nat, bbox: Box, isNew: bool, consecutiveHits: int, labelName: string,
    labelConfidence: real, source: string, semanticHits: int, visualScore: real,
    targetMargin: real, publishable: bool)

  function Report(s: Settings, t: Track): Observation {
    Observation(t.id, t.bbox, t.consecutiveHits == 1, t.consecutiveHits, t.labelName, t.confidence,
                t.source, t.semanticHits, t.visualScore, t.targetMargin,
                t.semanticHits >= s.minHitsForPublish || t.targetMargin >= s.strongPublishMargin)
  }

  function Reports(s: Settings, ts: seq<Track>): (r: seq<Observation>)
    ensures |r| == |ts|
  {
    seq(|ts|, i requires 0 <= i < |ts| => Report(s, ts[i]))
  }

  function Snapshot(s: Settings, ts: seq<Track>, now: real): seq<Observation> {
    Reports(s, Selected(s, ts, now))
  }
}
