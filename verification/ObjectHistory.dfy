/** The life of one track as the list of what happened to it, and what every such
    life satisfies: no promotion from one hit, bounded drift, decayed peak hold. */
module ObjectHistory {
  import opened Prelude
  import opened Geometry
  import opened ObjectTracks

  /** A detector hit, or a visual rediscovery.  A hit also fixes the template held
      afterwards. */
  datatype Event =
    | Seen(detection: Detection, seenAt: real, template: Option<Template>)
    | Rediscovered(bbox: Box, score: real, foundAt: real)

  datatype Life = Life(id: nat, birth: Detection, bornAt: real, template: Option<Template>, events: seq<Event>)

  function Apply(s: Settings, t: Track, e: Event): Track {
    match e
    case Seen(d, at, template) => Refresh(s, t, d, at).(template := template)
    case Rediscovered(b, score, at) => Rediscover(s, t, b, score, at)
  }

  function Prefix(h: Life, n: nat): Life
    requires n <= |h.events|
  {
    h.(events := h.events[..n])
  }

  function Replay(s: Settings, h: Life): Track
    decreases |h.events|
  {
    if h.events == [] then Birth(h.id, h.birth, h.bornAt).(template := h.template)
    else Apply(s, Replay(s, Prefix(h, |h.events| - 1)), h.events[|h.events| - 1])
  }

  /** The detections matched to the track, first to last. */
  function Detections(h: Life): (r: seq<Detection>)
    ensures r != []
    decreases |h.events|
  {
    if h.events == [] then [h.birth]
    else
      var before := Detections(Prefix(h, |h.events| - 1));
      var e := h.events[|h.events| - 1];
      if e.Seen? then before + [e.detection] else before
  }

  lemma {:induction false} HitsCountDetections(s: Settings, h: Life)
    ensures Replay(s, h).semanticHits == |Detections(h)|
    decreases |h.events|
  {
    if h.events != [] {
      HitsCountDetections(s, Prefix(h, |h.events| - 1));
    }
  }

  /** Visual rediscovery alone never builds static confirmation: until the track
      has the required number of detector hits, its consecutive hits are at most
      its detector hits. */
  lemma {:induction false} NoPromotionFromOneHit(s: Settings, h: Life)
    ensures var t := Replay(s, h);
      && t.consecutiveHits >= 1
      && (t.semanticHits < s.minHitsForStatic ==> t.consecutiveHits <= t.semanticHits)
    decreases |h.events|
  {
    if h.events != [] {
      NoPromotionFromOneHit(s, Prefix(h, |h.events| - 1));
    }
  }

  /** `p` and `q` differ by at most `limit` on each axis. */
  predicate Near(p: Point, q: Point, limit: real) {
    Abs(p.x - q.x) <= limit && Abs(p.y - q.y) <= limit
  }

  lemma ScaledBound(a: real, d: real, big: real, limit: real)
    requires 0.0 <= a <= big && Abs(d) <= limit
    ensures Abs(a * d) <= big * limit
  {
    var m := Abs(d);
    assert Abs(a * d) == a * m;
    assert a * m <= big * m;
    assert big * m <= big * limit;
  }

  /** The bound on one counted hit: the larger smoothing factor times the limit. */
  function OneMove(s: Settings): real {
    MaxReal(s.bboxAlpha, s.visualAlpha) * s.maxCenterShift
  }

  lemma AxisMoveIsNear(p: real, q: real, alpha: real, p': real, big: real, limit: real, one: real)
    requires 0.0 <= alpha <= big && one == big * limit
    requires p' - p == alpha * (q - p) && Abs(q - p) <= limit
    ensures Abs(p' - p) <= one
  {
    var d := q - p;
    assert p' - p == alpha * d;
    ScaledBound(alpha, d, big, limit);
  }

  lemma PartialMoveIsNear(p: Point, q: Point, alpha: real, p': Point, big: real, limit: real, one: real)
    requires 0.0 <= alpha <= big && one == big * limit
    requires Moved(p, q, alpha, p') && Near(q, p, limit)
    ensures Near(p', p, one)
  {
    AxisMoveIsNear(p.x, q.x, alpha, p'.x, big, limit, one);
    AxisMoveIsNear(p.y, q.y, alpha, p'.y, big, limit, one);
  }

  lemma WithinIsNear(p: Point, q: Point, limit: real)
    requires Within(p, q, limit)
    ensures Near(q, p, limit)
  {
    WithinBoundsEachAxis(p, q, limit);
  }

  /** A detection or rediscovery close enough to count moves the smoothed centre by
      at most `OneMove` on each axis. */
  lemma CountedHitMovesLittle(s: Settings, a: Box, seen: Box, alpha: real)
    requires 0.0 <= alpha <= MaxReal(s.bboxAlpha, s.visualAlpha)
    requires Within(Center(a), Center(seen), s.maxCenterShift)
    ensures Near(Center(Blend(a, seen, alpha)), Center(a), OneMove(s))
  {
    var p, q, p' := Center(a), Center(seen), Center(Blend(a, seen, alpha));
    assert Moved(p, q, alpha, p') by { BlendMovesCenter(a, seen, alpha); }
    WithinIsNear(p, q, s.maxCenterShift);
    PartialMoveIsNear(p, q, alpha, p', MaxReal(s.bboxAlpha, s.visualAlpha), s.maxCenterShift, OneMove(s));
  }

  /** What the drift bound needs of a track: its count and its centre. */
  datatype Mark = Mark(hits: int, at: Point)

  function MarkOf(t: Track): Mark { Mark(t.consecutiveHits, Center(t.bbox)) }

  /** An event either restarts the count or adds one to it after a small move. */
  ghost predicate CountsOrRestarts(m: Mark, m': Mark, one: real) {
    m'.hits == 1 || (m'.hits == m.hits + 1 && Near(m'.at, m.at, one))
  }

  lemma SeenCountsOrRestarts(s: Settings, t: Track, d: Detection, at: real)
    requires Clamped(s)
    ensures CountsOrRestarts(MarkOf(t), MarkOf(Refresh(s, t, d, at)), OneMove(s))
  {
    if Within(Center(t.bbox), Center(d.bbox), s.maxCenterShift) {
      CountedHitMovesLittle(s, t.bbox, d.bbox, s.bboxAlpha);
    }
  }

  lemma RediscoveredCountsOrRestarts(s: Settings, t: Track, seen: Box, score: real, at: real)
    requires Clamped(s)
    ensures CountsOrRestarts(MarkOf(t), MarkOf(Rediscover(s, t, seen, score, at)), OneMove(s))
  {
    if Within(Center(t.bbox), Center(seen), s.maxCenterShift) {
      CountedHitMovesLittle(s, t.bbox, seen, s.visualAlpha);
    }
  }

  lemma {:induction false} TrailDrift(trail: seq<Mark>, one: real)
    requires trail != [] && trail[0].hits == 1
    requires forall i :: 0 < i < |trail| ==> CountsOrRestarts(trail[i - 1], trail[i], one)
    ensures var end := trail[|trail| - 1];
      && 1 <= end.hits <= |trail|
      && trail[|trail| - end.hits].hits == 1
      && Near(end.at, trail[|trail| - end.hits].at, Times(end.hits - 1, one))
  {
    var k := |trail| - 1;
    if k > 0 {
      TrailDrift(trail[..k], one);
      assert CountsOrRestarts(trail[k - 1], trail[k], one);
    }
  }

  /** The marks after birth and after each event. */
  function Trail(s: Settings, h: Life): (r: seq<Mark>)
    ensures |r| == |h.events| + 1
  {
    seq(|h.events| + 1, i requires 0 <= i <= |h.events| => MarkOf(Replay(s, Prefix(h, i))))
  }

  lemma TrailStep(s: Settings, h: Life, i: nat)
    requires Clamped(s) && 0 < i <= |h.events|
    ensures CountsOrRestarts(Trail(s, h)[i - 1], Trail(s, h)[i], OneMove(s))
  {
    assert Prefix(Prefix(h, i), i - 1) == Prefix(h, i - 1);
    var t, e := Replay(s, Prefix(h, i - 1)), h.events[i - 1];
    assert Replay(s, Prefix(h, i)) == Apply(s, t, e);
    match e {
      case Seen(d, at, template) => SeenCountsOrRestarts(s, t, d, at);
      case Rediscovered(b, score, at) => RediscoveredCountsOrRestarts(s, t, b, score, at);
    }
  }

  lemma TrailCounts(s: Settings, h: Life)
    requires Clamped(s)
    ensures Trail(s, h)[0].hits == 1 && Trail(s, h)[|h.events|] == MarkOf(Replay(s, h))
    ensures forall i :: 0 < i <= |h.events| ==> CountsOrRestarts(Trail(s, h)[i - 1], Trail(s, h)[i], OneMove(s))
  {
    assert Prefix(h, |h.events|) == h;
    forall i | 0 < i <= |h.events| ensures CountsOrRestarts(Trail(s, h)[i - 1], Trail(s, h)[i], OneMove(s)) {
      TrailStep(s, h, i);
    }
  }

  /** The track just after its last reset, `n - 1` events ago. */
  function AtReset(s: Settings, h: Life): Track
    requires 1 <= Replay(s, h).consecutiveHits <= |h.events| + 1
  {
    Replay(s, Prefix(h, |h.events| + 1 - Replay(s, h).consecutiveHits))
  }

  /** "Stationary" means bounded drift.  With `n` consecutive hits the last reset
      was exactly `n - 1` events ago, and since then the centre has moved by at
      most `n - 1` times the bound of one hit on each axis, over any mix of
      detector and visual updates. */
  lemma StationaryMeansBoundedDrift(s: Settings, h: Life)
    requires Clamped(s)
    ensures 1 <= Replay(s, h).consecutiveHits <= |h.events| + 1
    ensures AtReset(s, h).consecutiveHits == 1
    ensures Near(Center(Replay(s, h).bbox), Center(AtReset(s, h).bbox),
                 Times(Replay(s, h).consecutiveHits - 1, OneMove(s)))
  {
    TrailCounts(s, h);
    TrailDrift(Trail(s, h), OneMove(s));
  }

  // ---- decayed peak hold ----

  /** `value_i * 0.9^(k-1-i)` for the `i`-th of `k` values. */
  function Decayed(values: seq<real>, i: nat): real
    requires i < |values|
  {
    values[i] * Power(0.9, |values| - 1 - i)
  }

  /** `peak` is the maximum of the decayed values. */
  ghost predicate IsDecayedPeak(values: seq<real>, peak: real) {
    && (forall i :: 0 <= i < |values| ==> Decayed(values, i) <= peak)
    && (exists i :: 0 <= i < |values| && Decayed(values, i) == peak)
  }

  lemma DecayStep(values: seq<real>, peak: real, v: real)
    requires IsDecayedPeak(values, peak)
    ensures IsDecayedPeak(values + [v], MaxReal(v, peak * 0.9))
  {
    var all := values + [v];
    forall i | 0 <= i < |values| ensures Decayed(all, i) == Decayed(values, i) * 0.9 {
      assert Power(0.9, |all| - 1 - i) == 0.9 * Power(0.9, |values| - 1 - i);
    }
    assert Decayed(all, |values|) == v;
    var best :| 0 <= best < |values| && Decayed(values, best) == peak;
    assert Decayed(all, best) == peak * 0.9;
  }

  function Confidences(ds: seq<Detection>): seq<real> {
    seq(|ds|, i requires 0 <= i < |ds| => ConfidenceOf(ds[i]))
  }

  function Margins(ds: seq<Detection>): seq<real> {
    seq(|ds|, i requires 0 <= i < |ds| => MarginOf(ds[i]))
  }

  /** The track's confidence and target margin are the decayed peaks of these. */
  ghost predicate PeaksOf(ds: seq<Detection>, t: Track) {
    IsDecayedPeak(Confidences(ds), t.confidence) && IsDecayedPeak(Margins(ds), t.targetMargin)
  }

  lemma PeaksBegin(h: Life)
    ensures PeaksOf([h.birth], Birth(h.id, h.birth, h.bornAt))
  {
    assert Decayed(Confidences([h.birth]), 0) == ConfidenceOf(h.birth);
    assert Decayed(Margins([h.birth]), 0) == MarginOf(h.birth);
  }

  lemma PeaksAfterHit(s: Settings, ds: seq<Detection>, t: Track, d: Detection, at: real)
    requires PeaksOf(ds, t)
    ensures PeaksOf(ds + [d], Refresh(s, t, d, at))
  {
    DecayStep(Confidences(ds), t.confidence, ConfidenceOf(d));
    DecayStep(Margins(ds), t.targetMargin, MarginOf(d));
    assert Confidences(ds + [d]) == Confidences(ds) + [ConfidenceOf(d)];
    assert Margins(ds + [d]) == Margins(ds) + [MarginOf(d)];
  }

  /** Confidence and target margin are the decayed peaks of the matched detections
      alone, however many visual updates come between them. */
  lemma {:induction false} PeakHold(s: Settings, h: Life)
    ensures PeaksOf(Detections(h), Replay(s, h))
    decreases |h.events|
  {
    if h.events == [] {
      PeaksBegin(h);
    } else {
      var before, e := Prefix(h, |h.events| - 1), h.events[|h.events| - 1];
      PeakHold(s, before);
      if e.Seen? {
        PeaksAfterHit(s, Detections(before), Replay(s, before), e.detection, e.seenAt);
      }
    }
  }

  lemma {:induction false} PowerInUnit(n: nat)
    ensures 0.0 < Power(0.9, n) <= 1.0
  {
    if n > 0 {
      PowerInUnit(n - 1);
    }
  }

  lemma PeakNeedsHit(values: seq<real>, peak: real, threshold: real)
    requires IsDecayedPeak(values, peak) && 0.0 <= threshold <= peak
    ensures exists i :: 0 <= i < |values| && values[i] >= threshold
  {
    var i :| 0 <= i < |values| && Decayed(values, i) == peak;
    PowerInUnit(|values| - 1 - i);
    UnscaledAtLeast(values[i], Power(0.9, |values| - 1 - i), threshold);
  }

  /** A track is strong only through a detection that was itself strong. */
  ghost predicate StrongOnlyByStrongHit(s: Settings) {
    forall h: Life :: IsStrong(s, Replay(s, h)) ==>
      exists i :: 0 <= i < |Detections(h)| && MarginOf(Detections(h)[i]) >= s.strongVisualMargin
  }

  /** A margin that reaches a non-negative threshold goes back to a detection that
      reached it. */
  lemma MarginNeedsHit(s: Settings, h: Life, threshold: real)
    requires 0.0 <= threshold <= Replay(s, h).targetMargin
    ensures exists i :: 0 <= i < |Detections(h)| && MarginOf(Detections(h)[i]) >= threshold
  {
    PeakHold(s, h);
    PeakMarginNeedsHit(Detections(h), Replay(s, h).targetMargin, threshold);
  }

  lemma PeakMarginNeedsHit(ds: seq<Detection>, peak: real, threshold: real)
    requires IsDecayedPeak(Margins(ds), peak) && 0.0 <= threshold <= peak
    ensures exists i :: 0 <= i < |ds| && MarginOf(ds[i]) >= threshold
  {
    PeakNeedsHit(Margins(ds), peak, threshold);
    var i :| 0 <= i < |Margins(ds)| && Margins(ds)[i] >= threshold;
    assert MarginOf(ds[i]) == Margins(ds)[i];
  }

  lemma StrongNeedsStrongHit(s: Settings, h: Life)
    requires s.strongVisualMargin >= 0.0 && IsStrong(s, Replay(s, h))
    ensures exists i :: 0 <= i < |Detections(h)| && MarginOf(Detections(h)[i]) >= s.strongVisualMargin
  {
    MarginNeedsHit(s, h, s.strongVisualMargin);
  }

  lemma UnscaledAtLeast(v: real, p: real, threshold: real)
    requires 0.0 < p <= 1.0 && threshold >= 0.0 && v * p >= threshold
    ensures v >= threshold
  {
    assert v >= 0.0;
    assert v * p <= v;
  }

  /** The decay pulls negative margins up, so over all lives, whether or not a run can
      bring them about, the rule holds for exactly the non-negative thresholds.  For
      runs see ObjectStrength. */
  lemma StrongOnlyByStrongHitIff(s: Settings)
    ensures StrongOnlyByStrongHit(s) <==> s.strongVisualMargin >= 0.0
  {
    if s.strongVisualMargin >= 0.0 {
      forall h: Life | IsStrong(s, Replay(s, h))
        ensures exists i :: 0 <= i < |Detections(h)| && MarginOf(Detections(h)[i]) >= s.strongVisualMargin
      {
        StrongNeedsStrongHit(s, h);
      }
    } else {
      var weak := Detection(Box(0.0, 0.0, 1.0, 1.0), None, None, None, Some(1.1 * s.strongVisualMargin));
      var born := Life(0, weak, 0.0, None, []);
      var h := born.(events := [Seen(weak, 1.0, None)]);
      assert Prefix(h, 0) == born;
      assert Replay(s, h).targetMargin >= 0.99 * s.strongVisualMargin;
      assert Detections(h) == [weak, weak];
      assert IsStrong(s, Replay(s, h));
    }
  }

  // ---- labels ----

  const SPECIFIC := "yolo_world"

  /** A detection that may relabel a track of the specific source. */
  predicate IsSpecific(d: Detection) { d.source.GetOr(SPECIFIC) == SPECIFIC }

  lemma ApplyKeepsSpecific(s: Settings, t: Track, e: Event)
    requires t.source == SPECIFIC
    ensures var t' := Apply(s, t, e);
      && t'.source == SPECIFIC
      && (t'.labelName == t.labelName ||
          (e.Seen? && IsSpecific(e.detection) && e.detection.className == Some(t'.labelName)))
  {
  }

  /** From event `n` on some detection that may relabel the track gave this label. */
  ghost predicate RelabelledSince(es: seq<Event>, n: nat, labelName: string) {
    exists k :: n <= k < |es| && es[k].Seen? && IsSpecific(es[k].detection)
      && es[k].detection.className == Some(labelName)
  }

  /** Over these events, from the `n`-th on, the specific source of `t` stayed, and
      so did the label unless a detection of that source changed it. */
  ghost predicate StaysSpecific(es: seq<Event>, n: nat, t: Track, t': Track) {
    t'.source == SPECIFIC && (t'.labelName == t.labelName || RelabelledSince(es, n, t'.labelName))
  }

  lemma StaysSpecificLonger(s: Settings, es: seq<Event>, n: nat, t: Track, mid: Track, e: Event)
    requires n <= |es| && StaysSpecific(es, n, t, mid)
    ensures StaysSpecific(es + [e], n, t, Apply(s, mid, e))
  {
    ApplyKeepsSpecific(s, mid, e);
    if RelabelledSince(es, n, mid.labelName) {
      var k :| n <= k < |es| && es[k].Seen? && IsSpecific(es[k].detection)
               && es[k].detection.className == Some(mid.labelName);
      assert (es + [e])[k] == es[k];
    }
    assert (es + [e])[|es|] == e;
  }

  /** A specific label is never downgraded: once a track's source is the
      open-vocabulary detector it stays so, and its label is still the one it had or
      one that such a detection gave it since. */
  lemma {:induction false} SpecificLabelStays(s: Settings, h: Life, n: nat)
    requires n <= |h.events| && Replay(s, Prefix(h, n)).source == SPECIFIC
    ensures StaysSpecific(h.events, n, Replay(s, Prefix(h, n)), Replay(s, h))
    decreases |h.events|
  {
    if n == |h.events| {
      assert Prefix(h, n) == h;
    } else {
      var last := |h.events| - 1;
      var before := Prefix(h, last);
      assert Prefix(before, n) == Prefix(h, n);
      assert h.events == before.events + [h.events[last]];
      SpecificLabelStays(s, before, n);
      StaysSpecificLonger(s, before.events, n, Replay(s, Prefix(h, n)), Replay(s, before), h.events[last]);
    }
  }
}
