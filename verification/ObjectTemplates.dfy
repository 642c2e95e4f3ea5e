/** The templates of a run: each is cut from inside a frame and is at least 8 by 8,
    so the visual search always finds a place that lies inside its frame. */
module ObjectTemplates {
  import opened Prelude
  import opened Geometry
  import opened ObjectTracks
  import opened ObjectRuns
  import opened ObjectSteps

  predicate InFrame(r: Rect, f: Frame) {
    0 <= r.x && r.x + r.width <= f.width && 0 <= r.y && r.y + r.height <= f.height
  }

  /** A patch that is large enough and not uniform. */
  predicate Distinctive(patch: Rect, f: Frame) {
    patch.width >= 8 && patch.height >= 8 && f.spread(patch) >= 5.0
  }

  /** The template holds the pixels of a distinctive patch of the frame. */
  ghost predicate CutFrom(template: Template, f: Frame) {
    exists patch: Rect :: InFrame(patch, f) && Distinctive(patch, f)
      && template == Template(patch.width, patch.height, f.pixels(patch))
  }

  /** Capturing keeps the old template or takes one cut from inside the frame. */
  lemma CaptureCutsInside(t: Track, v: View)
    requires v.scaleX != 0.0 && v.scaleY != 0.0
    ensures Capture(t, v) == t.template || (Capture(t, v).Some? && CutFrom(Capture(t, v).value, v.frame))
  {
    var b := SmallBox(t.bbox, v);
    var x1, y1 := Max(0, Round(b.x1)), Max(0, Round(b.y1));
    var patch := Rect(x1, y1, Min(v.frame.width, Round(b.x2)) - x1, Min(v.frame.height, Round(b.y2)) - y1);
    if Capture(t, v) != t.template {
      assert InFrame(patch, v.frame) && Distinctive(patch, v.frame);
    }
  }

  /** The low edge of a clipped side: `v` rounded, but not below 0. */
  predicate LowEdge(x: int, v: real) {
    x >= 0 && (Nearest(x, v) || (x == 0 && v < 0.0))
  }

  /** The high edge: `v` rounded, but not beyond the frame. */
  predicate HighEdge(x: int, v: real, n: int) {
    x <= n && (Nearest(x, v) || (x == n && v > n as real))
  }

  /** The patch is the box in frame coordinates, rounded to pixels and clipped to the
      frame. */
  predicate IsClipOf(patch: Rect, b: Box, v: View)
    requires v.scaleX != 0.0 && v.scaleY != 0.0
  {
    && LowEdge(patch.x, b.x1 / v.scaleX) && HighEdge(patch.x + patch.width, b.x2 / v.scaleX, v.frame.width)
    && LowEdge(patch.y, b.y1 / v.scaleY) && HighEdge(patch.y + patch.height, b.y2 / v.scaleY, v.frame.height)
  }

  lemma EdgesRound(x: real, n: nat)
    ensures LowEdge(Max(0, Round(x)), x) && HighEdge(Min(n, Round(x)), x, n)
  {
    if x < 0.0 {
      RoundBetweenIntegers(x.Floor, x, 0);
    }
    if x > n as real {
      RoundBetweenIntegers(n, x, x.Floor + 1);
    }
  }

  lemma OneRound(x: int, y: int, v: real)
    requires Nearest(x, v) && Nearest(y, v)
    ensures x == y
  {
  }

  /** There is only one such patch. */
  lemma OneClip(patch: Rect, other: Rect, b: Box, v: View)
    requires v.scaleX != 0.0 && v.scaleY != 0.0 && IsClipOf(patch, b, v) && IsClipOf(other, b, v)
    ensures patch == other
  {
    forall x: int, y: int, z: real | Nearest(x, z) && Nearest(y, z) ensures x == y {
      OneRound(x, y, z);
    }
  }

  /** The template after a detection: the patch under the track's box if that is
      distinctive, and else the template it had. */
  lemma CaptureIsPatch(t: Track, v: View) returns (patch: Rect)
    requires v.scaleX != 0.0 && v.scaleY != 0.0
    ensures IsClipOf(patch, t.bbox, v)
    ensures Capture(t, v) == if Distinctive(patch, v.frame)
                             then Some(Template(patch.width, patch.height, v.frame.pixels(patch))) else t.template
  {
    var b := SmallBox(t.bbox, v);
    EdgesRound(b.x1, v.frame.width);
    EdgesRound(b.x2, v.frame.width);
    EdgesRound(b.y1, v.frame.height);
    EdgesRound(b.y2, v.frame.height);
    var x1, y1 := Max(0, Round(b.x1)), Max(0, Round(b.y1));
    patch := Rect(x1, y1, Min(v.frame.width, Round(b.x2)) - x1, Min(v.frame.height, Round(b.y2)) - y1);
  }

  predicate Large(t: Track) {
    t.template.Some? ==> t.template.value.width >= 8 && t.template.value.height >= 8
  }

  lemma TemplateStaysLarge(t: Track, v: Option<View>)
    requires Scaled(v) && Large(t)
    ensures Large(WithTemplate(t, v))
  {
    if v.Some? {
      CaptureCutsInside(t, v.value);
    }
  }

  lemma StartedIsLarge(f: Scene, t: Track)
    requires Usable(f) && Started(f, t)
    ensures Large(t)
  {
    var d :| d in f.detections && t == WithTemplate(Birth(t.id, d, f.now), f.view);
    TemplateStaysLarge(Birth(t.id, d, f.now), f.view);
  }

  lemma ContinuesLarge(s: Settings, f: Scene, before: Track, t: Track)
    requires Usable(f) && Continues(s, f, before, t) && Large(before)
    ensures Large(t)
  {
    if Rematched(s, f, before, t) {
      var d :| d in f.detections && Overlaps(s, d.bbox, before.bbox)
        && t == WithTemplate(Refresh(s, before, d, f.now), f.view);
      TemplateStaysLarge(Refresh(s, before, d, f.now), f.view);
    }
  }

  lemma LargeOrigin(s: Settings, ops: seq<Op>, n: nat, t: Track) returns (before: Option<Track>)
    requires Runnable(ops) && n <= |ops| && t in TracksAfter(s, ops, n)
    ensures n > 0 && (before.None? ==> Large(t))
    ensures before.Some? ==> before.value in TracksAfter(s, ops, n - 1) && (Large(before.value) ==> Large(t))
  {
    before := RunOrigin(s, ops, n, t);
    if before.None? {
      StartedIsLarge(SceneOf(ops[n - 1]), t);
    } else if Large(before.value) {
      ContinuesLarge(s, SceneOf(ops[n - 1]), before.value, t);
    }
  }

  /** In every reachable state every template is at least 8 by 8. */
  lemma {:induction false} RunTemplatesLarge(s: Settings, ops: seq<Op>, n: nat, t: Track)
    requires Runnable(ops) && n <= |ops| && t in TracksAfter(s, ops, n)
    ensures Large(t)
  {
    var before := LargeOrigin(s, ops, n, t);
    if before.Some? {
      RunTemplatesLarge(s, ops, n - 1, before.value);
    }
  }

  /** Every rediscovery in any run lies inside its frame: the track is moved towards a
      place of the frame of at least 8 by 8 pixels. */
  lemma RediscoveriesInsideFrame(s: Settings, ops: seq<Op>, n: nat, before: Track, t: Track) returns (r: Rect)
    requires Runnable(ops) && 0 < n <= |ops| && ops[n - 1].Feed? && before in TracksAfter(s, ops, n - 1)
    requires Found(s, SceneOf(ops[n - 1]), before, t) && MatchesInside(ops[n - 1].view.value.frame)
    ensures var v := ops[n - 1].view.value;
      && InFrame(r, v.frame) && r.width >= 8 && r.height >= 8
      && t.bbox == Blend(before.bbox, Scale(r, v), s.visualAlpha)
  {
    var v := ops[n - 1].view.value;
    RunTemplatesLarge(s, ops, n - 1, before);
    LocatedInsideFrame(s, before, v);
    r := Locate(s, before, v).value.0;
  }
}
