/** When a track of a run can be strong although no detection fed to the run was: only
    with a negative threshold, a second hit, and grace periods that let the track live
    through both frames. */
module ObjectStrength {
  import opened Prelude
  import opened Geometry
  import opened StableSort
  import opened ObjectTracks
  import opened ObjectRuns
  import opened ObjectSteps

  /** A detection fed by the first `n` operations was strong by itself. */
  ghost predicate StrongFed(s: Settings, ops: seq<Op>, n: nat)
    requires n <= |ops|
  {
    exists k, d :: 0 <= k < n && ops[k].Feed? && d in ops[k].detections && MarginOf(d) >= s.strongVisualMargin
  }

  ghost predicate StrongOnlyWhenFed(s: Settings) {
    forall ops: seq<Op>, n: nat, t: Track ::
      Runnable(ops) && n <= |ops| && t in TracksAfter(s, ops, n) && IsStrong(s, t) ==> StrongFed(s, ops, n)
  }

  /** Some detection box can match some track box. */
  ghost predicate SecondHitPossible(s: Settings) {
    exists a, b :: Overlaps(s, a, b)
  }

  /** The settings under which decay alone can make a track strong. */
  ghost predicate CanStrengthen(s: Settings) {
    && s.strongVisualMargin < 0.0 && s.unconfirmedMaxMissed >= 0.0 && s.strongMaxMissed >= 0.0
    && SecondHitPossible(s)
  }

  // ---- otherwise a strong track has a strong detection ----

  /** What the induction carries: strong tracks, or all of them when weak ones do not
      outlive the frame that starts them. */
  predicate Suspect(s: Settings, t: Track) { IsStrong(s, t) || s.unconfirmedMaxMissed < 0.0 }

  ghost predicate StrongIn(s: Settings, ds: seq<Detection>) {
    exists d :: d in ds && MarginOf(d) >= s.strongVisualMargin
  }

  lemma StartedStrong(s: Settings, f: Scene, t: Track)
    requires Clamped(s) && Usable(f) && Started(f, t) && IsLive(s, t, f.now) && Suspect(s, t)
    ensures StrongIn(s, f.detections)
  {
    var d :| d in f.detections && t == WithTemplate(Birth(t.id, d, f.now), f.view);
    assert t.targetMargin == MarginOf(d);
  }

  lemma RematchedStrong(s: Settings, f: Scene, before: Track, t: Track)
    requires Clamped(s) && !CanStrengthen(s) && Usable(f)
    requires Rematched(s, f, before, t) && IsLive(s, t, f.now) && Suspect(s, t)
    ensures StrongIn(s, f.detections) || Suspect(s, before)
  {
    var d :| d in f.detections && Overlaps(s, d.bbox, before.bbox)
      && t == WithTemplate(Refresh(s, before, d, f.now), f.view);
    assert t.targetMargin == MaxReal(MarginOf(d), before.targetMargin * 0.90);
    assert SecondHitPossible(s);
  }

  lemma ContinuesStrong(s: Settings, f: Scene, before: Track, t: Track)
    requires Clamped(s) && !CanStrengthen(s) && Usable(f)
    requires Continues(s, f, before, t) && IsLive(s, t, f.now) && Suspect(s, t)
    ensures StrongIn(s, f.detections) || Suspect(s, before)
  {
    if Rematched(s, f, before, t) {
      RematchedStrong(s, f, before, t);
    }
  }

  lemma StrongFedLater(s: Settings, ops: seq<Op>, m: nat, n: nat)
    requires m <= n <= |ops|
    requires StrongFed(s, ops, m) || (0 < n && ops[n - 1].Feed? && StrongIn(s, ops[n - 1].detections))
    ensures StrongFed(s, ops, n)
  {
  }

  lemma StrongOrigin(s: Settings, ops: seq<Op>, n: nat, t: Track) returns (before: Option<Track>)
    requires Clamped(s) && !CanStrengthen(s) && Runnable(ops) && n <= |ops|
    requires t in TracksAfter(s, ops, n) && Suspect(s, t)
    ensures n > 0 && (before.None? ==> StrongFed(s, ops, n))
    ensures before.Some? ==> before.value in TracksAfter(s, ops, n - 1) && Suspect(s, before.value)
  {
    before := RunOrigin(s, ops, n, t);
    var f := SceneOf(ops[n - 1]);
    if before.None? {
      StartedStrong(s, f, t);
      StrongFedLater(s, ops, n, n);
    } else {
      ContinuesStrong(s, f, before.value, t);
      if StrongIn(s, f.detections) {
        StrongFedLater(s, ops, n, n);
        before := None;
      }
    }
  }

  lemma {:induction false} StrongWasFed(s: Settings, ops: seq<Op>, n: nat, t: Track)
    requires Clamped(s) && !CanStrengthen(s) && Runnable(ops) && n <= |ops|
    requires t in TracksAfter(s, ops, n) && Suspect(s, t)
    ensures StrongFed(s, ops, n)
  {
    var before := StrongOrigin(s, ops, n, t);
    if before.Some? {
      StrongWasFed(s, ops, n - 1, before.value);
      StrongFedLater(s, ops, n - 1, n);
    }
  }

  // ---- the input that shows the condition is needed ----

  lemma SortOne(d: Detection)
    ensures Sort([d], ByConfidence) == [d]
  {
    SortOfDescending([d], ByConfidence);
  }

  lemma FreshOne(s: Settings, t: Track, now: real)
    requires IsLive(s, t, now)
    ensures Fresh(s, [t], now) == [t]
  {
    assert [t][..0] == [];
  }

  lemma AssignOnly(s: Settings, l: Ledger, d: Detection, now: real)
    ensures Assign(s, l, [d], None, now) == AssignOne(s, l, d, None, now)
  {
    assert [d][..0] == [];
  }

  lemma FirstFrame(s: Settings, nextId: nat, d: Detection, now: real)
    requires Clamped(s) && s.unconfirmedMaxMissed >= 0.0 && MarginOf(d) < s.strongVisualMargin
    ensures Update(s, State([], nextId), [d], None, now).tracks == [Birth(nextId, d, now)]
  {
    var st, t := State([], nextId), Birth(nextId, d, now);
    SortOne(d);
    AssignOnly(s, Start(st), d, now);
    assert Match(s, Start(st), d.bbox).None?;
    assert Associated(s, st, [d], None, now).tracks == [t];
    assert Observed(s, st, [d], None, now) == [t];
    FreshOne(s, t, now);
  }

  lemma SecondFrame(s: Settings, t: Track, nextId: nat, d: Detection, now: real)
    requires Overlaps(s, d.bbox, t.bbox) && IsLive(s, Refresh(s, t, d, now), now)
    ensures Update(s, State([t], nextId), [d], None, now).tracks == [Refresh(s, t, d, now)]
  {
    var st, t' := State([t], nextId), Refresh(s, t, d, now);
    SortOne(d);
    AssignOnly(s, Start(st), d, now);
    assert Scores(s, Start(st), d.bbox)[0] == s.iou(d.bbox, t.bbox);
    assert Match(s, Start(st), d.bbox) == Some(0);
    assert Associated(s, st, [d], None, now).tracks == [t'];
    assert Observed(s, st, [d], None, now) == [t'];
    FreshOne(s, t', now);
  }

  function Weak(s: Settings, b: Box): Detection {
    Detection(b, None, None, None, Some(1.1 * s.strongVisualMargin))
  }

  /** Two weak detections, one on the other, in frames without an image. */
  function WeakTwice(s: Settings, a: Box, b: Box): seq<Op> {
    [Feed([Weak(s, b)], None, 0.0), Feed([Weak(s, a)], None, 1.0)]
  }

  lemma WeakTwiceIsStrong(s: Settings, a: Box, b: Box, ops: seq<Op>, n: nat) returns (t: Track)
    requires Clamped(s) && s.strongVisualMargin < 0.0 && s.unconfirmedMaxMissed >= 0.0 && s.strongMaxMissed >= 0.0
    requires Overlaps(s, a, b) && ops == WeakTwice(s, a, b) && n == 1 && Runnable(ops)
    ensures t in TracksAfter(s, ops, n + 1) && IsStrong(s, t) && !StrongFed(s, ops, n + 1)
  {
    var born := Birth(0, Weak(s, b), 0.0);
    t := Refresh(s, born, Weak(s, a), 1.0);
    assert ops[..n - 1] == [];
    NextState(s, ops, n);
    NextState(s, ops, n + 1);
    FirstFrame(s, 0, Weak(s, b), 0.0);
    assert StateAfter(s, ops, n).tracks == [born];
    SecondFrame(s, born, StateAfter(s, ops, n).nextId, Weak(s, a), 1.0);
  }

  /** In every run a strong track has a strong detection behind it, if and only if the
      threshold is not negative, or no detection can ever match a track, or a grace
      period ends the track with the frame. */
  lemma StrongOnlyWhenFedIff(s: Settings)
    requires Clamped(s)
    ensures StrongOnlyWhenFed(s) <==> !CanStrengthen(s)
  {
    if CanStrengthen(s) {
      var a, b :| Overlaps(s, a, b);
      var ops, n := WeakTwice(s, a, b), 1;
      assert forall i :: 0 <= i < |ops| ==> WellScaled(ops[i]);
      var t := WeakTwiceIsStrong(s, a, b, ops, n);
    } else {
      forall ops: seq<Op>, n: nat, t: Track |
        Runnable(ops) && n <= |ops| && t in TracksAfter(s, ops, n) && IsStrong(s, t)
        ensures StrongFed(s, ops, n)
      {
        StrongWasFed(s, ops, n, t);
      }
    }
  }

  /** With the repository's overlap ratio a second hit is possible exactly for the
      thresholds up to 1. */
  lemma SecondHitIff(s: Settings)
    requires s.iou == Iou
    ensures SecondHitPossible(s) <==> s.iouThreshold <= 1.0
  {
    if s.iouThreshold <= 1.0 {
      var b := Box(0.0, 0.0, 1.0, 1.0);
      IouOfSelf(b);
      assert Overlaps(s, b, b);
    }
    if a, b :| Overlaps(s, a, b) {
      IouAtMostOne(a, b);
    }
  }
}
