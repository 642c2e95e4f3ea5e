/** The tracker object of src/detection/detected_object_tracker.py: it updates its
    track objects in place, and every method is proved to perform the transition
    of the same name in ObjectTracks. */
module ObjectTracker {
  import opened Prelude
  import opened Geometry
  import opened StableSort
  import opened Association
  import opened ObjectLists
  import Spec = ObjectTracks

  class TrackedObject {
    const id: nat
    var bbox: Box
    var labelName: string
    var confidence: real
    var source: string
    var lastSeenAt: real
    var consecutiveHits: int
    var semanticHits: int
    var template: Option<Spec.Template>
    var visualScore: real
    var targetMargin: real

    constructor (id: nat, d: Spec.Detection, now: real)
      ensures Value() == Spec.Birth(id, d, now)
    {
      this.id := id;
      bbox := d.bbox;
      labelName := d.className.GetOr("object");
      confidence := Spec.ConfidenceOf(d);
      source := d.source.GetOr("detector");
      lastSeenAt := now;
      consecutiveHits, semanticHits := 1, 1;
      template := None;
      visualScore := 0.0;
      targetMargin := Spec.MarginOf(d);
    }

    function Value(): Spec.Track
      reads this
    {
      Spec.Track(id, bbox, labelName, confidence, source, lastSeenAt, consecutiveHits,
                 semanticHits, template, visualScore, targetMargin)
    }
  }

  /** The values of the track objects, in dictionary order. */
  ghost function ValuesOf(ts: seq<TrackedObject>): (r: seq<Spec.Track>)
    reads ts
    ensures |r| == |ts| && forall i :: 0 <= i < |ts| ==> r[i] == ts[i].Value()
  {
    seq(|ts|, i requires 0 <= i < |ts| reads ts => ts[i].Value())
  }

  lemma ValuesOfAppend(ts: seq<TrackedObject>, t: TrackedObject)
    ensures ValuesOf(ts + [t]) == ValuesOf(ts) + [t.Value()]
  {
  }

  class DetectedObjectTracker {
    const s: Spec.Settings
    var tracks: seq<TrackedObject>
    var nextId: nat
    ghost var Repr: set<TrackedObject>

    constructor (raw: Spec.Settings)
      ensures s == Spec.Clamp(raw) && Spec.Clamped(s)
      ensures Valid() && Repr == {} && tracks == [] && nextId == 0
    {
      s := Spec.Clamp(raw);
      tracks, nextId, Repr := [], 0, {};
    }

    ghost predicate Valid()
      reads this
    {
      Separate(tracks) && forall t :: t in tracks ==> t in Repr
    }

    ghost function Current(): Spec.State
      reads this, tracks
    {
      Spec.State(ValuesOf(tracks), nextId)
    }

    ghost function LedgerOf(taken: seq<nat>): Spec.Ledger
      reads this, tracks
    {
      Spec.Ledger(ValuesOf(tracks), nextId, taken)
    }

    /** Scan for the track of a box, skipping the ones already used. */
    method BestTrack(box: Box, usedIds: set<nat>, ghost taken: seq<nat>) returns (best: Option<nat>)
      requires forall id :: id in usedIds <==> id in taken
      ensures best == Spec.Match(s, LedgerOf(taken), box)
    {
      ghost var scores := Spec.Scores(s, LedgerOf(taken), box);
      best := None;
      var bestScore := 0.0;
      for i := 0 to |tracks|
        invariant best == FirstBest(scores[..i])
        invariant bestScore == if best.Some? then scores[best.value] else 0.0
      {
        assert scores[..i + 1][..i] == scores[..i];
        var t := tracks[i];
        if t.id !in usedIds {
          var score := s.iou(box, t.bbox);
          if score > bestScore {
            best, bestScore := Some(i), score;
          }
        }
      }
      assert scores[..|tracks|] == scores;
      if best.Some? && bestScore < s.iouThreshold {
        best := None;
      }
    }

    method CaptureTemplate(t: TrackedObject, v: Option<Spec.View>)
      requires Spec.Scaled(v)
      modifies t
      ensures t.Value() == Spec.WithTemplate(old(t.Value()), v)
    {
      if v.None? {
        return;
      }
      var f := v.value.frame;
      var b := Spec.SmallBox(t.bbox, v.value);
      var x1, y1 := Max(0, Round(b.x1)), Max(0, Round(b.y1));
      var x2, y2 := Min(f.width, Round(b.x2)), Min(f.height, Round(b.y2));
      if x2 - x1 < 8 || y2 - y1 < 8 {
        return;
      }
      var patch := Spec.Rect(x1, y1, x2 - x1, y2 - y1);
      var template := Spec.Template(patch.width, patch.height, f.pixels(patch));
      if f.spread(patch) >= 5.0 {
        t.template := Some(template);
      }
    }

    /** A matched detection overwrites the fields of its track. */
    method Refresh(t: TrackedObject, d: Spec.Detection, now: real)
      modifies t
      ensures t.Value() == Spec.Refresh(s, old(t.Value()), d, now)
    {
      var near := Within(Center(t.bbox), Center(d.bbox), s.maxCenterShift);
      t.consecutiveHits := if near then t.consecutiveHits + 1 else 1;
      t.semanticHits := t.semanticHits + 1;
      t.bbox := Blend(t.bbox, d.bbox, s.bboxAlpha);
      var newSource := d.source.GetOr(t.source);
      if t.source != "yolo_world" || newSource == "yolo_world" {
        t.labelName := d.className.GetOr(t.labelName);
        t.source := newSource;
      }
      t.confidence := MaxReal(Spec.ConfidenceOf(d), t.confidence * 0.90);
      t.targetMargin := MaxReal(Spec.MarginOf(d), t.targetMargin * 0.90);
      t.lastSeenAt := now;
    }

    method VisualUpdate(t: TrackedObject, v: Spec.View, now: real) returns (found: bool)
      requires v.scaleX != 0.0 && v.scaleY != 0.0
      modifies t
      ensures t.Value() == Spec.VisualUpdate(s, old(t.Value()), v, now)
      ensures found == Spec.Locate(s, old(t.Value()), v).Some?
    {
      var located := Spec.Locate(s, t.Value(), v);
      if located.None? {
        return false;
      }
      var seen := Spec.Scale(located.value.0, v);
      if t.semanticHits >= s.minHitsForStatic {
        var near := Within(Center(t.bbox), Center(seen), s.maxCenterShift);
        t.consecutiveHits := if near then t.consecutiveHits + 1 else 1;
      } else {
        t.consecutiveHits := 1;
      }
      t.bbox := Blend(t.bbox, seen, s.visualAlpha);
      t.lastSeenAt := now;
      t.visualScore := located.value.1;
      return true;
    }

    method NewTrack(d: Spec.Detection, v: Option<Spec.View>, now: real) returns (t: TrackedObject)
      requires Spec.Scaled(v)
      ensures fresh(t) && t.id == nextId
      ensures t.Value() == Spec.WithTemplate(Spec.Birth(nextId, d, now), v)
    {
      t := new TrackedObject(nextId, d, now);
      CaptureTemplate(t, v);
    }

    /** Start a track for a detection that matched nothing. */
    method Adopt(d: Spec.Detection, v: Option<Spec.View>, now: real, ghost taken: seq<nat>) returns (id: nat)
      requires Valid() && Spec.Scaled(v)
      modifies this
      ensures Valid() && fresh(Repr - old(Repr))
      ensures id == old(nextId)
      ensures LedgerOf(taken + [id])
           == Spec.Appended(old(LedgerOf(taken)), Spec.WithTemplate(Spec.Birth(id, d, now), v))
    {
      id := nextId;
      var t := NewTrack(d, v, now);
      ValuesOfAppend(tracks, t);
      tracks, nextId, Repr := tracks + [t], nextId + 1, Repr + {t};
    }

    /** Refresh the track a detection matched. */
    method Renew(i: nat, d: Spec.Detection, v: Option<Spec.View>, now: real, ghost taken: seq<nat>) returns (id: nat)
      requires Valid() && Spec.Scaled(v) && i < |tracks|
      modifies tracks[i]
      ensures id == tracks[i].id
      ensures LedgerOf(taken + [id])
           == Spec.Replaced(old(LedgerOf(taken)), i,
                            Spec.WithTemplate(Spec.Refresh(s, old(tracks[i].Value()), d, now), v))
    {
      ghost var before := ValuesOf(tracks);
      id := tracks[i].id;
      Refresh(tracks[i], d, now);
      CaptureTemplate(tracks[i], v);
      assert forall j :: 0 <= j < |tracks| && j != i ==> tracks[j].Value() == before[j];
      assert ValuesOf(tracks) == before[i := tracks[i].Value()];
    }

    /** One detection: start a track or refresh the best unused one. */
    method Associate(d: Spec.Detection, v: Option<Spec.View>, now: real, usedIds: set<nat>, ghost taken: seq<nat>)
      returns (usedIds': set<nat>, ghost taken': seq<nat>)
      requires Valid() && Spec.Scaled(v)
      requires forall id :: id in usedIds <==> id in taken
      modifies this, Repr
      ensures Valid() && fresh(Repr - old(Repr))
      ensures forall id :: id in usedIds' <==> id in taken'
      ensures LedgerOf(taken') == Spec.AssignOne(s, old(LedgerOf(taken)), d, v, now)
    {
      var best := BestTrack(d.bbox, usedIds, taken);
      var id;
      if best.None? {
        id := Adopt(d, v, now, taken);
      } else {
        id := Renew(best.value, d, v, now, taken);
      }
      usedIds', taken' := usedIds + {id}, taken + [id];
    }

    method SweepTrack(t: TrackedObject, v: Option<Spec.View>, now: real, usedIds: set<nat>, ghost taken: seq<nat>)
      requires Spec.Scaled(v) && forall id :: id in usedIds <==> id in taken
      modifies t
      ensures t.Value() == Spec.Swept(s, old(t.Value()), taken, v, now)
    {
      if s.visualEnabled && v.Some? && t.id !in usedIds {
        var found := VisualUpdate(t, v.value, now);
      }
    }

    /** Template matching of every track that no detection used. */
    method Sweep(v: Option<Spec.View>, now: real, usedIds: set<nat>, ghost taken: seq<nat>)
      requires Valid() && Spec.Scaled(v)
      requires forall id :: id in usedIds <==> id in taken
      modifies Repr
      ensures ValuesOf(tracks) == Spec.Sweep(s, old(LedgerOf(taken)), v, now)
    {
      ghost var l := LedgerOf(taken);
      ghost var swept := Spec.Sweep(s, l, v, now);
      for i := 0 to |tracks|
        invariant forall j :: 0 <= j < i ==> tracks[j].Value() == swept[j]
        invariant forall j :: i <= j < |tracks| ==> tracks[j].Value() == l.tracks[j]
      {
        assert forall j :: 0 <= j < |tracks| && j != i ==> tracks[j] != tracks[i];
        SweepTrack(tracks[i], v, now, usedIds, taken);
      }
      assert ValuesOf(tracks) == swept;
    }

    /** The track objects still within their grace period. */
    method LiveObjects(now: real) returns (kept: seq<TrackedObject>)
      requires Valid()
      ensures Separate(kept) && forall t :: t in kept ==> t in tracks
      ensures ValuesOf(kept) == Spec.Fresh(s, ValuesOf(tracks), now)
    {
      kept := [];
      ghost var all := ValuesOf(tracks);
      for i := 0 to |tracks|
        invariant KeptFrom(tracks, kept, i)
        invariant ValuesOf(kept) == Spec.Fresh(s, all[..i], now)
      {
        Spec.FreshStep(s, all, now, i);
        NotYetKept(tracks, kept, i);
        ValuesOfAppend(kept, tracks[i]);
        if Spec.IsLive(s, tracks[i].Value(), now) {
          kept := kept + [tracks[i]];
        }
      }
      assert all[..|tracks|] == all && tracks[..|tracks|] == tracks;
    }

    /** Remove the tracks unseen for longer than their grace period. */
    method Evict(now: real)
      requires Valid()
      modifies this`tracks
      ensures Valid()
      ensures ValuesOf(tracks) == Spec.Fresh(s, old(ValuesOf(tracks)), now)
    {
      tracks := LiveObjects(now);
    }

    /** Associate the detections, strongest first. */
    method AssociateAll(order: seq<Spec.Detection>, v: Option<Spec.View>, now: real)
      returns (usedIds: set<nat>, ghost taken: seq<nat>)
      requires Valid() && Spec.Scaled(v)
      modifies this, Repr
      ensures Valid()
      ensures fresh(Repr - old(Repr))
      ensures forall id :: id in usedIds <==> id in taken
      ensures LedgerOf(taken) == Spec.Assign(s, old(LedgerOf([])), order, v, now)
    {
      usedIds, taken := {}, [];
      ghost var start := LedgerOf([]);
      for k := 0 to |order|
        invariant Valid()
        invariant fresh(Repr - old(Repr))
        invariant forall id :: id in usedIds <==> id in taken
        invariant LedgerOf(taken) == Spec.Assign(s, start, order[..k], v, now)
      {
        Spec.AssignStep(s, start, order, v, now, k);
        usedIds, taken := Associate(order[k], v, now, usedIds, taken);
      }
      assert order[..|order|] == order;
    }

    /** Association, then template matching of the tracks left over. */
    method Observe(detections: seq<Spec.Detection>, view: Option<Spec.View>, now: real)
      requires Valid() && Spec.Scaled(view)
      modifies this, Repr
      ensures Valid() && fresh(Repr - old(Repr))
      ensures ValuesOf(tracks) == Spec.Observed(s, old(Current()), detections, view, now)
      ensures nextId == Spec.Associated(s, old(Current()), detections, view, now).nextId
    {
      var usedIds, taken := AssociateAll(Sort(detections, Spec.ByConfidence), view, now);
      Sweep(view, now, usedIds, taken);
    }

    method Update(detections: seq<Spec.Detection>, view: Option<Spec.View>, now: real)
      returns (observations: seq<Spec.Observation>)
      requires Valid() && Spec.Scaled(view)
      modifies this, Repr
      ensures Valid() && fresh(Repr - old(Repr))
      ensures Current() == Spec.Update(s, old(Current()), detections, view, now)
      ensures observations == Spec.Snapshot(s, Current().tracks, now)
    {
      Observe(detections, view, now);
      Evict(now);
      observations := Snapshot(now);
    }

    method LiveTracks(now: real) returns (live: seq<Spec.Track>)
      ensures live == Spec.Fresh(s, ValuesOf(tracks), now)
    {
      live := [];
      ghost var all := ValuesOf(tracks);
      for i := 0 to |tracks|
        invariant live == Spec.Fresh(s, all[..i], now)
      {
        Spec.FreshStep(s, all, now, i);
        var t := tracks[i].Value();
        if Spec.IsLive(s, t, now) {
          live := live + [t];
        }
      }
      assert all[..|tracks|] == all;
    }

    method IsDuplicate(t: Spec.Track, selected: seq<Spec.Track>) returns (duplicate: bool)
      ensures duplicate == Spec.Duplicate(s, t, selected)
    {
      duplicate := false;
      for j := 0 to |selected|
        invariant !duplicate && forall c :: 0 <= c < j ==> !Spec.Conflicts(s, t, selected[c])
      {
        if Spec.Conflicts(s, t, selected[j]) {
          return true;
        }
      }
    }

    /** Suppress duplicates among the live tracks and report the rest. */
    method Snapshot(now: real) returns (observations: seq<Spec.Observation>)
      ensures observations == Spec.Snapshot(s, ValuesOf(tracks), now)
    {
      var live := LiveTracks(now);
      var order := Sort(live, Spec.ByStrength);
      var selected: seq<Spec.Track> := [];
      for i := 0 to |order|
        invariant selected == Spec.Kept(s, order[..i])
      {
        assert order[..i + 1][..i] == order[..i];
        var duplicate := IsDuplicate(order[i], selected);
        if !duplicate {
          selected := selected + [order[i]];
        }
      }
      assert order[..|order|] == order;
      observations := Spec.Reports(s, selected);
    }

    method Clear()
      modifies this`tracks
      ensures Valid() && tracks == []
    {
      tracks := [];
    }
  }
}
