/** Values and transitions of src/detection/blob_tracker.py. */
module BlobTracks {
  import opened Prelude
  import opened Geometry
  import opened Association

  datatype Blob = Blob(id: nat, bbox: Box, lastSeenAt: real, consecutiveHits: int)

  datatype Settings = Settings(iou: (Box, Box) -> real, threshold: real, maxMissed: real, alpha: real)

  function Clamp(raw: Settings): (s: Settings)
    ensures 0.05 <= raw.alpha <= 1.0 ==> s == raw
    ensures MovedInto(0.05, 1.0, raw.alpha, s.alpha)
  {
    raw.(alpha := MinReal(1.0, MaxReal(0.05, raw.alpha)))
  }

  datatype Result = Result(objectId: nat, bbox: Box, isNew: bool, consecutiveHits: int)

  /** The blobs in dictionary order, the next fresh id, and the results so far. */
  datatype Ledger = Ledger(blobs: seq<Blob>, nextId: nat, results: seq<Result>)

  predicate IsUsed(results: seq<Result>, id: nat) {
    exists k :: 0 <= k < |results| && results[k].objectId == id
  }

  function Scores(s: Settings, l: Ledger, box: Box): (r: seq<real>)
    ensures |r| == |l.blobs|
  {
    seq(|l.blobs|, i requires 0 <= i < |l.blobs| =>
      if IsUsed(l.results, l.blobs[i].id) then 0.0 else s.iou(box, l.blobs[i].bbox))
  }

  function Match(s: Settings, l: Ledger, box: Box): (r: Option<nat>)
    ensures r.Some? ==> r.value < |l.blobs|
  {
    Accepted(Scores(s, l, box), s.threshold)
  }

  function Smoothed(s: Settings, b: Blob, box: Box, now: real): Blob {
    b.(bbox := Blend(b.bbox, box, s.alpha), lastSeenAt := now, consecutiveHits := b.consecutiveHits + 1)
  }

  function Appended(l: Ledger, box: Box, now: real): Ledger {
    Ledger(l.blobs + [Blob(l.nextId, box, now, 1)], l.nextId + 1, l.results + [Result(l.nextId, box, true, 1)])
  }

  function Replaced(l: Ledger, i: nat, b: Blob): Ledger
    requires i < |l.blobs|
  {
    Ledger(l.blobs[i := b], l.nextId, l.results + [Result(b.id, b.bbox, false, b.consecutiveHits)])
  }

  function AssignOne(s: Settings, l: Ledger, box: Box, now: real): Ledger {
    var m := Match(s, l, box);
    if m.Some? then Replaced(l, m.value, Smoothed(s, l.blobs[m.value], box, now)) else Appended(l, box, now)
  }

  function Assign(s: Settings, l: Ledger, boxes: seq<Box>, now: real): Ledger {
    if boxes == [] then l
    else AssignOne(s, Assign(s, l, boxes[..|boxes| - 1], now), boxes[|boxes| - 1], now)
  }

  lemma AssignStep(s: Settings, l: Ledger, boxes: seq<Box>, now: real, k: nat)
    requires k < |boxes|
    ensures Assign(s, l, boxes[..k + 1], now) == AssignOne(s, Assign(s, l, boxes[..k], now), boxes[k], now)
  {
    assert boxes[..k + 1][..k] == boxes[..k];
  }

  predicate IsLive(s: Settings, b: Blob, now: real) {
    now - b.lastSeenAt <= s.maxMissed
  }

  function Fresh(s: Settings, blobs: seq<Blob>, now: real): seq<Blob> {
    if blobs == [] then []
    else
      var n := |blobs| - 1;
      Fresh(s, blobs[..n], now) + if IsLive(s, blobs[n], now) then [blobs[n]] else []
  }

  lemma FreshStep(s: Settings, blobs: seq<Blob>, now: real, i: nat)
    requires i < |blobs|
    ensures Fresh(s, blobs[..i + 1], now)
         == Fresh(s, blobs[..i], now) + if IsLive(s, blobs[i], now) then [blobs[i]] else []
  {
    assert blobs[..i + 1][..i] == blobs[..i];
  }

  lemma {:induction false} FreshMember(s: Settings, blobs: seq<Blob>, now: real, b: Blob)
    ensures b in Fresh(s, blobs, now) <==> b in blobs && IsLive(s, b, now)
  {
    if blobs != [] {
      var n := |blobs| - 1;
      FreshMember(s, blobs[..n], now, b);
      assert blobs == blobs[..n] + [blobs[n]];
    }
  }

  lemma {:induction false} FreshOfLive(s: Settings, blobs: seq<Blob>, now: real)
    requires forall i :: 0 <= i < |blobs| ==> IsLive(s, blobs[i], now)
    ensures Fresh(s, blobs, now) == blobs
  {
    if blobs != [] {
      var n := |blobs| - 1;
      FreshOfLive(s, blobs[..n], now);
      assert blobs == blobs[..n] + [blobs[n]];
    }
  }

  datatype State = State(blobs: seq<Blob>, nextId: nat)

  function Start(st: State): Ledger { Ledger(st.blobs, st.nextId, []) }

  function Update(s: Settings, st: State, boxes: seq<Box>, now: real): State {
    var l := Assign(s, Start(st), boxes, now);
    State(Fresh(s, l.blobs, now), l.nextId)
  }

  function Results(s: Settings, st: State, boxes: seq<Box>, now: real): seq<Result> {
    Assign(s, Start(st), boxes, now).results
  }

  function Without(blobs: seq<Blob>, id: nat): seq<Blob> {
    if blobs == [] then []
    else
      var n := |blobs| - 1;
      Without(blobs[..n], id) + if blobs[n].id != id then [blobs[n]] else []
  }
}
