/** Runs of the blob tracker.  In general every box of a frame gets its own blob;
    boxes that stand still and apart keep their ids and coordinates for a whole
    run, in whatever order they are listed and whichever frames they miss. */
module BlobRuns {
  import opened Prelude
  import opened Geometry
  import opened Association
  import opened BlobTracks

  ghost predicate DistinctIds(blobs: seq<Blob>) {
    forall i, j :: 0 <= i < j < |blobs| ==> blobs[i].id != blobs[j].id
  }

  ghost predicate Sound(blobs: seq<Blob>, nextId: nat) {
    DistinctIds(blobs) && forall i :: 0 <= i < |blobs| ==> blobs[i].id < nextId
  }

  ghost predicate DistinctResults(rs: seq<Result>) {
    forall i, j :: 0 <= i < j < |rs| ==> rs[i].objectId != rs[j].objectId
  }

  /** The blob a result speaks of. */
  ghost predicate Reported(blobs: seq<Blob>, r: Result, now: real) {
    exists i :: 0 <= i < |blobs| && blobs[i] == Blob(r.objectId, r.bbox, now, r.consecutiveHits)
  }

  ghost predicate Good(l: Ledger, now: real) {
    && Sound(l.blobs, l.nextId)
    && DistinctResults(l.results)
    && (forall k :: 0 <= k < |l.results| ==> Reported(l.blobs, l.results[k], now))
  }

  lemma UsedIsReported(l: Ledger, now: real, id: nat)
    requires Good(l, now) && IsUsed(l.results, id)
    ensures exists i :: 0 <= i < |l.blobs| && l.blobs[i].id == id
  {
    var k :| 0 <= k < |l.results| && l.results[k].objectId == id;
    assert Reported(l.blobs, l.results[k], now);
  }

  lemma ReportedStays(blobs: seq<Blob>, blobs': seq<Blob>, r: Result, now: real)
    requires Reported(blobs, r, now) && |blobs| <= |blobs'|
    requires forall i :: 0 <= i < |blobs| && blobs[i].id == r.objectId ==> blobs'[i] == blobs[i]
    ensures Reported(blobs', r, now)
  {
    var i :| 0 <= i < |blobs| && blobs[i] == Blob(r.objectId, r.bbox, now, r.consecutiveHits);
    assert blobs'[i] == blobs[i];
  }

  lemma AppendKeepsGood(l: Ledger, box: Box, now: real)
    requires Good(l, now)
    ensures Good(Appended(l, box, now), now)
  {
    var l' := Appended(l, box, now);
    assert l'.blobs[|l.blobs|] == Blob(l.nextId, box, now, 1);
    forall k | 0 <= k < |l'.results| ensures Reported(l'.blobs, l'.results[k], now) {
      if k < |l.results| {
        ReportedStays(l.blobs, l'.blobs, l.results[k], now);
      }
    }
    forall k | 0 <= k < |l.results| ensures l.results[k].objectId != l.nextId {
      assert IsUsed(l.results, l.results[k].objectId);
      UsedIsReported(l, now, l.results[k].objectId);
    }
  }

  lemma ReplaceKeepsGood(l: Ledger, m: nat, b: Blob, now: real)
    requires Good(l, now) && m < |l.blobs| && b.id == l.blobs[m].id && b.lastSeenAt == now
    requires !IsUsed(l.results, b.id)
    ensures Good(Replaced(l, m, b), now)
  {
    var l' := Replaced(l, m, b);
    assert l'.blobs[m] == b;
    assert forall i :: 0 <= i < |l.blobs| ==> l'.blobs[i].id == l.blobs[i].id;
    forall k | 0 <= k < |l'.results| ensures Reported(l'.blobs, l'.results[k], now) {
      if k < |l.results| {
        ReportedStays(l.blobs, l'.blobs, l.results[k], now);
      }
    }
  }

  lemma MatchIsUnused(s: Settings, l: Ledger, box: Box)
    ensures var m := Match(s, l, box); m.Some? ==> !IsUsed(l.results, l.blobs[m.value].id)
  {
    var m := Match(s, l, box);
    if m.Some? {
      assert Scores(s, l, box)[m.value] > 0.0;
    }
  }

  lemma {:induction false} AssignIsGood(s: Settings, st: State, boxes: seq<Box>, now: real)
    requires Sound(st.blobs, st.nextId)
    ensures Good(Assign(s, Start(st), boxes, now), now)
    ensures |Assign(s, Start(st), boxes, now).results| == |boxes|
  {
    if boxes != [] {
      var n := |boxes| - 1;
      AssignIsGood(s, st, boxes[..n], now);
      var l := Assign(s, Start(st), boxes[..n], now);
      var m := Match(s, l, boxes[n]);
      MatchIsUnused(s, l, boxes[n]);
      if m.Some? {
        ReplaceKeepsGood(l, m.value, Smoothed(s, l.blobs[m.value], boxes[n], now), now);
      } else {
        AppendKeepsGood(l, boxes[n], now);
      }
    }
  }

  /** So far in the update: a result is marked new exactly when its id was issued in
      this update, and only used blobs have such ids. */
  ghost predicate NewMarked(st: State, l: Ledger) {
    && st.nextId <= l.nextId
    && (forall k :: 0 <= k < |l.results| ==> (l.results[k].isNew <==> l.results[k].objectId >= st.nextId))
    && (forall k :: 0 <= k < |l.results| && l.results[k].isNew ==> l.results[k].consecutiveHits == 1)
    && (forall i :: 0 <= i < |l.blobs| && l.blobs[i].id >= st.nextId ==> IsUsed(l.results, l.blobs[i].id))
  }

  lemma UsedStays(rs: seq<Result>, r: Result, id: nat)
    requires IsUsed(rs, id) || r.objectId == id
    ensures IsUsed(rs + [r], id)
  {
    if r.objectId == id {
      assert (rs + [r])[|rs|] == r;
    } else {
      var k :| 0 <= k < |rs| && rs[k].objectId == id;
      assert (rs + [r])[k].objectId == id;
    }
  }

  lemma NewMarkedStep(s: Settings, st: State, l: Ledger, box: Box, now: real)
    requires NewMarked(st, l)
    ensures NewMarked(st, AssignOne(s, l, box, now))
  {
    var l' := AssignOne(s, l, box, now);
    MatchIsUnused(s, l, box);
    assert forall k :: 0 <= k < |l.results| ==> l'.results[k] == l.results[k];
    forall i | 0 <= i < |l'.blobs| && l'.blobs[i].id >= st.nextId ensures IsUsed(l'.results, l'.blobs[i].id) {
      UsedStays(l.results, l'.results[|l.results|], l'.blobs[i].id);
    }
  }

  lemma {:induction false} AssignMarksNew(s: Settings, st: State, boxes: seq<Box>, now: real)
    requires Sound(st.blobs, st.nextId)
    ensures NewMarked(st, Assign(s, Start(st), boxes, now))
  {
    if boxes != [] {
      var n := |boxes| - 1;
      AssignMarksNew(s, st, boxes[..n], now);
      NewMarkedStep(s, st, Assign(s, Start(st), boxes[..n], now), boxes[n], now);
    }
  }

  /** `is_new` means what it says: a result is new exactly when its id was never used
      before this update, and then it counts its first hit. */
  lemma NewMeansNeverSeen(s: Settings, st: State, boxes: seq<Box>, now: real, k: nat)
    requires Sound(st.blobs, st.nextId) && k < |Results(s, st, boxes, now)|
    ensures var r := Results(s, st, boxes, now)[k];
      (r.isNew <==> r.objectId >= st.nextId) && (r.isNew ==> r.consecutiveHits == 1)
  {
    AssignMarksNew(s, st, boxes, now);
  }

  /** The box may match the blob. */
  predicate Overlaps(s: Settings, box: Box, b: Blob) {
    s.iou(box, b.bbox) > 0.0 && s.iou(box, b.bbox) >= s.threshold
  }

  /** The old blob moved part of the way to the box, and counts one more hit. */
  ghost predicate MovedTo(s: Settings, was: Blob, box: Box, now: real, b: Blob) {
    && b.id == was.id && b.lastSeenAt == now && b.consecutiveHits == was.consecutiveHits + 1
    && PartOfTheWay(was.bbox, box, s.alpha, b.bbox)
  }

  /** Blob `i` overlaps the box, and of the blobs that no earlier result used it is the
      first that overlaps it most. */
  ghost predicate IsChoice(s: Settings, st: State, box: Box, earlier: seq<Result>, i: int) {
    && 0 <= i < |st.blobs| && Overlaps(s, box, st.blobs[i]) && !IsUsed(earlier, st.blobs[i].id)
    && (forall j :: 0 <= j < |st.blobs| && !IsUsed(earlier, st.blobs[j].id) ==>
          && s.iou(box, st.blobs[j].bbox) <= s.iou(box, st.blobs[i].bbox)
          && (j < i ==> s.iou(box, st.blobs[j].bbox) < s.iou(box, st.blobs[i].bbox)))
  }

  ghost predicate NoChoice(s: Settings, st: State, box: Box, earlier: seq<Result>) {
    forall j :: 0 <= j < |st.blobs| && !IsUsed(earlier, st.blobs[j].id) ==> !Overlaps(s, box, st.blobs[j])
  }

  /** What the result for a box says, given the blobs before the update and the results
      before it. */
  ghost predicate Tells(s: Settings, st: State, box: Box, now: real, earlier: seq<Result>, r: Result) {
    if r.isNew then r.bbox == box && r.consecutiveHits == 1 && NoChoice(s, st, box, earlier)
    else
      exists i :: IsChoice(s, st, box, earlier, i)
        && MovedTo(s, st.blobs[i], box, now, Blob(r.objectId, r.bbox, now, r.consecutiveHits))
  }

  /** So far in the update every blob is an old one at its old place or used. */
  ghost predicate OldOrUsed(st: State, l: Ledger) {
    && |st.blobs| <= |l.blobs|
    && (forall i :: 0 <= i < |st.blobs| ==> l.blobs[i].id == st.blobs[i].id)
    && (forall i :: 0 <= i < |l.blobs| ==>
          IsUsed(l.results, l.blobs[i].id) || (i < |st.blobs| && l.blobs[i] == st.blobs[i]))
  }

  lemma OldOrUsedStep(s: Settings, st: State, l: Ledger, box: Box, now: real)
    requires OldOrUsed(st, l)
    ensures OldOrUsed(st, AssignOne(s, l, box, now))
  {
    var l' := AssignOne(s, l, box, now);
    var r := l'.results[|l.results|];
    forall id | IsUsed(l.results, id) || r.objectId == id ensures IsUsed(l'.results, id) {
      UsedStays(l.results, r, id);
    }
  }

  lemma UnusedScore(s: Settings, st: State, l: Ledger, box: Box, j: nat)
    requires OldOrUsed(st, l) && j < |st.blobs| && !IsUsed(l.results, st.blobs[j].id)
    ensures Scores(s, l, box)[j] == s.iou(box, st.blobs[j].bbox)
  {
  }

  lemma MatchIsChoice(s: Settings, st: State, l: Ledger, box: Box)
    requires OldOrUsed(st, l)
    ensures var m := Match(s, l, box);
      if m.Some? then IsChoice(s, st, box, l.results, m.value) && l.blobs[m.value] == st.blobs[m.value]
      else NoChoice(s, st, box, l.results)
  {
    MatchIsUnused(s, l, box);
    forall j | 0 <= j < |st.blobs| && !IsUsed(l.results, st.blobs[j].id)
      ensures Scores(s, l, box)[j] == s.iou(box, st.blobs[j].bbox)
    {
      UnusedScore(s, st, l, box, j);
    }
  }

  lemma NewestTells(s: Settings, st: State, l: Ledger, box: Box, now: real)
    requires OldOrUsed(st, l)
    ensures Tells(s, st, box, now, l.results, AssignOne(s, l, box, now).results[|l.results|])
  {
    var m := Match(s, l, box);
    MatchIsChoice(s, st, l, box);
    if m.Some? {
      BlendIsPartOfTheWay(l.blobs[m.value].bbox, box, s.alpha);
      assert MovedTo(s, st.blobs[m.value], box, now, Smoothed(s, l.blobs[m.value], box, now));
    }
  }

  ghost predicate AllTell(s: Settings, st: State, rs: seq<Result>, boxes: seq<Box>, now: real) {
    |rs| == |boxes| && forall k :: 0 <= k < |boxes| ==> Tells(s, st, boxes[k], now, rs[..k], rs[k])
  }

  lemma AllTellStep(s: Settings, st: State, rs: seq<Result>, r: Result, boxes: seq<Box>, box: Box, now: real)
    requires AllTell(s, st, rs, boxes, now) && Tells(s, st, box, now, rs, r)
    ensures AllTell(s, st, rs + [r], boxes + [box], now)
  {
    forall k | 0 <= k < |boxes| + 1 ensures Tells(s, st, (boxes + [box])[k], now, (rs + [r])[..k], (rs + [r])[k]) {
      assert (rs + [r])[..k] == if k < |rs| then rs[..k] else rs;
    }
  }

  lemma {:induction false} AssignTells(s: Settings, st: State, boxes: seq<Box>, now: real)
    ensures var l := Assign(s, Start(st), boxes, now); AllTell(s, st, l.results, boxes, now) && OldOrUsed(st, l)
  {
    if boxes != [] {
      var n := |boxes| - 1;
      var l := Assign(s, Start(st), boxes[..n], now);
      AssignTells(s, st, boxes[..n], now);
      NewestTells(s, st, l, boxes[n], now);
      OldOrUsedStep(s, st, l, boxes[n], now);
      AllTellStep(s, st, l.results, AssignOne(s, l, boxes[n], now).results[n], boxes[..n], boxes[n], now);
      assert boxes == boxes[..n] + [boxes[n]];
    }
  }

  /** Result by result, in the order of the boxes: a box that overlaps no blob left over by
      the boxes before it starts a new blob, which takes the box as it is; any other box goes
      to the one it overlaps most, which moves part of the way to it on every edge and counts
      one more hit. */
  lemma ResultsTell(s: Settings, st: State, boxes: seq<Box>, now: real, k: nat)
    requires k < |boxes|
    ensures var rs := Results(s, st, boxes, now);
      && |rs| == |boxes|
      && if rs[k].isNew then
           rs[k].bbox == boxes[k] && rs[k].consecutiveHits == 1 && NoChoice(s, st, boxes[k], rs[..k])
         else
           exists i :: IsChoice(s, st, boxes[k], rs[..k], i)
             && MovedTo(s, st.blobs[i], boxes[k], now, Blob(rs[k].objectId, rs[k].bbox, now, rs[k].consecutiveHits))
  {
    AssignTells(s, st, boxes, now);
  }

  /** A blob that no result used stays as it is, exactly within the grace period. */
  lemma UnusedBlobStaysIff(s: Settings, st: State, boxes: seq<Box>, now: real, i: nat)
    requires Sound(st.blobs, st.nextId) && i < |st.blobs|
    requires !IsUsed(Results(s, st, boxes, now), st.blobs[i].id)
    ensures st.blobs[i] in Update(s, st, boxes, now).blobs <==> now - st.blobs[i].lastSeenAt <= s.maxMissed
  {
    var l := Assign(s, Start(st), boxes, now);
    AssignTells(s, st, boxes, now);
    FreshMember(s, l.blobs, now, st.blobs[i]);
    assert l.blobs[i] == st.blobs[i];
  }

  lemma {:induction false} FreshKeepsSound(s: Settings, blobs: seq<Blob>, nextId: nat, now: real)
    requires Sound(blobs, nextId)
    ensures Sound(Fresh(s, blobs, now), nextId)
  {
    if blobs != [] {
      var n := |blobs| - 1;
      FreshKeepsSound(s, blobs[..n], nextId, now);
      forall b | b in Fresh(s, blobs[..n], now) ensures b.id != blobs[n].id {
        FreshMember(s, blobs[..n], now, b);
      }
    }
  }

  /** Any boxes at all: an update returns one result per box, with distinct ids,
      and each result's blob is tracked afterwards if and only if the grace period
      is not negative. */
  lemma UpdateReportsEveryBox(s: Settings, st: State, boxes: seq<Box>, now: real)
    requires Sound(st.blobs, st.nextId)
    ensures var rs, st' := Results(s, st, boxes, now), Update(s, st, boxes, now);
      && |rs| == |boxes| && DistinctResults(rs) && Sound(st'.blobs, st'.nextId)
      && (forall k :: 0 <= k < |rs| ==> (Reported(st'.blobs, rs[k], now) <==> s.maxMissed >= 0.0))
  {
    AssignIsGood(s, st, boxes, now);
    var l := Assign(s, Start(st), boxes, now);
    FreshKeepsSound(s, l.blobs, l.nextId, now);
    forall k | 0 <= k < |l.results|
      ensures Reported(Update(s, st, boxes, now).blobs, l.results[k], now) <==> s.maxMissed >= 0.0
    {
      var r := l.results[k];
      var b := Blob(r.objectId, r.bbox, now, r.consecutiveHits);
      assert Reported(l.blobs, r, now);
      FreshMember(s, l.blobs, now, b);
      assert Reported(Update(s, st, boxes, now).blobs, r, now) <==> b in Update(s, st, boxes, now).blobs;
    }
  }

  // ---- whole runs, with blobs forgotten and cleared ----

  datatype Frame = Frame(boxes: seq<Box>, now: real)

  datatype Event = Seen(frame: Frame) | Forgotten(id: nat) | Cleared

  function Next(s: Settings, st: State, e: Event): State {
    match e
    case Seen(f) => Update(s, st, f.boxes, f.now)
    case Forgotten(id) => State(Without(st.blobs, id), st.nextId)
    case Cleared => State([], st.nextId)
  }

  function After(s: Settings, es: seq<Event>): State {
    if es == [] then State([], 0) else Next(s, After(s, es[..|es| - 1]), es[|es| - 1])
  }

  /** Forgetting keeps exactly the other blobs. */
  lemma {:induction false} WithoutMember(blobs: seq<Blob>, id: nat, b: Blob)
    ensures b in Without(blobs, id) <==> b in blobs && b.id != id
  {
    if blobs != [] {
      var n := |blobs| - 1;
      WithoutMember(blobs[..n], id, b);
      assert blobs == blobs[..n] + [blobs[n]];
    }
  }

  lemma {:induction false} WithoutKeepsSound(blobs: seq<Blob>, nextId: nat, id: nat)
    requires Sound(blobs, nextId)
    ensures Sound(Without(blobs, id), nextId)
  {
    if blobs != [] {
      var n := |blobs| - 1;
      WithoutKeepsSound(blobs[..n], nextId, id);
      forall b | b in Without(blobs[..n], id) ensures b.id != blobs[n].id {
        WithoutMember(blobs[..n], id, b);
      }
    }
  }

  lemma NextKeepsSound(s: Settings, st: State, e: Event)
    requires Sound(st.blobs, st.nextId)
    ensures var st' := Next(s, st, e); Sound(st'.blobs, st'.nextId)
  {
    match e
    case Seen(f) => UpdateReportsEveryBox(s, st, f.boxes, f.now);
    case Forgotten(id) => WithoutKeepsSound(st.blobs, st.nextId, id);
    case Cleared =>
  }

  /** In every reachable state the ids are unique and already issued. */
  lemma {:induction false} ReachableIsSound(s: Settings, es: seq<Event>)
    ensures Sound(After(s, es).blobs, After(s, es).nextId)
  {
    if es != [] {
      ReachableIsSound(s, es[..|es| - 1]);
      NextKeepsSound(s, After(s, es[..|es| - 1]), es[|es| - 1]);
    }
  }

  ghost predicate Holds(blobs: seq<Blob>, id: nat) {
    exists i :: 0 <= i < |blobs| && blobs[i].id == id
  }

  /** The id was issued and no blob has it any more. */
  ghost predicate Gone(st: State, id: nat) {
    id < st.nextId && !Holds(st.blobs, id)
  }

  /** So far in the update the id has not come back. */
  ghost predicate StillGone(l: Ledger, id: nat) {
    id < l.nextId && !Holds(l.blobs, id) && !IsUsed(l.results, id)
  }

  lemma StillGoneStep(s: Settings, l: Ledger, box: Box, now: real, id: nat)
    requires StillGone(l, id)
    ensures StillGone(AssignOne(s, l, box, now), id)
  {
    var l' := AssignOne(s, l, box, now);
    forall i | 0 <= i < |l'.blobs| ensures l'.blobs[i].id != id {
      if i < |l.blobs| {
        assert l'.blobs[i].id == l.blobs[i].id;
      }
    }
    forall k | 0 <= k < |l'.results| ensures l'.results[k].objectId != id {
      if k < |l.results| {
        assert l'.results[k] == l.results[k];
      }
    }
  }

  lemma {:induction false} AssignLeavesGone(s: Settings, st: State, boxes: seq<Box>, now: real, id: nat)
    requires Gone(st, id)
    ensures StillGone(Assign(s, Start(st), boxes, now), id)
  {
    if boxes != [] {
      var n := |boxes| - 1;
      AssignLeavesGone(s, st, boxes[..n], now, id);
      StillGoneStep(s, Assign(s, Start(st), boxes[..n], now), boxes[n], now, id);
    }
  }

  lemma NextLeavesGone(s: Settings, st: State, e: Event, id: nat)
    requires Gone(st, id)
    ensures Gone(Next(s, st, e), id)
  {
    match e
    case Seen(f) =>
      AssignLeavesGone(s, st, f.boxes, f.now, id);
      var l := Assign(s, Start(st), f.boxes, f.now);
      forall b | b in Fresh(s, l.blobs, f.now) ensures b.id != id {
        FreshMember(s, l.blobs, f.now, b);
      }
    case Forgotten(other) =>
      forall b | b in Without(st.blobs, other) ensures b.id != id {
        WithoutMember(st.blobs, other, b);
      }
    case Cleared =>
  }

  /** An id that a run lost, by eviction, forgetting or clearing, never comes back: no
      later state holds it and no later update reports it. */
  lemma GoneForGood(s: Settings, es: seq<Event>, m: nat, n: nat, id: nat)
    requires m <= n <= |es| && Gone(After(s, es[..m]), id)
    ensures Gone(After(s, es[..n]), id)
    ensures n < |es| && es[n].Seen? ==>
      !IsUsed(Results(s, After(s, es[..n]), es[n].frame.boxes, es[n].frame.now), id)
  {
    var flags := seq(|es| + 1, k requires 0 <= k <= |es| => Gone(After(s, es[..k]), id));
    forall k | 0 < k < |flags| && flags[k - 1] ensures flags[k] {
      assert es[..k][..k - 1] == es[..k - 1];
      NextLeavesGone(s, After(s, es[..k - 1]), es[k - 1], id);
    }
    StaysTrue(flags, m, n);
    if n < |es| && es[n].Seen? {
      AssignLeavesGone(s, After(s, es[..n]), es[n].frame.boxes, es[n].frame.now, id);
    }
  }

  /** Forgetting an id makes it gone exactly if it was ever issued. */
  lemma ForgetMakesGoneIff(s: Settings, st: State, id: nat)
    ensures Gone(Next(s, st, Forgotten(id)), id) <==> id < st.nextId
  {
    forall b | b in Without(st.blobs, id) ensures b.id != id {
      WithoutMember(st.blobs, id, b);
    }
  }

  // ---- identity stability ----

  /** The frame lists some boxes of the world, each at most once. */
  ghost predicate Lists(f: Frame, world: set<Box>) {
    && (forall i :: 0 <= i < |f.boxes| ==> f.boxes[i] in world)
    && (forall i, j :: 0 <= i < j < |f.boxes| ==> f.boxes[i] != f.boxes[j])
  }

  function Run(s: Settings, fs: seq<Frame>): State {
    if fs == [] then State([], 0)
    else Update(s, Run(s, fs[..|fs| - 1]), fs[|fs| - 1].boxes, fs[|fs| - 1].now)
  }

  /** A run of frames is a run of events in which nothing is forgotten or cleared. */
  lemma {:induction false} FramesAreEvents(s: Settings, fs: seq<Frame>)
    ensures Run(s, fs) == After(s, seq(|fs|, i requires 0 <= i < |fs| => Seen(fs[i])))
  {
    if fs != [] {
      var n := |fs| - 1;
      var es := seq(|fs|, i requires 0 <= i < |fs| => Seen(fs[i]));
      FramesAreEvents(s, fs[..n]);
      assert es[..n] == seq(n, i requires 0 <= i < n => Seen(fs[..n][i]));
    }
  }

  /** When a box was last listed. */
  function LastSeen(fs: seq<Frame>, b: Box): Option<real> {
    if fs == [] then None
    else
      var f := fs[|fs| - 1];
      if b in f.boxes then Some(f.now) else LastSeen(fs[..|fs| - 1], b)
  }

  /** How many frames listed a box. */
  function Listings(fs: seq<Frame>, b: Box): nat {
    if fs == [] then 0
    else Listings(fs[..|fs| - 1], b) + if b in fs[|fs| - 1].boxes then 1 else 0
  }

  /** A box was seen exactly if some frame listed it. */
  lemma {:induction false} SeenMeansListed(fs: seq<Frame>, b: Box)
    ensures LastSeen(fs, b).Some? <==> Listings(fs, b) > 0
  {
    if fs != [] {
      SeenMeansListed(fs[..|fs| - 1], b);
    }
  }

  /** No frame comes later than the grace period after the last sighting of a box
      that it does not list itself. */
  ghost predicate Timely(s: Settings, fs: seq<Frame>) {
    forall i, b :: 0 <= i < |fs| && LastSeen(fs[..i], b).Some? && b !in fs[i].boxes ==>
      fs[i].now - LastSeen(fs[..i], b).value <= s.maxMissed
  }

  ghost predicate HasBox(blobs: seq<Blob>, i: int, b: Box) {
    0 <= i < |blobs| && blobs[i].bbox == b
  }

  /** One blob per box, at the box. */
  ghost predicate Steady(blobs: seq<Blob>, world: set<Box>) {
    && (forall i :: 0 <= i < |blobs| ==> blobs[i].bbox in world)
    && (forall i, j :: 0 <= i < j < |blobs| ==> blobs[i].bbox != blobs[j].bbox)
  }

  /** The hits of the blob at this position before the frame. */
  function HitsBefore(st: State, i: nat): int {
    if i < |st.blobs| then st.blobs[i].consecutiveHits else 0
  }

  ghost predicate Known(blobs: seq<Blob>, b: Box) {
    exists i :: HasBox(blobs, i, b)
  }

  /** Every done box counted one hit, and its result is new exactly if the box was not
      known before the frame. */
  ghost predicate Counts(st: State, l: Ledger, done: seq<Box>) {
    && |l.results| == |done|
    && (forall i :: 0 <= i < |l.blobs| && l.blobs[i].bbox in done ==>
      l.blobs[i].consecutiveHits == HitsBefore(st, i) + 1)
    && (forall k :: 0 <= k < |done| ==> (l.results[k].isNew <==> !Known(st.blobs, done[k])))
  }

  ghost predicate UsedIsDone(l: Ledger, done: seq<Box>) {
    forall i :: 0 <= i < |l.blobs| ==> (IsUsed(l.results, l.blobs[i].id) <==> l.blobs[i].bbox in done)
  }

  /** After the boxes `done` of a frame at `now`: the old blobs are in place with
      their ids and boxes, a blob is used exactly if its box is done, and every done
      box has the result its blob dictates. */
  ghost predicate Settled(st: State, l: Ledger, done: seq<Box>, now: real, world: set<Box>) {
    && Steady(l.blobs, world)
    && |l.blobs| >= |st.blobs| && |l.results| == |done|
    && (forall i :: 0 <= i < |st.blobs| ==> l.blobs[i].id == st.blobs[i].id && l.blobs[i].bbox == st.blobs[i].bbox)
    && (forall i :: 0 <= i < |l.blobs| && l.blobs[i].bbox in done ==> l.blobs[i].lastSeenAt == now)
    && (forall i :: 0 <= i < |l.blobs| && l.blobs[i].bbox !in done ==> i < |st.blobs| && l.blobs[i] == st.blobs[i])
    && UsedIsDone(l, done)
    && (forall k :: 0 <= k < |done| ==> l.results[k].bbox == done[k])
    && Counts(st, l, done)
  }

  /** A box whose blob exists finds exactly that blob; an unknown box finds none. */
  lemma MatchFindsOwnBlob(s: Settings, st: State, l: Ledger, done: seq<Box>, now: real, world: set<Box>, b: Box, m: nat)
    requires ToldApart(s.iou, s.threshold, world) && Settled(st, l, done, now, world)
    requires b in world && b !in done
    requires m <= |l.blobs| && (m < |l.blobs| ==> l.blobs[m].bbox == b)
    requires m == |l.blobs| ==> forall i :: 0 <= i < |l.blobs| ==> l.blobs[i].bbox != b
    ensures Match(s, l, b) == if m < |l.blobs| then Some(m) else None
  {
    var scores := Scores(s, l, b);
    forall i | 0 <= i < |l.blobs| ensures i != m ==> scores[i] <= 0.0 {
      if i != m {
        assert l.blobs[i].bbox != b;
      }
    }
    if m < |l.blobs| {
      assert scores[m] == s.iou(b, b);
      FirstBestUnique(scores, Some(m));
    } else {
      FirstBestUnique(scores, None);
    }
  }

  lemma UsedAfter(rs: seq<Result>, r: Result, id: nat)
    ensures IsUsed(rs + [r], id) <==> IsUsed(rs, id) || id == r.objectId
  {
    assert (rs + [r])[|rs|] == r;
    if IsUsed(rs, id) {
      var k :| 0 <= k < |rs| && rs[k].objectId == id;
      assert (rs + [r])[k].objectId == id;
    }
  }

  lemma CountsAppends(st: State, l: Ledger, done: seq<Box>, now: real, b: Box)
    requires Counts(st, l, done) && b !in done && |st.blobs| <= |l.blobs|
    requires forall i :: 0 <= i < |st.blobs| ==> st.blobs[i].bbox != b
    requires forall i :: 0 <= i < |l.blobs| ==> l.blobs[i].bbox != b
    ensures Counts(st, Appended(l, b, now), done + [b])
  {
  }

  lemma CountsReplaces(st: State, l: Ledger, done: seq<Box>, m: nat, blob: Blob)
    requires Counts(st, l, done) && blob.bbox !in done && m < |l.blobs| && m < |st.blobs|
    requires st.blobs[m].bbox == blob.bbox && blob.consecutiveHits == st.blobs[m].consecutiveHits + 1
    requires forall i :: 0 <= i < |l.blobs| && i != m ==> l.blobs[i].bbox != blob.bbox
    ensures Counts(st, Replaced(l, m, blob), done + [blob.bbox])
  {
    assert HasBox(st.blobs, m, blob.bbox);
  }

  lemma UsedAppends(l: Ledger, done: seq<Box>, now: real, b: Box)
    requires UsedIsDone(l, done) && Sound(l.blobs, l.nextId)
    requires forall i :: 0 <= i < |l.blobs| ==> l.blobs[i].bbox != b
    ensures UsedIsDone(Appended(l, b, now), done + [b])
  {
    var l' := Appended(l, b, now);
    forall i | 0 <= i < |l'.blobs|
      ensures IsUsed(l'.results, l'.blobs[i].id) <==> l'.blobs[i].bbox in done + [b]
    {
      UsedAfter(l.results, l'.results[|l.results|], l'.blobs[i].id);
    }
  }

  lemma SettledAppends(st: State, l: Ledger, done: seq<Box>, now: real, world: set<Box>, b: Box)
    requires Settled(st, l, done, now, world) && b in world && b !in done && Sound(l.blobs, l.nextId)
    requires forall i :: 0 <= i < |l.blobs| ==> l.blobs[i].bbox != b
    ensures Settled(st, Appended(l, b, now), done + [b], now, world)
  {
    assert forall i :: 0 <= i < |st.blobs| ==> st.blobs[i].bbox == l.blobs[i].bbox;
    CountsAppends(st, l, done, now, b);
    UsedAppends(l, done, now, b);
  }

  lemma UsedReplaces(l: Ledger, done: seq<Box>, m: nat, blob: Blob)
    requires UsedIsDone(l, done) && DistinctIds(l.blobs) && m < |l.blobs|
    requires l.blobs[m].bbox == blob.bbox && blob.id == l.blobs[m].id
    requires forall i :: 0 <= i < |l.blobs| && i != m ==> l.blobs[i].bbox != blob.bbox
    ensures UsedIsDone(Replaced(l, m, blob), done + [blob.bbox])
  {
    var l' := Replaced(l, m, blob);
    forall i | 0 <= i < |l'.blobs|
      ensures IsUsed(l'.results, l'.blobs[i].id) <==> l'.blobs[i].bbox in done + [blob.bbox]
    {
      UsedAfter(l.results, l'.results[|l.results|], l'.blobs[i].id);
      if i != m {
        assert l.blobs[i].id != l.blobs[m].id;
      }
    }
  }

  lemma SmoothedInPlace(s: Settings, old_: Blob, b: Box, now: real)
    requires old_.bbox == b
    ensures Smoothed(s, old_, b, now) == old_.(lastSeenAt := now, consecutiveHits := old_.consecutiveHits + 1)
  {
    BlendOfEqualBoxes(b, s.alpha);
  }

  lemma SettledReplaces(st: State, l: Ledger, done: seq<Box>, now: real, world: set<Box>, m: nat, blob: Blob)
    requires Settled(st, l, done, now, world) && blob.bbox !in done && m < |l.blobs| && DistinctIds(l.blobs)
    requires blob == l.blobs[m].(lastSeenAt := now, consecutiveHits := l.blobs[m].consecutiveHits + 1)
    ensures Settled(st, Replaced(l, m, blob), done + [blob.bbox], now, world)
  {
    CountsReplaces(st, l, done, m, blob);
    UsedReplaces(l, done, m, blob);
  }

  lemma BoxSettles(s: Settings, st: State, l: Ledger, done: seq<Box>, now: real, world: set<Box>, b: Box)
    requires ToldApart(s.iou, s.threshold, world) && Settled(st, l, done, now, world) && b in world && b !in done
    requires Sound(l.blobs, l.nextId)
    ensures Settled(st, AssignOne(s, l, b, now), done + [b], now, world)
  {
    if m :| 0 <= m < |l.blobs| && l.blobs[m].bbox == b {
      MatchFindsOwnBlob(s, st, l, done, now, world, b, m);
      SmoothedInPlace(s, l.blobs[m], b, now);
      SettledReplaces(st, l, done, now, world, m, Smoothed(s, l.blobs[m], b, now));
    } else {
      MatchFindsOwnBlob(s, st, l, done, now, world, b, |l.blobs|);
      SettledAppends(st, l, done, now, world, b);
    }
  }

  lemma {:induction false} FrameSettles(s: Settings, st: State, boxes: seq<Box>, now: real, world: set<Box>)
    requires ToldApart(s.iou, s.threshold, world) && Lists(Frame(boxes, now), world)
    requires Sound(st.blobs, st.nextId) && Steady(st.blobs, world)
    ensures Settled(st, Assign(s, Start(st), boxes, now), boxes, now, world)
  {
    if boxes != [] {
      var n := |boxes| - 1;
      var done, b := boxes[..n], boxes[n];
      assert boxes == done + [b];
      FrameSettles(s, st, done, now, world);
      AssignIsGood(s, st, done, now);
      BoxSettles(s, st, Assign(s, Start(st), done, now), done, now, world, b);
    }
  }

  /** The blobs of `a` keep their places, ids and boxes in `b`. */
  ghost predicate Extends(a: seq<Blob>, b: seq<Blob>) {
    |a| <= |b| && forall i :: 0 <= i < |a| ==> b[i].id == a[i].id && b[i].bbox == a[i].bbox
  }

  /** The tracker holds one blob for every box seen so far, last seen when it was and
      with one hit for every frame that listed it. */
  ghost predicate Standing(s: Settings, fs: seq<Frame>, world: set<Box>) {
    var st := Run(s, fs);
    Sound(st.blobs, st.nextId) && Steady(st.blobs, world) && Remembers(fs, st.blobs)
  }

  ghost predicate IsRecord(fs: seq<Frame>, b: Blob) {
    LastSeen(fs, b.bbox) == Some(b.lastSeenAt) && b.consecutiveHits == Listings(fs, b.bbox)
  }

  ghost predicate Peaceful(s: Settings, fs: seq<Frame>, world: set<Box>) {
    && ToldApart(s.iou, s.threshold, world) && s.maxMissed >= 0.0
    && (forall i :: 0 <= i < |fs| ==> Lists(fs[i], world))
    && Timely(s, fs)
  }

  lemma PeacefulPrefix(s: Settings, fs: seq<Frame>, world: set<Box>, n: nat)
    requires Peaceful(s, fs, world) && n <= |fs|
    ensures Peaceful(s, fs[..n], world)
  {
    forall i, b | 0 <= i < n && LastSeen(fs[..n][..i], b).Some? && b !in fs[..n][i].boxes
      ensures fs[..n][i].now - LastSeen(fs[..n][..i], b).value <= s.maxMissed
    {
      assert fs[..n][..i] == fs[..i];
    }
  }

  /** Before eviction the frame has settled; within the grace period nothing is
      evicted. */
  lemma NothingEvicted(s: Settings, fs: seq<Frame>, world: set<Box>)
    requires fs != [] && Peaceful(s, fs, world)
    requires var front := fs[..|fs| - 1]; Standing(s, front, world)
    ensures var front, f := fs[..|fs| - 1], fs[|fs| - 1];
      var l := Assign(s, Start(Run(s, front)), f.boxes, f.now);
      && Settled(Run(s, front), l, f.boxes, f.now, world) && Good(l, f.now)
      && Run(s, fs) == State(l.blobs, l.nextId)
  {
    var n := |fs| - 1;
    var front, f := fs[..n], fs[n];
    var st := Run(s, front);
    FrameSettles(s, st, f.boxes, f.now, world);
    AssignIsGood(s, st, f.boxes, f.now);
    var l := Assign(s, Start(st), f.boxes, f.now);
    forall i | 0 <= i < |l.blobs| ensures IsLive(s, l.blobs[i], f.now) {
      var b := l.blobs[i].bbox;
      if b !in f.boxes {
        assert IsRecord(fs[..n], st.blobs[i]);
        assert f.now - LastSeen(fs[..n], b).value <= s.maxMissed;
      }
    }
    FreshOfLive(s, l.blobs, f.now);
  }

  lemma HistoryStep(fs: seq<Frame>, b: Box)
    requires fs != []
    ensures var front, f := fs[..|fs| - 1], fs[|fs| - 1];
      && LastSeen(fs, b) == (if b in f.boxes then Some(f.now) else LastSeen(front, b))
      && Listings(fs, b) == Listings(front, b) + (if b in f.boxes then 1 else 0)
  {
  }

  /** A blob keeps its record over a frame that settled. */
  lemma RecordStep(fs: seq<Frame>, st: State, l: Ledger, world: set<Box>, i: nat)
    requires fs != [] && i < |l.blobs|
    requires var front, f := fs[..|fs| - 1], fs[|fs| - 1];
      && Settled(st, l, f.boxes, f.now, world)
      && (i < |st.blobs| ==> IsRecord(front, st.blobs[i]))
      && (i >= |st.blobs| ==> Listings(front, l.blobs[i].bbox) == 0)
    ensures IsRecord(fs, l.blobs[i])
  {
    HistoryStep(fs, l.blobs[i].bbox);
  }

  /** The box of a blob made in this frame was never listed before. */
  lemma NewBoxUnlisted(front: seq<Frame>, st: State, l: Ledger, f: Frame, world: set<Box>, i: nat)
    requires Settled(st, l, f.boxes, f.now, world) && |st.blobs| <= i < |l.blobs|
    requires LastSeen(front, l.blobs[i].bbox).Some? ==> Known(st.blobs, l.blobs[i].bbox)
    ensures Listings(front, l.blobs[i].bbox) == 0
  {
    assert forall k :: 0 <= k < |st.blobs| ==> st.blobs[k].bbox == l.blobs[k].bbox != l.blobs[i].bbox;
    SeenMeansListed(front, l.blobs[i].bbox);
  }

  /** After a frame that settled, a box that had a blob or is listed has one. */
  lemma BoxIsHeld(st: State, l: Ledger, f: Frame, world: set<Box>, b: Box)
    requires Settled(st, l, f.boxes, f.now, world) && Good(l, f.now)
    requires b in f.boxes || Known(st.blobs, b)
    ensures Known(l.blobs, b)
  {
    if b in f.boxes {
      var k :| 0 <= k < |f.boxes| && f.boxes[k] == b;
      assert Reported(l.blobs, l.results[k], f.now);
      var i :| 0 <= i < |l.blobs| && l.blobs[i].bbox == l.results[k].bbox;
      assert HasBox(l.blobs, i, b);
    } else {
      var i :| HasBox(st.blobs, i, b);
      assert HasBox(l.blobs, i, b);
    }
  }

  ghost predicate Remembers(fs: seq<Frame>, blobs: seq<Blob>) {
    && (forall i :: 0 <= i < |blobs| ==> IsRecord(fs, blobs[i]))
    && (forall b :: LastSeen(fs, b).Some? ==> Known(blobs, b))
  }

  lemma RecordsStand(fs: seq<Frame>, st: State, l: Ledger, world: set<Box>, i: nat)
    requires fs != [] && Remembers(fs[..|fs| - 1], st.blobs) && i < |l.blobs|
    requires var f := fs[|fs| - 1]; Settled(st, l, f.boxes, f.now, world)
    ensures IsRecord(fs, l.blobs[i])
  {
    if i >= |st.blobs| {
      NewBoxUnlisted(fs[..|fs| - 1], st, l, fs[|fs| - 1], world, i);
    }
    RecordStep(fs, st, l, world, i);
  }

  /** Every blob has its record after a frame that settled, and every box seen a blob. */
  lemma SettledStands(fs: seq<Frame>, st: State, l: Ledger, world: set<Box>)
    requires fs != [] && Remembers(fs[..|fs| - 1], st.blobs)
    requires var f := fs[|fs| - 1]; Settled(st, l, f.boxes, f.now, world) && Good(l, f.now)
    ensures Remembers(fs, l.blobs)
  {
    forall b | LastSeen(fs, b).Some? ensures Known(l.blobs, b) {
      HistoryStep(fs, b);
      BoxIsHeld(st, l, fs[|fs| - 1], world, b);
    }
    forall i | 0 <= i < |l.blobs| ensures IsRecord(fs, l.blobs[i]) {
      RecordsStand(fs, st, l, world, i);
    }
  }

  lemma StandingStep(s: Settings, fs: seq<Frame>, world: set<Box>)
    requires fs != [] && Peaceful(s, fs, world)
    requires var front := fs[..|fs| - 1]; Standing(s, front, world)
    ensures Standing(s, fs, world)
    ensures Extends(Run(s, fs[..|fs| - 1]).blobs, Run(s, fs).blobs)
  {
    var front, f := fs[..|fs| - 1], fs[|fs| - 1];
    NothingEvicted(s, fs, world);
    var st := Run(s, front);
    SettledStands(fs, st, Assign(s, Start(st), f.boxes, f.now), world);
  }

  lemma {:induction false} RunStands(s: Settings, fs: seq<Frame>, world: set<Box>)
    requires Peaceful(s, fs, world)
    ensures Standing(s, fs, world)
  {
    if fs != [] {
      PeacefulPrefix(s, fs, world, |fs| - 1);
      RunStands(s, fs[..|fs| - 1], world);
      StandingStep(s, fs, world);
    }
  }

  /** The results of frame `n` of a run. */
  function ResultsAt(s: Settings, fs: seq<Frame>, n: nat): seq<Result>
    requires n < |fs|
  {
    Results(s, Run(s, fs[..n]), fs[n].boxes, fs[n].now)
  }

  lemma ExtendsTransitive(a: seq<Blob>, b: seq<Blob>, c: seq<Blob>)
    requires Extends(a, b) && Extends(b, c)
    ensures Extends(a, c)
  {
  }

  lemma LastFrameExtends(s: Settings, fs: seq<Frame>, world: set<Box>)
    requires fs != [] && Peaceful(s, fs, world)
    ensures Extends(Run(s, fs[..|fs| - 1]).blobs, Run(s, fs).blobs)
  {
    PeacefulPrefix(s, fs, world, |fs| - 1);
    RunStands(s, fs[..|fs| - 1], world);
    StandingStep(s, fs, world);
  }

  lemma FrameExtends(s: Settings, fs: seq<Frame>, world: set<Box>, j: nat)
    requires Peaceful(s, fs, world) && 0 < j <= |fs|
    ensures Extends(Run(s, fs[..j - 1]).blobs, Run(s, fs[..j]).blobs)
  {
    PeacefulPrefix(s, fs, world, j);
    assert fs[..j][..j - 1] == fs[..j - 1];
    LastFrameExtends(s, fs[..j], world);
  }

  lemma {:induction false} RunExtends(s: Settings, fs: seq<Frame>, world: set<Box>, i: nat, j: nat)
    requires Peaceful(s, fs, world) && i <= j <= |fs|
    ensures Extends(Run(s, fs[..i]).blobs, Run(s, fs[..j]).blobs)
    decreases j
  {
    if i < j {
      RunExtends(s, fs, world, i, j - 1);
      FrameExtends(s, fs, world, j);
      ExtendsTransitive(Run(s, fs[..i]).blobs, Run(s, fs[..j - 1]).blobs, Run(s, fs[..j]).blobs);
    }
  }

  /** What frame `n` of a run makes of the blobs before it. */
  lemma FrameOutcome(s: Settings, fs: seq<Frame>, world: set<Box>, n: nat) returns (l: Ledger)
    requires Peaceful(s, fs, world) && n < |fs|
    ensures Settled(Run(s, fs[..n]), l, fs[n].boxes, fs[n].now, world) && Good(l, fs[n].now)
    ensures l.results == ResultsAt(s, fs, n) && l.blobs == Run(s, fs[..n + 1]).blobs
  {
    PeacefulPrefix(s, fs, world, n);
    PeacefulPrefix(s, fs, world, n + 1);
    RunStands(s, fs[..n], world);
    assert fs[..n + 1][..n] == fs[..n];
    NothingEvicted(s, fs[..n + 1], world);
    l := Assign(s, Start(Run(s, fs[..n])), fs[n].boxes, fs[n].now);
  }

  lemma SettledResult(st: State, l: Ledger, done: seq<Box>, now: real, world: set<Box>, p: nat) returns (i: nat)
    requires Settled(st, l, done, now, world) && Good(l, now) && p < |done|
    ensures i < |l.blobs| && l.blobs[i].id == l.results[p].objectId && l.blobs[i].bbox == done[p] == l.results[p].bbox
    ensures l.blobs[i].consecutiveHits == l.results[p].consecutiveHits
    ensures l.results[p].isNew <==> !Known(st.blobs, done[p])
  {
    assert Reported(l.blobs, l.results[p], now);
    i :| 0 <= i < |l.blobs|
      && l.blobs[i] == Blob(l.results[p].objectId, l.results[p].bbox, now, l.results[p].consecutiveHits);
  }

  /** The blob behind result `p` of frame `n`. */
  lemma ResultBlob(s: Settings, fs: seq<Frame>, world: set<Box>, n: nat, p: nat) returns (i: nat)
    requires Peaceful(s, fs, world) && n < |fs| && p < |fs[n].boxes|
    ensures |ResultsAt(s, fs, n)| == |fs[n].boxes| && ResultsAt(s, fs, n)[p].bbox == fs[n].boxes[p]
    ensures var blobs := Run(s, fs[..n + 1]).blobs;
      && i < |blobs| && blobs[i].id == ResultsAt(s, fs, n)[p].objectId && blobs[i].bbox == fs[n].boxes[p]
      && blobs[i].consecutiveHits == ResultsAt(s, fs, n)[p].consecutiveHits
    ensures ResultsAt(s, fs, n)[p].isNew <==> !Known(Run(s, fs[..n]).blobs, fs[n].boxes[p])
  {
    var l := FrameOutcome(s, fs, world, n);
    i := SettledResult(Run(s, fs[..n]), l, fs[n].boxes, fs[n].now, world, p);
  }

  /** Identity stability.  Fixed boxes that overlap themselves and no other keep
      their exact coordinates, and two results of a run carry the same id exactly
      when they report the same box. */
  lemma FixedBoxesKeepTheirIds(s: Settings, fs: seq<Frame>, world: set<Box>, i: nat, p: nat, j: nat, q: nat)
    requires Peaceful(s, fs, world)
    requires i <= j < |fs| && p < |fs[i].boxes| && q < |fs[j].boxes|
    ensures |ResultsAt(s, fs, i)| == |fs[i].boxes| && |ResultsAt(s, fs, j)| == |fs[j].boxes|
    ensures ResultsAt(s, fs, i)[p].bbox == fs[i].boxes[p]
    ensures ResultsAt(s, fs, i)[p].objectId == ResultsAt(s, fs, j)[q].objectId <==> fs[i].boxes[p] == fs[j].boxes[q]
  {
    var a := ResultBlob(s, fs, world, i, p);
    var b := ResultBlob(s, fs, world, j, q);
    RunExtends(s, fs, world, i + 1, j + 1);
    PeacefulPrefix(s, fs, world, j + 1);
    RunStands(s, fs[..j + 1], world);
    OneBlobPerBox(Run(s, fs[..j + 1]), world, a, b);
  }

  /** Hits count listings: a result's consecutive hits are the number of frames that
      listed its box so far, whatever frames missed it in between, and it is marked new
      exactly at the first of them. */
  lemma ResultsCountListings(s: Settings, fs: seq<Frame>, world: set<Box>, n: nat, p: nat)
    requires Peaceful(s, fs, world) && n < |fs| && p < |fs[n].boxes|
    ensures |ResultsAt(s, fs, n)| == |fs[n].boxes|
    ensures var r, b := ResultsAt(s, fs, n)[p], fs[n].boxes[p];
      r.consecutiveHits == Listings(fs[..n + 1], b) && (r.isNew <==> Listings(fs[..n], b) == 0)
  {
    var b := fs[n].boxes[p];
    var i := ResultBlob(s, fs, world, n, p);
    PeacefulPrefix(s, fs, world, n);
    RunStands(s, fs[..n], world);
    PeacefulPrefix(s, fs, world, n + 1);
    RunStands(s, fs[..n + 1], world);
    assert IsRecord(fs[..n + 1], Run(s, fs[..n + 1]).blobs[i]);
    KnownMeansListed(s, fs[..n], world, b);
  }

  lemma KnownMeansListed(s: Settings, fs: seq<Frame>, world: set<Box>, b: Box)
    requires Standing(s, fs, world)
    ensures Known(Run(s, fs).blobs, b) <==> Listings(fs, b) > 0
  {
    SeenMeansListed(fs, b);
    if Known(Run(s, fs).blobs, b) {
      var i :| HasBox(Run(s, fs).blobs, i, b);
      assert IsRecord(fs, Run(s, fs).blobs[i]);
    }
  }

  lemma OneBlobPerBox(st: State, world: set<Box>, a: nat, b: nat)
    requires Sound(st.blobs, st.nextId) && Steady(st.blobs, world) && a < |st.blobs| && b < |st.blobs|
    ensures st.blobs[a].id == st.blobs[b].id <==> st.blobs[a].bbox == st.blobs[b].bbox
  {
  }
}
