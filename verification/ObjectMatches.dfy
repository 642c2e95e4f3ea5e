/** The detections that association gave to one track, operation by operation, and the
    life they make up: the history behind every live track of a run. */
module ObjectMatches {
  import opened Prelude
  import opened StableSort
  import opened ObjectTracks
  import opened ObjectAssociation
  import opened ObjectHistory
  import opened ObjectRuns
  import opened ObjectSteps

  /** The detections whose choice was the track `id`. */
  function Chosen(order: seq<Detection>, taken: seq<nat>, id: nat): seq<Detection>
    requires |order| == |taken|
  {
    if order == [] then []
    else
      var n := |order| - 1;
      Chosen(order[..n], taken[..n], id) + if taken[n] == id then [order[n]] else []
  }

  lemma ChosenAppend(order: seq<Detection>, taken: seq<nat>, d: Detection, x: nat, id: nat)
    requires |order| == |taken|
    ensures Chosen(order + [d], taken + [x], id) == Chosen(order, taken, id) + if x == id then [d] else []
  {
    assert (order + [d])[..|order|] == order && (taken + [x])[..|taken|] == taken;
  }

  lemma {:induction false} ChosenIffTaken(order: seq<Detection>, taken: seq<nat>, id: nat)
    requires |order| == |taken|
    ensures Chosen(order, taken, id) != [] <==> id in taken
  {
    if order != [] {
      var n := |order| - 1;
      ChosenIffTaken(order[..n], taken[..n], id);
      assert taken == taken[..n] + [taken[n]];
    }
  }

  lemma {:induction false} ChosenWithin(order: seq<Detection>, taken: seq<nat>, id: nat)
    requires |order| == |taken|
    ensures multiset(Chosen(order, taken, id)) <= multiset(order)
  {
    if order != [] {
      var n := |order| - 1;
      ChosenWithin(order[..n], taken[..n], id);
      assert order == order[..n] + [order[n]];
    }
  }

  lemma {:induction false} AssignTakesEach(s: Settings, l: Ledger, ds: seq<Detection>, v: Option<View>, now: real)
    requires Scaled(v)
    ensures |Assign(s, l, ds, v, now).taken| == |l.taken| + |ds|
  {
    if ds != [] {
      AssignTakesEach(s, l, ds[..|ds| - 1], v, now);
    }
  }

  /** The detections of a frame that association gives to track `id`. */
  function ChosenIn(s: Settings, f: Scene, st: State, id: nat): seq<Detection>
    requires Scaled(f.view)
  {
    var order := Sort(f.detections, ByConfidence);
    AssignTakesEach(s, Start(st), order, f.view, f.now);
    Chosen(order, Assign(s, Start(st), order, f.view, f.now).taken, id)
  }

  // ---- one frame ----

  /** `t` is what the chosen detections make of the old track, or start. */
  ghost predicate MadeBy(s: Settings, f: Scene, before: Option<Track>, t: Track, hits: seq<Detection>)
    requires Usable(f)
  {
    match before
    case Some(b) =>
      || (hits == [] && t == b)
      || (|hits| == 1 && Overlaps(s, hits[0].bbox, b.bbox)
          && t == WithTemplate(Refresh(s, b, hits[0], f.now), f.view))
    case None => |hits| == 1 && t == WithTemplate(Birth(t.id, hits[0], f.now), f.view)
  }

  function OldAt(st: State, i: nat): Option<Track> { if i < |st.tracks| then Some(st.tracks[i]) else None }

  /** Every track of the ledger is made by the detections that chose it so far. */
  ghost predicate Told(s: Settings, f: Scene, st: State, l: Ledger, order: seq<Detection>)
    requires Usable(f)
  {
    && |order| == |l.taken|
    && forall i :: 0 <= i < |l.tracks| ==>
         MadeBy(s, f, OldAt(st, i), l.tracks[i], Chosen(order, l.taken, l.tracks[i].id))
  }

  lemma ToldAppends(s: Settings, f: Scene, st: State, l: Ledger, order: seq<Detection>, d: Detection)
    requires Usable(f) && Progress(st, l) && Told(s, f, st, l, order)
    ensures Told(s, f, st, Appended(l, WithTemplate(Birth(l.nextId, d, f.now), f.view)), order + [d])
  {
    var t := WithTemplate(Birth(l.nextId, d, f.now), f.view);
    var l' := Appended(l, t);
    assert l.nextId !in l.taken;
    ChosenIffTaken(order, l.taken, l.nextId);
    forall i | 0 <= i < |l'.tracks|
      ensures MadeBy(s, f, OldAt(st, i), l'.tracks[i], Chosen(order + [d], l'.taken, l'.tracks[i].id))
    {
      ChosenAppend(order, l.taken, d, t.id, l'.tracks[i].id);
    }
  }

  lemma ToldReplaces(s: Settings, f: Scene, st: State, l: Ledger, order: seq<Detection>, m: nat, d: Detection)
    requires Usable(f) && Progress(st, l) && Told(s, f, st, l, order)
    requires m < |l.tracks| && l.tracks[m].id !in l.taken && Overlaps(s, d.bbox, l.tracks[m].bbox)
    ensures Told(s, f, st, Replaced(l, m, WithTemplate(Refresh(s, l.tracks[m], d, f.now), f.view)), order + [d])
  {
    var t := WithTemplate(Refresh(s, l.tracks[m], d, f.now), f.view);
    var l' := Replaced(l, m, t);
    UnusedIsOld(st, l, m);
    ChosenIffTaken(order, l.taken, t.id);
    forall i | 0 <= i < |l'.tracks|
      ensures MadeBy(s, f, OldAt(st, i), l'.tracks[i], Chosen(order + [d], l'.taken, l'.tracks[i].id))
    {
      ChosenAppend(order, l.taken, d, t.id, l'.tracks[i].id);
    }
  }

  lemma ToldStep(s: Settings, f: Scene, st: State, l: Ledger, order: seq<Detection>, d: Detection)
    requires Usable(f) && Progress(st, l) && Told(s, f, st, l, order)
    ensures Told(s, f, st, AssignOne(s, l, d, f.view, f.now), order + [d])
  {
    var m := Match(s, l, d.bbox);
    if m.None? {
      ToldAppends(s, f, st, l, order, d);
    } else {
      MatchIsUntaken(s, l, d.bbox);
      ToldReplaces(s, f, st, l, order, m.value, d);
    }
  }

  lemma {:induction false} AssignTold(s: Settings, f: Scene, st: State, ds: seq<Detection>)
    requires Usable(f) && Sound(st)
    ensures Told(s, f, st, Assign(s, Start(st), ds, f.view, f.now), ds)
  {
    if ds != [] {
      var front, d := ds[..|ds| - 1], ds[|ds| - 1];
      assert ds == front + [d];
      AssignTold(s, f, st, front);
      ProgressHolds(s, st, front, f.view, f.now);
      ToldStep(s, f, st, Assign(s, Start(st), front, f.view, f.now), front, d);
    }
  }

  /** What a frame makes of a track, given the detections that chose it. */
  ghost predicate Becomes(s: Settings, f: Scene, before: Option<Track>, t: Track, hits: seq<Detection>)
    requires Usable(f)
  {
    MadeBy(s, f, before, t, hits) || (hits == [] && before.Some? && Found(s, f, before.value, t))
  }

  lemma SweptBecomes(s: Settings, f: Scene, before: Option<Track>, t: Track, taken: seq<nat>, hits: seq<Detection>)
    requires Usable(f) && MadeBy(s, f, before, t, hits) && (hits == [] ==> t.id !in taken)
    requires hits != [] ==> t.id in taken
    ensures Becomes(s, f, before, Swept(s, t, taken, f.view, f.now), hits)
  {
    SweptFrom(s, f, t, taken);
  }

  lemma ObservedTold(s: Settings, f: Scene, st: State, i: nat)
    requires Usable(f) && Sound(st) && i < |Observed(s, st, f.detections, f.view, f.now)|
    ensures var t := Observed(s, st, f.detections, f.view, f.now)[i];
      Becomes(s, f, OldAt(st, i), t, ChosenIn(s, f, st, t.id))
  {
    var order := Sort(f.detections, ByConfidence);
    var l := Associated(s, st, f.detections, f.view, f.now);
    AssignTold(s, f, st, order);
    ChosenIffTaken(order, l.taken, l.tracks[i].id);
    SweptBecomes(s, f, OldAt(st, i), l.tracks[i], l.taken, Chosen(order, l.taken, l.tracks[i].id));
  }

  /** Where a track of the new state comes from, told by the detections that chose it. */
  lemma StepTold(s: Settings, st: State, op: Op, t: Track) returns (before: Option<Track>)
    requires WellScaled(op) && Sound(st) && t in Step(s, st, op).tracks
    ensures op.Feed? && Becomes(s, SceneOf(op), before, t, ChosenIn(s, SceneOf(op), st, t.id))
    ensures before.None? ==> t.id >= st.nextId
    ensures before.Some? ==> before.value in st.tracks && before.value.id == t.id
  {
    var f := SceneOf(op);
    var after := Observed(s, st, f.detections, f.view, f.now);
    FreshMember(s, after, f.now, t);
    var i :| 0 <= i < |after| && after[i] == t;
    ObservedFrom(s, f, st, i);
    ObservedTold(s, f, st, i);
    before := OldAt(st, i);
  }

  // ---- runs ----

  /** The detections an operation gives to track `id`. */
  function GivenBy(s: Settings, st: State, op: Op, id: nat): seq<Detection>
    requires WellScaled(op)
  {
    if op.Feed? then ChosenIn(s, SceneOf(op), st, id) else []
  }

  /** All detections that association gave to track `id` in the first `n` operations, in
      order. */
  function HitsOf(s: Settings, ops: seq<Op>, n: nat, id: nat): seq<Detection>
    requires Runnable(ops) && n <= |ops|
  {
    if n == 0 then [] else HitsOf(s, ops, n - 1, id) + GivenBy(s, StateAfter(s, ops, n - 1), ops[n - 1], id)
  }

  lemma GivenIsIssued(s: Settings, st: State, op: Op, id: nat)
    requires WellScaled(op) && Sound(st) && GivenBy(s, st, op, id) != []
    ensures id < Step(s, st, op).nextId
  {
    var f := SceneOf(op);
    var order := Sort(f.detections, ByConfidence);
    AssociatedFrom(s, f, st);
    AssignTakesEach(s, Start(st), order, f.view, f.now);
    ChosenIffTaken(order, Associated(s, st, f.detections, f.view, f.now).taken, id);
  }

  ghost predicate NoHits(s: Settings, ops: seq<Op>, n: nat, id: nat)
    requires Runnable(ops) && n <= |ops|
  {
    HitsOf(s, ops, n, id) == []
  }

  lemma NoHitsStep(s: Settings, ops: seq<Op>, n: nat, id: nat)
    requires Runnable(ops) && 0 < n <= |ops| && NoHits(s, ops, n - 1, id) && id >= StateAfter(s, ops, n).nextId
    ensures NoHits(s, ops, n, id)
  {
    var st := StateAfter(s, ops, n - 1);
    NextState(s, ops, n);
    if GivenBy(s, st, ops[n - 1], id) != [] {
      GivenIsIssued(s, st, ops[n - 1], id);
    }
  }

  /** Nothing was given to an id that is not yet issued. */
  lemma {:induction false} NoHitsBeforeIssue(s: Settings, ops: seq<Op>, n: nat, id: nat)
    requires Runnable(ops) && n <= |ops| && id >= StateAfter(s, ops, n).nextId
    ensures NoHits(s, ops, n, id)
  {
    if n > 0 {
      IdsOnlyGrow(s, ops, n - 1, n);
      NoHitsBeforeIssue(s, ops, n - 1, id);
      NoHitsStep(s, ops, n, id);
    }
  }

  /** The life `h` replays to `t`, and its detections are `hits`. */
  ghost predicate LivesBy(s: Settings, t: Track, h: Life, hits: seq<Detection>) {
    Replay(s, h) == t && Detections(h) == hits
  }

  lemma LifeBegins(s: Settings, f: Scene, t: Track, hits: seq<Detection>) returns (h: Life)
    requires Usable(f) && Becomes(s, f, None, t, hits)
    ensures LivesBy(s, t, h, hits)
  {
    h := Life(t.id, hits[0], f.now, t.template, []);
    assert hits == [hits[0]];
  }

  lemma LifeGoesOn(s: Settings, f: Scene, before: Track, t: Track, h: Life, past: seq<Detection>, hits: seq<Detection>)
    returns (h': Life)
    requires Usable(f) && Becomes(s, f, Some(before), t, hits) && LivesBy(s, before, h, past)
    ensures LivesBy(s, t, h', past + hits)
  {
    if |hits| == 1 {
      var e := Event.Seen(hits[0], f.now, t.template);
      ExtendReplays(s, h, e);
      h' := Extend(h, e);
      assert hits == [hits[0]];
    } else {
      assert past + hits == past;
      if t == before {
        h' := h;
      } else {
        h' := VisualLife(s, h, f.view.value, f.now);
      }
    }
  }

  /** The origin of a live track with the hits of the latest operation. */
  lemma RunTold(s: Settings, ops: seq<Op>, n: nat, t: Track) returns (before: Option<Track>, hits: seq<Detection>)
    requires Runnable(ops) && n <= |ops| && t in TracksAfter(s, ops, n)
    ensures n > 0 && ops[n - 1].Feed? && Becomes(s, SceneOf(ops[n - 1]), before, t, hits)
    ensures before.None? ==> HitsOf(s, ops, n, t.id) == hits
    ensures before.Some? ==> before.value in TracksAfter(s, ops, n - 1) && before.value.id == t.id
                             && HitsOf(s, ops, n, t.id) == HitsOf(s, ops, n - 1, t.id) + hits
  {
    NextState(s, ops, n);
    var st := StateAfter(s, ops, n - 1);
    before := StepTold(s, st, ops[n - 1], t);
    hits := ChosenIn(s, SceneOf(ops[n - 1]), st, t.id);
    if before.None? {
      NoHitsBeforeIssue(s, ops, n - 1, t.id);
      assert [] + hits == hits;
    }
  }

  /** Every live track of a run lived by exactly the detections that association gave to
      its id, in the order of the operations. */
  lemma {:induction false} TrackLife(s: Settings, ops: seq<Op>, n: nat, t: Track) returns (h: Life)
    requires Runnable(ops) && n <= |ops| && t in TracksAfter(s, ops, n)
    ensures LivesBy(s, t, h, HitsOf(s, ops, n, t.id))
  {
    var before, hits := RunTold(s, ops, n, t);
    var f := SceneOf(ops[n - 1]);
    if before.None? {
      h := LifeBegins(s, f, t, hits);
    } else {
      var past := HitsOf(s, ops, n - 1, t.id);
      var h0 := TrackLife(s, ops, n - 1, before.value);
      h := LifeGoesOn(s, f, before.value, t, h0, past, hits);
    }
  }

  lemma GivenWithin(s: Settings, st: State, op: Op, id: nat)
    requires WellScaled(op)
    ensures multiset(GivenBy(s, st, op, id)) <= if op.Feed? then multiset(op.detections) else multiset{}
  {
    if op.Feed? {
      var f := SceneOf(op);
      var order := Sort(f.detections, ByConfidence);
      SortCorrect(f.detections, ByConfidence);
      AssignTakesEach(s, Start(st), order, f.view, f.now);
      ChosenWithin(order, Assign(s, Start(st), order, f.view, f.now).taken, id);
    }
  }

  ghost predicate HitsFed(s: Settings, ops: seq<Op>, n: nat, id: nat)
    requires Runnable(ops) && n <= |ops|
  {
    multiset(HitsOf(s, ops, n, id)) <= Fed(ops[..n])
  }

  lemma FedStep(ops: seq<Op>, n: nat)
    requires 0 < n <= |ops|
    ensures Fed(ops[..n])
      == Fed(ops[..n - 1]) + if ops[n - 1].Feed? then multiset(ops[n - 1].detections) else multiset{}
  {
    assert ops[..n][..n - 1] == ops[..n - 1];
  }

  lemma HitsFedStep(s: Settings, ops: seq<Op>, n: nat, id: nat)
    requires Runnable(ops) && 0 < n <= |ops| && HitsFed(s, ops, n - 1, id)
    ensures HitsFed(s, ops, n, id)
  {
    GivenWithin(s, StateAfter(s, ops, n - 1), ops[n - 1], id);
    FedStep(ops, n);
  }

  /** The detections given to one id were fed, as often as they were given. */
  lemma {:induction false} HitsAreFed(s: Settings, ops: seq<Op>, n: nat, id: nat)
    requires Runnable(ops) && n <= |ops|
    ensures HitsFed(s, ops, n, id)
  {
    if n > 0 {
      HitsAreFed(s, ops, n - 1, id);
      HitsFedStep(s, ops, n, id);
    }
  }
}
