/** One frame of association: every detection gets its own track, a better track
    is lost only to a stronger detection, and no detector hit is lost. */
module ObjectAssociation {
  import opened Prelude
  import opened Geometry
  import opened StableSort
  import opened ObjectTracks

  ghost predicate DistinctIds(ts: seq<Track>) {
    forall i, j :: 0 <= i < j < |ts| ==> ts[i].id != ts[j].id
  }

  /** Ids in the tracker's dictionary are unique and already handed out. */
  ghost predicate Sound(st: State) {
    DistinctIds(st.tracks) && forall i :: 0 <= i < |st.tracks| ==> st.tracks[i].id < st.nextId
  }

  ghost predicate Distinct(ids: seq<nat>) {
    forall i, j :: 0 <= i < j < |ids| ==> ids[i] != ids[j]
  }

  /** What holds of the ledger after any number of detections of a frame that
      began in `st`: old positions keep their ids, untaken old tracks are as they
      were, and every track added in this frame is taken. */
  ghost predicate Progress(st: State, l: Ledger) {
    && |l.tracks| >= |st.tracks|
    && l.nextId >= st.nextId
    && (forall i :: 0 <= i < |l.tracks| ==> l.tracks[i].id < l.nextId)
    && DistinctIds(l.tracks)
    && (forall i :: 0 <= i < |st.tracks| ==> l.tracks[i].id == st.tracks[i].id)
    && (forall i :: 0 <= i < |st.tracks| && st.tracks[i].id !in l.taken ==> l.tracks[i] == st.tracks[i])
    && (forall i :: |st.tracks| <= i < |l.tracks| ==> l.tracks[i].id >= st.nextId && l.tracks[i].id in l.taken)
    && (forall k :: 0 <= k < |l.taken| ==> exists i :: 0 <= i < |l.tracks| && l.tracks[i].id == l.taken[k])
    && Distinct(l.taken)
  }

  lemma ProgressAppends(st: State, l: Ledger, t: Track)
    requires Progress(st, l) && t.id == l.nextId
    ensures Progress(st, Ledger(l.tracks + [t], l.nextId + 1, l.taken + [t.id]))
  {
    var l' := Ledger(l.tracks + [t], l.nextId + 1, l.taken + [t.id]);
    assert l'.tracks[|l.tracks|].id == t.id;
    forall k | 0 <= k < |l'.taken| ensures exists i :: 0 <= i < |l'.tracks| && l'.tracks[i].id == l'.taken[k] {
      if k < |l.taken| {
        var i :| 0 <= i < |l.tracks| && l.tracks[i].id == l.taken[k];
        assert l'.tracks[i].id == l'.taken[k];
      }
    }
  }

  lemma ProgressReplaces(st: State, l: Ledger, m: nat, t: Track)
    requires Progress(st, l) && m < |l.tracks| && t.id == l.tracks[m].id && t.id !in l.taken
    ensures Progress(st, Ledger(l.tracks[m := t], l.nextId, l.taken + [t.id]))
  {
    var l' := Ledger(l.tracks[m := t], l.nextId, l.taken + [t.id]);
    assert forall i :: 0 <= i < |l.tracks| ==> l'.tracks[i].id == l.tracks[i].id;
    assert l'.tracks[m].id == t.id;
    assert t.id in l'.taken && forall x :: x in l.taken ==> x in l'.taken;
    forall k | 0 <= k < |l'.taken| ensures exists i :: 0 <= i < |l'.tracks| && l'.tracks[i].id == l'.taken[k] {
      if k < |l.taken| {
        var i :| 0 <= i < |l.tracks| && l.tracks[i].id == l.taken[k];
        assert l'.tracks[i].id == l'.taken[k];
      }
    }
  }

  /** A matched track is one no earlier detection has taken. */
  lemma MatchIsUntaken(s: Settings, l: Ledger, box: Box)
    ensures var m := Match(s, l, box); m.Some? ==>
      && l.tracks[m.value].id !in l.taken
      && s.iou(box, l.tracks[m.value].bbox) > 0.0
      && s.iou(box, l.tracks[m.value].bbox) >= s.iouThreshold
  {
    var m := Match(s, l, box);
    if m.Some? {
      assert Scores(s, l, box)[m.value] > 0.0;
    }
  }

  lemma ProgressStep(s: Settings, st: State, l: Ledger, d: Detection, v: Option<View>, now: real)
    requires Scaled(v) && Progress(st, l)
    ensures Progress(st, AssignOne(s, l, d, v, now))
  {
    var m := Match(s, l, d.bbox);
    MatchIsUntaken(s, l, d.bbox);
    if m.None? {
      ProgressAppends(st, l, WithTemplate(Birth(l.nextId, d, now), v));
    } else {
      ProgressReplaces(st, l, m.value, WithTemplate(Refresh(s, l.tracks[m.value], d, now), v));
    }
  }

  lemma {:induction false} ProgressHolds(s: Settings, st: State, ds: seq<Detection>, v: Option<View>, now: real)
    requires Scaled(v) && Sound(st)
    ensures Progress(st, Assign(s, Start(st), ds, v, now))
    ensures |Assign(s, Start(st), ds, v, now).taken| == |ds|
  {
    if ds != [] {
      ProgressHolds(s, st, ds[..|ds| - 1], v, now);
      ProgressStep(s, st, Assign(s, Start(st), ds[..|ds| - 1], v, now), ds[|ds| - 1], v, now);
    }
  }

  lemma {:induction false} TakenIsPrefix(s: Settings, l: Ledger, ds: seq<Detection>, j: nat, v: Option<View>, now: real)
    requires Scaled(v) && j <= |ds|
    ensures Assign(s, l, ds[..j], v, now).taken <= Assign(s, l, ds, v, now).taken
  {
    if j < |ds| {
      TakenIsPrefix(s, l, ds[..|ds| - 1], j, v, now);
      assert ds[..|ds| - 1][..j] == ds[..j];
    } else {
      assert ds[..j] == ds;
    }
  }

  /** Track `i` of the frame's start is a better choice for box `box` than the one
      made: better than the chosen old track (an equal score wins only at an
      earlier position), or good enough when a new track was started. */
  ghost predicate Better(s: Settings, st: State, box: Box, i: nat, chosen: nat)
    requires i < |st.tracks|
  {
    var score := s.iou(box, st.tracks[i].bbox);
    if exists m :: 0 <= m < |st.tracks| && st.tracks[m].id == chosen then
      exists m :: 0 <= m < |st.tracks| && st.tracks[m].id == chosen &&
        var got := s.iou(box, st.tracks[m].bbox);
        score > got || (score == got && i < m)
    else
      score > 0.0 && score >= s.iouThreshold
  }

  /** The choice for detection `j` is made on the ledger of the earlier ones. */
  lemma ChoiceOf(s: Settings, st: State, ds: seq<Detection>, v: Option<View>, now: real, j: nat)
    requires Scaled(v) && Sound(st) && j < |ds|
    ensures var l, taken := Assign(s, Start(st), ds[..j], v, now), Assign(s, Start(st), ds, v, now).taken;
      && |l.taken| == j < |taken| && l.taken <= taken
      && AssignOne(s, l, ds[j], v, now).taken == l.taken + [taken[j]]
  {
    ProgressHolds(s, st, ds[..j], v, now);
    ProgressHolds(s, st, ds, v, now);
    AssignStep(s, Start(st), ds, v, now, j);
    TakenIsPrefix(s, Start(st), ds, j, v, now);
    TakenIsPrefix(s, Start(st), ds, j + 1, v, now);
  }

  /** Greedy stability.  Detections are ranked by `ds`; the one of rank `j` misses
      a better existing track only because an earlier-ranked detection took it. */
  lemma BetterTrackTakenEarlier(s: Settings, st: State, ds: seq<Detection>, v: Option<View>, now: real, j: nat, i: nat)
    requires Scaled(v) && Sound(st) && j < |ds| && i < |st.tracks|
    requires var taken := Assign(s, Start(st), ds, v, now).taken;
      |taken| == |ds| && Better(s, st, ds[j].bbox, i, taken[j])
    ensures exists e :: 0 <= e < j && Assign(s, Start(st), ds, v, now).taken[e] == st.tracks[i].id
  {
    var taken := Assign(s, Start(st), ds, v, now).taken;
    var l := Assign(s, Start(st), ds[..j], v, now);
    ChoiceOf(s, st, ds, v, now, j);
    BetterIsTaken(s, st, ds[..j], ds[j], v, now, i, taken[j]);
    var e :| 0 <= e < |l.taken| && l.taken[e] == st.tracks[i].id;
    assert taken[e] == st.tracks[i].id;
  }

  lemma BetterIsTaken(s: Settings, st: State, front: seq<Detection>, d: Detection, v: Option<View>, now: real, i: nat,
                      chosen: nat)
    requires Scaled(v) && Sound(st) && i < |st.tracks| && Better(s, st, d.bbox, i, chosen)
    requires var l := Assign(s, Start(st), front, v, now);
      |l.taken| == |front| && AssignOne(s, l, d, v, now).taken == l.taken + [chosen]
    ensures st.tracks[i].id in Assign(s, Start(st), front, v, now).taken
  {
    var l := Assign(s, Start(st), front, v, now);
    ProgressHolds(s, st, front, v, now);
    if st.tracks[i].id !in l.taken {
      UntakenIsNotBetter(s, st, l, d, v, now, i);
    }
  }

  lemma UntakenIsNotBetter(s: Settings, st: State, l: Ledger, d: Detection, v: Option<View>, now: real, i: nat)
    requires Scaled(v) && Sound(st) && Progress(st, l) && i < |st.tracks|
    requires st.tracks[i].id !in l.taken
    ensures !Better(s, st, d.bbox, i, AssignOne(s, l, d, v, now).taken[|l.taken|])
  {
    var m, scores := Match(s, l, d.bbox), Scores(s, l, d.bbox);
    assert scores[i] == s.iou(d.bbox, st.tracks[i].bbox);
    if m.Some? {
      assert scores[m.value] > 0.0;
      assert l.tracks[m.value].id !in l.taken;
      assert m.value < |st.tracks|;
      assert scores[m.value] == s.iou(d.bbox, st.tracks[m.value].bbox);
    }
  }

  /** In the frame's own order, strongest detection first: a detection misses a
      better existing track only because one at least as confident took it. */
  lemma LostOnlyToStrongerDetection(s: Settings, st: State, ds: seq<Detection>, v: Option<View>, now: real, j: nat,
                                    i: nat)
    requires Scaled(v) && Sound(st) && j < |ds| && i < |st.tracks|
    requires var order := Sort(ds, ByConfidence);
      var taken := Assign(s, Start(st), order, v, now).taken;
      |taken| == |ds| && Better(s, st, order[j].bbox, i, taken[j])
    ensures var order := Sort(ds, ByConfidence);
      exists e :: 0 <= e < j && Assign(s, Start(st), order, v, now).taken[e] == st.tracks[i].id
        && ConfidenceOf(order[e]) >= ConfidenceOf(order[j])
  {
    var order := Sort(ds, ByConfidence);
    SortCorrect(ds, ByConfidence);
    BetterTrackTakenEarlier(s, st, order, v, now, j, i);
    var e :| 0 <= e < j && Assign(s, Start(st), order, v, now).taken[e] == st.tracks[i].id;
    assert !Above(ByConfidence(order[j]), ByConfidence(order[e]));
  }

  /** A match is never below the threshold and never a non-overlapping track. */
  lemma MatchIsGoodEnough(s: Settings, st: State, ds: seq<Detection>, v: Option<View>, now: real, j: nat, m: nat)
    requires Scaled(v) && Sound(st) && j < |ds| && m < |st.tracks|
    requires var taken := Assign(s, Start(st), ds, v, now).taken;
      |taken| == |ds| && taken[j] == st.tracks[m].id
    ensures s.iou(ds[j].bbox, st.tracks[m].bbox) > 0.0
    ensures s.iou(ds[j].bbox, st.tracks[m].bbox) >= s.iouThreshold
  {
    var l := Assign(s, Start(st), ds[..j], v, now);
    assert ds[..j + 1][..j] == ds[..j];
    ProgressHolds(s, st, ds[..j], v, now);
    TakenIsPrefix(s, Start(st), ds, j, v, now);
    TakenIsPrefix(s, Start(st), ds, j + 1, v, now);
    assert AssignOne(s, l, ds[j], v, now).taken[j] == st.tracks[m].id;
    MatchIsUntaken(s, l, ds[j].bbox);
    var got := Match(s, l, ds[j].bbox);
    assert got.Some?;
    assert l.tracks[m].id == l.tracks[got.value].id;
    assert m == got.value;
  }

  /** The frame-level statement: one distinct track per detection. */
  lemma AssociationOneToOne(s: Settings, st: State, ds: seq<Detection>, v: Option<View>, now: real)
    requires Scaled(v) && Sound(st)
    ensures var taken := Assign(s, Start(st), ds, v, now).taken;
      |taken| == |ds| && Distinct(taken)
  {
    ProgressHolds(s, st, ds, v, now);
  }

  // ---- conservation of detector hits ----

  function Hits(ts: seq<Track>): int {
    if ts == [] then 0 else Hits(ts[..|ts| - 1]) + ts[|ts| - 1].semanticHits
  }

  lemma {:induction false} HitsUpdate(ts: seq<Track>, i: nat, t: Track)
    requires i < |ts|
    ensures Hits(ts[i := t]) == Hits(ts) - ts[i].semanticHits + t.semanticHits
  {
    var n := |ts| - 1;
    if i == n {
      assert ts[i := t][..n] == ts[..n];
    } else {
      HitsUpdate(ts[..n], i, t);
      assert ts[i := t][..n] == ts[..n][i := t];
    }
  }

  lemma {:induction false} HitsSame(a: seq<Track>, b: seq<Track>)
    requires |a| == |b| && forall i :: 0 <= i < |a| ==> a[i].semanticHits == b[i].semanticHits
    ensures Hits(a) == Hits(b)
  {
    if a != [] {
      HitsSame(a[..|a| - 1], b[..|b| - 1]);
    }
  }

  lemma {:induction false} HitsAssigned(s: Settings, l: Ledger, ds: seq<Detection>, v: Option<View>, now: real)
    requires Scaled(v)
    ensures Hits(Assign(s, l, ds, v, now).tracks) == Hits(l.tracks) + |ds|
  {
    if ds != [] {
      var front, d := ds[..|ds| - 1], ds[|ds| - 1];
      HitsAssigned(s, l, front, v, now);
      var mid := Assign(s, l, front, v, now);
      var m := Match(s, mid, d.bbox);
      if m.Some? {
        HitsUpdate(mid.tracks, m.value, WithTemplate(Refresh(s, mid.tracks[m.value], d, now), v));
      } else {
        var t := WithTemplate(Birth(mid.nextId, d, now), v);
        assert (mid.tracks + [t])[..|mid.tracks|] == mid.tracks;
      }
    }
  }

  lemma {:induction false} HitsSplit(s: Settings, ts: seq<Track>, now: real)
    ensures Hits(Fresh(s, ts, now)) + Hits(Stale(s, ts, now)) == Hits(ts)
  {
    if ts != [] {
      var front, t := ts[..|ts| - 1], ts[|ts| - 1];
      HitsSplit(s, front, now);
      assert (Fresh(s, front, now) + [t])[..|Fresh(s, front, now)|] == Fresh(s, front, now);
      assert (Stale(s, front, now) + [t])[..|Stale(s, front, now)|] == Stale(s, front, now);
    }
  }

  /** Per frame: the hits held after the frame, plus those of the tracks it
      evicts, are the hits held before plus one per detection. */
  lemma HitsConserved(s: Settings, st: State, ds: seq<Detection>, v: Option<View>, now: real)
    requires Scaled(v)
    ensures Hits(Update(s, st, ds, v, now).tracks) + Hits(Stale(s, Observed(s, st, ds, v, now), now))
         == Hits(st.tracks) + |ds|
  {
    var sorted := Sort(ds, ByConfidence);
    var l := Assign(s, Start(st), sorted, v, now);
    HitsAssigned(s, Start(st), sorted, v, now);
    HitsSame(Sweep(s, l, v, now), l.tracks);
    HitsSplit(s, Sweep(s, l, v, now), now);
  }

  // ---- ids stay sound over a frame ----

  lemma {:induction false} FreshSubsequence(s: Settings, ts: seq<Track>, now: real)
    requires DistinctIds(ts)
    ensures DistinctIds(Fresh(s, ts, now))
    ensures forall i :: 0 <= i < |Fresh(s, ts, now)| ==> Fresh(s, ts, now)[i] in ts
  {
    if ts != [] {
      FreshSubsequence(s, ts[..|ts| - 1], now);
    }
  }

  lemma UpdateKeepsIdsSound(s: Settings, st: State, ds: seq<Detection>, v: Option<View>, now: real)
    requires Scaled(v) && Sound(st)
    ensures Sound(Update(s, st, ds, v, now))
  {
    var sorted := Sort(ds, ByConfidence);
    var l := Assign(s, Start(st), sorted, v, now);
    ProgressHolds(s, st, sorted, v, now);
    var swept := Sweep(s, l, v, now);
    assert forall i :: 0 <= i < |swept| ==> swept[i].id == l.tracks[i].id;
    FreshSubsequence(s, swept, now);
  }
}
