/** Where every track of a run comes from: one operation starts it, matches it with
    one detection, finds it again once, or leaves it as it was. */
module ObjectSteps {
  import opened Prelude
  import opened Geometry
  import opened StableSort
  import opened ObjectTracks
  import opened ObjectAssociation
  import opened ObjectRuns

  /** One frame: its detections, its image if any, and its time. */
  datatype Scene = Scene(detections: seq<Detection>, view: Option<View>, now: real)

  ghost predicate Usable(f: Scene) { Scaled(f.view) }

  /** `t` was started by a detection of the frame. */
  ghost predicate Started(f: Scene, t: Track)
    requires Usable(f)
  {
    exists d :: d in f.detections && t == WithTemplate(Birth(t.id, d, f.now), f.view)
  }

  /** A detection at `a` may match a track at `b`. */
  predicate Overlaps(s: Settings, a: Box, b: Box) {
    s.iou(a, b) > 0.0 && s.iou(a, b) >= s.iouThreshold
  }

  /** `t` is `before` matched with an overlapping detection of the frame. */
  ghost predicate Rematched(s: Settings, f: Scene, before: Track, t: Track)
    requires Usable(f)
  {
    exists d :: d in f.detections && Overlaps(s, d.bbox, before.bbox)
      && t == WithTemplate(Refresh(s, before, d, f.now), f.view)
  }

  /** `t` is `before` found again by its template. */
  ghost predicate Found(s: Settings, f: Scene, before: Track, t: Track)
    requires Usable(f)
  {
    && f.view.Some? && Locate(s, before, f.view.value).Some?
    && t == VisualUpdate(s, before, f.view.value, f.now)
  }

  /** What a frame can do to a track. */
  ghost predicate Continues(s: Settings, f: Scene, before: Track, t: Track)
    requires Usable(f)
  {
    t == before || Rematched(s, f, before, t) || Found(s, f, before, t)
  }

  /** So far in the frame, every old track is as it was or matched, and every further
      one was started. */
  ghost predicate AssignedFrom(s: Settings, f: Scene, old_: seq<Track>, ts: seq<Track>)
    requires Usable(f)
  {
    && |old_| <= |ts|
    && (forall i :: 0 <= i < |old_| ==> ts[i] == old_[i] || Rematched(s, f, old_[i], ts[i]))
    && (forall i :: |old_| <= i < |ts| ==> Started(f, ts[i]))
  }

  lemma AssignedAppends(s: Settings, f: Scene, old_: seq<Track>, ts: seq<Track>, t: Track)
    requires Usable(f) && AssignedFrom(s, f, old_, ts) && Started(f, t)
    ensures AssignedFrom(s, f, old_, ts + [t])
  {
  }

  lemma AssignedReplaces(s: Settings, f: Scene, old_: seq<Track>, ts: seq<Track>, i: nat, t: Track)
    requires Usable(f) && AssignedFrom(s, f, old_, ts) && i < |old_| && Rematched(s, f, old_[i], t)
    ensures AssignedFrom(s, f, old_, ts[i := t])
  {
  }

  /** An unused track is an old one that nothing has happened to in this frame. */
  lemma UnusedIsOld(st: State, l: Ledger, i: nat)
    requires Progress(st, l) && i < |l.tracks| && l.tracks[i].id !in l.taken
    ensures i < |st.tracks| && l.tracks[i] == st.tracks[i]
  {
  }

  lemma AssignOneFrom(s: Settings, f: Scene, st: State, l: Ledger, d: Detection)
    requires Usable(f) && d in f.detections && Progress(st, l) && AssignedFrom(s, f, st.tracks, l.tracks)
    ensures AssignedFrom(s, f, st.tracks, AssignOne(s, l, d, f.view, f.now).tracks)
  {
    var m := Match(s, l, d.bbox);
    if m.None? {
      AssignedAppends(s, f, st.tracks, l.tracks, WithTemplate(Birth(l.nextId, d, f.now), f.view));
    } else {
      MatchIsUntaken(s, l, d.bbox);
      UnusedIsOld(st, l, m.value);
      AssignedReplaces(s, f, st.tracks, l.tracks, m.value,
                       WithTemplate(Refresh(s, l.tracks[m.value], d, f.now), f.view));
    }
  }

  lemma {:induction false} AssignFrom(s: Settings, f: Scene, st: State, ds: seq<Detection>)
    requires Usable(f) && Sound(st) && forall d :: d in ds ==> d in f.detections
    ensures AssignedFrom(s, f, st.tracks, Assign(s, Start(st), ds, f.view, f.now).tracks)
  {
    if ds != [] {
      var front := ds[..|ds| - 1];
      AssignFrom(s, f, st, front);
      ProgressHolds(s, st, front, f.view, f.now);
      AssignOneFrom(s, f, st, Assign(s, Start(st), front, f.view, f.now), ds[|ds| - 1]);
    }
  }

  lemma AssociatedFrom(s: Settings, f: Scene, st: State)
    requires Usable(f) && Sound(st)
    ensures var l := Associated(s, st, f.detections, f.view, f.now);
      && AssignedFrom(s, f, st.tracks, l.tracks) && Progress(st, l)
  {
    var order := Sort(f.detections, ByConfidence);
    SortCorrect(f.detections, ByConfidence);
    forall d | d in order ensures d in f.detections {
      assert d in multiset(order);
    }
    AssignFrom(s, f, st, order);
    ProgressHolds(s, st, order, f.view, f.now);
  }

  lemma SweptFrom(s: Settings, f: Scene, t: Track, taken: seq<nat>)
    requires Usable(f)
    ensures var t' := Swept(s, t, taken, f.view, f.now);
      t'.id == t.id && (t' == t || (t.id !in taken && Found(s, f, t, t')))
  {
  }

  /** After a frame and before eviction, a track at an old position continues that
      track and the others were started with new ids.  Template matching never
      touches a track that had a detection. */
  lemma ObservedFrom(s: Settings, f: Scene, st: State, i: nat)
    requires Usable(f) && Sound(st) && i < |Observed(s, st, f.detections, f.view, f.now)|
    ensures var t := Observed(s, st, f.detections, f.view, f.now)[i];
      if i < |st.tracks| then t.id == st.tracks[i].id && Continues(s, f, st.tracks[i], t)
      else t.id >= st.nextId && Started(f, t)
  {
    var l := Associated(s, st, f.detections, f.view, f.now);
    AssociatedFrom(s, f, st);
    SweptFrom(s, f, l.tracks[i], l.taken);
    if l.tracks[i].id !in l.taken {
      UnusedIsOld(st, l, i);
    }
  }

  ghost predicate HasId(ts: seq<Track>, id: nat) {
    exists t :: t in ts && t.id == id
  }

  /** Survival over a frame: the track at position `i` has exactly one continuation
      before eviction, and the frame keeps it, and its id, exactly when that is still
      within its grace period. */
  lemma Survives(s: Settings, f: Scene, st: State, i: nat)
    requires Usable(f) && Sound(st) && i < |st.tracks|
    ensures var after := Observed(s, st, f.detections, f.view, f.now);
      var kept := Update(s, st, f.detections, f.view, f.now).tracks;
      && i < |after| && after[i].id == st.tracks[i].id && Continues(s, f, st.tracks[i], after[i])
      && (forall j :: 0 <= j < |after| && j != i ==> after[j].id != st.tracks[i].id)
      && (after[i] in kept <==> IsLive(s, after[i], f.now))
      && (HasId(kept, st.tracks[i].id) <==> IsLive(s, after[i], f.now))
  {
    var l := Associated(s, st, f.detections, f.view, f.now);
    var after := Observed(s, st, f.detections, f.view, f.now);
    AssociatedFrom(s, f, st);
    ObservedFrom(s, f, st, i);
    forall j | 0 <= j < |after| ensures after[j].id == l.tracks[j].id {
      SweptFrom(s, f, l.tracks[j], l.taken);
    }
    KeptIffLive(s, after, f.now, i);
  }

  lemma KeptIffLive(s: Settings, ts: seq<Track>, now: real, i: nat)
    requires i < |ts| && forall j :: 0 <= j < |ts| && j != i ==> ts[j].id != ts[i].id
    ensures ts[i] in Fresh(s, ts, now) <==> IsLive(s, ts[i], now)
    ensures HasId(Fresh(s, ts, now), ts[i].id) <==> IsLive(s, ts[i], now)
  {
    FreshMember(s, ts, now, ts[i]);
    if HasId(Fresh(s, ts, now), ts[i].id) {
      var t :| t in Fresh(s, ts, now) && t.id == ts[i].id;
      FreshMember(s, ts, now, t);
    }
  }

  function SceneOf(op: Op): Scene
    requires op.Feed?
  {
    Scene(op.detections, op.view, op.now)
  }

  /** Where a track of the new state comes from; `None` when it was started. */
  lemma StepOrigin(s: Settings, st: State, op: Op, t: Track) returns (before: Option<Track>)
    requires WellScaled(op) && Sound(st) && t in Step(s, st, op).tracks
    ensures op.Feed? && IsLive(s, t, op.now)
    ensures before.None? ==> Started(SceneOf(op), t) && t.id >= st.nextId
    ensures before.Some? ==> before.value in st.tracks && before.value.id == t.id
                             && Continues(s, SceneOf(op), before.value, t)
  {
    var f := SceneOf(op);
    var after := Observed(s, st, f.detections, f.view, f.now);
    FreshMember(s, after, f.now, t);
    var i :| 0 <= i < |after| && after[i] == t;
    ObservedFrom(s, f, st, i);
    before := if i < |st.tracks| then Some(st.tracks[i]) else None;
  }

  // ---- runs ----

  function StateAfter(s: Settings, ops: seq<Op>, n: nat): State
    requires Runnable(ops) && n <= |ops|
  {
    Run(s, ops[..n])
  }

  /** The tracks after the first `n` operations. */
  function TracksAfter(s: Settings, ops: seq<Op>, n: nat): seq<Track>
    requires Runnable(ops) && n <= |ops|
  {
    StateAfter(s, ops, n).tracks
  }

  lemma NextState(s: Settings, ops: seq<Op>, n: nat)
    requires Runnable(ops) && 0 < n <= |ops|
    ensures StateAfter(s, ops, n) == Step(s, StateAfter(s, ops, n - 1), ops[n - 1])
    ensures Sound(StateAfter(s, ops, n - 1))
  {
    assert ops[..n][..n - 1] == ops[..n - 1];
    ReachableIdsSound(s, ops[..n - 1]);
  }

  /** Operation `n - 1` continues `before` as `t`. */
  ghost predicate ContinuesIn(s: Settings, ops: seq<Op>, n: nat, before: Track, t: Track)
    requires Runnable(ops) && 0 < n <= |ops|
  {
    && ops[n - 1].Feed? && before in TracksAfter(s, ops, n - 1) && before.id == t.id
    && Continues(s, SceneOf(ops[n - 1]), before, t)
  }

  /** The id was handed out by one of the first `n` operations. */
  ghost predicate Issued(s: Settings, ops: seq<Op>, n: nat, id: nat)
    requires Runnable(ops) && n <= |ops|
  {
    id < StateAfter(s, ops, n).nextId
  }

  ghost predicate StartedIn(s: Settings, ops: seq<Op>, n: nat, t: Track)
    requires Runnable(ops) && 0 < n <= |ops|
  {
    ops[n - 1].Feed? && !Issued(s, ops, n - 1, t.id) && Started(SceneOf(ops[n - 1]), t)
  }

  /** Every live track was started by the latest operation or continues a track that
      was live before it. */
  lemma RunOrigin(s: Settings, ops: seq<Op>, n: nat, t: Track) returns (before: Option<Track>)
    requires Runnable(ops) && n <= |ops| && t in TracksAfter(s, ops, n)
    ensures n > 0 && ops[n - 1].Feed? && IsLive(s, t, ops[n - 1].now)
    ensures before.None? ==> StartedIn(s, ops, n, t)
    ensures before.Some? ==> ContinuesIn(s, ops, n, before.value, t)
  {
    NextState(s, ops, n);
    before := StepOrigin(s, StateAfter(s, ops, n - 1), ops[n - 1], t);
  }

  lemma SameIdSameTrack(s: Settings, ops: seq<Op>, n: nat, t: Track, u: Track)
    requires Runnable(ops) && n <= |ops| && t in TracksAfter(s, ops, n) && u in TracksAfter(s, ops, n) && t.id == u.id
    ensures t == u && t.id < StateAfter(s, ops, n).nextId
  {
    ReachableIdsSound(s, ops[..n]);
    SoundIdIsUnique(StateAfter(s, ops, n), t, u);
  }

  lemma SoundIdIsUnique(st: State, t: Track, u: Track)
    requires Sound(st) && t in st.tracks && u in st.tracks && t.id == u.id
    ensures t == u && t.id < st.nextId
  {
    var i :| 0 <= i < |st.tracks| && st.tracks[i] == t;
    var j :| 0 <= j < |st.tracks| && st.tracks[j] == u;
  }

  lemma {:induction false} Climbs(line: seq<nat>, m: nat, n: nat)
    requires m <= n < |line| && forall k :: 0 < k < |line| ==> line[k - 1] <= line[k]
    ensures line[m] <= line[n]
    decreases n
  {
    if m < n {
      Climbs(line, m, n - 1);
    }
  }

  lemma IdsOnlyGrow(s: Settings, ops: seq<Op>, m: nat, n: nat)
    requires Runnable(ops) && m <= n <= |ops|
    ensures StateAfter(s, ops, m).nextId <= StateAfter(s, ops, n).nextId
  {
    var line: seq<nat> := seq(|ops| + 1, k requires 0 <= k <= |ops| => StateAfter(s, ops, k).nextId);
    forall k | 0 < k < |line| ensures line[k - 1] <= line[k] {
      NextState(s, ops, k);
      StepIdsGrow(s, StateAfter(s, ops, k - 1), ops[k - 1]);
    }
    Climbs(line, m, n);
  }

  lemma StepIdsGrow(s: Settings, st: State, op: Op)
    requires WellScaled(op) && Sound(st)
    ensures st.nextId <= Step(s, st, op).nextId
  {
    if op.Feed? {
      AssociatedFrom(s, SceneOf(op), st);
    }
  }

  lemma IdIssued(s: Settings, ops: seq<Op>, m: nat, n: nat, t: Track)
    requires Runnable(ops) && m <= n <= |ops| && t in TracksAfter(s, ops, m)
    ensures Issued(s, ops, n, t.id)
  {
    SameIdSameTrack(s, ops, m, t, t);
    IdsOnlyGrow(s, ops, m, n);
  }

  lemma NotStartedAgain(s: Settings, ops: seq<Op>, m: nat, n: nat, t: Track, t': Track)
    requires Runnable(ops) && m < n <= |ops| && t in TracksAfter(s, ops, m) && t.id == t'.id
    ensures !StartedIn(s, ops, n, t')
  {
    IdIssued(s, ops, m, n - 1, t);
    IssuedIsNotStarted(s, ops, n, t');
  }

  lemma IssuedIsNotStarted(s: Settings, ops: seq<Op>, n: nat, t: Track)
    requires Runnable(ops) && 0 < n <= |ops| && Issued(s, ops, n - 1, t.id)
    ensures !StartedIn(s, ops, n, t)
  {
  }

  /** A track that was live at `m` and is live at `n` was live all the time between,
      so it continues a track just before `n`. */
  lemma OldTrackContinues(s: Settings, ops: seq<Op>, m: nat, n: nat, t: Track, t': Track) returns (before: Track)
    requires Runnable(ops) && m < n <= |ops|
    requires t in TracksAfter(s, ops, m) && t' in TracksAfter(s, ops, n) && t.id == t'.id
    ensures ContinuesIn(s, ops, n, before, t')
  {
    NotStartedAgain(s, ops, m, n, t, t');
    var origin := RunOrigin(s, ops, n, t');
    before := origin.value;
  }

  /** Operation `m - 1` started, matched or found the track. */
  ghost predicate EventIn(s: Settings, ops: seq<Op>, m: nat, t: Track)
    requires Runnable(ops) && 0 < m <= |ops|
  {
    && ops[m - 1].Feed?
    && ( || StartedIn(s, ops, m, t)
         || exists before :: before in TracksAfter(s, ops, m - 1) && before.id == t.id
              && (Rematched(s, SceneOf(ops[m - 1]), before, t) || Found(s, SceneOf(ops[m - 1]), before, t)))
  }

  lemma EventSetsTime(s: Settings, ops: seq<Op>, m: nat, t: Track)
    requires Runnable(ops) && 0 < m <= |ops| && EventIn(s, ops, m, t)
    ensures t.lastSeenAt == ops[m - 1].now
  {
    var f := SceneOf(ops[m - 1]);
    if !StartedIn(s, ops, m, t) {
      var before :| before in TracksAfter(s, ops, m - 1) && before.id == t.id
                    && (Rematched(s, f, before, t) || Found(s, f, before, t));
      EventTime(s, f, before, t);
    }
  }

  lemma EventTime(s: Settings, f: Scene, before: Track, t: Track)
    requires Usable(f) && (Rematched(s, f, before, t) || Found(s, f, before, t))
    ensures t.lastSeenAt == f.now
  {
  }

  lemma ChangedIsEvent(s: Settings, ops: seq<Op>, n: nat, before: Track, t: Track)
    requires Runnable(ops) && 0 < n <= |ops| && ContinuesIn(s, ops, n, before, t) && before != t
    ensures EventIn(s, ops, n, t)
  {
  }

  ghost function Timeline(s: Settings, ops: seq<Op>): (line: seq<seq<Track>>)
    requires Runnable(ops)
    ensures |line| == |ops| + 1 && line[0] == []
    ensures forall n :: 0 <= n <= |ops| ==> line[n] == TracksAfter(s, ops, n)
  {
    assert ops[..0] == [];
    seq(|ops| + 1, n requires 0 <= n <= |ops| => TracksAfter(s, ops, n))
  }

  /** Back to the moment from which on an element has been there without a break. */
  lemma {:induction false} BackToArrival<T>(line: seq<seq<T>>, n: nat, t: T) returns (m: nat)
    requires n < |line| && line[0] == [] && t in line[n]
    ensures 0 < m <= n && t !in line[m - 1] && forall k :: m <= k <= n ==> t in line[k]
  {
    if t in line[n - 1] {
      m := BackToArrival(line, n - 1, t);
    } else {
      m := n;
    }
  }

  lemma ArrivalIsEvent(s: Settings, ops: seq<Op>, m: nat, t: Track)
    requires Runnable(ops) && 0 < m <= |ops| && t in TracksAfter(s, ops, m) && t !in TracksAfter(s, ops, m - 1)
    ensures EventIn(s, ops, m, t)
  {
    var before := RunOrigin(s, ops, m, t);
    if before.Some? {
      ChangedIsEvent(s, ops, m, before.value, t);
    }
  }

  /** A track was last seen at the operation that last started, matched or found it,
      and has been the same after every operation since. */
  lemma LastSeenAtLatestEvent(s: Settings, ops: seq<Op>, n: nat, t: Track) returns (m: nat)
    requires Runnable(ops) && n <= |ops| && t in TracksAfter(s, ops, n)
    ensures 0 < m <= n && EventIn(s, ops, m, t) && ops[m - 1].now == t.lastSeenAt
    ensures forall k :: m <= k <= n ==> t in TracksAfter(s, ops, k)
  {
    var line := Timeline(s, ops);
    m := BackToArrival(line, n, t);
    ArrivalIsEvent(s, ops, m, t);
    EventSetsTime(s, ops, m, t);
    forall k | m <= k <= n ensures t in TracksAfter(s, ops, k) {
      assert t in line[k];
    }
  }

  // ---- how a run loses a track ----

  /** A run loses a track only by `Clear` or by a frame: the frame continues it as one
      track, and loses its id exactly when that is no longer within its grace period. */
  lemma RunSurvives(s: Settings, ops: seq<Op>, n: nat, t: Track) returns (t': Track)
    requires Runnable(ops) && 0 < n <= |ops| && t in TracksAfter(s, ops, n - 1)
    ensures ops[n - 1].Clear? ==> TracksAfter(s, ops, n) == []
    ensures ops[n - 1].Feed? ==>
      && t'.id == t.id && ContinuesIn(s, ops, n, t, t')
      && (t' in TracksAfter(s, ops, n) <==> IsLive(s, t', ops[n - 1].now))
      && (HasId(TracksAfter(s, ops, n), t.id) <==> IsLive(s, t', ops[n - 1].now))
  {
    NextState(s, ops, n);
    var st := StateAfter(s, ops, n - 1);
    var i :| 0 <= i < |st.tracks| && st.tracks[i] == t;
    t' := t;
    if ops[n - 1].Feed? {
      var f := SceneOf(ops[n - 1]);
      Survives(s, f, st, i);
      t' := Observed(s, st, f.detections, f.view, f.now)[i];
    }
  }

  ghost predicate Lost(s: Settings, ops: seq<Op>, n: nat, id: nat)
    requires Runnable(ops) && n <= |ops|
  {
    Issued(s, ops, n, id) && !HasId(TracksAfter(s, ops, n), id)
  }

  lemma LostStaysLost(s: Settings, ops: seq<Op>, n: nat, id: nat)
    requires Runnable(ops) && 0 < n <= |ops| && Lost(s, ops, n - 1, id)
    ensures Lost(s, ops, n, id)
  {
    IdsOnlyGrow(s, ops, n - 1, n);
    if HasId(TracksAfter(s, ops, n), id) {
      var t :| t in TracksAfter(s, ops, n) && t.id == id;
      var before := RunOrigin(s, ops, n, t);
    }
  }

  /** An id that a run lost never comes back. */
  lemma LostForGood(s: Settings, ops: seq<Op>, m: nat, n: nat, id: nat)
    requires Runnable(ops) && m <= n <= |ops| && Lost(s, ops, m, id)
    ensures Lost(s, ops, n, id)
  {
    var flags := seq(|ops| + 1, k requires 0 <= k <= |ops| => Lost(s, ops, k, id));
    forall k | 0 < k < |flags| && flags[k - 1] ensures flags[k] {
      LostStaysLost(s, ops, k, id);
    }
    StaysTrue(flags, m, n);
  }
}
