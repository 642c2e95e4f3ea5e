/** Identity stability of the object tracker: detections and rediscoveries that stay at
    places kept apart keep their ids for a whole run.  A place may be missed for a while;
    the hits of its track count the frames that listed it. */
module ObjectStability {
  import opened Prelude
  import opened Geometry
  import opened StableSort
  import opened Association
  import opened ObjectTracks
  import opened ObjectAssociation
  import opened ObjectRuns
  import opened ObjectSteps

  /** The place a box belongs to, named by a box; `None` for boxes of no place. */
  type Places = Box -> Option<Box>

  /** A track at `old_` matches a detection at `new_`, does not count it as moved, and
      stays at its place when blended with it. */
  ghost predicate Together(s: Settings, place: Places, old_: Box, new_: Box) {
    && Overlaps(s, new_, old_) && Within(Center(old_), Center(new_), s.maxCenterShift)
    && place(Blend(old_, new_, s.bboxAlpha)) == place(old_)
    && place(Blend(old_, new_, s.visualAlpha)) == place(old_)
  }

  /** Boxes of one place belong together and boxes of different places do not overlap. */
  ghost predicate KeptApart(s: Settings, place: Places) {
    && (forall a, b {:trigger Together(s, place, a, b)} ::
          place(a).Some? && place(a) == place(b) ==> Together(s, place, a, b))
    && (forall a, b {:trigger s.iou(a, b)} ::
          place(a).Some? && place(b).Some? && place(a) != place(b) ==> s.iou(a, b) <= 0.0)
  }

  /** The detections are at places, no two at the same one. */
  ghost predicate Lists(ds: seq<Detection>, place: Places) {
    && (forall i :: 0 <= i < |ds| ==> place(ds[i].bbox).Some?)
    && (forall i, j :: 0 <= i < j < |ds| ==> place(ds[i].bbox) != place(ds[j].bbox))
  }

  /** Some detection is at place `q`. */
  predicate Shows(ds: seq<Detection>, place: Places, q: Option<Box>) {
    exists i :: 0 <= i < |ds| && place(ds[i].bbox) == q
  }

  // ---- the order of a frame's detections does not matter ----

  lemma CountAtMostOnce(ds: seq<Detection>, i: nat, j: nat)
    requires i < j < |ds| && ds[i] == ds[j]
    ensures multiset(ds)[ds[i]] >= 2
  {
    assert ds == ds[..j] + ds[j..];
    assert ds[..j][i] == ds[i] && ds[j..][0] == ds[j];
    assert ds[i] in multiset(ds[..j]) && ds[i] in multiset(ds[j..]);
  }

  lemma {:induction false} ListedOnce(ds: seq<Detection>, place: Places, d: Detection)
    requires Lists(ds, place)
    ensures multiset(ds)[d] <= 1
  {
    if ds != [] {
      var n := |ds| - 1;
      assert ds == ds[..n] + [ds[n]];
      ListedOnce(ds[..n], place, d);
      if d == ds[n] {
        assert d !in ds[..n];
      }
    }
  }

  lemma SortLists(ds: seq<Detection>, place: Places)
    requires Lists(ds, place)
    ensures Lists(Sort(ds, ByConfidence), place)
    ensures forall q :: Shows(Sort(ds, ByConfidence), place, q) <==> Shows(ds, place, q)
  {
    var order := Sort(ds, ByConfidence);
    SortCorrect(ds, ByConfidence);
    forall i | 0 <= i < |order| ensures order[i] in ds {
      assert order[i] in multiset(order);
    }
    forall i | 0 <= i < |ds| ensures ds[i] in order {
      assert ds[i] in multiset(ds);
    }
    forall i, j | 0 <= i < j < |order| ensures place(order[i].bbox) != place(order[j].bbox) {
      if order[i] == order[j] {
        CountAtMostOnce(order, i, j);
        ListedOnce(ds, place, order[i]);
      }
    }
  }

  // ---- one frame ----

  /** One track per place. */
  ghost predicate Steady(ts: seq<Track>, place: Places) {
    && (forall i :: 0 <= i < |ts| ==> place(ts[i].bbox).Some?)
    && (forall i, j :: 0 <= i < j < |ts| ==> place(ts[i].bbox) != place(ts[j].bbox))
  }

  /** The hits of the track at this position before the frame. */
  function HitsBefore(st: State, i: nat): (int, int) {
    if i < |st.tracks| then (st.tracks[i].semanticHits, st.tracks[i].consecutiveHits) else (0, 0)
  }

  /** The track was seen in this frame: one more hit of each kind, at this time. */
  ghost predicate SeenNow(st: State, i: nat, t: Track, now: real) {
    t.lastSeenAt == now && (t.semanticHits, t.consecutiveHits) == (HitsBefore(st, i).0 + 1, HitsBefore(st, i).1 + 1)
  }

  /** An old track keeps its position, id and place; a track is taken exactly if its
      place is done, and then was seen once; otherwise it is as it was. */
  ghost predicate InStep(st: State, taken: seq<nat>, done: seq<Detection>, now: real, place: Places, i: nat, t: Track) {
    && (i < |st.tracks| ==> t.id == st.tracks[i].id && place(t.bbox) == place(st.tracks[i].bbox))
    && (t.id in taken <==> Shows(done, place, place(t.bbox)))
    && (t.id in taken ==> SeenNow(st, i, t, now))
    && (t.id !in taken ==> i < |st.tracks| && t == st.tracks[i])
  }

  ghost predicate AllInStep(st: State, ts: seq<Track>, taken: seq<nat>, done: seq<Detection>, now: real,
                            place: Places)
  {
    forall i :: 0 <= i < |ts| ==> InStep(st, taken, done, now, place, i, ts[i])
  }

  ghost predicate IsAt(ts: seq<Track>, place: Places, i: int, q: Option<Box>) {
    0 <= i < |ts| && place(ts[i].bbox) == q
  }

  ghost predicate Covers(ts: seq<Track>, place: Places, done: seq<Detection>) {
    forall q :: Shows(done, place, q) ==> exists i :: IsAt(ts, place, i, q)
  }

  /** After the detections `done` of a frame every track is in step, and every done
      place has one. */
  ghost predicate Settled(st: State, l: Ledger, done: seq<Detection>, now: real, place: Places) {
    && |l.tracks| >= |st.tracks| && Steady(l.tracks, place) && Covers(l.tracks, place, done)
    && AllInStep(st, l.tracks, l.taken, done, now, place)
  }

  /** A detection whose place has a track finds exactly that track, otherwise none. */
  lemma MatchFindsOwnTrack(s: Settings, st: State, l: Ledger, done: seq<Detection>, now: real, place: Places,
                           b: Box, m: nat)
    requires KeptApart(s, place) && Settled(st, l, done, now, place)
    requires place(b).Some? && !Shows(done, place, place(b))
    requires m <= |l.tracks| && (m < |l.tracks| ==> place(l.tracks[m].bbox) == place(b))
    requires m == |l.tracks| ==> forall i :: 0 <= i < |l.tracks| ==> place(l.tracks[i].bbox) != place(b)
    ensures Match(s, l, b) == if m < |l.tracks| then Some(m) else None
  {
    var scores := Scores(s, l, b);
    forall i | 0 <= i < |l.tracks| ensures i != m ==> scores[i] <= 0.0 {
      if i != m {
        assert place(l.tracks[i].bbox) != place(b);
      }
    }
    if m < |l.tracks| {
      assert InStep(st, l.taken, done, now, place, m, l.tracks[m]);
      assert Together(s, place, l.tracks[m].bbox, b);
      assert scores[m] == s.iou(b, l.tracks[m].bbox);
      FirstBestUnique(scores, Some(m));
    } else {
      FirstBestUnique(scores, None);
    }
  }

  lemma ShowsAfter(done: seq<Detection>, place: Places, d: Detection, q: Option<Box>)
    ensures Shows(done + [d], place, q) <==> Shows(done, place, q) || q == place(d.bbox)
  {
    assert (done + [d])[|done|] == d;
    if Shows(done, place, q) {
      var i :| 0 <= i < |done| && place(done[i].bbox) == q;
      assert place((done + [d])[i].bbox) == q;
    }
  }

  lemma PlacesKept(ts: seq<Track>, ts': seq<Track>, place: Places, done: seq<Detection>, d: Detection, k: nat)
    requires Covers(ts, place, done) && |ts| <= |ts'| && IsAt(ts', place, k, place(d.bbox))
    requires forall i :: 0 <= i < |ts| ==> place(ts'[i].bbox) == place(ts[i].bbox)
    ensures Covers(ts', place, done + [d])
  {
    forall q | Shows(done + [d], place, q) ensures exists i :: IsAt(ts', place, i, q) {
      ShowsAfter(done, place, d, q);
      if Shows(done, place, q) {
        var i :| IsAt(ts, place, i, q);
        assert IsAt(ts', place, i, q);
      }
    }
  }

  lemma OtherInStep(st: State, taken: seq<nat>, done: seq<Detection>, now: real, place: Places, i: nat, t: Track,
                    d: Detection, id: nat)
    requires InStep(st, taken, done, now, place, i, t) && place(t.bbox) != place(d.bbox) && t.id != id
    ensures InStep(st, taken + [id], done + [d], now, place, i, t)
  {
    ShowsAfter(done, place, d, place(t.bbox));
  }

  lemma TakenInStep(st: State, taken: seq<nat>, done: seq<Detection>, now: real, place: Places, i: nat, t: Track,
                    d: Detection)
    requires i < |st.tracks| ==> t.id == st.tracks[i].id && place(t.bbox) == place(st.tracks[i].bbox)
    requires place(t.bbox) == place(d.bbox) && SeenNow(st, i, t, now)
    ensures InStep(st, taken + [t.id], done + [d], now, place, i, t)
  {
    ShowsAfter(done, place, d, place(t.bbox));
    assert (taken + [t.id])[|taken|] == t.id;
  }

  lemma InStepAppends(st: State, ts: seq<Track>, taken: seq<nat>, done: seq<Detection>, now: real, place: Places,
                      d: Detection, t: Track)
    requires AllInStep(st, ts, taken, done, now, place) && |ts| >= |st.tracks|
    requires forall i :: 0 <= i < |ts| ==> place(ts[i].bbox) != place(d.bbox) && ts[i].id != t.id
    requires place(t.bbox) == place(d.bbox) && SeenNow(st, |ts|, t, now)
    ensures AllInStep(st, ts + [t], taken + [t.id], done + [d], now, place)
  {
    forall i | 0 <= i < |ts| ensures InStep(st, taken + [t.id], done + [d], now, place, i, ts[i]) {
      OtherInStep(st, taken, done, now, place, i, ts[i], d, t.id);
    }
    TakenInStep(st, taken, done, now, place, |ts|, t, d);
  }

  lemma InStepReplaces(st: State, ts: seq<Track>, taken: seq<nat>, done: seq<Detection>, now: real, place: Places,
                       d: Detection, m: nat, t: Track)
    requires AllInStep(st, ts, taken, done, now, place) && m < |ts|
    requires forall i :: 0 <= i < |ts| && i != m ==> place(ts[i].bbox) != place(d.bbox) && ts[i].id != t.id
    requires t.id == ts[m].id && place(t.bbox) == place(ts[m].bbox) == place(d.bbox) && SeenNow(st, m, t, now)
    ensures AllInStep(st, ts[m := t], taken + [t.id], done + [d], now, place)
  {
    forall i | 0 <= i < |ts| && i != m ensures InStep(st, taken + [t.id], done + [d], now, place, i, ts[i]) {
      OtherInStep(st, taken, done, now, place, i, ts[i], d, t.id);
    }
    assert InStep(st, taken, done, now, place, m, ts[m]);
    TakenInStep(st, taken, done, now, place, m, t, d);
  }

  lemma SettledAppends(st: State, l: Ledger, done: seq<Detection>, now: real, place: Places,
                       d: Detection, t: Track)
    requires Settled(st, l, done, now, place) && place(d.bbox).Some?
    requires forall i :: 0 <= i < |l.tracks| ==> place(l.tracks[i].bbox) != place(d.bbox) && l.tracks[i].id != t.id
    requires t.id == l.nextId && t.bbox == d.bbox && SeenNow(st, |l.tracks|, t, now)
    ensures Settled(st, Appended(l, t), done + [d], now, place)
  {
    InStepAppends(st, l.tracks, l.taken, done, now, place, d, t);
    PlacesKept(l.tracks, Appended(l, t).tracks, place, done, d, |l.tracks|);
  }

  lemma SettledReplaces(st: State, l: Ledger, done: seq<Detection>, now: real, place: Places,
                        d: Detection, m: nat, t: Track)
    requires Settled(st, l, done, now, place) && m < |l.tracks| && place(l.tracks[m].bbox) == place(d.bbox)
    requires DistinctIds(l.tracks)
    requires t.id == l.tracks[m].id && place(t.bbox) == place(d.bbox) && SeenNow(st, m, t, now)
    ensures Settled(st, Replaced(l, m, t), done + [d], now, place)
  {
    InStepReplaces(st, l.tracks, l.taken, done, now, place, d, m, t);
    PlacesKept(l.tracks, Replaced(l, m, t).tracks, place, done, d, m);
  }

  /** A track refreshed at its own place stays there and gains one hit of each kind. */
  lemma RefreshInPlace(s: Settings, place: Places, t: Track, d: Detection, v: Option<View>, now: real)
    requires Scaled(v) && Together(s, place, t.bbox, d.bbox)
    ensures var t' := WithTemplate(Refresh(s, t, d, now), v);
      && t'.id == t.id && place(t'.bbox) == place(t.bbox) && t'.lastSeenAt == now
      && t'.semanticHits == t.semanticHits + 1 && t'.consecutiveHits == t.consecutiveHits + 1
  {
  }

  lemma BelongTogether(s: Settings, place: Places, old_: Box, new_: Box)
    requires KeptApart(s, place) && place(old_).Some? && place(old_) == place(new_)
    ensures Together(s, place, old_, new_)
  {
  }

  lemma RefreshedIsSeen(s: Settings, st: State, l: Ledger, done: seq<Detection>, d: Detection, v: Option<View>,
                        now: real, place: Places, m: nat)
    requires Scaled(v) && KeptApart(s, place) && m < |l.tracks|
    requires place(d.bbox).Some? && place(l.tracks[m].bbox) == place(d.bbox)
    requires InStep(st, l.taken, done, now, place, m, l.tracks[m]) && !Shows(done, place, place(d.bbox))
    ensures var t := WithTemplate(Refresh(s, l.tracks[m], d, now), v);
      t.id == l.tracks[m].id && place(t.bbox) == place(d.bbox) && SeenNow(st, m, t, now)
  {
    BelongTogether(s, place, l.tracks[m].bbox, d.bbox);
    RefreshInPlace(s, place, l.tracks[m], d, v, now);
  }

  lemma KnownSettles(s: Settings, st: State, l: Ledger, done: seq<Detection>, v: Option<View>, now: real,
                     place: Places, d: Detection, m: nat)
    requires Scaled(v) && KeptApart(s, place)
    requires Settled(st, l, done, now, place) && place(d.bbox).Some? && !Shows(done, place, place(d.bbox))
    requires DistinctIds(l.tracks) && m < |l.tracks| && place(l.tracks[m].bbox) == place(d.bbox)
    ensures Settled(st, AssignOne(s, l, d, v, now), done + [d], now, place)
  {
    MatchFindsOwnTrack(s, st, l, done, now, place, d.bbox, m);
    RefreshedIsSeen(s, st, l, done, d, v, now, place, m);
    SettledReplaces(st, l, done, now, place, d, m, WithTemplate(Refresh(s, l.tracks[m], d, now), v));
  }

  lemma UnknownSettles(s: Settings, st: State, l: Ledger, done: seq<Detection>, v: Option<View>, now: real,
                       place: Places, d: Detection)
    requires Scaled(v) && KeptApart(s, place) && Settled(st, l, done, now, place)
    requires place(d.bbox).Some? && !Shows(done, place, place(d.bbox))
    requires forall i :: 0 <= i < |l.tracks| ==> place(l.tracks[i].bbox) != place(d.bbox) && l.tracks[i].id < l.nextId
    ensures Settled(st, AssignOne(s, l, d, v, now), done + [d], now, place)
  {
    MatchFindsOwnTrack(s, st, l, done, now, place, d.bbox, |l.tracks|);
    SettledAppends(st, l, done, now, place, d, WithTemplate(Birth(l.nextId, d, now), v));
  }

  lemma DetectionSettles(s: Settings, st: State, l: Ledger, done: seq<Detection>, v: Option<View>, now: real,
                         place: Places, d: Detection)
    requires Scaled(v) && KeptApart(s, place)
    requires Settled(st, l, done, now, place) && place(d.bbox).Some? && !Shows(done, place, place(d.bbox))
      && Progress(st, l)
    ensures Settled(st, AssignOne(s, l, d, v, now), done + [d], now, place)
  {
    if m :| 0 <= m < |l.tracks| && place(l.tracks[m].bbox) == place(d.bbox) {
      KnownSettles(s, st, l, done, v, now, place, d, m);
    } else {
      UnknownSettles(s, st, l, done, v, now, place, d);
    }
  }

  ghost predicate FrameSettled(s: Settings, st: State, ds: seq<Detection>, v: Option<View>, now: real, place: Places)
    requires Scaled(v)
  {
    Settled(st, Assign(s, Start(st), ds, v, now), ds, now, place)
  }

  lemma NextSettles(s: Settings, st: State, ds: seq<Detection>, v: Option<View>, now: real, place: Places)
    requires Scaled(v) && KeptApart(s, place)
    requires Sound(st) && ds != [] && Lists(ds, place) && FrameSettled(s, st, ds[..|ds| - 1], v, now, place)
    ensures FrameSettled(s, st, ds, v, now, place)
  {
    var done, d := ds[..|ds| - 1], ds[|ds| - 1];
    assert ds == done + [d];
    ProgressHolds(s, st, done, v, now);
    DetectionSettles(s, st, Assign(s, Start(st), done, v, now), done, v, now, place, d);
  }

  lemma {:induction false} FrameSettles(s: Settings, st: State, ds: seq<Detection>, v: Option<View>, now: real,
                                        place: Places)
    requires Scaled(v) && KeptApart(s, place) && Lists(ds, place)
    requires Sound(st) && Steady(st.tracks, place)
    ensures FrameSettled(s, st, ds, v, now, place)
  {
    if ds != [] {
      FrameSettles(s, st, ds[..|ds| - 1], v, now, place);
      NextSettles(s, st, ds, v, now, place);
    }
  }

  /** The order of the detections does not matter to what settles. */
  lemma AssociatedSettles(s: Settings, st: State, op: Op, place: Places)
    requires op.Feed? && WellScaled(op) && KeptApart(s, place)
    requires Lists(op.detections, place) && Sound(st) && Steady(st.tracks, place)
    ensures Settled(st, Associated(s, st, op.detections, op.view, op.now), op.detections, op.now, place)
  {
    var order := Sort(op.detections, ByConfidence);
    SortLists(op.detections, place);
    FrameSettles(s, st, order, op.view, op.now, place);
  }

  // ---- what a run makes of one place ----

  /** How a frame meets a place: some detection is there, or template matching finds the
      track there again, or neither. */
  datatype Glimpse = Listed | FoundAgain | Missed

  /** The image is searched and shows the template of a track at place `q`. */
  ghost predicate SearchFinds(s: Settings, ts: seq<Track>, op: Op, place: Places, q: Option<Box>)
    requires op.Feed? && WellScaled(op)
  {
    && s.visualEnabled && op.view.Some?
    && exists t :: t in ts && place(t.bbox) == q && Locate(s, t, op.view.value).Some?
  }

  ghost function GlimpseOf(s: Settings, ts: seq<Track>, op: Op, place: Places, q: Option<Box>): Glimpse
    requires op.Feed? && WellScaled(op)
  {
    if Shows(op.detections, place, q) then Listed else if SearchFinds(s, ts, op, place, q) then FoundAgain else Missed
  }

  /** What was found is at the place. */
  ghost predicate FoundInPlace(s: Settings, ts: seq<Track>, op: Op, place: Places, q: Option<Box>)
    requires op.Feed? && WellScaled(op) && op.view.Some?
  {
    forall t :: t in ts && place(t.bbox) == q && Locate(s, t, op.view.value).Some? ==>
      place(Scale(Locate(s, t, op.view.value).value.0, op.view.value)) == q
  }

  /** The record of one place: when it was last listed or found, in how many frames it was
      listed, and its hits in a row. */
  datatype Log = Log(at: Option<real>, listings: int, hits: int)

  const BLANK := Log(None, 0, 0)

  /** A listing counts one hit.  Being found again counts one too once the place was listed
      often enough to be static, and starts over before. */
  function LogStep(s: Settings, log: Log, g: Glimpse, now: real): Log {
    match g
    case Listed => Log(Some(now), log.listings + 1, log.hits + 1)
    case FoundAgain => Log(Some(now), log.listings, if log.listings >= s.minHitsForStatic then log.hits + 1 else 1)
    case Missed => log
  }

  ghost function LogOf(s: Settings, ops: seq<Op>, place: Places, q: Option<Box>): Log
    requires Runnable(ops)
  {
    if ops == [] then BLANK
    else
      var past, op := ops[..|ops| - 1], ops[|ops| - 1];
      if op.Clear? then BLANK
      else LogStep(s, LogOf(s, past, place, q), GlimpseOf(s, Run(s, past).tracks, op, place, q), op.now)
  }

  lemma LogOfStep(s: Settings, past: seq<Op>, op: Op, place: Places, q: Option<Box>)
    requires Runnable(past) && op.Feed? && WellScaled(op)
    ensures Runnable(past + [op])
    ensures LogOf(s, past + [op], place, q)
      == LogStep(s, LogOf(s, past, place, q), GlimpseOf(s, Run(s, past).tracks, op, place, q), op.now)
  {
    assert (past + [op])[..|past|] == past;
  }

  lemma {:induction false} NeverSeenIsBlank(s: Settings, ops: seq<Op>, place: Places, q: Option<Box>)
    requires Runnable(ops) && LogOf(s, ops, place, q).at.None?
    ensures LogOf(s, ops, place, q) == BLANK
  {
    if ops != [] && ops[|ops| - 1].Feed? {
      NeverSeenIsBlank(s, ops[..|ops| - 1], place, q);
    }
  }

  ghost predicate Fits(log: Log, t: Track) {
    log == Log(Some(t.lastSeenAt), t.semanticHits, t.consecutiveHits)
  }

  lemma TakenFits(s: Settings, st: State, i: nat, t: Track, now: real, log: Log)
    requires SeenNow(st, i, t, now) && if i < |st.tracks| then Fits(log, st.tracks[i]) else log == BLANK
    ensures Fits(LogStep(s, log, Listed, now), t)
  {
  }

  lemma FoundFits(s: Settings, t: Track, v: View, now: real, place: Places, log: Log)
    requires v.scaleX != 0.0 && v.scaleY != 0.0 && Fits(log, t)
    requires Locate(s, t, v).Some? && Together(s, place, t.bbox, Scale(Locate(s, t, v).value.0, v))
    ensures var t' := VisualUpdate(s, t, v, now);
      t'.id == t.id && place(t'.bbox) == place(t.bbox) && Fits(LogStep(s, log, FoundAgain, now), t')
  {
  }

  /** With one track at the place, the search is about that track. */
  lemma SearchIsOfTrack(s: Settings, ts: seq<Track>, op: Op, place: Places, i: nat)
    requires op.Feed? && WellScaled(op) && Steady(ts, place) && i < |ts|
    ensures SearchFinds(s, ts, op, place, place(ts[i].bbox)) <==>
      s.visualEnabled && op.view.Some? && Locate(s, ts[i], op.view.value).Some?
  {
    if SearchFinds(s, ts, op, place, place(ts[i].bbox)) {
      var t :| t in ts && place(t.bbox) == place(ts[i].bbox) && Locate(s, t, op.view.value).Some?;
      var j :| 0 <= j < |ts| && ts[j] == t;
    }
  }

  // ---- runs ----

  /** How long the tracker keeps, without a detection, a track that has so many hits
      and no strong margin. */
  function Patience(s: Settings, hits: int): real {
    if hits >= s.minHitsForPublish then s.maxMissed else MinReal(s.unconfirmedMaxMissed, s.strongMaxMissed)
  }

  lemma PatienceIsGrace(s: Settings, t: Track)
    requires Clamped(s)
    ensures Patience(s, t.semanticHits) <= MaxMissedFor(s, t)
  {
  }

  /** A frame that does not list a known place finds its track there by template
      matching, or comes within the grace period. */
  ghost predicate Bears(s: Settings, ts: seq<Track>, log: Log, op: Op, place: Places, q: Option<Box>)
    requires op.Feed? && WellScaled(op)
  {
    match GlimpseOf(s, ts, op, place, q)
    case Listed => true
    case FoundAgain => FoundInPlace(s, ts, op, place, q)
    case Missed => log.at.Some? ==> op.now - log.at.value <= Patience(s, log.listings)
  }

  /** No frame of the run leaves a place out for too long or finds its track elsewhere. */
  ghost predicate Bearable(s: Settings, ops: seq<Op>, place: Places)
    requires Runnable(ops) && forall i :: 0 <= i < |ops| ==> ops[i].Feed?
  {
    forall i, q :: 0 <= i < |ops| ==>
      Bears(s, TracksAfter(s, ops, i), LogOf(s, ops[..i], place, q), ops[i], place, q)
  }

  /** A run of frames that list places. */
  ghost predicate Attended(s: Settings, ops: seq<Op>, place: Places) {
    && Runnable(ops)
    && (forall i :: 0 <= i < |ops| ==> ops[i].Feed? && Lists(ops[i].detections, place))
    && Bearable(s, ops, place)
  }

  /** Settings that keep what was just seen. */
  ghost predicate Patient(s: Settings) {
    Clamped(s) && s.maxMissed >= 0.0 && s.unconfirmedMaxMissed >= 0.0
  }

  ghost predicate Peaceful(s: Settings, ops: seq<Op>, place: Places) {
    Patient(s) && KeptApart(s, place) && Attended(s, ops, place)
  }

  /** The tracks agree with the logs, and every place that has a log has a track. */
  ghost predicate Remembers(s: Settings, ops: seq<Op>, place: Places, ts: seq<Track>)
    requires Runnable(ops)
  {
    && (forall i :: 0 <= i < |ts| ==> Fits(LogOf(s, ops, place, place(ts[i].bbox)), ts[i]))
    && (forall q :: LogOf(s, ops, place, q).at.Some? ==> exists i :: IsAt(ts, place, i, q))
  }

  /** The tracker holds one track for every place seen so far, with its log. */
  ghost predicate Standing(s: Settings, ops: seq<Op>, place: Places)
    requires Runnable(ops)
  {
    Steady(Run(s, ops).tracks, place) && Remembers(s, ops, place, Run(s, ops).tracks)
  }

  /** After the frame the track is still there, at its place, and has this log. */
  ghost predicate Stays(s: Settings, op: Op, place: Places, t: Track, t': Track, log: Log)
    requires op.Feed?
  {
    t'.id == t.id && place(t'.bbox) == place(t.bbox) && Fits(log, t') && IsLive(s, t', op.now)
  }

  lemma TakenStays(s: Settings, st: State, op: Op, l: Ledger, place: Places, i: nat, log: Log)
    requires op.Feed? && WellScaled(op) && Patient(s) && i < |l.tracks| && l.tracks[i].id in l.taken
    requires InStep(st, l.taken, op.detections, op.now, place, i, l.tracks[i])
    requires if i < |st.tracks| then Fits(log, st.tracks[i]) else log == BLANK
    ensures Stays(s, op, place, l.tracks[i], Swept(s, l.tracks[i], l.taken, op.view, op.now),
                  LogStep(s, log, GlimpseOf(s, st.tracks, op, place, place(l.tracks[i].bbox)), op.now))
  {
    TakenFits(s, st, i, l.tracks[i], op.now, log);
  }

  lemma UntakenStays(s: Settings, st: State, op: Op, l: Ledger, place: Places, i: nat, log: Log)
    requires op.Feed? && WellScaled(op) && Patient(s) && KeptApart(s, place)
    requires i < |l.tracks| && l.tracks[i].id !in l.taken
    requires Steady(st.tracks, place) && InStep(st, l.taken, op.detections, op.now, place, i, l.tracks[i])
    requires Fits(log, l.tracks[i]) && Bears(s, st.tracks, log, op, place, place(l.tracks[i].bbox))
    ensures Stays(s, op, place, l.tracks[i], Swept(s, l.tracks[i], l.taken, op.view, op.now),
                  LogStep(s, log, GlimpseOf(s, st.tracks, op, place, place(l.tracks[i].bbox)), op.now))
  {
    var t := l.tracks[i];
    SearchIsOfTrack(s, st.tracks, op, place, i);
    PatienceIsGrace(s, t);
    if SearchFinds(s, st.tracks, op, place, place(t.bbox)) {
      BelongTogether(s, place, t.bbox, Scale(Locate(s, t, op.view.value).value.0, op.view.value));
      FoundFits(s, t, op.view.value, op.now, place, log);
    }
  }

  lemma BlankWithoutTrack(s: Settings, past: seq<Op>, st: State, op: Op, l: Ledger, place: Places, i: nat)
    requires Runnable(past) && op.Feed? && Remembers(s, past, place, st.tracks)
    requires Settled(st, l, op.detections, op.now, place) && |st.tracks| <= i < |l.tracks|
    ensures LogOf(s, past, place, place(l.tracks[i].bbox)) == BLANK
  {
    var q := place(l.tracks[i].bbox);
    forall k | 0 <= k < |st.tracks| ensures place(st.tracks[k].bbox) != q {
      assert InStep(st, l.taken, op.detections, op.now, place, k, l.tracks[k]);
    }
    NeverSeenIsBlank(s, past, place, q);
  }

  /** Every track keeps its id, its place and its log over a frame, and is not evicted. */
  lemma TrackStays(s: Settings, past: seq<Op>, op: Op, l: Ledger, place: Places, i: nat)
    requires Runnable(past) && op.Feed? && WellScaled(op) && Patient(s) && KeptApart(s, place)
    requires Standing(s, past, place)
    requires Settled(Run(s, past), l, op.detections, op.now, place) && i < |l.tracks|
    requires var q := place(l.tracks[i].bbox); Bears(s, Run(s, past).tracks, LogOf(s, past, place, q), op, place, q)
    ensures Runnable(past + [op])
    ensures Stays(s, op, place, l.tracks[i], Swept(s, l.tracks[i], l.taken, op.view, op.now),
                  LogOf(s, past + [op], place, place(l.tracks[i].bbox)))
  {
    var st, t := Run(s, past), l.tracks[i];
    var log := LogOf(s, past, place, place(t.bbox));
    LogOfStep(s, past, op, place, place(t.bbox));
    assert InStep(st, l.taken, op.detections, op.now, place, i, t);
    if i < |st.tracks| {
      assert Fits(LogOf(s, past, place, place(st.tracks[i].bbox)), st.tracks[i]);
    } else {
      BlankWithoutTrack(s, past, st, op, l, place, i);
    }
    if t.id in l.taken {
      TakenStays(s, st, op, l, place, i, log);
    } else {
      UntakenStays(s, st, op, l, place, i, log);
    }
  }

  /** The tracks of `a` keep their positions, ids and places in `b`. */
  ghost predicate Extends(place: Places, a: seq<Track>, b: seq<Track>) {
    |a| <= |b| && forall i :: 0 <= i < |a| ==> b[i].id == a[i].id && place(b[i].bbox) == place(a[i].bbox)
  }

  /** The tracks of one run go on in another. */
  ghost predicate GoesOn(s: Settings, past: seq<Op>, ops: seq<Op>, place: Places) {
    Runnable(past) && Runnable(ops) && Extends(place, Run(s, past).tracks, Run(s, ops).tracks)
  }

  /** A place that is neither listed nor known has no log after the frame. */
  lemma GlimpsedIsKnown(s: Settings, ts: seq<Track>, op: Op, place: Places, q: Option<Box>, log: Log)
    requires op.Feed? && WellScaled(op) && (log.at.Some? ==> exists i :: IsAt(ts, place, i, q))
    requires LogStep(s, log, GlimpseOf(s, ts, op, place, q), op.now).at.Some? && !Shows(op.detections, place, q)
    ensures exists i :: IsAt(ts, place, i, q)
  {
    if SearchFinds(s, ts, op, place, q) {
      var t :| t in ts && place(t.bbox) == q;
      var j :| 0 <= j < |ts| && ts[j] == t;
      assert IsAt(ts, place, j, q);
    }
  }

  /** A place that has a log after the frame had a track before it, or is listed. */
  lemma LoggedIsHeld(s: Settings, past: seq<Op>, op: Op, l: Ledger, place: Places, q: Option<Box>)
    requires Runnable(past) && op.Feed? && WellScaled(op) && Remembers(s, past, place, Run(s, past).tracks)
    requires Settled(Run(s, past), l, op.detections, op.now, place)
    requires Runnable(past + [op]) && LogOf(s, past + [op], place, q).at.Some?
    ensures exists i :: IsAt(l.tracks, place, i, q)
  {
    var st := Run(s, past);
    if !Shows(op.detections, place, q) {
      LogOfStep(s, past, op, place, q);
      GlimpsedIsKnown(s, st.tracks, op, place, q, LogOf(s, past, place, q));
      var i :| IsAt(st.tracks, place, i, q);
      assert InStep(st, l.taken, op.detections, op.now, place, i, l.tracks[i]);
      assert IsAt(l.tracks, place, i, q);
    }
  }

  /** A frame of a peaceful run evicts nothing: every track stays. */
  lemma NothingLost(s: Settings, past: seq<Op>, op: Op, l: Ledger, place: Places)
    requires Runnable(past) && op.Feed? && WellScaled(op) && Patient(s) && KeptApart(s, place)
    requires Standing(s, past, place) && l == Associated(s, Run(s, past), op.detections, op.view, op.now)
    requires Settled(Run(s, past), l, op.detections, op.now, place)
    requires forall q :: Bears(s, Run(s, past).tracks, LogOf(s, past, place, q), op, place, q)
    ensures Runnable(past + [op])
    ensures Step(s, Run(s, past), op) == State(Sweep(s, l, op.view, op.now), l.nextId)
    ensures forall i :: 0 <= i < |l.tracks| ==>
      Stays(s, op, place, l.tracks[i], Sweep(s, l, op.view, op.now)[i],
            LogOf(s, past + [op], place, place(l.tracks[i].bbox)))
  {
    var swept := Sweep(s, l, op.view, op.now);
    forall i | 0 <= i < |l.tracks|
      ensures Runnable(past + [op])
      ensures Stays(s, op, place, l.tracks[i], swept[i], LogOf(s, past + [op], place, place(l.tracks[i].bbox)))
    {
      TrackStays(s, past, op, l, place, i);
    }
    FreshOfLive(s, swept, op.now);
  }

  lemma SweptStands(s: Settings, past: seq<Op>, op: Op, l: Ledger, ts: seq<Track>, place: Places)
    requires Runnable(past) && op.Feed? && WellScaled(op) && Standing(s, past, place) && Runnable(past + [op])
    requires Settled(Run(s, past), l, op.detections, op.now, place) && |ts| == |l.tracks|
    requires forall i :: 0 <= i < |ts| ==>
      Stays(s, op, place, l.tracks[i], ts[i], LogOf(s, past + [op], place, place(l.tracks[i].bbox)))
    ensures Steady(ts, place) && Remembers(s, past + [op], place, ts) && Extends(place, Run(s, past).tracks, ts)
  {
    assert forall i :: 0 <= i < |ts| ==> ts[i].id == l.tracks[i].id && place(ts[i].bbox) == place(l.tracks[i].bbox);
    forall q | LogOf(s, past + [op], place, q).at.Some? ensures exists i :: IsAt(ts, place, i, q) {
      LoggedIsHeld(s, past, op, l, place, q);
      var i :| IsAt(l.tracks, place, i, q);
      assert IsAt(ts, place, i, q);
    }
    var st := Run(s, past);
    forall i | 0 <= i < |st.tracks|
      ensures ts[i].id == st.tracks[i].id && place(ts[i].bbox) == place(st.tracks[i].bbox)
    {
      assert InStep(st, l.taken, op.detections, op.now, place, i, l.tracks[i]);
    }
  }

  lemma StandingStep(s: Settings, past: seq<Op>, op: Op, place: Places)
    requires Peaceful(s, past + [op], place) && Runnable(past) && Standing(s, past, place)
    ensures Standing(s, past + [op], place) && GoesOn(s, past, past + [op], place)
  {
    var ops, st := past + [op], Run(s, past);
    assert ops[..|past|] == past && ops[|past|] == op;
    forall q ensures Bears(s, st.tracks, LogOf(s, past, place, q), op, place, q) {
      assert Bears(s, TracksAfter(s, ops, |past|), LogOf(s, ops[..|past|], place, q), ops[|past|], place, q);
    }
    ReachableIdsSound(s, past);
    AssociatedSettles(s, st, op, place);
    var l := Associated(s, st, op.detections, op.view, op.now);
    NothingLost(s, past, op, l, place);
    SweptStands(s, past, op, l, Sweep(s, l, op.view, op.now), place);
  }

  lemma PeacefulPrefix(s: Settings, ops: seq<Op>, place: Places, n: nat)
    requires Peaceful(s, ops, place) && n <= |ops|
    ensures Peaceful(s, ops[..n], place)
  {
    var front := ops[..n];
    forall i, q | 0 <= i < n
      ensures Bears(s, TracksAfter(s, front, i), LogOf(s, front[..i], place, q), front[i], place, q)
    {
      assert front[..i] == ops[..i];
      assert Bears(s, TracksAfter(s, ops, i), LogOf(s, ops[..i], place, q), ops[i], place, q);
    }
  }

  lemma LastFrameStands(s: Settings, ops: seq<Op>, place: Places)
    requires Peaceful(s, ops, place) && ops != [] && Standing(s, ops[..|ops| - 1], place)
    ensures Standing(s, ops, place)
  {
    var n := |ops| - 1;
    assert ops == ops[..n] + [ops[n]];
    StandingStep(s, ops[..n], ops[n], place);
  }

  lemma NextFrameStands(s: Settings, ops: seq<Op>, place: Places, n: nat)
    requires Peaceful(s, ops, place) && 0 < n <= |ops| && Standing(s, ops[..n - 1], place)
    ensures Standing(s, ops[..n], place)
  {
    PeacefulPrefix(s, ops, place, n);
    assert ops[..n][..n - 1] == ops[..n - 1];
    LastFrameStands(s, ops[..n], place);
  }

  lemma NothingStands(s: Settings, place: Places)
    ensures Standing(s, [], place)
  {
  }

  lemma RunStands(s: Settings, ops: seq<Op>, place: Places)
    requires Peaceful(s, ops, place)
    ensures Standing(s, ops, place)
  {
    var flags := seq(|ops| + 1, n requires 0 <= n <= |ops| => Standing(s, ops[..n], place));
    assert ops[..0] == [] && ops[..|ops|] == ops;
    NothingStands(s, place);
    forall n | 0 < n < |flags| && flags[n - 1] ensures flags[n] {
      NextFrameStands(s, ops, place, n);
    }
    StaysTrue(flags, 0, |ops|);
  }

  lemma LastFrameExtends(s: Settings, ops: seq<Op>, place: Places)
    requires ops != [] && Peaceful(s, ops, place) && Peaceful(s, ops[..|ops| - 1], place)
    ensures GoesOn(s, ops[..|ops| - 1], ops, place)
  {
    var past, op := ops[..|ops| - 1], ops[|ops| - 1];
    assert ops == past + [op];
    RunStands(s, past, place);
    StandingStep(s, past, op, place);
  }

  lemma FrameGoesOn(s: Settings, ops: seq<Op>, place: Places, n: nat)
    requires Peaceful(s, ops, place) && 0 < n <= |ops|
    ensures GoesOn(s, ops[..n - 1], ops[..n], place)
  {
    var now := ops[..n];
    assert now[..n - 1] == ops[..n - 1];
    PeacefulPrefix(s, ops, place, n - 1);
    PeacefulPrefix(s, ops, place, n);
    LastFrameExtends(s, now, place);
  }

  lemma FrameExtends(s: Settings, ops: seq<Op>, place: Places, n: nat)
    requires Runnable(ops) && 0 < n <= |ops| && GoesOn(s, ops[..n - 1], ops[..n], place)
    ensures Extends(place, TracksAfter(s, ops, n - 1), TracksAfter(s, ops, n))
  {
  }

  lemma ExtendsTransitive(place: Places, a: seq<Track>, b: seq<Track>, c: seq<Track>)
    requires Extends(place, a, b) && Extends(place, b, c)
    ensures Extends(place, a, c)
  {
  }

  lemma {:induction false} ExtendsAlong(place: Places, line: seq<seq<Track>>, m: nat, n: nat)
    requires m <= n < |line| && forall k :: 0 < k < |line| ==> Extends(place, line[k - 1], line[k])
    ensures Extends(place, line[m], line[n])
    decreases n
  {
    if m < n {
      ExtendsAlong(place, line, m, n - 1);
      assert Extends(place, line[n - 1], line[n]);
      ExtendsTransitive(place, line[m], line[n - 1], line[n]);
    }
  }

  lemma RunExtends(s: Settings, ops: seq<Op>, place: Places, m: nat, n: nat)
    requires Peaceful(s, ops, place) && m <= n <= |ops|
    ensures Extends(place, TracksAfter(s, ops, m), TracksAfter(s, ops, n))
  {
    var line := Timeline(s, ops);
    forall k | 0 < k < |line| ensures Extends(place, line[k - 1], line[k]) {
      FrameGoesOn(s, ops, place, k);
      FrameExtends(s, ops, place, k);
    }
    ExtendsAlong(place, line, m, n);
  }

  /** How many operations listed a place. */
  function Listings(ops: seq<Op>, place: Places, q: Option<Box>): nat {
    if ops == [] then 0
    else
      var op := ops[|ops| - 1];
      Listings(ops[..|ops| - 1], place, q) + if op.Feed? && Shows(op.detections, place, q) then 1 else 0
  }

  ghost predicate CountsListings(s: Settings, ops: seq<Op>, place: Places, q: Option<Box>)
    requires Runnable(ops)
  {
    var log := LogOf(s, ops, place, q);
    log.listings == Listings(ops, place, q) && (log.listings > 0 ==> log.at.Some?)
  }

  lemma CountsOneMore(s: Settings, past: seq<Op>, op: Op, place: Places, q: Option<Box>)
    requires Runnable(past) && op.Feed? && WellScaled(op) && CountsListings(s, past, place, q)
    ensures Runnable(past + [op]) && CountsListings(s, past + [op], place, q)
  {
    LogOfStep(s, past, op, place, q);
    assert (past + [op])[..|past|] == past;
  }

  lemma NothingCounts(s: Settings, place: Places, q: Option<Box>)
    ensures CountsListings(s, [], place, q)
  {
  }

  lemma PrefixCounts(s: Settings, ops: seq<Op>, place: Places, q: Option<Box>, n: nat)
    requires Runnable(ops) && 0 < n <= |ops| && ops[n - 1].Feed? && CountsListings(s, ops[..n - 1], place, q)
    ensures CountsListings(s, ops[..n], place, q)
  {
    assert ops[..n] == ops[..n - 1] + [ops[n - 1]];
    CountsOneMore(s, ops[..n - 1], ops[n - 1], place, q);
  }

  /** The log of a place counts the frames that listed it. */
  lemma LogCountsListings(s: Settings, ops: seq<Op>, place: Places, q: Option<Box>)
    requires Runnable(ops) && forall i :: 0 <= i < |ops| ==> ops[i].Feed?
    ensures CountsListings(s, ops, place, q)
  {
    var flags := seq(|ops| + 1, n requires 0 <= n <= |ops| => CountsListings(s, ops[..n], place, q));
    assert ops[..0] == [] && ops[..|ops|] == ops;
    NothingCounts(s, place, q);
    forall n | 0 < n < |flags| && flags[n - 1] ensures flags[n] {
      PrefixCounts(s, ops, place, q, n);
    }
    StaysTrue(flags, 0, |ops|);
  }

  /** Template matching never finds the place again in this run. */
  ghost predicate NeverFound(s: Settings, ops: seq<Op>, place: Places, q: Option<Box>)
    requires Runnable(ops)
  {
    forall i :: 0 <= i < |ops| && ops[i].Feed? ==> GlimpseOf(s, TracksAfter(s, ops, i), ops[i], place, q) != FoundAgain
  }

  lemma NeverFoundBefore(s: Settings, ops: seq<Op>, place: Places, q: Option<Box>, n: nat)
    requires Runnable(ops) && NeverFound(s, ops, place, q) && n <= |ops|
    ensures NeverFound(s, ops[..n], place, q)
  {
    forall i | 0 <= i < n && ops[i].Feed?
      ensures GlimpseOf(s, TracksAfter(s, ops[..n], i), ops[..n][i], place, q) != FoundAgain
    {
      assert ops[..n][..i] == ops[..i];
    }
  }

  /** Without template matching the hits in a row count the frames that listed the
      place, whatever frames missed it in between. */
  lemma {:induction false} HitsCountListings(s: Settings, ops: seq<Op>, place: Places, q: Option<Box>)
    requires Runnable(ops) && NeverFound(s, ops, place, q)
    ensures LogOf(s, ops, place, q).hits == LogOf(s, ops, place, q).listings
  {
    if ops != [] {
      var n := |ops| - 1;
      NeverFoundBefore(s, ops, place, q, n);
      HitsCountListings(s, ops[..n], place, q);
      assert ops[n].Feed? ==> GlimpseOf(s, TracksAfter(s, ops, n), ops[n], place, q) != FoundAgain;
    }
  }

  /** Every place listed in the first `n` frames has a live track, last seen when it was
      last listed or found again.  Its semantic hits count the frames that listed it, and
      so do its consecutive hits unless template matching found it again. */
  lemma ListedIsTracked(s: Settings, ops: seq<Op>, place: Places, n: nat, q: Option<Box>) returns (t: Track)
    requires Peaceful(s, ops, place) && n <= |ops| && Listings(ops[..n], place, q) > 0
    ensures t in TracksAfter(s, ops, n) && place(t.bbox) == q && Fits(LogOf(s, ops[..n], place, q), t)
    ensures t.semanticHits == Listings(ops[..n], place, q)
    ensures NeverFound(s, ops[..n], place, q) ==> t.consecutiveHits == Listings(ops[..n], place, q)
  {
    PeacefulPrefix(s, ops, place, n);
    RunStands(s, ops[..n], place);
    LogCountsListings(s, ops[..n], place, q);
    var i :| IsAt(TracksAfter(s, ops, n), place, i, q);
    t := TracksAfter(s, ops, n)[i];
    if NeverFound(s, ops[..n], place, q) {
      HitsCountListings(s, ops[..n], place, q);
    }
  }

  lemma OneTrackPerPlace(ts: seq<Track>, place: Places, i: nat, j: nat)
    requires DistinctIds(ts) && Steady(ts, place) && i < |ts| && j < |ts|
    ensures ts[i].id == ts[j].id <==> place(ts[i].bbox) == place(ts[j].bbox)
  {
  }

  /** Identity stability: at any two moments of the run two live tracks have the same
      id exactly when they are at the same place. */
  lemma TracksKeepTheirIds(s: Settings, ops: seq<Op>, place: Places, m: nat, n: nat, t: Track, u: Track)
    requires Peaceful(s, ops, place) && m <= n <= |ops|
    requires t in TracksAfter(s, ops, m) && u in TracksAfter(s, ops, n)
    ensures t.id == u.id <==> place(t.bbox) == place(u.bbox)
    ensures place(t.bbox).Some? && Fits(LogOf(s, ops[..m], place, place(t.bbox)), t)
  {
    var a, b := TracksAfter(s, ops, m), TracksAfter(s, ops, n);
    var i :| 0 <= i < |a| && a[i] == t;
    var j :| 0 <= j < |b| && b[j] == u;
    RunExtends(s, ops, place, m, n);
    PeacefulPrefix(s, ops, place, m);
    RunStands(s, ops[..m], place);
    PeacefulPrefix(s, ops, place, n);
    RunStands(s, ops[..n], place);
    ReachableIdsSound(s, ops[..n]);
    OneTrackPerPlace(b, place, i, j);
  }

  // ---- fixed boxes ----

  /** Each box of the world is a place of its own. */
  function FixedPlaces(world: set<Box>): Places {
    b => if b in world then Some(b) else None
  }

  lemma StaysWithin(p: Point, d: real)
    requires d >= 0.0
    ensures Within(p, p, d)
  {
    assert (p.x - p.x) * (p.x - p.x) + (p.y - p.y) * (p.y - p.y) == 0.0;
  }

  lemma FixedPlacesKeptApart(s: Settings, world: set<Box>)
    requires ToldApart(s.iou, s.iouThreshold, world) && s.maxCenterShift >= 0.0
    ensures KeptApart(s, FixedPlaces(world))
  {
    forall b | b in world ensures Together(s, FixedPlaces(world), b, b) {
      StaysWithin(Center(b), s.maxCenterShift);
      BlendOfEqualBoxes(b, s.bboxAlpha);
      BlendOfEqualBoxes(b, s.visualAlpha);
    }
  }

  /** Boxes that stand still and are told apart keep their exact coordinates, and two
      live tracks of a run have the same id exactly when they are at the same box. */
  lemma FixedDetectionsKeepTheirIds(s: Settings, ops: seq<Op>, world: set<Box>, m: nat, n: nat, t: Track, u: Track)
    requires Patient(s) && s.maxCenterShift >= 0.0 && ToldApart(s.iou, s.iouThreshold, world)
    requires Attended(s, ops, FixedPlaces(world)) && m <= n <= |ops|
    requires t in TracksAfter(s, ops, m) && u in TracksAfter(s, ops, n)
    ensures t.id == u.id <==> t.bbox == u.bbox
    ensures t.bbox in world && u.bbox in world
  {
    FixedPlacesKeptApart(s, world);
    TracksKeepTheirIds(s, ops, FixedPlaces(world), m, n, t, u);
    TracksKeepTheirIds(s, ops, FixedPlaces(world), n, n, u, u);
  }
}
