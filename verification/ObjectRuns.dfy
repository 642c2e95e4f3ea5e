/** Whole runs of the detected-object tracker: any sequence of frames and clears,
    under any clock.  Every detection ever fed is accounted for exactly once, by a
    live track or by an evicted one, and every reachable track is the replay of a
    life made of detections that were really fed. */
module ObjectRuns {
  import opened Prelude
  import opened StableSort
  import opened ObjectTracks
  import opened ObjectAssociation
  import opened ObjectHistory

  datatype Op = Feed(detections: seq<Detection>, view: Option<View>, now: real) | Clear

  predicate WellScaled(op: Op) {
    op.Feed? ==> Scaled(op.view)
  }

  /** A sequence of operations whose frames all have a usable scale. */
  ghost predicate Runnable(ops: seq<Op>) {
    forall i :: 0 <= i < |ops| ==> WellScaled(ops[i])
  }

  function Step(s: Settings, st: State, op: Op): State
    requires WellScaled(op)
  {
    match op
    case Feed(ds, v, now) => Update(s, st, ds, v, now)
    case Clear => State([], st.nextId)
  }

  /** The tracks an operation drops. */
  function Dropped(s: Settings, st: State, op: Op): seq<Track>
    requires WellScaled(op)
  {
    match op
    case Feed(ds, v, now) => Stale(s, Observed(s, st, ds, v, now), now)
    case Clear => st.tracks
  }

  function Run(s: Settings, ops: seq<Op>): State
    requires Runnable(ops)
  {
    if ops == [] then State([], 0) else Step(s, Run(s, ops[..|ops| - 1]), ops[|ops| - 1])
  }

  /** All tracks dropped during a run, in order. */
  function Evicted(s: Settings, ops: seq<Op>): seq<Track>
    requires Runnable(ops)
  {
    if ops == [] then []
    else Evicted(s, ops[..|ops| - 1]) + Dropped(s, Run(s, ops[..|ops| - 1]), ops[|ops| - 1])
  }

  /** Everything fed during a run. */
  function Fed(ops: seq<Op>): multiset<Detection> {
    if ops == [] then multiset{}
    else
      var op := ops[|ops| - 1];
      Fed(ops[..|ops| - 1]) + if op.Feed? then multiset(op.detections) else multiset{}
  }

  lemma {:induction false} ReachableIdsSound(s: Settings, ops: seq<Op>)
    requires Runnable(ops)
    ensures Sound(Run(s, ops))
  {
    if ops != [] {
      var front, op := ops[..|ops| - 1], ops[|ops| - 1];
      ReachableIdsSound(s, front);
      if op.Feed? {
        UpdateKeepsIdsSound(s, Run(s, front), op.detections, op.view, op.now);
      }
    }
  }

  lemma {:induction false} HitsOfConcat(a: seq<Track>, b: seq<Track>)
    ensures Hits(a + b) == Hits(a) + Hits(b)
  {
    if b == [] {
      assert a + b == a;
    } else {
      assert (a + b)[..|a + b| - 1] == a + b[..|b| - 1];
      HitsOfConcat(a, b[..|b| - 1]);
    }
  }

  /** Conservation over runs: the hits of the live tracks plus the hits of every
      track ever dropped count the detections ever fed. */
  lemma {:induction false} TotalHitsConserved(s: Settings, ops: seq<Op>)
    requires Runnable(ops)
    ensures Hits(Run(s, ops).tracks) + Hits(Evicted(s, ops)) == |Fed(ops)|
  {
    if ops != [] {
      var front, op := ops[..|ops| - 1], ops[|ops| - 1];
      var st := Run(s, front);
      TotalHitsConserved(s, front);
      HitsOfConcat(Evicted(s, front), Dropped(s, st, op));
      if op.Feed? {
        HitsConserved(s, st, op.detections, op.view, op.now);
      }
    }
  }

  // ---- lives behind the tracks ----

  /** `lives[i]` replays to `ts[i]`. */
  ghost predicate Explains(s: Settings, lives: seq<Life>, ts: seq<Track>) {
    |lives| == |ts| && forall i :: 0 <= i < |ts| ==> Replay(s, lives[i]) == ts[i]
  }

  ghost function Matched(lives: seq<Life>): multiset<Detection> {
    if lives == [] then multiset{}
    else Matched(lives[..|lives| - 1]) + multiset(Detections(lives[|lives| - 1]))
  }

  function Extend(h: Life, e: Event): Life { h.(events := h.events + [e]) }

  lemma ExtendReplays(s: Settings, h: Life, e: Event)
    ensures Replay(s, Extend(h, e)) == Apply(s, Replay(s, h), e)
    ensures Detections(Extend(h, e)) == if e.Seen? then Detections(h) + [e.detection] else Detections(h)
  {
    assert Prefix(Extend(h, e), |h.events|) == h by {
      assert (h.events + [e])[..|h.events|] == h.events;
    }
  }

  lemma MatchedOfAppend(lives: seq<Life>, h: Life)
    ensures Matched(lives + [h]) == Matched(lives) + multiset(Detections(h))
  {
    assert (lives + [h])[..|lives|] == lives;
  }

  lemma {:induction false} MatchedOfConcat(a: seq<Life>, b: seq<Life>)
    ensures Matched(a + b) == Matched(a) + Matched(b)
  {
    if b == [] {
      assert a + b == a;
    } else {
      assert (a + b)[..|a + b| - 1] == a + b[..|b| - 1];
      MatchedOfConcat(a, b[..|b| - 1]);
    }
  }

  lemma {:induction false} MatchedOfUpdate(lives: seq<Life>, i: nat, h: Life, extra: multiset<Detection>)
    requires i < |lives| && multiset(Detections(h)) == multiset(Detections(lives[i])) + extra
    ensures Matched(lives[i := h]) == Matched(lives) + extra
  {
    var n := |lives| - 1;
    if i == n {
      assert lives[i := h][..n] == lives[..n];
    } else {
      MatchedOfUpdate(lives[..n], i, h, extra);
      assert lives[i := h][..n] == lives[..n][i := h];
    }
  }

  lemma {:induction false} MatchedMember(lives: seq<Life>, i: nat)
    requires i < |lives|
    ensures multiset(Detections(lives[i])) <= Matched(lives)
  {
    if i < |lives| - 1 {
      MatchedMember(lives[..|lives| - 1], i);
    }
  }

  lemma ExplainsAppend(s: Settings, lives: seq<Life>, ts: seq<Track>, h: Life, t: Track)
    requires Explains(s, lives, ts) && Replay(s, h) == t
    ensures Explains(s, lives + [h], ts + [t])
  {
  }

  lemma ExplainsUpdate(s: Settings, lives: seq<Life>, ts: seq<Track>, i: nat, h: Life, t: Track)
    requires Explains(s, lives, ts) && i < |ts| && Replay(s, h) == t
    ensures Explains(s, lives[i := h], ts[i := t])
  {
  }

  lemma ExplainsConcat(s: Settings, a: seq<Life>, ts: seq<Track>, b: seq<Life>, us: seq<Track>)
    requires Explains(s, a, ts) && Explains(s, b, us)
    ensures Explains(s, a + b, ts + us)
  {
  }

  lemma AddToEitherSide<T>(a: multiset<T>, b: multiset<T>, total: multiset<T>, x: multiset<T>)
    requires a + b == total
    ensures (a + x) + b == total + x && a + (b + x) == total + x
  {
  }

  lemma AssignOneLife(s: Settings, l: Ledger, d: Detection, v: Option<View>, now: real, lives: seq<Life>)
    returns (lives': seq<Life>)
    requires Scaled(v) && Explains(s, lives, l.tracks)
    ensures Explains(s, lives', AssignOne(s, l, d, v, now).tracks)
    ensures Matched(lives') == Matched(lives) + multiset{d}
  {
    var m := Match(s, l, d.bbox);
    if m.None? {
      var t := WithTemplate(Birth(l.nextId, d, now), v);
      var h := Life(l.nextId, d, now, t.template, []);
      assert Detections(h) == [d];
      lives' := lives + [h];
      MatchedOfAppend(lives, h);
      ExplainsAppend(s, lives, l.tracks, h, t);
    } else {
      var t' := WithTemplate(Refresh(s, l.tracks[m.value], d, now), v);
      var e := Seen(d, now, t'.template);
      var h := Extend(lives[m.value], e);
      ExtendReplays(s, lives[m.value], e);
      lives' := lives[m.value := h];
      MatchedOfUpdate(lives, m.value, h, multiset{d});
      ExplainsUpdate(s, lives, l.tracks, m.value, h, t');
    }
  }

  lemma {:induction false} AssignLives(s: Settings, l: Ledger, ds: seq<Detection>, v: Option<View>, now: real,
                                       lives: seq<Life>)
    returns (lives': seq<Life>)
    requires Scaled(v) && Explains(s, lives, l.tracks)
    ensures Explains(s, lives', Assign(s, l, ds, v, now).tracks)
    ensures Matched(lives') == Matched(lives) + multiset(ds)
  {
    if ds == [] {
      lives' := lives;
    } else {
      var n := |ds| - 1;
      var mid := AssignLives(s, l, ds[..n], v, now, lives);
      lives' := AssignOneLife(s, Assign(s, l, ds[..n], v, now), ds[n], v, now, mid);
      Accumulate(Matched(lives), Matched(mid), Matched(lives'), ds);
    }
  }

  lemma Accumulate<T>(start: multiset<T>, before: multiset<T>, after: multiset<T>, xs: seq<T>)
    requires xs != []
    requires before == start + multiset(xs[..|xs| - 1]) && after == before + multiset{xs[|xs| - 1]}
    ensures after == start + multiset(xs)
  {
    assert xs == xs[..|xs| - 1] + [xs[|xs| - 1]];
    assert multiset(xs) == multiset(xs[..|xs| - 1]) + multiset{xs[|xs| - 1]};
  }

  /** Template matching extends a life by at most one rediscovery. */
  lemma VisualLife(s: Settings, h: Life, v: View, now: real) returns (h': Life)
    requires v.scaleX != 0.0 && v.scaleY != 0.0
    ensures Replay(s, h') == VisualUpdate(s, Replay(s, h), v, now)
    ensures Detections(h') == Detections(h)
  {
    var found := Locate(s, Replay(s, h), v);
    if found.None? {
      h' := h;
    } else {
      var e := Rediscovered(Scale(found.value.0, v), found.value.1, now);
      ExtendReplays(s, h, e);
      h' := Extend(h, e);
    }
  }

  /** The first `n` elements of `a`, then the rest of `b`. */
  function Splice<T>(a: seq<T>, b: seq<T>, n: nat): (r: seq<T>)
    requires |a| == |b| && n <= |a|
    ensures |r| == |a|
  {
    a[..n] + b[n..]
  }

  lemma SpliceStep<T>(a: seq<T>, b: seq<T>, n: nat)
    requires |a| == |b| && n < |a|
    ensures Splice(a, b, n + 1) == Splice(a, b, n)[n := a[n]] && Splice(a, b, n)[n] == b[n]
    ensures Splice(a, b, 0) == b && Splice(a, b, |a|) == a
  {
  }

  lemma SweptLife(s: Settings, l: Ledger, v: Option<View>, now: real, i: nat, h: Life) returns (h': Life)
    requires Scaled(v) && i < |l.tracks| && Replay(s, h) == l.tracks[i]
    ensures Replay(s, h') == Sweep(s, l, v, now)[i]
    ensures Detections(h') == Detections(h)
  {
    if s.visualEnabled && v.Some? && l.tracks[i].id !in l.taken {
      h' := VisualLife(s, h, v.value, now);
    } else {
      h' := h;
    }
  }

  lemma {:induction false} SweepLives(s: Settings, l: Ledger, v: Option<View>, now: real, lives: seq<Life>, n: nat)
    returns (lives': seq<Life>)
    requires Scaled(v) && Explains(s, lives, l.tracks) && n <= |lives|
    ensures Explains(s, lives', Splice(Sweep(s, l, v, now), l.tracks, n))
    ensures Matched(lives') == Matched(lives)
  {
    var swept := Sweep(s, l, v, now);
    if n == 0 {
      lives' := lives;
      assert Splice(swept, l.tracks, 0) == l.tracks;
    } else {
      var mid := SweepLives(s, l, v, now, lives, n - 1);
      SpliceStep(swept, l.tracks, n - 1);
      var h := SweptLife(s, l, v, now, n - 1, mid[n - 1]);
      lives' := mid[n - 1 := h];
      MatchedOfUpdate(mid, n - 1, h, multiset{});
      ExplainsUpdate(s, mid, Splice(swept, l.tracks, n - 1), n - 1, h, swept[n - 1]);
    }
  }

  lemma {:induction false} SplitLives(s: Settings, ts: seq<Track>, now: real, lives: seq<Life>)
    returns (staying: seq<Life>, leaving: seq<Life>)
    requires Explains(s, lives, ts)
    ensures Explains(s, staying, Fresh(s, ts, now)) && Explains(s, leaving, Stale(s, ts, now))
    ensures Matched(staying) + Matched(leaving) == Matched(lives)
  {
    if ts == [] {
      staying, leaving := [], [];
    } else {
      var n := |ts| - 1;
      var a, b := SplitLives(s, ts[..n], now, lives[..n]);
      AddToEitherSide(Matched(a), Matched(b), Matched(lives[..n]), multiset(Detections(lives[n])));
      if IsLive(s, ts[n], now) {
        MatchedOfAppend(a, lives[n]);
        ExplainsAppend(s, a, Fresh(s, ts[..n], now), lives[n], ts[n]);
        staying, leaving := a + [lives[n]], b;
      } else {
        MatchedOfAppend(b, lives[n]);
        ExplainsAppend(s, b, Stale(s, ts[..n], now), lives[n], ts[n]);
        staying, leaving := a, b + [lives[n]];
      }
    }
  }

  lemma FeedLives(s: Settings, st: State, ds: seq<Detection>, v: Option<View>, now: real, lives: seq<Life>)
    returns (staying: seq<Life>, leaving: seq<Life>)
    requires Scaled(v) && Explains(s, lives, st.tracks)
    ensures Explains(s, staying, Update(s, st, ds, v, now).tracks)
    ensures Explains(s, leaving, Stale(s, Observed(s, st, ds, v, now), now))
    ensures Matched(staying) + Matched(leaving) == Matched(lives) + multiset(ds)
  {
    var sorted := Sort(ds, ByConfidence);
    SortCorrect(ds, ByConfidence);
    var l := Assign(s, Start(st), sorted, v, now);
    var a := AssignLives(s, Start(st), sorted, v, now, lives);
    var b := SweepLives(s, l, v, now, a, |a|);
    var swept := Sweep(s, l, v, now);
    assert Splice(swept, l.tracks, |a|) == swept;
    staying, leaving := SplitLives(s, swept, now, b);
  }

  /** One operation keeps the accounts. */
  lemma StepLives(s: Settings, st: State, op: Op, lives: seq<Life>)
    returns (staying: seq<Life>, leaving: seq<Life>)
    requires WellScaled(op) && Explains(s, lives, st.tracks)
    ensures Explains(s, staying, Step(s, st, op).tracks) && Explains(s, leaving, Dropped(s, st, op))
    ensures Matched(staying) + Matched(leaving)
         == Matched(lives) + (if op.Feed? then multiset(op.detections) else multiset{})
  {
    match op {
      case Feed(ds, v, now) => staying, leaving := FeedLives(s, st, ds, v, now, lives);
      case Clear => staying, leaving := [], lives;
    }
  }

  lemma Regroup<T>(live: multiset<T>, gone: multiset<T>, fed: multiset<T>,
                   staying: multiset<T>, leaving: multiset<T>, new_: multiset<T>)
    requires live + gone == fed && staying + leaving == live + new_
    ensures staying + (gone + leaving) == fed + new_
  {
    assert staying + (gone + leaving) == (staying + leaving) + gone;
    assert (live + new_) + gone == (live + gone) + new_;
  }

  /** Exact accounting: every live and every dropped track replays a life, and the
      detections of all these lives together are exactly the detections fed, each
      as often as it was fed. */
  lemma {:induction false} RunLives(s: Settings, ops: seq<Op>) returns (lives: seq<Life>, gone: seq<Life>)
    requires Runnable(ops)
    ensures Explains(s, lives, Run(s, ops).tracks) && Explains(s, gone, Evicted(s, ops))
    ensures Matched(lives) + Matched(gone) == Fed(ops)
  {
    if ops == [] {
      lives, gone := [], [];
    } else {
      var front, op := ops[..|ops| - 1], ops[|ops| - 1];
      var st := Run(s, front);
      var a, b := RunLives(s, front);
      var staying, leaving := StepLives(s, st, op, a);
      lives, gone := staying, b + leaving;
      MatchedOfConcat(b, leaving);
      ExplainsConcat(s, b, Evicted(s, front), leaving, Dropped(s, st, op));
      Regroup(Matched(a), Matched(b), Fed(front), Matched(staying), Matched(leaving),
              if op.Feed? then multiset(op.detections) else multiset{});
    }
  }

  /** Every reachable track is the replay of a life whose detections were all fed. */
  lemma ReachableTrackHasLife(s: Settings, ops: seq<Op>, i: nat) returns (h: Life)
    requires Runnable(ops) && i < |Run(s, ops).tracks|
    ensures Replay(s, h) == Run(s, ops).tracks[i]
    ensures multiset(Detections(h)) <= Fed(ops)
  {
    var lives, gone := RunLives(s, ops);
    MatchedMember(lives, i);
    h := lives[i];
  }

  /** In every reachable state: no static confirmation from visual rediscovery, and
      a strong track has a strong detection behind it that was fed in the run. */
  lemma ReachableTrackFacts(s: Settings, ops: seq<Op>, i: nat)
    requires Runnable(ops) && i < |Run(s, ops).tracks|
    ensures var t := Run(s, ops).tracks[i];
      && t.consecutiveHits >= 1
      && (t.semanticHits < s.minHitsForStatic ==> t.consecutiveHits <= t.semanticHits)
      && (s.strongVisualMargin >= 0.0 && IsStrong(s, t) ==>
            exists d :: d in Fed(ops) && MarginOf(d) >= s.strongVisualMargin)
  {
    var h := ReachableTrackHasLife(s, ops, i);
    NoPromotionFromOneHit(s, h);
    if s.strongVisualMargin >= 0.0 && IsStrong(s, Run(s, ops).tracks[i]) {
      StrongNeedsStrongHit(s, h);
      var k :| 0 <= k < |Detections(h)| && MarginOf(Detections(h)[k]) >= s.strongVisualMargin;
      assert Detections(h)[k] in multiset(Detections(h));
    }
  }
}
