/** The snapshot keeps a greedy kernel of the live tracks: no two kept tracks
    conflict, every dropped one conflicts with a kept one that ranks at least as
    high, no other choice has these two properties, and the choice is stable. */
module ObjectSnapshot {
  import opened Geometry
  import opened Prelude
  import opened StableSort
  import opened ObjectTracks

  /** The positions of `order` that `Kept` keeps, in increasing order. */
  function KeptAt(s: Settings, order: seq<Track>): (r: seq<nat>)
    ensures forall i :: 0 <= i < |r| ==> r[i] < |order|
  {
    if order == [] then []
    else
      var front := order[..|order| - 1];
      if Duplicate(s, order[|order| - 1], Kept(s, front)) then KeptAt(s, front)
      else KeptAt(s, front) + [|order| - 1]
  }

  ghost predicate Increasing(k: seq<nat>) {
    forall i, j :: 0 <= i < j < |k| ==> k[i] < k[j]
  }

  /** No two chosen positions conflict. */
  ghost predicate Independent(s: Settings, order: seq<Track>, k: set<nat>) {
    && (forall i :: i in k ==> i < |order|)
    && (forall i, j :: i in k && j in k && i < j ==> !Conflicts(s, order[j], order[i]))
  }

  /** Position `j` conflicts with an earlier chosen one. */
  ghost predicate Covered(s: Settings, order: seq<Track>, k: set<nat>, j: nat)
    requires j < |order|
  {
    exists i :: i in k && i < j && Conflicts(s, order[j], order[i])
  }

  /** Greedy kernel of an ordered list, as a set of positions. */
  ghost predicate IsKernel(s: Settings, order: seq<Track>, k: set<nat>) {
    && Independent(s, order, k)
    && (forall j :: 0 <= j < |order| && j !in k ==> Covered(s, order, k, j))
  }

  lemma {:induction false} KeptPicks(s: Settings, order: seq<Track>)
    ensures Increasing(KeptAt(s, order))
    ensures Kept(s, order) == At(order, KeptAt(s, order))
  {
    if order != [] {
      var front := order[..|order| - 1];
      KeptPicks(s, front);
    }
  }

  ghost function Positions(k: seq<nat>): set<nat> {
    set i | i in k
  }

  lemma CoveredStays(s: Settings, front: seq<Track>, order: seq<Track>, k: set<nat>, k': set<nat>, j: nat)
    requires front <= order && k <= k' && j < |front| && Covered(s, front, k, j)
    ensures Covered(s, order, k', j)
  {
    var i :| i in k && i < j && Conflicts(s, front[j], front[i]);
    assert i in k' && Conflicts(s, order[j], order[i]);
  }

  lemma KernelSkips(s: Settings, order: seq<Track>, k: set<nat>, i: nat)
    requires order != [] && IsKernel(s, order[..|order| - 1], k)
    requires i in k && Conflicts(s, order[|order| - 1], order[i])
    ensures IsKernel(s, order, k)
  {
    var front := order[..|order| - 1];
    assert Independent(s, order, k);
    forall j | 0 <= j < |order| && j !in k ensures Covered(s, order, k, j) {
      if j < |front| {
        CoveredStays(s, front, order, k, k, j);
      }
    }
  }

  lemma KernelTakes(s: Settings, order: seq<Track>, k: set<nat>)
    requires order != [] && IsKernel(s, order[..|order| - 1], k)
    requires forall i :: i in k ==> !Conflicts(s, order[|order| - 1], order[i])
    ensures IsKernel(s, order, k + {|order| - 1})
  {
    var front := order[..|order| - 1];
    var more := k + {|order| - 1};
    assert Independent(s, order, more);
    forall j | 0 <= j < |order| && j !in more ensures Covered(s, order, more, j) {
      CoveredStays(s, front, order, k, more, j);
    }
  }

  lemma {:induction false} KeptIsKernel(s: Settings, order: seq<Track>)
    ensures IsKernel(s, order, Positions(KeptAt(s, order)))
  {
    if order != [] {
      var n := |order| - 1;
      var front, t := order[..n], order[n];
      KeptIsKernel(s, front);
      KeptPicks(s, front);
      var k := KeptAt(s, front);
      if Duplicate(s, t, Kept(s, front)) {
        var c :| 0 <= c < |Kept(s, front)| && Conflicts(s, t, Kept(s, front)[c]);
        KernelSkips(s, order, Positions(k), k[c]);
      } else {
        forall i | i in Positions(k) ensures !Conflicts(s, t, order[i]) {
          var c :| 0 <= c < |k| && k[c] == i;
          assert !Conflicts(s, t, Kept(s, front)[c]);
        }
        KernelTakes(s, order, Positions(k));
        assert Positions(k + [n]) == Positions(k) + {n};
      }
    }
  }

  /** An ordered list has only one greedy kernel. */
  lemma KernelUnique(s: Settings, order: seq<Track>, a: set<nat>, b: set<nat>)
    requires IsKernel(s, order, a) && IsKernel(s, order, b)
    ensures a == b
  {
    forall n: nat ensures n in a <==> n in b {
      KernelAgree(s, order, a, b, n);
    }
  }

  lemma {:induction false} KernelAgree(s: Settings, order: seq<Track>, a: set<nat>, b: set<nat>, n: nat)
    requires IsKernel(s, order, a) && IsKernel(s, order, b)
    ensures n in a <==> n in b
    decreases n
  {
    forall i: nat | i < n ensures i in a <==> i in b {
      KernelAgree(s, order, a, b, i);
    }
    if n < |order| && n !in a {
      assert Covered(s, order, a, n);
    }
    if n < |order| && n !in b {
      assert Covered(s, order, b, n);
    }
  }

  lemma {:induction false} KeptOfConflictFree(s: Settings, ts: seq<Track>)
    requires forall i, j :: 0 <= i < j < |ts| ==> !Conflicts(s, ts[j], ts[i])
    ensures Kept(s, ts) == ts
  {
    if ts != [] {
      KeptOfConflictFree(s, ts[..|ts| - 1]);
      assert ts == ts[..|ts| - 1] + [ts[|ts| - 1]];
    }
  }

  lemma KeptSound(s: Settings, order: seq<Track>)
    requires Descending(order, ByStrength)
    ensures var kept := Kept(s, order);
      && Descending(kept, ByStrength)
      && (forall t :: t in kept ==> t in order)
      && (forall i, j :: 0 <= i < j < |kept| ==> !Conflicts(s, kept[j], kept[i]))
  {
    var kept, k := Kept(s, order), KeptAt(s, order);
    KeptPicks(s, order);
    KeptIsKernel(s, order);
    assert forall i :: 0 <= i < |k| ==> kept[i] == order[k[i]] && k[i] in Positions(k);
  }

  lemma SortedLiveMember(s: Settings, ts: seq<Track>, now: real, t: Track)
    ensures t in Sort(Fresh(s, ts, now), ByStrength) <==> t in ts && IsLive(s, t, now)
  {
    var live := Fresh(s, ts, now);
    SortCorrect(live, ByStrength);
    FreshMember(s, ts, now, t);
    assert t in live <==> t in multiset(live);
    assert t in Sort(live, ByStrength) <==> t in multiset(Sort(live, ByStrength));
  }

  /** More detector hits, or as many and at least the confidence. */
  predicate AtLeastAsStrong(t: Track, u: Track) {
    t.semanticHits > u.semanticHits || (t.semanticHits == u.semanticHits && t.confidence >= u.confidence)
  }

  /** What the snapshot returns: live tracks in descending strength, pairwise
      below both overlap thresholds. */
  lemma SelectedIsConflictFree(s: Settings, ts: seq<Track>, now: real)
    ensures var sel := Selected(s, ts, now);
      && Descending(sel, ByStrength)
      && (forall i, j :: 0 <= i < j < |sel| ==> AtLeastAsStrong(sel[i], sel[j]))
      && (forall t :: t in sel ==> t in ts && IsLive(s, t, now))
      && (forall i, j :: 0 <= i < j < |sel| ==> !Conflicts(s, sel[j], sel[i]))
  {
    SortCorrect(Fresh(s, ts, now), ByStrength);
    KeptSound(s, Sort(Fresh(s, ts, now), ByStrength));
    var sel := Selected(s, ts, now);
    forall i, j | 0 <= i < j < |sel| ensures AtLeastAsStrong(sel[i], sel[j]) {
      assert !Above(ByStrength(sel[j]), ByStrength(sel[i]));
    }
    forall t | t in Selected(s, ts, now) ensures t in ts && IsLive(s, t, now) {
      SortedLiveMember(s, ts, now, t);
    }
  }

  /** With a symmetric overlap function, such as `Iou`, the order of a pair does
      not matter: any two returned tracks are below both thresholds. */
  lemma SelectedPairwise(s: Settings, ts: seq<Track>, now: real, i: nat, j: nat)
    requires forall a, b :: s.iou(a, b) == s.iou(b, a)
    requires i < |Selected(s, ts, now)| && j < |Selected(s, ts, now)| && i != j
    ensures var a, b := Selected(s, ts, now)[i].bbox, Selected(s, ts, now)[j].bbox;
      s.iou(a, b) < s.nmsThreshold && Containment(a, b) < s.containmentThreshold
  {
    SelectedIsConflictFree(s, ts, now);
    var sel := Selected(s, ts, now);
    ConflictsSymmetric(s, sel[i], sel[j]);
    assert !Conflicts(s, sel[i], sel[j]);
  }

  lemma ConflictsSymmetric(s: Settings, t: Track, u: Track)
    requires s.iou(t.bbox, u.bbox) == s.iou(u.bbox, t.bbox)
    ensures Conflicts(s, t, u) == Conflicts(s, u, t)
  {
    OverlapIsSymmetric(t.bbox, u.bbox);
  }

  lemma OmittedWitness(s: Settings, order: seq<Track>, j: nat)
    requires Descending(order, ByStrength) && j < |order| && order[j] !in Kept(s, order)
    ensures exists w :: w in Kept(s, order) && Conflicts(s, order[j], w) && !Above(ByStrength(order[j]), ByStrength(w))
  {
    var kept, k := Kept(s, order), KeptAt(s, order);
    KeptPicks(s, order);
    KeptIsKernel(s, order);
    assert forall c :: 0 <= c < |k| ==> kept[c] == order[k[c]];
    assert Covered(s, order, Positions(k), j);
    var i :| i in Positions(k) && i < j && Conflicts(s, order[j], order[i]);
    var c :| 0 <= c < |k| && k[c] == i;
    assert kept[c] == order[i];
  }

  /** No live track is lost without a witness: a kept track it overlaps, with at
      least as many detector hits and, at equal hits, at least the confidence. */
  lemma OmittedHasStrongerWitness(s: Settings, ts: seq<Track>, now: real, t: Track)
    requires t in ts && IsLive(s, t, now) && t !in Selected(s, ts, now)
    ensures exists w :: w in Selected(s, ts, now) && Conflicts(s, t, w) && AtLeastAsStrong(w, t)
  {
    var order := Sort(Fresh(s, ts, now), ByStrength);
    SortCorrect(Fresh(s, ts, now), ByStrength);
    SortedLiveMember(s, ts, now, t);
    var j :| 0 <= j < |order| && order[j] == t;
    OmittedWitness(s, order, j);
    var w :| w in Kept(s, order) && Conflicts(s, order[j], w) && !Above(ByStrength(order[j]), ByStrength(w));
    assert AtLeastAsStrong(w, t);
  }

  /** The choice is the only one: any stable descending arrangement of the live
      tracks, with any greedy kernel of it, gives the returned tracks. */
  lemma SelectionUnique(s: Settings, ts: seq<Track>, now: real, order: seq<Track>, k: seq<nat>)
    requires Descending(order, ByStrength)
    requires forall r :: OfRank(order, ByStrength, r) == OfRank(Fresh(s, ts, now), ByStrength, r)
    requires Increasing(k) && IsKernel(s, order, Positions(k))
    ensures forall i :: 0 <= i < |k| ==> k[i] < |order|
    ensures At(order, k) == Selected(s, ts, now)
  {
    var live := Fresh(s, ts, now);
    SortCorrect(live, ByStrength);
    StableOrderUnique(order, Sort(live, ByStrength), ByStrength);
    KeptPicks(s, order);
    KernelPositionsUnique(s, order, k);
  }

  lemma KernelPositionsUnique(s: Settings, order: seq<Track>, k: seq<nat>)
    requires Increasing(k) && IsKernel(s, order, Positions(k))
    ensures k == KeptAt(s, order)
  {
    var mine := KeptAt(s, order);
    KeptIsKernel(s, order);
    KeptPicks(s, order);
    KernelUnique(s, order, Positions(k), Positions(mine));
    forall x ensures x in k <==> x in mine {
      assert x in Positions(k) <==> x in Positions(mine);
    }
    IncreasingUnique(k, mine);
  }

  lemma {:induction false} IncreasingUnique(a: seq<nat>, b: seq<nat>)
    requires Increasing(a) && Increasing(b)
    requires forall x :: x in a <==> x in b
    ensures a == b
  {
    assert b != [] ==> b[0] in a;
    if a != [] {
      assert a[0] in b;
      var ea, eb := a[|a| - 1], b[|b| - 1];
      assert ea in b && eb in a;
      assert ea == eb;
      var fa, fb := a[..|a| - 1], b[..|b| - 1];
      assert a == fa + [ea] && b == fb + [eb];
      forall x ensures x in fa <==> x in fb {
        assert x in fa ==> x in a && x != ea;
        assert x in fb ==> x in b && x != eb;
      }
      IncreasingUnique(fa, fb);
    }
  }

  /** Suppressing duplicates a second time, on the returned tracks, changes nothing. */
  lemma SelectionIdempotent(s: Settings, ts: seq<Track>, now: real)
    ensures Selected(s, Selected(s, ts, now), now) == Selected(s, ts, now)
  {
    var sel := Selected(s, ts, now);
    SelectedIsConflictFree(s, ts, now);
    FreshOfLive(s, sel, now);
    SortOfDescending(sel, ByStrength);
    KeptOfConflictFree(s, sel);
  }

  // ---- what counts as a duplicate, in pixels ----

  /** The area of a box, as a real, at least 1. */
  function Pixels(b: Box): real { MaxReal(1.0, (b.x2 - b.x1) * (b.y2 - b.y1)) }

  /** `x` is less than this part of `a` and of `b`. */
  predicate LessThanPart(x: real, part: real, a: real, b: real) { x < part * a && x < part * b }

  /** The boxes share less than this part of the area of each. */
  predicate ShareLess(a: Box, b: Box, part: real) { LessThanPart(Overlap(a, b), part, Pixels(a), Pixels(b)) }

  lemma QuotientBelow(x: real, d: real, part: real)
    requires d >= 1.0
    ensures x / d < part <==> x < part * d
  {
    var q := x / d;
    assert q * d == x;
    assert (part - q) * d == part * d - q * d;
    if part - q > 0.0 {
      ProductPositive(part - q, d);
    } else if part - q < 0.0 {
      ProductPositive(q - part, d);
      assert (q - part) * d == -((part - q) * d);
    }
  }

  lemma PartOfSmaller(x: real, part: real, a: real, b: real)
    requires x >= 0.0 && a >= 1.0 && b >= 1.0
    ensures x < part * MinReal(a, b) <==> x < part * a && x < part * b
  {
    if part > 0.0 {
      ProductMonotone(part, MinReal(a, b), part, a);
      ProductMonotone(part, MinReal(a, b), part, b);
    } else {
      ProductMonotone(-part, 1.0, -part, a);
      ProductMonotone(-part, 1.0, -part, b);
      assert -part * a == -(part * a) && -part * b == -(part * b);
    }
  }

  lemma QuotientOfSmaller(x: real, a: real, b: real, part: real)
    requires x >= 0.0 && a >= 1.0 && b >= 1.0
    ensures x / MinReal(a, b) < part <==> LessThanPart(x, part, a, b)
  {
    QuotientBelow(x, MinReal(a, b), part);
    PartOfSmaller(x, part, a, b);
  }

  lemma ContainmentValue(a: Box, b: Box)
    ensures Containment(a, b) == Overlap(a, b) / MinReal(Pixels(a), Pixels(b))
  {
  }

  lemma OverlapNotNegative(a: Box, b: Box)
    ensures Overlap(a, b) >= 0.0
  {
    OverlapWithin(a, b);
  }

  /** Containment below a part means sharing less than that part of each box. */
  lemma ContainmentIsSharing(a: Box, b: Box, part: real)
    ensures Containment(a, b) < part <==> ShareLess(a, b, part)
  {
    OverlapNotNegative(a, b);
    ContainmentValue(a, b);
    QuotientOfSmaller(Overlap(a, b), Pixels(a), Pixels(b), part);
  }

  lemma SharingIsMutual(a: Box, b: Box, part: real)
    ensures ShareLess(a, b, part) <==> ShareLess(b, a, part)
  {
    OverlapIsSymmetric(a, b);
  }

  lemma NoConflictSharesLess(s: Settings, t: Track, u: Track)
    requires !Conflicts(s, t, u)
    ensures ShareLess(t.bbox, u.bbox, s.containmentThreshold) && ShareLess(u.bbox, t.bbox, s.containmentThreshold)
  {
    ContainmentIsSharing(t.bbox, u.bbox, s.containmentThreshold);
    SharingIsMutual(t.bbox, u.bbox, s.containmentThreshold);
  }

  /** Any two returned tracks share less than the containment part of the area of each. */
  lemma ReturnedShareLess(s: Settings, ts: seq<Track>, now: real, i: nat, j: nat)
    requires i < |Selected(s, ts, now)| && j < |Selected(s, ts, now)| && i != j
    ensures ShareLess(Selected(s, ts, now)[i].bbox, Selected(s, ts, now)[j].bbox, s.containmentThreshold)
  {
    SelectedIsConflictFree(s, ts, now);
    var sel := Selected(s, ts, now);
    NoConflictSharesLess(s, sel[Max(i, j)], sel[Min(i, j)]);
  }

  predicate HasArea(b: Box) { (b.x2 - b.x1) * (b.y2 - b.y1) >= 1.0 }

  predicate InsideBox(a: Box, b: Box) {
    b.x1 <= a.x1 <= a.x2 <= b.x2 && b.y1 <= a.y1 <= a.y2 <= b.y2
  }

  lemma WholeIsNoPart(area: real, part: real, other: real)
    requires area >= 1.0 && part <= 1.0
    ensures !LessThanPart(area, part, area, other)
  {
    if part > 0.0 {
      ProductMonotone(part, area, 1.0, area);
    } else {
      ProductMonotone(0.0, 0.0, -part, area);
      assert -part * area == -(part * area);
    }
  }

  lemma InsideSharesAll(a: Box, b: Box, part: real)
    requires InsideBox(a, b) && HasArea(a) && part <= 1.0
    ensures !ShareLess(a, b, part)
  {
    OverlapOfInside(a, b);
    WholeIsNoPart(Pixels(a), part, Pixels(b));
  }

  /** A box inside another is never returned beside it, when the threshold can be met. */
  lemma NestedNeverBoth(s: Settings, ts: seq<Track>, now: real, i: nat, j: nat)
    requires i < |Selected(s, ts, now)| && j < |Selected(s, ts, now)| && i != j && s.containmentThreshold <= 1.0
    requires HasArea(Selected(s, ts, now)[i].bbox)
    ensures !InsideBox(Selected(s, ts, now)[i].bbox, Selected(s, ts, now)[j].bbox)
  {
    var a, b := Selected(s, ts, now)[i].bbox, Selected(s, ts, now)[j].bbox;
    ReturnedShareLess(s, ts, now, i, j);
    if InsideBox(a, b) {
      InsideSharesAll(a, b, s.containmentThreshold);
    }
  }

  lemma OverlapOfInside(a: Box, b: Box)
    requires InsideBox(a, b)
    ensures Overlap(a, b) == (a.x2 - a.x1) * (a.y2 - a.y1)
  {
  }

  /** A live track that shares less than that with every other live track, and overlaps
      none by the suppression threshold, is returned. */
  lemma LonelyIsReturned(s: Settings, ts: seq<Track>, now: real, t: Track)
    requires t in ts && IsLive(s, t, now)
    requires forall u :: u in ts && IsLive(s, u, now) && u != t ==>
      ShareLess(t.bbox, u.bbox, s.containmentThreshold) && s.iou(t.bbox, u.bbox) < s.nmsThreshold
    ensures t in Selected(s, ts, now)
  {
    if t !in Selected(s, ts, now) {
      OmittedHasStrongerWitness(s, ts, now, t);
      SelectedIsConflictFree(s, ts, now);
      var w :| w in Selected(s, ts, now) && Conflicts(s, t, w);
      ContainmentIsSharing(t.bbox, w.bbox, s.containmentThreshold);
    }
  }
}
