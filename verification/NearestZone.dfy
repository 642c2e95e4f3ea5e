/** Is the zone a sighting matches the nearest one?  The scan takes the first zone in
    range, so for given zones this depends on how far their centres are apart, and over
    runs on the settings. */
module NearestZone {
  import opened Prelude
  import opened Geometry
  import opened DwellZones
  import opened DwellSoundness
  import opened DepartureRuns
  import opened DepartureFacts

  function Square(u: real): real { u * u }

  /** The squared distance. */
  function Dist2(p: Point, q: Point): real {
    Square(p.x - q.x) + Square(p.y - q.y)
  }

  /** Zone `i` is at least as near as every other. */
  ghost predicate IsNearest(zones: seq<Zone>, at: Point, i: nat)
    requires i < |zones|
  {
    forall j :: 0 <= j < |zones| ==> Dist2(at, zones[i].center) <= Dist2(at, zones[j].center)
  }

  /** Wherever a person is seen, the zone it matches is the nearest. */
  ghost predicate FindsNearest(c: Settings, zones: seq<Zone>) {
    forall at: Point :: MatchZone(c, zones, at).Some? ==> IsNearest(zones, at, MatchZone(c, zones, at).value)
  }

  predicate SameOrApart(a: Point, b: Point, d: real) {
    a == b || Dist2(a, b) >= 4.0 * Square(d)
  }

  /** No two zones with different centres are closer than twice the match distance. */
  ghost predicate WellApart(c: Settings, zones: seq<Zone>) {
    c.matchDistance < 0.0 ||
      forall i, j :: 0 <= i < j < |zones| ==> SameOrApart(zones[i].center, zones[j].center, c.matchDistance)
  }

  // ---- plane geometry ----

  lemma Product(a: real, b: real) returns (c: real)
    requires a > 0.0 && b > 0.0
    ensures c == a * b && c > 0.0
  {
    c := a * b;
    ProductPositive(a, b);
  }

  lemma SquarePositive(u: real)
    ensures Square(u) >= 0.0 && (u != 0.0 ==> Square(u) > 0.0) && Square(-u) == Square(u)
  {
    var a := Abs(u);
    assert Square(a) == Square(u);
    if a > 0.0 {
      var c := Product(a, a);
      assert Square(a) == c;
    }
  }

  lemma SquareScaled(k: real, u: real)
    ensures Square(k * u) == Square(k) * Square(u)
  {
    assert (k * u) * (k * u) == (k * k) * (u * u);
  }

  lemma Parallelogram(u: real, v: real)
    ensures Square(u + v) + Square(u - v) == 2.0 * Square(u) + 2.0 * Square(v)
  {
  }

  lemma AxisBound(p: real, a: real, b: real)
    ensures Square(a - b) <= 2.0 * Square(p - a) + 2.0 * Square(p - b)
  {
    Parallelogram(p - a, p - b);
    SquarePositive((p - a) + (p - b));
    SquarePositive(a - b);
    assert (p - a) - (p - b) == -(a - b);
  }

  lemma DistanceBound(p: Point, a: Point, b: Point)
    ensures Dist2(a, b) <= 2.0 * Dist2(p, a) + 2.0 * Dist2(p, b)
  {
    AxisBound(p.x, a.x, b.x);
    AxisBound(p.y, a.y, b.y);
  }

  lemma DistinctApart(a: Point, b: Point)
    ensures Dist2(a, b) >= 0.0 && (a != b ==> Dist2(a, b) > 0.0) && Dist2(a, b) == Dist2(b, a)
  {
    SquarePositive(a.x - b.x);
    SquarePositive(a.y - b.y);
    assert -(a.x - b.x) == b.x - a.x && -(a.y - b.y) == b.y - a.y;
  }

  lemma WithinIsDist2(p: Point, q: Point, d: real)
    ensures Within(p, q, d) <==> d >= 0.0 && Dist2(p, q) <= Square(d)
  {
  }

  function Along(a: Point, b: Point, t: real): Point {
    Point(a.x + t * (b.x - a.x), a.y + t * (b.y - a.y))
  }

  lemma AxisAlong(a: real, b: real, t: real)
    ensures Square(a + t * (b - a) - a) == Square(t) * Square(a - b)
    ensures Square(a + t * (b - a) - b) == Square(1.0 - t) * Square(a - b)
  {
    SquareScaled(t, b - a);
    SquareScaled(1.0 - t, a - b);
    SquarePositive(a - b);
    assert -(a - b) == b - a;
    assert a + t * (b - a) - a == t * (b - a);
    assert a + t * (b - a) - b == (1.0 - t) * (a - b);
  }

  lemma DistancesAlong(a: Point, b: Point, t: real)
    ensures Dist2(Along(a, b, t), a) == Square(t) * Dist2(a, b)
    ensures Dist2(Along(a, b, t), b) == Square(1.0 - t) * Dist2(a, b)
  {
    AxisAlong(a.x, b.x, t);
    AxisAlong(a.y, b.y, t);
    Distribute(Square(t), Square(a.x - b.x), Square(a.y - b.y));
    Distribute(Square(1.0 - t), Square(a.x - b.x), Square(a.y - b.y));
  }

  lemma Distribute(k: real, u: real, v: real)
    ensures k * (u + v) == k * u + k * v
  {
  }

  lemma ScaleBelow(x: real, y: real, k: real)
    requires k > 0.0
    ensures x < y ==> x * k < y * k
    ensures x >= y ==> x * k >= y * k
  {
    assert (y - x) * k == y * k - x * k;
    if x < y {
      ProductPositive(y - x, k);
    }
    if x > y {
      ProductPositive(x - y, k);
      assert (x - y) * k == x * k - y * k;
    }
  }

  lemma QuotientInUnit(x: real, y: real)
    requires 0.0 < x < y
    ensures 0.0 < x / y < 1.0 && x / y * y == x
  {
    var q := x / y;
    assert q * y == x;
    ScaleBelow(0.0, q, y);
    ScaleBelow(q, 1.0, y);
  }

  lemma OneShort(q: real)
    ensures (2.0 - q) * q == 1.0 - Square(1.0 - q)
  {
  }

  /** For `0 < q < 1` some `t` a little over one half still has `4 t^2 q` below 1. */
  lemma JustOverHalf(q: real) returns (t: real)
    requires 0.0 < q < 1.0
    ensures 0.5 < t < 1.0 && Square(t) <= (2.0 - q) / 4.0 && (2.0 - q) * q < 1.0
  {
    var e := (1.0 - q) / 3.0;
    t := 0.5 + e / 2.0;
    ProductMonotone(e, e, 1.0, e);
    assert Square(t) == (1.0 + 2.0 * e + e * e) / 4.0;
    SquarePositive(1.0 - q);
    OneShort(q);
  }

  lemma BelowQuarter(square: real, q: real, whole: real, far: real)
    requires 0.0 < q && whole > 0.0 && q * whole == far
    requires 0.0 <= square <= (2.0 - q) / 4.0 && (2.0 - q) * q < 1.0
    ensures square * far <= whole / 4.0
  {
    var x := (2.0 - q) * q;
    ProductMonotone(square, far, (2.0 - q) / 4.0, far);
    assert (2.0 - q) / 4.0 * far == x * whole / 4.0 by {
      assert (2.0 - q) * (q * whole) == x * whole;
    }
    ScaleBelow(x, 1.0, whole);
  }

  lemma NearerEnd(t: real, far: real)
    requires t > 0.5 && far > 0.0
    ensures Square(1.0 - t) * far < Square(t) * far
  {
    assert Square(1.0 - t) == Square(t) + (1.0 - 2.0 * t);
    ScaleBelow(Square(1.0 - t), Square(t), far);
  }

  /** Just past the midpoint of `a` and `b`: nearer to `b`, yet within `d` of `a`. */
  lemma PastMidpoint(a: Point, b: Point, d: real) returns (p: Point)
    requires a != b && d >= 0.0 && Dist2(a, b) < 4.0 * Square(d)
    ensures Within(p, a, d) && Dist2(p, b) < Dist2(p, a)
  {
    var whole, far := 4.0 * Square(d), Dist2(a, b);
    DistinctApart(a, b);
    var t := StepLength(far, whole);
    p := Along(a, b, t);
    DistancesAlong(a, b, t);
    WithinIsDist2(p, a, d);
  }

  lemma StepLength(far: real, whole: real) returns (t: real)
    requires 0.0 < far < whole
    ensures Square(t) * far <= whole / 4.0 && Square(1.0 - t) * far < Square(t) * far
  {
    var q := far / whole;
    QuotientInUnit(far, whole);
    t := JustOverHalf(q);
    SquarePositive(t);
    BelowQuarter(Square(t), q, whole, far);
    NearerEnd(t, far);
  }

  // ---- given zones ----

  lemma ApartIsNearest(c: Settings, zones: seq<Zone>, at: Point)
    requires WellApart(c, zones) && MatchZone(c, zones, at).Some?
    ensures IsNearest(zones, at, MatchZone(c, zones, at).value)
  {
    var i, d := MatchZone(c, zones, at).value, c.matchDistance;
    forall j | 0 <= j < |zones| ensures Dist2(at, zones[i].center) <= Dist2(at, zones[j].center) {
      if i < j {
        assert SameOrApart(zones[i].center, zones[j].center, d);
        DistanceBound(at, zones[i].center, zones[j].center);
        WithinIsDist2(at, zones[i].center, d);
      } else if j < i {
        WithinIsDist2(at, zones[i].center, d);
        WithinIsDist2(at, zones[j].center, d);
      }
    }
  }

  /** Two zones too close together give a place whose match is not the nearest zone. */
  lemma {:induction false} CloseZonesMislead(c: Settings, zones: seq<Zone>, i: nat, j: nat) returns (at: Point)
    requires c.matchDistance >= 0.0 && i < j < |zones|
    requires !SameOrApart(zones[i].center, zones[j].center, c.matchDistance)
    ensures MatchZone(c, zones, at).Some? && !IsNearest(zones, at, MatchZone(c, zones, at).value)
    decreases i
  {
    var a, b := zones[i].center, zones[j].center;
    at := PastMidpoint(a, b, c.matchDistance);
    var r := MatchZone(c, zones, at).value;
    if r != i {
      var first := zones[r].center;
      WithinIsDist2(at, first, c.matchDistance);
      WithinIsDist2(at, a, c.matchDistance);
      if first != b {
        DistanceBound(at, first, b);
        at := CloseZonesMislead(c, zones, r, j);
      } else {
        DistinctApart(a, b);
        at := CloseZonesMislead(c, zones, r, i);
      }
    }
  }

  /** The match is the nearest zone for every place, if and only if no two zones with
      different centres are closer than twice the match distance. */
  lemma FindsNearestIff(c: Settings, zones: seq<Zone>)
    ensures FindsNearest(c, zones) <==> WellApart(c, zones)
  {
    if WellApart(c, zones) {
      forall at: Point | MatchZone(c, zones, at).Some?
        ensures IsNearest(zones, at, MatchZone(c, zones, at).value)
      {
        ApartIsNearest(c, zones, at);
      }
    } else {
      var i, j :| 0 <= i < j < |zones| && !SameOrApart(zones[i].center, zones[j].center, c.matchDistance);
      var at := CloseZonesMislead(c, zones, i, j);
    }
  }

  // ---- zones of runs ----

  /** At most one zone is ever kept, or none is made, or none matches from afar. */
  predicate NeverTwoClose(c: Settings) {
    c.matchDistance <= 0.0 || c.stationaryDistance < 0.0 || c.maxSnapshots < 0 || c.maxSnapshots == 1
  }

  lemma SightKeepsFew(c: Settings, p: Person, s: Sighting)
    requires c.stationaryDistance < 0.0 || c.maxSnapshots < 0 || c.maxSnapshots == 1
    requires |p.zones| <= 1 && (c.maxSnapshots != 1 ==> p.zones == [])
    ensures |Sight(c, p, s).zones| <= 1 && (c.maxSnapshots != 1 ==> Sight(c, p, s).zones == [])
  {
    var q := p.(lastSeenAt := s.now, lastBox := s.box, processed := false);
    if Creates(c, q, s) && c.maxSnapshots < 0 {
      NoZonesKept(c, q, s);
    }
  }

  lemma {:induction false} FewZones(c: Settings, p: Person, ss: seq<Sighting>)
    requires Blank(p) && (c.stationaryDistance < 0.0 || c.maxSnapshots < 0 || c.maxSnapshots == 1)
    ensures |Replay(c, p, ss).zones| <= 1 && (c.maxSnapshots != 1 ==> Replay(c, p, ss).zones == [])
  {
    if ss != [] {
      FewZones(c, p, ss[..|ss| - 1]);
      SightKeepsFew(c, Replay(c, p, ss[..|ss| - 1]), ss[|ss| - 1]);
    }
  }

  lemma NeverTwoCloseIsApart(c: Settings, p: Person, ss: seq<Sighting>)
    requires Blank(p) && NeverTwoClose(c)
    ensures WellApart(c, Replay(c, p, ss).zones)
  {
    if c.matchDistance > 0.0 {
      FewZones(c, p, ss);
    } else if c.matchDistance == 0.0 {
      var zones := Replay(c, p, ss).zones;
      forall i, j | 0 <= i < j < |zones| ensures SameOrApart(zones[i].center, zones[j].center, 0.0) {
        DistinctApart(zones[i].center, zones[j].center);
      }
    }
  }

  // ---- the input that shows the condition is needed ----

  function Dwell(c: Settings): real { Abs(c.minDwellSeconds) + 1.0 }

  /** Dwell at 0, walk far away, come back and dwell at one and a half match
      distances. */
  function TwoPlaces(c: Settings): seq<Sighting> {
    var t, d := Dwell(c), c.matchDistance;
    [Stand(0.0, 0.0), Stand(0.0, t), Stand(c.stationaryDistance + 2.0 * d + 1.0, 2.0 * t),
     Stand(1.5 * d, 3.0 * t), Stand(1.5 * d, 4.0 * t)]
  }

  predicate KeepsAll(c: Settings, n: nat) { c.maxSnapshots == 0 || c.maxSnapshots >= n }

  /** A dwell at a new place makes a zone there. */
  lemma DwellMakesZone(c: Settings, q: Person, s0: Sighting, s1: Sighting, x: real)
    requires c.stationaryDistance >= 0.0 && KeepsAll(c, |q.zones| + 1)
    requires Center(s0.box) == Center(s1.box) == Point(x, 0.0) && s1.now - s0.now >= c.minDwellSeconds
    requires MatchZone(c, q.zones, Point(x, 0.0)).None? && !StaysAtAnchor(c, q, Point(x, 0.0))
    ensures var zones := Sight(c, Sight(c, q, s0), s1).zones;
      && |zones| == |q.zones| + 1 && zones[..|q.zones|] == q.zones && zones[|q.zones|].center == Point(x, 0.0)
    ensures Sight(c, Sight(c, q, s0), s1).anchor == Some(Point(x, 0.0))
  {
    var q0 := Sight(c, q, s0);
    assert q0.zones == q.zones && q0.anchor == Some(Point(x, 0.0)) && q0.since == s0.now;
    Nearby(x, x, c.stationaryDistance);
    assert Creates(c, q0, s1);
    var all := q.zones + [NewZone(q0.(lastSeenAt := s1.now, lastBox := s1.box, processed := false), s1)];
    assert Suffix(all, 0) == all;
  }

  lemma ReplayOneMore(c: Settings, p: Person, ss: seq<Sighting>, n: nat)
    requires n < |ss|
    ensures Replay(c, p, ss[..n + 1]) == Sight(c, Replay(c, p, ss[..n]), ss[n])
  {
    assert ss[..n + 1][..n] == ss[..n];
  }

  lemma HomePlace(c: Settings, p: Person, s0: Sighting, s1: Sighting)
    requires !NeverTwoClose(c) && Blank(p)
    requires Center(s0.box) == Center(s1.box) == ORIGIN && s1.now - s0.now >= c.minDwellSeconds
    ensures var home := Sight(c, Sight(c, p, s0), s1);
      |home.zones| == 1 && home.zones[0].center == ORIGIN && home.anchor == Some(ORIGIN)
  {
    DwellMakesZone(c, p, s0, s1, 0.0);
  }

  lemma LeavesHome(c: Settings, home: Person, s: Sighting, far: real)
    requires !NeverTwoClose(c) && far == c.stationaryDistance + 2.0 * c.matchDistance + 1.0
    requires |home.zones| == 1 && home.zones[0].center == ORIGIN && home.anchor == Some(ORIGIN)
    requires Center(s.box) == Point(far, 0.0)
    ensures var away := Sight(c, home, s);
      |away.zones| == 1 && away.zones[0].center == ORIGIN && away.anchor == Some(Point(far, 0.0))
  {
    FarApart(far, 0.0, c.matchDistance);
    FarApart(far, 0.0, c.stationaryDistance);
    WalkAway(c, home, s);
  }

  lemma FirstPlace(c: Settings, p: Person, s0: Sighting, s1: Sighting, s2: Sighting, far: real)
    requires !NeverTwoClose(c) && Blank(p) && far == c.stationaryDistance + 2.0 * c.matchDistance + 1.0
    requires Center(s0.box) == Center(s1.box) == ORIGIN && Center(s2.box) == Point(far, 0.0)
    requires s1.now - s0.now >= c.minDwellSeconds
    ensures var away := Sight(c, Sight(c, Sight(c, p, s0), s1), s2);
      |away.zones| == 1 && away.zones[0].center == ORIGIN && away.anchor == Some(Point(far, 0.0))
  {
    HomePlace(c, p, s0, s1);
    LeavesHome(c, Sight(c, Sight(c, p, s0), s1), s2, far);
  }

  lemma SecondPlace(c: Settings, away: Person, s0: Sighting, s1: Sighting, far: real)
    requires !NeverTwoClose(c) && |away.zones| == 1 && away.zones[0].center == ORIGIN
    requires away.anchor == Some(Point(far, 0.0)) && far == c.stationaryDistance + 2.0 * c.matchDistance + 1.0
    requires Center(s0.box) == Center(s1.box) == Point(1.5 * c.matchDistance, 0.0)
      && s1.now - s0.now >= c.minDwellSeconds
    ensures var zones := Sight(c, Sight(c, away, s0), s1).zones;
      |zones| == 2 && zones[0] == away.zones[0] && zones[1].center == Point(1.5 * c.matchDistance, 0.0)
  {
    var x := 1.5 * c.matchDistance;
    FarApart(x, 0.0, c.matchDistance);
    FarApart(x, far, c.stationaryDistance);
    DwellMakesZone(c, away, s0, s1, x);
    var zones := Sight(c, Sight(c, away, s0), s1).zones;
    assert zones[0] == zones[..1][0];
  }

  lemma ReplayThree(c: Settings, p: Person, ss: seq<Sighting>, n: nat)
    requires n == 3 && n <= |ss|
    ensures Replay(c, p, ss[..n]) == Sight(c, Sight(c, Sight(c, p, ss[0]), ss[1]), ss[2])
  {
    assert ss[..n - 3] == [];
    ReplayOneMore(c, p, ss, n - 3);
    ReplayOneMore(c, p, ss, n - 2);
    ReplayOneMore(c, p, ss, n - 1);
  }

  lemma ReplayTwoMore(c: Settings, p: Person, ss: seq<Sighting>, n: nat)
    requires n + 2 == |ss|
    ensures Replay(c, p, ss) == Sight(c, Sight(c, Replay(c, p, ss[..n]), ss[n]), ss[n + 1])
  {
    assert ss[..n + 2] == ss;
    ReplayOneMore(c, p, ss, n);
    ReplayOneMore(c, p, ss, n + 1);
  }

  lemma TwoPlacesZones(c: Settings, p: Person, ss: seq<Sighting>)
    requires !NeverTwoClose(c) && Blank(p) && ss == TwoPlaces(c)
    ensures var zones := Replay(c, p, ss).zones;
      |zones| == 2 && zones[0].center == ORIGIN && zones[1].center == Point(1.5 * c.matchDistance, 0.0)
  {
    var x, far := 1.5 * c.matchDistance, c.stationaryDistance + 2.0 * c.matchDistance + 1.0;
    CenterOfStand(0.0, ss[0].now);
    CenterOfStand(0.0, ss[1].now);
    CenterOfStand(far, ss[2].now);
    CenterOfStand(x, ss[3].now);
    CenterOfStand(x, ss[4].now);
    var n: nat := 3;
    FirstPlace(c, p, ss[0], ss[1], ss[2], far);
    ReplayThree(c, p, ss, n);
    SecondPlace(c, Replay(c, p, ss[..n]), ss[n], ss[n + 1], far);
    ReplayTwoMore(c, p, ss, n);
  }

  lemma MatchesFirst(c: Settings, zones: seq<Zone>, d: real)
    requires d == c.matchDistance && d > 0.0 && |zones| == 2
    requires zones[0].center == ORIGIN && zones[1].center == Point(1.5 * d, 0.0)
    ensures var at := Point(0.9 * d, 0.0);
      MatchZone(c, zones, at) == Some(0) && Dist2(at, zones[1].center) < Dist2(at, zones[0].center)
  {
    Nearby(0.9 * d, 0.0, d);
    SquarePositive(d);
    SquareScaled(0.9, d);
    SquareScaled(-0.6, d);
    assert 0.9 * d - 0.0 == 0.9 * d && 0.9 * d - 1.5 * d == -0.6 * d;
  }

  /** The input: after the two dwells, a person seen at nine tenths of the match
      distance matches the zone at 0, though the other zone is nearer. */
  lemma TwoPlacesMislead(c: Settings, p: Person, ss: seq<Sighting>)
    requires !NeverTwoClose(c) && Blank(p) && ss == TwoPlaces(c)
    ensures var zones, at := Replay(c, p, ss).zones, Point(0.9 * c.matchDistance, 0.0);
      && |zones| == 2 && MatchZone(c, zones, at) == Some(0)
      && Dist2(at, zones[1].center) < Dist2(at, zones[0].center)
    ensures !FindsNearest(c, Replay(c, p, ss).zones)
  {
    TwoPlacesZones(c, p, ss);
    MatchesFirst(c, Replay(c, p, ss).zones, c.matchDistance);
    assert !IsNearest(Replay(c, p, ss).zones, Point(0.9 * c.matchDistance, 0.0), 0);
  }

  // ---- whole runs ----

  ghost predicate RunsFindNearest(c: Settings) {
    forall es: seq<Event>, n: nat, id: string ::
      n <= |es| && LifeAfter(c, es, n, id).Some? ==> FindsNearest(c, LifeAfter(c, es, n, id).value.person.zones)
  }

  lemma RunZonesApart(c: Settings, es: seq<Event>, n: nat, id: string)
    requires NeverTwoClose(c) && n <= |es| && LifeAfter(c, es, n, id).Some?
    ensures FindsNearest(c, LifeAfter(c, es, n, id).value.person.zones)
  {
    var life, ss := LifeAfter(c, es, n, id).value, History(c, es, n, id);
    LifeIsReplay(c, es, n, id);
    NeverTwoCloseIsApart(c, Newborn(id, life.person.cameraId, ss[0].box, ss[0].now), ss);
    FindsNearestIff(c, life.person.zones);
  }

  lemma RunMisleads(c: Settings, ss: seq<Sighting>, id: string, cameraId: string)
    requires !NeverTwoClose(c) && ss == TwoPlaces(c)
    ensures !RunsFindNearest(c)
  {
    var es := Watch(ss, id, cameraId);
    ReplayIsReachable(c, ss, |ss|, id, cameraId);
    assert ss[..|ss|] == ss;
    TwoPlacesMislead(c, Newborn(id, cameraId, ss[0].box, ss[0].now), ss);
    assert !FindsNearest(c, LifeAfter(c, es, |ss|, id).value.person.zones);
  }

  /** In every reachable state of every run a sighting matches the nearest zone, if and
      only if zones match only at their centre, or none is ever made, or at most one
      is kept. */
  lemma RunsFindNearestIff(c: Settings)
    ensures RunsFindNearest(c) <==> NeverTwoClose(c)
  {
    if NeverTwoClose(c) {
      forall es: seq<Event>, n: nat, id: string | n <= |es| && LifeAfter(c, es, n, id).Some?
        ensures FindsNearest(c, LifeAfter(c, es, n, id).value.person.zones)
      {
        RunZonesApart(c, es, n, id);
      }
    } else {
      RunMisleads(c, TwoPlaces(c), "p", "cam");
    }
  }

  /** The settings used when none are given. */
  const DEFAULTS := Settings(3.0, 50.0, 2.0, 3, 40.0, 60.0)

  lemma DefaultsMislead()
    ensures !RunsFindNearest(DEFAULTS)
  {
    RunsFindNearestIff(DEFAULTS);
  }
}
