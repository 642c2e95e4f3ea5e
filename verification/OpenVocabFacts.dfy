/** What every detection returned by the open-vocabulary detector stands for: an
    anchor of some tile, a target prompt that beats every negative one, and a proper
    box inside that tile and the frame. */
module OpenVocabFacts {
  import opened Prelude
  import opened Geometry
  import opened StableSort
  import Letterbox
  import Tiling
  import opened OpenVocabDetector

  // ---- one image ----

  /** The detection names prompt `id` with its score and the margin over the best
      negative prompt. */
  ghost predicate Reports(c: Config, row: Row, id: nat, d: Detection)
    requires Usable(c) && Scored(c, row) && id < |c.names|
  {
    && d.className == c.names[id] && c.normalise(d.className) in c.targetLabels
    && d.confidence == row.scores[id] && d.targetMargin == d.confidence - d.negativeConfidence
    && (forall t :: 0 <= t < |c.names| && IsTargetId(c, t) ==> row.scores[t] <= d.confidence)
    && (forall t :: 0 <= t < id && IsTargetId(c, t) ==> row.scores[t] < d.confidence)
    && (forall n :: 0 <= n < |c.names| && !IsTargetId(c, n) ==> row.scores[n] <= d.negativeConfidence)
    && (NoNegatives(c) ==> d.negativeConfidence == 0.0)
    && (!NoNegatives(c) ==>
          exists n :: 0 <= n < |c.names| && !IsTargetId(c, n) && row.scores[n] == d.negativeConfidence)
  }

  /** The detection reports a winning prompt of the anchor, in the anchor's own box, which
      is proper and inside the `w` by `h` image. */
  ghost predicate Genuine(c: Config, row: Row, w: nat, h: nat, d: Detection)
    requires Usable(c)
  {
    && Scored(c, row) && w > 0 && h > 0 && d.source == "yolo_world"
    && (exists id :: Wins(c, row, id) && Reports(c, row, id, d))
    && Letterbox.BoxOf(d.bbox, row.anchor, Letterbox.Place(c.canvasW, c.canvasH, w, h), w, h)
    && Proper(d.bbox) && Letterbox.InImage(d.bbox, w, h)
  }

  lemma KeptIsGenuine(c: Config, row: Row, f: Letterbox.Fit, w: nat, h: nat)
    requires Usable(c) && Scored(c, row) && w > 0 && h > 0 && f == Letterbox.Place(c.canvasW, c.canvasH, w, h)
    requires Kept(c, row) && Proper(DetectionOf(c, row, f, w, h).bbox)
    ensures Genuine(c, row, w, h, DetectionOf(c, row, f, w, h))
  {
    var id := BestTarget(c, row);
    BestWins(c, row);
    BestTargetIsBest(c, row);
    BestNegativeIsBest(c, row);
    TargetIdIff(c, id);
    Letterbox.DecodeBoxIsBox(row.anchor, f, w, h);
    assert Reports(c, row, id, DetectionOf(c, row, f, w, h));
  }

  lemma {:induction false} DecodedSource(c: Config, rows: seq<Row>, f: Letterbox.Fit, w: nat, h: nat, d: Detection)
    returns (row: Row)
    requires Usable(c) && w > 0 && h > 0 && f == Letterbox.Place(c.canvasW, c.canvasH, w, h)
    requires forall k :: 0 <= k < |rows| ==> Scored(c, rows[k])
    requires d in Decoded(c, rows, f, w, h)
    ensures row in rows && Genuine(c, row, w, h, d)
  {
    var n := |rows| - 1;
    if d in Decoded(c, rows[..n], f, w, h) {
      row := DecodedSource(c, rows[..n], f, w, h, d);
    } else {
      row := rows[n];
      KeptIsGenuine(c, row, f, w, h);
    }
  }

  /** The box the anchor stands for in a `w` by `h` image. */
  ghost predicate StandsFor(c: Config, row: Row, w: nat, h: nat, b: Box)
    requires Usable(c) && w > 0 && h > 0
  {
    Letterbox.BoxOf(b, row.anchor, Letterbox.Place(c.canvasW, c.canvasH, w, h), w, h)
  }

  /** Some target prompt wins on the anchor, which stands for a proper box. */
  ghost predicate IsFind(c: Config, row: Row, w: nat, h: nat) {
    && Usable(c) && w > 0 && h > 0 && Scored(c, row) && (exists id :: Wins(c, row, id))
    && forall b :: StandsFor(c, row, w, h, b) ==> Proper(b)
  }

  lemma FindIff(c: Config, row: Row, w: nat, h: nat)
    requires Usable(c) && Scored(c, row) && w > 0 && h > 0
    ensures var d := DetectionOf(c, row, Letterbox.Place(c.canvasW, c.canvasH, w, h), w, h);
      && (IsFind(c, row, w, h) <==> Kept(c, row) && Proper(d.bbox))
      && (IsFind(c, row, w, h) ==> Genuine(c, row, w, h, d))
  {
    var f := Letterbox.Place(c.canvasW, c.canvasH, w, h);
    KeptIff(c, row);
    Letterbox.DecodeBoxIsBox(row.anchor, f, w, h);
    var b := Letterbox.DecodeBox(row.anchor, f, w, h);
    forall b' | StandsFor(c, row, w, h, b') ensures b' == b {
      Letterbox.OneBoxOf(b, b', row.anchor, f, w, h);
    }
    assert StandsFor(c, row, w, h, b);
    if IsFind(c, row, w, h) {
      KeptIsGenuine(c, row, f, w, h);
    }
  }

  ghost function Finds(c: Config, w: nat, h: nat): Row -> bool { (row: Row) => IsFind(c, row, w, h) }

  /** One detection for each of the anchors. */
  ghost predicate EachGenuine(c: Config, rows: seq<Row>, w: nat, h: nat, ds: seq<Detection>)
    requires Usable(c)
  {
    |ds| == |rows| && forall i :: 0 <= i < |ds| ==> Genuine(c, rows[i], w, h, ds[i])
  }

  /** The decoding gives one detection per find, in the order of the anchors. */
  lemma {:induction false} DecodedFinds(c: Config, rows: seq<Row>, f: Letterbox.Fit, w: nat, h: nat)
    returns (at: seq<nat>, finds: seq<Row>)
    requires Usable(c) && w > 0 && h > 0 && f == Letterbox.Place(c.canvasW, c.canvasH, w, h)
    requires forall k :: 0 <= k < |rows| ==> Scored(c, rows[k])
    ensures Selects(rows, Finds(c, w, h), at, finds) && EachGenuine(c, finds, w, h, Decoded(c, rows, f, w, h))
  {
    if rows == [] {
      at, finds := [], [];
      SelectsNothing(rows, Finds(c, w, h));
    } else {
      var n := |rows| - 1;
      at, finds := DecodedFinds(c, rows[..n], f, w, h);
      SelectsOneMore(rows, n, Finds(c, w, h), at, finds);
      FindIff(c, rows[n], w, h);
      if IsFind(c, rows[n], w, h) {
        at, finds := at + [n], finds + [rows[n]];
      }
    }
  }

  // ---- the final choice ----

  ghost predicate StrongestFirst(ds: seq<Detection>) {
    forall i, j :: 0 <= i < j < |ds| ==> ds[i].confidence >= ds[j].confidence
  }

  /** `kept` are distinct survivors of the suppression. */
  ghost predicate Survivors(c: Config, ds: seq<Detection>, kept: seq<nat>) {
    && (forall i :: 0 <= i < |kept| ==> kept[i] < |ds| && kept[i] in c.suppress(ds))
    && (forall i, j :: 0 <= i < j < |kept| ==> kept[i] != kept[j])
  }

  /** The result lists distinct survivors, strongest first and as many as there are or the
      maximum allows. */
  lemma PickFacts(c: Config, ds: seq<Detection>) returns (kept: seq<nat>)
    requires SuppressionValid(c.suppress) && c.maxDetections >= 1
    ensures Survivors(c, ds, kept) && Pick(c, ds) == At(ds, kept)
    ensures |kept| == Min(|c.suppress(ds)|, c.maxDetections)
    ensures StrongestFirst(Pick(c, ds))
  {
    var chosen, s := c.suppress(ds), Ranked(c, ds);
    assert Positions(chosen, ds);
    SortCorrect(chosen, ByConfidence(ds));
    kept := s[..Min(|s|, c.maxDetections)];
    forall i | 0 <= i < |kept| ensures kept[i] in chosen {
      assert s[i] in multiset(s);
    }
    forall i, j | 0 <= i < j < |kept| ensures ds[kept[i]].confidence >= ds[kept[j]].confidence {
      assert !Above(ByConfidence(ds)(s[j]), ByConfidence(ds)(s[i]));
    }
  }

  /** A survivor of the suppression is missing from the result only if the result is
      full of detections at least as strong. */
  lemma PickKeepsStrongest(c: Config, ds: seq<Detection>, i: nat)
    requires SuppressionValid(c.suppress) && c.maxDetections >= 1 && i < |c.suppress(ds)| && c.suppress(ds)[i] < |ds|
    ensures var out, d := Pick(c, ds), ds[c.suppress(ds)[i]];
      d in out || (|out| == c.maxDetections && forall k :: 0 <= k < |out| ==> out[k].confidence >= d.confidence)
  {
    var chosen, s, out := c.suppress(ds), Ranked(c, ds), Pick(c, ds);
    SortCorrect(chosen, ByConfidence(ds));
    assert chosen[i] in multiset(chosen);
    assert chosen[i] in s;
    var j :| 0 <= j < |s| && s[j] == chosen[i];
    if j < |out| {
      assert out[j] == ds[chosen[i]];
    } else {
      forall k | 0 <= k < |out| ensures out[k].confidence >= ds[chosen[i]].confidence {
        assert !Above(ByConfidence(ds)(s[j]), ByConfidence(ds)(s[k]));
      }
    }
  }

  lemma SingleSource(c: Config, w: nat, h: nat, p: Prediction, d: Detection) returns (row: Row)
    requires Usable(c) && SuppressionValid(c.suppress) && Rectangular(p)
    requires Single(c, w, h, p).Detected? && d in Single(c, w, h, p).ds
    ensures row in p.rows && Genuine(c, row, w, h, d)
  {
    var f := Letterbox.Place(c.canvasW, c.canvasH, w, h);
    var ds := Decoded(c, p.rows, f, w, h);
    var kept := PickFacts(c, ds);
    row := DecodedSource(c, p.rows, f, w, h, d);
  }

  // ---- tiles ----

  lemma {:induction false} OverTilesSource(starts: seq<nat>, frameW: nat, frameH: nat,
                                           single: Region -> Outcome, d: Detection)
    returns (i: nat, d0: Detection)
    requires OverTiles(starts, frameW, frameH, single).Detected? && d in OverTiles(starts, frameW, frameH, single).ds
    ensures i < |starts|
    ensures var r := RegionAt(starts[i], frameW, frameH);
      single(r).Detected? && d0 in single(r).ds && d == Shift(d0, r)
  {
    var n := |starts| - 1;
    var before, r := OverTiles(starts[..n], frameW, frameH, single), RegionAt(starts[n], frameW, frameH);
    if d in before.ds {
      i, d0 := OverTilesSource(starts[..n], frameW, frameH, single, d);
    } else {
      i := n;
      var k :| 0 <= k < |single(r).ds| && ShiftAll(single(r).ds, r)[k] == d;
      d0 := single(r).ds[k];
    }
  }

  /** Nothing found in a tile is lost before the global suppression, and a call that
      succeeds had a well-shaped output on every tile. */
  lemma {:induction false} OverTilesCollects(starts: seq<nat>, frameW: nat, frameH: nat,
                                             single: Region -> Outcome, i: nat)
    requires i < |starts|
    ensures var all, here := OverTiles(starts, frameW, frameH, single), single(RegionAt(starts[i], frameW, frameH));
      all.Detected? ==> here.Detected? && forall d :: d in here.ds ==>
        Shift(d, RegionAt(starts[i], frameW, frameH)) in all.ds
  {
    var n := |starts| - 1;
    var r := RegionAt(starts[i], frameW, frameH);
    if OverTiles(starts, frameW, frameH, single).Detected? {
      if i < n {
        OverTilesCollects(starts[..n], frameW, frameH, single, i);
      } else {
        forall d | d in single(r).ds ensures Shift(d, r) in ShiftAll(single(r).ds, r) {
          var k :| 0 <= k < |single(r).ds| && single(r).ds[k] == d;
          assert ShiftAll(single(r).ds, r)[k] == Shift(d, r);
        }
      }
    }
  }

  /** The long side exceeds the short side by more than the threshold. */
  predicate Elongated(c: Config, frameW: nat, frameH: nat) {
    Max(frameW, frameH) as real > Min(frameW, frameH) as real * c.aspectThreshold
  }

  predicate RegionInside(r: Region, frameW: nat, frameH: nat) {
    r.x + r.width <= frameW && r.y + r.height <= frameH
  }

  predicate IsSquare(r: Region, side: nat) { r.width == side && r.height == side }

  predicate HasPixel(r: Region, x: nat, y: nat) {
    r.x <= x < r.x + r.width && r.y <= y < r.y + r.height
  }

  lemma LongerThanTile(c: Config, frameW: nat, frameH: nat)
    requires Usable(c) && c.tileEnabled && Elongated(c, frameW, frameH) && frameW > 0 && frameH > 0
    ensures Max(frameW, frameH) > Min(frameW, frameH)
    ensures Tiling.Stride(Min(frameW, frameH), c.tileOverlap) <= Min(frameW, frameH)
  {
    var tile := Min(frameW, frameH);
    assert tile as real * c.aspectThreshold >= tile as real * 1.0;
    Tiling.StrideWithinTile(tile, c.tileOverlap);
  }

  /** The square tiles lie inside the frame and cover every pixel of it. */
  lemma TilesCoverFrame(c: Config, frameW: nat, frameH: nat, x: nat, y: nat) returns (i: nat)
    requires Usable(c) && c.tileEnabled && Elongated(c, frameW, frameH) && x < frameW && y < frameH
    ensures var starts := StartsOf(c, frameW, frameH);
      && i < |starts| && HasPixel(RegionAt(starts[i], frameW, frameH), x, y)
      && (forall j :: 0 <= j < |starts| ==> IsSquare(RegionAt(starts[j], frameW, frameH), Min(frameW, frameH)))
      && (forall j :: 0 <= j < |starts| ==> RegionInside(RegionAt(starts[j], frameW, frameH), frameW, frameH))
  {
    var side, tile := Max(frameW, frameH), Min(frameW, frameH);
    var stride := Tiling.Stride(tile, c.tileOverlap);
    var starts := StartsOf(c, frameW, frameH);
    LongerThanTile(c, frameW, frameH);
    Tiling.StartsSpan(side, tile, stride);
    var at := if frameW >= frameH then x else y;
    Tiling.PixelsCovered(side, tile, stride, at);
    i :| 0 <= i < |starts| && Tiling.InTile(starts, tile, i, at, 1);
  }

  /** An object that is no longer than a tile less the stride plus one lies whole in
      some tile, wherever it is along the long side. */
  lemma ObjectsFitSomeTile(c: Config, frameW: nat, frameH: nat, at: nat, length: nat)
    requires Usable(c) && c.tileEnabled && Elongated(c, frameW, frameH) && frameW > 0 && frameH > 0
    requires at + length <= Max(frameW, frameH)
    requires length + Tiling.Stride(Min(frameW, frameH), c.tileOverlap) <= Min(frameW, frameH) + 1
    ensures Tiling.InSomeTile(StartsOf(c, frameW, frameH), Min(frameW, frameH), at, length)
  {
    var side, tile := Max(frameW, frameH), Min(frameW, frameH);
    LongerThanTile(c, frameW, frameH);
    Tiling.FitsSomewhere(side, tile, Tiling.Stride(tile, c.tileOverlap), at, length);
  }

  // ---- the whole frame ----

  predicate BoxInRegion(b: Box, r: Region) {
    && r.x as real <= b.x1 <= b.x2 <= (r.x + r.width) as real
    && r.y as real <= b.y1 <= b.y2 <= (r.y + r.height) as real
  }

  /** `d` is `d0`, found in region `r`, in frame coordinates. */
  predicate Moved(d0: Detection, r: Region, d: Detection) {
    && d.bbox.x1 == d0.bbox.x1 + r.x as real && d.bbox.x2 == d0.bbox.x2 + r.x as real
    && d.bbox.y1 == d0.bbox.y1 + r.y as real && d.bbox.y2 == d0.bbox.y2 + r.y as real
    && (d.className, d.confidence, d.source) == (d0.className, d0.confidence, d0.source)
    && (d.negativeConfidence, d.targetMargin) == (d0.negativeConfidence, d0.targetMargin)
  }

  /** Detection `d` goes back to an anchor of region `r`. */
  ghost predicate FromRegion(c: Config, r: Region, p: Prediction, d: Detection)
    requires Usable(c)
  {
    exists row, d0 :: row in p.rows && Genuine(c, row, r.width, r.height, d0) && Moved(d0, r, d)
  }

  lemma FromThisRow(c: Config, row: Row, r: Region, p: Prediction, d0: Detection, d: Detection)
    requires Usable(c) && row in p.rows && Genuine(c, row, r.width, r.height, d0) && d == Shift(d0, r)
    ensures FromRegion(c, r, p, d) && BoxInRegion(d.bbox, r) && Proper(d.bbox)
  {
    assert Moved(d0, r, d);
  }

  lemma NoShift(d: Detection, r: Region)
    requires r.x == 0 && r.y == 0
    ensures Shift(d, r) == d
  {
  }

  /** A region the detector really looks at: a tile, or the whole frame. */
  ghost predicate IsRegion(c: Config, frameW: nat, frameH: nat, r: Region)
    requires Usable(c)
  {
    if c.tileEnabled && Elongated(c, frameW, frameH) then
      exists i :: 0 <= i < |StartsOf(c, frameW, frameH)|
        && r == RegionAt(StartsOf(c, frameW, frameH)[i], frameW, frameH)
    else r == Region(0, 0, frameW, frameH)
  }

  /** Every returned detection reports a winning target prompt of an anchor in one
      of the tiles, or in the whole frame when it is not tiled, with a proper box inside
      that region. */
  lemma FrameDetections(c: Config, frameW: nat, frameH: nat, infer: Region -> Prediction, k: nat) returns (r: Region)
    requires Usable(c) && SuppressionValid(c.suppress) && WellFormed(infer)
    requires Frame(c, frameW, frameH, infer).Detected? && k < |Frame(c, frameW, frameH, infer).ds|
    ensures var d := Frame(c, frameW, frameH, infer).ds[k];
      && IsRegion(c, frameW, frameH, r) && RegionInside(r, frameW, frameH) && FromRegion(c, r, infer(r), d)
      && BoxInRegion(d.bbox, r) && Proper(d.bbox)
  {
    var d := Frame(c, frameW, frameH, infer).ds[k];
    if !(c.tileEnabled && Elongated(c, frameW, frameH)) {
      r := Region(0, 0, frameW, frameH);
      WholeFrameSource(c, r, infer, d);
    } else {
      TilesIff(c, frameW, frameH);
      TiledFrame(c, frameW, frameH, infer);
      var kept := PickFacts(c, OverTiles(StartsOf(c, frameW, frameH), frameW, frameH, SingleOn(c, infer)).ds);
      r := TileSource(c, frameW, frameH, infer, d);
    }
  }

  lemma WholeFrameSource(c: Config, r: Region, infer: Region -> Prediction, d: Detection)
    requires Usable(c) && SuppressionValid(c.suppress) && WellFormed(infer) && r.x == 0 && r.y == 0
    requires Single(c, r.width, r.height, infer(r)).Detected? && d in Single(c, r.width, r.height, infer(r)).ds
    ensures FromRegion(c, r, infer(r), d) && BoxInRegion(d.bbox, r) && Proper(d.bbox)
  {
    var row := SingleSource(c, r.width, r.height, infer(r), d);
    NoShift(d, r);
    FromThisRow(c, row, r, infer(r), d, d);
  }

  lemma TileSource(c: Config, frameW: nat, frameH: nat, infer: Region -> Prediction, d: Detection) returns (r: Region)
    requires Usable(c) && SuppressionValid(c.suppress) && WellFormed(infer)
    requires c.tileEnabled && Elongated(c, frameW, frameH) && frameW > 0 && frameH > 0
    requires var all := OverTiles(StartsOf(c, frameW, frameH), frameW, frameH, SingleOn(c, infer));
      all.Detected? && d in all.ds
    ensures IsRegion(c, frameW, frameH, r) && RegionInside(r, frameW, frameH) && FromRegion(c, r, infer(r), d)
    ensures BoxInRegion(d.bbox, r) && Proper(d.bbox)
  {
    var starts := StartsOf(c, frameW, frameH);
    var i, d0 := OverTilesSource(starts, frameW, frameH, SingleOn(c, infer), d);
    r := RegionAt(starts[i], frameW, frameH);
    var anyTile := TilesCoverFrame(c, frameW, frameH, 0, 0);
    var row := SingleSource(c, r.width, r.height, infer(r), d0);
    FromThisRow(c, row, r, infer(r), d0, d);
  }

  /** The detections come strongest first and are never more than the maximum. */
  lemma FrameIsRanked(c: Config, frameW: nat, frameH: nat, infer: Region -> Prediction)
    requires Usable(c) && SuppressionValid(c.suppress) && WellFormed(infer)
    requires Frame(c, frameW, frameH, infer).Detected?
    ensures var ds := Frame(c, frameW, frameH, infer).ds;
      StrongestFirst(ds) && |ds| <= c.maxDetections
  {
    if frameW > 0 && frameH > 0 {
      if c.tileEnabled && Elongated(c, frameW, frameH) {
        var kept := PickFacts(c, OverTiles(StartsOf(c, frameW, frameH), frameW, frameH, SingleOn(c, infer)).ds);
      } else {
        var p, f := infer(Region(0, 0, frameW, frameH)), Letterbox.Place(c.canvasW, c.canvasH, frameW, frameH);
        var kept := PickFacts(c, Decoded(c, p.rows, f, frameW, frameH));
      }
    }
  }

  // ---- when the detector tiles ----

  lemma TilesIff(c: Config, frameW: nat, frameH: nat)
    ensures Tiles(c, frameW, frameH) <==> c.tileEnabled && Elongated(c, frameW, frameH)
  {
  }

  lemma UntiledFrame(c: Config, frameW: nat, frameH: nat, infer: Region -> Prediction)
    requires Usable(c) && SuppressionValid(c.suppress) && WellFormed(infer) && frameW > 0 && frameH > 0
    requires !Tiles(c, frameW, frameH)
    ensures Frame(c, frameW, frameH, infer) == Single(c, frameW, frameH, infer(Region(0, 0, frameW, frameH)))
  {
  }

  ghost predicate ChosenFrom(c: Config, out: Outcome, all: Outcome)
    requires SuppressionValid(c.suppress) && c.maxDetections >= 1
  {
    out == if all.WrongShape? || all.ds == [] then all else Detected(Pick(c, all.ds))
  }

  lemma TiledFrame(c: Config, frameW: nat, frameH: nat, infer: Region -> Prediction)
    requires Usable(c) && SuppressionValid(c.suppress) && WellFormed(infer) && frameW > 0 && frameH > 0
    requires Tiles(c, frameW, frameH)
    ensures ChosenFrom(c, Frame(c, frameW, frameH, infer),
                       OverTiles(StartsOf(c, frameW, frameH), frameW, frameH, SingleOn(c, infer)))
  {
  }

  /** A frame that is not elongated, or any frame when tiling is off, is one image. */
  lemma UntiledIsOneImage(c: Config, frameW: nat, frameH: nat, infer: Region -> Prediction)
    requires Usable(c) && SuppressionValid(c.suppress) && WellFormed(infer) && frameW > 0 && frameH > 0
    requires !c.tileEnabled || !Elongated(c, frameW, frameH)
    ensures Frame(c, frameW, frameH, infer) == Single(c, frameW, frameH, infer(Region(0, 0, frameW, frameH)))
  {
    TilesIff(c, frameW, frameH);
    UntiledFrame(c, frameW, frameH, infer);
  }

  /** A call on a tiled frame fails exactly if some tile's output is wrongly shaped. */
  lemma {:induction false} OverTilesFailsIff(starts: seq<nat>, frameW: nat, frameH: nat, single: Region -> Outcome)
    ensures OverTiles(starts, frameW, frameH, single).WrongShape?
       <==> exists i :: 0 <= i < |starts| && single(RegionAt(starts[i], frameW, frameH)).WrongShape?
  {
    if starts != [] {
      var n := |starts| - 1;
      OverTilesFailsIff(starts[..n], frameW, frameH, single);
      if i :| 0 <= i < n && single(RegionAt(starts[..n][i], frameW, frameH)).WrongShape? {
        assert single(RegionAt(starts[i], frameW, frameH)).WrongShape?;
      }
      if i :| 0 <= i < |starts| && single(RegionAt(starts[i], frameW, frameH)).WrongShape? {
        assert i < n ==> starts[..n][i] == starts[i];
      }
    }
  }

  lemma SingleFailsIff(c: Config, w: nat, h: nat, p: Prediction)
    requires Usable(c) && SuppressionValid(c.suppress) && Rectangular(p)
    ensures Single(c, w, h, p).WrongShape? <==> w > 0 && h > 0 && p.classes != |c.names|
  {
  }

  /** Detection fails exactly if the model's output for some region it looks at does not have
      one score per prompt. */
  lemma FrameFailsIff(c: Config, frameW: nat, frameH: nat, infer: Region -> Prediction)
    requires Usable(c) && SuppressionValid(c.suppress) && WellFormed(infer) && frameW > 0 && frameH > 0
    ensures Frame(c, frameW, frameH, infer).WrongShape?
       <==> exists r :: IsRegion(c, frameW, frameH, r) && infer(r).classes != |c.names|
  {
    var whole := Region(0, 0, frameW, frameH);
    TilesIff(c, frameW, frameH);
    if c.tileEnabled && Elongated(c, frameW, frameH) {
      var starts, single := StartsOf(c, frameW, frameH), SingleOn(c, infer);
      TiledFrame(c, frameW, frameH, infer);
      OverTilesFailsIff(starts, frameW, frameH, single);
      forall r: Region | r.width > 0 && r.height > 0
        ensures single(r).WrongShape? <==> infer(r).classes != |c.names|
      {
        SingleFailsIff(c, r.width, r.height, infer(r));
      }
      if r :| IsRegion(c, frameW, frameH, r) && infer(r).classes != |c.names| {
        assert single(r).WrongShape?;
      }
    } else {
      UntiledFrame(c, frameW, frameH, infer);
      SingleFailsIff(c, frameW, frameH, infer(whole));
      assert IsRegion(c, frameW, frameH, whole);
    }
  }

  /** The list holds what is found on region `r`, each detection in frame coordinates. */
  ghost predicate FoundOn(c: Config, r: Region, infer: Region -> Prediction, list: seq<Detection>)
    requires Usable(c) && SuppressionValid(c.suppress) && WellFormed(infer)
  {
    var here := Single(c, r.width, r.height, infer(r));
    here.Detected? && |list| == |here.ds| && forall k :: 0 <= k < |list| ==> Moved(here.ds[k], r, list[k])
  }

  /** What is found on each tile, in frame coordinates. */
  function ByTile(starts: seq<nat>, frameW: nat, frameH: nat, single: Region -> Outcome): (r: seq<seq<Detection>>)
    ensures |r| == |starts|
  {
    seq(|starts|, i requires 0 <= i < |starts| =>
      var r := RegionAt(starts[i], frameW, frameH);
      if single(r).Detected? then ShiftAll(single(r).ds, r) else [])
  }

  lemma {:induction false} OverTilesInOrder(starts: seq<nat>, frameW: nat, frameH: nat, single: Region -> Outcome)
    requires OverTiles(starts, frameW, frameH, single).Detected?
    ensures OverTiles(starts, frameW, frameH, single).ds == Flatten(ByTile(starts, frameW, frameH, single))
  {
    if starts != [] {
      var n := |starts| - 1;
      OverTilesInOrder(starts[..n], frameW, frameH, single);
      assert ByTile(starts, frameW, frameH, single)[..n] == ByTile(starts[..n], frameW, frameH, single);
    }
  }

  lemma TileIsFoundOn(c: Config, frameW: nat, frameH: nat, infer: Region -> Prediction, starts: seq<nat>, i: nat)
    requires Usable(c) && SuppressionValid(c.suppress) && WellFormed(infer) && i < |starts|
    requires OverTiles(starts, frameW, frameH, SingleOn(c, infer)).Detected?
    ensures FoundOn(c, RegionAt(starts[i], frameW, frameH), infer,
                    ByTile(starts, frameW, frameH, SingleOn(c, infer))[i])
  {
    OverTilesCollects(starts, frameW, frameH, SingleOn(c, infer), i);
  }

  /** An elongated frame, with tiling on, is looked at tile by tile: everything found on the
      tiles goes, tile after tile and in frame coordinates, into the list that the final
      choice is from. */
  lemma TiledGathersAll(c: Config, frameW: nat, frameH: nat, infer: Region -> Prediction)
    returns (byTile: seq<seq<Detection>>)
    requires Usable(c) && SuppressionValid(c.suppress) && WellFormed(infer) && frameW > 0 && frameH > 0
    requires c.tileEnabled && Elongated(c, frameW, frameH)
    requires Frame(c, frameW, frameH, infer).Detected?
    ensures var all := Flatten(byTile); Frame(c, frameW, frameH, infer).ds == if all == [] then [] else Pick(c, all)
    ensures var starts := StartsOf(c, frameW, frameH);
      && |byTile| == |starts|
      && forall i :: 0 <= i < |starts| ==> FoundOn(c, RegionAt(starts[i], frameW, frameH), infer, byTile[i])
  {
    TilesIff(c, frameW, frameH);
    TiledFrame(c, frameW, frameH, infer);
    var starts := StartsOf(c, frameW, frameH);
    byTile := ByTile(starts, frameW, frameH, SingleOn(c, infer));
    OverTilesInOrder(starts, frameW, frameH, SingleOn(c, infer));
    forall i | 0 <= i < |starts| ensures FoundOn(c, RegionAt(starts[i], frameW, frameH), infer, byTile[i]) {
      TileIsFoundOn(c, frameW, frameH, infer, starts, i);
    }
  }

  /** One image: the final choice is from its finds, one detection each, in the order of the
      anchors. */
  lemma ImageGathersFinds(c: Config, w: nat, h: nat, p: Prediction)
    returns (at: seq<nat>, finds: seq<Row>, all: seq<Detection>)
    requires Usable(c) && SuppressionValid(c.suppress) && Rectangular(p) && w > 0 && h > 0 && p.classes == |c.names|
    ensures Selects(p.rows, Finds(c, w, h), at, finds) && EachGenuine(c, finds, w, h, all)
    ensures Single(c, w, h, p) == Detected(if all == [] then [] else Pick(c, all))
  {
    var f := Letterbox.Place(c.canvasW, c.canvasH, w, h);
    all := Decoded(c, p.rows, f, w, h);
    at, finds := DecodedFinds(c, p.rows, f, w, h);
  }
}
