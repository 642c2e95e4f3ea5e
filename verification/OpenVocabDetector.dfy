/** Decoding, target-versus-negative selection and tiling of
    src/detection/open_vocab_object_detector.py.  The model's output, label
    normalisation and non-maximum suppression are parameters. */
module OpenVocabDetector {
  import opened Prelude
  import opened Geometry
  import opened StableSort
  import Letterbox
  import Tiling

  datatype Detection = Detection(
    bbox: Box,
    className: string,
    confidence: real,
    negativeConfidence: real,
    targetMargin: real,
    source: string)

  /** One anchor of the model output: a box and a score per prompt. */
  datatype Row = Row(anchor: Letterbox.Anchor, scores: seq<real>)

  /** The output tensor, one row per anchor. */
  datatype Prediction = Prediction(classes: nat, rows: seq<Row>)

  ghost predicate Rectangular(p: Prediction) {
    forall k :: 0 <= k < |p.rows| ==> |p.rows[k].scores| == p.classes
  }

  /** `suppress` stands for the non-maximum suppression: positions of the survivors. */
  datatype Config = Config(
    targetLabels: set<string>,
    normalise: string -> string,
    names: seq<string>,
    minConfidence: real,
    minTargetMargin: real,
    maxDetections: int,
    tileEnabled: bool,
    tileOverlap: real,
    aspectThreshold: real,
    canvasW: nat,
    canvasH: nat,
    suppress: seq<Detection> -> seq<nat>)

  datatype Setup = Ready(config: Config) | NoTargets | MissingPrompts(labels: set<string>)

  // ---- prompts ----

  function NormalName(c: Config, id: nat): string
    requires id < |c.names|
  {
    c.normalise(c.names[id])
  }

  /** Normal form to class id; a later prompt of the same form replaces an earlier. */
  function NameIndex(c: Config, n: nat): map<string, nat>
    requires n <= |c.names|
  {
    if n == 0 then map[] else NameIndex(c, n - 1)[NormalName(c, n - 1) := n - 1]
  }

  /** The constructor: clamp the settings and insist on a prompt for every target. */
  function Configure(raw: Config): Setup {
    var index := NameIndex(raw, |raw.names|);
    if raw.targetLabels == {} then NoTargets
    else if !(raw.targetLabels <= index.Keys) then MissingPrompts(raw.targetLabels - index.Keys)
    else Ready(raw.(maxDetections := Max(1, raw.maxDetections),
                    tileOverlap := MinReal(0.50, MaxReal(0.10, raw.tileOverlap)),
                    aspectThreshold := MaxReal(1.20, raw.aspectThreshold)))
  }

  /** What construction establishes, for a model with a real input size. */
  ghost predicate Usable(c: Config) {
    && c.targetLabels != {} && c.targetLabels <= NameIndex(c, |c.names|).Keys
    && c.maxDetections >= 1 && 0.10 <= c.tileOverlap <= 0.50 && c.aspectThreshold >= 1.20
    && c.canvasW >= 1 && c.canvasH >= 1
  }

  lemma ConfiguredIsUsable(raw: Config)
    requires Configure(raw).Ready? && raw.canvasW >= 1 && raw.canvasH >= 1
    ensures Usable(Configure(raw).config)
    ensures Usable(raw) ==> Configure(raw).config == raw
    ensures var c := Configure(raw).config;
      && c == raw.(maxDetections := c.maxDetections, tileOverlap := c.tileOverlap, aspectThreshold := c.aspectThreshold)
      && MovedInto(0.10, 0.50, raw.tileOverlap, c.tileOverlap)
      && (c.aspectThreshold == raw.aspectThreshold || raw.aspectThreshold < 1.20 == c.aspectThreshold)
      && (c.maxDetections == raw.maxDetections || raw.maxDetections < 1 == c.maxDetections)
  {
    var c := Configure(raw).config;
    SameIndex(raw, c, |c.names|);
  }

  lemma {:induction false} SameIndex(c: Config, c': Config, n: nat)
    requires c.names == c'.names && c.normalise == c'.normalise && n <= |c.names|
    ensures NameIndex(c, n) == NameIndex(c', n)
  {
    if n > 0 {
      SameIndex(c, c', n - 1);
    }
  }

  ghost predicate HasPrompt(c: Config, n: nat, name: string)
    requires n <= |c.names|
  {
    exists id :: 0 <= id < n && NormalName(c, id) == name
  }

  lemma {:induction false} IndexHasPrompts(c: Config, n: nat, name: string)
    requires n <= |c.names|
    ensures name in NameIndex(c, n) <==> HasPrompt(c, n, name)
  {
    if n > 0 {
      IndexHasPrompts(c, n - 1, name);
      assert NormalName(c, n - 1) == name ==> HasPrompt(c, n, name);
    }
  }

  /** Construction succeeds exactly when there are targets and each one is the normal
      form of some prompt; otherwise it names the targets that have none. */
  lemma ConfigureSucceedsIff(raw: Config)
    ensures Configure(raw).Ready? <==>
      raw.targetLabels != {} && forall name :: name in raw.targetLabels ==> HasPrompt(raw, |raw.names|, name)
    ensures Configure(raw).MissingPrompts? ==> forall name ::
      name in Configure(raw).labels <==> name in raw.targetLabels && !HasPrompt(raw, |raw.names|, name)
  {
    forall name ensures name in NameIndex(raw, |raw.names|) <==> HasPrompt(raw, |raw.names|, name) {
      IndexHasPrompts(raw, |raw.names|, name);
    }
  }

  predicate IsTargetId(c: Config, id: nat)
    requires c.targetLabels <= NameIndex(c, |c.names|).Keys
  {
    exists label_ :: label_ in c.targetLabels && NameIndex(c, |c.names|)[label_] == id
  }

  /** Prompt `id` is the last one of its normal form among the first `n`. */
  ghost predicate IsLast(c: Config, id: nat, n: nat) {
    && id < n <= |c.names|
    && forall j :: id < j < n ==> NormalName(c, j) != NormalName(c, id)
  }

  lemma {:induction false} IndexHoldsLast(c: Config, n: nat, name: string)
    requires n <= |c.names| && name in NameIndex(c, n)
    ensures IsLast(c, NameIndex(c, n)[name], n) && NormalName(c, NameIndex(c, n)[name]) == name
  {
    if NormalName(c, n - 1) != name {
      IndexHoldsLast(c, n - 1, name);
    }
  }

  lemma {:induction false} LastIsIndexed(c: Config, n: nat, id: nat)
    requires IsLast(c, id, n)
    ensures NormalName(c, id) in NameIndex(c, n) && NameIndex(c, n)[NormalName(c, id)] == id
  {
    if id < n - 1 {
      LastIsIndexed(c, n - 1, id);
    }
  }

  /** A class counts as a target exactly when its prompt has a target's normal form
      and no later prompt has the same; an earlier duplicate counts as negative. */
  lemma TargetIdIff(c: Config, id: nat)
    requires c.targetLabels <= NameIndex(c, |c.names|).Keys
    ensures IsTargetId(c, id) <==> IsLast(c, id, |c.names|) && NormalName(c, id) in c.targetLabels
  {
    var index := NameIndex(c, |c.names|);
    if label_ :| label_ in c.targetLabels && index[label_] == id {
      IndexHoldsLast(c, |c.names|, label_);
    }
    if IsLast(c, id, |c.names|) {
      LastIsIndexed(c, |c.names|, id);
    }
  }

  /** The class ids of one kind in ascending order. */
  function IdsOfKind(c: Config, n: nat, target: bool): (r: seq<nat>)
    requires c.targetLabels <= NameIndex(c, |c.names|).Keys && n <= |c.names|
    ensures forall i :: 0 <= i < |r| ==> r[i] < n && IsTargetId(c, r[i]) == target
    ensures forall id: nat :: id < n && IsTargetId(c, id) == target ==> id in r
    ensures forall i, j :: 0 <= i < j < |r| ==> r[i] < r[j]
  {
    if n == 0 then []
    else
      var before := IdsOfKind(c, n - 1, target);
      if IsTargetId(c, n - 1) == target then before + [n - 1] else before
  }

  function Targets(c: Config): (r: seq<nat>)
    requires Usable(c)
    ensures r != []
    ensures forall i :: 0 <= i < |r| ==> r[i] < |c.names| && IsTargetId(c, r[i])
    ensures forall id: nat :: id < |c.names| && IsTargetId(c, id) ==> id in r
    ensures forall i, j :: 0 <= i < j < |r| ==> r[i] < r[j]
  {
    var r := IdsOfKind(c, |c.names|, true);
    assert r != [] by {
      var label_ :| label_ in c.targetLabels;
      IndexHoldsLast(c, |c.names|, label_);
      assert IsTargetId(c, NameIndex(c, |c.names|)[label_]);
    }
    r
  }

  function Negatives(c: Config): (r: seq<nat>)
    requires Usable(c)
    ensures forall i :: 0 <= i < |r| ==> r[i] < |c.names| && !IsTargetId(c, r[i])
    ensures forall id: nat :: id < |c.names| && !IsTargetId(c, id) ==> id in r
  {
    IdsOfKind(c, |c.names|, false)
  }

  // ---- one anchor ----

  /** The position of the first highest value. */
  function ArgMax(values: seq<real>): (best: nat)
    requires values != []
    ensures best < |values|
    ensures forall i :: 0 <= i < |values| ==> values[i] <= values[best]
    ensures forall i :: 0 <= i < best ==> values[i] < values[best]
  {
    var n := |values| - 1;
    if n == 0 then 0
    else
      var before := ArgMax(values[..n]);
      if values[n] > values[before] then n else before
  }

  /** The scores of some classes. */
  function Gather(scores: seq<real>, ids: seq<nat>): (r: seq<real>)
    requires forall i :: 0 <= i < |ids| ==> ids[i] < |scores|
    ensures |r| == |ids| && forall i :: 0 <= i < |ids| ==> r[i] == scores[ids[i]]
  {
    seq(|ids|, i requires 0 <= i < |ids| => scores[ids[i]])
  }

  predicate Scored(c: Config, row: Row) { |row.scores| == |c.names| }

  function BestTarget(c: Config, row: Row): (id: nat)
    requires Usable(c) && Scored(c, row)
    ensures id < |c.names|
  {
    var ids := Targets(c);
    ids[ArgMax(Gather(row.scores, ids))]
  }

  /** The highest negative score, 0 if every prompt is a target. */
  function BestNegative(c: Config, row: Row): real
    requires Usable(c) && Scored(c, row)
  {
    var ids := Negatives(c);
    var scores := Gather(row.scores, ids);
    if scores == [] then 0.0 else scores[ArgMax(scores)]
  }

  /** Of the classes in ascending order the first highest-scored one is chosen. */
  lemma FirstHighest(scores: seq<real>, ids: seq<nat>, id: nat)
    requires ids != [] && (forall i :: 0 <= i < |ids| ==> ids[i] < |scores|) && id in ids
    requires forall i, j :: 0 <= i < j < |ids| ==> ids[i] < ids[j]
    ensures var best := ids[ArgMax(Gather(scores, ids))];
      scores[id] <= scores[best] && (id < best ==> scores[id] < scores[best])
  {
    var i :| 0 <= i < |ids| && ids[i] == id;
    assert Gather(scores, ids)[i] == scores[id];
  }

  lemma BestTargetIsBest(c: Config, row: Row)
    requires Usable(c) && Scored(c, row)
    ensures IsTargetId(c, BestTarget(c, row))
    ensures forall id :: 0 <= id < |c.names| && IsTargetId(c, id) ==> row.scores[id] <= row.scores[BestTarget(c, row)]
    ensures forall id :: 0 <= id < BestTarget(c, row) && IsTargetId(c, id) ==>
      row.scores[id] < row.scores[BestTarget(c, row)]
  {
    var ids := Targets(c);
    var best := BestTarget(c, row);
    forall id | 0 <= id < |c.names| && IsTargetId(c, id)
      ensures row.scores[id] <= row.scores[best] && (id < best ==> row.scores[id] < row.scores[best])
    {
      FirstHighest(row.scores, ids, id);
    }
  }

  ghost predicate NoNegatives(c: Config)
    requires Usable(c)
  {
    forall n :: 0 <= n < |c.names| ==> IsTargetId(c, n)
  }

  lemma BestNegativeIsBest(c: Config, row: Row)
    requires Usable(c) && Scored(c, row)
    ensures forall n :: 0 <= n < |c.names| && !IsTargetId(c, n) ==> row.scores[n] <= BestNegative(c, row)
    ensures NoNegatives(c) ==> BestNegative(c, row) == 0.0
    ensures !NoNegatives(c) ==>
      exists n :: 0 <= n < |c.names| && !IsTargetId(c, n) && row.scores[n] == BestNegative(c, row)
  {
    var ids := Negatives(c);
    var scores := Gather(row.scores, ids);
    forall n | 0 <= n < |c.names| && !IsTargetId(c, n) ensures row.scores[n] <= BestNegative(c, row) {
      assert n in ids;
      var i :| 0 <= i < |ids| && ids[i] == n;
      assert scores[i] == row.scores[n];
    }
    if ids != [] {
      assert !IsTargetId(c, ids[ArgMax(scores)]);
    }
  }

  predicate Kept(c: Config, row: Row)
    requires Usable(c) && Scored(c, row)
  {
    var confidence := row.scores[BestTarget(c, row)];
    confidence >= c.minConfidence && confidence - BestNegative(c, row) >= c.minTargetMargin
  }

  /** Prompt `id` is a target that reaches the threshold and beats every negative
      prompt by the margin (an absent opposition counts as a score of 0). */
  ghost predicate Wins(c: Config, row: Row, id: nat)
    requires Usable(c) && Scored(c, row)
  {
    && id < |c.names| && IsTargetId(c, id) && row.scores[id] >= c.minConfidence
    && (forall n :: 0 <= n < |c.names| && !IsTargetId(c, n) ==> row.scores[id] - row.scores[n] >= c.minTargetMargin)
    && (NoNegatives(c) ==> row.scores[id] >= c.minTargetMargin)
  }

  lemma BestWins(c: Config, row: Row)
    requires Usable(c) && Scored(c, row) && Kept(c, row)
    ensures Wins(c, row, BestTarget(c, row))
  {
    BestTargetIsBest(c, row);
    BestNegativeIsBest(c, row);
  }

  lemma WinnerKept(c: Config, row: Row, id: nat)
    requires Usable(c) && Scored(c, row) && Wins(c, row, id)
    ensures Kept(c, row)
  {
    BestTargetIsBest(c, row);
    BestNegativeIsBest(c, row);
  }

  /** An anchor is kept if and only if some target prompt wins. */
  lemma KeptIff(c: Config, row: Row)
    requires Usable(c) && Scored(c, row)
    ensures Kept(c, row) <==> exists id :: Wins(c, row, id)
  {
    if Kept(c, row) {
      BestWins(c, row);
    }
    if id :| Wins(c, row, id) {
      WinnerKept(c, row, id);
    }
  }

  // ---- one image ----

  function DetectionOf(c: Config, row: Row, f: Letterbox.Fit, w: nat, h: nat): Detection
    requires Usable(c) && Scored(c, row) && f.ratio > 0.0
  {
    var id, negative := BestTarget(c, row), BestNegative(c, row);
    Detection(Letterbox.DecodeBox(row.anchor, f, w, h), c.names[id], row.scores[id], negative,
              row.scores[id] - negative, "yolo_world")
  }

  /** The detections of the kept anchors with a proper box, in anchor order. */
  function Decoded(c: Config, rows: seq<Row>, f: Letterbox.Fit, w: nat, h: nat): seq<Detection>
    requires Usable(c) && f.ratio > 0.0 && forall k :: 0 <= k < |rows| ==> Scored(c, rows[k])
  {
    if rows == [] then []
    else
      var n := |rows| - 1;
      var before, d := Decoded(c, rows[..n], f, w, h), DetectionOf(c, rows[n], f, w, h);
      if Kept(c, rows[n]) && Proper(d.bbox) then before + [d] else before
  }

  function ByConfidence(ds: seq<Detection>): nat -> Rank {
    (i: nat) => if i < |ds| then Rank(0, ds[i].confidence) else Rank(0, 0.0)
  }

  /** The suppression returns distinct positions of its input. */
  ghost predicate SuppressionValid(suppress: seq<Detection> -> seq<nat>) {
    forall ds :: Positions(suppress(ds), ds)
  }

  ghost predicate Positions(s: seq<nat>, ds: seq<Detection>) {
    && (forall i :: 0 <= i < |s| ==> s[i] < |ds|)
    && (forall i, j :: 0 <= i < j < |s| ==> s[i] != s[j])
  }

  /** The survivors, strongest first. */
  function Ranked(c: Config, ds: seq<Detection>): (s: seq<nat>)
    requires SuppressionValid(c.suppress)
    ensures Positions(s, ds)
  {
    var chosen := c.suppress(ds);
    assert Positions(chosen, ds);
    SortCorrect(chosen, ByConfidence(ds));
    SortedPositions(chosen, Sort(chosen, ByConfidence(ds)), ds);
    Sort(chosen, ByConfidence(ds))
  }

  lemma SortedPositions(s: seq<nat>, s': seq<nat>, ds: seq<Detection>)
    requires Positions(s, ds) && multiset(s') == multiset(s)
    ensures Positions(s', ds)
  {
    forall i | 0 <= i < |s'| ensures s'[i] < |ds| {
      assert s'[i] in multiset(s);
    }
    forall i, j | 0 <= i < j < |s'| ensures s'[i] != s'[j] {
      OccursOnce(s, s'[i]);
      if s'[i] == s'[j] {
        OccursTwice(s', i, j);
      }
    }
  }

  lemma {:induction false} OccursOnce(s: seq<nat>, x: nat)
    requires forall i, j :: 0 <= i < j < |s| ==> s[i] != s[j]
    ensures multiset(s)[x] <= 1
  {
    if s != [] {
      var front := s[..|s| - 1];
      assert s == front + [s[|s| - 1]];
      OccursOnce(front, x);
      if s[|s| - 1] == x {
        assert x !in front;
      }
    }
  }

  lemma OccursTwice(s: seq<nat>, i: nat, j: nat)
    requires i < j < |s| && s[i] == s[j]
    ensures multiset(s)[s[i]] >= 2
  {
    assert s == s[..j] + s[j..];
    assert s[..j][i] in multiset(s[..j]) && s[j..][0] in multiset(s[j..]);
  }

  function Pick(c: Config, ds: seq<Detection>): seq<Detection>
    requires SuppressionValid(c.suppress) && c.maxDetections >= 1
  {
    var s := Ranked(c, ds);
    At(ds, s[..Min(|s|, c.maxDetections)])
  }

  datatype Outcome = Detected(ds: seq<Detection>) | WrongShape

  /** `_detect_single` on an image of `w` by `h` pixels. */
  function Single(c: Config, w: nat, h: nat, p: Prediction): Outcome
    requires Usable(c) && SuppressionValid(c.suppress) && Rectangular(p)
  {
    if w == 0 || h == 0 then Detected([])
    else if p.classes != |c.names| then WrongShape
    else
      var ds := Decoded(c, p.rows, Letterbox.Place(c.canvasW, c.canvasH, w, h), w, h);
      if ds == [] then Detected([]) else Detected(Pick(c, ds))
  }

  method DetectSingle(c: Config, w: nat, h: nat, p: Prediction) returns (r: Outcome)
    requires Usable(c) && SuppressionValid(c.suppress) && Rectangular(p)
    ensures r == Single(c, w, h, p)
  {
    if w == 0 || h == 0 {
      return Detected([]);
    }
    if p.classes != |c.names| {
      return WrongShape;
    }
    var f := Letterbox.Place(c.canvasW, c.canvasH, w, h);
    var ds := DecodeRows(c, p.rows, f, w, h);
    if ds == [] {
      return Detected([]);
    }
    r := Detected(Pick(c, ds));
  }

  lemma DecodedStep(c: Config, rows: seq<Row>, f: Letterbox.Fit, w: nat, h: nat, k: nat)
    requires Usable(c) && f.ratio > 0.0 && k < |rows| && forall i :: 0 <= i < |rows| ==> Scored(c, rows[i])
    ensures Decoded(c, rows[..k + 1], f, w, h)
         == Decoded(c, rows[..k], f, w, h)
            + if Kept(c, rows[k]) && Proper(DetectionOf(c, rows[k], f, w, h).bbox)
              then [DetectionOf(c, rows[k], f, w, h)] else []
  {
    assert rows[..k + 1][..k] == rows[..k];
  }

  /** The decode loop. */
  method DecodeRows(c: Config, rows: seq<Row>, f: Letterbox.Fit, w: nat, h: nat) returns (ds: seq<Detection>)
    requires Usable(c) && f.ratio > 0.0 && forall k :: 0 <= k < |rows| ==> Scored(c, rows[k])
    ensures ds == Decoded(c, rows, f, w, h)
  {
    ds := [];
    for k := 0 to |rows|
      invariant ds == Decoded(c, rows[..k], f, w, h)
    {
      DecodedStep(c, rows, f, w, h, k);
      if !Kept(c, rows[k]) {
        continue;
      }
      var d := DetectionOf(c, rows[k], f, w, h);
      if d.bbox.x2 <= d.bbox.x1 || d.bbox.y2 <= d.bbox.y1 {
        continue;
      }
      ds := ds + [d];
    }
    assert rows[..|rows|] == rows;
  }

  // ---- the whole frame ----

  /** A rectangle of the frame. */
  datatype Region = Region(x: nat, y: nat, width: nat, height: nat)

  predicate Tiles(c: Config, frameW: nat, frameH: nat) {
    c.tileEnabled && Max(frameW, frameH) as real > Min(frameW, frameH) as real * c.aspectThreshold
  }

  function RegionAt(start: nat, frameW: nat, frameH: nat): Region {
    if frameW >= frameH then Region(start, 0, frameH, frameH) else Region(0, start, frameW, frameW)
  }

  function Shift(d: Detection, r: Region): Detection {
    var b := d.bbox;
    d.(bbox := Box(b.x1 + r.x as real, b.y1 + r.y as real, b.x2 + r.x as real, b.y2 + r.y as real))
  }

  function ShiftAll(ds: seq<Detection>, r: Region): (out: seq<Detection>)
    ensures |out| == |ds|
  {
    seq(|ds|, i requires 0 <= i < |ds| => Shift(ds[i], r))
  }

  /** The detections of all tiles in frame coordinates; `single` is `_detect_single`
      on a tile.  A wrongly shaped output ends the call. */
  function OverTiles(starts: seq<nat>, frameW: nat, frameH: nat, single: Region -> Outcome): Outcome {
    if starts == [] then Detected([])
    else
      var n := |starts| - 1;
      var before, r := OverTiles(starts[..n], frameW, frameH, single), RegionAt(starts[n], frameW, frameH);
      if before.WrongShape? then WrongShape
      else if single(r).WrongShape? then WrongShape
      else Detected(before.ds + ShiftAll(single(r).ds, r))
  }

  /** A model call on every region. */
  ghost predicate WellFormed(infer: Region -> Prediction) {
    forall r :: Rectangular(infer(r))
  }

  function SingleOn(c: Config, infer: Region -> Prediction): Region -> Outcome
    requires Usable(c) && SuppressionValid(c.suppress) && WellFormed(infer)
  {
    (r: Region) => Single(c, r.width, r.height, infer(r))
  }

  function StartsOf(c: Config, frameW: nat, frameH: nat): seq<nat> {
    var side, tile := Max(frameW, frameH), Min(frameW, frameH);
    Tiling.TileStarts(side, tile, Tiling.Stride(tile, c.tileOverlap))
  }

  /** `detect`. */
  function Frame(c: Config, frameW: nat, frameH: nat, infer: Region -> Prediction): Outcome
    requires Usable(c) && SuppressionValid(c.suppress) && WellFormed(infer)
  {
    if frameW == 0 || frameH == 0 then Detected([])
    else if !Tiles(c, frameW, frameH) then Single(c, frameW, frameH, infer(Region(0, 0, frameW, frameH)))
    else
      var all := OverTiles(StartsOf(c, frameW, frameH), frameW, frameH, SingleOn(c, infer));
      if all.WrongShape? || all.ds == [] then all else Detected(Pick(c, all.ds))
  }

  method Detect(c: Config, frameW: nat, frameH: nat, infer: Region -> Prediction) returns (out: Outcome)
    requires Usable(c) && SuppressionValid(c.suppress) && WellFormed(infer)
    ensures out == Frame(c, frameW, frameH, infer)
  {
    if frameW == 0 || frameH == 0 {
      return Detected([]);
    }
    if !Tiles(c, frameW, frameH) {
      out := DetectSingle(c, frameW, frameH, infer(Region(0, 0, frameW, frameH)));
      return;
    }
    var tile := Min(frameW, frameH);
    var starts := Tiling.Starts(Max(frameW, frameH), tile, Tiling.Stride(tile, c.tileOverlap));
    out := DetectTiles(c, starts, frameW, frameH, infer);
    if out.WrongShape? || out.ds == [] {
      return;
    }
    out := Detected(Pick(c, out.ds));
  }

  /** The loop over the tiles, and the loop that moves boxes to frame coordinates. */
  method DetectTiles(c: Config, starts: seq<nat>, frameW: nat, frameH: nat, infer: Region -> Prediction)
    returns (out: Outcome)
    requires Usable(c) && SuppressionValid(c.suppress) && WellFormed(infer)
    ensures out == OverTiles(starts, frameW, frameH, SingleOn(c, infer))
  {
    ghost var single := SingleOn(c, infer);
    var ds: seq<Detection> := [];
    for k := 0 to |starts|
      invariant OverTiles(starts[..k], frameW, frameH, single) == Detected(ds)
    {
      assert starts[..k + 1][..k] == starts[..k];
      var r := RegionAt(starts[k], frameW, frameH);
      var here := DetectSingle(c, r.width, r.height, infer(r));
      assert here == single(r);
      if here.WrongShape? {
        WrongShapeSpreads(starts, k + 1, frameW, frameH, single);
        return WrongShape;
      }
      var moved := MoveAll(here.ds, r);
      ds := ds + moved;
    }
    assert starts[..|starts|] == starts;
    out := Detected(ds);
  }

  lemma {:induction false} WrongShapeSpreads(starts: seq<nat>, k: nat, frameW: nat, frameH: nat,
                                             single: Region -> Outcome)
    requires k <= |starts| && OverTiles(starts[..k], frameW, frameH, single).WrongShape?
    ensures OverTiles(starts, frameW, frameH, single).WrongShape?
  {
    if k == |starts| {
      assert starts[..k] == starts;
    } else {
      var n := |starts| - 1;
      assert starts[..n][..k] == starts[..k];
      WrongShapeSpreads(starts[..n], k, frameW, frameH, single);
    }
  }

  method MoveAll(ds: seq<Detection>, r: Region) returns (out: seq<Detection>)
    ensures out == ShiftAll(ds, r)
  {
    out := [];
    for i := 0 to |ds|
      invariant out == ShiftAll(ds, r)[..i]
    {
      out := out + [Shift(ds[i], r)];
    }
  }
}
