/** Score selection of the two verifiers in src/detection/target_verifier.py.  The
    model output is an input; label normalisation is a parameter, so every result
    holds for whatever normal form the configuration uses. */
module TargetVerifier {
  import opened Prelude

  /** One semantic observation; `isTarget` is `None` when inference was unavailable. */
  datatype Prediction = Prediction(isTarget: Option<bool>, labelName: string, confidence: real, reason: string)

  datatype Verifier = Verifier(
    targetLabels: set<string>,
    normalise: string -> string,
    minConfidence: real,
    minTargetMargin: real,
    names: map<nat, string>,
    digits: nat -> string)

  predicate IsTargetLabel(v: Verifier, labelName: string) {
    v.normalise(labelName) in v.targetLabels
  }

  function ClassName(v: Verifier, id: nat): string {
    if id in v.names then v.names[id] else v.digits(id)
  }

  /** A `(confidence, label)` pair, compared as a Python tuple. */
  datatype Item = Item(confidence: real, labelName: string)

  predicate TextBefore(a: string, b: string) {
    if b == [] then false
    else if a == [] then true
    else a[0] < b[0] || (a[0] == b[0] && TextBefore(a[1..], b[1..]))
  }

  predicate Before(a: Item, b: Item) {
    a.confidence < b.confidence || (a.confidence == b.confidence && TextBefore(a.labelName, b.labelName))
  }

  function Larger(a: Item, b: Item): Item { if Before(a, b) then b else a }

  const NOTHING := Item(0.0, "unknown")

  /** `best` is what folding `max` over the items of one kind from `NOTHING` gives:
      `NOTHING` or one of them, and no lower than any. */
  ghost predicate IsBest(v: Verifier, items: seq<Item>, target: bool, best: Item) {
    && (best == NOTHING || (best in items && IsTargetLabel(v, best.labelName) == target))
    && best.confidence >= 0.0
    && (forall i :: 0 <= i < |items| && IsTargetLabel(v, items[i].labelName) == target ==>
          items[i].confidence <= best.confidence)
  }

  function Best(v: Verifier, items: seq<Item>, target: bool): (best: Item)
    ensures IsBest(v, items, target, best)
  {
    if items == [] then NOTHING
    else
      var front, x := items[..|items| - 1], items[|items| - 1];
      var b := Best(v, front, target);
      if IsTargetLabel(v, x.labelName) == target then Larger(b, x) else b
  }

  /** The items of one kind, in order. */
  function OfKind(v: Verifier, items: seq<Item>, target: bool): (r: seq<Item>)
    ensures forall x :: x in r <==> x in items && IsTargetLabel(v, x.labelName) == target
  {
    if items == [] then []
    else
      var n := |items| - 1;
      assert items == items[..n] + [items[n]];
      OfKind(v, items[..n], target) + if IsTargetLabel(v, items[n].labelName) == target then [items[n]] else []
  }

  /** `max(items, default=NOTHING)`. */
  function MaxItem(items: seq<Item>): (best: Item)
    ensures items == [] ==> best == NOTHING
    ensures items != [] ==> best in items
    ensures forall x :: x in items ==> x.confidence <= best.confidence
  {
    if items == [] then NOTHING
    else if |items| == 1 then items[0]
    else
      var n := |items| - 1;
      assert items == items[..n] + [items[n]];
      Larger(MaxItem(items[..n]), items[n])
  }

  function Highest(v: Verifier, items: seq<Item>, target: bool): Item {
    MaxItem(OfKind(v, items, target))
  }

  function Unavailable(reason: string): Prediction { Prediction(None, "unknown", 0.0, reason) }

  // ---- Ultralytics detector: a target box above the threshold suffices ----

  function DetectorVerdict(v: Verifier, items: seq<Item>): Prediction {
    var target, other := Best(v, items, true), Best(v, items, false);
    if target.confidence >= v.minConfidence
    then Prediction(Some(true), target.labelName, target.confidence, "target_detected")
    else Prediction(Some(false), other.labelName, other.confidence, "no_target_detection")
  }

  function ItemOfBox(v: Verifier, box: (nat, real)): Item { Item(box.1, ClassName(v, box.0)) }

  function ItemsOfBoxes(v: Verifier, boxes: seq<(nat, real)>): (r: seq<Item>)
    ensures |r| == |boxes|
  {
    seq(|boxes|, i requires 0 <= i < |boxes| => ItemOfBox(v, boxes[i]))
  }

  /** The selection loop over detected boxes. */
  method SelectFromBoxes(v: Verifier, boxes: seq<(nat, real)>) returns (p: Prediction)
    ensures p == DetectorVerdict(v, ItemsOfBoxes(v, boxes))
  {
    var bestTarget, bestOther := NOTHING, NOTHING;
    var items := ItemsOfBoxes(v, boxes);
    for i := 0 to |items|
      invariant bestTarget == Best(v, items[..i], true)
      invariant bestOther == Best(v, items[..i], false)
    {
      assert items[..i + 1][..i] == items[..i];
      if IsTargetLabel(v, items[i].labelName) {
        bestTarget := Larger(bestTarget, items[i]);
      } else {
        bestOther := Larger(bestOther, items[i]);
      }
    }
    assert items[..|items|] == items;
    if bestTarget.confidence >= v.minConfidence {
      p := Prediction(Some(true), bestTarget.labelName, bestTarget.confidence, "target_detected");
    } else {
      p := Prediction(Some(false), bestOther.labelName, bestOther.confidence, "no_target_detection");
    }
  }

  // ---- Ultralytics classifier: the target must also win by the margin ----

  function ItemsOfClasses(v: Verifier, confidences: seq<real>): (r: seq<Item>)
    ensures |r| == |confidences|
  {
    seq(|confidences|, i requires 0 <= i < |confidences| => Item(confidences[i], ClassName(v, i)))
  }

  function ClassContest(v: Verifier, target: Item, other: Item): Prediction {
    if target.confidence >= v.minConfidence && target.confidence - other.confidence >= v.minTargetMargin
    then Prediction(Some(true), target.labelName, target.confidence, "classification_target")
    else Prediction(Some(false), other.labelName, other.confidence, "classification_non_target")
  }

  function ClassifierVerdict(v: Verifier, items: seq<Item>): Prediction {
    ClassContest(v, Highest(v, items, true), Highest(v, items, false))
  }

  /** The classifier's loop: split the classes into two lists, then compare the
      largest of each. */
  method SelectFromClasses(v: Verifier, confidences: seq<real>) returns (p: Prediction)
    ensures p == ClassifierVerdict(v, ItemsOfClasses(v, confidences))
  {
    var targets: seq<Item>, others: seq<Item> := [], [];
    var items := ItemsOfClasses(v, confidences);
    for id := 0 to |items|
      invariant targets == OfKind(v, items[..id], true)
      invariant others == OfKind(v, items[..id], false)
    {
      assert items[..id + 1][..id] == items[..id];
      if IsTargetLabel(v, items[id].labelName) {
        targets := targets + [items[id]];
      } else {
        others := others + [items[id]];
      }
    }
    assert items[..|items|] == items;
    p := ClassContest(v, MaxItem(targets), MaxItem(others));
  }

  // ---- ONNX YOLO-World: best score of each prompt over all anchors ----

  function ColumnMax(rows: seq<seq<real>>, c: nat): (r: real)
    requires rows != [] && forall i :: 0 <= i < |rows| ==> c < |rows[i]|
    ensures forall i :: 0 <= i < |rows| ==> rows[i][c] <= r
    ensures exists i :: 0 <= i < |rows| && rows[i][c] == r
  {
    var n := |rows| - 1;
    if n == 0 then rows[0][c]
    else
      var r := ColumnMax(rows[..n], c);
      if rows[n][c] > r then rows[n][c] else r
  }

  predicate Rectangular(rows: seq<seq<real>>, classes: nat) {
    forall i :: 0 <= i < |rows| ==> |rows[i]| == classes
  }

  function ItemsOfScores(v: Verifier, rows: seq<seq<real>>, classes: nat): (r: seq<Item>)
    requires rows != [] && Rectangular(rows, classes)
    ensures |r| == classes
  {
    seq(classes, c requires 0 <= c < classes => Item(ColumnMax(rows, c), ClassName(v, c)))
  }

  function Contest(v: Verifier, target: Item, other: Item): Prediction {
    if target.confidence >= v.minConfidence && target.confidence - other.confidence >= v.minTargetMargin
    then Prediction(Some(true), target.labelName, target.confidence, "open_vocab_target")
    else Prediction(Some(false),
                    if other.confidence >= target.confidence then other.labelName else target.labelName,
                    MaxReal(other.confidence, target.confidence), "open_vocab_non_target")
  }

  function OpenVocabularyVerdict(v: Verifier, items: seq<Item>): Prediction {
    Contest(v, Best(v, items, true), Best(v, items, false))
  }

  /** The selection loop over prompts. */
  method SelectFromScores(v: Verifier, rows: seq<seq<real>>, classes: nat) returns (p: Prediction)
    requires Rectangular(rows, classes)
    ensures rows == [] || classes == 0 ==> p == Prediction(Some(false), "unknown", 0.0, "no_prediction")
    ensures rows != [] && classes > 0 ==> p == OpenVocabularyVerdict(v, ItemsOfScores(v, rows, classes))
  {
    if rows == [] || classes == 0 {
      return Prediction(Some(false), "unknown", 0.0, "no_prediction");
    }
    var bestTarget, bestOther := NOTHING, NOTHING;
    var items := ItemsOfScores(v, rows, classes);
    for c := 0 to classes
      invariant bestTarget == Best(v, items[..c], true)
      invariant bestOther == Best(v, items[..c], false)
    {
      assert items[..c + 1][..c] == items[..c];
      if IsTargetLabel(v, items[c].labelName) {
        bestTarget := Larger(bestTarget, items[c]);
      } else {
        bestOther := Larger(bestOther, items[c]);
      }
    }
    assert items[..classes] == items;
    p := Contest(v, bestTarget, bestOther);
  }

  // ---- what the verifiers return, over every model output ----

  /** What reached the selection step. */
  datatype Output =
    | Failed(reason: string)
    | Empty(reason: string)
    | Boxes(boxes: seq<(nat, real)>)
    | Classes(confidences: seq<real>)
    | Scores(rows: seq<seq<real>>, classes: nat)

  predicate WellShaped(o: Output) {
    o.Scores? ==> Rectangular(o.rows, o.classes)
  }

  function Verify(v: Verifier, o: Output): Prediction
    requires WellShaped(o)
  {
    match o
    case Failed(reason) => Unavailable(reason)
    case Empty(reason) => Prediction(Some(false), "unknown", 0.0, reason)
    case Boxes(boxes) => DetectorVerdict(v, ItemsOfBoxes(v, boxes))
    case Classes(confidences) => ClassifierVerdict(v, ItemsOfClasses(v, confidences))
    case Scores(rows, classes) =>
      if rows == [] || classes == 0 then Prediction(Some(false), "unknown", 0.0, "no_prediction")
      else OpenVocabularyVerdict(v, ItemsOfScores(v, rows, classes))
  }

  /** A positive prediction names a configured target, with enough confidence. */
  ghost predicate Trustworthy(v: Verifier, p: Prediction) {
    p.isTarget == Some(true) ==> IsTargetLabel(v, p.labelName) && p.confidence >= v.minConfidence
  }

  lemma PositiveThresholdIsTrustworthy(v: Verifier, o: Output)
    requires WellShaped(o) && v.minConfidence > 0.0
    ensures Trustworthy(v, Verify(v, o))
  {
  }

  /** With a threshold of zero or less the placeholder label can pass as a target:
      all outputs are trustworthy exactly when the threshold is positive or the
      placeholder itself is a target. */
  lemma TrustworthyIff(v: Verifier)
    ensures (forall o: Output | WellShaped(o) :: Trustworthy(v, Verify(v, o)))
       <==> v.minConfidence > 0.0 || IsTargetLabel(v, "unknown")
  {
    if v.minConfidence > 0.0 || IsTargetLabel(v, "unknown") {
      forall o: Output | WellShaped(o) ensures Trustworthy(v, Verify(v, o)) {
      }
    } else {
      var o := Boxes([]);
      assert ItemsOfBoxes(v, []) == [];
      assert Verify(v, o) == Prediction(Some(true), "unknown", 0.0, "target_detected");
      assert WellShaped(o) && !Trustworthy(v, Verify(v, o));
    }
  }

  /** The box detector on its own: the same condition. */
  lemma DetectorTrustworthyIff(v: Verifier)
    ensures (forall boxes: seq<(nat, real)> :: Trustworthy(v, Verify(v, Boxes(boxes))))
       <==> v.minConfidence > 0.0 || IsTargetLabel(v, "unknown")
  {
    if v.minConfidence <= 0.0 && !IsTargetLabel(v, "unknown") {
      assert ItemsOfBoxes(v, []) == [];
      assert !Trustworthy(v, Verify(v, Boxes([])));
    }
  }

  // ---- the outputs a constructed verifier can receive ----

  /** The constructor insists on target labels, and on a name for each of them unless the
      model names nothing. */
  ghost predicate Constructed(v: Verifier) {
    && v.targetLabels != {}
    && (v.names != map[] ==> forall l :: l in v.targetLabels ==> HasName(v, l))
  }

  ghost predicate HasName(v: Verifier, l: string) {
    exists id :: id in v.names && v.normalise(v.names[id]) == l
  }

  /** The names number the classes `0, 1, ..., n - 1`. */
  ghost predicate NamesClasses(v: Verifier, n: nat) {
    forall id: nat :: id in v.names <==> id < n
  }

  /** A model that names its classes gives one score per name. */
  ghost predicate Receivable(v: Verifier, o: Output) {
    match o
    case Classes(confidences) => v.names == map[] || NamesClasses(v, |confidences|)
    case Scores(rows, classes) => Rectangular(rows, classes) && NamesClasses(v, classes)
    case _ => true
  }

  ghost predicate HasTargetClass(v: Verifier, n: nat) {
    exists t: nat :: t < n && IsTargetLabel(v, ClassName(v, t))
  }

  /** The constructor's check puts a target among the named classes. */
  lemma NamedHasTarget(v: Verifier, n: nat)
    requires Constructed(v) && v.names != map[] && NamesClasses(v, n)
    ensures HasTargetClass(v, n)
  {
    var l :| l in v.targetLabels;
    assert HasName(v, l);
    var t :| t in v.names && v.normalise(v.names[t]) == l;
    assert IsTargetLabel(v, ClassName(v, t));
  }

  lemma TargetClassProtects(v: Verifier, confidences: seq<real>)
    requires HasTargetClass(v, |confidences|)
    ensures Trustworthy(v, Verify(v, Classes(confidences)))
  {
    var t: nat :| t < |confidences| && IsTargetLabel(v, ClassName(v, t));
    var items := ItemsOfClasses(v, confidences);
    assert items[t] in items && IsTargetLabel(v, items[t].labelName);
    assert items[t] in OfKind(v, items, true);
  }

  /** A classifier whose model names its classes is trustworthy on every output it can
      receive, for every threshold and margin. */
  lemma NamedClassifierIsTrustworthy(v: Verifier, confidences: seq<real>)
    requires Constructed(v) && v.names != map[] && Receivable(v, Classes(confidences))
    ensures Trustworthy(v, Verify(v, Classes(confidences)))
  {
    NamedHasTarget(v, |confidences|);
    TargetClassProtects(v, confidences);
  }

  ghost predicate NonNegative(scores: seq<real>) {
    forall i :: 0 <= i < |scores| ==> scores[i] >= 0.0
  }

  function Zeros(n: nat): (r: seq<real>)
    ensures |r| == n && forall i :: 0 <= i < n ==> r[i] == 0.0
  {
    seq(n, i => 0.0)
  }

  ghost predicate NoneOfKind(v: Verifier, items: seq<Item>, target: bool) {
    forall j :: 0 <= j < |items| ==> IsTargetLabel(v, items[j].labelName) != target
  }

  lemma HighestOfKind(v: Verifier, items: seq<Item>, target: bool)
    ensures NoneOfKind(v, items, target) ==> Highest(v, items, target) == NOTHING
    ensures !NoneOfKind(v, items, target) ==>
      exists i :: 0 <= i < |items| && items[i] == Highest(v, items, target)
        && IsTargetLabel(v, items[i].labelName) == target
    ensures forall j :: 0 <= j < |items| && IsTargetLabel(v, items[j].labelName) == target ==>
      items[j].confidence <= Highest(v, items, target).confidence
  {
    var kind := OfKind(v, items, target);
    assert kind != [] ==> kind[0] in kind;
    if !NoneOfKind(v, items, target) {
      var j :| 0 <= j < |items| && IsTargetLabel(v, items[j].labelName) == target;
      assert items[j] in kind;
      assert Highest(v, items, target) in items;
    }
  }

  lemma NoTargetClass(v: Verifier, confidences: seq<real>)
    requires !HasTargetClass(v, |confidences|) && NonNegative(confidences)
    ensures var items := ItemsOfClasses(v, confidences);
      && Highest(v, items, true) == NOTHING && Highest(v, items, false).confidence >= 0.0
      && (confidences == Zeros(|confidences|) ==> Highest(v, items, false).confidence == 0.0)
  {
    var items := ItemsOfClasses(v, confidences);
    assert forall j :: 0 <= j < |items| ==> items[j].labelName == ClassName(v, j);
    assert NoneOfKind(v, items, true);
    HighestOfKind(v, items, true);
    HighestOfKind(v, items, false);
  }

  /** Over all probabilities of `n` classes, as a model without names may have: the
      classifier is trustworthy exactly when some class is a target, or the threshold or
      the margin is positive, or the placeholder is a target. */
  lemma ClassifierTrustworthyIff(v: Verifier, n: nat)
    ensures (forall confidences | |confidences| == n && NonNegative(confidences) ::
               Trustworthy(v, Verify(v, Classes(confidences))))
       <==> HasTargetClass(v, n) || v.minConfidence > 0.0 || v.minTargetMargin > 0.0 || IsTargetLabel(v, "unknown")
  {
    if HasTargetClass(v, n) {
      forall confidences | |confidences| == n && NonNegative(confidences)
        ensures Trustworthy(v, Verify(v, Classes(confidences)))
      {
        TargetClassProtects(v, confidences);
      }
    } else {
      forall confidences | |confidences| == n && NonNegative(confidences)
        ensures v.minConfidence > 0.0 || v.minTargetMargin > 0.0 || IsTargetLabel(v, "unknown") ==>
          Trustworthy(v, Verify(v, Classes(confidences)))
      {
        NoTargetClass(v, confidences);
      }
      NoTargetClass(v, Zeros(n));
      assert NonNegative(Zeros(n)) && |Zeros(n)| == n;
    }
  }

  // ---- the open-vocabulary verifier ----

  /** A single anchor with the same score for every prompt. */
  function OneAnchor(n: nat, score: real): (rows: seq<seq<real>>)
    ensures |rows| == 1 && Rectangular(rows, n) && forall c :: 0 <= c < n ==> rows[0][c] == score
  {
    [seq(n, c => score)]
  }

  lemma {:induction false} TextBeforeOrder(a: string, b: string, c: string)
    ensures TextBefore(a, b) ==> !TextBefore(b, a)
    ensures TextBefore(a, b) && TextBefore(b, c) ==> TextBefore(a, c)
  {
    if a != [] && b != [] && c != [] {
      TextBeforeOrder(a[1..], b[1..], c[1..]);
    } else if a != [] && b != [] {
      TextBeforeOrder(a[1..], b[1..], []);
    }
  }

  /** Some item of the kind comes after the placeholder. */
  ghost predicate BeatsNothing(v: Verifier, items: seq<Item>, target: bool) {
    exists x :: x in items && IsTargetLabel(v, x.labelName) == target && Before(NOTHING, x)
  }

  /** The running maximum leaves the placeholder exactly when some item beats it. */
  lemma {:induction false} BestBeatsNothing(v: Verifier, items: seq<Item>, target: bool)
    ensures Best(v, items, target) == NOTHING || Before(NOTHING, Best(v, items, target))
    ensures Best(v, items, target) == NOTHING <==> !BeatsNothing(v, items, target)
  {
    if items != [] {
      var front, x := items[..|items| - 1], items[|items| - 1];
      assert items == front + [x];
      BestBeatsNothing(v, front, target);
      TextBeforeOrder("unknown", Best(v, front, target).labelName, x.labelName);
      TextBeforeOrder("unknown", x.labelName, "unknown");
    }
  }

  lemma AnchorItems(v: Verifier, n: nat, score: real)
    requires n > 0
    ensures forall x :: x in ItemsOfScores(v, OneAnchor(n, score), n) ==> x.confidence == score
  {
  }

  /** With nothing above it the placeholder is accepted under settings that allow 0. */
  lemma PlaceholderAccepted(v: Verifier, n: nat, score: real)
    requires n > 0 && score <= 0.0 && v.minConfidence <= 0.0 && v.minTargetMargin <= 0.0
    requires !BeatsNothing(v, ItemsOfScores(v, OneAnchor(n, score), n), true)
    ensures Verify(v, Scores(OneAnchor(n, score), n)) == Prediction(Some(true), "unknown", 0.0, "open_vocab_target")
  {
    var items := ItemsOfScores(v, OneAnchor(n, score), n);
    AnchorItems(v, n, score);
    BestBeatsNothing(v, items, true);
  }

  /** The open-vocabulary verifier, over all tensors with one score per prompt: its
      opposition never scores below the placeholder, so it is trustworthy exactly when
      the threshold or the margin is positive or the placeholder is a target. */
  lemma OpenVocabularyTrustworthyIff(v: Verifier, n: nat)
    requires Constructed(v) && v.names != map[] && NamesClasses(v, n)
    ensures (forall rows | Receivable(v, Scores(rows, n)) :: Trustworthy(v, Verify(v, Scores(rows, n))))
       <==> v.minConfidence > 0.0 || v.minTargetMargin > 0.0 || IsTargetLabel(v, "unknown")
  {
    NamedHasTarget(v, n);
    if v.minConfidence <= 0.0 && v.minTargetMargin <= 0.0 && !IsTargetLabel(v, "unknown") {
      var rows := OneAnchor(n, -1.0);
      AnchorItems(v, n, -1.0);
      PlaceholderAccepted(v, n, -1.0);
      assert Receivable(v, Scores(rows, n)) && !Trustworthy(v, Verify(v, Scores(rows, n)));
    }
  }

  /** Every anchor scores every prompt, at 0 or more. */
  ghost predicate Probabilities(rows: seq<seq<real>>, n: nat) {
    Rectangular(rows, n) && forall i :: 0 <= i < |rows| ==> NonNegative(rows[i])
  }

  /** Some target's name comes after the placeholder's, so that it wins a tie at 0. */
  ghost predicate TargetWinsTies(v: Verifier, n: nat) {
    exists t: nat :: t < n && IsTargetLabel(v, ClassName(v, t)) && TextBefore("unknown", ClassName(v, t))
  }

  lemma BeatenNothingProtects(v: Verifier, rows: seq<seq<real>>, n: nat)
    requires rows != [] && Rectangular(rows, n) && BeatsNothing(v, ItemsOfScores(v, rows, n), true)
    ensures Trustworthy(v, Verify(v, Scores(rows, n)))
  {
    var items := ItemsOfScores(v, rows, n);
    BestBeatsNothing(v, items, true);
    assert IsBest(v, items, true, Best(v, items, true));
  }

  lemma ColumnBeatsNothing(v: Verifier, rows: seq<seq<real>>, n: nat, i: nat, c: nat)
    requires Rectangular(rows, n) && i < |rows| && c < n && IsTargetLabel(v, ClassName(v, c))
    requires Before(NOTHING, Item(rows[i][c], ClassName(v, c)))
    ensures BeatsNothing(v, ItemsOfScores(v, rows, n), true)
  {
    var items := ItemsOfScores(v, rows, n);
    assert items[c] == Item(ColumnMax(rows, c), ClassName(v, c)) && items[c] in items;
  }

  lemma NoTieWinner(v: Verifier, n: nat)
    requires n > 0 && !TargetWinsTies(v, n)
    ensures !BeatsNothing(v, ItemsOfScores(v, OneAnchor(n, 0.0), n), true)
  {
    var items := ItemsOfScores(v, OneAnchor(n, 0.0), n);
    AnchorItems(v, n, 0.0);
    assert forall c :: 0 <= c < n ==> items[c].labelName == ClassName(v, c);
  }

  /** Over probabilities one more case is safe: a target whose name wins the tie with the
      placeholder when every score is 0. */
  lemma ProbabilitiesTrustworthyIff(v: Verifier, n: nat)
    requires Constructed(v) && v.names != map[] && NamesClasses(v, n)
    ensures (forall rows | Probabilities(rows, n) :: Trustworthy(v, Verify(v, Scores(rows, n))))
       <==> v.minConfidence > 0.0 || v.minTargetMargin > 0.0 || IsTargetLabel(v, "unknown") || TargetWinsTies(v, n)
  {
    NamedHasTarget(v, n);
    if TargetWinsTies(v, n) {
      forall rows | Probabilities(rows, n) ensures Trustworthy(v, Verify(v, Scores(rows, n))) {
        if rows != [] {
          var t: nat :| t < n && IsTargetLabel(v, ClassName(v, t)) && TextBefore("unknown", ClassName(v, t));
          ColumnBeatsNothing(v, rows, n, 0, t);
          BeatenNothingProtects(v, rows, n);
        }
      }
    } else if v.minConfidence <= 0.0 && v.minTargetMargin <= 0.0 && !IsTargetLabel(v, "unknown") {
      NoTieWinner(v, n);
      PlaceholderAccepted(v, n, 0.0);
      assert Probabilities(OneAnchor(n, 0.0), n);
    }
  }

  /** Whatever the settings, the placeholder wins only if no target prompt scores above
      0 for any anchor. */
  lemma PositiveTargetProtects(v: Verifier, rows: seq<seq<real>>, classes: nat, i: nat, c: nat)
    requires Rectangular(rows, classes) && i < |rows| && c < classes
    requires IsTargetLabel(v, ClassName(v, c)) && rows[i][c] > 0.0
    ensures Trustworthy(v, Verify(v, Scores(rows, classes)))
  {
    ColumnBeatsNothing(v, rows, classes, i, c);
    BeatenNothingProtects(v, rows, classes);
  }

  /** The margin rule: an accepted prompt beats every non-target prompt of every
      anchor by the margin. */
  lemma AcceptedBeatsEveryNegative(v: Verifier, rows: seq<seq<real>>, classes: nat, i: nat, c: nat)
    requires Rectangular(rows, classes) && i < |rows| && c < classes
    requires !IsTargetLabel(v, ClassName(v, c))
    requires Verify(v, Scores(rows, classes)).isTarget == Some(true)
    ensures Verify(v, Scores(rows, classes)).confidence - rows[i][c] >= v.minTargetMargin
  {
    var items := ItemsOfScores(v, rows, classes);
    assert items[c] == Item(ColumnMax(rows, c), ClassName(v, c));
  }

  // ---- acceptance, stated without the running maxima ----

  ghost predicate IsHit(v: Verifier, items: seq<Item>, i: int) {
    0 <= i < |items| && IsTargetLabel(v, items[i].labelName) && items[i].confidence >= v.minConfidence
  }

  /** Item `i` is a target that reaches the threshold and beats every other kind. */
  ghost predicate Wins(v: Verifier, items: seq<Item>, i: int) {
    && IsHit(v, items, i)
    && (forall j :: 0 <= j < |items| && !IsTargetLabel(v, items[j].labelName) ==>
          items[i].confidence - items[j].confidence >= v.minTargetMargin)
  }

  /** A detector accepts exactly when some target box reaches the threshold, or the
      placeholder's score of 0 does. */
  lemma DetectorAcceptsIff(v: Verifier, items: seq<Item>)
    ensures DetectorVerdict(v, items).isTarget == Some(true)
       <==> v.minConfidence <= 0.0 || exists i :: IsHit(v, items, i)
  {
    var best := Best(v, items, true);
    if best.confidence >= v.minConfidence && v.minConfidence > 0.0 {
      var i :| 0 <= i < |items| && items[i] == best;
      assert IsHit(v, items, i);
    }
  }

  /** The placeholder, with its score of 0, reaches the threshold and beats every other
      kind and itself by the margin. */
  ghost predicate PlaceholderWins(v: Verifier, items: seq<Item>) {
    && v.minConfidence <= 0.0
    && (forall j :: 0 <= j < |items| && !IsTargetLabel(v, items[j].labelName) ==>
          -items[j].confidence >= v.minTargetMargin)
  }

  /** The prompt contest accepts exactly when some target or the placeholder wins, and
      wins by the margin against an empty opposition too. */
  lemma ContestAcceptsIff(v: Verifier, items: seq<Item>)
    ensures OpenVocabularyVerdict(v, items).isTarget == Some(true)
       <==> || (exists i :: Wins(v, items, i) && items[i].confidence >= v.minTargetMargin)
            || (PlaceholderWins(v, items) && v.minTargetMargin <= 0.0)
  {
    var best, other := Best(v, items, true), Best(v, items, false);
    if OpenVocabularyVerdict(v, items).isTarget == Some(true) && best != NOTHING {
      var i :| 0 <= i < |items| && items[i] == best;
      assert Wins(v, items, i);
    }
    if i :| Wins(v, items, i) && items[i].confidence >= v.minTargetMargin {
      assert items[i].confidence <= best.confidence;
      assert items[i].confidence - other.confidence >= v.minTargetMargin;
    }
  }

  /** The classifier's placeholder stands in only for a missing side. */
  lemma ClassifierAcceptsIff(v: Verifier, items: seq<Item>)
    ensures ClassifierVerdict(v, items).isTarget == Some(true)
       <==> || (exists i :: Wins(v, items, i) &&
                  (NoneOfKind(v, items, false) ==> items[i].confidence >= v.minTargetMargin))
            || (NoneOfKind(v, items, true) && PlaceholderWins(v, items) && (items == [] ==> v.minTargetMargin <= 0.0))
  {
    var best, other := Highest(v, items, true), Highest(v, items, false);
    HighestOfKind(v, items, true);
    HighestOfKind(v, items, false);
    if ClassifierVerdict(v, items).isTarget == Some(true) && !NoneOfKind(v, items, true) {
      var i :| 0 <= i < |items| && items[i] == best && IsTargetLabel(v, items[i].labelName);
      assert Wins(v, items, i);
    }
    if i :| Wins(v, items, i) && (NoneOfKind(v, items, false) ==> items[i].confidence >= v.minTargetMargin) {
      assert items[i].confidence <= best.confidence;
      assert items[i].confidence - other.confidence >= v.minTargetMargin;
    }
  }
}
