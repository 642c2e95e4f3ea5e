/** What the verifiers answer: the label and the confidence of positive and of negative
    answers alike go back to the leading item of each kind, and there is only one. */
module VerifierAnswers {
  import opened Prelude
  import opened TargetVerifier

  // ---- the order of items ----

  lemma {:induction false} TextsAreOrdered(a: string, b: string)
    ensures !TextBefore(a, a)
    ensures TextBefore(a, b) || TextBefore(b, a) || a == b
  {
    if a != [] {
      TextsAreOrdered(a[1..], if b == [] then [] else b[1..]);
      assert a == [a[0]] + a[1..] && (b != [] ==> b == [b[0]] + b[1..]);
    }
  }

  /** The texts agree on the first `k` characters, and then `a` ends or has the smaller one. */
  predicate PartsAt(a: string, b: string, k: nat) {
    && k <= |a| && k < |b| && a[..k] == b[..k]
    && (k == |a| || a[k] < b[k])
  }

  /** The order of names is the lexicographic one. */
  lemma {:induction false} TextBeforeMeans(a: string, b: string)
    ensures TextBefore(a, b) <==> exists k: nat :: PartsAt(a, b, k)
  {
    forall k: nat | PartsAt(a, b, k) && k > 0 ensures a[0] == b[0] {
      assert a[..k][0] == b[..k][0];
    }
    if b != [] && (a == [] || a[0] < b[0]) {
      assert PartsAt(a, b, 0);
    } else if a != [] && b != [] && a[0] == b[0] {
      TextBeforeMeans(a[1..], b[1..]);
      if k: nat :| PartsAt(a[1..], b[1..], k) {
        assert a[..k + 1] == [a[0]] + a[1..][..k] && b[..k + 1] == [b[0]] + b[1..][..k];
        assert PartsAt(a, b, k + 1);
      }
      if k: nat :| PartsAt(a, b, k) {
        assert k > 0;
        assert a[1..][..k - 1] == a[..k][1..] && b[1..][..k - 1] == b[..k][1..];
        assert PartsAt(a[1..], b[1..], k - 1);
      }
    }
  }

  lemma ItemsAreOrdered(a: Item, b: Item, c: Item)
    ensures !Before(a, a)
    ensures Before(a, b) && Before(b, c) ==> Before(a, c)
    ensures Before(a, b) || Before(b, a) || a == b
  {
    TextBeforeOrder(a.labelName, b.labelName, c.labelName);
    TextsAreOrdered(a.labelName, b.labelName);
  }

  predicate OfThisKind(v: Verifier, x: Item, target: bool) { IsTargetLabel(v, x.labelName) == target }

  /** The item is the last of its kind in the order of confidence, then of name. */
  ghost predicate LastOfKind(v: Verifier, items: seq<Item>, target: bool, x: Item) {
    && x in items && OfThisKind(v, x, target)
    && forall y :: y in items && OfThisKind(v, y, target) ==> !Before(x, y)
  }

  /** The leading item where the placeholder competes. */
  ghost predicate Leads(v: Verifier, items: seq<Item>, target: bool, x: Item) {
    && (x == NOTHING || (x in items && OfThisKind(v, x, target)))
    && !Before(x, NOTHING)
    && forall y :: y in items && OfThisKind(v, y, target) ==> !Before(x, y)
  }

  /** The leading item where the placeholder stands in only for a missing kind. */
  ghost predicate Tops(v: Verifier, items: seq<Item>, target: bool, x: Item) {
    if NoneOfKind(v, items, target) then x == NOTHING else LastOfKind(v, items, target, x)
  }

  /** There is only one leading item. */
  lemma OneLeads(v: Verifier, items: seq<Item>, target: bool, x: Item, y: Item)
    ensures Leads(v, items, target, x) && Leads(v, items, target, y) ==> x == y
    ensures Tops(v, items, target, x) && Tops(v, items, target, y) ==> x == y
  {
    ItemsAreOrdered(x, y, x);
  }

  lemma {:induction false} BestLeads(v: Verifier, items: seq<Item>, target: bool)
    ensures Leads(v, items, target, Best(v, items, target))
  {
    ItemsAreOrdered(NOTHING, NOTHING, NOTHING);
    if items != [] {
      var front, x := items[..|items| - 1], items[|items| - 1];
      BestLeads(v, front, target);
      LeadsOneMore(v, front, target, Best(v, front, target), x);
      assert items == front + [x];
    }
  }

  lemma LeadsOneMore(v: Verifier, front: seq<Item>, target: bool, b: Item, x: Item)
    requires Leads(v, front, target, b)
    ensures Leads(v, front + [x], target, if OfThisKind(v, x, target) then Larger(b, x) else b)
  {
    ItemsAreOrdered(x, x, x);
    ItemsAreOrdered(b, x, NOTHING);
    forall y | y in front && Before(b, x) ensures Before(x, y) ==> Before(b, y) {
      ItemsAreOrdered(b, x, y);
    }
  }

  lemma {:induction false} MaxIsLast(items: seq<Item>)
    requires items != []
    ensures MaxItem(items) in items && forall y :: y in items ==> !Before(MaxItem(items), y)
  {
    var n := |items| - 1;
    ItemsAreOrdered(items[n], items[n], items[n]);
    if n > 0 {
      var b, x := MaxItem(items[..n]), items[n];
      MaxIsLast(items[..n]);
      assert items == items[..n] + [x];
      forall y | y in items[..n] && Before(b, x) ensures Before(x, y) ==> Before(b, y) {
        ItemsAreOrdered(b, x, y);
      }
    }
  }

  lemma HighestTops(v: Verifier, items: seq<Item>, target: bool)
    ensures Tops(v, items, target, Highest(v, items, target))
  {
    HighestOfKind(v, items, target);
    var kind := OfKind(v, items, target);
    if !NoneOfKind(v, items, target) {
      var j :| 0 <= j < |items| && IsTargetLabel(v, items[j].labelName) == target;
      assert items[j] in kind;
      MaxIsLast(kind);
    }
  }

  // ---- the answers ----

  predicate WonBy(v: Verifier, target: Item, other: Item) {
    target.confidence >= v.minConfidence && target.confidence - other.confidence >= v.minTargetMargin
  }

  predicate Names(p: Prediction, x: Item) { p.labelName == x.labelName && p.confidence == x.confidence }

  /** The box detector names the leading target if it is confident enough, and else the
      leading box of the other kind. */
  lemma DetectorNames(v: Verifier, items: seq<Item>) returns (target: Item, other: Item)
    ensures Leads(v, items, true, target) && Leads(v, items, false, other)
    ensures var p := DetectorVerdict(v, items);
      if target.confidence >= v.minConfidence then
        p.isTarget == Some(true) && Names(p, target) && p.reason == "target_detected"
      else p.isTarget == Some(false) && Names(p, other) && p.reason == "no_target_detection"
  {
    target, other := Best(v, items, true), Best(v, items, false);
    BestLeads(v, items, true);
    BestLeads(v, items, false);
  }

  /** The classifier names the winner of the two kinds. */
  lemma ClassifierNames(v: Verifier, items: seq<Item>) returns (target: Item, other: Item)
    ensures Tops(v, items, true, target) && Tops(v, items, false, other)
    ensures var p := ClassifierVerdict(v, items);
      if WonBy(v, target, other) then
        p.isTarget == Some(true) && Names(p, target) && p.reason == "classification_target"
      else p.isTarget == Some(false) && Names(p, other) && p.reason == "classification_non_target"
  {
    target, other := Highest(v, items, true), Highest(v, items, false);
    HighestTops(v, items, true);
    HighestTops(v, items, false);
  }

  /** The prompt contest names the target when it wins, and otherwise the more confident of
      the two kinds, the other one in a tie. */
  lemma ContestNames(v: Verifier, items: seq<Item>) returns (target: Item, other: Item)
    ensures Leads(v, items, true, target) && Leads(v, items, false, other)
    ensures var p := OpenVocabularyVerdict(v, items);
      if WonBy(v, target, other) then
        p.isTarget == Some(true) && Names(p, target) && p.reason == "open_vocab_target"
      else
        && p.isTarget == Some(false) && p.reason == "open_vocab_non_target"
        && Names(p, if target.confidence > other.confidence then target else other)
  {
    target, other := Best(v, items, true), Best(v, items, false);
    BestLeads(v, items, true);
    BestLeads(v, items, false);
  }

  /** The item of a box or class is its score under the name of its class, and that of a
      prompt its highest score over all anchors. */
  ghost predicate ScoredAs(v: Verifier, id: nat, score: real, x: Item) {
    x.confidence == score && x.labelName == if id in v.names then v.names[id] else v.digits(id)
  }

  ghost predicate IsColumnPeak(rows: seq<seq<real>>, c: nat, score: real)
    requires forall i :: 0 <= i < |rows| ==> c < |rows[i]|
  {
    && (forall i :: 0 <= i < |rows| ==> rows[i][c] <= score)
    && (exists i :: 0 <= i < |rows| && rows[i][c] == score)
  }

  lemma ItemsAreScores(v: Verifier, boxes: seq<(nat, real)>, confidences: seq<real>, rows: seq<seq<real>>, n: nat)
    requires rows != [] && Rectangular(rows, n)
    ensures forall i :: 0 <= i < |boxes| ==> ScoredAs(v, boxes[i].0, boxes[i].1, ItemsOfBoxes(v, boxes)[i])
    ensures forall i :: 0 <= i < |confidences| ==> ScoredAs(v, i, confidences[i], ItemsOfClasses(v, confidences)[i])
    ensures forall c :: 0 <= c < n ==>
      var x := ItemsOfScores(v, rows, n)[c];
      ScoredAs(v, c, x.confidence, x) && IsColumnPeak(rows, c, x.confidence)
  {
  }
}
