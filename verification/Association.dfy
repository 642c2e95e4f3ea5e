/** The scan both trackers use to pick the track for a box: start from a best
    score of 0 and replace it only by a strictly larger one. */
module Association {
  import opened Prelude

  /** `r` is the first position of the largest score, if that score is positive. */
  ghost predicate IsFirstBest(scores: seq<real>, r: Option<nat>) {
    match r
    case None => forall i :: 0 <= i < |scores| ==> scores[i] <= 0.0
    case Some(b) =>
      && b < |scores| && scores[b] > 0.0
      && (forall i :: 0 <= i < |scores| ==> scores[i] <= scores[b])
      && (forall i :: 0 <= i < b ==> scores[i] < scores[b])
  }

  function FirstBest(scores: seq<real>): (r: Option<nat>)
    ensures IsFirstBest(scores, r)
  {
    if scores == [] then None
    else
      var n := |scores| - 1;
      var best := FirstBest(scores[..n]);
      if scores[n] > (if best.Some? then scores[best.value] else 0.0) then Some(n) else best
  }

  lemma FirstBestUnique(scores: seq<real>, r: Option<nat>)
    requires IsFirstBest(scores, r)
    ensures r == FirstBest(scores)
  {
  }

  /** A match must also reach the tracker's threshold. */
  function Accepted(scores: seq<real>, threshold: real): (r: Option<nat>)
    ensures r.Some? ==> r.value < |scores| && scores[r.value] > 0.0 && scores[r.value] >= threshold
    ensures r.Some? ==> forall i :: 0 <= i < |scores| ==> scores[i] <= scores[r.value]
    ensures r.Some? ==> forall i :: 0 <= i < r.value ==> scores[i] < scores[r.value]
    ensures r.None? ==> forall i :: 0 <= i < |scores| ==> scores[i] <= 0.0 || scores[i] < threshold
  {
    var best := FirstBest(scores);
    if best.Some? && scores[best.value] >= threshold then best else None
  }

}
