/** What the gate answers, told from the samples one by one: which evaluations wait, when
    there is a verdict, and which label and confidence each answer carries. */
module GateAnswers {
  import opened Prelude
  import opened TargetVerifier
  import opened GateVote
  import opened GateRuns
  import EarlyStopping

  // ---- the positives and their labels, by position ----

  function WasTarget(): Prediction -> bool { (p: Prediction) => p.isTarget == Some(true) }

  function Carries(labelName: string): Prediction -> bool { (p: Prediction) => p.labelName == labelName }

  /** The positive samples are those answered with a target, in order. */
  lemma {:induction false} PositivesAre(samples: seq<Prediction>) returns (at: seq<nat>)
    ensures Selects(samples, WasTarget(), at, Positives(samples))
  {
    if samples == [] {
      at := [];
      SelectsNothing(samples, WasTarget());
    } else {
      var n := |samples| - 1;
      at := PositivesAre(samples[..n]);
      SelectsOneMore(samples, n, WasTarget(), at, Positives(samples[..n]));
      at := if WasTarget()(samples[n]) then at + [n] else at;
    }
  }

  /** Likewise the samples with one label, and their count. */
  lemma {:induction false} LabelledAre(samples: seq<Prediction>, labelName: string) returns (at: seq<nat>)
    ensures Selects(samples, Carries(labelName), at, WithLabel(samples, labelName))
    ensures CountLabel(samples, labelName) == |at|
  {
    if samples == [] {
      at := [];
      SelectsNothing(samples, Carries(labelName));
    } else {
      var n := |samples| - 1;
      at := LabelledAre(samples[..n], labelName);
      SelectsOneMore(samples, n, Carries(labelName), at, WithLabel(samples[..n], labelName));
      at := if Carries(labelName)(samples[n]) then at + [n] else at;
    }
  }

  // ---- sums and peaks of confidences ----

  /** The sum is fixed by single confidences and by adding up over a split. */
  lemma {:induction false} SumSplits(a: seq<Prediction>, b: seq<Prediction>)
    ensures SumConfidence(a + b) == SumConfidence(a) + SumConfidence(b)
    ensures |a| == 1 ==> SumConfidence(a) == a[0].confidence
  {
    if b == [] {
      assert a + b == a;
      assert |a| == 1 ==> a[..0] == [];
    } else {
      var n := |b| - 1;
      SumSplits(a, b[..n]);
      assert (a + b)[..|a| + n] == a + b[..n];
    }
  }

  /** `value` is the mean of the confidences. */
  ghost predicate IsMean(samples: seq<Prediction>, value: real) {
    samples != [] && value * |samples| as real == SumConfidence(samples)
  }

  lemma MeanIsMean(samples: seq<Prediction>)
    requires samples != []
    ensures IsMean(samples, MeanConfidence(samples))
  {
  }

  /** Sample `i` has the highest confidence, and is the first that does. */
  ghost predicate IsFirstPeak(samples: seq<Prediction>, i: nat, best: Prediction) {
    && i < |samples| && samples[i] == best
    && (forall j :: 0 <= j < |samples| ==> samples[j].confidence <= best.confidence)
    && (forall j :: 0 <= j < i ==> samples[j].confidence < best.confidence)
  }

  lemma PeakOneMore(samples: seq<Prediction>, n: nat, i: nat, best: Prediction)
    requires |samples| == n + 1 && IsFirstPeak(samples[..n], i, best)
    ensures samples[n].confidence > best.confidence ==> IsFirstPeak(samples, n, samples[n])
    ensures samples[n].confidence <= best.confidence ==> IsFirstPeak(samples, i, best)
  {
    var front := samples[..n];
    assert forall j :: 0 <= j < n ==> samples[j] == front[j];
  }

  lemma MostConfidentStep(samples: seq<Prediction>, n: nat)
    requires |samples| == n + 1
    ensures n == 0 ==> MostConfident(samples) == samples[0] && IsFirstPeak(samples, 0, samples[0])
    ensures n > 0 ==>
      var best := MostConfident(samples[..n]);
      MostConfident(samples) == if samples[n].confidence > best.confidence then samples[n] else best
  {
  }

  lemma {:induction false} MostConfidentIsFirst(samples: seq<Prediction>) returns (i: nat)
    requires samples != []
    ensures IsFirstPeak(samples, i, MostConfident(samples))
  {
    var n := |samples| - 1;
    MostConfidentStep(samples, n);
    i := 0;
    if n > 0 {
      var best := MostConfident(samples[..n]);
      i := MostConfidentIsFirst(samples[..n]);
      PeakOneMore(samples, n, i, best);
      i := if samples[n].confidence > best.confidence then n else i;
    }
  }

  // ---- the decision over the samples of one object ----

  predicate Confirmed(c: Settings, votes: nat, size: nat) {
    votes >= c.confirmations && votes as real >= c.minPositiveRatio * size as real
  }

  predicate Hopeless(c: Settings, votes: nat, size: nat) {
    size >= c.maxSamples || votes + c.maxSamples - size < c.confirmations
  }

  /** Accepted under the plurality label of the positives, with the mean confidence of the
      positives that carry it. */
  ghost predicate AcceptsAs(positives: seq<Prediction>, d: Decision) {
    && d.verdict == Accept && d.reason == "temporal_consensus" && IsPlurality(positives, d.labelName)
    && IsMean(WithLabel(positives, d.labelName), d.confidence)
  }

  /** Rejected under the label and confidence of the first most confident sample. */
  ghost predicate RejectsAs(samples: seq<Prediction>, d: Decision) {
    && d.verdict == Reject && d.reason == "insufficient_target_consensus"
    && exists i: nat, best :: IsFirstPeak(samples, i, best) && d.labelName == best.labelName
                              && d.confidence == best.confidence
  }

  ghost predicate WaitsFor(reason: string, d: Decision) {
    d == Decision(Pending, "unknown", 0.0, reason)
  }

  lemma TallyMeans(c: Settings, votes: nat, size: nat)
    requires size > 0
    ensures Tally(c, votes, size)
      == if Confirmed(c, votes, size) then Accept else if Hopeless(c, votes, size) then Reject else Pending
  {
    EarlyStopping.QuotientAtLeast(votes as real, size as real, c.minPositiveRatio);
  }

  lemma AcceptedAs(positives: seq<Prediction>)
    requires positives != []
    ensures AcceptsAs(positives, Accepted(positives))
  {
    var r := MostCommonAt(positives, |positives|);
    LabelOccurs(positives, r);
    MeanIsMean(WithLabel(positives, positives[r].labelName));
  }

  /** The vote over the samples. */
  ghost predicate IsVote(c: Settings, samples: seq<Prediction>, d: Decision) {
    var positives := Positives(samples);
    if Confirmed(c, |positives|, |samples|) then AcceptsAs(positives, d)
    else if Hopeless(c, |positives|, |samples|) then RejectsAs(samples, d)
    else WaitsFor("collecting_semantic_samples", d)
  }

  /** The vote: enough positives, and enough of them, accept; otherwise a full or hopeless
      count rejects. */
  lemma DecideMeans(c: Settings, samples: seq<Prediction>)
    requires Clamped(c) && samples != []
    ensures IsVote(c, samples, Decide(c, samples))
  {
    TallyMeans(c, |Positives(samples)|, |samples|);
    var i := MostConfidentIsFirst(samples);
    if Confirmed(c, |Positives(samples)|, |samples|) {
      AcceptedAs(Positives(samples));
    }
  }

  // ---- the answers of a run ----

  /** The verifier was asked about the object less than an interval ago. */
  ghost predicate AskedJustNow(c: Settings, es: seq<Event>, e: Event)
    requires Clamped(c) && e.Ask?
  {
    var ts := Given(c, es, e.id);
    ts != [] && e.now - ts[|ts| - 1].now < c.sampleInterval
  }

  lemma ReplyMeans(c: Settings, g: Gate, e: Event)
    requires Clamped(c) && e.Ask?
    ensures var d, reason := Answer(c, g, e), e.prediction.reason;
      if !e.hasFrame then WaitsFor("frame_unavailable", d)
      else if e.id in g.lastSampleAt && e.now - g.lastSampleAt[e.id] < c.sampleInterval then
        WaitsFor("waiting_next_sample", d)
      else if e.prediction.isTarget.None? then WaitsFor(if reason == "" then "verifier_unavailable" else reason, d)
      else IsVote(c, SamplesOf(g, e.id) + [e.prediction], d)
  {
    DecideMeans(c, SamplesOf(g, e.id) + [e.prediction]);
  }

  /** A failed inference is answered with a wait and never counted. */
  lemma FailureIsNotCounted(c: Settings, v: Verifier, es: seq<Event>, e: Event, reason: string)
    requires Clamped(c) && e.Ask? && e.prediction == Verify(v, Failed(reason))
    ensures Answer(c, Run(c, es), e).verdict == Pending
    ensures Counted(c, es + [e], e.id) == Counted(c, es, e.id)
  {
    assert (es + [e])[..|es|] == es;
  }

  lemma PositivesAppend(samples: seq<Prediction>, p: Prediction)
    ensures Positives(samples + [p]) == Positives(samples) + if p.isTarget == Some(true) then [p] else []
  {
    assert (samples + [p])[..|samples|] == samples;
  }

  /** The model ran and gave nothing. */
  predicate GaveNothing(o: Output) {
    o.Empty? || (o.Scores? && (o.rows == [] || o.classes == 0))
  }

  lemma NothingIsNegative(v: Verifier, o: Output)
    requires WellShaped(o) && GaveNothing(o)
    ensures Verify(v, o).isTarget == Some(false)
  {
  }

  lemma AdmittedIsCounted(c: Settings, es: seq<Event>, e: Event)
    requires Clamped(c) && e.Ask? && e.hasFrame && !AskedJustNow(c, es, e) && e.prediction.isTarget.Some?
    ensures IsCounted(c, Run(c, es), e)
  {
    KnownObjects(c, es, e.id);
  }

  lemma PredictionsAppend(ts: seq<Taken>, t: Taken)
    ensures Predictions(ts + [t]) == Predictions(ts) + [t.prediction]
  {
  }

  /** An empty result counts as one more sample, and not as a positive one. */
  lemma EmptyCountsAgainst(c: Settings, v: Verifier, es: seq<Event>, e: Event, o: Output)
    requires Clamped(c) && e.Ask? && WellShaped(o) && GaveNothing(o) && e.prediction == Verify(v, o)
    requires e.hasFrame && !AskedJustNow(c, es, e)
    ensures var before, after := Predictions(Counted(c, es, e.id)), Predictions(Counted(c, es + [e], e.id));
      after == before + [e.prediction] && Positives(after) == Positives(before)
  {
    NothingIsNegative(v, o);
    AdmittedIsCounted(c, es, e);
    CountedAppend(c, es, e);
    PredictionsAppend(Counted(c, es, e.id), Taken(e.now, e.prediction));
    PositivesAppend(Predictions(Counted(c, es, e.id)), e.prediction);
  }

  /** Every answer of every run: it waits without a frame, within the interval, or without
      a prediction; otherwise it is the vote over the counted samples of the object. */
  lemma AnswerMeans(c: Settings, es: seq<Event>, e: Event)
    requires Clamped(c) && e.Ask?
    ensures var d, reason := Answer(c, Run(c, es), e), e.prediction.reason;
      if !e.hasFrame then WaitsFor("frame_unavailable", d)
      else if AskedJustNow(c, es, e) then WaitsFor("waiting_next_sample", d)
      else if e.prediction.isTarget.None? then WaitsFor(if reason == "" then "verifier_unavailable" else reason, d)
      else IsVote(c, Predictions(Counted(c, es, e.id)) + [e.prediction], d)
  {
    KnownObjects(c, es, e.id);
    RunRecorded(c, es, e.id);
    ReplyMeans(c, Run(c, es), e);
  }
}
