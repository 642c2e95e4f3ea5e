/** Values and transitions of the temporal gate in src/detection/target_verifier.py:
    the vote over the samples of one object, and one evaluation.  The class in
    TargetGate.dfy is proved to perform exactly these transitions. */
module GateVote {
  import opened Prelude
  import opened TargetVerifier

  datatype Verdict = Pending | Accept | Reject

  datatype Decision = Decision(verdict: Verdict, labelName: string, confidence: real, reason: string)

  function Wait(reason: string): Decision { Decision(Pending, "unknown", 0.0, reason) }

  datatype Settings = Settings(
    confirmations: int, maxSamples: int, minPositiveRatio: real, sampleInterval: real)

  ghost predicate Clamped(c: Settings) {
    1 <= c.confirmations <= c.maxSamples && c.sampleInterval >= 0.0
  }

  function Clamp(raw: Settings): (c: Settings)
    ensures Clamped(c)
    ensures Clamped(raw) ==> c == raw
    ensures c.confirmations == raw.confirmations || raw.confirmations < 1 == c.confirmations
    ensures c.maxSamples == raw.maxSamples || raw.maxSamples < c.confirmations == c.maxSamples
    ensures c.sampleInterval == raw.sampleInterval || raw.sampleInterval < 0.0 == c.sampleInterval
  {
    var confirmations := Max(1, raw.confirmations);
    raw.(confirmations := confirmations,
         maxSamples := Max(confirmations, raw.maxSamples),
         sampleInterval := MaxReal(0.0, raw.sampleInterval))
  }

  // ---- the vote over the samples collected so far ----

  predicate IsPositive(p: Prediction) { p.isTarget == Some(true) }

  function Positives(samples: seq<Prediction>): (r: seq<Prediction>)
    ensures |r| <= |samples|
  {
    if samples == [] then []
    else
      var n := |samples| - 1;
      Positives(samples[..n]) + if IsPositive(samples[n]) then [samples[n]] else []
  }

  lemma {:induction false} PositivesMember(samples: seq<Prediction>, p: Prediction)
    ensures p in Positives(samples) <==> p in samples && IsPositive(p)
  {
    if samples != [] {
      var n := |samples| - 1;
      PositivesMember(samples[..n], p);
      assert samples == samples[..n] + [samples[n]];
    }
  }

  function CountLabel(samples: seq<Prediction>, labelName: string): (n: nat)
    ensures n <= |samples|
  {
    if samples == [] then 0
    else
      var n := |samples| - 1;
      CountLabel(samples[..n], labelName) + if samples[n].labelName == labelName then 1 else 0
  }

  /** Position of the most frequent label's first occurrence among the first `n`
      samples, a label seen earlier winning a tie. */
  function MostCommonAt(samples: seq<Prediction>, n: nat): (r: nat)
    requires 0 < n <= |samples|
    ensures r < n
    ensures forall i :: 0 <= i < n ==>
      CountLabel(samples, samples[i].labelName) <= CountLabel(samples, samples[r].labelName)
    ensures forall i :: 0 <= i < r ==>
      CountLabel(samples, samples[i].labelName) < CountLabel(samples, samples[r].labelName)
  {
    if n == 1 then 0
    else
      var r := MostCommonAt(samples, n - 1);
      if CountLabel(samples, samples[n - 1].labelName) > CountLabel(samples, samples[r].labelName) then n - 1 else r
  }

  function WithLabel(samples: seq<Prediction>, labelName: string): (r: seq<Prediction>)
    ensures |r| == CountLabel(samples, labelName)
  {
    if samples == [] then []
    else
      var n := |samples| - 1;
      WithLabel(samples[..n], labelName) + if samples[n].labelName == labelName then [samples[n]] else []
  }

  lemma {:induction false} WithLabelMember(samples: seq<Prediction>, labelName: string, p: Prediction)
    ensures p in WithLabel(samples, labelName) <==> p in samples && p.labelName == labelName
  {
    if samples != [] {
      var n := |samples| - 1;
      WithLabelMember(samples[..n], labelName, p);
      assert samples == samples[..n] + [samples[n]];
    }
  }

  function SumConfidence(samples: seq<Prediction>): real {
    if samples == [] then 0.0
    else SumConfidence(samples[..|samples| - 1]) + samples[|samples| - 1].confidence
  }

  function MeanConfidence(samples: seq<Prediction>): real {
    SumConfidence(samples) / Max(1, |samples|) as real
  }

  /** The first sample of highest confidence. */
  function MostConfident(samples: seq<Prediction>): (r: Prediction)
    requires samples != []
    ensures r in samples && forall p :: p in samples ==> p.confidence <= r.confidence
  {
    var n := |samples| - 1;
    if n == 0 then samples[0]
    else
      var r := MostConfident(samples[..n]);
      assert samples == samples[..n] + [samples[n]];
      if samples[n].confidence > r.confidence then samples[n] else r
  }

  function Accepted(positives: seq<Prediction>): Decision
    requires positives != []
  {
    var labelName := positives[MostCommonAt(positives, |positives|)].labelName;
    Decision(Accept, labelName, MeanConfidence(WithLabel(positives, labelName)), "temporal_consensus")
  }

  function Rejected(samples: seq<Prediction>): Decision
    requires samples != []
  {
    var best := MostConfident(samples);
    Decision(Reject, best.labelName, best.confidence, "insufficient_target_consensus")
  }

  /** The verdict on `votes` positives among `size` samples. */
  function Tally(c: Settings, votes: nat, size: nat): Verdict
    requires size > 0
  {
    if votes >= c.confirmations && votes as real / size as real >= c.minPositiveRatio then Accept
    else if size >= c.maxSamples || votes + (c.maxSamples - size) < c.confirmations then Reject
    else Pending
  }

  /** The decision after a sample was added. */
  function Decide(c: Settings, samples: seq<Prediction>): (d: Decision)
    requires c.confirmations >= 1 && samples != []
    ensures d.verdict == Tally(c, |Positives(samples)|, |samples|)
  {
    match Tally(c, |Positives(samples)|, |samples|)
    case Accept => Accepted(Positives(samples))
    case Reject => Rejected(samples)
    case Pending => Wait("collecting_semantic_samples")
  }

  // ---- one evaluation ----

  datatype Gate = Gate(samples: map<string, seq<Prediction>>, lastSampleAt: map<string, real>)

  const EMPTY := Gate(map[], map[])

  predicate TooSoon(c: Settings, g: Gate, id: string, now: real) {
    id in g.lastSampleAt && now - g.lastSampleAt[id] < c.sampleInterval
  }

  function SamplesOf(g: Gate, id: string): seq<Prediction> {
    if id in g.samples then g.samples[id] else []
  }

  /** The gate after an evaluation: the sampling time moves whenever the verifier
      is asked, the samples grow only by an available prediction. */
  function After(c: Settings, g: Gate, id: string, hasFrame: bool, now: real, p: Prediction): Gate {
    if !hasFrame || TooSoon(c, g, id, now) then g
    else Gate(if p.isTarget.Some? then g.samples[id := SamplesOf(g, id) + [p]] else g.samples,
              g.lastSampleAt[id := now])
  }

  function Reply(c: Settings, g: Gate, id: string, hasFrame: bool, now: real, p: Prediction): Decision
    requires c.confirmations >= 1
  {
    if !hasFrame then Wait("frame_unavailable")
    else if TooSoon(c, g, id, now) then Wait("waiting_next_sample")
    else if p.isTarget.None? then Wait(if p.reason != "" then p.reason else "verifier_unavailable")
    else Decide(c, SamplesOf(g, id) + [p])
  }

  function Forget(g: Gate, id: string): Gate {
    Gate(g.samples - {id}, g.lastSampleAt - {id})
  }

  /** `retain` visits only the objects that have samples. */
  function Retain(g: Gate, active: set<string>): Gate {
    var dropped := g.samples.Keys - active;
    Gate(g.samples - dropped, g.lastSampleAt - dropped)
  }
}
