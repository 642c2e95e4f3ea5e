/** The gate object of src/detection/target_verifier.py, which keeps its two
    dictionaries up to date in place. */
module TargetGate {
  import opened TargetVerifier
  import Spec = GateVote

  class TemporalTargetGate {
    const c: Spec.Settings
    var samples: map<string, seq<Prediction>>
    var lastSampleAt: map<string, real>

    constructor (raw: Spec.Settings)
      ensures c == Spec.Clamp(raw) && Value() == Spec.EMPTY
    {
      c := Spec.Clamp(raw);
      samples, lastSampleAt := map[], map[];
    }

    function Value(): Spec.Gate
      reads this
    {
      Spec.Gate(samples, lastSampleAt)
    }

    method Evaluate(id: string, hasFrame: bool, now: real, prediction: Prediction) returns (d: Spec.Decision)
      requires Spec.Clamped(c)
      modifies this
      ensures Value() == Spec.After(c, old(Value()), id, hasFrame, now, prediction)
      ensures d == Spec.Reply(c, old(Value()), id, hasFrame, now, prediction)
    {
      if !hasFrame {
        return Spec.Wait("frame_unavailable");
      }
      if id in lastSampleAt && now - lastSampleAt[id] < c.sampleInterval {
        return Spec.Wait("waiting_next_sample");
      }
      lastSampleAt := lastSampleAt[id := now];
      if prediction.isTarget.None? {
        return Spec.Wait(if prediction.reason != "" then prediction.reason else "verifier_unavailable");
      }
      var collected := (if id in samples then samples[id] else []) + [prediction];
      samples := samples[id := collected];
      d := Vote(collected);
    }

    /** The vote over the samples collected so far, stopping early. */
    method Vote(collected: seq<Prediction>) returns (d: Spec.Decision)
      requires Spec.Clamped(c) && collected != []
      ensures d == Spec.Decide(c, collected)
    {
      var positives := Spec.Positives(collected);
      var ratio := |positives| as real / |collected| as real;
      if |positives| >= c.confirmations && ratio >= c.minPositiveRatio {
        return Spec.Accepted(positives);
      }
      var samplesLeft := c.maxSamples - |collected|;
      if |collected| >= c.maxSamples || |positives| + samplesLeft < c.confirmations {
        return Spec.Rejected(collected);
      }
      return Spec.Wait("collecting_semantic_samples");
    }

    method Forget(id: string)
      modifies this
      ensures Value() == Spec.Forget(old(Value()), id)
    {
      samples, lastSampleAt := samples - {id}, lastSampleAt - {id};
    }

    method Clear()
      modifies this
      ensures Value() == Spec.EMPTY
    {
      samples, lastSampleAt := map[], map[];
    }

    method Retain(active: set<string>)
      modifies this
      ensures Value() == Spec.Retain(old(Value()), active)
    {
      var todo := samples.Keys;
      ghost var dropped: set<string> := {};
      while todo != {}
        invariant todo <= old(samples).Keys
        invariant dropped == (old(samples).Keys - todo) - active
        invariant samples == old(samples) - dropped && lastSampleAt == old(lastSampleAt) - dropped
      {
        var id :| id in todo;
        todo := todo - {id};
        if id !in active {
          Forget(id);
          dropped := dropped + {id};
        }
      }
    }
  }
}
