/** The gate decides early, and decides what counting all `maxSamples` samples
    would decide.  The agreement holds exactly when the ratio rule can never veto
    enough confirmations, that is `minPositiveRatio * maxSamples <= confirmations`. */
module EarlyStopping {
  import opened Prelude
  import opened TargetVerifier
  import opened GateVote

  const YES := Prediction(Some(true), "yes", 1.0, "")
  const NO := Prediction(Some(false), "no", 1.0, "")

  function Votes(samples: seq<Prediction>): (n: nat)
    ensures n <= |samples|
  {
    |Positives(samples)|
  }

  function Repeat(p: Prediction, n: nat): (r: seq<Prediction>)
    ensures |r| == n
  {
    if n == 0 then [] else Repeat(p, n - 1) + [p]
  }

  lemma {:induction false} VotesConcat(a: seq<Prediction>, b: seq<Prediction>)
    ensures Votes(a + b) == Votes(a) + Votes(b)
  {
    if b == [] {
      assert a + b == a;
    } else {
      var n := |b| - 1;
      assert (a + b)[..|a + b| - 1] == a + b[..n];
      VotesConcat(a, b[..n]);
    }
  }

  lemma {:induction false} VotesOfRepeat(p: Prediction, n: nat)
    ensures Votes(Repeat(p, n)) == if IsPositive(p) then n else 0
  {
    if n > 0 {
      VotesOfRepeat(p, n - 1);
      assert Repeat(p, n)[..n - 1] == Repeat(p, n - 1);
    }
  }

  /** However the samples are completed to `maxSamples`, enough are positive. */
  ghost predicate EveryCompletionConfirms(c: Settings, samples: seq<Prediction>) {
    forall rest :: |samples + rest| == c.maxSamples ==> Votes(samples + rest) >= c.confirmations
  }

  /** However the samples are completed to `maxSamples`, too few are positive. */
  ghost predicate NoCompletionConfirms(c: Settings, samples: seq<Prediction>) {
    forall rest :: |samples + rest| == c.maxSamples ==> Votes(samples + rest) < c.confirmations
  }

  lemma CompletionsCount(c: Settings, samples: seq<Prediction>)
    requires |samples| <= c.maxSamples
    ensures EveryCompletionConfirms(c, samples) <==> Votes(samples) >= c.confirmations
    ensures NoCompletionConfirms(c, samples) <==> Votes(samples) + (c.maxSamples - |samples|) < c.confirmations
  {
    var left := c.maxSamples - |samples|;
    forall rest | |samples + rest| == c.maxSamples
      ensures Votes(samples) <= Votes(samples + rest) <= Votes(samples) + left
    {
      VotesConcat(samples, rest);
    }
    var worst, best := Repeat(NO, left), Repeat(YES, left);
    VotesOfRepeat(NO, left);
    VotesOfRepeat(YES, left);
    VotesConcat(samples, worst);
    VotesConcat(samples, best);
    assert |samples + worst| == c.maxSamples && |samples + best| == c.maxSamples;
  }

  /** The ratio rule never vetoes within `maxSamples` samples. */
  ghost predicate RatioNeverVetoes(c: Settings) {
    c.minPositiveRatio * c.maxSamples as real <= c.confirmations as real
  }

  lemma EnoughVotesReachRatio(c: Settings, votes: nat, size: nat)
    requires Clamped(c) && RatioNeverVetoes(c)
    requires votes >= c.confirmations && 0 < size <= c.maxSamples
    ensures votes as real / size as real >= c.minPositiveRatio
  {
    var r, n, v := c.minPositiveRatio, size as real, votes as real;
    if r > 0.0 {
      assert r * n <= r * c.maxSamples as real;
      assert r * n <= v;
      QuotientAtLeast(v, n, r);
    }
  }

  lemma QuotientAtLeast(v: real, n: real, r: real)
    requires n > 0.0
    ensures v / n >= r <==> v >= r * n
  {
    var q := v / n;
    assert q * n == v;
    if q >= r {
      assert q * n >= r * n;
    }
  }

  lemma TallyWithoutVeto(c: Settings, votes: nat, size: nat)
    requires Clamped(c) && RatioNeverVetoes(c) && votes <= size && 1 <= size <= c.maxSamples
    ensures Tally(c, votes, size) == Accept <==> votes >= c.confirmations
    ensures Tally(c, votes, size) == Reject <==> votes + (c.maxSamples - size) < c.confirmations
  {
    if votes >= c.confirmations {
      EnoughVotesReachRatio(c, votes, size);
    }
  }

  /** At every moment up to `maxSamples`, the verdict says what all completions of
      the samples have in common. */
  lemma VerdictReadsCompletions(c: Settings, samples: seq<Prediction>)
    requires Clamped(c) && RatioNeverVetoes(c) && 1 <= |samples| <= c.maxSamples
    ensures Decide(c, samples).verdict == Accept <==> EveryCompletionConfirms(c, samples)
    ensures Decide(c, samples).verdict == Reject <==> NoCompletionConfirms(c, samples)
  {
    CompletionsCount(c, samples);
    TallyWithoutVeto(c, Votes(samples), |samples|);
  }

  /** The verdicts after one, two, ... samples. */
  function Verdicts(c: Settings, samples: seq<Prediction>): (r: seq<Verdict>)
    requires Clamped(c)
    ensures |r| == |samples|
  {
    seq(|samples|, i requires 0 <= i < |samples| => Decide(c, samples[..i + 1]).verdict)
  }

  function FirstDecided(vs: seq<Verdict>): (n: nat)
    requires vs != [] && vs[|vs| - 1] != Pending
    ensures n < |vs| && vs[n] != Pending
    ensures forall i :: 0 <= i < n ==> vs[i] == Pending
  {
    if vs[0] != Pending then 0 else 1 + FirstDecided(vs[1..])
  }

  /** From `maxSamples` samples on the gate is never undecided. */
  lemma DecidedAtMaxSamples(c: Settings, samples: seq<Prediction>)
    requires Clamped(c) && |samples| >= c.maxSamples
    ensures Decide(c, samples).verdict != Pending
  {
  }

  lemma VerdictsEndDecided(c: Settings, samples: seq<Prediction>)
    requires Clamped(c) && |samples| == c.maxSamples
    ensures Verdicts(c, samples)[c.maxSamples - 1] != Pending
  {
    assert samples[..|samples|] == samples;
    DecidedAtMaxSamples(c, samples);
  }

  /** The first verdict other than pending on exactly `maxSamples` samples. */
  function EarlyVerdict(c: Settings, samples: seq<Prediction>): Verdict
    requires Clamped(c) && |samples| == c.maxSamples
  {
    VerdictsEndDecided(c, samples);
    Verdicts(c, samples)[FirstDecided(Verdicts(c, samples))]
  }

  /** Counting all the samples at once. */
  function BatchVerdict(c: Settings, samples: seq<Prediction>): Verdict {
    if Votes(samples) >= c.confirmations then Accept else Reject
  }

  /** The first verdict that is not pending. */
  ghost predicate StopsAs(vs: seq<Verdict>, verdict: Verdict) {
    exists n :: 0 <= n < |vs| && vs[n] == verdict != Pending && forall i :: 0 <= i < n ==> vs[i] == Pending
  }

  lemma StopsOnce(vs: seq<Verdict>, n: nat, verdict: Verdict)
    requires n < |vs| && vs[n] != Pending && forall i :: 0 <= i < n ==> vs[i] == Pending
    ensures StopsAs(vs, verdict) <==> vs[n] == verdict
  {
  }

  lemma VerdictsStopAsEarly(c: Settings, samples: seq<Prediction>)
    requires Clamped(c) && |samples| == c.maxSamples
    ensures StopsAs(Verdicts(c, samples), EarlyVerdict(c, samples))
  {
    VerdictsEndDecided(c, samples);
    var vs := Verdicts(c, samples);
    StopsOnce(vs, FirstDecided(vs), EarlyVerdict(c, samples));
  }

  lemma VerdictsStopAsBatch(c: Settings, samples: seq<Prediction>)
    requires Clamped(c) && RatioNeverVetoes(c) && |samples| == c.maxSamples
    ensures StopsAs(Verdicts(c, samples), BatchVerdict(c, samples))
  {
    VerdictsStopAsEarly(c, samples);
    EarlyVerdictIsBatchVerdict(c, samples);
  }

  ghost predicate StopsLikeBatch(c: Settings)
    requires Clamped(c)
  {
    forall samples: seq<Prediction> | |samples| == c.maxSamples ::
      EarlyVerdict(c, samples) == BatchVerdict(c, samples)
  }

  lemma DecidedPrefixAgrees(c: Settings, samples: seq<Prediction>, n: nat)
    requires Clamped(c) && RatioNeverVetoes(c) && |samples| == c.maxSamples && 1 <= n <= |samples|
    requires Decide(c, samples[..n]).verdict != Pending
    ensures Decide(c, samples[..n]).verdict == BatchVerdict(c, samples)
  {
    VotesConcat(samples[..n], samples[n..]);
    assert samples[..n] + samples[n..] == samples;
    TallyWithoutVeto(c, Votes(samples[..n]), n);
  }

  lemma VerdictAgrees(c: Settings, samples: seq<Prediction>, i: nat)
    requires Clamped(c) && RatioNeverVetoes(c) && i < |samples| == c.maxSamples
    ensures Verdicts(c, samples)[i] != Pending ==> Verdicts(c, samples)[i] == BatchVerdict(c, samples)
  {
    if Verdicts(c, samples)[i] != Pending {
      DecidedPrefixAgrees(c, samples, i + 1);
    }
  }

  lemma EarlyVerdictIsBatchVerdict(c: Settings, samples: seq<Prediction>)
    requires Clamped(c) && RatioNeverVetoes(c) && |samples| == c.maxSamples
    ensures EarlyVerdict(c, samples) == BatchVerdict(c, samples)
  {
    VerdictsEndDecided(c, samples);
    VerdictAgrees(c, samples, FirstDecided(Verdicts(c, samples)));
  }

  /** The latest possible confirmation: every negative sample comes first. */
  function LateConfirmation(c: Settings): (r: seq<Prediction>)
    requires Clamped(c)
    ensures |r| == c.maxSamples
  {
    Repeat(NO, c.maxSamples - c.confirmations) + Repeat(YES, c.confirmations)
  }

  lemma {:induction false} RepeatPrefix(p: Prediction, n: nat, k: nat)
    requires k <= n
    ensures Repeat(p, n)[..k] == Repeat(p, k)
  {
    if k < n {
      RepeatPrefix(p, n - 1, k);
      assert Repeat(p, n)[..k] == Repeat(p, n - 1)[..k];
    }
  }

  lemma TakeOfConcat<T>(a: seq<T>, b: seq<T>, i: nat)
    requires i <= |a| + |b|
    ensures (a + b)[..i] == if i <= |a| then a[..i] else a + b[..i - |a|]
  {
  }

  lemma PrefixVotes(c: Settings, i: nat)
    requires Clamped(c) && i <= c.maxSamples
    ensures Votes(LateConfirmation(c)[..i]) == Max(0, i - (c.maxSamples - c.confirmations))
  {
    var misses := c.maxSamples - c.confirmations;
    var no, yes := Repeat(NO, misses), Repeat(YES, c.confirmations);
    TakeOfConcat(no, yes, i);
    if i <= misses {
      RepeatPrefix(NO, misses, i);
      VotesOfRepeat(NO, i);
    } else {
      RepeatPrefix(YES, c.confirmations, i - misses);
      VotesConcat(no, Repeat(YES, i - misses));
      VotesOfRepeat(NO, misses);
      VotesOfRepeat(YES, i - misses);
    }
  }

  lemma LateTally(c: Settings, i: nat)
    requires Clamped(c) && !RatioNeverVetoes(c) && 1 <= i <= c.maxSamples
    ensures Tally(c, Max(0, i - (c.maxSamples - c.confirmations)), i) == if i < c.maxSamples then Pending else Reject
  {
    if i == c.maxSamples {
      QuotientAtLeast(c.confirmations as real, c.maxSamples as real, c.minPositiveRatio);
    }
  }

  lemma LateVerdict(c: Settings, i: nat)
    requires Clamped(c) && !RatioNeverVetoes(c) && 1 <= i <= c.maxSamples
    ensures Decide(c, LateConfirmation(c)[..i]).verdict == if i < c.maxSamples then Pending else Reject
  {
    PrefixVotes(c, i);
    LateTally(c, i);
  }

  lemma LateConfirmationIsVetoed(c: Settings)
    requires Clamped(c) && !RatioNeverVetoes(c)
    ensures BatchVerdict(c, LateConfirmation(c)) == Accept
    ensures EarlyVerdict(c, LateConfirmation(c)) == Reject
  {
    var samples := LateConfirmation(c);
    assert samples[..c.maxSamples] == samples;
    PrefixVotes(c, c.maxSamples);
    var vs := Verdicts(c, samples);
    forall i | 0 <= i < c.maxSamples ensures vs[i] == if i < c.maxSamples - 1 then Pending else Reject {
      LateVerdict(c, i + 1);
    }
    OnlyLastDecided(vs);
  }

  lemma OnlyLastDecided(vs: seq<Verdict>)
    requires vs != [] && vs[|vs| - 1] != Pending
    requires forall i :: 0 <= i < |vs| - 1 ==> vs[i] == Pending
    ensures FirstDecided(vs) == |vs| - 1
  {
  }

  /** Early stopping equals the batch vote on every list of samples if and only if
      the ratio rule can never veto. */
  lemma EarlyStoppingIff(c: Settings)
    requires Clamped(c)
    ensures StopsLikeBatch(c) <==> RatioNeverVetoes(c)
  {
    if RatioNeverVetoes(c) {
      forall samples: seq<Prediction> | |samples| == c.maxSamples
        ensures EarlyVerdict(c, samples) == BatchVerdict(c, samples)
      {
        EarlyVerdictIsBatchVerdict(c, samples);
      }
    } else {
      LateConfirmationIsVetoed(c);
    }
  }
}
