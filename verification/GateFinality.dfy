/** Verdicts are not latched: the gate votes again whenever the object is asked again.
    When a reject, or an accept, is nevertheless final. */
module GateFinality {
  import opened Prelude
  import Geometry
  import opened TargetVerifier
  import opened GateVote
  import opened GateRuns
  import EarlyStopping

  ghost predicate Heard(answers: seq<Decision>, verdict: Verdict) {
    exists i :: 0 <= i < |answers| && answers[i].verdict == verdict
  }

  /** In no run does `second` answer an object that already got `first` since it was
      last dropped. */
  ghost predicate NeverFollows(c: Settings, first: Verdict, second: Verdict)
    requires Clamped(c)
  {
    forall es: seq<Event>, e: Event :: e.Ask? && Heard(AnswersSince(c, es, e.id), first) ==>
      Answer(c, Run(c, es), e).verdict != second
  }

  lemma HeardAppend(answers: seq<Decision>, d: Decision, verdict: Verdict)
    ensures Heard(answers + [d], verdict) <==> Heard(answers, verdict) || d.verdict == verdict
  {
    assert (answers + [d])[|answers|] == d;
    if Heard(answers, verdict) {
      var i :| 0 <= i < |answers| && answers[i].verdict == verdict;
      assert (answers + [d])[i].verdict == verdict;
    }
  }

  lemma VotesAppend(samples: seq<Prediction>, p: Prediction)
    ensures EarlyStopping.Votes(samples + [p]) == EarlyStopping.Votes(samples) + if IsPositive(p) then 1 else 0
  {
    assert (samples + [p])[..|samples|] == samples;
  }

  lemma UncountedIsPending(c: Settings, g: Gate, e: Event)
    requires Clamped(c) && e.Ask? && !IsCounted(c, g, e)
    ensures Answer(c, g, e).verdict == Pending
  {
  }

  // ---- what a verdict leaves behind ----

  /** The settings under which a verdict settles the matter. */
  predicate IsFinal(c: Settings, verdict: Verdict) {
    match verdict
    case Reject => c.minPositiveRatio >= 1.0
    case Accept => c.minPositiveRatio <= 0.0 || c.minPositiveRatio > 1.0
    case Pending => false
  }

  function Opposite(verdict: Verdict): Verdict {
    match verdict
    case Reject => Accept
    case Accept => Reject
    case Pending => Pending
  }

  /** What these votes, and any with more samples, keep from getting the other verdict:
      a negative sample that no ratio of 1 forgives, or enough votes where none is asked. */
  ghost predicate Settled(c: Settings, verdict: Verdict, votes: nat, size: nat) {
    match verdict
    case Reject => c.minPositiveRatio > 1.0 || (c.minPositiveRatio == 1.0 && votes < size)
    case Accept => c.minPositiveRatio <= 0.0 && votes >= c.confirmations
    case Pending => false
  }

  lemma QuotientAround(votes: nat, size: nat)
    requires votes <= size && size > 0
    ensures 0.0 <= votes as real / size as real <= 1.0
    ensures votes as real / size as real == 1.0 <==> votes == size
  {
    var q := votes as real / size as real;
    assert q * size as real == votes as real;
    EarlyStopping.QuotientAtLeast(votes as real, size as real, 1.0);
    EarlyStopping.QuotientAtLeast(votes as real, size as real, 0.0);
    if votes == size {
      SelfQuotient(size as real);
    }
  }

  lemma TallySettles(c: Settings, verdict: Verdict, votes: nat, size: nat)
    requires Clamped(c) && IsFinal(c, verdict) && votes <= size && size > 0 && Tally(c, votes, size) == verdict
    ensures Settled(c, verdict, votes, size)
  {
    QuotientAround(votes, size);
  }

  lemma SettledIsFinal(c: Settings, verdict: Verdict, votes: nat, size: nat)
    requires Clamped(c) && Settled(c, verdict, votes, size) && votes <= size && size > 0
    ensures Tally(c, votes, size) != Opposite(verdict)
  {
    QuotientAround(votes, size);
  }

  ghost predicate Settles(c: Settings, verdict: Verdict, samples: seq<Prediction>) {
    Settled(c, verdict, EarlyStopping.Votes(samples), |samples|)
  }

  lemma VerdictSettles(c: Settings, verdict: Verdict, samples: seq<Prediction>)
    requires Clamped(c) && IsFinal(c, verdict) && samples != [] && Decide(c, samples).verdict == verdict
    ensures Settles(c, verdict, samples)
  {
    TallySettles(c, verdict, EarlyStopping.Votes(samples), |samples|);
  }

  lemma StaysSettled(c: Settings, verdict: Verdict, samples: seq<Prediction>, p: Prediction)
    requires Clamped(c) && Settles(c, verdict, samples)
    ensures Settles(c, verdict, samples + [p])
  {
    VotesAppend(samples, p);
  }

  /** The samples of an object keep what its verdicts settled. */
  ghost predicate KeepsSettled(c: Settings, verdict: Verdict, g: Gate, answers: seq<Decision>, o: string)
    requires Clamped(c)
  {
    Heard(answers, verdict) ==> Settles(c, verdict, SamplesOf(g, o))
  }

  lemma AskKeepsSettled(c: Settings, verdict: Verdict, g: Gate, e: Event, answers: seq<Decision>, o: string)
    requires Clamped(c) && IsFinal(c, verdict) && e.Ask? && KeepsSettled(c, verdict, g, answers, o)
    ensures KeepsSettled(c, verdict, Next(c, g, e), if e.id == o then answers + [Answer(c, g, e)] else answers, o)
  {
    if e.id == o {
      HeardAppend(answers, Answer(c, g, e), verdict);
    }
    if e.id == o && IsCounted(c, g, e) {
      CountedAnswer(c, g, e);
      if Heard(answers, verdict) {
        StaysSettled(c, verdict, SamplesOf(g, o), e.prediction);
      } else if Answer(c, g, e).verdict == verdict {
        VerdictSettles(c, verdict, SamplesOf(g, o) + [e.prediction]);
      }
    } else {
      UncountedKeepsSamples(c, g, e, o);
      if e.id == o {
        UncountedIsPending(c, g, e);
      }
    }
  }

  lemma {:induction false} RunKeepsSettled(c: Settings, verdict: Verdict, es: seq<Event>, o: string)
    requires Clamped(c) && IsFinal(c, verdict)
    ensures KeepsSettled(c, verdict, Run(c, es), AnswersSince(c, es, o), o)
  {
    if es != [] {
      var n := |es| - 1;
      RunKeepsSettled(c, verdict, es[..n], o);
      match es[n] {
        case Ask(_, _, _, _) =>
          AskKeepsSettled(c, verdict, Run(c, es[..n]), es[n], AnswersSince(c, es[..n], o), o);
        case Keep(active) => KeepsSamples(c, Run(c, es[..n]), active, o);
        case _ =>
      }
    }
  }

  lemma SettledAnswer(c: Settings, verdict: Verdict, g: Gate, e: Event)
    requires Clamped(c) && e.Ask? && verdict != Pending && Settles(c, verdict, SamplesOf(g, e.id))
    ensures Answer(c, g, e).verdict != Opposite(verdict)
  {
    if IsCounted(c, g, e) {
      CountedAnswer(c, g, e);
      var samples := SamplesOf(g, e.id) + [e.prediction];
      StaysSettled(c, verdict, SamplesOf(g, e.id), e.prediction);
      SettledIsFinal(c, verdict, EarlyStopping.Votes(samples), |samples|);
    } else {
      UncountedIsPending(c, g, e);
    }
  }

  lemma FinalNeverReversed(c: Settings, verdict: Verdict)
    requires Clamped(c) && IsFinal(c, verdict)
    ensures NeverFollows(c, verdict, Opposite(verdict))
  {
    forall es: seq<Event>, e: Event | e.Ask? && Heard(AnswersSince(c, es, e.id), verdict)
      ensures Answer(c, Run(c, es), e).verdict != Opposite(verdict)
    {
      RunKeepsSettled(c, verdict, es, e.id);
      SettledAnswer(c, verdict, Run(c, es), e);
    }
  }

  // ---- the runs that reverse a verdict ----

  /** The answers are the votes over one, two, ... of the samples. */
  ghost predicate AreVotes(c: Settings, answers: seq<Decision>, samples: seq<Prediction>)
    requires Clamped(c)
  {
    |answers| <= |samples| && forall i :: 0 <= i < |answers| ==> answers[i] == Decide(c, samples[..i + 1])
  }

  lemma AnswersStep(c: Settings, es: seq<Event>, o: string, n: nat)
    requires Clamped(c) && Steady(c, es, o) && 0 < n <= |es|
    ensures AnswersSince(c, es[..n], o) == AnswersSince(c, es[..n - 1], o) + [Answer(c, Run(c, es[..n - 1]), es[n - 1])]
  {
    assert es[..n][..n - 1] == es[..n - 1];
  }

  lemma AreVotesStep(c: Settings, answers: seq<Decision>, samples: seq<Prediction>, d: Decision)
    requires Clamped(c) && AreVotes(c, answers, samples) && |answers| < |samples|
    requires d == Decide(c, samples[..|answers| + 1])
    ensures AreVotes(c, answers + [d], samples)
  {
  }

  ghost predicate VotedSoFar(c: Settings, es: seq<Event>, o: string, n: nat)
    requires Clamped(c) && Steady(c, es, o) && n <= |es|
  {
    |AnswersSince(c, es[..n], o)| == n && AreVotes(c, AnswersSince(c, es[..n], o), Asked(es))
  }

  lemma VotedOnceMore(c: Settings, es: seq<Event>, o: string, n: nat)
    requires Clamped(c) && Steady(c, es, o) && 0 < n <= |es| && VotedSoFar(c, es, o, n - 1)
    ensures VotedSoFar(c, es, o, n)
  {
    var before, d := AnswersSince(c, es[..n - 1], o), Answer(c, Run(c, es[..n - 1]), es[n - 1]);
    AnswersStep(c, es, o, n);
    SteadyAnswer(c, es, o, n - 1);
    AreVotesStep(c, before, Asked(es), d);
  }

  lemma SteadyAnswers(c: Settings, es: seq<Event>, o: string, n: nat)
    requires Clamped(c) && Steady(c, es, o) && n <= |es|
    ensures VotedSoFar(c, es, o, n)
  {
    var flags := seq(|es| + 1, k requires 0 <= k <= |es| => VotedSoFar(c, es, o, k));
    assert es[..0] == [];
    forall k | 0 < k < |flags| && flags[k - 1] ensures flags[k] {
      VotedOnceMore(c, es, o, k);
    }
    StaysTrue(flags, 0, n);
  }

  /** Samples whose first `n` bring one verdict and all of them the other. */
  ghost predicate Reverses(c: Settings, samples: seq<Prediction>, n: nat, verdict: Verdict)
    requires Clamped(c)
  {
    && 0 < n < |samples| && (forall i :: 0 <= i < |samples| ==> samples[i].isTarget.Some?)
    && Decide(c, samples[..n]).verdict == verdict && Decide(c, samples).verdict == Opposite(verdict)
  }

  lemma FollowsRefutes(c: Settings, es: seq<Event>, e: Event, verdict: Verdict)
    requires Clamped(c) && e.Ask? && Heard(AnswersSince(c, es, e.id), verdict)
    requires Answer(c, Run(c, es), e).verdict == Opposite(verdict)
    ensures !NeverFollows(c, verdict, Opposite(verdict))
  {
  }

  lemma HeardAt(c: Settings, answers: seq<Decision>, samples: seq<Prediction>, n: nat, verdict: Verdict)
    requires Clamped(c) && AreVotes(c, answers, samples) && 0 < n <= |answers|
    requires Decide(c, samples[..n]).verdict == verdict
    ensures Heard(answers, verdict)
  {
    assert answers[n - 1].verdict == verdict;
  }

  /** A steady run about such samples reverses the verdict. */
  lemma SteadyReverses(c: Settings, es: seq<Event>, o: string, n: nat, verdict: Verdict)
    requires Clamped(c) && Steady(c, es, o) && Reverses(c, Asked(es), n, verdict)
    ensures !NeverFollows(c, verdict, Opposite(verdict))
  {
    var last := |es| - 1;
    SteadyAnswers(c, es, o, last);
    SteadyAnswer(c, es, o, last);
    assert Asked(es)[..last + 1] == Asked(es);
    HeardAt(c, AnswersSince(c, es[..last], o), Asked(es), n, verdict);
    FollowsRefutes(c, es[..last], es[last], verdict);
  }

  /** Asking about them one interval apart is such a run. */
  lemma ReversalRefutes(c: Settings, samples: seq<Prediction>, n: nat, verdict: Verdict, o: string)
    requires Clamped(c) && Reverses(c, samples, n, verdict)
    ensures !NeverFollows(c, verdict, Opposite(verdict))
  {
    AskAllIsSteady(c, samples, o);
    SteadyReverses(c, AskAll(c, samples, o), o, n, verdict);
  }

  /** Enough votes to lift, or enough misses to press, the ratio across any bound. */
  lemma EnoughFor(x: real, d: real) returns (n: nat)
    requires d > 0.0
    ensures n as real * d >= x
  {
    var q := x / d;
    assert q * d == x;
    n := Max(0, q.Floor + 1);
    if n as real - q > 0.0 {
      assert (n as real - q) * d == n as real * d - q * d;
      Geometry.ProductPositive(n as real - q, d);
    }
  }

  function Then(first: Prediction, n: nat, second: Prediction, m: nat): (r: seq<Prediction>)
    ensures |r| == n + m
  {
    EarlyStopping.Repeat(first, n) + EarlyStopping.Repeat(second, m)
  }

  lemma VotesOfThen(first: Prediction, n: nat, second: Prediction, m: nat)
    ensures EarlyStopping.Votes(Then(first, n, second, m))
         == (if IsPositive(first) then n else 0) + (if IsPositive(second) then m else 0)
    ensures Then(first, n, second, m)[..n] == EarlyStopping.Repeat(first, n)
    ensures EarlyStopping.Votes(EarlyStopping.Repeat(first, n)) == if IsPositive(first) then n else 0
    ensures forall p :: p in Then(first, n, second, m) ==> p == first || p == second
  {
    EarlyStopping.VotesConcat(EarlyStopping.Repeat(first, n), EarlyStopping.Repeat(second, m));
    EarlyStopping.VotesOfRepeat(first, n);
    EarlyStopping.VotesOfRepeat(second, m);
    forall i | 0 <= i < n ensures EarlyStopping.Repeat(first, n)[i] == first {
      RepeatIs(first, n, i);
    }
    forall i | 0 <= i < m ensures EarlyStopping.Repeat(second, m)[i] == second {
      RepeatIs(second, m, i);
    }
  }

  lemma TalliesReverse(c: Settings, samples: seq<Prediction>, n: nat, verdict: Verdict, some: nat, all: nat)
    requires Clamped(c) && 0 < n < |samples| && forall i :: 0 <= i < |samples| ==> samples[i].isTarget.Some?
    requires EarlyStopping.Votes(samples[..n]) == some && EarlyStopping.Votes(samples) == all
    requires Tally(c, some, n) == verdict && Tally(c, all, |samples|) == Opposite(verdict)
    ensures Reverses(c, samples, n, verdict)
  {
  }

  lemma ThenAvailable(first: Prediction, n: nat, second: Prediction, m: nat)
    requires first.isTarget.Some? && second.isTarget.Some?
    ensures forall i :: 0 <= i < n + m ==> Then(first, n, second, m)[i].isTarget.Some?
  {
    VotesOfThen(first, n, second, m);
    forall i | 0 <= i < n + m ensures Then(first, n, second, m)[i].isTarget.Some? {
      assert Then(first, n, second, m)[i] in Then(first, n, second, m);
    }
  }

  /** `maxSamples` negatives bring a reject; enough positives after them an accept. */
  lemma RejectReversed(c: Settings) returns (m: nat)
    requires Clamped(c) && c.minPositiveRatio < 1.0
    ensures m > 0 && Reverses(c, Then(EarlyStopping.NO, c.maxSamples, EarlyStopping.YES, m), c.maxSamples, Reject)
  {
    var extra := EnoughFor(c.maxSamples as real, 1.0 - c.minPositiveRatio);
    m := c.confirmations + extra;
    RatioLifted(c.maxSamples, m, extra, c.minPositiveRatio);
    VotesOfThen(EarlyStopping.NO, c.maxSamples, EarlyStopping.YES, m);
    ThenAvailable(EarlyStopping.NO, c.maxSamples, EarlyStopping.YES, m);
    var samples := Then(EarlyStopping.NO, c.maxSamples, EarlyStopping.YES, m);
    TalliesReverse(c, samples, c.maxSamples, Reject, 0, m);
  }

  /** `confirmations` positives bring an accept; enough negatives after them a reject. */
  lemma AcceptReversed(c: Settings) returns (m: nat)
    requires Clamped(c) && 0.0 < c.minPositiveRatio <= 1.0
    ensures m > 0 && Reverses(c, Then(EarlyStopping.YES, c.confirmations, EarlyStopping.NO, m), c.confirmations, Accept)
  {
    var extra := EnoughFor(c.confirmations as real, c.minPositiveRatio);
    m := c.maxSamples + extra;
    SelfQuotient(c.confirmations as real);
    RatioPressed(c.confirmations, m, extra, c.minPositiveRatio);
    VotesOfThen(EarlyStopping.YES, c.confirmations, EarlyStopping.NO, m);
    ThenAvailable(EarlyStopping.YES, c.confirmations, EarlyStopping.NO, m);
    var samples := Then(EarlyStopping.YES, c.confirmations, EarlyStopping.NO, m);
    TalliesReverse(c, samples, c.confirmations, Accept, c.confirmations, c.confirmations);
  }

  lemma RatioPressed(n: nat, m: nat, extra: nat, r: real)
    requires 0.0 < r && n > 0 && m > extra && extra as real * r >= n as real
    ensures n as real / (n + m) as real < r
  {
    Geometry.ProductPositive((m - extra + n) as real, r);
    assert (m - extra + n) as real * r == r * (n + m) as real - extra as real * r;
    EarlyStopping.QuotientAtLeast(n as real, (n + m) as real, r);
  }

  lemma RatioLifted(n: nat, m: nat, extra: nat, r: real)
    requires r < 1.0 && m >= extra && m > 0 && extra as real * (1.0 - r) >= n as real
    ensures m as real / (n + m) as real >= r
  {
    Geometry.ProductMonotone(extra as real, 1.0 - r, m as real, 1.0 - r);
    assert m as real * (1.0 - r) == m as real - r * m as real;
    if r > 0.0 {
      Geometry.ProductMonotone(r, n as real, 1.0, n as real);
    }
    assert r * (n + m) as real == r * n as real + r * m as real;
    EarlyStopping.QuotientAtLeast(m as real, (n + m) as real, r);
  }

  /** When verdicts are final, over all runs: after a reject, with no drop since, an
      accept can still come exactly when the required ratio is below 1. */
  lemma RejectsAreFinalIff(c: Settings)
    requires Clamped(c)
    ensures NeverFollows(c, Reject, Accept) <==> c.minPositiveRatio >= 1.0
  {
    if c.minPositiveRatio >= 1.0 {
      FinalNeverReversed(c, Reject);
    } else {
      var m := RejectReversed(c);
      ReversalRefutes(c, Then(EarlyStopping.NO, c.maxSamples, EarlyStopping.YES, m), c.maxSamples, Reject, "o");
    }
  }

  /** After an accept a reject can still come exactly when the ratio asks for something
      that can be met. */
  lemma AcceptsAreFinalIff(c: Settings)
    requires Clamped(c)
    ensures NeverFollows(c, Accept, Reject) <==> c.minPositiveRatio <= 0.0 || c.minPositiveRatio > 1.0
  {
    if c.minPositiveRatio <= 0.0 || c.minPositiveRatio > 1.0 {
      FinalNeverReversed(c, Accept);
    } else {
      var m := AcceptReversed(c);
      ReversalRefutes(c, Then(EarlyStopping.YES, c.confirmations, EarlyStopping.NO, m), c.confirmations, Accept, "o");
    }
  }
}
