/** Whole runs of the gate: any interleaving of evaluations, forgets, retains and
    clears over any number of objects, under any clock. */
module GateRuns {
  import opened Prelude
  import opened TargetVerifier
  import opened GateVote
  import EarlyStopping

  datatype Event =
    | Ask(id: string, hasFrame: bool, now: real, prediction: Prediction)
    | Drop(id: string)
    | Reset
    | Keep(active: set<string>)

  function Next(c: Settings, g: Gate, e: Event): Gate
    requires Clamped(c)
  {
    match e
    case Ask(id, hasFrame, now, p) => After(c, g, id, hasFrame, now, p)
    case Drop(id) => Forget(g, id)
    case Reset => EMPTY
    case Keep(active) => Retain(g, active)
  }

  function Answer(c: Settings, g: Gate, e: Event): Decision
    requires Clamped(c) && e.Ask?
  {
    Reply(c, g, e.id, e.hasFrame, e.now, e.prediction)
  }

  function Run(c: Settings, es: seq<Event>): Gate
    requires Clamped(c)
  {
    if es == [] then EMPTY else Next(c, Run(c, es[..|es| - 1]), es[|es| - 1])
  }

  /** The decisions object `o` receives, in order. */
  function AnswersTo(c: Settings, es: seq<Event>, o: string): seq<Decision>
    requires Clamped(c)
  {
    if es == [] then []
    else
      var front, e := es[..|es| - 1], es[|es| - 1];
      AnswersTo(c, front, o) + if e.Ask? && e.id == o then [Answer(c, Run(c, front), e)] else []
  }

  // ---- the dictionaries ----

  /** Samples exist only for objects with a sampling time, and are never empty. */
  ghost predicate KeysNested(g: Gate) {
    && g.samples.Keys <= g.lastSampleAt.Keys
    && (forall id :: id in g.samples ==> g.samples[id] != [])
  }

  lemma {:induction false} ReachableKeysNested(c: Settings, es: seq<Event>)
    requires Clamped(c)
    ensures KeysNested(Run(c, es))
  {
    if es != [] {
      ReachableKeysNested(c, es[..|es| - 1]);
    }
  }

  // ---- non-interference ----

  /** What the gate knows about one object. */
  datatype Slot = Slot(samples: Option<seq<Prediction>>, last: Option<real>)

  function SlotOf(g: Gate, o: string): Slot {
    Slot(if o in g.samples then Some(g.samples[o]) else None,
         if o in g.lastSampleAt then Some(g.lastSampleAt[o]) else None)
  }

  predicate Concerns(e: Event, o: string) {
    match e
    case Ask(id, _, _, _) => id == o
    case Drop(id) => id == o
    case Reset => true
    case Keep(_) => true
  }

  /** The event as a gate for `o` alone would receive it. */
  function Restrict(e: Event, o: string): Event {
    if e.Keep? then Keep(e.active * {o}) else e
  }

  function Project(es: seq<Event>, o: string): seq<Event> {
    if es == [] then []
    else
      var e := es[|es| - 1];
      Project(es[..|es| - 1], o) + if Concerns(e, o) then [Restrict(e, o)] else []
  }

  lemma StepIsLocal(c: Settings, g: Gate, g': Gate, e: Event, o: string)
    requires Clamped(c) && SlotOf(g, o) == SlotOf(g', o)
    ensures !Concerns(e, o) ==> SlotOf(Next(c, g, e), o) == SlotOf(g', o)
    ensures Concerns(e, o) ==> SlotOf(Next(c, g, e), o) == SlotOf(Next(c, g', Restrict(e, o)), o)
    ensures e.Ask? && e.id == o ==> Answer(c, g, e) == Answer(c, g', e)
  {
    if e.Ask? && e.id == o {
      assert SamplesOf(g, o) == SamplesOf(g', o);
    }
  }

  lemma {:induction false} SlotsAgree(c: Settings, es: seq<Event>, o: string)
    requires Clamped(c)
    ensures SlotOf(Run(c, es), o) == SlotOf(Run(c, Project(es, o)), o)
  {
    if es != [] {
      var front, e := es[..|es| - 1], es[|es| - 1];
      var p := Project(front, o);
      SlotsAgree(c, front, o);
      StepIsLocal(c, Run(c, front), Run(c, p), e, o);
      if Concerns(e, o) {
        RunAppend(c, p, Restrict(e, o));
      } else {
        assert Project(es, o) == p;
      }
    }
  }

  lemma RunAppend(c: Settings, es: seq<Event>, e: Event)
    requires Clamped(c)
    ensures Run(c, es + [e]) == Next(c, Run(c, es), e)
  {
    assert (es + [e])[..|es|] == es;
  }

  lemma AnswersAppend(c: Settings, es: seq<Event>, e: Event, o: string)
    requires Clamped(c)
    ensures AnswersTo(c, es + [e], o)
         == AnswersTo(c, es, o) + if e.Ask? && e.id == o then [Answer(c, Run(c, es), e)] else []
  {
    assert (es + [e])[..|es|] == es;
  }

  /** Objects do not influence each other: in any interleaving, the decisions about
      `o` are those of a gate that only ever saw the events about `o`. */
  lemma {:induction false} NonInterference(c: Settings, es: seq<Event>, o: string)
    requires Clamped(c)
    ensures AnswersTo(c, es, o) == AnswersTo(c, Project(es, o), o)
  {
    if es != [] {
      var front, e := es[..|es| - 1], es[|es| - 1];
      var p := Project(front, o);
      NonInterference(c, front, o);
      if e.Ask? && e.id == o {
        SlotsAgree(c, front, o);
        StepIsLocal(c, Run(c, front), Run(c, p), e, o);
        AnswersAppend(c, p, e, o);
      } else if Concerns(e, o) {
        AnswersAppend(c, p, Restrict(e, o), o);
      } else {
        assert Project(es, o) == p;
      }
    }
  }

  /** The projected run really is about one object. */
  lemma {:induction false} ProjectionMentionsOnly(es: seq<Event>, o: string)
    ensures forall e :: e in Project(es, o) ==>
      match e
      case Ask(id, _, _, _) => id == o
      case Drop(id) => id == o
      case Reset => true
      case Keep(active) => active <= {o}
  {
    if es != [] {
      ProjectionMentionsOnly(es[..|es| - 1], o);
    }
  }

  // ---- which evaluations count ----

  predicate IsCounted(c: Settings, g: Gate, e: Event) {
    e.Ask? && e.hasFrame && !TooSoon(c, g, e.id, e.now) && e.prediction.isTarget.Some?
  }

  /** One counted evaluation. */
  datatype Taken = Taken(now: real, prediction: Prediction)

  /** The counted evaluations of `o` since it was last dropped, in order. */
  function Counted(c: Settings, es: seq<Event>, o: string): seq<Taken>
    requires Clamped(c)
  {
    if es == [] then []
    else
      var n := |es| - 1;
      var before, g := Counted(c, es[..n], o), Run(c, es[..n]);
      match es[n]
      case Ask(id, _, now, p) => if id == o && IsCounted(c, g, es[n]) then before + [Taken(now, p)] else before
      case Drop(id) => if id == o then [] else before
      case Reset => []
      case Keep(active) => if o in g.samples && o !in active then [] else before
  }

  /** They are events of the run, asked with a frame and answered. */
  lemma {:induction false} CountedWereAsked(c: Settings, es: seq<Event>, o: string, t: Taken)
    requires Clamped(c) && t in Counted(c, es, o)
    ensures Ask(o, true, t.now, t.prediction) in es && t.prediction.isTarget.Some?
  {
    var n := |es| - 1;
    if t in Counted(c, es[..n], o) {
      CountedWereAsked(c, es[..n], o, t);
    } else {
      assert es[n] == Ask(o, true, t.now, t.prediction);
    }
  }

  function Predictions(ts: seq<Taken>): (r: seq<Prediction>)
    ensures |r| == |ts|
  {
    seq(|ts|, i requires 0 <= i < |ts| => ts[i].prediction)
  }

  /** Each evaluation comes at least one sampling interval after the one before. */
  ghost predicate Spaced(c: Settings, ts: seq<Taken>) {
    forall i :: 0 < i < |ts| ==> ts[i].now - ts[i - 1].now >= c.sampleInterval
  }

  /** The gate's record of `o` agrees with the counted evaluations. */
  ghost predicate Recorded(c: Settings, g: Gate, ts: seq<Taken>, o: string) {
    && Spaced(c, ts)
    && SamplesOf(g, o) == Predictions(ts)
    && (o in g.samples <==> ts != [])
    && (ts != [] ==> o in g.lastSampleAt && ts[|ts| - 1].now <= g.lastSampleAt[o])
  }

  lemma CountedRecorded(c: Settings, g: Gate, ts: seq<Taken>, o: string, now: real, p: Prediction)
    requires Clamped(c) && Recorded(c, g, ts, o) && IsCounted(c, g, Ask(o, true, now, p))
    ensures Recorded(c, After(c, g, o, true, now, p), ts + [Taken(now, p)], o)
  {
    assert Predictions(ts + [Taken(now, p)]) == Predictions(ts) + [p];
  }

  lemma UncountedRecorded(c: Settings, g: Gate, ts: seq<Taken>, o: string, e: Event)
    requires Clamped(c) && Recorded(c, g, ts, o) && e.Ask? && !(e.id == o && IsCounted(c, g, e))
    ensures Recorded(c, Next(c, g, e), ts, o)
  {
    var g' := Next(c, g, e);
    assert SamplesOf(g', o) == SamplesOf(g, o);
    assert ts != [] ==> g'.lastSampleAt[o] >= g.lastSampleAt[o];
  }

  lemma {:induction false} RunRecorded(c: Settings, es: seq<Event>, o: string)
    requires Clamped(c)
    ensures Recorded(c, Run(c, es), Counted(c, es, o), o)
  {
    if es != [] {
      var n := |es| - 1;
      var before, g, e := Counted(c, es[..n], o), Run(c, es[..n]), es[n];
      RunRecorded(c, es[..n], o);
      if e.Ask? {
        if e.id == o && IsCounted(c, g, e) {
          CountedRecorded(c, g, before, o, e.now, e.prediction);
        } else {
          UncountedRecorded(c, g, before, o, e);
        }
      }
    }
  }

  lemma {:induction false} SpacedSpan(c: Settings, ts: seq<Taken>)
    requires Spaced(c, ts) && ts != []
    ensures ts[|ts| - 1].now - ts[0].now >= Times(|ts| - 1, c.sampleInterval)
  {
    var n := |ts| - 1;
    if n > 0 {
      assert ts[n].now - ts[n - 1].now >= c.sampleInterval;
      SpacedSpan(c, ts[..n]);
    }
  }

  /** The samples behind the decision on event `e` after run `es`. */
  function Evidence(c: Settings, es: seq<Event>, e: Event): seq<Taken>
    requires Clamped(c) && e.Ask?
  {
    Counted(c, es + [e], e.id)
  }

  lemma VerdictNeedsSample(c: Settings, g: Gate, e: Event)
    requires Clamped(c) && e.Ask? && Answer(c, g, e).verdict != Pending
    ensures e.hasFrame && IsCounted(c, g, e)
    ensures Answer(c, g, e) == Decide(c, SamplesOf(g, e.id) + [e.prediction])
  {
  }

  lemma CountedAppend(c: Settings, es: seq<Event>, e: Event)
    requires Clamped(c) && IsCounted(c, Run(c, es), e)
    ensures Counted(c, es + [e], e.id) == Counted(c, es, e.id) + [Taken(e.now, e.prediction)]
  {
    assert (es + [e])[..|es|] == es;
  }

  /** A decision other than pending is the vote over the counted samples, whose
      last one is this evaluation; an unavailable prediction is never counted. */
  lemma DecisionIsVote(c: Settings, es: seq<Event>, e: Event)
    requires Clamped(c) && e.Ask? && Answer(c, Run(c, es), e).verdict != Pending
    ensures var ts := Evidence(c, es, e);
      && ts != [] && ts[|ts| - 1] == Taken(e.now, e.prediction)
      && Spaced(c, ts)
      && Answer(c, Run(c, es), e) == Decide(c, Predictions(ts))
  {
    var before, g := Counted(c, es, e.id), Run(c, es);
    VerdictNeedsSample(c, g, e);
    CountedAppend(c, es, e);
    RunRecorded(c, es, e.id);
    CountedRecorded(c, g, before, e.id, e.now, e.prediction);
    assert Predictions(before + [Taken(e.now, e.prediction)]) == SamplesOf(g, e.id) + [e.prediction];
  }

  lemma AcceptHasVotes(c: Settings, samples: seq<Prediction>)
    requires Clamped(c) && samples != [] && Decide(c, samples).verdict == Accept
    ensures |Positives(samples)| >= c.confirmations
  {
  }

  /** Accepting takes time and agreement.  Whatever the clock does, an object
      accepted at `e.now` has at least `confirmations` positive samples since it was
      last dropped, and the first of its samples is at least
      `(confirmations - 1) * sampleInterval` older. */
  lemma AcceptNeedsElapsedTime(c: Settings, es: seq<Event>, e: Event)
    requires Clamped(c) && e.Ask? && Answer(c, Run(c, es), e).verdict == Accept
    ensures var ts := Evidence(c, es, e);
      && ts != [] && |Positives(Predictions(ts))| >= c.confirmations
      && e.now - ts[0].now >= (c.confirmations - 1) as real * c.sampleInterval
  {
    var ts := Evidence(c, es, e);
    DecisionIsVote(c, es, e);
    AcceptHasVotes(c, Predictions(ts));
    SpanOfConfirmations(c, ts);
  }

  lemma SpanOfConfirmations(c: Settings, ts: seq<Taken>)
    requires Clamped(c) && Spaced(c, ts) && |ts| >= c.confirmations
    ensures ts[|ts| - 1].now - ts[0].now >= (c.confirmations - 1) as real * c.sampleInterval
  {
    SpacedSpan(c, ts);
    TimesMonotone(c.confirmations - 1, |ts| - 1, c.sampleInterval);
    TimesIsProduct(c.confirmations - 1, c.sampleInterval);
  }

  /** By its `maxSamples`-th counted sample every object has a verdict. */
  lemma VerdictWithinMaxSamples(c: Settings, es: seq<Event>, e: Event)
    requires Clamped(c) && IsCounted(c, Run(c, es), e)
    requires |SamplesOf(Run(c, es), e.id)| + 1 >= c.maxSamples
    ensures Answer(c, Run(c, es), e).verdict != Pending
  {
    EarlyStopping.DecidedAtMaxSamples(c, SamplesOf(Run(c, es), e.id) + [e.prediction]);
  }

  // ---- early stopping inside runs ----

  /** The answers `o` received since it was last dropped. */
  function AnswersSince(c: Settings, es: seq<Event>, o: string): seq<Decision>
    requires Clamped(c)
  {
    if es == [] then []
    else
      var n := |es| - 1;
      var before, g := AnswersSince(c, es[..n], o), Run(c, es[..n]);
      match es[n]
      case Ask(id, _, _, _) => if id == o then before + [Answer(c, g, es[n])] else before
      case Drop(id) => if id == o then [] else before
      case Reset => []
      case Keep(active) => if o in g.samples && o !in active then [] else before
  }

  /** The vote over the stored samples is one of the answers. */
  ghost predicate VoteAnswered(c: Settings, g: Gate, answers: seq<Decision>, o: string)
    requires Clamped(c)
  {
    SamplesOf(g, o) != [] ==> Decide(c, SamplesOf(g, o)) in answers
  }

  lemma CountedAnswer(c: Settings, g: Gate, e: Event)
    requires Clamped(c) && IsCounted(c, g, e)
    ensures SamplesOf(Next(c, g, e), e.id) == SamplesOf(g, e.id) + [e.prediction]
    ensures Answer(c, g, e) == Decide(c, SamplesOf(g, e.id) + [e.prediction])
  {
  }

  lemma UncountedKeepsSamples(c: Settings, g: Gate, e: Event, o: string)
    requires Clamped(c) && e.Ask? && !(e.id == o && IsCounted(c, g, e))
    ensures SamplesOf(Next(c, g, e), o) == SamplesOf(g, o)
  {
  }

  lemma VoteAnsweredAsk(c: Settings, g: Gate, e: Event, answers: seq<Decision>, o: string)
    requires Clamped(c) && e.Ask? && VoteAnswered(c, g, answers, o)
    ensures VoteAnswered(c, Next(c, g, e), if e.id == o then answers + [Answer(c, g, e)] else answers, o)
  {
    if e.id == o && IsCounted(c, g, e) {
      CountedAnswer(c, g, e);
    } else {
      UncountedKeepsSamples(c, g, e, o);
    }
  }

  lemma KeepsSamples(c: Settings, g: Gate, active: set<string>, o: string)
    requires Clamped(c)
    ensures SamplesOf(Next(c, g, Keep(active)), o) == if o in active then SamplesOf(g, o) else []
  {
  }

  lemma {:induction false} RunVoteAnswered(c: Settings, es: seq<Event>, o: string)
    requires Clamped(c)
    ensures VoteAnswered(c, Run(c, es), AnswersSince(c, es, o), o)
  {
    if es != [] {
      var n := |es| - 1;
      RunVoteAnswered(c, es[..n], o);
      match es[n] {
        case Ask(_, _, _, _) => VoteAnsweredAsk(c, Run(c, es[..n]), es[n], AnswersSince(c, es[..n], o), o);
        case Keep(active) => KeepsSamples(c, Run(c, es[..n]), active, o);
        case _ =>
      }
    }
  }

  /** No answer since the last drop was a verdict. */
  ghost predicate StillPending(c: Settings, es: seq<Event>, o: string)
    requires Clamped(c)
  {
    forall d :: d in AnswersSince(c, es, o) ==> d.verdict == Pending
  }

  lemma FewSamplesWhilePending(c: Settings, es: seq<Event>, o: string)
    requires Clamped(c) && StillPending(c, es, o)
    ensures |Counted(c, es, o)| < c.maxSamples
  {
    RunVoteAnswered(c, es, o);
    RunRecorded(c, es, o);
    var samples := SamplesOf(Run(c, es), o);
    if |samples| >= c.maxSamples {
      EarlyStopping.DecidedAtMaxSamples(c, samples);
    }
  }

  /** Early stopping inside runs: the first verdict an object gets since it was last
      dropped comes within `maxSamples` samples, and when the ratio rule cannot veto it
      is accept exactly when every completion of those samples confirms, and reject
      exactly when none does. */
  lemma EarlyVerdictInRuns(c: Settings, es: seq<Event>, e: Event)
    requires Clamped(c) && e.Ask? && StillPending(c, es, e.id) && Answer(c, Run(c, es), e).verdict != Pending
    ensures var samples, verdict := Predictions(Evidence(c, es, e)), Answer(c, Run(c, es), e).verdict;
      && 1 <= |samples| <= c.maxSamples
      && (EarlyStopping.RatioNeverVetoes(c) ==>
            && (verdict == Accept <==> EarlyStopping.EveryCompletionConfirms(c, samples))
            && (verdict == Reject <==> EarlyStopping.NoCompletionConfirms(c, samples)))
  {
    DecisionIsVote(c, es, e);
    FewSamplesWhilePending(c, es, e.id);
    VerdictNeedsSample(c, Run(c, es), e);
    CountedAppend(c, es, e);
    if EarlyStopping.RatioNeverVetoes(c) {
      EarlyStopping.VerdictReadsCompletions(c, Predictions(Evidence(c, es, e)));
    }
  }

  /** `labelName` is the most frequent label of `samples`; among equally frequent
      ones it is the one seen first. */
  ghost predicate IsPlurality(samples: seq<Prediction>, labelName: string) {
    exists r :: 0 <= r < |samples| && samples[r].labelName == labelName
      && (forall i :: 0 <= i < |samples| ==>
        CountLabel(samples, samples[i].labelName) <= CountLabel(samples, labelName))
      && (forall i :: 0 <= i < r ==> CountLabel(samples, samples[i].labelName) < CountLabel(samples, labelName))
  }

  lemma {:induction false} SumAtLeast(samples: seq<Prediction>, bound: real)
    requires forall p :: p in samples ==> p.confidence >= bound
    ensures SumConfidence(samples) >= Times(|samples|, bound)
  {
    if samples != [] {
      var n := |samples| - 1;
      assert samples[n] in samples;
      SumAtLeast(samples[..n], bound);
    }
  }

  lemma MeanAtLeast(samples: seq<Prediction>, bound: real)
    requires samples != [] && forall p :: p in samples ==> p.confidence >= bound
    ensures MeanConfidence(samples) >= bound
  {
    SumAtLeast(samples, bound);
    TimesIsProduct(|samples|, bound);
    EarlyStopping.QuotientAtLeast(SumConfidence(samples), |samples| as real, bound);
  }

  lemma {:induction false} LabelOccurs(samples: seq<Prediction>, i: nat)
    requires i < |samples|
    ensures CountLabel(samples, samples[i].labelName) > 0
  {
    if i < |samples| - 1 {
      LabelOccurs(samples[..|samples| - 1], i);
    }
  }

  lemma AcceptedMeaning(v: Verifier, samples: seq<Prediction>)
    requires Positives(samples) != [] && forall p :: p in samples ==> Trustworthy(v, p)
    ensures var d := Accepted(Positives(samples));
      && IsTargetLabel(v, d.labelName)
      && IsPlurality(Positives(samples), d.labelName)
      && d.confidence >= v.minConfidence
  {
    var positives := Positives(samples);
    var r := MostCommonAt(positives, |positives|);
    var labelName := positives[r].labelName;
    forall p | p in positives ensures IsTargetLabel(v, p.labelName) && p.confidence >= v.minConfidence {
      PositivesMember(samples, p);
    }
    assert positives[r] in positives;
    LabelOccurs(positives, r);
    forall p | p in WithLabel(positives, labelName) ensures p.confidence >= v.minConfidence {
      WithLabelMember(positives, labelName, p);
    }
    MeanAtLeast(WithLabel(positives, labelName), v.minConfidence);
  }

  /** Every prediction of the run came out of the verifier. */
  ghost predicate FromVerifier(v: Verifier, es: seq<Event>) {
    forall e :: e in es && e.Ask? ==> exists o: Output :: WellShaped(o) && e.prediction == Verify(v, o)
  }

  lemma EvidenceTrustworthy(c: Settings, v: Verifier, es: seq<Event>, o: string)
    requires Clamped(c) && v.minConfidence > 0.0 && FromVerifier(v, es)
    ensures forall p :: p in Predictions(Counted(c, es, o)) ==> Trustworthy(v, p)
  {
    var ts := Counted(c, es, o);
    forall p | p in Predictions(ts) ensures Trustworthy(v, p) {
      var i :| 0 <= i < |ts| && Predictions(ts)[i] == p;
      CountedWereAsked(c, es, o, ts[i]);
      var e := Ask(o, true, ts[i].now, p);
      assert e in es && e.Ask?;
      var output: Output :| WellShaped(output) && e.prediction == Verify(v, output);
      PositiveThresholdIsTrustworthy(v, output);
    }
  }

  /** End to end: with a positive confidence threshold, an accept carries the
      plurality label of the positive samples, that label is a configured target,
      and the reported confidence is at least the verifier's threshold. */
  lemma AcceptNamesATarget(c: Settings, v: Verifier, es: seq<Event>, e: Event)
    requires Clamped(c) && v.minConfidence > 0.0
    requires e.Ask? && FromVerifier(v, es + [e]) && Answer(c, Run(c, es), e).verdict == Accept
    ensures var d := Answer(c, Run(c, es), e);
      && IsTargetLabel(v, d.labelName)
      && IsPlurality(Positives(Predictions(Evidence(c, es, e))), d.labelName)
      && d.confidence >= v.minConfidence
  {
    DecisionIsVote(c, es, e);
    EvidenceTrustworthy(c, v, es + [e], e.id);
    AcceptedMeaning(v, Predictions(Evidence(c, es, e)));
  }

  // ---- what retain leaves behind ----

  /** After `retain` no inactive object is known at all, if and only if every inactive
      object with a sampling time had samples. */
  lemma RetainIsCompleteIff(g: Gate, active: set<string>)
    requires KeysNested(g)
    ensures Retain(g, active).samples.Keys <= active
    ensures Retain(g, active).lastSampleAt.Keys <= active
       <==> forall id :: id in g.lastSampleAt && id !in active ==> id in g.samples
  {
    var g' := Retain(g, active);
    forall id ensures id in g'.lastSampleAt <==> id in g.lastSampleAt && (id in active || id !in g.samples) {
    }
  }

  /** The verifier is asked about `o`: there is a frame and the interval has passed. */
  predicate IsAdmitted(c: Settings, g: Gate, e: Event, o: string) {
    e.Ask? && e.id == o && e.hasFrame && !TooSoon(c, g, o, e.now)
  }

  /** The predictions the verifier gave about `o` since it was last dropped, with their
      times. */
  function Given(c: Settings, es: seq<Event>, o: string): seq<Taken>
    requires Clamped(c)
  {
    if es == [] then []
    else
      var n := |es| - 1;
      var before, g := Given(c, es[..n], o), Run(c, es[..n]);
      match es[n]
      case Ask(_, _, now, p) => if IsAdmitted(c, g, es[n], o) then before + [Taken(now, p)] else before
      case Drop(id) => if id == o then [] else before
      case Reset => []
      case Keep(active) => if o in g.samples && o !in active then [] else before
  }

  ghost predicate AllUnavailable(ts: seq<Taken>) {
    forall i :: 0 <= i < |ts| ==> ts[i].prediction.isTarget.None?
  }

  /** In any run an object has a sampling time exactly when the verifier was asked about
      it since it was last dropped, and it is the time of the last such question; and it
      has samples exactly when some answer was available.  So a sampling time that `retain`
      passes over belongs to an object for which every answer was unavailable. */
  lemma {:induction false} KnownObjects(c: Settings, es: seq<Event>, o: string)
    requires Clamped(c)
    ensures var g, ts := Run(c, es), Given(c, es, o);
      && (o in g.lastSampleAt <==> ts != []) && (ts != [] ==> g.lastSampleAt[o] == ts[|ts| - 1].now)
      && (o in g.samples <==> !AllUnavailable(ts))
  {
    if es != [] {
      var n := |es| - 1;
      KnownObjects(c, es[..n], o);
      KnownStep(c, Run(c, es[..n]), es[n], Given(c, es[..n], o), o);
    }
  }

  /** `ts` are the answers behind what the gate knows about `o`. */
  ghost predicate KnownFrom(g: Gate, ts: seq<Taken>, o: string) {
    && (o in g.lastSampleAt <==> ts != []) && (ts != [] ==> g.lastSampleAt[o] == ts[|ts| - 1].now)
    && (o in g.samples <==> !AllUnavailable(ts))
  }

  lemma KnownStep(c: Settings, g: Gate, e: Event, ts: seq<Taken>, o: string)
    requires Clamped(c) && KnownFrom(g, ts, o)
    ensures e.Ask? && IsAdmitted(c, g, e, o) ==> KnownFrom(Next(c, g, e), ts + [Taken(e.now, e.prediction)], o)
    ensures e.Ask? && !IsAdmitted(c, g, e, o) ==> KnownFrom(Next(c, g, e), ts, o)
    ensures e.Drop? ==> KnownFrom(Next(c, g, e), if e.id == o then [] else ts, o)
    ensures e.Reset? ==> KnownFrom(Next(c, g, e), [], o)
    ensures e.Keep? ==> KnownFrom(Next(c, g, e), if o in g.samples && o !in e.active then [] else ts, o)
  {
    if e.Ask? && IsAdmitted(c, g, e, o) {
      UnavailableAppend(ts, Taken(e.now, e.prediction));
    }
  }

  lemma UnavailableAppend(ts: seq<Taken>, t: Taken)
    ensures AllUnavailable(ts + [t]) <==> AllUnavailable(ts) && t.prediction.isTarget.None?
  {
    assert (ts + [t])[|ts|] == t;
    assert forall i :: 0 <= i < |ts| ==> (ts + [t])[i] == ts[i];
  }

  // ---- steady agreement ----

  /** The object is asked about steadily: each evaluation has a frame and an answer
      and comes at least one interval after the one before. */
  ghost predicate Steady(c: Settings, es: seq<Event>, o: string) {
    && (forall i :: 0 <= i < |es| ==> es[i].Ask? && es[i].id == o && es[i].hasFrame && es[i].prediction.isTarget.Some?)
    && (forall i :: 0 < i < |es| ==> es[i].now - es[i - 1].now >= c.sampleInterval)
  }

  function Asked(es: seq<Event>): (r: seq<Prediction>)
    requires forall i :: 0 <= i < |es| ==> es[i].Ask?
    ensures |r| == |es|
  {
    seq(|es|, i requires 0 <= i < |es| => es[i].prediction)
  }

  lemma {:induction false} SteadyCollects(c: Settings, es: seq<Event>, o: string)
    requires Clamped(c) && Steady(c, es, o)
    ensures SamplesOf(Run(c, es), o) == Asked(es)
    ensures if es == [] then o !in Run(c, es).lastSampleAt
            else o in Run(c, es).lastSampleAt && Run(c, es).lastSampleAt[o] == es[|es| - 1].now
  {
    if es != [] {
      var front, e := es[..|es| - 1], es[|es| - 1];
      SteadyCollects(c, front, o);
      assert front != [] ==> e.now - es[|es| - 2].now >= c.sampleInterval;
      assert Asked(es) == Asked(front) + [e.prediction];
    }
  }

  lemma {:induction false} AllPositive(samples: seq<Prediction>)
    requires forall p :: p in samples ==> IsPositive(p)
    ensures |Positives(samples)| == |samples|
  {
    if samples != [] {
      AllPositive(samples[..|samples| - 1]);
    }
  }

  lemma SelfQuotient(x: real)
    requires x > 0.0
    ensures x / x == 1.0
  {
  }

  lemma UnanimousTally(c: Settings, n: nat)
    requires Clamped(c) && 1 <= n <= c.confirmations
    ensures Tally(c, n, n) == Accept <==> n == c.confirmations && c.minPositiveRatio <= 1.0
    ensures n < c.confirmations ==> Tally(c, n, n) == Pending
  {
    SelfQuotient(n as real);
  }

  lemma UnanimousDecision(c: Settings, samples: seq<Prediction>)
    requires Clamped(c) && 1 <= |samples| <= c.confirmations && forall p :: p in samples ==> IsPositive(p)
    ensures Decide(c, samples).verdict == Accept <==> |samples| == c.confirmations && c.minPositiveRatio <= 1.0
    ensures |samples| < c.confirmations ==> Decide(c, samples).verdict == Pending
  {
    AllPositive(samples);
    UnanimousTally(c, |samples|);
  }

  lemma SteadyDecides(c: Settings, es: seq<Event>, o: string)
    requires Clamped(c) && es != [] && Steady(c, es, o)
    ensures Answer(c, Run(c, es[..|es| - 1]), es[|es| - 1]) == Decide(c, Asked(es))
  {
    var front, e := es[..|es| - 1], es[|es| - 1];
    SteadyCollects(c, front, o);
    assert front != [] ==> e.now - es[|es| - 2].now >= c.sampleInterval;
    assert Asked(es) == Asked(front) + [e.prediction];
  }

  /** Agreement is enough: a new object whose evaluations are all positive and
      steadily spaced stays pending until its `confirmations`-th evaluation, which
      accepts it if and only if the required ratio is at most 1. */
  lemma AgreementAccepts(c: Settings, es: seq<Event>, o: string)
    requires Clamped(c) && Steady(c, es, o) && 1 <= |es| <= c.confirmations
    requires forall p :: p in Asked(es) ==> IsPositive(p)
    ensures var verdict := Answer(c, Run(c, es[..|es| - 1]), es[|es| - 1]).verdict;
      && (verdict == Accept <==> |es| == c.confirmations && c.minPositiveRatio <= 1.0)
      && (|es| < c.confirmations ==> verdict == Pending)
  {
    SteadyDecides(c, es, o);
    UnanimousDecision(c, Asked(es));
  }

  // ---- early stopping against the batch vote, over runs ----

  /** The verdicts a steadily asked object gets, one per evaluation. */
  function AskVerdicts(c: Settings, es: seq<Event>): (r: seq<Verdict>)
    requires Clamped(c) && forall i :: 0 <= i < |es| ==> es[i].Ask?
    ensures |r| == |es|
  {
    seq(|es|, i requires 0 <= i < |es| => Answer(c, Run(c, es[..i]), es[i]).verdict)
  }

  lemma SteadyPrefix(c: Settings, es: seq<Event>, o: string, i: nat)
    requires Steady(c, es, o) && i < |es|
    ensures Steady(c, es[..i + 1], o) && Asked(es[..i + 1]) == Asked(es)[..i + 1]
    ensures es[..i + 1][..i] == es[..i] && es[..i + 1][i] == es[i]
  {
  }

  lemma LastAnswer(c: Settings, es: seq<Event>, front: seq<Event>, e: Event, o: string, samples: seq<Prediction>)
    requires Clamped(c) && es != [] && Steady(c, es, o) && Asked(es) == samples
    requires es[..|es| - 1] == front && es[|es| - 1] == e
    ensures Answer(c, Run(c, front), e) == Decide(c, samples)
  {
    SteadyDecides(c, es, o);
  }

  lemma SteadyAnswer(c: Settings, es: seq<Event>, o: string, i: nat)
    requires Clamped(c) && Steady(c, es, o) && i < |es|
    ensures Answer(c, Run(c, es[..i]), es[i]) == Decide(c, Asked(es)[..i + 1])
  {
    SteadyPrefix(c, es, o, i);
    LastAnswer(c, es[..i + 1], es[..i], es[i], o, Asked(es)[..i + 1]);
  }

  lemma SteadyVerdict(c: Settings, es: seq<Event>, o: string, i: nat)
    requires Clamped(c) && Steady(c, es, o) && i < |es|
    ensures AskVerdicts(c, es)[i] == EarlyStopping.Verdicts(c, Asked(es))[i]
  {
    SteadyAnswer(c, es, o, i);
  }

  lemma SteadyVerdicts(c: Settings, es: seq<Event>, o: string)
    requires Clamped(c) && Steady(c, es, o)
    ensures AskVerdicts(c, es) == EarlyStopping.Verdicts(c, Asked(es))
  {
    var asked, batch := AskVerdicts(c, es), EarlyStopping.Verdicts(c, Asked(es));
    forall i | 0 <= i < |es| ensures asked[i] == batch[i] {
      SteadyVerdict(c, es, o, i);
    }
  }

  ghost predicate RunsStopLikeBatch(c: Settings)
    requires Clamped(c)
  {
    forall es: seq<Event>, o: string | Steady(c, es, o) && |es| == c.maxSamples ::
      EarlyStopping.StopsAs(AskVerdicts(c, es), EarlyStopping.BatchVerdict(c, Asked(es)))
  }

  /** The run in which an object is asked about `samples`, one interval apart. */
  function AskAll(c: Settings, samples: seq<Prediction>, o: string): (es: seq<Event>)
    ensures |es| == |samples|
  {
    seq(|samples|, i requires 0 <= i < |samples| => Ask(o, true, Times(i, c.sampleInterval), samples[i]))
  }

  lemma AskAllIsSteady(c: Settings, samples: seq<Prediction>, o: string)
    requires forall i :: 0 <= i < |samples| ==> samples[i].isTarget.Some?
    ensures Steady(c, AskAll(c, samples, o), o) && Asked(AskAll(c, samples, o)) == samples
  {
  }

  lemma {:induction false} RepeatIs(p: Prediction, n: nat, i: nat)
    requires i < n
    ensures EarlyStopping.Repeat(p, n)[i] == p
  {
    if i < n - 1 {
      RepeatIs(p, n - 1, i);
    }
  }

  /** The input: positives that all come last are answered with a reject, although the
      batch vote over the same samples accepts. */
  lemma LateRunIsVetoed(c: Settings, o: string)
    requires Clamped(c) && !EarlyStopping.RatioNeverVetoes(c)
    ensures var es := AskAll(c, EarlyStopping.LateConfirmation(c), o);
      && Steady(c, es, o) && |es| == c.maxSamples
      && EarlyStopping.BatchVerdict(c, Asked(es)) == Accept && EarlyStopping.StopsAs(AskVerdicts(c, es), Reject)
  {
    var samples := EarlyStopping.LateConfirmation(c);
    var es := AskAll(c, samples, o);
    LateSamplesAvailable(c);
    AskAllIsSteady(c, samples, o);
    SteadyVerdicts(c, es, o);
    EarlyStopping.LateConfirmationIsVetoed(c);
    EarlyStopping.VerdictsStopAsEarly(c, samples);
  }

  lemma LateSamplesAvailable(c: Settings)
    requires Clamped(c)
    ensures var samples := EarlyStopping.LateConfirmation(c);
      forall i :: 0 <= i < |samples| ==> samples[i].isTarget.Some?
  {
    forall i | 0 <= i < c.maxSamples ensures EarlyStopping.LateConfirmation(c)[i].isTarget.Some? {
      var misses := c.maxSamples - c.confirmations;
      if i < misses {
        RepeatIs(EarlyStopping.NO, misses, i);
      } else {
        RepeatIs(EarlyStopping.YES, c.confirmations, i - misses);
      }
    }
  }

  lemma SteadyRunStops(c: Settings, es: seq<Event>, o: string)
    requires Clamped(c) && EarlyStopping.RatioNeverVetoes(c) && Steady(c, es, o) && |es| == c.maxSamples
    ensures EarlyStopping.StopsAs(AskVerdicts(c, es), EarlyStopping.BatchVerdict(c, Asked(es)))
  {
    SteadyVerdicts(c, es, o);
    EarlyStopping.VerdictsStopAsBatch(c, Asked(es));
  }

  /** In every run of `maxSamples` steadily spaced answers the first verdict is that of
      the batch vote, if and only if the ratio rule can never veto. */
  lemma RunsStopLikeBatchIff(c: Settings)
    requires Clamped(c)
    ensures RunsStopLikeBatch(c) <==> EarlyStopping.RatioNeverVetoes(c)
  {
    if EarlyStopping.RatioNeverVetoes(c) {
      forall es: seq<Event>, o: string | Steady(c, es, o) && |es| == c.maxSamples
        ensures EarlyStopping.StopsAs(AskVerdicts(c, es), EarlyStopping.BatchVerdict(c, Asked(es)))
      {
        SteadyRunStops(c, es, o);
      }
    } else {
      var o := "o";
      LateRunIsVetoed(c, o);
      VetoRefutes(c, AskAll(c, EarlyStopping.LateConfirmation(c), o), o);
    }
  }

  lemma VetoRefutes(c: Settings, es: seq<Event>, o: string)
    requires Clamped(c) && Steady(c, es, o) && |es| == c.maxSamples
    requires EarlyStopping.BatchVerdict(c, Asked(es)) == Accept && EarlyStopping.StopsAs(AskVerdicts(c, es), Reject)
    ensures !RunsStopLikeBatch(c)
  {
    var vs := AskVerdicts(c, es);
    var n :| 0 <= n < |vs| && vs[n] == Reject && forall i :: 0 <= i < n ==> vs[i] == Pending;
    EarlyStopping.StopsOnce(vs, n, Accept);
  }
}
