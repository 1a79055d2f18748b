/** From raw telemetry points to verdicts: rank, compile, validate and verify, seen as one function. */
module EndToEnd {
  import opened Prelude
  import opened Text
  import opened Sorting
  import opened Statistics
  import opened Domain
  import opened Baseline
  import opened Ledger
  import opened Hypotheses
  import opened Verifier

  function Pipeline(context: Context, window: Window, inputs: seq<SignalInput>, policy: Policy, h: Hypothesis)
    : Result<VerificationResult, DomainError>
    requires ValidInputs(inputs) && policy.Valid()
  {
    var result :- Rank(window, inputs, policy);
    match Compile(context, window, result)
    case None => Failure(InvalidEvidenceLedger)
    case Some(ledger) => Verify(h, ledger)
  }

  // ----- the specification on raw points -----

  datatype Finding = Finding(verdict: Verdict, reason: Option<UnknownReason>)

  /** The input observed under a key, if there is one. */
  function InputFor(inputs: seq<SignalInput>, key: string): Option<SignalInput> {
    if inputs == [] then None
    else if inputs[0].signal.key == key then Some(inputs[0])
    else InputFor(inputs[1..], key)
  }

  /** What the points of one signal say about an expected direction. */
  function SignalFinding(window: Window, item: SignalInput, policy: Policy, expected: Direction): Finding
    requires item.Valid() && policy.Valid()
  {
    var pre, post := PreValues(window, item.signal), PostValues(window, item.signal);
    if |pre| < policy.minimumPoints || |post| < policy.minimumPoints then
      Finding(Unknown, Some(InsufficientEvidence))
    else
      var shift := Median(post) - Median(pre);
      var scale := ScaleOf(Median(pre), MadOf(pre), item.absoluteFloor, policy.relativeFloor);
      if shift == 0.0 then Finding(Unknown, Some(NoDirectionalShift))
      else if Abs(shift) < policy.minimumScore * scale then Finding(Unknown, Some(WeakEvidence))
      else if (shift > 0.0) == expected.Increase? then Finding(Supported, None)
      else Finding(Refuted, None)
  }

  function PredicateFinding(context: Context, window: Window, inputs: seq<SignalInput>, policy: Policy,
                            h: Hypothesis, p: MetricPredicate): Finding
    requires ValidInputs(inputs) && policy.Valid()
  {
    if h.context != context then Finding(Unknown, Some(ContextMismatch))
    else if h.semantics.Causal? then Finding(Unknown, Some(CausalClaim))
    else ObservedFinding(window, inputs, policy, p)
  }

  function ObservedFinding(window: Window, inputs: seq<SignalInput>, policy: Policy, p: MetricPredicate): Finding
    requires ValidInputs(inputs) && policy.Valid()
  {
    match InputFor(inputs, p.key)
    case None => Finding(Unknown, Some(SignalNotFound))
    case Some(item) => InputForIsInput(inputs, p.key); SignalFinding(window, item, policy, p.expected)
  }

  lemma {:induction false} InputForIsInput(inputs: seq<SignalInput>, key: string)
    ensures InputFor(inputs, key).Some? ==>
      exists i :: 0 <= i < |inputs| && inputs[i] == InputFor(inputs, key).value && inputs[i].signal.key == key
    ensures InputFor(inputs, key).None? ==> key !in InputKeys(inputs)
  {
    if inputs != [] && inputs[0].signal.key != key {
      var rest := inputs[1..];
      InputForIsInput(rest, key);
      if InputFor(rest, key).Some? {
        var i :| 0 <= i < |rest| && rest[i] == InputFor(rest, key).value && rest[i].signal.key == key;
        assert inputs[i + 1] == rest[i];
      }
    }
  }

  // ----- the compiled ledger holds the evaluations of the raw points -----

  lemma RankedEntriesAreEvaluations(context: Context, window: Window, inputs: seq<SignalInput>, policy: Policy)
    requires context.Valid() && window.Valid() && ValidInputs(inputs) && policy.Valid()
    requires Rank(window, inputs, policy).Success?
    ensures var l := LedgerOf(context, window, Rank(window, inputs, policy).value);
            Validated(l) == Some(l) && l.context == context && l.policy == policy
            && multiset(EvaluationsOf(l.entries)) == multiset(EvaluateAll(window, inputs, policy))
  {
    hide Compile, Validated, LedgerOf, Faithful, Compilable;
    var result := Rank(window, inputs, policy).value;
    RankCompiles(context, window, inputs, policy);
    CompilableLedgerIsFaithful(context, window, result);
    FaithfulIsAccepted(LedgerOf(context, window, result));
    LedgerHoldsEvaluations(context, window, result);
    RankedEvaluations(window, inputs, policy);
  }

  lemma LedgerHoldsEvaluations(context: Context, window: Window, result: BaselineResult)
    ensures var l := LedgerOf(context, window, result);
            l.context == context && l.policy == result.policy
            && multiset(EvaluationsOf(l.entries)) == multiset(result.evaluations)
  {
    hide Snapshot, Sort, EntriesOf;
    SortContents(ByKey, result.evaluations);
    EntriesRoundTrip(context, window, result.policy, Snapshot(result), Sort(ByKey, result.evaluations));
  }

  lemma RankedEvaluations(window: Window, inputs: seq<SignalInput>, policy: Policy)
    requires ValidInputs(inputs) && policy.Valid() && Rank(window, inputs, policy).Success?
    ensures var result := Rank(window, inputs, policy).value;
            result.policy == policy && multiset(result.evaluations) == multiset(EvaluateAll(window, inputs, policy))
  {
    hide EvaluateAll, RankedCandidates, Sort;
    SortContents(ByKey, EvaluateAll(window, inputs, policy));
  }

  lemma LookupIsEvaluation(l: MetricLedger, es: seq<Evaluation>, k: nat)
    requires Validated(l).Some? && multiset(EvaluationsOf(l.entries)) == multiset(es) && k < |es|
    ensures Lookup(l.entries, es[k].key).Some? && EvaluationOf(Lookup(l.entries, es[k].key).value) == es[k]
  {
    hide Validated, Lookup;
    assert es[k] in multiset(EvaluationsOf(l.entries));
    var i := IndexOf(EvaluationsOf(l.entries), es[k]);
    LookupInLedger(l, i);
  }

  lemma LookupHits(l: MetricLedger, es: seq<Evaluation>, key: string)
    requires Validated(l).Some? && multiset(EvaluationsOf(l.entries)) == multiset(es)
    requires Lookup(l.entries, key).Some?
    ensures exists k :: 0 <= k < |es| && es[k].key == key
  {
    hide Validated, Lookup;
    LookupComesFromLedger(l, key);
    var i :| 0 <= i < |l.entries| && l.entries[i].key == key;
    assert EvaluationsOf(l.entries)[i] in multiset(es);
    var k := IndexOf(es, EvaluationsOf(l.entries)[i]);
  }

  /** Scores and shifts decide alike: dividing by a positive scale moves no threshold. */
  lemma ScoreThreshold(scale: real, before: real, after: real, minimum: real)
    requires scale > 0.0
    ensures (ShiftIn(scale, before, after) == 0.0) <==> (after - before == 0.0)
    ensures (ShiftIn(scale, before, after) > 0.0) <==> (after - before > 0.0)
    ensures (Abs(ShiftIn(scale, before, after)) < minimum) <==> (Abs(after - before) < minimum * scale)
  {
    var q := ShiftIn(scale, before, after);
    assert q * scale == after - before;
    ScaledComparison(scale, q, 0.0);
    ScaledComparison(scale, 0.0, q);
    ScaledComparison(scale, Abs(q), minimum);
    assert Abs(q) * scale == Abs(q * scale);
  }

  lemma ScaledComparison(scale: real, x: real, y: real)
    requires scale > 0.0
    ensures x < y <==> x * scale < y * scale
  {
    if x < y {
      assert (y - x) * scale > 0.0;
    } else {
      assert (x - y) * scale >= 0.0;
    }
  }

  lemma EvaluationGivesFinding(window: Window, item: SignalInput, policy: Policy, p: MetricPredicate,
                               entry: MetricEntry)
    requires item.Valid() && policy.Valid() && EvaluationOf(entry) == EvaluateSignal(window, item, policy)
    ensures var r := EvaluatePredicate(p, Some(entry), policy.minimumScore);
            Finding(r.verdict, r.reason) == SignalFinding(window, item, policy, p.expected)
  {
    hide ShiftIn, ScaleOf, MadOf, Median, ValuesBetween;
    var pre, post := PreValues(window, item.signal), PostValues(window, item.signal);
    if EnoughPoints(policy, |pre|, |post|) {
      ScoreThreshold(ScaleOf(Median(pre), MadOf(pre), item.absoluteFloor, policy.relativeFloor),
                     Median(pre), Median(post), policy.minimumScore);
    }
  }

  lemma UngatedFinding(window: Window, inputs: seq<SignalInput>, policy: Policy, p: MetricPredicate, l: MetricLedger)
    requires ValidInputs(inputs) && policy.Valid() && Validated(l).Some?
    requires multiset(EvaluationsOf(l.entries)) == multiset(EvaluateAll(window, inputs, policy))
    ensures var r := EvaluatePredicate(p, Lookup(l.entries, p.key), policy.minimumScore);
            Finding(r.verdict, r.reason) == ObservedFinding(window, inputs, policy, p)
  {
    hide Validated, Lookup, EvaluateSignal, SignalFinding;
    var es := EvaluateAll(window, inputs, policy);
    InputForIsInput(inputs, p.key);
    match InputFor(inputs, p.key)
    case None =>
      forall k | 0 <= k < |es|
        ensures es[k].key != p.key
      {
        assert InputKeys(inputs)[k] == es[k].key;
      }
      if Lookup(l.entries, p.key).Some? {
        LookupHits(l, es, p.key);
      }
    case Some(item) =>
      var k :| 0 <= k < |inputs| && inputs[k] == item && inputs[k].signal.key == p.key;
      LookupIsEvaluation(l, es, k);
      EvaluationGivesFinding(window, item, policy, p, Lookup(l.entries, p.key).value);
  }

  /** The ledger between the two halves of the pipeline: faithful, of this context, holding these evaluations. */
  lemma PipelineLedger(context: Context, window: Window, inputs: seq<SignalInput>, policy: Policy, h: Hypothesis)
    requires context.Valid() && window.Valid() && ValidInputs(inputs) && policy.Valid()
    requires Rank(window, inputs, policy).Success?
    ensures var l := LedgerOf(context, window, Rank(window, inputs, policy).value);
            && Pipeline(context, window, inputs, policy, h) == Verify(h, l)
            && Validated(l) == Some(l) && l.context == context && l.policy == policy
            && multiset(EvaluationsOf(l.entries)) == multiset(EvaluateAll(window, inputs, policy))
  {
    hide Rank, Compile, Validated, LedgerOf, EvaluateAll, Verify, NonBlank;
    RankCompiles(context, window, inputs, policy);
    RankedEntriesAreEvaluations(context, window, inputs, policy);
  }

  lemma VerifyAnswers(h: Hypothesis, l: MetricLedger)
    requires Validated(l) == Some(l)
    ensures Verify(h, l).Success? <==> h.Valid()
    ensures h.Valid() ==> Verify(h, l).value == Trace(h, l)
  {
    hide Validated, Hypothesis.Valid, Trace;
  }

  /** The trace against a ledger holding the evaluations of some inputs says what their raw points say. */
  lemma TraceDecidesRawPoints(window: Window, inputs: seq<SignalInput>, policy: Policy, h: Hypothesis, l: MetricLedger)
    requires ValidInputs(inputs) && policy.Valid() && Validated(l).Some? && l.policy == policy
    requires multiset(EvaluationsOf(l.entries)) == multiset(EvaluateAll(window, inputs, policy))
    ensures var v := Trace(h, l);
            && |v.results| == |h.predicates|
            && forall i :: 0 <= i < |h.predicates| ==>
                 Finding(v.results[i].verdict, v.results[i].reason)
                 == PredicateFinding(l.context, window, inputs, policy, h, h.predicates[i])
  {
    hide Validated, EvaluateAll, EvaluatePredicate, ObservedFinding, Lookup, Compose, ValidInputs,
         Supporting, Contradicting;
    var v := Trace(h, l);
    forall i | 0 <= i < |h.predicates|
      ensures Finding(v.results[i].verdict, v.results[i].reason)
              == PredicateFinding(l.context, window, inputs, policy, h, h.predicates[i])
    {
      UngatedFinding(window, inputs, policy, h.predicates[i], l);
    }
  }

  /**
   * End-to-end refinement: for every document the pipeline answers exactly when the
   * document is valid and the signals are distinct, and each predicate's verdict and
   * reason are what the raw points say.
   */
  lemma PipelineDecidesRawPoints(context: Context, window: Window, inputs: seq<SignalInput>, policy: Policy,
                                 h: Hypothesis)
    requires context.Valid() && window.Valid() && ValidInputs(inputs) && policy.Valid()
    ensures Pipeline(context, window, inputs, policy, h).Success? <==> Distinct(InputKeys(inputs)) && h.Valid()
    ensures Pipeline(context, window, inputs, policy, h).Success? ==>
      var v := Pipeline(context, window, inputs, policy, h).value;
      && |v.results| == |h.predicates|
      && (forall i :: 0 <= i < |h.predicates| ==>
            Finding(v.results[i].verdict, v.results[i].reason)
            == PredicateFinding(context, window, inputs, policy, h, h.predicates[i]))
      && v.verdict == Compose(h.composition, Verdicts(v.results))
  {
    hide Rank, Compile, Validated, LedgerOf, EvaluateAll, EvaluationsOf, Verify, Trace, PredicateFinding, Compose,
         Hypothesis.Valid, NonBlank, Distinct, InputKeys, ValidInputs;
    RankFailsOnDuplicates(window, inputs, policy);
    if Rank(window, inputs, policy).Success? {
      PipelineLedger(context, window, inputs, policy, h);
      var l := LedgerOf(context, window, Rank(window, inputs, policy).value);
      VerifyAnswers(h, l);
      if h.Valid() {
        TraceDecidesRawPoints(window, inputs, policy, h, l);
        GatedComposition(h, l);
      }
    }
  }

  lemma RankFailsOnDuplicates(window: Window, inputs: seq<SignalInput>, policy: Policy)
    requires ValidInputs(inputs) && policy.Valid()
    ensures Rank(window, inputs, policy).Success? <==> Distinct(InputKeys(inputs))
  {
  }

  lemma GatedComposition(h: Hypothesis, l: MetricLedger)
    requires h.Valid()
    ensures Trace(h, l).verdict == Compose(h.composition, Verdicts(Trace(h, l).results))
  {
    hide ResultOf, EvaluatePredicate;
    var gate, vs := Gate(h, l), Verdicts(Trace(h, l).results);
    if gate.Some? {
      forall i | 0 <= i < |vs|
        ensures vs[i] == Unknown
      {
        GatedResult(h.predicates[i], gate.value, l.entries, l.policy.minimumScore);
      }
      assert vs[0] in vs;
    }
  }

  lemma GatedResult(p: MetricPredicate, gate: UnknownReason, entries: seq<MetricEntry>, minimumScore: real)
    ensures ResultOf(p, Some(gate), entries, minimumScore).verdict == Unknown
  {
  }

  /** Documents that pass the worker's allow-list never hit an unobserved signal. */
  lemma AllowListPreventsUnknownSignals(context: Context, window: Window, inputs: seq<SignalInput>, policy: Policy,
                                        raw: Proposal, l: MetricLedger)
    requires context.Valid() && window.Valid() && ValidInputs(inputs) && policy.Valid()
    requires Rank(window, inputs, policy).Success?
    requires Compile(context, window, Rank(window, inputs, policy).value) == Some(l)
    ensures var allowed := set e | e in l.entries :: e.key;
            ParseProposal(raw, allowed).Success? ==>
              var v := Pipeline(context, window, inputs, policy, ParseProposal(raw, allowed).value);
              v.Success? && forall i :: 0 <= i < |v.value.results| ==> v.value.results[i].reason != Some(SignalNotFound)
  {
    hide Rank, Compile, Validated, LedgerOf, EvaluateAll, EvaluatePredicate, ParseProposal, Lookup, Verify,
         Hypothesis.Valid, Compose, NonBlank, Supporting, Contradicting, Pipeline;
    var allowed := set e | e in l.entries :: e.key;
    ParsedProposalIsSafe(raw, allowed);
    if ParseProposal(raw, allowed).Success? {
      var h := ParseProposal(raw, allowed).value;
      RankCompiles(context, window, inputs, policy);
      PipelineLedger(context, window, inputs, policy, h);
      VerifyAnswers(h, l);
      var v := Trace(h, l);
      forall i | 0 <= i < |v.results|
        ensures v.results[i].reason != Some(SignalNotFound)
      {
        var j :| 0 <= j < |l.entries| && l.entries[j].key == h.predicates[i].key;
        LookupInLedger(l, j);
        FoundSignal(h.predicates[i], Lookup(l.entries, h.predicates[i].key), l.policy.minimumScore);
      }
    }
  }

  lemma FoundSignal(p: MetricPredicate, entry: Option<MetricEntry>, minimumScore: real)
    requires entry.Some?
    ensures EvaluatePredicate(p, entry, minimumScore).reason != Some(SignalNotFound)
  {
  }

  /** Permuting the telemetry changes no verdict, reason, identifier or trace. */
  lemma PipelineIsOrderFree(context: Context, window: Window, a: seq<SignalInput>, b: seq<SignalInput>, policy: Policy,
                            h: Hypothesis)
    requires ValidInputs(a) && policy.Valid() && multiset(a) == multiset(b)
    ensures ValidInputs(b) && Pipeline(context, window, a, policy, h) == Pipeline(context, window, b, policy, h)
  {
    RankIsOrderFree(window, a, b, policy);
  }

  // ----- thresholds -----

  ghost predicate Decided(v: Verdict) {
    v != Unknown
  }

  lemma SignalThresholdMonotone(window: Window, item: SignalInput, strict: Policy, lax: Policy, expected: Direction)
    requires item.Valid() && strict.Valid() && lax.Valid() && lax.minimumScore <= strict.minimumScore
    requires strict.minimumPoints == lax.minimumPoints && strict.relativeFloor == lax.relativeFloor
    ensures Decided(SignalFinding(window, item, strict, expected).verdict)
      ==> SignalFinding(window, item, lax, expected) == SignalFinding(window, item, strict, expected)
    ensures strict.minimumScore == lax.minimumScore
      ==> SignalFinding(window, item, lax, expected) == SignalFinding(window, item, strict, expected)
  {
    hide ScaleOf, MadOf, Median, ValuesBetween;
    var pre, post := PreValues(window, item.signal), PostValues(window, item.signal);
    if |pre| >= strict.minimumPoints && |post| >= strict.minimumPoints {
      var scale := ScaleOf(Median(pre), MadOf(pre), item.absoluteFloor, strict.relativeFloor);
      assert (strict.minimumScore - lax.minimumScore) * scale >= 0.0;
      assert lax.minimumScore * scale <= strict.minimumScore * scale;
    }
  }

  lemma DecidedChildrenCompose(composition: Composition, strict: seq<Verdict>, lax: seq<Verdict>)
    requires |strict| == |lax| > 0 && forall i :: 0 <= i < |strict| && Decided(strict[i]) ==> lax[i] == strict[i]
    ensures Decided(Compose(composition, strict)) ==> Compose(composition, lax) == Compose(composition, strict)
  {
    var verdict := Compose(composition, strict);
    if Decided(verdict) {
      if verdict in strict && (composition.All? == verdict.Refuted?) {
        var i :| 0 <= i < |strict| && strict[i] == verdict;
        assert lax[i] in lax;
      } else {
        forall i | 0 <= i < |strict|
          ensures strict[i] == verdict
        {
          assert strict[i] in strict;
        }
        assert forall i :: 0 <= i < |lax| ==> lax[i] == verdict;
        assert lax[0] in lax;
      }
    }
  }

  /**
   * Lowering the minimum score on the same telemetry changes no decided verdict, of a
   * predicate or of the document; the minimum margin changes no verdict at all.
   */
  lemma ThresholdsAreMonotone(context: Context, window: Window, inputs: seq<SignalInput>, strict: Policy, lax: Policy,
                              h: Hypothesis)
    requires context.Valid() && window.Valid() && ValidInputs(inputs) && strict.Valid() && lax.Valid()
    requires strict.minimumPoints == lax.minimumPoints && strict.relativeFloor == lax.relativeFloor
    requires lax.minimumScore <= strict.minimumScore
    requires h.Valid() && Distinct(InputKeys(inputs))
    ensures var s, x := Pipeline(context, window, inputs, strict, h), Pipeline(context, window, inputs, lax, h);
            && s.Success? && x.Success? && |s.value.results| == |x.value.results|
            && (forall i :: 0 <= i < |s.value.results| && Decided(s.value.results[i].verdict)
                  ==> x.value.results[i].verdict == s.value.results[i].verdict)
            && (Decided(s.value.verdict) ==> x.value.verdict == s.value.verdict)
            && (strict.minimumScore == lax.minimumScore ==>
                  x.value.verdict == s.value.verdict && Verdicts(x.value.results) == Verdicts(s.value.results))
  {
    hide Pipeline, ObservedFinding, Hypothesis.Valid, Compose, NonBlank;
    PipelineDecidesRawPoints(context, window, inputs, strict, h);
    PipelineDecidesRawPoints(context, window, inputs, lax, h);
    var s, x := Pipeline(context, window, inputs, strict, h).value, Pipeline(context, window, inputs, lax, h).value;
    forall i | 0 <= i < |s.results|
      ensures Decided(s.results[i].verdict) ==> x.results[i].verdict == s.results[i].verdict
      ensures strict.minimumScore == lax.minimumScore ==> x.results[i].verdict == s.results[i].verdict
    {
      FindingThresholdMonotone(context, window, inputs, strict, lax, h, h.predicates[i]);
    }
    ValidHasPredicates(h);
    DecidedChildrenCompose(h.composition, Verdicts(s.results), Verdicts(x.results));
    if strict.minimumScore == lax.minimumScore {
      assert Verdicts(x.results) == Verdicts(s.results);
    }
  }

  lemma ValidHasPredicates(h: Hypothesis)
    requires h.Valid()
    ensures |h.predicates| > 0
  {
  }

  lemma FindingThresholdMonotone(context: Context, window: Window, inputs: seq<SignalInput>, strict: Policy,
                                 lax: Policy,
                                 h: Hypothesis, p: MetricPredicate)
    requires ValidInputs(inputs) && strict.Valid() && lax.Valid() && lax.minimumScore <= strict.minimumScore
    requires strict.minimumPoints == lax.minimumPoints && strict.relativeFloor == lax.relativeFloor
    ensures var s, x := PredicateFinding(context, window, inputs, strict, h, p),
                        PredicateFinding(context, window, inputs, lax, h, p);
            (Decided(s.verdict) || strict.minimumScore == lax.minimumScore) ==> x == s
  {
    hide SignalFinding;
    InputForIsInput(inputs, p.key);
    if InputFor(inputs, p.key).Some? {
      SignalThresholdMonotone(window, InputFor(inputs, p.key).value, strict, lax, p.expected);
    }
  }
}
