/** The whole pipeline does not depend on the sign or the unit in which telemetry is measured. */
module Symmetry {
  import opened Prelude
  import opened Text
  import opened Statistics
  import opened Domain
  import opened Baseline
  import opened Hypotheses
  import opened Verifier
  import opened EndToEnd

  // ----- the same telemetry, measured otherwise -----

  /** Every value mirrored. */
  function NegatedPoints(points: seq<Point>): (r: seq<Point>)
    ensures |r| == |points|
    ensures forall i :: 0 <= i < |r| ==> r[i].observedAt == points[i].observedAt
  {
    if points == [] then [] else [Point(points[0].observedAt, -points[0].value)] + NegatedPoints(points[1..])
  }

  function NegatedInput(item: SignalInput): SignalInput {
    item.(signal := Signal(item.signal.key, NegatedPoints(item.signal.points)))
  }

  function NegatedInputs(inputs: seq<SignalInput>): (r: seq<SignalInput>)
    ensures |r| == |inputs| && forall i :: 0 <= i < |r| ==> r[i] == NegatedInput(inputs[i])
  {
    if inputs == [] then [] else [NegatedInput(inputs[0])] + NegatedInputs(inputs[1..])
  }

  /** Every value in another unit. */
  function ScaledPoints(k: real, points: seq<Point>): (r: seq<Point>)
    ensures |r| == |points|
    ensures forall i :: 0 <= i < |r| ==> r[i].observedAt == points[i].observedAt
  {
    if points == [] then []
    else [Point(points[0].observedAt, Times(k, points[0].value))] + ScaledPoints(k, points[1..])
  }

  /** The floor is measured in the unit of the values. */
  function ScaledInput(k: real, item: SignalInput): SignalInput {
    SignalInput(Signal(item.signal.key, ScaledPoints(k, item.signal.points)), Times(k, item.absoluteFloor))
  }

  function ScaledInputs(k: real, inputs: seq<SignalInput>): (r: seq<SignalInput>)
    ensures |r| == |inputs| && forall i :: 0 <= i < |r| ==> r[i] == ScaledInput(k, inputs[i])
  {
    if inputs == [] then [] else [ScaledInput(k, inputs[0])] + ScaledInputs(k, inputs[1..])
  }

  /** The same document, every expected direction flipped. */
  function Flipped(h: Hypothesis): Hypothesis {
    h.(predicates := DualPredicates(h.predicates))
  }

  lemma {:induction false} ValuesOfNegated(points: seq<Point>, from: Instant, until: Instant)
    ensures ValuesBetween(NegatedPoints(points), from, until) == Negated(ValuesBetween(points, from, until))
  {
    if points != [] {
      ValuesOfNegated(points[1..], from, until);
      var values, rest := ValuesBetween(points, from, until), ValuesBetween(points[1..], from, until);
      assert NegatedPoints(points)[1..] == NegatedPoints(points[1..]);
      if from <= points[0].observedAt < until {
        assert values[1..] == rest;
      } else {
        assert values == rest;
      }
    }
  }

  lemma {:induction false} ValuesOfScaled(k: real, points: seq<Point>, from: Instant, until: Instant)
    ensures ValuesBetween(ScaledPoints(k, points), from, until) == Scaled(k, ValuesBetween(points, from, until))
  {
    if points != [] {
      ValuesOfScaled(k, points[1..], from, until);
      var values, rest := ValuesBetween(points, from, until), ValuesBetween(points[1..], from, until);
      assert ScaledPoints(k, points)[1..] == ScaledPoints(k, points[1..]);
      if from <= points[0].observedAt < until {
        assert values[1..] == rest;
      } else {
        assert values == rest;
      }
    }
  }

  // ----- findings by score -----

  /** What a signed score says about an expected direction. */
  function ScoreFinding(signed: real, minimum: real, expected: Direction): Finding {
    if signed == 0.0 then Finding(Unknown, Some(NoDirectionalShift))
    else if Abs(signed) < minimum then Finding(Unknown, Some(WeakEvidence))
    else if (signed > 0.0) == expected.Increase? then Finding(Supported, None)
    else Finding(Refuted, None)
  }

  /** The same said of the shift itself, against a threshold in its own unit. */
  function ShiftFinding(shift: real, threshold: real, expected: Direction): Finding {
    if shift == 0.0 then Finding(Unknown, Some(NoDirectionalShift))
    else if Abs(shift) < threshold then Finding(Unknown, Some(WeakEvidence))
    else if (shift > 0.0) == expected.Increase? then Finding(Supported, None)
    else Finding(Refuted, None)
  }

  lemma ShiftIsScore(scale: real, before: real, after: real, minimum: real, expected: Direction)
    requires scale > 0.0
    ensures ScoreFinding(ShiftIn(scale, before, after), minimum, expected)
            == ShiftFinding(after - before, minimum * scale, expected)
  {
    hide ShiftIn, Abs;
    ScoreThreshold(scale, before, after, minimum);
  }

  lemma FindingByScore(window: Window, item: SignalInput, policy: Policy, expected: Direction)
    requires item.Valid() && policy.Valid()
    ensures var pre, post := PreValues(window, item.signal), PostValues(window, item.signal);
            SignalFinding(window, item, policy, expected)
            == if EnoughPoints(policy, |pre|, |post|)
               then ScoreFinding(ScoreCandidate(item, policy, pre, post).signedScore, policy.minimumScore, expected)
               else Finding(Unknown, Some(InsufficientEvidence))
  {
    hide PreValues, PostValues, Median, MadOf, ScaleOf, ShiftIn, Abs, ScoreFinding, NonBlank;
    var pre, post := PreValues(window, item.signal), PostValues(window, item.signal);
    if EnoughPoints(policy, |pre|, |post|) {
      ShiftIsScore(ScaleOf(Median(pre), MadOf(pre), item.absoluteFloor, policy.relativeFloor),
                   Median(pre), Median(post), policy.minimumScore, expected);
    }
  }

  /** The second input says of a direction, flipped or not, what the first says of the direction itself. */
  ghost predicate Alike(window: Window, policy: Policy, a: SignalInput, b: SignalInput, flip: bool)
    requires policy.Valid()
  {
    && a.Valid() && b.Valid() && a.signal.key == b.signal.key
    && forall d :: SignalFinding(window, b, policy, Turned(d, flip)) == SignalFinding(window, a, policy, d)
  }

  function Turned(d: Direction, flip: bool): Direction {
    if flip then Opposite(d) else d
  }

  lemma NegatedIsAlike(window: Window, policy: Policy, item: SignalInput)
    requires item.Valid() && policy.Valid()
    ensures Alike(window, policy, item, NegatedInput(item), true)
  {
    hide SignalFinding, ValuesBetween, NonBlank, ScoreCandidate;
    var other := NegatedInput(item);
    var pre, post := PreValues(window, item.signal), PostValues(window, item.signal);
    ValuesOfNegated(item.signal.points, window.start, window.injection);
    ValuesOfNegated(item.signal.points, window.injection, window.end);
    if EnoughPoints(policy, |pre|, |post|) {
      ScoreOfNegated(item, policy, pre, post);
      CandidateIgnoresPoints(item, other, policy, Negated(pre), Negated(post));
    }
    forall d
      ensures SignalFinding(window, other, policy, Opposite(d)) == SignalFinding(window, item, policy, d)
    {
      FindingByScore(window, item, policy, d);
      FindingByScore(window, other, policy, Opposite(d));
    }
  }

  /** A score reads the windows' values and the floor, and nothing else of the input's points. */
  lemma CandidateIgnoresPoints(a: SignalInput, b: SignalInput, policy: Policy, pre: seq<real>, post: seq<real>)
    requires a.absoluteFloor == b.absoluteFloor > 0.0 && |pre| > 0 && |post| > 0
    ensures ScoreCandidate(a, policy, pre, post).signedScore == ScoreCandidate(b, policy, pre, post).signedScore
  {
  }

  lemma ScaledIsAlike(k: real, window: Window, policy: Policy, item: SignalInput)
    requires k > 0.0 && item.Valid() && policy.Valid()
    ensures Alike(window, policy, item, ScaledInput(k, item), false)
  {
    hide SignalFinding, ValuesBetween, NonBlank, ScoreCandidate, Times;
    var other := ScaledInput(k, item);
    var pre, post := PreValues(window, item.signal), PostValues(window, item.signal);
    ValuesOfScaled(k, item.signal.points, window.start, window.injection);
    ValuesOfScaled(k, item.signal.points, window.injection, window.end);
    TimesIsPositive(k, item.absoluteFloor);
    if EnoughPoints(policy, |pre|, |post|) {
      ScoreOfScaled(k, item, policy, pre, post);
      CandidateIgnoresPoints(item.(absoluteFloor := Times(k, item.absoluteFloor)), other, policy,
                             Scaled(k, pre), Scaled(k, post));
    }
    forall d
      ensures SignalFinding(window, other, policy, d) == SignalFinding(window, item, policy, d)
    {
      FindingByScore(window, item, policy, d);
      FindingByScore(window, other, policy, d);
    }
  }

  // ----- whole documents -----

  ghost predicate AllAlike(window: Window, policy: Policy, a: seq<SignalInput>, b: seq<SignalInput>, flip: bool)
    requires policy.Valid()
  {
    |a| == |b| && forall i :: 0 <= i < |a| ==> Alike(window, policy, a[i], b[i], flip)
  }

  lemma {:induction false} InputsForAlike(window: Window, policy: Policy, a: seq<SignalInput>, b: seq<SignalInput>,
                                         flip: bool, key: string)
    requires policy.Valid() && AllAlike(window, policy, a, b, flip)
    ensures InputFor(a, key).Some? <==> InputFor(b, key).Some?
    ensures InputFor(a, key).Some? ==> Alike(window, policy, InputFor(a, key).value, InputFor(b, key).value, flip)
  {
    hide Alike;
    if a != [] {
      AlikeKeys(window, policy, a[0], b[0], flip);
      InputsForAlike(window, policy, a[1..], b[1..], flip, key);
    }
  }

  lemma AlikeKeys(window: Window, policy: Policy, a: SignalInput, b: SignalInput, flip: bool)
    requires policy.Valid() && Alike(window, policy, a, b, flip)
    ensures a.signal.key == b.signal.key && a.Valid() && b.Valid()
  {
  }

  lemma AlikeInputs(window: Window, policy: Policy, a: seq<SignalInput>, b: seq<SignalInput>, flip: bool)
    requires policy.Valid() && AllAlike(window, policy, a, b, flip)
    ensures ValidInputs(a) && ValidInputs(b) && InputKeys(a) == InputKeys(b)
  {
    hide Alike, SignalInput.Valid;
    forall i | 0 <= i < |a|
      ensures a[i].Valid() && b[i].Valid() && a[i].signal.key == b[i].signal.key
    {
      AlikeKeys(window, policy, a[i], b[i], flip);
    }
  }

  /** The document to ask of the other measurement. */
  function TurnedDocument(h: Hypothesis, flip: bool): Hypothesis {
    if flip then Flipped(h) else h
  }

  lemma FindingsAlike(context: Context, window: Window, a: seq<SignalInput>, b: seq<SignalInput>, policy: Policy,
                      h: Hypothesis, flip: bool, i: nat)
    requires policy.Valid() && AllAlike(window, policy, a, b, flip) && ValidInputs(a) && ValidInputs(b)
    requires i < |h.predicates|
    ensures var other := TurnedDocument(h, flip);
            PredicateFinding(context, window, b, policy, other, other.predicates[i])
            == PredicateFinding(context, window, a, policy, h, h.predicates[i])
  {
    hide SignalFinding, AllAlike;
    InputsForAlike(window, policy, a, b, flip, h.predicates[i].key);
  }

  /** Inputs that are alike give every document the same answers. */
  lemma AlikeInputsAnswerAlike(context: Context, window: Window, a: seq<SignalInput>, b: seq<SignalInput>,
                               policy: Policy, h: Hypothesis, flip: bool)
    requires context.Valid() && window.Valid() && policy.Valid() && AllAlike(window, policy, a, b, flip)
    ensures ValidInputs(a) && ValidInputs(b)
    ensures SameAnswers(Pipeline(context, window, a, policy, h),
                        Pipeline(context, window, b, policy, TurnedDocument(h, flip)))
  {
    hide Pipeline, PredicateFinding, AllAlike, Compose, Hypothesis.Valid, NonBlank, Verdicts;
    AlikeInputs(window, policy, a, b, flip);
    var other := TurnedDocument(h, flip);
    FlippedValidity(h);
    PipelineDecidesRawPoints(context, window, a, policy, h);
    PipelineDecidesRawPoints(context, window, b, policy, other);
    if Pipeline(context, window, a, policy, h).Success? {
      var v, w := Pipeline(context, window, a, policy, h).value, Pipeline(context, window, b, policy, other).value;
      forall i | 0 <= i < |h.predicates|
        ensures v.results[i].verdict == w.results[i].verdict && v.results[i].reason == w.results[i].reason
      {
        FindingsAlike(context, window, a, b, policy, h, flip, i);
      }
      SameVerdicts(v.results, w.results);
    }
  }

  lemma SameVerdicts(a: seq<PredicateResult>, b: seq<PredicateResult>)
    requires |a| == |b| && forall i :: 0 <= i < |a| ==> a[i].verdict == b[i].verdict
    ensures Verdicts(a) == Verdicts(b)
  {
  }

  lemma FlippedValidity(h: Hypothesis)
    ensures Flipped(h).Valid() <==> h.Valid()
  {
    hide NonBlank;
    var ps, qs := h.predicates, DualPredicates(h.predicates);
    assert forall i :: 0 <= i < |ps| ==> qs[i].id == ps[i].id && qs[i].key == ps[i].key;
  }

  /** Both fail, or both give every predicate and the document the same verdict and reason. */
  ghost predicate SameAnswers(a: Result<VerificationResult, DomainError>, b: Result<VerificationResult, DomainError>) {
    && (a.Success? <==> b.Success?)
    && (a.Success? ==>
          && |a.value.results| == |b.value.results| && a.value.verdict == b.value.verdict
          && forall i :: 0 <= i < |a.value.results| ==>
               a.value.results[i].verdict == b.value.results[i].verdict
               && a.value.results[i].reason == b.value.results[i].reason)
  }

  /** Mirroring all telemetry and flipping every expected direction keeps every verdict and reason. */
  lemma PipelineIsSignFree(context: Context, window: Window, inputs: seq<SignalInput>, policy: Policy, h: Hypothesis)
    requires context.Valid() && window.Valid() && ValidInputs(inputs) && policy.Valid()
    ensures ValidInputs(NegatedInputs(inputs))
    ensures SameAnswers(Pipeline(context, window, inputs, policy, h),
                        Pipeline(context, window, NegatedInputs(inputs), policy, Flipped(h)))
  {
    hide Pipeline, SameAnswers, Alike, NegatedInput, SignalInput.Valid;
    forall i | 0 <= i < |inputs|
      ensures Alike(window, policy, inputs[i], NegatedInputs(inputs)[i], true)
    {
      NegatedIsAlike(window, policy, inputs[i]);
    }
    AlikeInputsAnswerAlike(context, window, inputs, NegatedInputs(inputs), policy, h, true);
  }

  /** Measuring all telemetry and the floors in another unit changes no verdict and no reason. */
  lemma PipelineIsUnitFree(k: real, context: Context, window: Window, inputs: seq<SignalInput>, policy: Policy,
                           h: Hypothesis)
    requires k > 0.0 && context.Valid() && window.Valid() && ValidInputs(inputs) && policy.Valid()
    ensures ValidInputs(ScaledInputs(k, inputs))
    ensures SameAnswers(Pipeline(context, window, inputs, policy, h),
                        Pipeline(context, window, ScaledInputs(k, inputs), policy, h))
  {
    hide Pipeline, SameAnswers, Alike, ScaledInput, SignalInput.Valid;
    forall i | 0 <= i < |inputs|
      ensures Alike(window, policy, inputs[i], ScaledInputs(k, inputs)[i], false)
    {
      ScaledIsAlike(k, window, policy, inputs[i]);
    }
    AlikeInputsAnswerAlike(context, window, inputs, ScaledInputs(k, inputs), policy, h, false);
  }
}
