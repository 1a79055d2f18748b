/** The deterministic metric-shift baseline: score, evaluate, order, decide. */
module Baseline {
  import opened Prelude
  import opened Text
  import opened Sorting
  import opened Statistics
  import opened Domain

  /** The values observed in `[from, until)`. */
  function ValuesBetween(points: seq<Point>, from: Instant, until: Instant): seq<real> {
    if points == [] then []
    else (if from <= points[0].observedAt < until then [points[0].value] else [])
         + ValuesBetween(points[1..], from, until)
  }

  function PreValues(window: Window, signal: Signal): seq<real> {
    ValuesBetween(signal.points, window.start, window.injection)
  }

  function PostValues(window: Window, signal: Signal): seq<real> {
    ValuesBetween(signal.points, window.injection, window.end)
  }

  function Deviations(values: seq<real>, center: real): (r: seq<real>)
    ensures |r| == |values|
  {
    if values == [] then [] else [Abs(values[0] - center)] + Deviations(values[1..], center)
  }

  /** The robust spread of the pre-injection values, floored absolutely and relatively. */
  function ScaleOf(preMedian: real, preMad: real, absoluteFloor: real, relativeFloor: real): (scale: real)
    ensures absoluteFloor <= scale && 1.4826 * preMad <= scale
  {
    Largest(Times(1.4826, preMad), absoluteFloor, Times(relativeFloor, Max(Abs(preMedian), absoluteFloor)))
  }

  function Largest(x: real, y: real, z: real): (r: real) {
    Max(Max(x, y), z)
  }

  function MadOf(values: seq<real>): real
    requires |values| > 0
  {
    Median(Deviations(values, Median(values)))
  }

  /** The move of the median, measured in units of `scale`. */
  function ShiftIn(scale: real, before: real, after: real): real
    requires scale > 0.0
  {
    (after - before) / scale
  }

  function ScoreCandidate(item: SignalInput, policy: Policy, pre: seq<real>, post: seq<real>): Candidate
    requires item.absoluteFloor > 0.0 && |pre| > 0 && |post| > 0
  {
    var center, after, mad := Median(pre), Median(post), MadOf(pre);
    var scale := ScaleOf(center, mad, item.absoluteFloor, policy.relativeFloor);
    var signed := ShiftIn(scale, center, after);
    Candidate(item.signal.key, |pre|, |post|, center, after, mad, item.absoluteFloor, policy.relativeFloor,
              scale, signed, Abs(signed))
  }

  predicate EnoughPoints(policy: Policy, preCount: int, postCount: int) {
    preCount >= policy.minimumPoints && postCount >= policy.minimumPoints
  }

  function EvaluateSignal(window: Window, item: SignalInput, policy: Policy): (e: Evaluation)
    requires item.Valid() && policy.Valid()
    ensures e.key == item.signal.key
  {
    var pre, post := PreValues(window, item.signal), PostValues(window, item.signal);
    var eligible := EnoughPoints(policy, |pre|, |post|);
    Evaluation(item.signal.key, item.absoluteFloor, |pre|, |post|, eligible,
               if eligible then Some(ScoreCandidate(item, policy, pre, post)) else None)
  }

  ghost predicate ValidInputs(inputs: seq<SignalInput>) {
    forall i :: 0 <= i < |inputs| ==> inputs[i].Valid()
  }

  function EvaluateAll(window: Window, inputs: seq<SignalInput>, policy: Policy): (r: seq<Evaluation>)
    requires ValidInputs(inputs) && policy.Valid()
    ensures |r| == |inputs| && forall i :: 0 <= i < |r| ==> r[i] == EvaluateSignal(window, inputs[i], policy)
  {
    if inputs == [] then []
    else [EvaluateSignal(window, inputs[0], policy)] + EvaluateAll(window, inputs[1..], policy)
  }

  function Keys(evaluations: seq<Evaluation>): (r: seq<string>)
    ensures |r| == |evaluations| && forall i :: 0 <= i < |r| ==> r[i] == evaluations[i].key
  {
    if evaluations == [] then [] else [evaluations[0].key] + Keys(evaluations[1..])
  }

  function InputKeys(inputs: seq<SignalInput>): (r: seq<string>)
    ensures |r| == |inputs| && forall i :: 0 <= i < |r| ==> r[i] == inputs[i].signal.key
  {
    if inputs == [] then [] else [inputs[0].signal.key] + InputKeys(inputs[1..])
  }

  function CandidateKeys(candidates: seq<Candidate>): (r: seq<string>)
    ensures |r| == |candidates| && forall i :: 0 <= i < |r| ==> r[i] == candidates[i].key
  {
    if candidates == [] then [] else [candidates[0].key] + CandidateKeys(candidates[1..])
  }

  /** The candidates of the eligible evaluations, in evaluation order. */
  function Candidates(evaluations: seq<Evaluation>): seq<Candidate> {
    if evaluations == [] then []
    else CandidateOf(evaluations[0]) + Candidates(evaluations[1..])
  }

  function CandidateOf(e: Evaluation): seq<Candidate> {
    if e.candidate.Some? then [e.candidate.value] else []
  }

  predicate ByKey(a: Evaluation, b: Evaluation) {
    AtMost(a.key, b.key)
  }

  /** Highest suspicion first; ties broken by key. */
  predicate BySuspicion(a: Candidate, b: Candidate) {
    a.suspicion > b.suspicion || (a.suspicion == b.suspicion && AtMost(a.key, b.key))
  }

  /** The candidates of a set of evaluations, ranked; any arrangement of them gives this. */
  function RankedCandidates(evaluations: seq<Evaluation>): seq<Candidate> {
    Sort(BySuspicion, Candidates(evaluations))
  }

  function TopScore(candidates: seq<Candidate>): Option<real> {
    if |candidates| > 0 then Some(candidates[0].suspicion) else None
  }

  function SecondScore(candidates: seq<Candidate>): Option<real> {
    if |candidates| > 1 then Some(candidates[1].suspicion) else None
  }

  /** The baseline's own decision table over its ordered candidates. */
  function Decide(policy: Policy, evaluations: seq<Evaluation>, candidates: seq<Candidate>): BaselineResult {
    var top, second := TopScore(candidates), SecondScore(candidates);
    if |candidates| == 0 then
      Abstention(policy, InsufficientSignals, evaluations, [], 0, None, None)
    else if top.value < policy.minimumScore then
      Abstention(policy, WeakSignals, evaluations, candidates, |candidates|, top, second)
    else if second.Some? && top.value - second.value < policy.minimumMargin then
      Abstention(policy, AmbiguousSignals, evaluations, candidates, |candidates|, top, second)
    else
      Ranking(policy, evaluations, candidates,
              if second.None? then PlusInfinity else Finite(top.value - second.value))
  }

  function Rank(window: Window, inputs: seq<SignalInput>, policy: Policy): Result<BaselineResult, DomainError>
    requires ValidInputs(inputs) && policy.Valid()
  {
    if !Distinct(InputKeys(inputs)) then Failure(DuplicateSignal)
    else
      var evaluations := Sort(ByKey, EvaluateAll(window, inputs, policy));
      Success(Decide(policy, evaluations, RankedCandidates(evaluations)))
  }

  // ----- orderings -----

  lemma ByKeyOrdering()
    ensures Ordering(ByKey)
  {
    forall a: Evaluation, b: Evaluation
      ensures ByKey(a, b) || ByKey(b, a)
    {
      LessIsTotal(a.key, b.key);
    }
    forall a: Evaluation, b: Evaluation, c: Evaluation | ByKey(a, b) && ByKey(b, c)
      ensures ByKey(a, c)
    {
      AtMostIsTransitive(a.key, b.key, c.key);
    }
  }

  lemma BySuspicionOrdering()
    ensures Ordering(BySuspicion)
  {
    forall a: Candidate, b: Candidate
      ensures BySuspicion(a, b) || BySuspicion(b, a)
    {
      LessIsTotal(a.key, b.key);
    }
    forall a: Candidate, b: Candidate, c: Candidate | BySuspicion(a, b) && BySuspicion(b, c)
      ensures BySuspicion(a, c)
    {
      if a.suspicion == b.suspicion == c.suspicion {
        AtMostIsTransitive(a.key, b.key, c.key);
      }
    }
  }

  lemma DistinctKeysDoNotTie(evaluations: seq<Evaluation>)
    requires Distinct(Keys(evaluations))
    ensures TieFree(ByKey, evaluations)
  {
    forall i, j | 0 <= i < |evaluations| && 0 <= j < |evaluations|
                  && ByKey(evaluations[i], evaluations[j]) && ByKey(evaluations[j], evaluations[i])
      ensures evaluations[i] == evaluations[j]
    {
      AtMostIsAntisymmetric(evaluations[i].key, evaluations[j].key);
      assert Keys(evaluations)[i] == Keys(evaluations)[j];
    }
  }

  lemma DistinctCandidatesDoNotTie(candidates: seq<Candidate>)
    requires Distinct(CandidateKeys(candidates))
    ensures TieFree(BySuspicion, candidates)
  {
    forall i, j | 0 <= i < |candidates| && 0 <= j < |candidates|
                  && BySuspicion(candidates[i], candidates[j]) && BySuspicion(candidates[j], candidates[i])
      ensures candidates[i] == candidates[j]
    {
      AtMostIsAntisymmetric(candidates[i].key, candidates[j].key);
      assert CandidateKeys(candidates)[i] == CandidateKeys(candidates)[j];
    }
  }

  /** Every candidate carries the key of the evaluation it scores. */
  ghost predicate CandidatesKeyed(evaluations: seq<Evaluation>) {
    forall i :: 0 <= i < |evaluations| && evaluations[i].candidate.Some?
      ==> evaluations[i].candidate.value.key == evaluations[i].key
  }

  /** A candidate comes from some evaluation. */
  lemma {:induction false} CandidateOrigin(evaluations: seq<Evaluation>, c: Candidate)
    ensures c in Candidates(evaluations)
      <==> exists i :: 0 <= i < |evaluations| && evaluations[i].candidate == Some(c)
  {
    if evaluations != [] {
      var rest := evaluations[1..];
      CandidateOrigin(rest, c);
      if i :| 0 <= i < |rest| && rest[i].candidate == Some(c) {
        assert evaluations[i + 1].candidate == Some(c);
      }
      if i :| 0 <= i < |evaluations| && evaluations[i].candidate == Some(c) {
        assert i > 0 ==> rest[i - 1].candidate == Some(c);
      }
    }
  }

  lemma FirstKeyIsFresh(evaluations: seq<Evaluation>)
    requires evaluations != [] && Distinct(Keys(evaluations)) && CandidatesKeyed(evaluations)
    ensures forall c :: c in Candidates(evaluations[1..]) ==> c.key != evaluations[0].key
  {
    var rest := evaluations[1..];
    forall c | c in Candidates(rest)
      ensures c.key != evaluations[0].key
    {
      CandidateOrigin(rest, c);
      var i :| 0 <= i < |rest| && rest[i].candidate == Some(c);
      assert rest[i] == evaluations[i + 1];
      assert Keys(evaluations)[0] != Keys(evaluations)[i + 1];
    }
  }

  lemma RestStaysKeyed(evaluations: seq<Evaluation>)
    requires evaluations != [] && Distinct(Keys(evaluations)) && CandidatesKeyed(evaluations)
    ensures Distinct(Keys(evaluations[1..])) && CandidatesKeyed(evaluations[1..])
  {
    var rest := evaluations[1..];
    assert forall i :: 0 <= i < |rest| ==> rest[i] == evaluations[i + 1] && Keys(rest)[i] == Keys(evaluations)[i + 1];
  }

  lemma {:induction false} CandidatesAreDistinct(evaluations: seq<Evaluation>)
    requires Distinct(Keys(evaluations)) && CandidatesKeyed(evaluations)
    ensures Distinct(CandidateKeys(Candidates(evaluations)))
  {
    if evaluations != [] {
      hide Keys, CandidateKeys;
      RestStaysKeyed(evaluations);
      CandidatesAreDistinct(evaluations[1..]);
      FirstKeyIsFresh(evaluations);
      if evaluations[0].candidate.Some? {
        var c, tail := evaluations[0].candidate.value, Candidates(evaluations[1..]);
        assert Candidates(evaluations) == [c] + tail;
        assert CandidateKeys([c] + tail) == [c.key] + CandidateKeys(tail);
        forall j | 0 <= j < |tail|
          ensures CandidateKeys(tail)[j] != c.key
        {
          assert tail[j] in tail;
        }
      } else {
        assert Candidates(evaluations) == Candidates(evaluations[1..]);
      }
    }
  }

  lemma {:induction false} CandidatesOfConcat(a: seq<Evaluation>, b: seq<Evaluation>)
    ensures Candidates(a + b) == Candidates(a) + Candidates(b)
  {
    if a == [] {
      assert a + b == b;
    } else {
      hide CandidateOf;
      assert (a + b)[0] == a[0] && (a + b)[1..] == a[1..] + b;
      CandidatesOfConcat(a[1..], b);
    }
  }

  lemma {:induction false} CandidatesAreOrderFree(a: seq<Evaluation>, b: seq<Evaluation>)
    requires multiset(a) == multiset(b)
    ensures multiset(Candidates(a)) == multiset(Candidates(b))
    decreases |a|
  {
    hide Candidates, Distinct;
    assert |a| == |multiset(a)| == |multiset(b)| == |b|;
    if a == [] {
      assert b == [];
    } else {
      var k := MatchFirst(a, b);
      var rest := b[..k] + b[k + 1..];
      CandidatesWithout(a, 0);
      assert a[..0] + a[1..] == a[1..];
      CandidatesAreOrderFree(a[1..], rest);
      CandidatesWithout(b, k);
    }
  }

  lemma CandidatesWithout(s: seq<Evaluation>, k: nat)
    requires k < |s|
    ensures multiset(Candidates(s)) == multiset(Candidates([s[k]])) + multiset(Candidates(s[..k] + s[k + 1..]))
  {
    hide Candidates;
    assert s == s[..k] + [s[k]] + s[k + 1..];
    CandidatesOfConcat(s[..k], s[k + 1..]);
    CandidatesOfConcat(s[..k], [s[k]]);
    CandidatesOfConcat(s[..k] + [s[k]], s[k + 1..]);
  }

  lemma RankedCandidatesAreOrderFree(a: seq<Evaluation>, b: seq<Evaluation>)
    requires multiset(a) == multiset(b) && Distinct(Keys(a)) && CandidatesKeyed(a)
    ensures RankedCandidates(a) == RankedCandidates(b)
  {
    CandidatesAreOrderFree(a, b);
    CandidatesAreDistinct(a);
    DistinctCandidatesDoNotTie(Candidates(a));
    BySuspicionOrdering();
    SortIsOrderFree(BySuspicion, Candidates(a), Candidates(b));
  }

  lemma KeysAreOrderFree(a: seq<Evaluation>, b: seq<Evaluation>)
    requires multiset(a) == multiset(b)
    ensures multiset(Keys(a)) == multiset(Keys(b))
  {
    PermutedImages(a, b, Keys(a), Keys(b));
  }

  // ----- the ranking does not depend on the order telemetry arrives in -----

  lemma EvaluationKeys(window: Window, inputs: seq<SignalInput>, policy: Policy)
    requires ValidInputs(inputs) && policy.Valid()
    ensures Keys(EvaluateAll(window, inputs, policy)) == InputKeys(inputs)
    ensures CandidatesKeyed(EvaluateAll(window, inputs, policy))
  {
  }

  /** Permuting the telemetry changes neither the ranking nor the abstention. */
  lemma RankIsOrderFree(window: Window, a: seq<SignalInput>, b: seq<SignalInput>, policy: Policy)
    requires ValidInputs(a) && policy.Valid() && multiset(a) == multiset(b)
    ensures ValidInputs(b) && Rank(window, a, policy) == Rank(window, b, policy)
  {
    forall i | 0 <= i < |b|
      ensures b[i].Valid()
    {
      assert b[i] in multiset(a);
      var k := IndexOf(a, b[i]);
    }
    var ea, eb := EvaluateAll(window, a, policy), EvaluateAll(window, b, policy);
    PermutedImages(a, b, ea, eb);
    PermutedImages(a, b, InputKeys(a), InputKeys(b));
    if Distinct(InputKeys(a)) {
      DistinctIsOrderFree(InputKeys(a), InputKeys(b));
      EvaluationKeys(window, a, policy);
      DistinctKeysDoNotTie(ea);
      ByKeyOrdering();
      SortIsOrderFree(ByKey, ea, eb);
    } else if Distinct(InputKeys(b)) {
      DistinctIsOrderFree(InputKeys(b), InputKeys(a));
    }
  }

  // ----- symmetry of the score -----

  lemma {:induction false} DeviationsOfNegated(values: seq<real>, center: real)
    ensures Deviations(Negated(values), -center) == Deviations(values, center)
  {
    if values != [] {
      assert Negated(values)[1..] == Negated(values[1..]);
      DeviationsOfNegated(values[1..], center);
    }
  }

  lemma ShiftOfNegated(scale: real, before: real, after: real)
    requires scale > 0.0
    ensures ShiftIn(scale, -before, -after) == -ShiftIn(scale, before, after)
  {
  }

  lemma {:induction false} MadOfNegated(values: seq<real>)
    requires |values| > 0
    ensures MadOf(Negated(values)) == MadOf(values)
  {
    hide Median, Deviations, Negated;
    MedianOfNegated(values);
    DeviationsOfNegated(values, Median(values));
    assert Deviations(Negated(values), Median(Negated(values))) == Deviations(values, Median(values));
  }

  lemma ScaleOfNegated(center: real, mad: real, absoluteFloor: real, relativeFloor: real)
    ensures ScaleOf(-center, mad, absoluteFloor, relativeFloor) == ScaleOf(center, mad, absoluteFloor, relativeFloor)
  {
    hide Times, Largest, Max;
    assert Abs(-center) == Abs(center);
  }

  /** Mirroring every value mirrors the signed score and keeps scale and suspicion. */
  lemma ScoreOfNegated(item: SignalInput, policy: Policy, pre: seq<real>, post: seq<real>)
    requires item.absoluteFloor > 0.0 && |pre| > 0 && |post| > 0
    ensures var c, m := ScoreCandidate(item, policy, pre, post),
                        ScoreCandidate(item, policy, Negated(pre), Negated(post));
            m.signedScore == -c.signedScore && m.suspicion == c.suspicion && m.scale == c.scale
  {
    hide ShiftIn, ScaleOf, MadOf, Median, Negated;
    MedianOfNegated(pre);
    MedianOfNegated(post);
    MadOfNegated(pre);
    ScaleOfNegated(Median(pre), MadOf(pre), item.absoluteFloor, policy.relativeFloor);
    ShiftOfNegated(ScaleOf(Median(pre), MadOf(pre), item.absoluteFloor, policy.relativeFloor),
                   Median(pre), Median(post));
  }

  lemma AbsOfTimes(k: real, x: real, y: real)
    requires k > 0.0
    ensures Abs(Times(k, x) - Times(k, y)) == Times(k, Abs(x - y)) && Abs(Times(k, x)) == Times(k, Abs(x))
  {
    ScalingPreservesOrder(k, x, y);
    ScalingPreservesOrder(k, y, x);
    ScalingPreservesOrder(k, 0.0, x);
    ScalingPreservesOrder(k, x, 0.0);
    assert Times(k, x - y) == Times(k, x) - Times(k, y);
    assert Times(k, 0.0) == 0.0;
  }

  lemma {:induction false} DeviationsOfScaled(k: real, values: seq<real>, center: real)
    requires k > 0.0
    ensures Deviations(Scaled(k, values), Times(k, center)) == Scaled(k, Deviations(values, center))
  {
    if values != [] {
      AbsOfTimes(k, values[0], center);
      assert Scaled(k, values)[1..] == Scaled(k, values[1..]);
      var d := Deviations(values, center);
      assert d[0] == Abs(values[0] - center) && d[1..] == Deviations(values[1..], center);
      DeviationsOfScaled(k, values[1..], center);
    }
  }

  lemma MaxOfTimes(k: real, x: real, y: real)
    requires k > 0.0
    ensures Max(Times(k, x), Times(k, y)) == Times(k, Max(x, y))
  {
    ScalingPreservesOrder(k, x, y);
    ScalingPreservesOrder(k, y, x);
  }

  lemma TimesAssociates(k: real, x: real, y: real)
    ensures Times(x, Times(k, y)) == Times(k, Times(x, y))
  {
  }

  lemma LargestOfTimes(k: real, x: real, y: real, z: real)
    requires k > 0.0
    ensures Largest(Times(k, x), Times(k, y), Times(k, z)) == Times(k, Largest(x, y, z))
  {
    MaxOfTimes(k, x, y);
    MaxOfTimes(k, Max(x, y), z);
  }

  lemma ScaleOfScaled(k: real, center: real, mad: real, absoluteFloor: real, relativeFloor: real)
    requires k > 0.0
    ensures ScaleOf(Times(k, center), Times(k, mad), Times(k, absoluteFloor), relativeFloor)
            == Times(k, ScaleOf(center, mad, absoluteFloor, relativeFloor))
  {
    hide Times;
    var reach := Max(Abs(center), absoluteFloor);
    calc {
      ScaleOf(Times(k, center), Times(k, mad), Times(k, absoluteFloor), relativeFloor);
      { AbsOfTimes(k, center, 0.0); MaxOfTimes(k, Abs(center), absoluteFloor); }
      Largest(Times(1.4826, Times(k, mad)), Times(k, absoluteFloor), Times(relativeFloor, Times(k, reach)));
      { TimesAssociates(k, 1.4826, mad); TimesAssociates(k, relativeFloor, reach); }
      Largest(Times(k, Times(1.4826, mad)), Times(k, absoluteFloor), Times(k, Times(relativeFloor, reach)));
      { LargestOfTimes(k, Times(1.4826, mad), absoluteFloor, Times(relativeFloor, reach)); }
      Times(k, Largest(Times(1.4826, mad), absoluteFloor, Times(relativeFloor, reach)));
    }
  }

  lemma TimesIsPositive(k: real, x: real)
    requires k > 0.0 && x > 0.0
    ensures Times(k, x) > 0.0
  {
  }

  lemma QuotientOfTimes(k: real, x: real, y: real)
    requires k > 0.0 && y > 0.0 && k * y > 0.0
    ensures (k * x) / (k * y) == x / y
  {
    var q := x / y;
    assert k * x == k * (q * y) == q * (k * y);
  }

  lemma ShiftOfScaled(k: real, scale: real, before: real, after: real)
    requires k > 0.0 && scale > 0.0 && Times(k, scale) > 0.0
    ensures ShiftIn(Times(k, scale), Times(k, before), Times(k, after)) == ShiftIn(scale, before, after)
  {
    QuotientOfTimes(k, after - before, scale);
    assert Times(k, after) - Times(k, before) == k * (after - before);
  }

  /** Changing the unit of the values and of the absolute floor leaves the score alone. */
  lemma ScoreOfScaled(k: real, item: SignalInput, policy: Policy, pre: seq<real>, post: seq<real>)
    requires k > 0.0 && item.absoluteFloor > 0.0 && |pre| > 0 && |post| > 0
    ensures Times(k, item.absoluteFloor) > 0.0
    ensures var c := ScoreCandidate(item, policy, pre, post);
            var s := ScoreCandidate(item.(absoluteFloor := Times(k, item.absoluteFloor)), policy,
                                    Scaled(k, pre), Scaled(k, post));
            s.signedScore == c.signedScore && s.suspicion == c.suspicion && s.scale == Times(k, c.scale)
  {
    hide ShiftIn, Times, Median, Deviations, Scaled;
    TimesIsPositive(k, item.absoluteFloor);
    MedianOfScaled(k, pre);
    MedianOfScaled(k, post);
    DeviationsOfScaled(k, pre, Median(pre));
    MedianOfScaled(k, Deviations(pre, Median(pre)));
    var scale := ScaleOf(Median(pre), MadOf(pre), item.absoluteFloor, policy.relativeFloor);
    ScaleOfScaled(k, Median(pre), MadOf(pre), item.absoluteFloor, policy.relativeFloor);
    TimesIsPositive(k, scale);
    ShiftOfScaled(k, scale, Median(pre), Median(post));
  }
}
