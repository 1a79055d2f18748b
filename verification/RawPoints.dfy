/** What the numbers of the baseline mean, said of the telemetry points themselves. */
module RawPoints {
  import opened Prelude
  import opened Text
  import opened Sorting
  import opened Statistics
  import opened OrderStatistics
  import opened Domain
  import opened Baseline
  import Ledger
  import opened Hypotheses
  import opened Verifier
  import opened EndToEnd

  // ----- a signal is a series -----

  /** No point is as late as the next one. */
  predicate Ascends(points: seq<Point>) {
    forall i :: 0 < i < |points| ==> points[i - 1].observedAt < points[i].observedAt
  }

  lemma {:induction false} AscendingApart(points: seq<Point>, i: nat, j: nat)
    requires Ascends(points) && i < j < |points|
    ensures points[i].observedAt < points[j].observedAt
  {
    if i + 1 < j {
      AscendingApart(points, i, j - 1);
    }
  }

  /** Comparing neighbours, as the constructor does, is enough to have every instant at most once and in order. */
  lemma ValidSignalAscends(signal: Signal)
    ensures signal.Valid() <==> NonBlank(signal.key) && Ascends(signal.points)
  {
    hide NonBlank;
    if Ascends(signal.points) {
      forall i, j | 0 <= i < j < |signal.points|
        ensures signal.points[i].observedAt < signal.points[j].observedAt
      {
        AscendingApart(signal.points, i, j);
      }
    }
  }

  // ----- which points count where -----

  /** The positions of the points observed in `[from, until)`. */
  function Between(points: seq<Point>, from: Instant, until: Instant): set<nat> {
    set i | 0 <= i < |points| && from <= points[i].observedAt < until
  }

  /** Those of them with a given value. */
  function BetweenWith(points: seq<Point>, from: Instant, until: Instant, v: real): set<nat> {
    set i | 0 <= i < |points| && from <= points[i].observedAt < until && points[i].value == v
  }

  lemma {:induction false} ValuesOfLast(points: seq<Point>, last: Point, from: Instant, until: Instant)
    ensures ValuesBetween(points + [last], from, until)
            == ValuesBetween(points, from, until) + ValuesBetween([last], from, until)
  {
    if points == [] {
      assert points + [last] == [last];
    } else {
      assert (points + [last])[0] == points[0] && (points + [last])[1..] == points[1..] + [last];
      ValuesOfLast(points[1..], last, from, until);
    }
  }

  lemma ValuesOfOne(last: Point, from: Instant, until: Instant)
    ensures ValuesBetween([last], from, until) == if from <= last.observedAt < until then [last.value] else []
  {
    assert [last][1..] == [];
  }

  lemma PositionsOfLast(points: seq<Point>, last: Point, from: Instant, until: Instant, v: real)
    ensures var inside := from <= last.observedAt < until;
            && |Between(points + [last], from, until)| == |Between(points, from, until)| + (if inside then 1 else 0)
            && |BetweenWith(points + [last], from, until, v)|
               == |BetweenWith(points, from, until, v)| + (if inside && last.value == v then 1 else 0)
  {
    var n, inside := |points|, from <= last.observedAt < until;
    assert Between(points + [last], from, until) == Between(points, from, until) + if inside then {n} else {};
    assert BetweenWith(points + [last], from, until, v)
           == BetweenWith(points, from, until, v) + if inside && last.value == v then {n} else {};
  }

  lemma {:induction false} ValuesAreCounted(points: seq<Point>, from: Instant, until: Instant, v: real)
    ensures multiset(ValuesBetween(points, from, until))[v] == |BetweenWith(points, from, until, v)|
    ensures |ValuesBetween(points, from, until)| == |Between(points, from, until)|
    decreases |points|
  {
    if points == [] {
      assert BetweenWith(points, from, until, v) == {} && Between(points, from, until) == {};
    } else {
      hide ValuesBetween, Between, BetweenWith;
      var n := |points| - 1;
      var front, last := points[..n], points[n];
      ValuesAreCounted(front, from, until, v);
      assert points == front + [last];
      ValuesOfLast(front, last, from, until);
      ValuesOfOne(last, from, until);
      PositionsOfLast(front, last, from, until, v);
    }
  }

  /**
   * The pre-injection sample holds each value exactly as often as a point in `[start, injection)` has it,
   * and the post-injection sample as often as a point in `[injection, end)`.
   */
  lemma SamplesAreThePoints(window: Window, signal: Signal, v: real)
    ensures multiset(PreValues(window, signal))[v]
            == |set i | 0 <= i < |signal.points| && window.start <= signal.points[i].observedAt < window.injection
                        && signal.points[i].value == v|
    ensures multiset(PostValues(window, signal))[v]
            == |set i | 0 <= i < |signal.points| && window.injection <= signal.points[i].observedAt < window.end
                        && signal.points[i].value == v|
  {
    ValuesAreCounted(signal.points, window.start, window.injection, v);
    ValuesAreCounted(signal.points, window.injection, window.end, v);
  }

  // ----- spread and scale -----

  /** The spread is the middle distance of the values from their median. */
  lemma SpreadIsMiddleDistance(values: seq<real>) returns (distances: seq<real>, lower: real, upper: real)
    requires |values| > 0
    ensures |distances| == |values|
    ensures forall i :: 0 <= i < |values| ==>
      distances[i] == if values[i] < Median(values) then Median(values) - values[i] else values[i] - Median(values)
    ensures HasRank(distances, lower, (|values| - 1) / 2) && HasRank(distances, upper, |values| / 2)
    ensures MadOf(values) == (lower + upper) / 2.0
  {
    hide Median, HasRank;
    distances := Deviations(values, Median(values));
    forall i | 0 <= i < |values|
      ensures distances[i] == Abs(values[i] - Median(values))
    {
      DeviationsAt(values, Median(values), i);
    }
    lower, upper := MedianIsMiddle(distances);
  }

  lemma {:induction false} DeviationsAt(values: seq<real>, center: real, i: nat)
    requires i < |values|
    ensures Deviations(values, center)[i] == Abs(values[i] - center)
  {
    if i > 0 {
      DeviationsAt(values[1..], center, i - 1);
    }
  }

  /** The scale is the largest of the scaled spread, the absolute floor and the relative floor. */
  lemma ScaleIsLargest(center: real, mad: real, absoluteFloor: real, relativeFloor: real)
    requires absoluteFloor > 0.0
    ensures var scale := ScaleOf(center, mad, absoluteFloor, relativeFloor);
            var magnitude := if center < 0.0 then -center else center;
            var relative := relativeFloor * if magnitude < absoluteFloor then absoluteFloor else magnitude;
            && scale >= 1.4826 * mad && scale >= absoluteFloor && scale >= relative
            && (scale == 1.4826 * mad || scale == absoluteFloor || scale == relative)
  {
  }

  /** The relative floor is at least that share of the pre-injection median. */
  lemma ScaleCoversMedian(center: real, mad: real, absoluteFloor: real, relativeFloor: real)
    requires absoluteFloor > 0.0 && relativeFloor >= 0.0
    ensures ScaleOf(center, mad, absoluteFloor, relativeFloor) >= relativeFloor * Abs(center)
  {
    var magnitude := if Abs(center) < absoluteFloor then absoluteFloor else Abs(center);
    ScaleIsLargest(center, mad, absoluteFloor, relativeFloor);
    ProductsGrow(relativeFloor, Abs(center), magnitude);
  }

  lemma ProductsGrow(k: real, x: real, y: real)
    requires k >= 0.0 && x <= y
    ensures k * x <= k * y
  {
  }

  // ----- one signal -----

  /** Everything an evaluation records, read off the points of its signal. */
  lemma EvaluationSaysPoints(window: Window, item: SignalInput, policy: Policy)
    requires item.Valid() && policy.Valid()
    ensures var e, points := EvaluateSignal(window, item, policy), item.signal.points;
            var pre, post := PreValues(window, item.signal), PostValues(window, item.signal);
            && e.key == item.signal.key && e.absoluteFloor == item.absoluteFloor
            && e.preCount == |Between(points, window.start, window.injection)|
            && e.postCount == |Between(points, window.injection, window.end)|
            && (e.eligible <==> e.preCount >= policy.minimumPoints && e.postCount >= policy.minimumPoints)
            && (e.candidate.Some? <==> e.eligible)
            && (e.eligible ==> |pre| > 0 && |post| > 0 && CandidateSays(e, item, policy, pre, post))
  {
    hide Median, MadOf, ScaleOf, ValuesBetween;
    var pre, post := PreValues(window, item.signal), PostValues(window, item.signal);
    ValuesAreCounted(item.signal.points, window.start, window.injection, 0.0);
    ValuesAreCounted(item.signal.points, window.injection, window.end, 0.0);
    if EnoughPoints(policy, |pre|, |post|) {
      var c := ScoreCandidate(item, policy, pre, post);
      QuotientTimes(c.postMedian - c.preMedian, c.scale);
    }
  }

  lemma QuotientTimes(x: real, y: real)
    requires y > 0.0
    ensures x / y * y == x
  {
  }

  /** The candidate belongs to its evaluation, and its score times its scale is the move of the median. */
  ghost predicate CandidateSays(e: Evaluation, item: SignalInput, policy: Policy, pre: seq<real>, post: seq<real>)
    requires |pre| > 0 && |post| > 0
  {
    && e.candidate.Some?
    && var c := e.candidate.value;
    && c.key == e.key && c.preCount == e.preCount && c.postCount == e.postCount
    && c.preMedian == Median(pre) && c.postMedian == Median(post) && c.preMad == MadOf(pre)
    && c.absoluteFloor == item.absoluteFloor && c.relativeFloor == policy.relativeFloor
    && c.scale == ScaleOf(Median(pre), MadOf(pre), item.absoluteFloor, policy.relativeFloor)
    && c.signedScore * c.scale == Median(post) - Median(pre)
    && c.suspicion == if c.signedScore < 0.0 then -c.signedScore else c.signedScore
  }

  // ----- the decision -----

  /** Strictly descending suspicion, ties by ascending key. */
  ghost predicate Descending(candidates: seq<Candidate>) {
    forall i, j :: 0 <= i < j < |candidates| ==>
      || candidates[i].suspicion > candidates[j].suspicion
      || (candidates[i].suspicion == candidates[j].suspicion && Less(candidates[i].key, candidates[j].key))
  }

  /** Strictly ascending keys. */
  ghost predicate Ascending(evaluations: seq<Evaluation>) {
    forall i, j :: 0 <= i < j < |evaluations| ==> Less(evaluations[i].key, evaluations[j].key)
  }

  /** When the baseline ranks, and otherwise why it does not, by the scores of its candidates alone. */
  ghost predicate DecidesByScores(result: BaselineResult, policy: Policy) {
    var cs := result.candidates;
    && result.policy == policy
    && (result.Ranking? <==> |cs| > 0 && cs[0].suspicion >= policy.minimumScore
                             && (|cs| == 1 || cs[0].suspicion - cs[1].suspicion >= policy.minimumMargin))
    && (result.Ranking? ==>
          result.lead == if |cs| == 1 then PlusInfinity else Finite(cs[0].suspicion - cs[1].suspicion))
    && (result.Abstention? ==>
          && (result.reason == InsufficientSignals <==> |cs| == 0)
          && (result.reason == WeakSignals <==> |cs| > 0 && cs[0].suspicion < policy.minimumScore)
          && result.eligibleCount == |cs|
          && result.top == (if |cs| > 0 then Some(cs[0].suspicion) else None)
          && result.second == (if |cs| > 1 then Some(cs[1].suspicion) else None))
  }

  /**
   * What ranking says: every signal evaluated, in ascending key order; exactly the eligible ones as candidates,
   * in strictly descending suspicion with ties by key; and the decision their scores alone determine.
   */
  lemma RankSays(window: Window, inputs: seq<SignalInput>, policy: Policy)
    requires ValidInputs(inputs) && policy.Valid() && Rank(window, inputs, policy).Success?
    ensures var result := Rank(window, inputs, policy).value;
            && multiset(result.evaluations) == multiset(EvaluateAll(window, inputs, policy))
            && Ascending(result.evaluations) && Descending(result.candidates)
            && (forall c :: c in result.candidates
                  <==> exists i :: 0 <= i < |inputs| && EvaluateSignal(window, inputs[i], policy).candidate == Some(c))
            && DecidesByScores(result, policy)
  {
    hide EvaluateSignal, Candidates, Sort, Decide, Less;
    var es := EvaluateAll(window, inputs, policy);
    var ordered := Sort(ByKey, es);
    RankedEvaluations(window, inputs, policy);
    EvaluationKeys(window, inputs, policy);
    SortedKeysAscend(es);
    RankedDescend(es, ordered);
    DecideByScores(policy, ordered, RankedCandidates(ordered));
    forall c
      ensures c in RankedCandidates(ordered) <==> exists i :: 0 <= i < |inputs| && es[i].candidate == Some(c)
    {
      RankedFrom(es, ordered, c);
    }
  }

  lemma RankedFrom(es: seq<Evaluation>, ordered: seq<Evaluation>, c: Candidate)
    requires ordered == Sort(ByKey, es)
    ensures c in RankedCandidates(ordered) <==> exists i :: 0 <= i < |es| && es[i].candidate == Some(c)
  {
    hide Candidates, Sort;
    SortContents(ByKey, es);
    CandidatesAreOrderFree(ordered, es);
    SortContents(BySuspicion, Candidates(ordered));
    CandidateOrigin(es, c);
    assert c in RankedCandidates(ordered) <==> c in multiset(Candidates(es));
  }

  lemma SortedKeysAscend(es: seq<Evaluation>)
    requires Distinct(Keys(es))
    ensures Ascending(Sort(ByKey, es))
  {
    hide Sort, Less;
    var ordered := Sort(ByKey, es);
    ByKeyOrdering();
    SortSorts(ByKey, es);
    SortContents(ByKey, es);
    KeysAreOrderFree(es, ordered);
    DistinctIsOrderFree(Keys(es), Keys(ordered));
    forall i, j | 0 <= i < j < |ordered|
      ensures Less(ordered[i].key, ordered[j].key)
    {
      assert ByKey(ordered[i], ordered[j]) && Keys(ordered)[i] != Keys(ordered)[j];
    }
  }

  lemma OrderedStayKeyed(es: seq<Evaluation>, ordered: seq<Evaluation>)
    requires ordered == Sort(ByKey, es) && Distinct(Keys(es)) && CandidatesKeyed(es)
    ensures Distinct(Keys(ordered)) && CandidatesKeyed(ordered)
  {
    hide Sort;
    ByKeyOrdering();
    SortContents(ByKey, es);
    KeysAreOrderFree(es, ordered);
    DistinctIsOrderFree(Keys(es), Keys(ordered));
    forall i | 0 <= i < |ordered| && ordered[i].candidate.Some?
      ensures ordered[i].candidate.value.key == ordered[i].key
    {
      assert ordered[i] in multiset(es);
      var k := IndexOf(es, ordered[i]);
    }
  }

  lemma RankedDiffer(cs: seq<Candidate>, ranked: seq<Candidate>)
    requires ranked == Sort(BySuspicion, cs) && Distinct(CandidateKeys(cs))
    ensures Distinct(CandidateKeys(ranked)) && Sorted(BySuspicion, ranked)
  {
    hide Sort, BySuspicion;
    BySuspicionOrdering();
    SortSorts(BySuspicion, cs);
    SortContents(BySuspicion, cs);
    PermutedImages(cs, ranked, CandidateKeys(cs), CandidateKeys(ranked));
    DistinctIsOrderFree(CandidateKeys(cs), CandidateKeys(ranked));
  }

  lemma RankedDescend(es: seq<Evaluation>, ordered: seq<Evaluation>)
    requires ordered == Sort(ByKey, es) && Distinct(Keys(es)) && CandidatesKeyed(es)
    ensures Descending(RankedCandidates(ordered))
  {
    hide Sort, Less, Candidates, CandidatesKeyed;
    OrderedStayKeyed(es, ordered);
    CandidatesAreDistinct(ordered);
    var ranked := RankedCandidates(ordered);
    RankedDiffer(Candidates(ordered), ranked);
    forall i, j | 0 <= i < j < |ranked|
      ensures ranked[i].suspicion > ranked[j].suspicion
              || (ranked[i].suspicion == ranked[j].suspicion && Less(ranked[i].key, ranked[j].key))
    {
      assert BySuspicion(ranked[i], ranked[j]) && CandidateKeys(ranked)[i] != CandidateKeys(ranked)[j];
    }
  }

  lemma DecideByScores(policy: Policy, evaluations: seq<Evaluation>, candidates: seq<Candidate>)
    ensures var result := Decide(policy, evaluations, candidates);
            DecidesByScores(result, policy) && result.evaluations == evaluations && result.candidates == candidates
  {
  }

  // ----- a law of the whole pipeline on points alone -----

  /** Every point before the injection lies below every point after it. */
  ghost predicate Rises(window: Window, points: seq<Point>) {
    forall i, j :: 0 <= i < |points| && 0 <= j < |points|
      && window.start <= points[i].observedAt < window.injection
      && window.injection <= points[j].observedAt < window.end
      ==> points[i].value < points[j].value
  }

  lemma SampleMember(points: seq<Point>, from: Instant, until: Instant, k: nat) returns (i: nat)
    requires k < |ValuesBetween(points, from, until)|
    ensures i < |points| && from <= points[i].observedAt < until
    ensures points[i].value == ValuesBetween(points, from, until)[k]
  {
    hide ValuesBetween;
    var v := ValuesBetween(points, from, until)[k];
    ValuesAreCounted(points, from, until, v);
    assert v in multiset(ValuesBetween(points, from, until));
    assert |BetweenWith(points, from, until, v)| > 0;
    i :| i in BetweenWith(points, from, until, v);
  }

  lemma RisingMedians(window: Window, signal: Signal)
    requires Rises(window, signal.points)
    requires |PreValues(window, signal)| > 0 && |PostValues(window, signal)| > 0
    ensures Median(PreValues(window, signal)) < Median(PostValues(window, signal))
  {
    hide Median, ValuesBetween;
    var a, _ := MedianIsBetween(PostValues(window, signal));
    var _, b := MedianIsBetween(PreValues(window, signal));
    var j := SampleMember(signal.points, window.injection, window.end, a);
    var i := SampleMember(signal.points, window.start, window.injection, b);
  }

  lemma RisingFinding(window: Window, item: SignalInput, policy: Policy, expected: Direction)
    requires item.Valid() && policy.Valid() && Rises(window, item.signal.points)
    ensures SignalFinding(window, item, policy, expected).verdict
            != if expected.Increase? then Refuted else Supported
  {
    hide Median, MadOf, ScaleOf, Rises, PreValues, PostValues;
    var pre, post := PreValues(window, item.signal), PostValues(window, item.signal);
    if |pre| >= policy.minimumPoints && |post| >= policy.minimumPoints {
      RisingMedians(window, item.signal);
    }
  }

  /**
   * If every signal's points rise through the injection, then no document whatever has an increase refuted or a
   * decrease supported by the pipeline.
   */
  lemma RisingPointsNeverFall(context: Context, window: Window, inputs: seq<SignalInput>, policy: Policy, h: Hypothesis,
                              i: nat)
    requires context.Valid() && window.Valid() && ValidInputs(inputs) && policy.Valid()
    requires forall k :: 0 <= k < |inputs| ==> Rises(window, inputs[k].signal.points)
    requires Pipeline(context, window, inputs, policy, h).Success? && i < |h.predicates|
    ensures var v := Pipeline(context, window, inputs, policy, h).value;
            && |v.results| == |h.predicates|
            && v.results[i].verdict != if h.predicates[i].expected.Increase? then Refuted else Supported
  {
    hide Pipeline, SignalFinding, Rises, Compose, NonBlank;
    PipelineDecidesRawPoints(context, window, inputs, policy, h);
    InputForIsInput(inputs, h.predicates[i].key);
    var item := InputFor(inputs, h.predicates[i].key);
    if item.Some? {
      RisingFinding(window, item.value, policy, h.predicates[i].expected);
    }
  }

  // ----- what an accepted ledger says -----

  /** The entry is what its own recorded statistics determine, under an identifier of its content. */
  ghost predicate EntrySays(l: MetricLedger, e: MetricEntry) {
    && NonBlank(e.key) && e.absoluteFloor > 0.0 && e.preCount >= 0 && e.postCount >= 0
    && e.relativeFloor == l.policy.relativeFloor
    && (e.eligible <==> e.preCount >= l.policy.minimumPoints && e.postCount >= l.policy.minimumPoints)
    && e.id == MetricDigest(MetricContent("metric-evidence-ledger.v1", l.context, l.window, l.policy, l.decision, e.key,
                                          e.preCount, e.postCount, e.eligible, e.absoluteFloor, e.relativeFloor,
                                          e.candidate))
    && (!e.eligible ==> e.candidate.None?)
    && (e.eligible ==>
          && e.candidate.Some?
          && var c := e.candidate.value;
          && c.key == e.key && c.preCount == e.preCount && c.postCount == e.postCount && c.preMad >= 0.0
          && c.absoluteFloor == e.absoluteFloor && c.relativeFloor == e.relativeFloor
          && c.scale == ScaleOf(c.preMedian, c.preMad, c.absoluteFloor, c.relativeFloor) && c.scale > 0.0
          && c.signedScore * c.scale == c.postMedian - c.preMedian
          && c.suspicion == if c.signedScore < 0.0 then -c.signedScore else c.signedScore)
  }

  /** The recorded decision is what the scores of some descending candidates determine. */
  ghost predicate DecisionSays(d: Decision, policy: Policy, cs: seq<Candidate>) {
    var ranks := |cs| > 0 && cs[0].suspicion >= policy.minimumScore
                 && (|cs| == 1 || cs[0].suspicion - cs[1].suspicion >= policy.minimumMargin);
    && d.kind == (if ranks then RankingKind else AbstentionKind)
    && d.reason == (if ranks then None
                    else if |cs| == 0 then Some(InsufficientSignals)
                    else if cs[0].suspicion < policy.minimumScore then Some(WeakSignals)
                    else Some(AmbiguousSignals))
    && |d.candidateKeys| == |cs| && (forall i :: 0 <= i < |cs| ==> d.candidateKeys[i] == cs[i].key)
    && d.eligibleCount == |cs|
    && d.top == (if |cs| > 0 then Some(cs[0].suspicion) else None)
    && d.second == (if |cs| > 1 then Some(cs[1].suspicion) else None)
    && d.lead == (if ranks && |cs| > 1 then Some(cs[0].suspicion - cs[1].suspicion) else None)
  }

  /**
   * An accepted ledger: its schema and a well-formed header; entries in strictly ascending key order, each
   * determined by its own statistics and identified by its own content; and the decision of their candidates.
   */
  lemma AcceptedLedgerSays(l: MetricLedger) returns (cs: seq<Candidate>)
    requires Ledger.Validated(l).Some?
    ensures l.schema == "metric-evidence-ledger.v1" && l.context.Valid()
    ensures l.window.start <= l.window.injection < l.window.end && l.policy.Valid()
    ensures forall i, j :: 0 <= i < j < |l.entries| ==> Less(l.entries[i].key, l.entries[j].key)
    ensures forall i :: 0 <= i < |l.entries| ==> EntrySays(l, l.entries[i])
    ensures Descending(cs) && DecisionSays(l.decision, l.policy, cs)
    ensures forall c :: c in cs <==> exists i :: 0 <= i < |l.entries| && l.entries[i].candidate == Some(c)
  {
    hide Ledger.Validated, Ledger.EvaluationAccepted, Candidates, Sort, Decide, Less, NonBlank, ScaleOf;
    Ledger.AcceptedIsFaithful(l);
    var es := Ledger.EvaluationsOf(l.entries);
    cs := RankedCandidates(es);
    Ledger.AcceptedAreKeyed(es, l.policy);
    ByKeyOrdering();
    Ledger.SortOfStrictlyOrdered(es);
    SortedKeysAscend(es);
    RankedDescend(es, es);
    DecisionOfScores(l.policy, es, cs);
    forall i, j | 0 <= i < j < |l.entries|
      ensures Less(l.entries[i].key, l.entries[j].key)
    {
      assert Less(es[i].key, es[j].key);
    }
    forall i | 0 <= i < |l.entries|
      ensures EntrySays(l, l.entries[i])
    {
      assert Ledger.EvaluationAccepted(es[i], l.policy);
      AcceptedEntrySays(l, i);
    }
    forall c
      ensures c in cs <==> exists i :: 0 <= i < |l.entries| && l.entries[i].candidate == Some(c)
    {
      RankedFrom(es, es, c);
    }
  }

  lemma DecisionOfScores(policy: Policy, es: seq<Evaluation>, cs: seq<Candidate>)
    ensures DecisionSays(Ledger.Snapshot(Decide(policy, es, cs)), policy, cs)
  {
  }

  lemma AcceptedEntrySays(l: MetricLedger, i: nat)
    requires i < |l.entries| && Ledger.EvaluationAccepted(Ledger.EvaluationOf(l.entries[i]), l.policy)
    requires l.entries[i]
             == Ledger.EntryOf(l.context, l.window, l.policy, l.decision, Ledger.EvaluationOf(l.entries[i]))
    ensures EntrySays(l, l.entries[i])
  {
    hide ScaleOf, NonBlank;
    var e := l.entries[i];
    if e.eligible {
      QuotientTimes(e.candidate.value.postMedian - e.candidate.value.preMedian, e.candidate.value.scale);
    }
  }
}
