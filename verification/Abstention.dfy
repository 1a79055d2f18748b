/** What the baseline's abstention means for every hypothesis. */
module Abstention {
  import opened Prelude
  import opened Text
  import opened Sorting
  import opened Statistics
  import opened Domain
  import opened Baseline
  import opened Ledger
  import opened Hypotheses
  import opened Verifier
  import opened EndToEnd

  /** The score of some signal is positive and reaches the threshold. */
  ghost predicate Conclusive(l: MetricLedger) {
    l.decision.top.Some? && l.decision.top.value > 0.0 && l.decision.top.value >= l.policy.minimumScore
  }

  /** The recorded top score is the largest suspicion of any entry. */
  lemma TopIsMaximum(l: MetricLedger)
    requires Validated(l).Some?
    ensures l.decision.top.Some? ==>
      exists i :: 0 <= i < |l.entries| && l.entries[i].eligible && l.entries[i].candidate.Some?
                  && l.entries[i].candidate.value.suspicion == l.decision.top.value
    ensures forall i :: 0 <= i < |l.entries| && l.entries[i].candidate.Some? ==>
      l.decision.top.Some? && l.entries[i].candidate.value.suspicion <= l.decision.top.value
  {
    hide RankedCandidates, AllAccepted, EntryOf, HeaderAccepted;
    AcceptedIsFaithful(l);
    var es := EvaluationsOf(l.entries);
    var ranked := RankedCandidates(es);
    RankedMembers(es, l.policy);
    TopOfDecision(l.policy, es, ranked);
    if l.decision.top.Some? {
      var i :| 0 <= i < |es| && es[i].eligible && es[i].candidate == Some(ranked[0]);
      assert l.entries[i].candidate == es[i].candidate;
    }
    forall i | 0 <= i < |l.entries| && l.entries[i].candidate.Some?
      ensures l.decision.top.Some? && l.entries[i].candidate.value.suspicion <= l.decision.top.value
    {
      assert es[i].candidate == l.entries[i].candidate;
    }
  }

  lemma TopOfDecision(policy: Policy, es: seq<Evaluation>, candidates: seq<Candidate>)
    ensures Snapshot(Decide(policy, es, candidates)).top == TopScore(candidates)
  {
  }

  lemma RankedMembers(es: seq<Evaluation>, policy: Policy)
    requires AllAccepted(es, policy)
    ensures var ranked := RankedCandidates(es);
            && (ranked != [] ==> exists i :: 0 <= i < |es| && es[i].eligible && es[i].candidate == Some(ranked[0]))
            && (forall i :: 0 <= i < |es| && es[i].candidate.Some? ==>
                  ranked != [] && es[i].candidate.value.suspicion <= ranked[0].suspicion)
  {
    hide Sort, Candidates, CandidateAccepted;
    var ranked := RankedCandidates(es);
    RankedAreRanked(es, policy);
    SortContents(BySuspicion, Candidates(es));
    if ranked != [] {
      assert ranked[0] in multiset(Candidates(es));
      CandidateOrigin(es, ranked[0]);
      var k :| 0 <= k < |es| && es[k].candidate == Some(ranked[0]);
      assert EvaluationAccepted(es[k], policy);
    }
    forall i | 0 <= i < |es| && es[i].candidate.Some?
      ensures ranked != [] && es[i].candidate.value.suspicion <= ranked[0].suspicion
    {
      CandidateOrigin(es, es[i].candidate.value);
      assert es[i].candidate.value in multiset(ranked);
      var k := IndexOf(ranked, es[i].candidate.value);
      assert k > 0 ==> BySuspicion(ranked[0], ranked[k]);
    }
  }

  lemma DecidedChild(composition: Composition, rs: seq<PredicateResult>) returns (i: nat)
    requires |rs| > 0 && Compose(composition, Verdicts(rs)) != Unknown
    ensures i < |rs| && rs[i].verdict != Unknown
  {
    CompositionIsExtremal(Verdicts(rs));
    i :| 0 <= i < |Verdicts(rs)| && Verdicts(rs)[i] == Compose(composition, Verdicts(rs));
  }

  lemma DecidedEvaluation(p: MetricPredicate, entry: Option<MetricEntry>, minimumScore: real)
    ensures EvaluatePredicate(p, entry, minimumScore).verdict != Unknown
      <==> && entry.Some? && entry.value.eligible && entry.value.candidate.Some?
           && entry.value.candidate.value.signedScore != 0.0
           && entry.value.candidate.value.suspicion >= minimumScore
  {
  }

  lemma DecidedNeedsConclusive(h: Hypothesis, l: MetricLedger)
    requires Verify(h, l).Success? && Verify(h, l).value.verdict != Unknown
    ensures Conclusive(l)
  {
    hide Validated, Lookup, Compose, EvaluatePredicate, Hypothesis.Valid, Supporting, Contradicting;
    ValidationNeverRepairs(l);
    var v := Trace(h, l);
    ValidHasPredicates(h);
    var i := DecidedChild(h.composition, v.results);
    var entry := Lookup(l.entries, h.predicates[i].key);
    DecidedEvaluation(h.predicates[i], entry, l.policy.minimumScore);
    LookupComesFromLedger(l, h.predicates[i].key);
    var j :| 0 <= j < |l.entries| && entry == Some(l.entries[j]);
    ScoresAreSound(l, j);
    TopIsMaximum(l);
  }

  lemma ScoresAreSound(l: MetricLedger, j: nat)
    requires Validated(l).Some? && j < |l.entries| && l.entries[j].eligible
    ensures l.entries[j].candidate.Some?
    ensures var c := l.entries[j].candidate.value; c.suspicion == Abs(c.signedScore)
    ensures NonBlank(l.entries[j].key) && l.context.Valid()
  {
    AcceptedIsFaithful(l);
    assert EvaluationAccepted(EvaluationsOf(l.entries)[j], l.policy);
  }

  /** A one-predicate document about the top signal. */
  function Witness(l: MetricLedger, key: string): Hypothesis {
    Hypothesis("top signal", l.context, Descriptive, All, [MetricPredicate("p", key, Increase)])
  }

  lemma WitnessIsDecided(l: MetricLedger, j: nat)
    requires Validated(l).Some? && j < |l.entries| && l.entries[j].eligible && l.entries[j].candidate.Some?
    requires var c := l.entries[j].candidate.value; c.suspicion > 0.0 && c.suspicion >= l.policy.minimumScore
    ensures var h := Witness(l, l.entries[j].key); Verify(h, l).Success? && Verify(h, l).value.verdict != Unknown
  {
    hide Validated, Lookup, EvaluatePredicate, Supporting, Contradicting, Hypothesis.Valid, Verify, NonBlank, Faithful;
    var key := l.entries[j].key;
    var h := Witness(l, key);
    ScoresAreSound(l, j);
    WitnessIsValid(l, key);
    ValidationNeverRepairs(l);
    VerifyAnswers(h, l);
    LookupInLedger(l, j);
    DecidedEvaluation(h.predicates[0], Lookup(l.entries, key), l.policy.minimumScore);
    var v := Trace(h, l);
    assert Verdicts(v.results) == [v.results[0].verdict];
  }

  lemma WitnessIsValid(l: MetricLedger, key: string)
    requires l.context.Valid() && NonBlank(key)
    ensures Witness(l, key).Valid()
  {
    var h := Witness(l, key);
    assert !IsSpace(h.id[0]) && !IsSpace(h.predicates[0].id[0]);
  }

  /**
   * Some hypothesis can be decided against a ledger if and only if its top score is
   * positive and reaches the threshold.
   */
  lemma DecidableIffConclusive(l: MetricLedger)
    requires Validated(l).Some?
    ensures (exists h :: Verify(h, l).Success? && Verify(h, l).value.verdict != Unknown) <==> Conclusive(l)
  {
    hide Validated, Verify;
    if h :| Verify(h, l).Success? && Verify(h, l).value.verdict != Unknown {
      DecidedNeedsConclusive(h, l);
    }
    if Conclusive(l) {
      TopIsMaximum(l);
      var i :| 0 <= i < |l.entries| && l.entries[i].eligible && l.entries[i].candidate.Some?
               && l.entries[i].candidate.value.suspicion == l.decision.top.value;
      WitnessIsDecided(l, i);
    }
  }

  /** Weak and insufficient abstentions force UNKNOWN on every document. */
  lemma AbstentionForcesUnknown(h: Hypothesis, l: MetricLedger)
    requires Verify(h, l).Success?
    requires l.decision.reason == Some(WeakSignals) || l.decision.reason == Some(InsufficientSignals)
    ensures Verify(h, l).value.verdict == Unknown
  {
    hide Validated, RankedCandidates;
    ValidationNeverRepairs(l);
    if Verify(h, l).value.verdict != Unknown {
      DecidedNeedsConclusive(h, l);
      var es := EvaluationsOf(l.entries);
      TopOfDecision(l.policy, es, RankedCandidates(es));
    }
  }
}
