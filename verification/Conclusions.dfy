/** From what the outside world did in a turn to what the stored report says. */
module Conclusions {
  import opened Prelude
  import opened Domain
  import opened Baseline
  import opened Hypotheses
  import opened Ledger
  import opened Verifier
  import opened EndToEnd
  import opened Serialization
  import opened Records
  import opened Application

  function Observed(inputs: seq<SignalInput>): set<string> {
    set i | 0 <= i < |inputs| :: inputs[i].signal.key
  }

  /** The turns in which telemetry was readable. */
  predicate Ranks(turn: Turn) {
    turn.telemetry.Loaded? && Distinct(InputKeys(turn.telemetry.inputs))
  }

  /** The turns that deserve a report: readable telemetry and an admissible proposal about it. */
  predicate Concludes(turn: Turn) {
    Ranks(turn) && turn.llm.Proposed? && ParseProposal(turn.llm.raw, Observed(turn.telemetry.inputs)).Success?
  }

  lemma {:induction false} RowsOfSerializing(inv: Investigation, entries: seq<MetricEntry>)
    requires forall i :: 0 <= i < |entries| ==> EntryPayloadOf(entries[i]).Some?
    ensures EvidenceRows(inv, entries).Some?
  {
    hide EntryPayloadOf;
    if entries != [] {
      RowsOfSerializing(inv, entries[1..]);
    }
  }

  /** The allow-list handed to the model is the set of observed signals. */
  lemma AllowedAreObserved(context: Context, window: Window, inputs: seq<SignalInput>, policy: Policy)
    requires context.Valid() && window.Valid() && ValidInputs(inputs) && policy.Valid()
    requires Rank(window, inputs, policy).Success?
    ensures AllowedSignals(LedgerOf(context, window, Rank(window, inputs, policy).value)) == Observed(inputs)
  {
    hide Rank, LedgerOf, Validated, EvaluateAll, EvaluateSignal, Keys, InputKeys;
    var l, es := LedgerOf(context, window, Rank(window, inputs, policy).value), EvaluateAll(window, inputs, policy);
    RankedEntriesAreEvaluations(context, window, inputs, policy);
    forall i | 0 <= i < |l.entries|
      ensures l.entries[i].key in Observed(inputs)
    {
      assert EvaluationsOf(l.entries)[i] in multiset(es);
      var k := IndexOf(es, EvaluationsOf(l.entries)[i]);
      assert inputs[k].signal.key == l.entries[i].key;
    }
    forall k | 0 <= k < |inputs|
      ensures inputs[k].signal.key in AllowedSignals(l)
    {
      assert es[k] in multiset(EvaluationsOf(l.entries));
      var i := IndexOf(EvaluationsOf(l.entries), es[k]);
      assert l.entries[i].key == inputs[k].signal.key;
    }
  }

  /** Once the proposal parses, nothing downstream can reject: every check of verifier and serializer passes. */
  lemma VerdictConcludes(inv: Investigation, baseline: BaselineResult, h: Hypothesis)
    requires Compilable(inv.context, inv.window, baseline) && h.Valid()
    ensures var l := LedgerOf(inv.context, inv.window, baseline);
            Verify(h, l).Success? && Judged(inv, baseline, l, h).Conclusion?
  {
    hide Validated, LedgerOf, Compilable, EntryPayloadOf, VerificationPayloadOf, BaselinePayloadOf, Trace,
         EvidenceRows, Hypothesis.Valid;
    var l := LedgerOf(inv.context, inv.window, baseline);
    CompilableLedgerIsFaithful(inv.context, inv.window, baseline);
    ValidationNeverRepairs(l);
    VerifiedSerializes(h, l);
    CompilableSerializes(inv.context, inv.window, baseline);
    forall i | 0 <= i < |l.entries|
      ensures EntryPayloadOf(l.entries[i]).Some?
    {
      LedgerEntrySerializes(l, i);
    }
    RowsOfSerializing(inv, l.entries);
  }

  /** What an analysis that got as far as a proposal does with it. */
  lemma RankedAnalysis(inv: Investigation, policy: Policy, turn: Turn)
    requires policy.Valid() && turn.Valid() && inv.context.Valid() && inv.window.Valid() && Ranks(turn)
    ensures Rank(inv.window, turn.telemetry.inputs, policy).Success?
    ensures var baseline := Rank(inv.window, turn.telemetry.inputs, policy).value;
            var l := LedgerOf(inv.context, inv.window, baseline);
            && Compile(inv.context, inv.window, baseline) == Some(l) && Compilable(inv.context, inv.window, baseline)
            && AllowedSignals(l) == Observed(turn.telemetry.inputs)
  {
    hide Rank, Compile, LedgerOf, Compilable, AllowedSignals, Observed;
    RankFailsOnDuplicates(inv.window, turn.telemetry.inputs, policy);
    RankCompiles(inv.context, inv.window, turn.telemetry.inputs, policy);
    AllowedAreObserved(inv.context, inv.window, turn.telemetry.inputs, policy);
  }

  /**
   * A turn ends in a report exactly when telemetry was readable and the proposal parses over the
   * observed signals, is worth retrying exactly when readable telemetry met an unavailable model, and
   * fails without a code of its own exactly when telemetry, model or decoder raised something unforeseen.
   */
  lemma AnalysisOutcome(inv: Investigation, policy: Policy, turn: Turn)
    requires policy.Valid() && turn.Valid() && inv.context.Valid() && inv.window.Valid()
    ensures Analyse(inv, policy, turn).Conclusion? <==> Concludes(turn)
    ensures Analyse(inv, policy, turn).RetryableFailure?
      <==> Ranks(turn) && (turn.llm.ProviderTimeout? || turn.llm.ProviderUnavailable?)
    ensures Analyse(inv, policy, turn).Crash?
      <==> turn.telemetry.TelemetryCrash?
           || (Ranks(turn) && (turn.llm.LlmCrash? || (turn.llm.Proposed? && turn.llm.raw.Undecodable?)))
  {
    hide Rank, Compile, LedgerOf, Compilable, AllowedSignals, Observed, ParseProposal, Judged, Verify, Hypothesis.Valid;
    if turn.telemetry.Loaded? {
      RankFailsOnDuplicates(inv.window, turn.telemetry.inputs, policy);
      if Ranks(turn) {
        RankedAnalysis(inv, policy, turn);
        if turn.llm.Proposed? {
          var parsed := ParseProposal(turn.llm.raw, Observed(turn.telemetry.inputs));
          OnlyDecoderRaises(turn.llm.raw, Observed(turn.telemetry.inputs));
          if parsed.Success? {
            ParsedProposalIsSafe(turn.llm.raw, Observed(turn.telemetry.inputs));
            VerdictConcludes(inv, Rank(inv.window, turn.telemetry.inputs, policy).value, parsed.value);
          }
        }
      }
    }
  }

  /**
   * The report of a turn says about each predicate of the proposal what the raw points say, under
   * the investigation's own context and window, and its verdict composes those findings.
   */
  lemma ReportDecidesRawPoints(inv: Investigation, policy: Policy, turn: Turn)
    requires policy.Valid() && turn.Valid() && inv.context.Valid() && inv.window.Valid() && Concludes(turn)
    ensures Analyse(inv, policy, turn).Conclusion?
    ensures var h := ParseProposal(turn.llm.raw, Observed(turn.telemetry.inputs)).value;
            var report := Analyse(inv, policy, turn).report;
            && |report.payload.predicates| == |h.predicates|
            && (forall i :: 0 <= i < |h.predicates| ==>
                  Finding(report.payload.predicates[i].verdict, report.payload.predicates[i].reason)
                  == PredicateFinding(inv.context, inv.window, turn.telemetry.inputs, policy, h, h.predicates[i]))
            && report.payload.verdict
               == Compose(h.composition,
                          FoundVerdicts(inv.context, inv.window, turn.telemetry.inputs, policy, h, h.predicates))
  {
    hide Rank, Compile, LedgerOf, Compilable, AllowedSignals, Observed, ParseProposal, Verify, PredicateFinding,
         Compose,
         VerificationPayloadOf, PredicatePayloadOf, BaselinePayloadOf, EvidenceRows, Hypothesis.Valid;
    var inputs := turn.telemetry.inputs;
    var h := ParseProposal(turn.llm.raw, Observed(inputs)).value;
    ParsedProposalIsSafe(turn.llm.raw, Observed(inputs));
    AnalysisOutcome(inv, policy, turn);
    RankedAnalysis(inv, policy, turn);
    PipelineDecidesRawPoints(inv.context, inv.window, inputs, policy, h);
    var v := Pipeline(inv.context, inv.window, inputs, policy, h).value;
    PayloadKeepsFindings(v);
    var found := FoundVerdicts(inv.context, inv.window, inputs, policy, h, h.predicates);
    assert Verdicts(v.results) == found by {
      forall i | 0 <= i < |found|
        ensures Verdicts(v.results)[i] == found[i]
      {
        assert Finding(v.results[i].verdict, v.results[i].reason)
               == PredicateFinding(inv.context, inv.window, inputs, policy, h, h.predicates[i]);
      }
    }
    AcceptedPayloadComposes(v);
  }

  function FoundVerdicts(context: Context, window: Window, inputs: seq<SignalInput>, policy: Policy,
                         h: Hypothesis, ps: seq<MetricPredicate>): (r: seq<Verifier.Verdict>)
    requires ValidInputs(inputs) && policy.Valid()
    ensures |r| == |ps|
    ensures forall i :: 0 <= i < |r| ==> r[i] == PredicateFinding(context, window, inputs, policy, h, ps[i]).verdict
  {
    if ps == [] then []
    else [PredicateFinding(context, window, inputs, policy, h, ps[0]).verdict]
         + FoundVerdicts(context, window, inputs, policy, h, ps[1..])
  }

  /** Serializing a trace keeps the verdict and reason of every predicate, in order. */
  lemma PayloadKeepsFindings(v: VerificationResult)
    requires VerificationPayloadOf(v).Some?
    ensures var p := VerificationPayloadOf(v).value;
            && |p.predicates| == |v.results|
            && forall i :: 0 <= i < |v.results| ==>
                 p.predicates[i].verdict == v.results[i].verdict && p.predicates[i].reason == v.results[i].reason
  {
    hide DistinctIds, GateAccepted, PayloadSupporting, PayloadContradicting, ExpectedVerdict, AllWellFormed;
  }

  /** The stable code of a rejected proposal. */
  function RejectionCode(e: ProposalError): string {
    match e
    case ProposalTooLarge => "proposal_too_large"
    case EmptyProposal => "empty_proposal"
    case MalformedProposal => "malformed_proposal"
    case ProposalSchema => "proposal_schema_invalid"
    case TooManyPredicates => "too_many_predicates"
    case UnauthorizedEntity => "unauthorized_entity"
    case DecoderRaised => "internal_error"
  }

  /** Every way an analysis can end, with the code it ends with, by what happened in the turn. */
  lemma AnalysisCodes(inv: Investigation, policy: Policy, turn: Turn)
    requires policy.Valid() && turn.Valid() && inv.context.Valid() && inv.window.Valid()
    ensures var a := Analyse(inv, policy, turn);
            && (turn.telemetry.TelemetryUnavailable? ==> a == TerminalFailure("telemetry_unavailable"))
            && (turn.telemetry.Loaded? && !Ranks(turn) ==> a == TerminalFailure("duplicate_signal"))
            && (Ranks(turn) && turn.llm.ProviderTimeout? ==> a == RetryableFailure("provider_timeout"))
            && (Ranks(turn) && turn.llm.ProviderUnavailable? ==> a == RetryableFailure("provider_unavailable"))
            && (Ranks(turn) && turn.llm.ProviderResponseInvalid? ==> a == TerminalFailure("provider_response_invalid"))
            && (Ranks(turn) && turn.llm.Proposed? && !turn.llm.raw.Undecodable? ==>
                  var parsed := ParseProposal(turn.llm.raw, Observed(turn.telemetry.inputs));
                  parsed.Failure? ==> a == TerminalFailure(RejectionCode(parsed.error)))
  {
    hide Rank, Compile, LedgerOf, Compilable, AllowedSignals, Observed, ParseProposal, Judged, Verify, Hypothesis.Valid;
    if turn.telemetry.Loaded? {
      RankFailsOnDuplicates(inv.window, turn.telemetry.inputs, policy);
      RankErrors(inv.window, turn.telemetry.inputs, policy);
      if Ranks(turn) {
        RankedAnalysis(inv, policy, turn);
        if turn.llm.Proposed? {
          OnlyDecoderRaises(turn.llm.raw, Observed(turn.telemetry.inputs));
        }
      }
    }
  }

  lemma RankErrors(window: Window, inputs: seq<SignalInput>, policy: Policy)
    requires ValidInputs(inputs) && policy.Valid()
    ensures Rank(window, inputs, policy).Failure? ==> Rank(window, inputs, policy).error == DuplicateSignal
  {
  }
}
