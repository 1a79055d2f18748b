/** Everything a stored report says, traced back to the telemetry points of the turn that wrote it. */
module Reports {
  import opened Prelude
  import opened Text
  import opened Sorting
  import opened Statistics
  import opened Domain
  import opened Baseline
  import opened Hypotheses
  import opened Ledger
  import opened Verifier
  import opened EndToEnd
  import opened RawPoints
  import opened Serialization
  import opened Records
  import opened Application
  import opened Conclusions

  // ----- one predicate -----

  /** The direction the points of a signal moved in, if there are enough of them and they moved. */
  function MovedDirection(window: Window, item: SignalInput, policy: Policy): Option<Direction>
    requires item.Valid() && policy.Valid()
  {
    var pre, post := PreValues(window, item.signal), PostValues(window, item.signal);
    if |pre| < policy.minimumPoints || |post| < policy.minimumPoints then None
    else if Median(post) > Median(pre) then Some(Increase)
    else if Median(post) < Median(pre) then Some(Decrease)
    else None
  }

  /** The direction a document is told about: none unless it asks about this context and claims no cause. */
  function ToldDirection(context: Context, window: Window, inputs: seq<SignalInput>, policy: Policy, h: Hypothesis,
                         p: MetricPredicate): Option<Direction>
    requires ValidInputs(inputs) && policy.Valid()
  {
    if h.context != context || h.semantics.Causal? then None else SignalDirection(window, inputs, policy, p.key)
  }

  function SignalDirection(window: Window, inputs: seq<SignalInput>, policy: Policy, key: string): Option<Direction>
    requires ValidInputs(inputs) && policy.Valid()
  {
    match InputFor(inputs, key)
    case None => None
    case Some(item) => InputForIsInput(inputs, key); MovedDirection(window, item, policy)
  }

  lemma EvaluationGivesDirection(window: Window, item: SignalInput, policy: Policy, p: MetricPredicate,
                                 entry: MetricEntry)
    requires item.Valid() && policy.Valid() && EvaluationOf(entry) == EvaluateSignal(window, item, policy)
    ensures EvaluatePredicate(p, Some(entry), policy.minimumScore).observed == MovedDirection(window, item, policy)
  {
    hide Median, MadOf, ScaleOf, ValuesBetween, ShiftIn;
    var pre, post := PreValues(window, item.signal), PostValues(window, item.signal);
    if EnoughPoints(policy, |pre|, |post|) {
      ScoreThreshold(ScaleOf(Median(pre), MadOf(pre), item.absoluteFloor, policy.relativeFloor),
                     Median(pre), Median(post), policy.minimumScore);
    }
  }

  lemma UngatedDirection(window: Window, inputs: seq<SignalInput>, policy: Policy, p: MetricPredicate, l: MetricLedger)
    requires ValidInputs(inputs) && policy.Valid() && Validated(l).Some?
    requires multiset(EvaluationsOf(l.entries)) == multiset(EvaluateAll(window, inputs, policy))
    ensures EvaluatePredicate(p, Lookup(l.entries, p.key), policy.minimumScore).observed
            == SignalDirection(window, inputs, policy, p.key)
  {
    hide Lookup, EvaluatePredicate, MovedDirection, EvaluateSignal, Validated;
    InputForIsInput(inputs, p.key);
    var es := EvaluateAll(window, inputs, policy);
    match InputFor(inputs, p.key)
    case None =>
      if Lookup(l.entries, p.key).Some? {
        LookupHits(l, es, p.key);
      }
      NothingObserved(p, policy.minimumScore);
    case Some(item) =>
      var k :| 0 <= k < |inputs| && inputs[k] == item && inputs[k].signal.key == p.key;
      LookupIsEvaluation(l, es, k);
      EvaluationGivesDirection(window, item, policy, p, Lookup(l.entries, p.key).value);
  }

  lemma NothingObserved(p: MetricPredicate, minimumScore: real)
    ensures EvaluatePredicate(p, None, minimumScore).observed.None?
  {
  }

  /** The entry of the ledger that a predicate asks about is the one identified by `id`. */
  ghost predicate IsEntryOf(l: MetricLedger, key: string, id: EvidenceId) {
    exists k :: 0 <= k < |l.entries| && l.entries[k].key == key && l.entries[k].id == id
  }

  /** A decided result cites exactly the entry of its own signal, on the side of its verdict. */
  ghost predicate CitesOwn(r: PredicateResult, p: MetricPredicate, l: MetricLedger) {
    match r.verdict
    case Supported => exists id :: IsEntryOf(l, p.key, id) && r.supporting == [id] && r.contradicting == []
    case Refuted => exists id :: IsEntryOf(l, p.key, id) && r.supporting == [] && r.contradicting == [id]
    case Unknown => r.supporting == [] && r.contradicting == []
  }

  lemma ResultCitesOwn(p: MetricPredicate, gate: Option<UnknownReason>, l: MetricLedger)
    requires Validated(l).Some?
    ensures var r := ResultOf(p, gate, l.entries, l.policy.minimumScore);
            CitesOwn(r, p, l) && r.id == p.id && r.minimumScore == l.policy.minimumScore
  {
    hide Validated, Lookup;
    if gate.None? && Lookup(l.entries, p.key).Some? {
      LookupComesFromLedger(l, p.key);
      assert IsEntryOf(l, p.key, Lookup(l.entries, p.key).value.id);
    }
  }

  /** What the trace says of predicate `i`, beyond verdict and reason. */
  lemma ResultSaysPoints(window: Window, inputs: seq<SignalInput>, policy: Policy, h: Hypothesis, l: MetricLedger,
                         i: nat)
    requires ValidInputs(inputs) && policy.Valid() && Validated(l).Some? && l.policy == policy
    requires multiset(EvaluationsOf(l.entries)) == multiset(EvaluateAll(window, inputs, policy))
    requires i < |h.predicates|
    ensures |Trace(h, l).results| == |h.predicates|
    ensures var r, p := Trace(h, l).results[i], h.predicates[i];
            && r.id == p.id && r.minimumScore == policy.minimumScore && CitesOwn(r, p, l)
            && r.observed == ToldDirection(l.context, window, inputs, policy, h, p)
  {
    hide Validated, EvaluateAll, EvaluatePredicate, Lookup, Compose, CitesOwn, SignalDirection, ValidInputs, Supporting,
         Contradicting;
    var gate := Gate(h, l);
    ResultCitesOwn(h.predicates[i], gate, l);
    UngatedDirection(window, inputs, policy, h.predicates[i], l);
  }

  // ----- the whole report -----

  /** The row of a signal among the rows of a turn is the one identified by `id`. */
  ghost predicate IsRowOf(rows: seq<Evidence>, key: string, id: EvidenceId) {
    exists k :: 0 <= k < |rows| && rows[k].payload.key == key && rows[k].id == id
  }

  /** The document-wide reason a document goes unanswered. */
  function GateFor(context: Context, h: Hypothesis): Option<UnknownReason> {
    if h.context != context then Some(ContextMismatch)
    else if h.semantics.Causal? then Some(CausalClaim)
    else None
  }

  /** What the payload of one predicate says. */
  ghost predicate ChildSays(c: PredicatePayload, rows: seq<Evidence>, context: Context, window: Window,
                            inputs: seq<SignalInput>, policy: Policy, h: Hypothesis, p: MetricPredicate)
    requires ValidInputs(inputs) && policy.Valid()
  {
    && c.id == p.id && c.minimumScore == policy.minimumScore
    && Finding(c.verdict, c.reason) == PredicateFinding(context, window, inputs, policy, h, p)
    && c.observed == ToldDirection(context, window, inputs, policy, h, p)
    && match c.verdict
       case Supported => exists id :: IsRowOf(rows, p.key, id) && c.supporting == [id] && c.contradicting == []
       case Refuted => exists id :: IsRowOf(rows, p.key, id) && c.supporting == [] && c.contradicting == [id]
       case Unknown => c.supporting == [] && c.contradicting == []
  }

  /** What the whole payload says. */
  ghost predicate PayloadSays(payload: VerificationPayload, rows: seq<Evidence>, context: Context, window: Window,
                              inputs: seq<SignalInput>, policy: Policy, h: Hypothesis)
    requires ValidInputs(inputs) && policy.Valid()
  {
    && payload.id == h.id && payload.composition == h.composition && payload.reason == GateFor(context, h)
    && |payload.predicates| == |h.predicates|
    && (forall i :: 0 <= i < |h.predicates| ==>
          ChildSays(payload.predicates[i], rows, context, window, inputs, policy, h, h.predicates[i]))
    && payload.verdict == Compose(h.composition, FoundVerdicts(context, window, inputs, policy, h, h.predicates))
    && payload.supporting == PayloadSupporting(payload.predicates)
    && payload.contradicting == PayloadContradicting(payload.predicates)
  }

  /** What an evidence row says: the evaluation of one signal, under its own identifier and owner. */
  ghost predicate RowSays(row: Evidence, owner: Uuid, context: Context, e: Evaluation, policy: Policy) {
    && row.tenant == context.tenant && row.run == context.run && row.investigation == owner
    && row.payload == EntryPayload(row.id, e.key, e.preCount, e.postCount, e.eligible, e.absoluteFloor,
                                   policy.relativeFloor, e.candidate)
  }

  /** The rows say the evaluations of the signals, one each and in the order of the ranking. */
  ghost predicate RowsSay(rows: seq<Evidence>, owner: Uuid, context: Context, es: seq<Evaluation>, policy: Policy) {
    |rows| == |es| && forall k :: 0 <= k < |rows| ==> RowSays(rows[k], owner, context, es[k], policy)
  }

  lemma RowsOfEntries(inv: Investigation, l: MetricLedger, rows: seq<Evidence>)
    requires EvidenceRows(inv, l.entries) == Some(rows) && Validated(l).Some?
    ensures RowsSay(rows, inv.id, inv.context, EvaluationsOf(l.entries), l.policy)
    ensures forall key, id :: IsEntryOf(l, key, id) ==> IsRowOf(rows, key, id)
  {
    hide EntryPayloadOf, Validated, EvidenceRows, IsRowOf, IsEntryOf;
    forall k | 0 <= k < |rows|
      ensures RowSays(rows[k], inv.id, inv.context, EvaluationsOf(l.entries)[k], l.policy)
    {
      EntryRowSays(l, k);
    }
    forall key, id | IsEntryOf(l, key, id)
      ensures IsRowOf(rows, key, id)
    {
      EntryHasRow(inv, l, rows, key, id);
    }
  }

  lemma EntryRowSays(l: MetricLedger, k: nat)
    requires Validated(l).Some? && k < |l.entries|
    ensures var e, p := l.entries[k], EntryPayloadOf(l.entries[k]);
            p == Some(EntryPayload(e.id, e.key, e.preCount, e.postCount, e.eligible, e.absoluteFloor,
                                   l.policy.relativeFloor, e.candidate))
  {
    hide ScaleOf, ShiftIn, EvaluationAccepted, EntryPayloadOf;
    LedgerEntrySerializes(l, k);
    AcceptedIsFaithful(l);
    AddressedIsEntry(l, k);
  }

  /** What an identifier of an accepted ledger addresses is the entry itself. */
  lemma AddressedIsEntry(l: MetricLedger, k: nat)
    requires Faithful(l) && k < |l.entries|
    ensures l.entries[k].id.MetricDigest?
    ensures var e := l.entries[k];
            Addressed(e.id) == EntryPayload(e.id, e.key, e.preCount, e.postCount, e.eligible, e.absoluteFloor,
                                            l.policy.relativeFloor, e.candidate)
  {
    hide EvaluationAccepted, Sorted, RankedCandidates, Decide;
    assert l.entries[k] == EntryOf(l.context, l.window, l.policy, l.decision, EvaluationsOf(l.entries)[k]);
  }

  lemma EntryHasRow(inv: Investigation, l: MetricLedger, rows: seq<Evidence>, key: string, id: EvidenceId)
    requires EvidenceRows(inv, l.entries) == Some(rows) && Validated(l).Some? && IsEntryOf(l, key, id)
    ensures IsRowOf(rows, key, id)
  {
    hide EntryPayloadOf, Validated, EvidenceRows;
    var k :| 0 <= k < |l.entries| && l.entries[k].key == key && l.entries[k].id == id;
    EntryRowSays(l, k);
    assert rows[k].payload.key == key && rows[k].id == id;
  }

  lemma PayloadOfTraceSays(window: Window, inputs: seq<SignalInput>, policy: Policy, h: Hypothesis, l: MetricLedger,
                           rows: seq<Evidence>)
    requires ValidInputs(inputs) && policy.Valid() && Validated(l).Some? && l.policy == policy && h.Valid()
    requires multiset(EvaluationsOf(l.entries)) == multiset(EvaluateAll(window, inputs, policy))
    requires forall key, id :: IsEntryOf(l, key, id) ==> IsRowOf(rows, key, id)
    requires VerificationPayloadOf(Trace(h, l)).Some?
    ensures PayloadSays(VerificationPayloadOf(Trace(h, l)).value, rows, l.context, window, inputs, policy, h)
  {
    hide Validated, EvaluateAll, VerificationPayloadOf, PredicateFinding, ToldDirection, Compose, IsEntryOf, IsRowOf,
         ResultsOf, Hypothesis.Valid, PayloadSupporting, PayloadContradicting, Supporting, Contradicting;
    var v := Trace(h, l);
    var payload := VerificationPayloadOf(v).value;
    VerificationRoundTrip(v);
    TraceDecidesRawPoints(window, inputs, policy, h, l);
    forall i | 0 <= i < |h.predicates|
      ensures ChildSays(payload.predicates[i], rows, l.context, window, inputs, policy, h, h.predicates[i])
    {
      ResultSaysPoints(window, inputs, policy, h, l, i);
      assert v.results[i] == ReadPredicate(payload.predicates[i]);
    }
    GatedComposition(h, l);
    FoundByTrace(window, inputs, policy, h, l);
  }

  lemma FoundByTrace(window: Window, inputs: seq<SignalInput>, policy: Policy, h: Hypothesis, l: MetricLedger)
    requires ValidInputs(inputs) && policy.Valid() && Validated(l).Some? && l.policy == policy
    requires multiset(EvaluationsOf(l.entries)) == multiset(EvaluateAll(window, inputs, policy))
    ensures Verdicts(Trace(h, l).results) == FoundVerdicts(l.context, window, inputs, policy, h, h.predicates)
  {
    hide Validated, EvaluateAll, PredicateFinding, Trace, FoundVerdicts, Verdicts;
    TraceDecidesRawPoints(window, inputs, policy, h, l);
    var found := FoundVerdicts(l.context, window, inputs, policy, h, h.predicates);
    var given := Verdicts(Trace(h, l).results);
    forall i | 0 <= i < |found|
      ensures given[i] == found[i]
    {
      assert Finding(Trace(h, l).results[i].verdict, Trace(h, l).results[i].reason)
             == PredicateFinding(l.context, window, inputs, policy, h, h.predicates[i]);
    }
  }

  /**
   * What a concluding turn writes, in full, about the raw points it was given: a payload that answers every predicate
   * of the proposal and cites, for each decided one, the row of its own signal on the side of its verdict; one row
   * for every signal; and the ranking.
   */
  lemma ReportSaysPoints(inv: Investigation, policy: Policy, turn: Turn)
    requires policy.Valid() && turn.Valid() && inv.context.Valid() && inv.window.Valid() && Concludes(turn)
    ensures Analyse(inv, policy, turn).Conclusion? && Rank(inv.window, turn.telemetry.inputs, policy).Success?
    ensures var a, inputs := Analyse(inv, policy, turn), turn.telemetry.inputs;
            var h := ParseProposal(turn.llm.raw, Observed(inputs)).value;
            var baseline := Rank(inv.window, inputs, policy).value;
            && a.report.investigation == inv.id && a.report.tenant == inv.context.tenant
            && a.report.run == inv.context.run
            && PayloadSays(a.report.payload, a.rows, inv.context, inv.window, inputs, policy, h)
            && RowsSay(a.rows, inv.id, inv.context, baseline.evaluations, policy)
            && BaselinePayloadOf(baseline) == Some(a.report.baseline) && Compilable(inv.context, inv.window, baseline)
  {
    hide Rank, Compile, LedgerOf, Compilable, AllowedSignals, Observed, ParseProposal, Validated, EvaluateAll,
         VerificationPayloadOf, BaselinePayloadOf, EvidenceRows, Trace, Verify, PayloadSays, RowsSay, IsEntryOf,
         IsRowOf, Hypothesis.Valid, EvaluationsOf;
    var inputs := turn.telemetry.inputs;
    var h := ParseProposal(turn.llm.raw, Observed(inputs)).value;
    ParsedProposalIsSafe(turn.llm.raw, Observed(inputs));
    AnalysisOutcome(inv, policy, turn);
    RankedAnalysis(inv, policy, turn);
    var baseline := Rank(inv.window, inputs, policy).value;
    var l := LedgerOf(inv.context, inv.window, baseline);
    RankedEntriesAreEvaluations(inv.context, inv.window, inputs, policy);
    VerifyAnswers(h, l);
    RowsOfEntries(inv, l, Analyse(inv, policy, turn).rows);
    PayloadOfTraceSays(inv.window, inputs, policy, h, l, Analyse(inv, policy, turn).rows);
    EntriesInRankOrder(inv.context, inv.window, inputs, policy);
  }

  lemma EntriesInRankOrder(context: Context, window: Window, inputs: seq<SignalInput>, policy: Policy)
    requires ValidInputs(inputs) && policy.Valid() && Rank(window, inputs, policy).Success?
    ensures var baseline := Rank(window, inputs, policy).value;
            EvaluationsOf(LedgerOf(context, window, baseline).entries) == baseline.evaluations
  {
    hide Decide, EvaluateAll, Sort;
    var es := EvaluateAll(window, inputs, policy);
    var baseline := Rank(window, inputs, policy).value;
    EvaluationKeys(window, inputs, policy);
    DecideEvaluations(policy, Sort(ByKey, es), RankedCandidates(Sort(ByKey, es)));
    ByKeyOrdering();
    SortSorts(ByKey, es);
    SortContents(ByKey, es);
    KeysAreOrderFree(es, Sort(ByKey, es));
    DistinctIsOrderFree(Keys(es), Keys(Sort(ByKey, es)));
    SortOfStrictlyOrdered(Sort(ByKey, es));
    EntriesRoundTrip(context, window, policy, Snapshot(baseline), Sort(ByKey, es));
  }

  lemma DecideEvaluations(policy: Policy, evaluations: seq<Evaluation>, candidates: seq<Candidate>)
    ensures Decide(policy, evaluations, candidates).evaluations == evaluations
    ensures Decide(policy, evaluations, candidates).policy == policy
  {
  }

  /**
   * An identifier is cited in support of a report exactly when some predicate is supported by the raw points and the
   * identifier is that of the row of its signal; and against it exactly when some predicate is refuted.
   */
  lemma CitationsSayPoints(payload: VerificationPayload, rows: seq<Evidence>, context: Context, window: Window,
                           inputs: seq<SignalInput>, policy: Policy, h: Hypothesis, id: EvidenceId)
    requires ValidInputs(inputs) && policy.Valid()
    requires PayloadSays(payload, rows, context, window, inputs, policy, h)
    requires forall j, k :: 0 <= j < k < |rows| ==> rows[j].payload.key != rows[k].payload.key
    ensures id in payload.supporting <==>
      exists i :: 0 <= i < |h.predicates| && IsRowOf(rows, h.predicates[i].key, id)
                  && PredicateFinding(context, window, inputs, policy, h, h.predicates[i]).verdict == Supported
    ensures id in payload.contradicting <==>
      exists i :: 0 <= i < |h.predicates| && IsRowOf(rows, h.predicates[i].key, id)
                  && PredicateFinding(context, window, inputs, policy, h, h.predicates[i]).verdict == Refuted
  {
    hide PredicateFinding, ToldDirection, IsRowOf, PayloadSupporting, PayloadContradicting, Compose, FoundVerdicts;
    CitedByChildren(payload.predicates, id);
    forall i | 0 <= i < |h.predicates|
      ensures id in payload.predicates[i].supporting
        <==> IsRowOf(rows, h.predicates[i].key, id)
             && PredicateFinding(context, window, inputs, policy, h, h.predicates[i]).verdict == Supported
      ensures id in payload.predicates[i].contradicting
        <==> IsRowOf(rows, h.predicates[i].key, id)
             && PredicateFinding(context, window, inputs, policy, h, h.predicates[i]).verdict == Refuted
    {
      assert ChildSays(payload.predicates[i], rows, context, window, inputs, policy, h, h.predicates[i]);
      ChildCites(payload.predicates[i], rows, context, window, inputs, policy, h, h.predicates[i], id);
    }
  }

  lemma ChildCites(c: PredicatePayload, rows: seq<Evidence>, context: Context, window: Window, inputs: seq<SignalInput>,
                   policy: Policy, h: Hypothesis, p: MetricPredicate, id: EvidenceId)
    requires ValidInputs(inputs) && policy.Valid() && ChildSays(c, rows, context, window, inputs, policy, h, p)
    requires forall j, k :: 0 <= j < k < |rows| ==> rows[j].payload.key != rows[k].payload.key
    ensures id in c.supporting <==> IsRowOf(rows, p.key, id) && c.verdict == Supported
    ensures id in c.contradicting <==> IsRowOf(rows, p.key, id) && c.verdict == Refuted
  {
    hide PredicateFinding, ToldDirection;
    if c.verdict == Supported {
      var own :| IsRowOf(rows, p.key, own) && c.supporting == [own] && c.contradicting == [];
      if IsRowOf(rows, p.key, id) {
        OneRowEach(rows, p.key, own, id);
      }
    } else if c.verdict == Refuted {
      var own :| IsRowOf(rows, p.key, own) && c.supporting == [] && c.contradicting == [own];
      if IsRowOf(rows, p.key, id) {
        OneRowEach(rows, p.key, own, id);
      }
    }
  }

  lemma OneRowEach(rows: seq<Evidence>, key: string, a: EvidenceId, b: EvidenceId)
    requires forall j, k :: 0 <= j < k < |rows| ==> rows[j].payload.key != rows[k].payload.key
    requires IsRowOf(rows, key, a) && IsRowOf(rows, key, b)
    ensures a == b
  {
  }

  /** Rows that say the evaluations of a ranking have strictly ascending signal keys, so each signal has one row. */
  lemma RowsAscend(rows: seq<Evidence>, owner: Uuid, context: Context, window: Window, inputs: seq<SignalInput>,
                   policy: Policy)
    requires ValidInputs(inputs) && policy.Valid() && Rank(window, inputs, policy).Success?
    requires RowsSay(rows, owner, context, Rank(window, inputs, policy).value.evaluations, policy)
    ensures forall j, k :: 0 <= j < k < |rows| ==> Less(rows[j].payload.key, rows[k].payload.key)
    ensures forall j, k :: 0 <= j < k < |rows| ==> rows[j].payload.key != rows[k].payload.key
  {
    hide Rank, Less;
    RankSays(window, inputs, policy);
    var es := Rank(window, inputs, policy).value.evaluations;
    forall j, k | 0 <= j < k < |rows|
      ensures Less(rows[j].payload.key, rows[k].payload.key) && rows[j].payload.key != rows[k].payload.key
    {
      assert RowSays(rows[j], owner, context, es[j], policy) && RowSays(rows[k], owner, context, es[k], policy);
      LessIsAsymmetric(es[j].key, es[k].key);
    }
  }

  /** The citations of a report, read off the raw points of its turn. */
  lemma ReportCitesPoints(inv: Investigation, policy: Policy, turn: Turn, id: EvidenceId)
    requires policy.Valid() && turn.Valid() && inv.context.Valid() && inv.window.Valid() && Concludes(turn)
    ensures Analyse(inv, policy, turn).Conclusion?
    ensures var a, inputs := Analyse(inv, policy, turn), turn.telemetry.inputs;
            var h := ParseProposal(turn.llm.raw, Observed(inputs)).value;
            && (id in a.report.payload.supporting <==>
                  exists i :: 0 <= i < |h.predicates| && IsRowOf(a.rows, h.predicates[i].key, id)
                    && PredicateFinding(inv.context, inv.window, inputs, policy, h, h.predicates[i]).verdict
                       == Supported)
            && (id in a.report.payload.contradicting <==>
                  exists i :: 0 <= i < |h.predicates| && IsRowOf(a.rows, h.predicates[i].key, id)
                    && PredicateFinding(inv.context, inv.window, inputs, policy, h, h.predicates[i]).verdict == Refuted)
  {
    hide Analyse, Rank, ParseProposal, Observed, PayloadSays, RowsSay, PredicateFinding, IsRowOf, Less, ValidInputs;
    ReportSaysPoints(inv, policy, turn);
    var a, inputs := Analyse(inv, policy, turn), turn.telemetry.inputs;
    RowsAscend(a.rows, inv.id, inv.context, inv.window, inputs, policy);
    CitationsSayPoints(a.report.payload, a.rows, inv.context, inv.window, inputs, policy,
                       ParseProposal(turn.llm.raw, Observed(inputs)).value, id);
  }
}
