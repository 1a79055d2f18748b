/** Compiling a baseline result into a content-addressed ledger, and validating ledgers. */
module Ledger {
  import opened Prelude
  import opened Text
  import opened Sorting
  import opened Statistics
  import opened Domain
  import opened Baseline

  // ----- per-signal checks -----

  /** A candidate whose derived numbers follow from its medians and floors. */
  predicate CandidateAccepted(c: Candidate, e: Evaluation, policy: Policy) {
    && NonBlank(c.key) && c.preCount >= 0 && c.postCount >= 0
    && c.preMad >= 0.0 && c.absoluteFloor > 0.0 && c.relativeFloor >= 0.0 && c.scale > 0.0 && c.suspicion >= 0.0
    && c.key == e.key && c.preCount == e.preCount && c.postCount == e.postCount
    && c.absoluteFloor == e.absoluteFloor && c.relativeFloor == policy.relativeFloor
    && c.scale == ScaleOf(c.preMedian, c.preMad, c.absoluteFloor, c.relativeFloor)
    && c.signedScore == ShiftIn(c.scale, c.preMedian, c.postMedian)
    && c.suspicion == Abs(c.signedScore)
  }

  predicate EvaluationAccepted(e: Evaluation, policy: Policy) {
    && NonBlank(e.key) && e.absoluteFloor > 0.0 && e.preCount >= 0 && e.postCount >= 0
    && e.eligible == EnoughPoints(policy, e.preCount, e.postCount)
    && e.candidate.Some? == e.eligible
    && (e.eligible ==> CandidateAccepted(e.candidate.value, e, policy))
  }

  predicate AllAccepted(values: seq<Evaluation>, policy: Policy) {
    forall i :: 0 <= i < |values| ==> EvaluationAccepted(values[i], policy)
  }

  /** The evaluations in key order and their candidates in rank order, if every one checks out. */
  function Evaluations(values: seq<Evaluation>, policy: Policy): Option<(seq<Evaluation>, seq<Candidate>)> {
    if AllAccepted(values, policy) && Distinct(Keys(values))
    then Some((Sort(ByKey, values), RankedCandidates(values)))
    else None
  }

  method ParseEvaluations(values: seq<Evaluation>, policy: Policy)
    returns (r: Option<(seq<Evaluation>, seq<Candidate>)>)
    ensures r == Evaluations(values, policy)
  {
    hide Parsed, EvaluationAccepted, Candidates, Sort;
    var copied: seq<Evaluation>, candidates: seq<Candidate>, seen: set<string> := [], [], {};
    ParsedNothing(policy);
    for i := 0 to |values|
      invariant Parsed(values[..i], policy, copied, candidates, seen)
    {
      var value := values[i];
      if !NonBlank(value.key) || value.key in seen || !EvaluationAccepted(value, policy) {
        ParsedBlocks(values, i, policy, copied, candidates, seen);
        return None;
      }
      ParsedStep(values, i, policy, copied, candidates, seen);
      seen := seen + {value.key};
      var candidate := if value.eligible then Some(value.candidate.value) else None;
      var evaluation := Evaluation(value.key, value.absoluteFloor, value.preCount, value.postCount,
                                   value.eligible, candidate);
      assert evaluation == value && candidates + [] == candidates;
      copied := copied + [evaluation];
      if candidate.Some? {
        candidates := candidates + [candidate.value];
      }
    }
    assert values[..|values|] == values;
    ParsedAll(values, policy, copied, candidates, seen);
    return Some((Sort(ByKey, copied), Sort(BySuspicion, candidates)));
  }

  /** What the parsing loop knows about the prefix it has read. */
  ghost predicate Parsed(prefix: seq<Evaluation>, policy: Policy,
                         copied: seq<Evaluation>, candidates: seq<Candidate>, seen: set<string>) {
    && copied == prefix && candidates == Candidates(prefix)
    && AllAccepted(prefix, policy) && Distinct(Keys(prefix))
    && forall k :: k in seen <==> k in Keys(prefix)
  }

  lemma ParsedNothing(policy: Policy)
    ensures Parsed([], policy, [], [], {})
  {
  }

  lemma ParsedAll(values: seq<Evaluation>, policy: Policy,
                  copied: seq<Evaluation>, candidates: seq<Candidate>, seen: set<string>)
    requires Parsed(values, policy, copied, candidates, seen)
    ensures Evaluations(values, policy) == Some((Sort(ByKey, copied), Sort(BySuspicion, candidates)))
  {
  }

  lemma ParsedBlocks(values: seq<Evaluation>, i: nat, policy: Policy,
                     copied: seq<Evaluation>, candidates: seq<Candidate>, seen: set<string>)
    requires i < |values| && Parsed(values[..i], policy, copied, candidates, seen)
    requires !NonBlank(values[i].key) || values[i].key in seen || !EvaluationAccepted(values[i], policy)
    ensures Evaluations(values, policy).None?
  {
    if values[i].key in seen {
      var j :| 0 <= j < i && Keys(values[..i])[j] == values[i].key;
      assert Keys(values)[j] == Keys(values)[i];
    }
  }

  lemma ParsedStep(values: seq<Evaluation>, i: nat, policy: Policy,
                   copied: seq<Evaluation>, candidates: seq<Candidate>, seen: set<string>)
    requires i < |values| && Parsed(values[..i], policy, copied, candidates, seen)
    requires values[i].key !in seen && EvaluationAccepted(values[i], policy)
    ensures values[i].candidate.Some? == values[i].eligible
    ensures Parsed(values[..i + 1], policy, copied + [values[i]], candidates + CandidateOf(values[i]),
                   seen + {values[i].key})
  {
    hide CandidateAccepted, Keys, Candidates, CandidateOf;
    var prefix, value := values[..i], values[i];
    assert values[..i + 1] == prefix + [value];
    CandidatesOfConcat(prefix, [value]);
    CandidatesOfOne(value);
    assert Keys(prefix + [value]) == Keys(prefix) + [value.key];
    DistinctAppend(Keys(prefix), value.key);
  }

  lemma CandidatesOfOne(e: Evaluation)
    ensures Candidates([e]) == CandidateOf(e)
  {
  }

  // ----- the two reconstructions of the aggregate decision -----

  function NonNegative(score: Option<real>): bool {
    score.Some? ==> score.value >= 0.0
  }

  /** Re-derives the decision a compiled result claims; rejects any other claim. */
  function DecisionOf(result: BaselineResult, policy: Policy, candidates: seq<Candidate>): Option<Decision> {
    var keys, top, second := CandidateKeys(candidates), TopScore(candidates), SecondScore(candidates);
    match result
    case Ranking(_, _, ranked, lead) =>
      if ranked != candidates || |candidates| == 0 || top.value < policy.minimumScore then None
      else if |candidates| == 1 then
        if !lead.PlusInfinity? then None
        else Some(Decision(RankingKind, None, keys, |candidates|, top, second, None))
      else if !lead.Finite? || lead.value < 0.0
              || lead.value != candidates[0].suspicion - candidates[1].suspicion
              || lead.value < policy.minimumMargin then None
      else Some(Decision(RankingKind, None, keys, |candidates|, top, second, Some(lead.value)))
    case Abstention(_, reason, _, evaluated, eligibleCount, suppliedTop, suppliedSecond) =>
      if evaluated != candidates || eligibleCount < 0 || !NonNegative(suppliedTop) || !NonNegative(suppliedSecond)
         || eligibleCount != |candidates| || suppliedTop != top || suppliedSecond != second then None
      else
        var expected :- ExpectedReason(policy, top, second);
        if reason != expected then None
        else Some(Decision(AbstentionKind, Some(reason), keys, eligibleCount, top, second, None))
  }

  function ExpectedReason(policy: Policy, top: Option<real>, second: Option<real>): Option<AbstentionReason> {
    if top.None? then Some(InsufficientSignals)
    else if top.value < policy.minimumScore then Some(WeakSignals)
    else if second.Some? && top.value - second.value < policy.minimumMargin then Some(AmbiguousSignals)
    else None
  }

  /** Re-derives the decision stored in a ledger; rejects any other stored decision. */
  function LedgerDecision(value: Decision, policy: Policy, candidates: seq<Candidate>): Option<Decision> {
    var top, second := TopScore(candidates), SecondScore(candidates);
    if value.eligibleCount < 0 || !NonNegative(value.top) || !NonNegative(value.second)
       || value.candidateKeys != CandidateKeys(candidates) || value.eligibleCount != |candidates|
       || value.top != top || value.second != second then None
    else if value.kind.RankingKind? then
      if value.reason.Some? || |candidates| == 0 || top.value < policy.minimumScore then None
      else if |candidates| == 1 then
        if value.lead.Some? || second.Some? then None
        else Some(Decision(RankingKind, None, value.candidateKeys, value.eligibleCount, top, second, None))
      else if value.lead.None? || value.lead.value < 0.0
              || value.lead.value != candidates[0].suspicion - candidates[1].suspicion
              || value.lead.value < policy.minimumMargin then None
      else Some(Decision(RankingKind, None, value.candidateKeys, value.eligibleCount, top, second, value.lead))
    else
      if value.reason.None? || value.lead.Some? then None
      else
        var expected :- ExpectedReason(policy, top, second);
        if value.reason.value != expected then None
        else Some(Decision(AbstentionKind, Some(expected), value.candidateKeys, value.eligibleCount, top, second, None))
  }

  /** The diagnostic snapshot of a baseline result. */
  function Snapshot(result: BaselineResult): Decision {
    var keys, n := CandidateKeys(result.candidates), |result.candidates|;
    var top, second := TopScore(result.candidates), SecondScore(result.candidates);
    match result
    case Ranking(_, _, _, lead) =>
      Decision(RankingKind, None, keys, n, top, second, if lead.Finite? then Some(lead.value) else None)
    case Abstention(_, reason, _, _, _, _, _) =>
      Decision(AbstentionKind, Some(reason), keys, n, top, second, None)
  }

  /** Candidates as ranking leaves them: highest first, no negative suspicion. */
  ghost predicate Ranked(candidates: seq<Candidate>) {
    Sorted(BySuspicion, candidates) && forall i :: 0 <= i < |candidates| ==> candidates[i].suspicion >= 0.0
  }

  lemma RankedLeads(candidates: seq<Candidate>)
    requires Ranked(candidates) && |candidates| > 1
    ensures candidates[0].suspicion >= candidates[1].suspicion
  {
    assert BySuspicion(candidates[0], candidates[1]);
  }

  /**
   * The compiler's table and the baseline's table are the same table: exactly the
   * baseline's own decision is accepted, and its snapshot is what is recorded.
   */
  lemma CompilerTableAgrees(result: BaselineResult, policy: Policy, candidates: seq<Candidate>)
    requires Ranked(candidates) && result.policy == policy
    ensures DecisionOf(result, policy, candidates)
            == if result == Decide(policy, result.evaluations, candidates) then Some(Snapshot(result)) else None
  {
    if |candidates| > 1 {
      RankedLeads(candidates);
    }
  }

  /** The validator's table is that same table again, read from the recorded snapshot. */
  lemma ValidatorTableAgrees(value: Decision, policy: Policy, evaluations: seq<Evaluation>, candidates: seq<Candidate>)
    requires Ranked(candidates)
    ensures LedgerDecision(value, policy, candidates)
            == if value == Snapshot(Decide(policy, evaluations, candidates)) then Some(value) else None
  {
    if |candidates| > 1 {
      RankedLeads(candidates);
    }
  }

  // ----- entries and their content-bound identifiers -----

  function ContentOf(context: Context, window: Window, policy: Policy, decision: Decision, e: Evaluation)
    : MetricContent
  {
    MetricContent(METRIC_SCHEMA, context, window, policy, decision, e.key, e.preCount, e.postCount, e.eligible,
                  e.absoluteFloor, policy.relativeFloor, e.candidate)
  }

  function EntryOf(context: Context, window: Window, policy: Policy, decision: Decision, e: Evaluation): MetricEntry {
    MetricEntry(MetricDigest(ContentOf(context, window, policy, decision, e)), e.key, e.preCount, e.postCount,
                e.eligible, e.absoluteFloor, policy.relativeFloor, e.candidate)
  }

  function EntriesOf(context: Context, window: Window, policy: Policy, decision: Decision, es: seq<Evaluation>)
    : (r: seq<MetricEntry>)
    ensures |r| == |es|
    ensures forall i :: 0 <= i < |r| ==> r[i] == EntryOf(context, window, policy, decision, es[i])
  {
    if es == [] then []
    else [EntryOf(context, window, policy, decision, es[0])] + EntriesOf(context, window, policy, decision, es[1..])
  }

  function EvaluationOf(entry: MetricEntry): Evaluation {
    Evaluation(entry.key, entry.absoluteFloor, entry.preCount, entry.postCount, entry.eligible, entry.candidate)
  }

  function EvaluationsOf(entries: seq<MetricEntry>): (r: seq<Evaluation>)
    ensures |r| == |entries| && forall i :: 0 <= i < |r| ==> r[i] == EvaluationOf(entries[i])
  {
    if entries == [] then [] else [EvaluationOf(entries[0])] + EvaluationsOf(entries[1..])
  }

  function Ids(entries: seq<MetricEntry>): (r: seq<EvidenceId>)
    ensures |r| == |entries| && forall i :: 0 <= i < |r| ==> r[i] == entries[i].id
  {
    if entries == [] then [] else [entries[0].id] + Ids(entries[1..])
  }

  predicate EntryAccepted(entry: MetricEntry, policy: Policy) {
    entry.id.WellFormed() && entry.relativeFloor >= 0.0 && entry.relativeFloor == policy.relativeFloor
    && EvaluationAccepted(EvaluationOf(entry), policy)
  }

  predicate EntriesAccepted(entries: seq<MetricEntry>, policy: Policy) {
    forall i :: 0 <= i < |entries| ==> EntryAccepted(entries[i], policy)
  }

  predicate HeaderAccepted(l: MetricLedger) {
    l.schema == METRIC_SCHEMA && l.context.Valid() && l.window.Valid() && l.policy.Valid()
  }

  /** Full reconstruction from the supplied fields; any difference rejects. */
  function Validated(l: MetricLedger): Option<MetricLedger> {
    if !HeaderAccepted(l) || !EntriesAccepted(l.entries, l.policy) then None
    else
      Rebuilt(l, EvaluationsOf(l.entries), Ids(l.entries), Keys(EvaluationsOf(l.entries)))
  }

  function Rebuilt(l: MetricLedger, evaluations: seq<Evaluation>, suppliedIds: seq<EvidenceId>,
                   suppliedOrder: seq<string>)
    : Option<MetricLedger>
  {
    var (ordered, candidates) :- Evaluations(evaluations, l.policy);
    if suppliedOrder != Keys(ordered) then None
    else
      var decision :- LedgerDecision(l.decision, l.policy, candidates);
      var entries := EntriesOf(l.context, l.window, l.policy, decision, ordered);
      if Ids(entries) != suppliedIds then None
      else Some(MetricLedger(METRIC_SCHEMA, l.context, l.window, l.policy, decision, entries))
  }

  method ValidateLedger(l: MetricLedger) returns (r: Option<MetricLedger>)
    ensures r == Validated(l)
  {
    hide EntriesAccepted, EntryAccepted, Copied, Evaluations, LedgerDecision, Ids, Keys, EntriesOf, EvaluationsOf;
    if !HeaderAccepted(l) {
      return None;
    }
    var suppliedIds: seq<EvidenceId>, evaluations: seq<Evaluation>, suppliedOrder: seq<string> := [], [], [];
    CopiedNothing(l.policy);
    assert l.entries[..0] == [];
    for i := 0 to |l.entries|
      invariant Copied(l.entries[..i], l.policy, suppliedIds, evaluations, suppliedOrder)
    {
      var entry := l.entries[i];
      if !EntryAccepted(entry, l.policy) {
        CopiedBlocks(l.entries, i, l.policy);
        return None;
      }
      CopiedStep(l.entries, i, l.policy, suppliedIds, evaluations, suppliedOrder);
      evaluations := evaluations + [Evaluation(entry.key, entry.absoluteFloor, entry.preCount, entry.postCount,
                                               entry.eligible, entry.candidate)];
      suppliedIds := suppliedIds + [entry.id];
      suppliedOrder := suppliedOrder + [entry.key];
    }
    assert l.entries[..|l.entries|] == l.entries;
    CopiedAll(l.entries, l.policy, suppliedIds, evaluations, suppliedOrder);
    r := Reconstruct(l, evaluations, suppliedIds, suppliedOrder);
  }

  method Reconstruct(l: MetricLedger, evaluations: seq<Evaluation>, suppliedIds: seq<EvidenceId>,
                     suppliedOrder: seq<string>)
    returns (r: Option<MetricLedger>)
    ensures r == Rebuilt(l, evaluations, suppliedIds, suppliedOrder)
  {
    hide Evaluations, LedgerDecision, Ids, Keys, EntriesOf;
    var parsed := ParseEvaluations(evaluations, l.policy);
    if parsed.None? || suppliedOrder != Keys(parsed.value.0) {
      return None;
    }
    var decision := LedgerDecision(l.decision, l.policy, parsed.value.1);
    if decision.None? {
      return None;
    }
    var entries := EntriesOf(l.context, l.window, l.policy, decision.value, parsed.value.0);
    if Ids(entries) != suppliedIds {
      return None;
    }
    return Some(MetricLedger(METRIC_SCHEMA, l.context, l.window, l.policy, decision.value, entries));
  }

  /** What the copying loop holds after the accepted entries read so far. */
  ghost predicate Copied(entries: seq<MetricEntry>, policy: Policy,
                         ids: seq<EvidenceId>, evaluations: seq<Evaluation>, order: seq<string>)
  {
    && EntriesAccepted(entries, policy)
    && ids == Ids(entries) && evaluations == EvaluationsOf(entries) && order == Keys(evaluations)
  }

  lemma CopiedNothing(policy: Policy)
    ensures Copied([], policy, [], [], [])
  {
  }

  lemma CopiedAll(entries: seq<MetricEntry>, policy: Policy,
                  ids: seq<EvidenceId>, evaluations: seq<Evaluation>, order: seq<string>)
    requires Copied(entries, policy, ids, evaluations, order)
    ensures EntriesAccepted(entries, policy)
    ensures ids == Ids(entries) && evaluations == EvaluationsOf(entries) && order == Keys(evaluations)
  {
  }

  lemma CopiedBlocks(entries: seq<MetricEntry>, i: nat, policy: Policy)
    requires i < |entries| && !EntryAccepted(entries[i], policy)
    ensures !EntriesAccepted(entries, policy)
  {
    hide EntryAccepted;
  }

  lemma CopiedStep(entries: seq<MetricEntry>, i: nat, policy: Policy,
                   ids: seq<EvidenceId>, evaluations: seq<Evaluation>, order: seq<string>)
    requires i < |entries| && EntryAccepted(entries[i], policy)
    requires Copied(entries[..i], policy, ids, evaluations, order)
    ensures Copied(entries[..i + 1], policy, ids + [entries[i].id], evaluations + [EvaluationOf(entries[i])],
                   order + [entries[i].key])
  {
    hide EntryAccepted, Ids, Keys, EvaluationsOf;
    var next := entries[..i + 1];
    assert next == entries[..i] + [entries[i]];
    assert ids + [entries[i].id] == Ids(next);
    assert evaluations + [EvaluationOf(entries[i])] == EvaluationsOf(next);
    assert order + [entries[i].key] == Keys(EvaluationsOf(next));
  }

  function Compile(context: Context, window: Window, result: BaselineResult): Option<MetricLedger> {
    if !context.Valid() || !window.Valid() || !result.policy.Valid() then None
    else
      var (evaluations, candidates) :- Evaluations(result.evaluations, result.policy);
      var decision :- DecisionOf(result, result.policy, candidates);
      Validated(MetricLedger(METRIC_SCHEMA, context, window, result.policy, decision,
                             EntriesOf(context, window, result.policy, decision, evaluations)))
  }

  // ----- what an accepted ledger is, said without reconstruction -----

  /**
   * A ledger that tells the truth about itself: checked evaluations in strict key order,
   * the baseline's own decision over them, and every entry addressed by its own content.
   */
  ghost predicate Faithful(l: MetricLedger) {
    var es := EvaluationsOf(l.entries);
    && HeaderAccepted(l)
    && AllAccepted(es, l.policy) && Distinct(Keys(es)) && Sorted(ByKey, es)
    && l.decision == Snapshot(Decide(l.policy, es, RankedCandidates(es)))
    && forall i :: 0 <= i < |es| ==> l.entries[i] == EntryOf(l.context, l.window, l.policy, l.decision, es[i])
  }

  lemma AcceptedAreKeyed(es: seq<Evaluation>, policy: Policy)
    requires AllAccepted(es, policy)
    ensures CandidatesKeyed(es)
  {
    forall i | 0 <= i < |es| && es[i].candidate.Some?
      ensures es[i].candidate.value.key == es[i].key
    {
      assert EvaluationAccepted(es[i], policy);
    }
  }

  lemma RankedAreRanked(es: seq<Evaluation>, policy: Policy)
    requires AllAccepted(es, policy)
    ensures Ranked(RankedCandidates(es))
  {
    var ranked := RankedCandidates(es);
    BySuspicionOrdering();
    SortSorts(BySuspicion, Candidates(es));
    SortContents(BySuspicion, Candidates(es));
    forall i | 0 <= i < |ranked|
      ensures ranked[i].suspicion >= 0.0
    {
      assert ranked[i] in multiset(Candidates(es));
      CandidateOrigin(es, ranked[i]);
      var k :| 0 <= k < |es| && es[k].candidate == Some(ranked[i]);
      assert EvaluationAccepted(es[k], policy);
    }
  }

  /** Unmoved keys mean unmoved evaluations. */
  lemma SameOrderIsSame(es: seq<Evaluation>, ordered: seq<Evaluation>)
    requires Distinct(Keys(es)) && multiset(es) == multiset(ordered) && Keys(es) == Keys(ordered)
    ensures es == ordered
  {
    assert |es| == |Keys(es)| == |ordered|;
    forall i | 0 <= i < |es|
      ensures es[i] == ordered[i]
    {
      assert ordered[i] in multiset(es);
      var k := IndexOf(es, ordered[i]);
      assert Keys(es)[k] == Keys(ordered)[i] == Keys(es)[i];
    }
  }

  lemma SortOfStrictlyOrdered(es: seq<Evaluation>)
    requires Distinct(Keys(es)) && Sorted(ByKey, es)
    ensures Sort(ByKey, es) == es
  {
    ByKeyOrdering();
    DistinctKeysDoNotTie(es);
    SortOfSorted(ByKey, es);
  }

  lemma EntriesRoundTrip(context: Context, window: Window, policy: Policy, decision: Decision, es: seq<Evaluation>)
    ensures EvaluationsOf(EntriesOf(context, window, policy, decision, es)) == es
  {
    var entries := EntriesOf(context, window, policy, decision, es);
    forall i | 0 <= i < |es|
      ensures EvaluationsOf(entries)[i] == es[i]
    {
      assert entries[i] == EntryOf(context, window, policy, decision, es[i]);
    }
  }

  lemma AcceptedIsFaithful(l: MetricLedger)
    requires Validated(l).Some?
    ensures Faithful(l) && Validated(l) == Some(l)
  {
    var es := EvaluationsOf(l.entries);
    forall i | 0 <= i < |es|
      ensures EvaluationAccepted(es[i], l.policy)
    {
      assert EntryAccepted(l.entries[i], l.policy);
    }
    var ordered, candidates := Sort(ByKey, es), RankedCandidates(es);
    SortContents(ByKey, es);
    ByKeyOrdering();
    SortSorts(ByKey, es);
    SameOrderIsSame(es, ordered);
    RankedAreRanked(es, l.policy);
    ValidatorTableAgrees(l.decision, l.policy, es, candidates);
    var entries := EntriesOf(l.context, l.window, l.policy, l.decision, es);
    assert Ids(entries) == Ids(l.entries);
    forall i | 0 <= i < |es|
      ensures l.entries[i] == entries[i]
    {
      assert Ids(entries)[i] == Ids(l.entries)[i];
      assert EntryAccepted(l.entries[i], l.policy);
    }
    assert l.entries == entries;
  }

  lemma FaithfulIsAccepted(l: MetricLedger)
    requires Faithful(l)
    ensures Validated(l) == Some(l)
  {
    var es := EvaluationsOf(l.entries);
    forall i | 0 <= i < |es|
      ensures EntryAccepted(l.entries[i], l.policy)
    {
      assert EvaluationAccepted(es[i], l.policy);
    }
    SortOfStrictlyOrdered(es);
    RankedAreRanked(es, l.policy);
    ValidatorTableAgrees(l.decision, l.policy, es, RankedCandidates(es));
    assert EntriesOf(l.context, l.window, l.policy, l.decision, es) == l.entries;
  }

  /** Validation accepts exactly the faithful ledgers and repairs nothing. */
  lemma ValidationNeverRepairs(l: MetricLedger)
    ensures Validated(l) == if Faithful(l) then Some(l) else None
  {
    if Validated(l).Some? {
      AcceptedIsFaithful(l);
    }
    if Faithful(l) {
      FaithfulIsAccepted(l);
    }
  }

  /** One shared identifier pins the whole ledger header and the entry under it. */
  lemma IdsBindContent(a: MetricLedger, b: MetricLedger, i: nat, j: nat)
    requires Validated(a).Some? && Validated(b).Some?
    requires i < |a.entries| && j < |b.entries| && a.entries[i].id == b.entries[j].id
    ensures a.context == b.context && a.window == b.window && a.policy == b.policy && a.decision == b.decision
    ensures a.entries[i] == b.entries[j]
  {
    AcceptedIsFaithful(a);
    AcceptedIsFaithful(b);
  }

  /** Within one ledger an identifier names one entry. */
  lemma IdsAreDistinct(l: MetricLedger)
    requires Validated(l).Some?
    ensures Distinct(Ids(l.entries))
  {
    AcceptedIsFaithful(l);
    var es := EvaluationsOf(l.entries);
    forall i, j | 0 <= i < j < |l.entries|
      ensures Ids(l.entries)[i] != Ids(l.entries)[j]
    {
      assert Keys(es)[i] != Keys(es)[j];
    }
  }

  // ----- compilation -----

  /** The results compilation is willing to bind: the baseline's decision over checked evaluations. */
  ghost predicate Compilable(context: Context, window: Window, result: BaselineResult) {
    && context.Valid() && window.Valid() && result.policy.Valid()
    && AllAccepted(result.evaluations, result.policy) && Distinct(Keys(result.evaluations))
    && result == Decide(result.policy, result.evaluations, RankedCandidates(result.evaluations))
  }

  /** The ledger a compilable result is bound into. */
  function LedgerOf(context: Context, window: Window, result: BaselineResult): MetricLedger {
    var decision := Snapshot(result);
    MetricLedger(METRIC_SCHEMA, context, window, result.policy, decision,
                 EntriesOf(context, window, result.policy, decision, Sort(ByKey, result.evaluations)))
  }

  lemma DecideIgnoresEvaluations(policy: Policy, a: seq<Evaluation>, b: seq<Evaluation>, candidates: seq<Candidate>)
    ensures Snapshot(Decide(policy, a, candidates)) == Snapshot(Decide(policy, b, candidates))
  {
  }

  lemma SortedEvaluationsQualify(es: seq<Evaluation>, policy: Policy)
    requires AllAccepted(es, policy) && Distinct(Keys(es))
    ensures var ordered := Sort(ByKey, es);
            AllAccepted(ordered, policy) && Distinct(Keys(ordered)) && Sorted(ByKey, ordered)
            && RankedCandidates(ordered) == RankedCandidates(es)
  {
    var ordered := Sort(ByKey, es);
    SortContents(ByKey, es);
    ByKeyOrdering();
    SortSorts(ByKey, es);
    forall i | 0 <= i < |ordered|
      ensures EvaluationAccepted(ordered[i], policy)
    {
      assert ordered[i] in multiset(es);
      var k := IndexOf(es, ordered[i]);
    }
    KeysAreOrderFree(es, ordered);
    DistinctIsOrderFree(Keys(es), Keys(ordered));
    AcceptedAreKeyed(es, policy);
    RankedCandidatesAreOrderFree(es, ordered);
  }

  lemma CompilableLedgerIsFaithful(context: Context, window: Window, result: BaselineResult)
    requires Compilable(context, window, result)
    ensures Faithful(LedgerOf(context, window, result))
  {
    var l, es := LedgerOf(context, window, result), result.evaluations;
    var ordered := Sort(ByKey, es);
    SortedEvaluationsQualify(es, result.policy);
    EntriesRoundTrip(context, window, result.policy, l.decision, ordered);
    DecideIgnoresEvaluations(result.policy, es, ordered, RankedCandidates(es));
  }

  /**
   * Compilation accepts exactly the results that are the baseline's own decision over
   * checked evaluations, so each policy and candidate set has one acceptable decision.
   */
  lemma CompileAcceptsExactly(context: Context, window: Window, result: BaselineResult)
    ensures Compile(context, window, result)
            == if Compilable(context, window, result) then Some(LedgerOf(context, window, result)) else None
  {
    var es := result.evaluations;
    if context.Valid() && window.Valid() && result.policy.Valid() && Evaluations(es, result.policy).Some? {
      RankedAreRanked(es, result.policy);
      CompilerTableAgrees(result, result.policy, RankedCandidates(es));
      if Compilable(context, window, result) {
        CompilableLedgerIsFaithful(context, window, result);
        FaithfulIsAccepted(LedgerOf(context, window, result));
      }
    }
  }

  /** Rearranging the evaluations inside a result changes nothing in the compiled ledger. */
  lemma CompileIsOrderFree(context: Context, window: Window, a: BaselineResult, es: seq<Evaluation>)
    requires multiset(a.evaluations) == multiset(es)
    ensures Compile(context, window, a) == Compile(context, window, a.(evaluations := es))
  {
    CompileIsOrderFreeOneWay(context, window, a, es);
    var b := a.(evaluations := es);
    CompileIsOrderFreeOneWay(context, window, b, a.evaluations);
    assert b.(evaluations := a.evaluations) == a;
  }

  lemma CompileIsOrderFreeOneWay(context: Context, window: Window, a: BaselineResult, es: seq<Evaluation>)
    requires multiset(a.evaluations) == multiset(es)
    ensures Compile(context, window, a).Some?
      ==> Compile(context, window, a) == Compile(context, window, a.(evaluations := es))
  {
    hide Compile, Compilable, LedgerOf;
    CompileAcceptsExactly(context, window, a);
    CompileAcceptsExactly(context, window, a.(evaluations := es));
    if Compilable(context, window, a) {
      CompilableIsOrderFree(context, window, a, es);
    }
  }

  lemma AcceptanceIsOrderFree(es: seq<Evaluation>, policy: Policy, fs: seq<Evaluation>)
    requires multiset(es) == multiset(fs) && AllAccepted(es, policy) && Distinct(Keys(es))
    ensures AllAccepted(fs, policy) && Distinct(Keys(fs))
    ensures RankedCandidates(es) == RankedCandidates(fs) && Sort(ByKey, es) == Sort(ByKey, fs)
  {
    hide EvaluationAccepted, RankedCandidates;
    forall i | 0 <= i < |fs|
      ensures EvaluationAccepted(fs[i], policy)
    {
      assert fs[i] in multiset(es);
      var k := IndexOf(es, fs[i]);
    }
    KeysAreOrderFree(es, fs);
    DistinctIsOrderFree(Keys(es), Keys(fs));
    AcceptedAreKeyed(es, policy);
    RankedCandidatesAreOrderFree(es, fs);
    DistinctKeysDoNotTie(es);
    ByKeyOrdering();
    SortIsOrderFree(ByKey, es, fs);
  }

  lemma CompilableIsOrderFree(context: Context, window: Window, a: BaselineResult, es: seq<Evaluation>)
    requires multiset(a.evaluations) == multiset(es) && Compilable(context, window, a)
    ensures Compilable(context, window, a.(evaluations := es))
    ensures LedgerOf(context, window, a.(evaluations := es)) == LedgerOf(context, window, a)
  {
    hide AllAccepted, RankedCandidates, Decide, Snapshot, Keys, Distinct, EntriesOf, Sort, Context.Valid, Window.Valid;
    AcceptanceIsOrderFree(a.evaluations, a.policy, es);
    DecideCarriesEvaluations(a.policy, a.evaluations, es, RankedCandidates(es));
    SnapshotIgnoresEvaluations(a, es);
  }

  lemma DecideCarriesEvaluations(policy: Policy, a: seq<Evaluation>, b: seq<Evaluation>, candidates: seq<Candidate>)
    ensures Decide(policy, b, candidates) == Decide(policy, a, candidates).(evaluations := b)
  {
  }

  lemma SnapshotIgnoresEvaluations(result: BaselineResult, es: seq<Evaluation>)
    ensures Snapshot(result.(evaluations := es)) == Snapshot(result)
  {
  }

  lemma AcceptedIsCompiled(l: MetricLedger) returns (result: BaselineResult)
    requires Faithful(l)
    ensures Compile(l.context, l.window, result) == Some(l)
  {
    hide Compile, AllAccepted, RankedCandidates;
    var es := EvaluationsOf(l.entries);
    result := Decide(l.policy, es, RankedCandidates(es));
    SortOfStrictlyOrdered(es);
    CompileAcceptsExactly(l.context, l.window, result);
    assert EntriesOf(l.context, l.window, l.policy, l.decision, es) == l.entries;
  }

  /** Accepted ledgers are exactly the ledgers that compilation produces. */
  lemma ValidationImage(l: MetricLedger)
    ensures Validated(l).Some? <==> exists result :: Compile(l.context, l.window, result) == Some(l)
  {
    hide Validated, Compile, Faithful, LedgerOf, Compilable;
    if Validated(l).Some? {
      AcceptedIsFaithful(l);
      var result := AcceptedIsCompiled(l);
    }
    if result :| Compile(l.context, l.window, result) == Some(l) {
      CompileAcceptsExactly(l.context, l.window, result);
      CompilableLedgerIsFaithful(l.context, l.window, result);
      FaithfulIsAccepted(l);
    }
  }

  // ----- everything the baseline ranks compiles -----

  lemma {:induction false} DeviationsAreNonNegative(values: seq<real>, center: real)
    ensures forall i :: 0 <= i < |values| ==> Deviations(values, center)[i] >= 0.0
  {
    if values != [] {
      DeviationsAreNonNegative(values[1..], center);
      assert forall i :: 0 < i < |values| ==> Deviations(values, center)[i] == Deviations(values[1..], center)[i - 1];
    }
  }

  lemma MadIsNonNegative(values: seq<real>)
    requires |values| > 0
    ensures MadOf(values) >= 0.0
  {
    var d := Deviations(values, Median(values));
    DeviationsAreNonNegative(values, Median(values));
    MedianIsNotDraggedBelow(d, {}, 0.0);
  }

  lemma EvaluatedIsAccepted(window: Window, item: SignalInput, policy: Policy)
    requires item.Valid() && policy.Valid()
    ensures EvaluationAccepted(EvaluateSignal(window, item, policy), policy)
  {
    hide ShiftIn, ScaleOf, MadOf, Median;
    var pre, post := PreValues(window, item.signal), PostValues(window, item.signal);
    if EnoughPoints(policy, |pre|, |post|) {
      MadIsNonNegative(pre);
    }
  }

  /** Every ranking or abstention of the baseline compiles, into the ledger of its own decision. */
  lemma RankCompiles(context: Context, window: Window, inputs: seq<SignalInput>, policy: Policy)
    requires context.Valid() && window.Valid() && ValidInputs(inputs) && policy.Valid()
    requires Rank(window, inputs, policy).Success?
    ensures var result := Rank(window, inputs, policy).value;
            Compilable(context, window, result)
            && Compile(context, window, result) == Some(LedgerOf(context, window, result))
  {
    hide EvaluationAccepted, EvaluateSignal, RankedCandidates, Compile;
    var es := EvaluateAll(window, inputs, policy);
    forall i | 0 <= i < |es|
      ensures EvaluationAccepted(es[i], policy)
    {
      EvaluatedIsAccepted(window, inputs[i], policy);
    }
    EvaluationKeys(window, inputs, policy);
    SortedEvaluationsQualify(es, policy);
    CompileAcceptsExactly(context, window, Rank(window, inputs, policy).value);
  }
}
