/** Canonical payloads: the serializer re-checks what it is given before it writes anything. */
module Serialization {
  import opened Prelude
  import opened Text
  import opened Sorting
  import opened Domain
  import opened Baseline
  import opened Ledger
  import opened Hypotheses
  import opened Verifier
  import opened EndToEnd

  // ----- verification results -----

  datatype PredicatePayload = PredicatePayload(
    contradicting: seq<EvidenceId>,
    minimumScore: real,
    observed: Option<Direction>,
    id: string,
    reason: Option<UnknownReason>,
    supporting: seq<EvidenceId>,
    verdict: Verdict)

  datatype VerificationPayload = VerificationPayload(
    composition: Composition,
    contradicting: seq<EvidenceId>,
    id: string,
    predicates: seq<PredicatePayload>,
    reason: Option<UnknownReason>,
    supporting: seq<EvidenceId>,
    verdict: Verdict)

  predicate AllWellFormed(ids: seq<EvidenceId>) {
    forall i :: 0 <= i < |ids| ==> ids[i].WellFormed()
  }

  predicate Disjoint(a: seq<EvidenceId>, b: seq<EvidenceId>) {
    forall i :: 0 <= i < |a| ==> a[i] !in b
  }

  const DIRECTIONLESS := {ContextMismatch, CausalClaim, SignalNotFound, InsufficientEvidence, NoDirectionalShift}

  /** The shape of one child trace, verdict by verdict. */
  predicate ShapeAccepted(r: PredicateResult) {
    match r.verdict
    case Unknown =>
      && r.reason.Some? && r.supporting == [] && r.contradicting == []
      && (r.reason.value in DIRECTIONLESS ==> r.observed.None?)
      && (r.reason.value == WeakEvidence ==> r.observed.Some?)
    case Supported => r.reason.None? && r.observed.Some? && r.supporting != [] && r.contradicting == []
    case Refuted => r.reason.None? && r.observed.Some? && r.supporting == [] && r.contradicting != []
  }

  function PredicatePayloadOf(r: PredicateResult): Option<PredicatePayload> {
    if AllWellFormed(r.supporting) && AllWellFormed(r.contradicting) && Disjoint(r.supporting, r.contradicting)
       && ShapeAccepted(r) && r.minimumScore >= 0.0 && NonBlank(r.id)
    then Some(PredicatePayload(r.contradicting, r.minimumScore, r.observed, r.id, r.reason, r.supporting, r.verdict))
    else None
  }

  /**
   * Which child traces serialize: the support of a supported one, the contradiction of a refuted one, a reason exactly
   * for an unknown one, and a direction unless the reason is one that leaves none to observe.
   */
  lemma ChildSerializesIff(r: PredicateResult)
    ensures PredicatePayloadOf(r).Some? <==>
      && NonBlank(r.id) && r.minimumScore >= 0.0
      && (forall id :: id in r.supporting || id in r.contradicting ==> id.WellFormed())
      && (r.supporting != [] <==> r.verdict == Supported) && (r.contradicting != [] <==> r.verdict == Refuted)
      && (r.reason.Some? <==> r.verdict == Unknown)
      && (r.observed.Some? <==> r.reason.None? || r.reason == Some(WeakEvidence))
  {
    hide NonBlank, EvidenceId.WellFormed;
  }

  function PredicatePayloads(rs: seq<PredicateResult>): (r: Option<seq<PredicatePayload>>)
    ensures r.Some? ==> |r.value| == |rs|
    ensures r.Some? ==> forall i :: 0 <= i < |rs| ==> PredicatePayloadOf(rs[i]) == Some(r.value[i])
    ensures r.None? <==> exists i :: 0 <= i < |rs| && PredicatePayloadOf(rs[i]).None?
  {
    if rs == [] then Some([])
    else
      match PredicatePayloadOf(rs[0])
      case None => assert PredicatePayloadOf(rs[0]).None?; None
      case Some(first) =>
        match PredicatePayloads(rs[1..])
        case None =>
          assert exists i :: 0 <= i < |rs| && PredicatePayloadOf(rs[i]).None? by {
            var i :| 0 <= i < |rs[1..]| && PredicatePayloadOf(rs[1..][i]).None?;
            assert PredicatePayloadOf(rs[i + 1]).None?;
          }
          None
        case Some(rest) =>
          assert forall i :: 0 < i < |rs| ==> rs[i] == rs[1..][i - 1];
          Some([first] + rest)
  }

  function PayloadSupporting(ps: seq<PredicatePayload>): seq<EvidenceId> {
    if ps == [] then [] else ps[0].supporting + PayloadSupporting(ps[1..])
  }

  function PayloadContradicting(ps: seq<PredicatePayload>): seq<EvidenceId> {
    if ps == [] then [] else ps[0].contradicting + PayloadContradicting(ps[1..])
  }

  predicate SomeVerdict(ps: seq<PredicatePayload>, v: Verdict) {
    exists i :: 0 <= i < |ps| && ps[i].verdict == v
  }

  /** The serializer's own composition, independent of the verifier's. */
  function ExpectedVerdict(composition: Composition, ps: seq<PredicatePayload>): Verdict {
    if composition.All? then
      if SomeVerdict(ps, Refuted) then Refuted else if SomeVerdict(ps, Unknown) then Unknown else Supported
    else
      if SomeVerdict(ps, Supported) then Supported else if SomeVerdict(ps, Unknown) then Unknown else Refuted
  }

  predicate IsGate(reason: Option<UnknownReason>) {
    reason == Some(ContextMismatch) || reason == Some(CausalClaim)
  }

  predicate GateAccepted(r: VerificationResult, ps: seq<PredicatePayload>) {
    if r.reason.Some? then
      && IsGate(r.reason) && r.verdict == Unknown && r.supporting == [] && r.contradicting == []
      && forall i :: 0 <= i < |ps| ==>
           ps[i].verdict == Unknown && ps[i].reason == r.reason && ps[i].observed.None?
           && ps[i].supporting == [] && ps[i].contradicting == []
    else forall i :: 0 <= i < |ps| ==> !IsGate(ps[i].reason)
  }

  predicate DistinctIds(ps: seq<PredicatePayload>) {
    forall i, j :: 0 <= i < j < |ps| ==> ps[i].id != ps[j].id
  }

  function VerificationPayloadOf(r: VerificationResult): Option<VerificationPayload> {
    var ps :- PredicatePayloads(r.results);
    if |ps| > 0 && DistinctIds(ps)
       && AllWellFormed(r.supporting) && AllWellFormed(r.contradicting)
       && r.supporting == PayloadSupporting(ps) && r.contradicting == PayloadContradicting(ps)
       && r.verdict == ExpectedVerdict(r.composition, ps)
       && GateAccepted(r, ps) && NonBlank(r.id)
    then Some(VerificationPayload(r.composition, r.contradicting, r.id, ps, r.reason, r.supporting, r.verdict))
    else None
  }

  // ----- what the re-check accepts, in the verifier's terms -----

  /** A trace whose parts say the same thing. */
  ghost predicate Consistent(r: VerificationResult) {
    && NonBlank(r.id) && |r.results| > 0
    && (forall i :: 0 <= i < |r.results| ==> PredicatePayloadOf(r.results[i]).Some?)
    && (forall i, j :: 0 <= i < j < |r.results| ==> r.results[i].id != r.results[j].id)
    && r.verdict == Compose(r.composition, Verdicts(r.results))
    && r.supporting == Supporting(r.results) && r.contradicting == Contradicting(r.results)
    && (r.reason.Some? ==> IsGate(r.reason))
    && (forall i :: 0 <= i < |r.results| ==>
          if r.reason.Some? then r.results[i].reason == r.reason else !IsGate(r.results[i].reason))
  }

  lemma {:induction false} CitationsAgree(rs: seq<PredicateResult>, ps: seq<PredicatePayload>)
    requires |rs| == |ps| && forall i :: 0 <= i < |rs| ==> PredicatePayloadOf(rs[i]) == Some(ps[i])
    ensures PayloadSupporting(ps) == Supporting(rs) && PayloadContradicting(ps) == Contradicting(rs)
    ensures AllWellFormed(Supporting(rs)) && AllWellFormed(Contradicting(rs))
  {
    if rs != [] {
      assert forall i :: 0 <= i < |rs[1..]| ==> rs[1..][i] == rs[i + 1] && ps[1..][i] == ps[i + 1];
      CitationsAgree(rs[1..], ps[1..]);
      assert PredicatePayloadOf(rs[0]) == Some(ps[0]);
    }
  }

  /** The two hand-written compositions are one function. */
  lemma CompositionsAgree(composition: Composition, rs: seq<PredicateResult>, ps: seq<PredicatePayload>)
    requires |rs| == |ps| && forall i :: 0 <= i < |rs| ==> ps[i].verdict == rs[i].verdict
    ensures ExpectedVerdict(composition, ps) == Compose(composition, Verdicts(rs))
  {
    MembershipAgrees(rs, ps, Supported);
    MembershipAgrees(rs, ps, Refuted);
    MembershipAgrees(rs, ps, Unknown);
  }

  lemma {:induction false} MembershipAgrees(rs: seq<PredicateResult>, ps: seq<PredicatePayload>, v: Verdict)
    requires |rs| == |ps| && forall i :: 0 <= i < |rs| ==> ps[i].verdict == rs[i].verdict
    ensures SomeVerdict(ps, v) <==> v in Verdicts(rs)
  {
    if SomeVerdict(ps, v) {
      var i :| 0 <= i < |ps| && ps[i].verdict == v;
      assert Verdicts(rs)[i] in Verdicts(rs);
    }
    if v in Verdicts(rs) {
      var i :| 0 <= i < |rs| && Verdicts(rs)[i] == v;
      assert ps[i].verdict == v;
    }
  }

  lemma {:induction false} NoCitations(rs: seq<PredicateResult>)
    requires forall i :: 0 <= i < |rs| ==> rs[i].supporting == [] && rs[i].contradicting == []
    ensures Supporting(rs) == [] && Contradicting(rs) == []
  {
    if rs != [] {
      NoCitations(rs[1..]);
    }
  }

  /** A gate reason on a child leaves it no verdict, no direction and no evidence. */
  lemma GatedChild(r: PredicateResult, reason: Option<UnknownReason>)
    requires PredicatePayloadOf(r).Some? && IsGate(reason) && r.reason == reason
    ensures r.verdict == Unknown && r.observed.None? && r.supporting == [] && r.contradicting == []
  {
  }

  lemma GatedTrace(r: VerificationResult)
    requires Consistent(r) && r.reason.Some?
    ensures r.verdict == Unknown && r.supporting == [] && r.contradicting == []
    ensures forall i :: 0 <= i < |r.results| ==>
      r.results[i].verdict == Unknown && r.results[i].observed.None?
      && r.results[i].supporting == [] && r.results[i].contradicting == []
  {
    hide PredicatePayloadOf;
    forall i | 0 <= i < |r.results|
      ensures r.results[i].verdict == Unknown && r.results[i].observed.None?
              && r.results[i].supporting == [] && r.results[i].contradicting == []
    {
      GatedChild(r.results[i], r.reason);
    }
    NoCitations(r.results);
    assert Verdicts(r.results)[0] == Unknown;
    assert forall v :: v in Verdicts(r.results) ==> v == Unknown;
  }

  lemma GatePartAgrees(r: VerificationResult, ps: seq<PredicatePayload>)
    requires |ps| == |r.results| && forall i :: 0 <= i < |ps| ==> PredicatePayloadOf(r.results[i]) == Some(ps[i])
    requires Consistent(r)
    ensures GateAccepted(r, ps)
  {
    if r.reason.Some? {
      GatedTrace(r);
    }
    forall i | 0 <= i < |ps|
      ensures ps[i].verdict == r.results[i].verdict && ps[i].reason == r.results[i].reason
              && ps[i].observed == r.results[i].observed && ps[i].supporting == r.results[i].supporting
              && ps[i].contradicting == r.results[i].contradicting
    {
      assert PredicatePayloadOf(r.results[i]) == Some(ps[i]);
    }
  }

  /** The re-check accepts exactly the consistent traces. */
  lemma SerializerAcceptsConsistent(r: VerificationResult)
    ensures VerificationPayloadOf(r).Some? <==> Consistent(r)
  {
    hide ShapeAccepted, NonBlank, Compose, ExpectedVerdict, PayloadSupporting, PayloadContradicting, Supporting,
         Contradicting, Verdicts, EvidenceId.WellFormed;
    var payloads := PredicatePayloads(r.results);
    if payloads.Some? {
      var ps := payloads.value;
      forall i | 0 <= i < |ps|
        ensures ps[i].verdict == r.results[i].verdict && ps[i].reason == r.results[i].reason
                && ps[i].id == r.results[i].id
      {
        assert PredicatePayloadOf(r.results[i]) == Some(ps[i]);
      }
      CitationsAgree(r.results, ps);
      CompositionsAgree(r.composition, r.results, ps);
      if Consistent(r) {
        GatePartAgrees(r, ps);
      }
    }
  }

  /** Everything an accepted payload says about its children. */
  lemma AcceptedPayloadComposes(r: VerificationResult)
    requires VerificationPayloadOf(r).Some?
    ensures var p := VerificationPayloadOf(r).value;
            && p.verdict == r.verdict == Compose(r.composition, Verdicts(r.results))
            && p.supporting == r.supporting == Supporting(r.results)
            && p.contradicting == r.contradicting == Contradicting(r.results)
            && (r.reason.Some? ==> IsGate(r.reason) && r.verdict == Unknown
                                   && p.supporting == [] && p.contradicting == [])
            && (forall i :: 0 <= i < |r.results| ==>
                  if r.reason.Some? then r.results[i].reason == r.reason else !IsGate(r.results[i].reason))
  {
    hide PredicatePayloads, Compose, Supporting, Contradicting;
    SerializerAcceptsConsistent(r);
    if r.reason.Some? {
      GatedTrace(r);
    }
  }

  // ----- a payload carries the whole trace -----

  function ReadPredicate(p: PredicatePayload): PredicateResult {
    PredicateResult(p.id, p.verdict, p.reason, p.observed, p.minimumScore, p.supporting, p.contradicting)
  }

  function ReadPredicates(ps: seq<PredicatePayload>): (r: seq<PredicateResult>)
    ensures |r| == |ps| && forall i :: 0 <= i < |r| ==> r[i] == ReadPredicate(ps[i])
  {
    if ps == [] then [] else [ReadPredicate(ps[0])] + ReadPredicates(ps[1..])
  }

  /** A reader of verification payloads. */
  function ReadVerification(p: VerificationPayload): VerificationResult {
    VerificationResult(p.id, p.composition, p.verdict, p.reason, ReadPredicates(p.predicates), p.supporting,
                       p.contradicting)
  }

  /** Writing a trace and reading it back loses nothing and exchanges nothing. */
  lemma VerificationRoundTrip(r: VerificationResult)
    requires VerificationPayloadOf(r).Some?
    ensures ReadVerification(VerificationPayloadOf(r).value) == r
    ensures var p := VerificationPayloadOf(r).value;
            p.supporting == PayloadSupporting(p.predicates) && p.contradicting == PayloadContradicting(p.predicates)
  {
    hide GateAccepted, DistinctIds, ExpectedVerdict, ShapeAccepted, NonBlank;
    var p := VerificationPayloadOf(r).value;
    forall i | 0 <= i < |r.results|
      ensures ReadPredicate(p.predicates[i]) == r.results[i]
    {
      assert PredicatePayloadOf(r.results[i]) == Some(p.predicates[i]);
    }
    assert ReadPredicates(p.predicates) == r.results;
  }

  /** Identifiers are cited by a list exactly when some child cites them. */
  lemma {:induction false} CitedByChildren(ps: seq<PredicatePayload>, id: EvidenceId)
    ensures id in PayloadSupporting(ps) <==> exists i :: 0 <= i < |ps| && id in ps[i].supporting
    ensures id in PayloadContradicting(ps) <==> exists i :: 0 <= i < |ps| && id in ps[i].contradicting
  {
    if ps != [] {
      var rest := ps[1..];
      CitedByChildren(rest, id);
      assert forall i :: 0 <= i < |rest| ==> rest[i] == ps[i + 1];
      assert forall i :: 0 < i < |ps| ==> ps[i] == rest[i - 1];
    }
  }

  // ----- the re-check never rejects the verifier -----

  lemma EvaluationSerializes(p: MetricPredicate, gate: Option<UnknownReason>, l: MetricLedger)
    requires Validated(l).Some? && NonBlank(p.id) && (gate.Some? ==> IsGate(gate))
    ensures var r := ResultOf(p, gate, l.entries, l.policy.minimumScore);
            && PredicatePayloadOf(r).Some? && r.id == p.id
            && (if gate.Some? then r.reason == gate else !IsGate(r.reason))
  {
    hide Validated, Lookup, PredicatePayloadOf, EvaluatePredicate, Faithful;
    ValidationNeverRepairs(l);
    FaithfulPolicy(l);
    var entry := Lookup(l.entries, p.key);
    if gate.Some? {
      GateSerializes(p, gate.value, l.policy.minimumScore);
    } else {
      if entry.Some? {
        LookupComesFromLedger(l, p.key);
        var i :| 0 <= i < |l.entries| && l.entries[i].key == p.key && entry == Some(l.entries[i]);
        LedgerIdsAreDigests(l, i);
      }
      AnswerSerializes(p, entry, l.policy.minimumScore);
    }
  }

  lemma LedgerIdsAreDigests(l: MetricLedger, i: nat)
    requires Faithful(l) && i < |l.entries|
    ensures l.entries[i].id.MetricDigest?
  {
  }

  lemma FaithfulPolicy(l: MetricLedger)
    requires Faithful(l)
    ensures l.policy.Valid()
  {
  }

  lemma GateSerializes(p: MetricPredicate, gate: UnknownReason, minimumScore: real)
    requires NonBlank(p.id) && minimumScore >= 0.0 && IsGate(Some(gate))
    ensures var r := UnknownResult(p, gate, minimumScore, None); PredicatePayloadOf(r).Some?
  {
  }

  lemma AnswerSerializes(p: MetricPredicate, entry: Option<MetricEntry>, minimumScore: real)
    requires NonBlank(p.id) && minimumScore >= 0.0 && (entry.Some? ==> entry.value.id.MetricDigest?)
    ensures var r := EvaluatePredicate(p, entry, minimumScore);
            PredicatePayloadOf(r).Some? && r.id == p.id && !IsGate(r.reason)
  {
  }

  /** Every trace the verifier produces passes the serializer's re-check. */
  lemma VerifiedSerializes(h: Hypothesis, l: MetricLedger)
    requires Verify(h, l).Success?
    ensures VerificationPayloadOf(Verify(h, l).value).Some?
  {
    hide Validated, ResultOf, PredicatePayloadOf, Compose, Supporting, Contradicting, Verdicts, VerificationPayloadOf;
    ValidationNeverRepairs(l);
    var r, gate := Trace(h, l), Gate(h, l);
    forall i | 0 <= i < |r.results|
      ensures PredicatePayloadOf(r.results[i]).Some? && r.results[i].id == h.predicates[i].id
      ensures if gate.Some? then r.results[i].reason == gate else !IsGate(r.results[i].reason)
    {
      EvaluationSerializes(h.predicates[i], gate, l);
    }
    GatedComposition(h, l);
    SerializerAcceptsConsistent(r);
  }

  // ----- evidence entries -----

  datatype EntryPayload = EntryPayload(
    id: EvidenceId,
    key: string,
    preCount: int,
    postCount: int,
    eligible: bool,
    absoluteFloor: real,
    relativeFloor: real,
    candidate: Option<Candidate>)

  predicate CandidateSerializes(c: Candidate) {
    c.absoluteFloor > 0.0 && c.postCount >= 0 && c.preMad >= 0.0 && c.preCount >= 0 && c.relativeFloor >= 0.0
    && c.scale > 0.0 && NonBlank(c.key) && c.suspicion >= 0.0
  }

  function EntryPayloadOf(e: MetricEntry): Option<EntryPayload> {
    if (e.candidate.Some? ==> CandidateSerializes(e.candidate.value))
       && NonBlank(e.key) && e.preCount >= 0 && e.postCount >= 0 && e.absoluteFloor > 0.0 && e.relativeFloor >= 0.0
       && e.eligible == e.candidate.Some?
       && (e.candidate.Some? ==>
             var c := e.candidate.value;
             c.key == e.key && c.preCount == e.preCount && c.postCount == e.postCount
             && c.absoluteFloor == e.absoluteFloor && c.relativeFloor == e.relativeFloor)
       && e.id.WellFormed()
    then Some(EntryPayload(e.id, e.key, e.preCount, e.postCount, e.eligible, e.absoluteFloor, e.relativeFloor,
                           e.candidate))
    else None
  }

  /** Which entries serialize: an eligible one has a candidate, and the candidate repeats what the entry says of it. */
  lemma EntrySerializesIff(e: MetricEntry)
    ensures EntryPayloadOf(e).Some? <==>
      && NonBlank(e.key) && e.id.WellFormed()
      && e.preCount >= 0 && e.postCount >= 0 && e.absoluteFloor > 0.0 && e.relativeFloor >= 0.0
      && match e.candidate
         case None => !e.eligible
         case Some(c) =>
           && e.eligible && c.preMad >= 0.0 && c.scale > 0.0 && c.suspicion >= 0.0
           && c == Candidate(e.key, e.preCount, e.postCount, c.preMedian, c.postMedian, c.preMad, e.absoluteFloor,
                             e.relativeFloor, c.scale, c.signedScore, c.suspicion)
  {
  }

  /** A reader of evidence payloads. */
  function ReadEntry(p: EntryPayload): MetricEntry {
    MetricEntry(p.id, p.key, p.preCount, p.postCount, p.eligible, p.absoluteFloor, p.relativeFloor, p.candidate)
  }

  /** Writing an entry and reading it back gives the entry. */
  lemma EntryRoundTrip(e: MetricEntry)
    requires EntryPayloadOf(e).Some?
    ensures ReadEntry(EntryPayloadOf(e).value) == e
  {
  }

  /** The payload that a metric identifier addresses, read off the content it commits to. */
  function Addressed(id: EvidenceId): EntryPayload
    requires id.MetricDigest?
  {
    var c := id.metric;
    EntryPayload(id, c.key, c.preCount, c.postCount, c.eligible, c.absoluteFloor, c.relativeFloor, c.candidate)
  }

  /** Every entry of an accepted ledger serializes, to the payload its identifier addresses. */
  lemma LedgerEntrySerializes(l: MetricLedger, i: nat)
    requires Validated(l).Some? && i < |l.entries|
    ensures l.entries[i].id.MetricDigest? && EntryPayloadOf(l.entries[i]) == Some(Addressed(l.entries[i].id))
  {
    hide ScaleOf, ShiftIn;
    AcceptedIsFaithful(l);
    assert EvaluationAccepted(EvaluationsOf(l.entries)[i], l.policy);
  }

  // ----- baseline results -----

  datatype BaselinePayload = BaselinePayload(
    reason: Option<AbstentionReason>,
    candidates: seq<Candidate>,
    lead: Option<real>,
    policy: Policy,
    second: Option<real>,
    top: Option<real>)

  function BaselinePayloadOf(b: BaselineResult): Option<BaselinePayload> {
    if !b.policy.Valid() || exists i :: 0 <= i < |b.candidates| && !CandidateSerializes(b.candidates[i]) then None
    else
      match b
      case Ranking(policy, _, candidates, lead) =>
        if |candidates| == 0 || (lead.Finite? && lead.value < 0.0) then None
        else Some(BaselinePayload(None, candidates, if lead.Finite? then Some(lead.value) else None, policy,
                                  SecondScore(candidates), TopScore(candidates)))
      case Abstention(policy, reason, _, candidates, _, top, second) =>
        if !NonNegative(top) || !NonNegative(second) then None
        else Some(BaselinePayload(Some(reason), candidates, None, policy, second, top))
  }

  lemma RankedCandidatesSerialize(es: seq<Evaluation>, policy: Policy)
    requires AllAccepted(es, policy)
    ensures forall i :: 0 <= i < |RankedCandidates(es)| ==> CandidateSerializes(RankedCandidates(es)[i])
  {
    hide ScaleOf, ShiftIn, Sort, Candidates;
    var ranked := RankedCandidates(es);
    SortContents(BySuspicion, Candidates(es));
    forall i | 0 <= i < |ranked|
      ensures CandidateSerializes(ranked[i])
    {
      assert ranked[i] in multiset(Candidates(es));
      CandidateOrigin(es, ranked[i]);
      var k :| 0 <= k < |es| && es[k].candidate == Some(ranked[i]);
      assert EvaluationAccepted(es[k], policy);
    }
  }

  /**
   * What the serialized ranking or abstention carries: its candidates in order and its policy; the reason of an
   * abstention and none of a ranking; the two highest scores; and the lead of a ranking with a runner-up.
   */
  lemma BaselinePayloadSays(context: Context, window: Window, result: BaselineResult)
    requires Compilable(context, window, result)
    ensures BaselinePayloadOf(result).Some?
    ensures var p, cs := BaselinePayloadOf(result).value, result.candidates;
            && p.candidates == cs && p.policy == result.policy
            && p.reason == (if result.Abstention? then Some(result.reason) else None)
            && p.top == (if |cs| > 0 then Some(cs[0].suspicion) else None)
            && p.second == (if |cs| > 1 then Some(cs[1].suspicion) else None)
            && p.lead == (if result.Ranking? && |cs| > 1 then Some(cs[0].suspicion - cs[1].suspicion) else None)
  {
    hide AllAccepted, RankedCandidates, CandidateSerializes;
    CompilableSerializes(context, window, result);
  }

  ghost predicate CandidateWritable(c: Candidate) {
    && NonBlank(c.key) && 0 <= c.preCount && 0 <= c.postCount && 0.0 <= c.preMad && 0.0 <= c.suspicion
    && 0.0 < c.scale && 0.0 < c.absoluteFloor && 0.0 <= c.relativeFloor
  }

  /** Which results serialize, and that none is changed on the way: also those that no ranking produces. */
  lemma BaselineSerializesIff(b: BaselineResult)
    ensures BaselinePayloadOf(b).Some? <==>
      && b.policy.minimumPoints >= 1 && b.policy.minimumScore >= 0.0 && b.policy.minimumMargin >= 0.0
      && b.policy.relativeFloor >= 0.0
      && (forall i :: 0 <= i < |b.candidates| ==> CandidateWritable(b.candidates[i]))
      && (b.Ranking? ==> b.candidates != [] && (b.lead.Finite? ==> b.lead.value >= 0.0))
      && (b.Abstention? ==> (b.top.Some? ==> b.top.value >= 0.0) && (b.second.Some? ==> b.second.value >= 0.0))
    ensures BaselinePayloadOf(b).Some? ==>
      var p := BaselinePayloadOf(b).value;
      && p.candidates == b.candidates && p.policy == b.policy
      && (p.reason == if b.Ranking? then None else Some(b.reason))
      && (b.Abstention? ==> p.top == b.top && p.second == b.second && p.lead.None?)
      && (b.Ranking? && b.lead.Finite? ==> p.lead == Some(b.lead.value))
  {
  }

  /** Every result that compiles also serializes. */
  lemma CompilableSerializes(context: Context, window: Window, result: BaselineResult)
    requires Compilable(context, window, result)
    ensures BaselinePayloadOf(result).Some?
  {
    hide AllAccepted, RankedCandidates, CandidateSerializes;
    var candidates := RankedCandidates(result.evaluations);
    RankedCandidatesSerialize(result.evaluations, result.policy);
    RankedAreRanked(result.evaluations, result.policy);
    if |candidates| > 1 {
      RankedLeads(candidates);
    }
  }
}
