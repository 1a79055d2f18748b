/** Three-valued verification of metric hypotheses against a ledger. */
module Verifier {
  import opened Prelude
  import opened Domain
  import opened Baseline
  import opened Ledger
  import opened Hypotheses

  datatype Verdict = Supported | Refuted | Unknown

  datatype UnknownReason =
    | ContextMismatch
    | CausalClaim
    | SignalNotFound
    | InsufficientEvidence
    | NoDirectionalShift
    | WeakEvidence

  datatype PredicateResult = PredicateResult(
    id: string,
    verdict: Verdict,
    reason: Option<UnknownReason>,
    observed: Option<Direction>,
    minimumScore: real,
    supporting: seq<EvidenceId>,
    contradicting: seq<EvidenceId>)

  datatype VerificationResult = VerificationResult(
    id: string,
    composition: Composition,
    verdict: Verdict,
    reason: Option<UnknownReason>,
    results: seq<PredicateResult>,
    supporting: seq<EvidenceId>,
    contradicting: seq<EvidenceId>)

  function UnknownResult(p: MetricPredicate, reason: UnknownReason, minimumScore: real, observed: Option<Direction>)
    : PredicateResult
  {
    PredicateResult(p.id, Unknown, Some(reason), observed, minimumScore, [], [])
  }

  function EvaluatePredicate(p: MetricPredicate, entry: Option<MetricEntry>, minimumScore: real): PredicateResult {
    if entry.None? then UnknownResult(p, SignalNotFound, minimumScore, None)
    else if !entry.value.eligible || entry.value.candidate.None? then
      UnknownResult(p, InsufficientEvidence, minimumScore, None)
    else
      var c := entry.value.candidate.value;
      if c.signedScore == 0.0 then UnknownResult(p, NoDirectionalShift, minimumScore, None)
      else
        var observed := if c.signedScore > 0.0 then Increase else Decrease;
        if c.suspicion < minimumScore then UnknownResult(p, WeakEvidence, minimumScore, Some(observed))
        else if observed == p.expected then
          PredicateResult(p.id, Supported, None, Some(observed), minimumScore, [entry.value.id], [])
        else
          PredicateResult(p.id, Refuted, None, Some(observed), minimumScore, [], [entry.value.id])
  }

  function Verdicts(results: seq<PredicateResult>): (r: seq<Verdict>)
    ensures |r| == |results| && forall i :: 0 <= i < |r| ==> r[i] == results[i].verdict
  {
    if results == [] then [] else [results[0].verdict] + Verdicts(results[1..])
  }

  function Compose(composition: Composition, verdicts: seq<Verdict>): Verdict {
    if composition.All? then
      if Refuted in verdicts then Refuted else if Unknown in verdicts then Unknown else Supported
    else
      if Supported in verdicts then Supported else if Unknown in verdicts then Unknown else Refuted
  }

  /** Later entries replace earlier ones under the same key. */
  function BySignal(entries: seq<MetricEntry>): map<string, MetricEntry> {
    if entries == [] then map[]
    else BySignal(entries[..|entries| - 1])[entries[|entries| - 1].key := entries[|entries| - 1]]
  }

  function Lookup(entries: seq<MetricEntry>, key: string): Option<MetricEntry> {
    if key in BySignal(entries) then Some(BySignal(entries)[key]) else None
  }

  /** Why the whole document is beyond this ledger, if it is. */
  function Gate(h: Hypothesis, l: MetricLedger): Option<UnknownReason> {
    if h.context != l.context then Some(ContextMismatch)
    else if h.semantics.Causal? then Some(CausalClaim)
    else None
  }

  function ResultOf(p: MetricPredicate, gate: Option<UnknownReason>, entries: seq<MetricEntry>, minimumScore: real)
    : PredicateResult
  {
    if gate.Some? then UnknownResult(p, gate.value, minimumScore, None)
    else EvaluatePredicate(p, Lookup(entries, p.key), minimumScore)
  }

  function ResultsOf(ps: seq<MetricPredicate>, gate: Option<UnknownReason>, entries: seq<MetricEntry>,
                     minimumScore: real)
    : (r: seq<PredicateResult>)
    ensures |r| == |ps| && forall i :: 0 <= i < |r| ==> r[i] == ResultOf(ps[i], gate, entries, minimumScore)
  {
    if ps == [] then []
    else [ResultOf(ps[0], gate, entries, minimumScore)] + ResultsOf(ps[1..], gate, entries, minimumScore)
  }

  function Supporting(results: seq<PredicateResult>): seq<EvidenceId> {
    if results == [] then [] else results[0].supporting + Supporting(results[1..])
  }

  function Contradicting(results: seq<PredicateResult>): seq<EvidenceId> {
    if results == [] then [] else results[0].contradicting + Contradicting(results[1..])
  }

  /** The trace of a validated document against a validated ledger. */
  function Trace(h: Hypothesis, l: MetricLedger): VerificationResult {
    var gate := Gate(h, l);
    var results := ResultsOf(h.predicates, gate, l.entries, l.policy.minimumScore);
    VerificationResult(h.id, h.composition,
                       if gate.Some? then Unknown else Compose(h.composition, Verdicts(results)),
                       gate, results, Supporting(results), Contradicting(results))
  }

  function Verify(h: Hypothesis, l: MetricLedger): Result<VerificationResult, DomainError> {
    var document :- ValidateDocument(h);
    match Validated(l)
    case None => Failure(InvalidEvidenceLedger)
    case Some(ledger) => Success(Trace(document, ledger))
  }

  // ----- lookups -----

  lemma {:induction false} BySignalFinds(entries: seq<MetricEntry>)
    requires forall i, j :: 0 <= i < j < |entries| ==> entries[i].key != entries[j].key
    ensures forall i :: 0 <= i < |entries| ==>
      entries[i].key in BySignal(entries) && BySignal(entries)[entries[i].key] == entries[i]
    ensures forall k :: k in BySignal(entries) ==> exists i :: 0 <= i < |entries| && entries[i].key == k
  {
    if entries != [] {
      var front, last := entries[..|entries| - 1], entries[|entries| - 1];
      BySignalFinds(front);
      forall k | k in BySignal(entries)
        ensures exists i :: 0 <= i < |entries| && entries[i].key == k
      {
        if k != last.key {
          assert k in BySignal(front);
          var i :| 0 <= i < |front| && front[i].key == k;
          assert entries[i].key == k;
        }
      }
      forall i | 0 <= i < |entries|
        ensures entries[i].key in BySignal(entries) && BySignal(entries)[entries[i].key] == entries[i]
      {
        if i < |front| {
          assert front[i] == entries[i];
        }
      }
    }
  }

  lemma LookupInLedger(l: MetricLedger, i: nat)
    requires Validated(l).Some? && i < |l.entries|
    ensures Lookup(l.entries, l.entries[i].key) == Some(l.entries[i])
  {
    LedgerKeysDiffer(l);
    BySignalFinds(l.entries);
  }

  lemma LedgerKeysDiffer(l: MetricLedger)
    requires Validated(l).Some?
    ensures forall i, j :: 0 <= i < j < |l.entries| ==> l.entries[i].key != l.entries[j].key
  {
    AcceptedIsFaithful(l);
    var es := EvaluationsOf(l.entries);
    forall i, j | 0 <= i < j < |l.entries|
      ensures l.entries[i].key != l.entries[j].key
    {
      assert Keys(es)[i] != Keys(es)[j];
    }
  }

  lemma LookupComesFromLedger(l: MetricLedger, key: string)
    requires Validated(l).Some? && Lookup(l.entries, key).Some?
    ensures exists i :: 0 <= i < |l.entries| && l.entries[i].key == key && Lookup(l.entries, key) == Some(l.entries[i])
  {
    LedgerKeysDiffer(l);
    BySignalFinds(l.entries);
    var i :| 0 <= i < |l.entries| && l.entries[i].key == key;
  }

  // ----- composition is min and max of the three-valued order -----

  function Level(v: Verdict): int {
    match v
    case Refuted => 0
    case Unknown => 1
    case Supported => 2
  }

  /** ALL takes the least child verdict and ANY the greatest, in refuted < unknown < supported. */
  lemma CompositionIsExtremal(verdicts: seq<Verdict>)
    requires |verdicts| > 0
    ensures Compose(All, verdicts) in verdicts && Compose(Any, verdicts) in verdicts
    ensures forall v :: v in verdicts ==> Level(Compose(All, verdicts)) <= Level(v) <= Level(Compose(Any, verdicts))
  {
    assert verdicts[0] in verdicts;
    match verdicts[0]
    case Supported =>
    case Refuted =>
    case Unknown =>
  }

  lemma CompositionIsOrderFree(composition: Composition, a: seq<Verdict>, b: seq<Verdict>)
    requires multiset(a) == multiset(b)
    ensures Compose(composition, a) == Compose(composition, b)
  {
    assert forall v :: v in a <==> v in multiset(a);
    assert forall v :: v in b <==> v in multiset(b);
  }

  // ----- duality -----

  function Opposite(d: Direction): Direction {
    if d.Increase? then Decrease else Increase
  }

  function Swapped(v: Verdict): Verdict {
    match v
    case Supported => Refuted
    case Refuted => Supported
    case Unknown => Unknown
  }

  function DualPredicates(ps: seq<MetricPredicate>): (r: seq<MetricPredicate>)
    ensures |r| == |ps|
    ensures forall i :: 0 <= i < |r| ==> r[i] == ps[i].(expected := Opposite(ps[i].expected))
  {
    if ps == [] then [] else [ps[0].(expected := Opposite(ps[0].expected))] + DualPredicates(ps[1..])
  }

  /** Every direction flipped, ALL and ANY exchanged. */
  function DualHypothesis(h: Hypothesis): Hypothesis {
    h.(composition := if h.composition.All? then Any else All, predicates := DualPredicates(h.predicates))
  }

  function DualResult(r: PredicateResult): PredicateResult {
    r.(verdict := Swapped(r.verdict), supporting := r.contradicting, contradicting := r.supporting)
  }

  function DualResults(rs: seq<PredicateResult>): (r: seq<PredicateResult>)
    ensures |r| == |rs| && forall i :: 0 <= i < |r| ==> r[i] == DualResult(rs[i])
  {
    if rs == [] then [] else [DualResult(rs[0])] + DualResults(rs[1..])
  }

  function DualVerification(v: VerificationResult): VerificationResult {
    VerificationResult(v.id, if v.composition.All? then Any else All, Swapped(v.verdict), v.reason,
                       DualResults(v.results), v.contradicting, v.supporting)
  }

  lemma {:induction false} DualCitations(rs: seq<PredicateResult>)
    ensures Supporting(DualResults(rs)) == Contradicting(rs) && Contradicting(DualResults(rs)) == Supporting(rs)
  {
    if rs != [] {
      assert DualResults(rs)[1..] == DualResults(rs[1..]);
      DualCitations(rs[1..]);
    }
  }

  lemma DualComposition(composition: Composition, rs: seq<PredicateResult>)
    requires |rs| > 0
    ensures Compose(if composition.All? then Any else All, Verdicts(DualResults(rs)))
            == Swapped(Compose(composition, Verdicts(rs)))
  {
    var vs, ds := Verdicts(rs), Verdicts(DualResults(rs));
    assert forall i :: 0 <= i < |vs| ==> ds[i] == Swapped(vs[i]);
    SwappedMembership(vs, ds, Supported);
    SwappedMembership(vs, ds, Refuted);
    SwappedMembership(vs, ds, Unknown);
  }

  lemma SwappedMembership(vs: seq<Verdict>, ds: seq<Verdict>, v: Verdict)
    requires |vs| == |ds| && forall i :: 0 <= i < |vs| ==> ds[i] == Swapped(vs[i])
    ensures v in vs <==> Swapped(v) in ds
  {
    if v in vs {
      var i :| 0 <= i < |vs| && vs[i] == v;
      assert ds[i] in ds;
    }
    if Swapped(v) in ds {
      var i :| 0 <= i < |ds| && ds[i] == Swapped(v);
      assert vs[i] in vs;
    }
  }

  lemma DualPredicate(p: MetricPredicate, gate: Option<UnknownReason>, entries: seq<MetricEntry>, minimumScore: real)
    ensures ResultOf(p.(expected := Opposite(p.expected)), gate, entries, minimumScore)
            == DualResult(ResultOf(p, gate, entries, minimumScore))
  {
    hide Lookup;
  }

  /**
   * Flipping every direction and exchanging ALL with ANY gives the mirrored trace:
   * verdicts swapped child by child and overall, UNKNOWN and its reasons kept,
   * supporting and contradicting lists exchanged exactly.
   */
  lemma VerifierDuality(h: Hypothesis, l: MetricLedger)
    requires h.Valid()
    ensures DualHypothesis(h).Valid()
    ensures Verify(h, l).Success? <==> Verify(DualHypothesis(h), l).Success?
    ensures Verify(h, l).Success? ==> Verify(DualHypothesis(h), l).value == DualVerification(Verify(h, l).value)
  {
    hide Validated, Trace;
    TraceDuality(h, l);
    ValidationNeverRepairs(l);
    DualStaysValid(h);
  }

  lemma DualStaysValid(h: Hypothesis)
    requires h.Valid()
    ensures DualHypothesis(h).Valid()
  {
  }

  lemma TraceDuality(h: Hypothesis, l: MetricLedger)
    requires |h.predicates| > 0
    ensures Trace(DualHypothesis(h), l) == DualVerification(Trace(h, l))
  {
    hide ResultOf, Compose, Supporting, Contradicting, Verdicts, Context.Valid;
    var d, gate := DualHypothesis(h), Gate(h, l);
    var rs := ResultsOf(h.predicates, gate, l.entries, l.policy.minimumScore);
    var ds := ResultsOf(d.predicates, gate, l.entries, l.policy.minimumScore);
    forall i | 0 <= i < |ds|
      ensures ds[i] == DualResult(rs[i])
    {
      DualPredicate(h.predicates[i], gate, l.entries, l.policy.minimumScore);
    }
    assert ds == DualResults(rs);
    DualCitations(rs);
    DualComposition(h.composition, rs);
  }

  // ----- citations -----

  /** Every cited identifier belongs to an entry of the ledger that was verified against. */
  lemma {:induction false} CitationsAreEntries(h: Hypothesis, l: MetricLedger, id: EvidenceId)
    requires Verify(h, l).Success?
    requires id in Verify(h, l).value.supporting || id in Verify(h, l).value.contradicting
    ensures exists i :: 0 <= i < |l.entries| && l.entries[i].id == id
  {
    hide ResultsOf, Lookup, EvaluatePredicate;
    ValidationNeverRepairs(l);
    var results := Verify(h, l).value.results;
    CitationOrigin(results, id);
    var i :| 0 <= i < |results| && (id in results[i].supporting || id in results[i].contradicting);
    CitedByEvaluation(h.predicates[i], Lookup(l.entries, h.predicates[i].key), l.policy.minimumScore, id);
    LookupComesFromLedger(l, h.predicates[i].key);
  }

  lemma CitedByEvaluation(p: MetricPredicate, entry: Option<MetricEntry>, minimumScore: real, id: EvidenceId)
    requires var r := EvaluatePredicate(p, entry, minimumScore); id in r.supporting || id in r.contradicting
    ensures entry.Some? && entry.value.id == id
  {
  }

  lemma {:induction false} CitationOrigin(results: seq<PredicateResult>, id: EvidenceId)
    requires id in Supporting(results) || id in Contradicting(results)
    ensures exists i :: 0 <= i < |results| && (id in results[i].supporting || id in results[i].contradicting)
  {
    if id !in results[0].supporting && id !in results[0].contradicting {
      var rest := results[1..];
      CitationOrigin(rest, id);
      var i :| 0 <= i < |rest| && (id in rest[i].supporting || id in rest[i].contradicting);
      assert results[i + 1] == rest[i];
    }
  }
}
