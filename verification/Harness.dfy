/** The evaluation arm after a proposal is obtained: from verified claims to ranked services. */
module Harness {
  import opened Prelude
  import opened Text
  import opened Sorting
  import opened Domain
  import Ledger
  import opened Hypotheses
  import opened Verifier
  import opened EndToEnd
  import Baseline
  import Conclusions

  /** The service of a column: everything before its last underscore. */
  function ServiceOf(key: string): string {
    var cut := LastUnderscore(key);
    if cut.Some? then key[..cut.value] else key
  }

  function LastUnderscore(s: string): (r: Option<nat>)
    ensures r.Some? ==> r.value < |s| && s[r.value] == '_' && forall i :: r.value < i < |s| ==> s[i] != '_'
    ensures r.None? ==> forall i :: 0 <= i < |s| ==> s[i] != '_'
  {
    if s == "" then None
    else if s[|s| - 1] == '_' then Some(|s| - 1)
    else LastUnderscore(s[..|s| - 1])
  }

  // ----- first occurrences -----

  /** The first occurrence of each value, in order. */
  function FirstOccurrences(items: seq<string>): seq<string> {
    if items == [] then []
    else
      var front, last := FirstOccurrences(items[..|items| - 1]), items[|items| - 1];
      if last in front then front else front + [last]
  }

  method Dedup(items: seq<string>) returns (ordered: seq<string>)
    ensures ordered == FirstOccurrences(items)
  {
    var seen: set<string> := {};
    ordered := [];
    for i := 0 to |items|
      invariant ordered == FirstOccurrences(items[..i])
      invariant forall x :: x in seen <==> x in ordered
    {
      assert items[..i + 1][..i] == items[..i];
      if items[i] !in seen {
        seen := seen + {items[i]};
        ordered := ordered + [items[i]];
      }
    }
    assert items[..|items|] == items;
  }

  /** Deduplication loses no value, invents none and repeats none. */
  lemma {:induction false} DedupKeepsValues(items: seq<string>)
    ensures Distinct(FirstOccurrences(items))
    ensures forall x :: x in FirstOccurrences(items) <==> x in items
  {
    if items != [] {
      var front, last := items[..|items| - 1], items[|items| - 1];
      DedupKeepsValues(front);
      assert items == front + [last];
      if last !in FirstOccurrences(front) {
        DistinctAppend(FirstOccurrences(front), last);
      }
    }
  }

  // ----- citations back to entries -----

  /** Later entries replace earlier ones under the same identifier. */
  function ById(entries: seq<MetricEntry>): map<EvidenceId, MetricEntry> {
    if entries == [] then map[]
    else ById(entries[..|entries| - 1])[entries[|entries| - 1].id := entries[|entries| - 1]]
  }

  lemma {:induction false} ByIdHolds(entries: seq<MetricEntry>)
    ensures forall i :: 0 <= i < |entries| ==> entries[i].id in ById(entries)
    ensures forall id :: id in ById(entries) ==> ById(entries)[id] in entries && ById(entries)[id].id == id
  {
    if entries != [] {
      var n := |entries| - 1;
      ByIdHolds(entries[..n]);
      assert entries == entries[..n] + [entries[n]];
      forall i | 0 <= i < |entries|
        ensures entries[i].id in ById(entries)
      {
        assert i < n ==> entries[..n][i] == entries[i];
      }
    }
  }

  function InvalidCount(ids: seq<EvidenceId>, known: map<EvidenceId, MetricEntry>): nat {
    if ids == [] then 0
    else InvalidCount(ids[..|ids| - 1], known) + if ids[|ids| - 1] !in known then 1 else 0
  }

  lemma {:induction false} NoneInvalid(ids: seq<EvidenceId>, known: map<EvidenceId, MetricEntry>)
    requires forall i :: 0 <= i < |ids| ==> ids[i] in known
    ensures InvalidCount(ids, known) == 0
  {
    if ids != [] {
      NoneInvalid(ids[..|ids| - 1], known);
    }
  }

  /** The distinct signal keys of the cited entries, in citation order. */
  function SupportedKeys(ids: seq<EvidenceId>, known: map<EvidenceId, MetricEntry>): seq<string> {
    if ids == [] then []
    else
      var front, last := SupportedKeys(ids[..|ids| - 1], known), ids[|ids| - 1];
      if last !in known || known[last].key in front then front else front + [known[last].key]
  }

  /** Most suspicious first, ties by key. */
  predicate ByScore(entries: map<string, real>, a: string, b: string) {
    var sa, sb := if a in entries then entries[a] else 0.0, if b in entries then entries[b] else 0.0;
    sa > sb || (sa == sb && AtMost(a, b))
  }

  function SuspicionOf(entries: seq<MetricEntry>): map<string, real> {
    map e | e in entries :: e.key := SuspicionIn(entries, e.key)
  }

  /** The suspicion of the last entry under a key, or zero without a candidate. */
  function SuspicionIn(entries: seq<MetricEntry>, key: string): real {
    if entries == [] then 0.0
    else
      var last := entries[|entries| - 1];
      if last.key == key then (if last.candidate.Some? then last.candidate.value.suspicion else 0.0)
      else SuspicionIn(entries[..|entries| - 1], key)
  }

  function ServicesOf(keys: seq<string>): (r: seq<string>)
    ensures |r| == |keys| && forall i :: 0 <= i < |r| ==> r[i] == ServiceOf(keys[i])
  {
    if keys == [] then [] else [ServiceOf(keys[0])] + ServicesOf(keys[1..])
  }

  datatype Prediction = Prediction(services: seq<string>, abstained: bool, invalidIds: nat)

  const NOTHING := Prediction([], true, 0)

  function Predicted(v: VerificationResult, l: MetricLedger): Prediction {
    var known, scores := ById(l.entries), SuspicionOf(l.entries);
    var keys := Sort((a, b) => ByScore(scores, a, b), SupportedKeys(v.supporting, known));
    var services := FirstOccurrences(ServicesOf(keys));
    Prediction(services, services == [], InvalidCount(v.supporting, known))
  }

  /** What reaches the caller as an exception. */
  datatype Escape = DecoderEscape | VerifierEscape(error: DomainError)

  /**
   * Parse, verify and translate the supported claims. A rejected proposal is an abstention;
   * an error of the decoder or of the verifier is not caught and reaches the caller.
   */
  function Predict(raw: Proposal, l: MetricLedger): Result<Prediction, Escape> {
    match ParseProposal(raw, set e | e in l.entries :: e.key)
    case Failure(rejection) => if rejection.DecoderRaised? then Failure(DecoderEscape) else Success(NOTHING)
    case Success(h) =>
      match Verify(h, l)
      case Failure(error) => Failure(VerifierEscape(error))
      case Success(v) => Success(Predicted(v, l))
  }

  method PredictServices(raw: Proposal, l: MetricLedger) returns (p: Result<Prediction, Escape>)
    ensures p == Predict(raw, l)
  {
    var parsed := ParseProposal(raw, set e | e in l.entries :: e.key);
    if parsed.Failure? {
      return if parsed.error.DecoderRaised? then Failure(DecoderEscape) else Success(NOTHING);
    }
    var verified := Verify(parsed.value, l);
    if verified.Failure? {
      return Failure(VerifierEscape(verified.error));
    }
    var prediction := Translate(verified.value, l);
    return Success(prediction);
  }

  method Translate(v: VerificationResult, l: MetricLedger) returns (p: Prediction)
    ensures p == Predicted(v, l)
  {
    var known, scores := ById(l.entries), SuspicionOf(l.entries);
    var keys, invalid := CollectKeys(v.supporting, known);
    var ranked := Sort((a, b) => ByScore(scores, a, b), keys);
    var services := Dedup(ServicesOf(ranked));
    return Prediction(services, services == [], invalid);
  }

  method CollectKeys(ids: seq<EvidenceId>, known: map<EvidenceId, MetricEntry>)
    returns (keys: seq<string>, invalid: nat)
    ensures keys == SupportedKeys(ids, known) && invalid == InvalidCount(ids, known)
  {
    var seen: set<string> := {};
    keys, invalid := [], 0;
    for i := 0 to |ids|
      invariant keys == SupportedKeys(ids[..i], known) && invalid == InvalidCount(ids[..i], known)
      invariant forall x :: x in seen <==> x in keys
    {
      assert ids[..i + 1][..i] == ids[..i];
      if ids[i] !in known {
        invalid := invalid + 1;
      } else if known[ids[i]].key !in seen {
        seen := seen + {known[ids[i]].key};
        keys := keys + [known[ids[i]].key];
      }
    }
    assert ids[..|ids|] == ids;
  }

  // ----- what a prediction may contain -----

  /** On a ledger that validates, an error escapes if and only if the decoder raised one on the model's output. */
  lemma PredictionEscapesIff(raw: Proposal, l: MetricLedger)
    requires Ledger.Validated(l).Some?
    ensures Predict(raw, l) == Failure(DecoderEscape) <==> raw.Undecodable?
    ensures Predict(raw, l).Success? <==> !raw.Undecodable?
  {
    hide ParseProposal, Ledger.Validated, Predicted, Hypothesis.Valid;
    OnlyDecoderRaises(raw, set e | e in l.entries :: e.key);
    ParsedProposalIsSafe(raw, set e | e in l.entries :: e.key);
  }

  /** Whatever the model answers, no cited identifier is unknown to the ledger. */
  lemma NoInvalidCitations(raw: Proposal, l: MetricLedger)
    requires Predict(raw, l).Success?
    ensures Predict(raw, l).value.invalidIds == 0
  {
    hide ParseProposal, Verify, ById, InvalidCount, Sort, SupportedKeys, ServicesOf, FirstOccurrences;
    var parsed := ParseProposal(raw, set e | e in l.entries :: e.key);
    if parsed.Success? && Verify(parsed.value, l).Success? {
      var v := Verify(parsed.value, l).value;
      ByIdHolds(l.entries);
      forall i | 0 <= i < |v.supporting|
        ensures v.supporting[i] in ById(l.entries)
      {
        CitationsAreEntries(parsed.value, l, v.supporting[i]);
        var k :| 0 <= k < |l.entries| && l.entries[k].id == v.supporting[i];
      }
      NoneInvalid(v.supporting, ById(l.entries));
    }
  }

  lemma {:induction false} SupportedKeysOrigin(ids: seq<EvidenceId>, known: map<EvidenceId, MetricEntry>, key: string)
    ensures key in SupportedKeys(ids, known) <==> exists id :: id in ids && id in known && known[id].key == key
  {
    if ids != [] {
      var front, last := ids[..|ids| - 1], ids[|ids| - 1];
      SupportedKeysOrigin(front, known, key);
      assert ids == front + [last];
    }
  }

  lemma ServicesMembers(keys: seq<string>, service: string)
    ensures service in ServicesOf(keys) <==> exists key :: key in keys && ServiceOf(key) == service
  {
    if service in ServicesOf(keys) {
      var i :| 0 <= i < |keys| && ServicesOf(keys)[i] == service;
      assert keys[i] in keys;
    }
    if key :| key in keys && ServiceOf(key) == service {
      var i :| 0 <= i < |keys| && keys[i] == key;
      assert ServicesOf(keys)[i] == service;
    }
  }

  /** Predicted services are exactly the services of signals whose evidence supports the document, once each. */
  lemma PredictionsAreSupported(v: VerificationResult, l: MetricLedger, service: string)
    ensures Distinct(Predicted(v, l).services)
    ensures service in Predicted(v, l).services
      <==> exists id :: id in v.supporting && id in ById(l.entries) && ServiceOf(ById(l.entries)[id].key) == service
  {
    hide ById, SupportedKeys, ServiceOf, Sort, FirstOccurrences, ServicesOf, InvalidCount, ByScore;
    var known, scores := ById(l.entries), SuspicionOf(l.entries);
    var order := (a, b) => ByScore(scores, a, b);
    var supported := SupportedKeys(v.supporting, known);
    var keys := Sort(order, supported);
    SortContents(order, supported);
    DedupKeepsValues(ServicesOf(keys));
    ServicesMembers(keys, service);
    forall key
      ensures key in keys <==> exists id :: id in v.supporting && id in known && known[id].key == key
    {
      assert key in keys <==> key in multiset(supported);
      SupportedKeysOrigin(v.supporting, known, key);
    }
    assert service in ServicesOf(keys)
      <==> exists id :: id in v.supporting && id in known && ServiceOf(known[id].key) == service;
  }

  // ----- the order of a prediction -----

  lemma ByScoreOrdering(scores: map<string, real>)
    ensures Ordering((a, b) => ByScore(scores, a, b))
  {
    hide Less;
    forall a, b
      ensures ByScore(scores, a, b) || ByScore(scores, b, a)
    {
      LessIsTotal(a, b);
    }
    forall a, b, c | ByScore(scores, a, b) && ByScore(scores, b, c)
      ensures ByScore(scores, a, c)
    {
      if AtMost(a, b) && AtMost(b, c) {
        AtMostIsTransitive(a, b, c);
      }
    }
  }

  /** Of two surviving values, the earlier one occurs before every occurrence of the later one. */
  lemma {:induction false} FirstOccurrencesKeepOrder(items: seq<string>, i: nat, j: nat) returns (p: nat)
    requires i < j < |FirstOccurrences(items)|
    ensures p < |items| && items[p] == FirstOccurrences(items)[i]
    ensures forall q :: 0 <= q < |items| && items[q] == FirstOccurrences(items)[j] ==> p < q
  {
    var n := |items| - 1;
    var front := FirstOccurrences(items[..n]);
    if j < |front| {
      p := FirstOccurrencesKeepOrder(items[..n], i, j);
    } else {
      DedupKeepsValues(items[..n]);
      assert front[i] in items[..n];
      p :| 0 <= p < n && items[..n][p] == front[i];
      assert forall q :: 0 <= q < n ==> items[q] in items[..n] by {
        assert forall q :: 0 <= q < n ==> items[..n][q] == items[q];
      }
    }
  }

  /** Service i precedes service j because one of its supported signals outranks every supported signal of j. */
  lemma {:induction false} PredictionsAreRanked(v: VerificationResult, l: MetricLedger, i: nat, j: nat)
    requires i < j < |Predicted(v, l).services|
    ensures var services, supported := Predicted(v, l).services, SupportedKeys(v.supporting, ById(l.entries));
            exists a :: a in supported && ServiceOf(a) == services[i]
              && forall b :: b in supported && ServiceOf(b) == services[j] ==> ByScore(SuspicionOf(l.entries), a, b)
  {
    hide ById, SupportedKeys, ServiceOf, Sort, FirstOccurrences, ServicesOf, InvalidCount, ByScore, SuspicionOf, Total,
         Transitive;
    var known, scores := ById(l.entries), SuspicionOf(l.entries);
    var order := (a, b) => ByScore(scores, a, b);
    var supported := SupportedKeys(v.supporting, known);
    var keys := Sort(order, supported);
    SortContents(order, supported);
    ByScoreOrdering(scores);
    SortSorts(order, supported);
    var p := FirstOccurrencesKeepOrder(ServicesOf(keys), i, j);
    assert keys[p] in multiset(supported);
    forall b | b in supported && ServiceOf(b) == Predicted(v, l).services[j]
      ensures ByScore(scores, keys[p], b)
    {
      assert b in multiset(keys);
      var q := IndexOf(keys, b);
      assert ServicesOf(keys)[q] == ServiceOf(b);
      assert order(keys[p], keys[q]);
    }
  }

  // ----- predictions on raw points -----

  lemma {:induction false} SupportingMembers(rs: seq<PredicateResult>, id: EvidenceId)
    ensures id in Supporting(rs) <==> exists i :: 0 <= i < |rs| && id in rs[i].supporting
  {
    if rs != [] {
      var rest := rs[1..];
      SupportingMembers(rest, id);
      assert forall i :: 0 <= i < |rest| ==> rest[i] == rs[i + 1];
      assert forall i :: 0 < i < |rs| ==> rs[i] == rest[i - 1];
    }
  }

  /** Identifiers of an accepted ledger lead back to their entries. */
  lemma KnownById(l: MetricLedger, k: nat)
    requires Ledger.Validated(l).Some? && k < |l.entries|
    ensures l.entries[k].id in ById(l.entries) && ById(l.entries)[l.entries[k].id] == l.entries[k]
  {
    hide ById, Ledger.Validated, Ledger.Ids;
    ByIdHolds(l.entries);
    Ledger.IdsAreDistinct(l);
    var found := ById(l.entries)[l.entries[k].id];
    var m :| 0 <= m < |l.entries| && l.entries[m] == found;
    assert Ledger.Ids(l.entries)[m] == Ledger.Ids(l.entries)[k];
  }

  /** A supported predicate cites the entry of its own signal, and any other cites nothing in support. */
  lemma SupportCitesOwnSignal(p: MetricPredicate, gate: Option<UnknownReason>, l: MetricLedger)
    requires Ledger.Validated(l).Some?
    ensures var r := ResultOf(p, gate, l.entries, l.policy.minimumScore);
            if r.verdict == Supported
            then exists k :: 0 <= k < |l.entries| && l.entries[k].key == p.key && r.supporting == [l.entries[k].id]
            else r.supporting == []
  {
    hide Ledger.Validated, Lookup;
    if gate.None? && Lookup(l.entries, p.key).Some? {
      LookupComesFromLedger(l, p.key);
    }
  }

  /** The supported signals of a trace are exactly the signals of its supported predicates. */
  lemma SupportedSignals(h: Hypothesis, l: MetricLedger, key: string)
    requires Ledger.Validated(l).Some?
    ensures var v, known := Trace(h, l), ById(l.entries);
            (exists id :: id in v.supporting && id in known && known[id].key == key)
            <==> exists i :: 0 <= i < |h.predicates| && v.results[i].verdict == Supported && h.predicates[i].key == key
  {
    hide Ledger.Validated, ById, ResultOf, Supporting, Contradicting, Compose;
    var v, known, gate := Trace(h, l), ById(l.entries), Gate(h, l);
    if id :| id in v.supporting && id in known && known[id].key == key {
      SupportingMembers(v.results, id);
      var i :| 0 <= i < |v.results| && id in v.results[i].supporting;
      SupportCitesOwnSignal(h.predicates[i], gate, l);
      var k :| 0 <= k < |l.entries| && l.entries[k].key == h.predicates[i].key
               && v.results[i].supporting == [l.entries[k].id];
      KnownById(l, k);
    }
    if i :| 0 <= i < |h.predicates| && v.results[i].verdict == Supported && h.predicates[i].key == key {
      SupportCitesOwnSignal(h.predicates[i], gate, l);
      var k :| 0 <= k < |l.entries| && l.entries[k].key == key && v.results[i].supporting == [l.entries[k].id];
      KnownById(l, k);
      SupportingMembers(v.results, l.entries[k].id);
      assert l.entries[k].id in v.results[i].supporting;
    }
  }

  lemma PredictedServices(h: Hypothesis, l: MetricLedger, service: string)
    requires Ledger.Validated(l).Some?
    ensures service in Predicted(Trace(h, l), l).services
      <==> exists i :: 0 <= i < |h.predicates| && Trace(h, l).results[i].verdict == Supported
                       && ServiceOf(h.predicates[i].key) == service
  {
    hide Ledger.Validated, ById, Trace, Predicted, ServiceOf, ResultsOf;
    var v, known := Trace(h, l), ById(l.entries);
    TraceLength(h, l);
    PredictionsAreSupported(v, l, service);
    if id :| id in v.supporting && id in known && ServiceOf(known[id].key) == service {
      SupportedSignals(h, l, known[id].key);
    }
    if i :| 0 <= i < |h.predicates| && v.results[i].verdict == Supported && ServiceOf(h.predicates[i].key) == service {
      SupportedSignals(h, l, h.predicates[i].key);
    }
  }

  lemma TraceLength(h: Hypothesis, l: MetricLedger)
    ensures |Trace(h, l).results| == |h.predicates|
  {
    hide Compose, Supporting, Contradicting;
  }

  /** Some predicate of the document about this service is supported by the raw points. */
  ghost predicate PointsSupport(context: Context, window: Window, inputs: seq<SignalInput>, policy: Policy,
                                h: Hypothesis, service: string)
    requires Baseline.ValidInputs(inputs) && policy.Valid()
  {
    exists i :: 0 <= i < |h.predicates|
      && PredicateFinding(context, window, inputs, policy, h, h.predicates[i]).verdict == Supported
      && ServiceOf(h.predicates[i].key) == service
  }

  /**
   * For every telemetry that ranks and whatever the model answers, unless its decoding raises, the predicted
   * services are exactly those of a predicate of an admissible proposal that the raw points support.
   */
  lemma PredictionsOnRawPoints(context: Context, window: Window, inputs: seq<SignalInput>, policy: Policy,
                               raw: Proposal, service: string)
    requires context.Valid() && window.Valid() && Baseline.ValidInputs(inputs) && policy.Valid()
    requires Baseline.Rank(window, inputs, policy).Success?
    ensures var l := Ledger.LedgerOf(context, window, Baseline.Rank(window, inputs, policy).value);
            var parsed := ParseProposal(raw, Conclusions.Observed(inputs));
            && (Predict(raw, l).Success? <==> !raw.Undecodable?)
            && (!raw.Undecodable? ==>
                  (service in Predict(raw, l).value.services
                   <==> parsed.Success? && PointsSupport(context, window, inputs, policy, parsed.value, service)))
  {
    hide Baseline.Rank, Ledger.LedgerOf, Ledger.Validated, Ledger.Compile, ParseProposal, Conclusions.Observed,
         ServiceOf,
         PredicateFinding, Predicted, Trace, Hypothesis.Valid, Baseline.EvaluateAll, Verify, Pipeline, NonBlank;
    var l := Ledger.LedgerOf(context, window, Baseline.Rank(window, inputs, policy).value);
    RankedEntriesAreEvaluations(context, window, inputs, policy);
    Conclusions.AllowedAreObserved(context, window, inputs, policy);
    PredictionEscapesIff(raw, l);
    OnlyDecoderRaises(raw, Conclusions.Observed(inputs));
    var parsed := ParseProposal(raw, Conclusions.Observed(inputs));
    if parsed.Success? {
      var h := parsed.value;
      ParsedProposalIsSafe(raw, Conclusions.Observed(inputs));
      VerifyAnswers(h, l);
      TraceDecidesRawPoints(window, inputs, policy, h, l);
      PredictedServices(h, l, service);
    }
  }

  // ----- services, scores and abstention -----

  lemma {:induction false} LastUnderscoreOf(front: string, metric: string)
    requires forall i :: 0 <= i < |metric| ==> metric[i] != '_'
    ensures LastUnderscore(front + "_" + metric) == Some(|front|)
  {
    var key := front + "_" + metric;
    assert key[|front|] == '_';
    assert forall i :: |front| < i < |key| ==> key[i] == metric[i - |front| - 1];
  }

  /** A column of a service and a metric, joined by an underscore, belongs to the service; a bare name to itself. */
  lemma ServiceOfColumn(service: string, metric: string)
    requires forall i :: 0 <= i < |metric| ==> metric[i] != '_'
    ensures ServiceOf(service + "_" + metric) == service && ServiceOf(metric) == metric
  {
    LastUnderscoreOf(service, metric);
    assert (service + "_" + metric)[..|service|] == service;
  }

  /** What the scores used for ranking are: the suspicion of the signal's candidate, or zero without one. */
  lemma {:induction false} SuspicionOfEntry(entries: seq<MetricEntry>, k: nat)
    requires k < |entries| && forall i, j :: 0 <= i < j < |entries| ==> entries[i].key != entries[j].key
    ensures SuspicionIn(entries, entries[k].key)
            == if entries[k].candidate.Some? then entries[k].candidate.value.suspicion else 0.0
  {
    var n := |entries| - 1;
    if k < n {
      assert entries[..n][k] == entries[k];
      SuspicionOfEntry(entries[..n], k);
    }
  }

  /** The first entry is at least as suspicious, and in a tie its key is not after the other's. */
  predicate Outranks(a: MetricEntry, b: MetricEntry) {
    var x, y := if a.candidate.Some? then a.candidate.value.suspicion else 0.0,
                if b.candidate.Some? then b.candidate.value.suspicion else 0.0;
    x > y || (x == y && AtMost(a.key, b.key))
  }

  lemma ByScoreOfEntries(l: MetricLedger, a: nat, b: nat)
    requires Ledger.Validated(l).Some? && a < |l.entries| && b < |l.entries|
    ensures ByScore(SuspicionOf(l.entries), l.entries[a].key, l.entries[b].key)
      <==> Outranks(l.entries[a], l.entries[b])
  {
    hide Ledger.Validated, SuspicionIn;
    LedgerKeysDiffer(l);
    SuspicionOfEntry(l.entries, a);
    SuspicionOfEntry(l.entries, b);
  }

  /** Entry `k` of the ledger is cited and belongs to the service. */
  ghost predicate CitedFor(ids: seq<EvidenceId>, entries: seq<MetricEntry>, k: int, service: string) {
    0 <= k < |entries| && entries[k].id in ids && ServiceOf(entries[k].key) == service
  }

  /**
   * The order of a prediction on the entries themselves: an earlier service has a supporting entry that outranks every
   * supporting entry of a later one.
   */
  lemma PredictionsRankEntries(v: VerificationResult, l: MetricLedger, i: nat, j: nat)
    requires Ledger.Validated(l).Some? && i < j < |Predicted(v, l).services|
    ensures var services := Predicted(v, l).services;
            exists a :: CitedFor(v.supporting, l.entries, a, services[i])
              && forall b :: CitedFor(v.supporting, l.entries, b, services[j]) ==> Outranks(l.entries[a], l.entries[b])
  {
    hide Ledger.Validated, Predicted, ById, SupportedKeys, ServiceOf, ByScore, SuspicionOf, Outranks;
    var services, known := Predicted(v, l).services, ById(l.entries);
    PredictionsAreRanked(v, l, i, j);
    var supported := SupportedKeys(v.supporting, known);
    var first :| first in supported && ServiceOf(first) == services[i]
      && forall b :: b in supported && ServiceOf(b) == services[j] ==> ByScore(SuspicionOf(l.entries), first, b);
    var a := SupportedEntry(v.supporting, l, first);
    assert CitedFor(v.supporting, l.entries, a, services[i]);
    forall b | CitedFor(v.supporting, l.entries, b, services[j])
      ensures Outranks(l.entries[a], l.entries[b])
    {
      KnownById(l, b);
      SupportedKeysOrigin(v.supporting, known, l.entries[b].key);
      ByScoreOfEntries(l, a, b);
    }
  }

  lemma SupportedEntry(ids: seq<EvidenceId>, l: MetricLedger, key: string) returns (k: nat)
    requires Ledger.Validated(l).Some? && key in SupportedKeys(ids, ById(l.entries))
    ensures k < |l.entries| && l.entries[k].key == key && l.entries[k].id in ids
  {
    hide Ledger.Validated, ById, SupportedKeys;
    SupportedKeysOrigin(ids, ById(l.entries), key);
    ByIdHolds(l.entries);
    var id :| id in ids && id in ById(l.entries) && ById(l.entries)[id].key == key;
    k :| 0 <= k < |l.entries| && l.entries[k] == ById(l.entries)[id];
  }

  /** A prediction abstains exactly when it names no service, and a rejected proposal names none and counts nothing. */
  lemma PredictionAbstains(raw: Proposal, l: MetricLedger)
    requires Predict(raw, l).Success?
    ensures var p := Predict(raw, l).value; p.abstained <==> p.services == []
    ensures ParseProposal(raw, set e | e in l.entries :: e.key).Failure? ==>
      Predict(raw, l).value == Prediction([], true, 0)
  {
    hide ParseProposal, Verify, FirstOccurrences, Sort, ById, SupportedKeys;
  }

  /** The cited positions whose identifier no entry has. */
  function Unknowns(ids: seq<EvidenceId>, known: map<EvidenceId, MetricEntry>): set<nat> {
    set i | 0 <= i < |ids| && ids[i] !in known
  }

  lemma {:induction false} InvalidCountSays(ids: seq<EvidenceId>, known: map<EvidenceId, MetricEntry>)
    ensures InvalidCount(ids, known) == |Unknowns(ids, known)|
  {
    if ids == [] {
      assert Unknowns(ids, known) == {};
    } else {
      var n := |ids| - 1;
      InvalidCountSays(ids[..n], known);
      assert Unknowns(ids, known) == Unknowns(ids[..n], known) + if ids[n] !in known then {n} else {};
    }
  }
}
