/** Three-valued verification of change co-occurrence hypotheses. */
module ChangeVerifier {
  import opened Prelude
  import opened Text
  import opened Sorting
  import opened Domain
  import opened Hypotheses
  import Verifier
  import opened Changes

  type Verdict = Verifier.Verdict

  datatype PhaseConstraint = WithinWindow | OnlyPreInjection | OnlyPostInjection

  datatype ChangePredicate = ChangePredicate(id: string, key: string, kind: ChangeKind, constraint: PhaseConstraint)

  datatype ChangeHypothesis = ChangeHypothesis(
    id: string,
    context: Context,
    semantics: Semantics,
    composition: Composition,
    predicates: seq<ChangePredicate>)
  {
    predicate Valid() {
      && NonBlank(id) && context.Valid()
      && 1 <= |predicates| <= MAX_PREDICATES
      && (forall i :: 0 <= i < |predicates| ==> NonBlank(predicates[i].id) && NonBlank(predicates[i].key))
      && (forall i, j :: 0 <= i < j < |predicates| ==> predicates[i].id != predicates[j].id)
    }
  }

  datatype ChangeReason = ContextMismatch | CausalClaim | ChangeNotObserved

  datatype ChangeResult = ChangeResult(
    id: string,
    verdict: Verdict,
    reason: Option<ChangeReason>,
    constraint: PhaseConstraint,
    supporting: seq<EvidenceId>,
    contradicting: seq<EvidenceId>)

  datatype ChangeVerification = ChangeVerification(
    id: string,
    composition: Composition,
    verdict: Verdict,
    reason: Option<ChangeReason>,
    results: seq<ChangeResult>,
    supporting: seq<EvidenceId>,
    contradicting: seq<EvidenceId>)

  predicate PhaseSatisfies(phase: ChangePhase, constraint: PhaseConstraint) {
    match constraint
    case WithinWindow => phase == PreInjection || phase == PostInjection
    case OnlyPreInjection => phase == PreInjection
    case OnlyPostInjection => phase == PostInjection
  }

  function Matching(p: ChangePredicate, entries: seq<ChangeEntry>): seq<ChangeEntry> {
    if entries == [] then []
    else (if entries[0].key == p.key && entries[0].kind == p.kind then [entries[0]] else [])
         + Matching(p, entries[1..])
  }

  function Satisfying(constraint: PhaseConstraint, entries: seq<ChangeEntry>): seq<ChangeEntry> {
    if entries == [] then []
    else (if PhaseSatisfies(entries[0].phase, constraint) then [entries[0]] else [])
         + Satisfying(constraint, entries[1..])
  }

  function UnknownResult(p: ChangePredicate, reason: ChangeReason): ChangeResult {
    ChangeResult(p.id, Verifier.Unknown, Some(reason), p.constraint, [], [])
  }

  function EvaluatePredicate(p: ChangePredicate, entries: seq<ChangeEntry>): ChangeResult {
    var matching := Matching(p, entries);
    if matching == [] then UnknownResult(p, ChangeNotObserved)
    else
      var supporting := Ids(Satisfying(p.constraint, matching));
      if supporting != [] then ChangeResult(p.id, Verifier.Supported, None, p.constraint, supporting, [])
      else ChangeResult(p.id, Verifier.Refuted, None, p.constraint, [], Ids(matching))
  }

  function Gate(h: ChangeHypothesis, l: ChangeLedger): Option<ChangeReason> {
    if h.context != l.context then Some(ContextMismatch)
    else if h.semantics.Causal? then Some(CausalClaim)
    else None
  }

  function ResultOf(p: ChangePredicate, gate: Option<ChangeReason>, entries: seq<ChangeEntry>): ChangeResult {
    if gate.Some? then UnknownResult(p, gate.value) else EvaluatePredicate(p, entries)
  }

  function ResultsOf(ps: seq<ChangePredicate>, gate: Option<ChangeReason>, entries: seq<ChangeEntry>)
    : (r: seq<ChangeResult>)
    ensures |r| == |ps| && forall i :: 0 <= i < |r| ==> r[i] == ResultOf(ps[i], gate, entries)
  {
    if ps == [] then [] else [ResultOf(ps[0], gate, entries)] + ResultsOf(ps[1..], gate, entries)
  }

  function Verdicts(results: seq<ChangeResult>): (r: seq<Verdict>)
    ensures |r| == |results| && forall i :: 0 <= i < |r| ==> r[i] == results[i].verdict
  {
    if results == [] then [] else [results[0].verdict] + Verdicts(results[1..])
  }

  function Supporting(results: seq<ChangeResult>): seq<EvidenceId> {
    if results == [] then [] else results[0].supporting + Supporting(results[1..])
  }

  function Contradicting(results: seq<ChangeResult>): seq<EvidenceId> {
    if results == [] then [] else results[0].contradicting + Contradicting(results[1..])
  }

  function Trace(h: ChangeHypothesis, l: ChangeLedger): ChangeVerification {
    var gate := Gate(h, l);
    var results := ResultsOf(h.predicates, gate, l.entries);
    ChangeVerification(h.id, h.composition,
                       if gate.Some? then Verifier.Unknown else Verifier.Compose(h.composition, Verdicts(results)),
                       gate, results, Supporting(results), Contradicting(results))
  }

  function Verify(h: ChangeHypothesis, l: ChangeLedger): Result<ChangeVerification, DomainError> {
    if !h.Valid() then Failure(InvalidChangeHypothesis)
    else
      match Validated(l)
      case None => Failure(InvalidChangeLedger)
      case Some(ledger) => Success(Trace(h, ledger))
  }

  // ----- verdicts on raw events -----

  predicate Mentions(p: ChangePredicate, e: ChangeEvent) {
    e.key == p.key && e.kind == p.kind
  }

  /** The claimed region of the window, as an interval of instants. */
  predicate Within(window: Window, at: Instant, constraint: PhaseConstraint) {
    match constraint
    case WithinWindow => window.start <= at < window.end
    case OnlyPreInjection => window.start <= at < window.injection
    case OnlyPostInjection => window.injection <= at < window.end
  }

  lemma {:induction false} MatchingMembers(p: ChangePredicate, entries: seq<ChangeEntry>, e: ChangeEntry)
    ensures e in Matching(p, entries) <==> e in entries && e.key == p.key && e.kind == p.kind
  {
    if entries != [] {
      MatchingMembers(p, entries[1..], e);
      assert entries == [entries[0]] + entries[1..];
    }
  }

  lemma {:induction false} SatisfyingMembers(constraint: PhaseConstraint, entries: seq<ChangeEntry>, e: ChangeEntry)
    ensures e in Satisfying(constraint, entries) <==> e in entries && PhaseSatisfies(e.phase, constraint)
  {
    if entries != [] {
      SatisfyingMembers(constraint, entries[1..], e);
      assert entries == [entries[0]] + entries[1..];
    }
  }

  lemma IdsMembers(entries: seq<ChangeEntry>, id: EvidenceId)
    ensures id in Ids(entries) <==> exists e :: e in entries && e.id == id
  {
    if id in Ids(entries) {
      var i :| 0 <= i < |entries| && Ids(entries)[i] == id;
      assert entries[i] in entries;
    }
    if e :| e in entries && e.id == id {
      var i :| 0 <= i < |entries| && entries[i] == e;
      assert Ids(entries)[i] == id;
    }
  }

  lemma PhaseIsInterval(window: Window, at: Instant, constraint: PhaseConstraint)
    requires window.Valid()
    ensures PhaseSatisfies(Phase(at, window), constraint) <==> Within(window, at, constraint)
  {
  }

  /** The entries of a compiled ledger are exactly the logged events. */
  lemma CompiledEntries(context: Context, window: Window, events: seq<ChangeEvent>, l: ChangeLedger, e: ChangeEntry)
    requires Compile(context, window, events) == Some(l)
    ensures e in l.entries <==> exists v :: v in events && e == EntryOf(context, window, v)
  {
    hide Compile, Sort;
    CompileAcceptsExactly(context, window, events);
    var ordered := Sort(ByTimeKindKey, events);
    SortContents(ByTimeKindKey, events);
    if e in l.entries {
      var i :| 0 <= i < |l.entries| && l.entries[i] == e;
      assert ordered[i] in multiset(events);
    }
    if v :| v in events && e == EntryOf(context, window, v) {
      assert v in multiset(ordered);
      var i := IndexOf(ordered, v);
      assert l.entries[i] == e;
    }
  }

  lemma MatchingEvents(context: Context, window: Window, events: seq<ChangeEvent>, l: ChangeLedger, p: ChangePredicate,
                       e: ChangeEntry)
    requires Compile(context, window, events) == Some(l)
    ensures e in Matching(p, l.entries)
      <==> exists v :: v in events && Mentions(p, v) && e == EntryOf(context, window, v)
  {
    hide Compile;
    MatchingMembers(p, l.entries, e);
    CompiledEntries(context, window, events, l, e);
  }

  lemma SatisfyingEvents(context: Context, window: Window, events: seq<ChangeEvent>, l: ChangeLedger,
                         p: ChangePredicate, e: ChangeEntry)
    requires Compile(context, window, events) == Some(l)
    ensures e in Satisfying(p.constraint, Matching(p, l.entries))
      <==> exists v :: v in events && Mentions(p, v) && Within(window, v.occurredAt, p.constraint)
                       && e == EntryOf(context, window, v)
  {
    hide Compile, PhaseSatisfies, Within;
    CompileAcceptsExactly(context, window, events);
    SatisfyingMembers(p.constraint, Matching(p, l.entries), e);
    MatchingEvents(context, window, events, l, p, e);
    PhaseIsInterval(window, e.occurredAt, p.constraint);
  }

  lemma EmptyMeansNone<T>(s: seq<T>)
    ensures s == [] <==> forall x :: x !in s
  {
    if s != [] {
      assert s[0] in s;
    }
  }

  /**
   * The verdict read off the log itself: supported when some logged event of that key and
   * kind lies in the claimed region, refuted when all of them lie elsewhere, unknown when
   * there is none.
   */
  lemma VerdictOnEvents(context: Context, window: Window, events: seq<ChangeEvent>, l: ChangeLedger, p: ChangePredicate)
    requires Compile(context, window, events) == Some(l)
    ensures var r := EvaluatePredicate(p, l.entries);
            && (r.verdict == Verifier.Supported
                <==> exists v :: v in events && Mentions(p, v) && Within(window, v.occurredAt, p.constraint))
            && (r.verdict == Verifier.Unknown <==> forall v :: v in events ==> !Mentions(p, v))
            && (r.verdict == Verifier.Refuted
                <==> (exists v :: v in events && Mentions(p, v))
                     && forall v :: v in events && Mentions(p, v) ==> !Within(window, v.occurredAt, p.constraint))
  {
    hide Compile, Within, EntryOf;
    var matching := Matching(p, l.entries);
    var satisfying := Satisfying(p.constraint, matching);
    forall e
      ensures e in matching <==> exists v :: v in events && Mentions(p, v) && e == EntryOf(context, window, v)
      ensures e in satisfying
        <==> exists v :: v in events && Mentions(p, v) && Within(window, v.occurredAt, p.constraint)
                         && e == EntryOf(context, window, v)
    {
      MatchingEvents(context, window, events, l, p, e);
      SatisfyingEvents(context, window, events, l, p, e);
    }
    EmptyMeansNone(matching);
    EmptyMeansNone(satisfying);
    if v :| v in events && Mentions(p, v) {
      assert EntryOf(context, window, v) in matching;
    }
    if v :| v in events && Mentions(p, v) && Within(window, v.occurredAt, p.constraint) {
      assert EntryOf(context, window, v) in satisfying;
    }
  }

  /** Some logged event of the claimed key and kind lies in the claimed region. */
  ghost predicate Witnessed(window: Window, events: seq<ChangeEvent>, p: ChangePredicate) {
    exists v :: v in events && Mentions(p, v) && Within(window, v.occurredAt, p.constraint)
  }

  /** The event addressed by `id` supports the claim. */
  ghost predicate Supports(context: Context, window: Window, events: seq<ChangeEvent>, p: ChangePredicate,
                           id: EvidenceId)
  {
    exists v :: v in events && Mentions(p, v) && Within(window, v.occurredAt, p.constraint)
                && id == EntryOf(context, window, v).id
  }

  /** The event addressed by `id` was logged, and no event of its key and kind supports the claim. */
  ghost predicate Contradicts(context: Context, window: Window, events: seq<ChangeEvent>, p: ChangePredicate,
                              id: EvidenceId)
  {
    !Witnessed(window, events, p) && exists v :: v in events && Mentions(p, v) && id == EntryOf(context, window, v).id
  }

  lemma SatisfyingIds(context: Context, window: Window, events: seq<ChangeEvent>, l: ChangeLedger, p: ChangePredicate,
                      id: EvidenceId)
    requires Compile(context, window, events) == Some(l)
    ensures id in Ids(Satisfying(p.constraint, Matching(p, l.entries))) <==> Supports(context, window, events, p, id)
  {
    hide Compile, Within, EntryOf;
    var satisfying := Satisfying(p.constraint, Matching(p, l.entries));
    IdsMembers(satisfying, id);
    if e :| e in satisfying && e.id == id {
      SatisfyingEvents(context, window, events, l, p, e);
    }
    if v :| v in events && Mentions(p, v) && Within(window, v.occurredAt, p.constraint)
            && id == EntryOf(context, window, v).id {
      SatisfyingEvents(context, window, events, l, p, EntryOf(context, window, v));
    }
  }

  lemma MatchingIds(context: Context, window: Window, events: seq<ChangeEvent>, l: ChangeLedger, p: ChangePredicate,
                    id: EvidenceId)
    requires Compile(context, window, events) == Some(l)
    ensures id in Ids(Matching(p, l.entries))
      <==> exists v :: v in events && Mentions(p, v) && id == EntryOf(context, window, v).id
  {
    hide Compile, EntryOf;
    var matching := Matching(p, l.entries);
    IdsMembers(matching, id);
    if e :| e in matching && e.id == id {
      MatchingEvents(context, window, events, l, p, e);
    }
    if v :| v in events && Mentions(p, v) && id == EntryOf(context, window, v).id {
      MatchingEvents(context, window, events, l, p, EntryOf(context, window, v));
    }
  }

  lemma CitationsFollowVerdict(p: ChangePredicate, entries: seq<ChangeEntry>)
    ensures var r, matching := EvaluatePredicate(p, entries), Matching(p, entries);
            && r.supporting == Ids(Satisfying(p.constraint, matching))
            && r.contradicting == if r.verdict == Verifier.Refuted then Ids(matching) else []
  {
    var matching := Matching(p, entries);
    assert matching == [] ==> Satisfying(p.constraint, matching) == [];
  }

  /**
   * Supporting citations name exactly the logged events that satisfy the claim, and contradicting
   * ones exactly the logged events of a claim that none satisfies.
   */
  lemma CitationsOnEvents(context: Context, window: Window, events: seq<ChangeEvent>, l: ChangeLedger,
                          p: ChangePredicate,
                          id: EvidenceId)
    requires Compile(context, window, events) == Some(l)
    ensures var r := EvaluatePredicate(p, l.entries);
            && (id in r.supporting <==> Supports(context, window, events, p, id))
            && (id in r.contradicting <==> Contradicts(context, window, events, p, id))
  {
    hide Compile, Within, EntryOf, EvaluatePredicate, Matching, Satisfying;
    CitationsFollowVerdict(p, l.entries);
    SatisfyingIds(context, window, events, l, p, id);
    MatchingIds(context, window, events, l, p, id);
    VerdictOnEvents(context, window, events, l, p);
  }

  // ----- composition of a gated document -----

  lemma GatedComposition(h: ChangeHypothesis, l: ChangeLedger)
    requires h.Valid()
    ensures Trace(h, l).verdict == Verifier.Compose(h.composition, Verdicts(Trace(h, l).results))
  {
    hide EvaluatePredicate;
    var gate, vs := Gate(h, l), Verdicts(Trace(h, l).results);
    if gate.Some? {
      assert forall i :: 0 <= i < |vs| ==> vs[i] == Verifier.Unknown;
      assert vs[0] in vs;
    }
  }

  // ----- whole documents on raw events -----

  function Pipeline(context: Context, window: Window, events: seq<ChangeEvent>, h: ChangeHypothesis)
    : Result<ChangeVerification, DomainError>
  {
    match Compile(context, window, events)
    case None => Failure(InvalidChangeLedger)
    case Some(l) => Verify(h, l)
  }

  datatype ChangeFinding = ChangeFinding(verdict: Verdict, reason: Option<ChangeReason>)

  /** A document about this context that claims co-occurrence and no cause. */
  predicate Answerable(context: Context, h: ChangeHypothesis) {
    h.context == context && h.semantics.Descriptive?
  }

  /** What the logged events say about one predicate of a document. */
  ghost function EventFinding(context: Context, window: Window, events: seq<ChangeEvent>, h: ChangeHypothesis,
                              p: ChangePredicate): ChangeFinding {
    if h.context != context then ChangeFinding(Verifier.Unknown, Some(ContextMismatch))
    else if h.semantics.Causal? then ChangeFinding(Verifier.Unknown, Some(CausalClaim))
    else if Witnessed(window, events, p) then ChangeFinding(Verifier.Supported, None)
    else if exists v :: v in events && Mentions(p, v) then ChangeFinding(Verifier.Refuted, None)
    else ChangeFinding(Verifier.Unknown, Some(ChangeNotObserved))
  }

  lemma ReasonFollowsVerdict(p: ChangePredicate, entries: seq<ChangeEntry>)
    ensures var r := EvaluatePredicate(p, entries);
            r.reason == if r.verdict == Verifier.Unknown then Some(ChangeNotObserved) else None
  {
  }

  lemma {:induction false} CitedByChild(rs: seq<ChangeResult>, id: EvidenceId)
    ensures id in Supporting(rs) <==> exists i :: 0 <= i < |rs| && id in rs[i].supporting
    ensures id in Contradicting(rs) <==> exists i :: 0 <= i < |rs| && id in rs[i].contradicting
  {
    if rs != [] {
      var rest := rs[1..];
      CitedByChild(rest, id);
      assert forall i :: 0 <= i < |rest| ==> rest[i] == rs[i + 1];
      assert forall i :: 0 < i < |rs| ==> rs[i] == rest[i - 1];
    }
  }

  lemma PipelineAnswers(context: Context, window: Window, events: seq<ChangeEvent>, h: ChangeHypothesis)
    ensures Pipeline(context, window, events, h).Success?
      <==> context.Valid() && window.Valid() && LogAccepted(events) && h.Valid()
    ensures Pipeline(context, window, events, h).Success? ==>
      && Compile(context, window, events).Some? && Compile(context, window, events).value.context == context
      && Pipeline(context, window, events, h).value == Trace(h, Compile(context, window, events).value)
  {
    hide Compile, Validated, Trace, LogAccepted, ChangeHypothesis.Valid, NonBlank, Sort, EntriesOf;
    CompileAcceptsExactly(context, window, events);
    if context.Valid() && window.Valid() && LogAccepted(events) {
      BuiltIsFaithful(context, window, events);
      FaithfulIsAccepted(Compile(context, window, events).value);
    }
  }

  /** The trace of one predicate says what the events say, and cites the deciding ones. */
  lemma ResultOnEvents(context: Context, window: Window, events: seq<ChangeEvent>, l: ChangeLedger, h: ChangeHypothesis,
                       p: ChangePredicate)
    requires Compile(context, window, events) == Some(l) && l.context == context
    ensures var r := ResultOf(p, Gate(h, l), l.entries);
            && ChangeFinding(r.verdict, r.reason) == EventFinding(context, window, events, h, p)
            && (forall id :: id in r.supporting
                  <==> Answerable(context, h) && Supports(context, window, events, p, id))
            && (forall id :: id in r.contradicting
                  <==> Answerable(context, h) && Contradicts(context, window, events, p, id))
  {
    hide Compile, EvaluatePredicate, Within, Supports, Contradicts;
    VerdictOnEvents(context, window, events, l, p);
    ReasonFollowsVerdict(p, l.entries);
    forall id
      ensures id in EvaluatePredicate(p, l.entries).supporting <==> Supports(context, window, events, p, id)
      ensures id in EvaluatePredicate(p, l.entries).contradicting <==> Contradicts(context, window, events, p, id)
    {
      CitationsOnEvents(context, window, events, l, p, id);
    }
  }

  /**
   * Change documents end to end: compile, validate and verify answer exactly for a well-formed
   * header, log and document; every predicate's verdict and reason are what the logged events say;
   * the document composes them; and it cites exactly the deciding events of its predicates.
   */
  lemma PipelineDecidesEvents(context: Context, window: Window, events: seq<ChangeEvent>, h: ChangeHypothesis)
    ensures Pipeline(context, window, events, h).Success?
      <==> context.Valid() && window.Valid() && LogAccepted(events) && h.Valid()
    ensures Pipeline(context, window, events, h).Success? ==>
      var v := Pipeline(context, window, events, h).value;
      && |v.results| == |h.predicates|
      && (forall i :: 0 <= i < |h.predicates| ==>
            ChangeFinding(v.results[i].verdict, v.results[i].reason)
            == EventFinding(context, window, events, h, h.predicates[i]))
      && v.verdict == Verifier.Compose(h.composition, Verdicts(v.results))
      && (forall i, id :: 0 <= i < |h.predicates| ==>
            (id in v.results[i].supporting
             <==> Answerable(context, h) && Supports(context, window, events, h.predicates[i], id)))
      && (forall i, id :: 0 <= i < |h.predicates| ==>
            (id in v.results[i].contradicting
             <==> Answerable(context, h) && Contradicts(context, window, events, h.predicates[i], id)))
      && (forall id :: id in v.supporting <==>
            Answerable(context, h)
            && exists i :: 0 <= i < |h.predicates| && Supports(context, window, events, h.predicates[i], id))
      && (forall id :: id in v.contradicting <==>
            Answerable(context, h)
            && exists i :: 0 <= i < |h.predicates| && Contradicts(context, window, events, h.predicates[i], id))
  {
    hide Compile, Verifier.Compose, ResultOf, EventFinding, Supports, Contradicts, Answerable, Pipeline, LogAccepted,
         ChangeHypothesis.Valid, Supporting, Contradicting, NonBlank;
    PipelineAnswers(context, window, events, h);
    if Pipeline(context, window, events, h).Success? {
      var l, v := Compile(context, window, events).value, Pipeline(context, window, events, h).value;
      GatedComposition(h, l);
      forall i | 0 <= i < |h.predicates|
        ensures ChangeFinding(v.results[i].verdict, v.results[i].reason)
                == EventFinding(context, window, events, h, h.predicates[i])
        ensures forall id :: id in v.results[i].supporting
                  <==> Answerable(context, h) && Supports(context, window, events, h.predicates[i], id)
        ensures forall id :: id in v.results[i].contradicting
                  <==> Answerable(context, h) && Contradicts(context, window, events, h.predicates[i], id)
      {
        ResultOnEvents(context, window, events, l, h, h.predicates[i]);
      }
      forall id
        ensures id in v.supporting <==> exists i :: 0 <= i < |v.results| && id in v.results[i].supporting
        ensures id in v.contradicting <==> exists i :: 0 <= i < |v.results| && id in v.results[i].contradicting
      {
        CitedByChild(v.results, id);
      }
    }
  }

  // ----- which documents are answered -----

  function PredicateIds(ps: seq<ChangePredicate>): seq<string> {
    seq(|ps|, i requires 0 <= i < |ps| => ps[i].id)
  }

  /** A document is well formed exactly with texts, a size and identifiers like these; keys may repeat. */
  lemma DocumentAcceptedIff(h: ChangeHypothesis, l: ChangeLedger)
    ensures var ids := PredicateIds(h.predicates);
            Verify(h, l) != Failure(InvalidChangeHypothesis) <==>
              && NonBlank(h.id) && NonBlank(h.context.tenant) && NonBlank(h.context.incident) && NonBlank(h.context.run)
              && (forall i :: 0 <= i < |h.predicates| ==> NonBlank(h.predicates[i].id) && NonBlank(h.predicates[i].key))
              && 1 <= |h.predicates| <= 32 && |set id | id in ids| == |h.predicates|
  {
    hide NonBlank, Validated, Trace;
    var ids := PredicateIds(h.predicates);
    DistinctIffCounted(ids);
    assert forall i :: 0 <= i < |h.predicates| ==> ids[i] == h.predicates[i].id;
    assert (forall i, j :: 0 <= i < j < |h.predicates| ==> h.predicates[i].id != h.predicates[j].id) <==> Distinct(ids);
  }

  // ----- what a trace carries besides verdicts -----

  /** Matching and satisfying are filters: entry by entry, in ledger order. */
  lemma {:induction false} MatchingKeepsOrder(p: ChangePredicate, a: seq<ChangeEntry>, e: ChangeEntry)
    ensures Matching(p, a + [e]) == Matching(p, a) + if e.key == p.key && e.kind == p.kind then [e] else []
  {
    if a == [] {
      assert a + [e] == [e] && [e][1..] == [];
    } else {
      assert (a + [e])[0] == a[0] && (a + [e])[1..] == a[1..] + [e];
      MatchingKeepsOrder(p, a[1..], e);
    }
  }

  lemma {:induction false} SatisfyingKeepsOrder(constraint: PhaseConstraint, a: seq<ChangeEntry>, e: ChangeEntry)
    ensures Satisfying(constraint, a + [e])
            == Satisfying(constraint, a) + if PhaseSatisfies(e.phase, constraint) then [e] else []
  {
    hide PhaseSatisfies;
    if a == [] {
      assert a + [e] == [e] && [e][1..] == [];
    } else {
      var head := if PhaseSatisfies(a[0].phase, constraint) then [a[0]] else [];
      var last := if PhaseSatisfies(e.phase, constraint) then [e] else [];
      var rest := Satisfying(constraint, a[1..]);
      assert (a + [e])[0] == a[0] && (a + [e])[1..] == a[1..] + [e];
      SatisfyingKeepsOrder(constraint, a[1..], e);
      assert head + (rest + last) == (head + rest) + last;
    }
  }

  /** A trace names its document and predicates, in order, and lists the citations of its children one after another. */
  lemma TraceSays(h: ChangeHypothesis, l: ChangeLedger)
    ensures var v := Trace(h, l);
            && v.id == h.id && v.composition == h.composition
            && v.reason == (if h.context != l.context then Some(ContextMismatch)
                            else if h.semantics.Causal? then Some(CausalClaim) else None)
            && |v.results| == |h.predicates|
            && forall i :: 0 <= i < |h.predicates| ==>
                 v.results[i].id == h.predicates[i].id && v.results[i].constraint == h.predicates[i].constraint
  {
    hide Matching, Satisfying, Verifier.Compose, Supporting, Contradicting;
  }

  lemma {:induction false} CitationsConcatenate(a: seq<ChangeResult>, r: ChangeResult)
    ensures Supporting(a + [r]) == Supporting(a) + r.supporting
    ensures Contradicting(a + [r]) == Contradicting(a) + r.contradicting
  {
    if a == [] {
      assert a + [r] == [r] && [r][1..] == [];
    } else {
      assert (a + [r])[0] == a[0] && (a + [r])[1..] == a[1..] + [r];
      CitationsConcatenate(a[1..], r);
    }
  }
}
