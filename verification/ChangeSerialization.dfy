/** Canonical payloads of change ledgers and change verifications. */
module ChangeSerialization {
  import opened Prelude
  import opened Text
  import opened Sorting
  import opened Domain
  import opened Hypotheses
  import Verifier
  import opened Timestamps
  import opened Changes
  import opened ChangeVerifier
  import opened Serialization

  // ----- ledgers: ordering by text -----

  datatype EntryText = EntryText(occurredAt: string, kind: string, key: string)

  datatype ChangeEntryPayload = ChangeEntryPayload(id: EvidenceId, text: EntryText, phase: ChangePhase)

  predicate ByText(a: EntryText, b: EntryText) {
    Less(a.occurredAt, b.occurredAt)
    || (a.occurredAt == b.occurredAt && (Less(a.kind, b.kind) || (a.kind == b.kind && AtMost(a.key, b.key))))
  }

  ghost predicate AllRepresentable(entries: seq<ChangeEntry>) {
    forall i :: 0 <= i < |entries| ==> Representable(entries[i].occurredAt)
  }

  function TextOf(e: ChangeEntry): EntryText
    requires Representable(e.occurredAt)
  {
    EntryText(TimestampText(e.occurredAt), KindText(e.kind), e.key)
  }

  function TextsOf(entries: seq<ChangeEntry>): (r: seq<EntryText>)
    requires AllRepresentable(entries)
    ensures |r| == |entries| && forall i :: 0 <= i < |r| ==> r[i] == TextOf(entries[i])
  {
    if entries == [] then [] else [TextOf(entries[0])] + TextsOf(entries[1..])
  }

  predicate EntrySerializes(e: ChangeEntry) {
    NonBlank(e.key) && e.id.WellFormed()
  }

  function PayloadsOf(entries: seq<ChangeEntry>): (r: seq<ChangeEntryPayload>)
    requires AllRepresentable(entries)
    ensures |r| == |entries|
    ensures forall i :: 0 <= i < |r| ==>
      r[i] == ChangeEntryPayload(entries[i].id, EntryText(TimestampText(entries[i].occurredAt),
                                                          KindText(entries[i].kind), entries[i].key),
                                 entries[i].phase)
  {
    if entries == [] then []
    else [ChangeEntryPayload(entries[0].id, TextOf(entries[0]), entries[0].phase)] + PayloadsOf(entries[1..])
  }

  /** Entries in strict order of their rendered text, or nothing. */
  function ChangeEntriesPayload(entries: seq<ChangeEntry>): Option<seq<ChangeEntryPayload>>
    requires AllRepresentable(entries)
  {
    var order := TextsOf(entries);
    if (forall i :: 0 <= i < |entries| ==> EntrySerializes(entries[i]))
       && order == Sort(ByText, order) && Distinct(order)
    then Some(PayloadsOf(entries))
    else None
  }

  lemma ByTextTransitive(a: EntryText, b: EntryText, c: EntryText)
    requires ByText(a, b) && ByText(b, c)
    ensures ByText(a, c)
  {
    hide Less, AtMost;
    if Less(a.occurredAt, b.occurredAt) && Less(b.occurredAt, c.occurredAt) {
      LessIsTransitive(a.occurredAt, b.occurredAt, c.occurredAt);
    } else if a.occurredAt == b.occurredAt == c.occurredAt {
      if Less(a.kind, b.kind) && Less(b.kind, c.kind) {
        LessIsTransitive(a.kind, b.kind, c.kind);
      } else if a.kind == b.kind == c.kind && AtMost(a.key, b.key) && AtMost(b.key, c.key) {
        AtMostIsTransitive(a.key, b.key, c.key);
      }
    }
  }

  lemma ByTextTotal(a: EntryText, b: EntryText)
    ensures ByText(a, b) || ByText(b, a)
  {
    hide Less;
    LessIsTotal(a.occurredAt, b.occurredAt);
    LessIsTotal(a.kind, b.kind);
    LessIsTotal(a.key, b.key);
  }

  lemma ByTextAntisymmetric(a: EntryText, b: EntryText)
    requires ByText(a, b) && ByText(b, a)
    ensures a == b
  {
    hide Less, AtMost;
    if Less(a.occurredAt, b.occurredAt) {
      LessIsAsymmetric(a.occurredAt, b.occurredAt);
    } else if Less(b.occurredAt, a.occurredAt) {
      LessIsAsymmetric(b.occurredAt, a.occurredAt);
    } else if Less(a.kind, b.kind) {
      LessIsAsymmetric(a.kind, b.kind);
    } else if Less(b.kind, a.kind) {
      LessIsAsymmetric(b.kind, a.kind);
    } else {
      AtMostIsAntisymmetric(a.key, b.key);
    }
  }

  lemma ByTextOrdering()
    ensures Ordering(ByText) && forall s :: TieFree(ByText, s)
  {
    forall a, b
      ensures ByText(a, b) || ByText(b, a)
    {
      ByTextTotal(a, b);
    }
    forall a, b, c | ByText(a, b) && ByText(b, c)
      ensures ByText(a, c)
    {
      ByTextTransitive(a, b, c);
    }
    forall a, b | ByText(a, b) && ByText(b, a)
      ensures a == b
    {
      ByTextAntisymmetric(a, b);
    }
  }

  /** Rendered entries compare exactly like the events they render. */
  lemma TextOrdersLikeEvents(a: ChangeEntry, b: ChangeEntry)
    requires Representable(a.occurredAt) && Representable(b.occurredAt)
    ensures ByText(TextOf(a), TextOf(b)) <==> ByTimeKindKey(EventOf(a), EventOf(b))
    ensures TextOf(a) == TextOf(b) <==> EventOf(a) == EventOf(b)
  {
    hide Less, KindText, TimestampText, AtMost, Representable;
    TextOrdersLikeInstants(a.occurredAt, b.occurredAt);
    if KindText(a.kind) == KindText(b.kind) {
      KindTextIsInjective(a.kind, b.kind);
    }
  }

  lemma ValidTextsAreOrdered(l: ChangeLedger)
    requires Faithful(l) && AllRepresentable(l.entries)
    ensures var order := TextsOf(l.entries); Sort(ByText, order) == order && Distinct(order)
  {
    hide Sort, KindText, TimestampText, Representable, ByTimeKindKey, TextOf, ByText, HeaderAccepted, ChangeEvent.Valid;
    var order, events := TextsOf(l.entries), EventsOf(l.entries);
    forall i, j | 0 <= i < j < |order|
      ensures ByText(order[i], order[j]) && order[i] != order[j]
    {
      TextOrdersLikeEvents(l.entries[i], l.entries[j]);
      assert ByTimeKindKey(events[i], events[j]) && events[i] != events[j];
    }
    ByTextOrdering();
    SortOfSorted(ByText, order);
  }

  /** The text ordering rejects no valid ledger. */
  lemma ChangeLedgerSerializes(l: ChangeLedger)
    requires Validated(l).Some? && AllRepresentable(l.entries)
    ensures ChangeEntriesPayload(l.entries).Some?
  {
    hide Sort, KindText, TimestampText, Representable, ByTimeKindKey, TextOf, ByText, Validated;
    AcceptedIsFaithful(l);
    var events := EventsOf(l.entries);
    ValidTextsAreOrdered(l);
    forall i | 0 <= i < |l.entries|
      ensures EntrySerializes(l.entries[i])
    {
      assert events[i].Valid();
      assert l.entries[i] == EntryOf(l.context, l.window, events[i]);
    }
  }

  lemma OrderedTextsIff(order: seq<EntryText>)
    ensures order == Sort(ByText, order) <==> Sorted(ByText, order)
  {
    hide Sort, ByText;
    ByTextOrdering();
    SortSorts(ByText, order);
    if Sorted(ByText, order) {
      SortOfSorted(ByText, order);
    }
  }

  lemma EntryPrecedesIff(a: ChangeEntry, b: ChangeEntry)
    requires Representable(a.occurredAt) && Representable(b.occurredAt)
    ensures ByText(TextOf(a), TextOf(b)) && TextOf(a) != TextOf(b) <==> Precedes(a, b)
  {
    hide ByText, TextOf, Representable, Precedes, ByTimeKindKey;
    TextOrdersLikeEvents(a, b);
    PrecedesIsStrict(a, b);
  }

  /** Entries serialize if and only if each is writable and they ascend strictly as events do. */
  lemma ChangeEntriesSerializeIff(entries: seq<ChangeEntry>)
    requires AllRepresentable(entries)
    ensures ChangeEntriesPayload(entries).Some? <==>
      && (forall i :: 0 <= i < |entries| ==> NonBlank(entries[i].key) && entries[i].id.WellFormed())
      && forall i, j :: 0 <= i < j < |entries| ==> Precedes(entries[i], entries[j])
  {
    hide Sort, TextOf, ByText, NonBlank, EvidenceId.WellFormed, Precedes, Representable;
    var order := TextsOf(entries);
    OrderedTextsIff(order);
    forall i, j | 0 <= i < j < |entries|
      ensures ByText(order[i], order[j]) && order[i] != order[j] <==> Precedes(entries[i], entries[j])
    {
      EntryPrecedesIff(entries[i], entries[j]);
    }
  }

  // ----- verification results -----

  datatype ChangePredicatePayload = ChangePredicatePayload(
    contradicting: seq<EvidenceId>,
    constraint: PhaseConstraint,
    id: string,
    reason: Option<ChangeReason>,
    supporting: seq<EvidenceId>,
    verdict: Verdict)

  datatype ChangeVerificationPayload = ChangeVerificationPayload(
    composition: Composition,
    contradicting: seq<EvidenceId>,
    id: string,
    predicates: seq<ChangePredicatePayload>,
    reason: Option<ChangeReason>,
    supporting: seq<EvidenceId>,
    verdict: Verdict)

  predicate ChangeShapeAccepted(r: ChangeResult) {
    match r.verdict
    case Unknown => r.reason.Some? && r.supporting == [] && r.contradicting == []
    case Supported => r.reason.None? && r.supporting != [] && r.contradicting == []
    case Refuted => r.reason.None? && r.supporting == [] && r.contradicting != []
  }

  function ChangePredicatePayloadOf(r: ChangeResult): Option<ChangePredicatePayload> {
    if AllWellFormed(r.supporting) && AllWellFormed(r.contradicting)
       && Serialization.Disjoint(r.supporting, r.contradicting)
       && ChangeShapeAccepted(r) && NonBlank(r.id)
    then Some(ChangePredicatePayload(r.contradicting, r.constraint, r.id, r.reason, r.supporting, r.verdict))
    else None
  }

  /** Which change traces serialize as children. */
  lemma ChangeChildSerializesIff(r: ChangeResult)
    ensures ChangePredicatePayloadOf(r).Some? <==>
      && NonBlank(r.id) && (forall id :: id in r.supporting || id in r.contradicting ==> id.WellFormed())
      && (r.supporting != [] <==> r.verdict == Verifier.Supported)
      && (r.contradicting != [] <==> r.verdict == Verifier.Refuted)
      && (r.reason.Some? <==> r.verdict == Verifier.Unknown)
  {
    hide NonBlank, EvidenceId.WellFormed;
  }

  function ChangePredicatePayloads(rs: seq<ChangeResult>): (r: Option<seq<ChangePredicatePayload>>)
    ensures r.Some? ==> |r.value| == |rs|
    ensures r.Some? ==> forall i :: 0 <= i < |rs| ==> ChangePredicatePayloadOf(rs[i]) == Some(r.value[i])
    ensures r.None? <==> exists i :: 0 <= i < |rs| && ChangePredicatePayloadOf(rs[i]).None?
  {
    if rs == [] then Some([])
    else
      match ChangePredicatePayloadOf(rs[0])
      case None => assert ChangePredicatePayloadOf(rs[0]).None?; None
      case Some(first) =>
        match ChangePredicatePayloads(rs[1..])
        case None =>
          assert exists i :: 0 <= i < |rs| && ChangePredicatePayloadOf(rs[i]).None? by {
            var i :| 0 <= i < |rs[1..]| && ChangePredicatePayloadOf(rs[1..][i]).None?;
            assert ChangePredicatePayloadOf(rs[i + 1]).None?;
          }
          None
        case Some(rest) =>
          assert forall i :: 0 < i < |rs| ==> rs[i] == rs[1..][i - 1];
          Some([first] + rest)
  }

  function ChangePayloadSupporting(ps: seq<ChangePredicatePayload>): seq<EvidenceId> {
    if ps == [] then [] else ps[0].supporting + ChangePayloadSupporting(ps[1..])
  }

  function ChangePayloadContradicting(ps: seq<ChangePredicatePayload>): seq<EvidenceId> {
    if ps == [] then [] else ps[0].contradicting + ChangePayloadContradicting(ps[1..])
  }

  predicate SomeChangeVerdict(ps: seq<ChangePredicatePayload>, v: Verdict) {
    exists i :: 0 <= i < |ps| && ps[i].verdict == v
  }

  function ExpectedChangeVerdict(composition: Composition, ps: seq<ChangePredicatePayload>): Verdict {
    if composition.All? then
      if SomeChangeVerdict(ps, Verifier.Refuted) then Verifier.Refuted
      else if SomeChangeVerdict(ps, Verifier.Unknown) then Verifier.Unknown
      else Verifier.Supported
    else
      if SomeChangeVerdict(ps, Verifier.Supported) then Verifier.Supported
      else if SomeChangeVerdict(ps, Verifier.Unknown) then Verifier.Unknown
      else Verifier.Refuted
  }

  predicate IsChangeGate(reason: Option<ChangeReason>) {
    reason == Some(ContextMismatch) || reason == Some(CausalClaim)
  }

  predicate ChangeGateAccepted(r: ChangeVerification, ps: seq<ChangePredicatePayload>) {
    if r.reason.Some? then
      && IsChangeGate(r.reason) && r.verdict == Verifier.Unknown && r.supporting == [] && r.contradicting == []
      && forall i :: 0 <= i < |ps| ==>
           ps[i].verdict == Verifier.Unknown && ps[i].reason == r.reason
           && ps[i].supporting == [] && ps[i].contradicting == []
    else forall i :: 0 <= i < |ps| ==> !IsChangeGate(ps[i].reason)
  }

  predicate DistinctChangeIds(ps: seq<ChangePredicatePayload>) {
    forall i, j :: 0 <= i < j < |ps| ==> ps[i].id != ps[j].id
  }

  function ChangeVerificationPayloadOf(r: ChangeVerification): Option<ChangeVerificationPayload> {
    var ps :- ChangePredicatePayloads(r.results);
    if |ps| > 0 && DistinctChangeIds(ps)
       && AllWellFormed(r.supporting) && AllWellFormed(r.contradicting)
       && r.supporting == ChangePayloadSupporting(ps) && r.contradicting == ChangePayloadContradicting(ps)
       && r.verdict == ExpectedChangeVerdict(r.composition, ps)
       && ChangeGateAccepted(r, ps) && NonBlank(r.id)
    then Some(ChangeVerificationPayload(r.composition, r.contradicting, r.id, ps, r.reason, r.supporting, r.verdict))
    else None
  }

  /** A change trace whose parts say the same thing. */
  ghost predicate ConsistentChange(r: ChangeVerification) {
    && NonBlank(r.id) && |r.results| > 0
    && (forall i :: 0 <= i < |r.results| ==> ChangePredicatePayloadOf(r.results[i]).Some?)
    && (forall i, j :: 0 <= i < j < |r.results| ==> r.results[i].id != r.results[j].id)
    && r.verdict == Verifier.Compose(r.composition, ChangeVerifier.Verdicts(r.results))
    && r.supporting == ChangeVerifier.Supporting(r.results)
    && r.contradicting == ChangeVerifier.Contradicting(r.results)
    && (r.reason.Some? ==> IsChangeGate(r.reason))
    && (forall i :: 0 <= i < |r.results| ==>
          if r.reason.Some? then r.results[i].reason == r.reason else !IsChangeGate(r.results[i].reason))
  }

  lemma {:induction false} ChangeCitationsAgree(rs: seq<ChangeResult>, ps: seq<ChangePredicatePayload>)
    requires |rs| == |ps| && forall i :: 0 <= i < |rs| ==> ChangePredicatePayloadOf(rs[i]) == Some(ps[i])
    ensures ChangePayloadSupporting(ps) == ChangeVerifier.Supporting(rs)
    ensures ChangePayloadContradicting(ps) == ChangeVerifier.Contradicting(rs)
    ensures AllWellFormed(ChangeVerifier.Supporting(rs)) && AllWellFormed(ChangeVerifier.Contradicting(rs))
  {
    if rs != [] {
      assert forall i :: 0 <= i < |rs[1..]| ==> rs[1..][i] == rs[i + 1] && ps[1..][i] == ps[i + 1];
      ChangeCitationsAgree(rs[1..], ps[1..]);
      assert ChangePredicatePayloadOf(rs[0]) == Some(ps[0]);
    }
  }

  lemma {:induction false} ChangeMembershipAgrees(rs: seq<ChangeResult>, ps: seq<ChangePredicatePayload>, v: Verdict)
    requires |rs| == |ps| && forall i :: 0 <= i < |rs| ==> ps[i].verdict == rs[i].verdict
    ensures SomeChangeVerdict(ps, v) <==> v in ChangeVerifier.Verdicts(rs)
  {
    if SomeChangeVerdict(ps, v) {
      var i :| 0 <= i < |ps| && ps[i].verdict == v;
      assert ChangeVerifier.Verdicts(rs)[i] in ChangeVerifier.Verdicts(rs);
    }
    if v in ChangeVerifier.Verdicts(rs) {
      var i :| 0 <= i < |rs| && ChangeVerifier.Verdicts(rs)[i] == v;
      assert ps[i].verdict == v;
    }
  }

  lemma ChangeCompositionsAgree(composition: Composition, rs: seq<ChangeResult>, ps: seq<ChangePredicatePayload>)
    requires |rs| == |ps| && forall i :: 0 <= i < |rs| ==> ps[i].verdict == rs[i].verdict
    ensures ExpectedChangeVerdict(composition, ps) == Verifier.Compose(composition, ChangeVerifier.Verdicts(rs))
  {
    ChangeMembershipAgrees(rs, ps, Verifier.Supported);
    ChangeMembershipAgrees(rs, ps, Verifier.Refuted);
    ChangeMembershipAgrees(rs, ps, Verifier.Unknown);
  }

  lemma {:induction false} NoChangeCitations(rs: seq<ChangeResult>)
    requires forall i :: 0 <= i < |rs| ==> rs[i].supporting == [] && rs[i].contradicting == []
    ensures ChangeVerifier.Supporting(rs) == [] && ChangeVerifier.Contradicting(rs) == []
  {
    if rs != [] {
      NoChangeCitations(rs[1..]);
    }
  }

  lemma GatedChangeTrace(r: ChangeVerification)
    requires ConsistentChange(r) && r.reason.Some?
    ensures r.verdict == Verifier.Unknown && r.supporting == [] && r.contradicting == []
    ensures forall i :: 0 <= i < |r.results| ==>
      r.results[i].verdict == Verifier.Unknown && r.results[i].supporting == [] && r.results[i].contradicting == []
  {
    hide NonBlank, EvidenceId.WellFormed;
    forall i | 0 <= i < |r.results|
      ensures r.results[i].verdict == Verifier.Unknown
              && r.results[i].supporting == [] && r.results[i].contradicting == []
    {
      assert ChangePredicatePayloadOf(r.results[i]).Some?;
    }
    NoChangeCitations(r.results);
    var vs := ChangeVerifier.Verdicts(r.results);
    assert vs[0] == Verifier.Unknown;
    assert forall v :: v in vs ==> v == Verifier.Unknown;
  }

  lemma ChangePayloadFields(rs: seq<ChangeResult>, ps: seq<ChangePredicatePayload>)
    requires |rs| == |ps| && forall i :: 0 <= i < |rs| ==> ChangePredicatePayloadOf(rs[i]) == Some(ps[i])
    ensures forall i :: 0 <= i < |ps| ==>
      ps[i].verdict == rs[i].verdict && ps[i].reason == rs[i].reason && ps[i].id == rs[i].id
      && ps[i].supporting == rs[i].supporting && ps[i].contradicting == rs[i].contradicting
  {
    forall i | 0 <= i < |ps|
      ensures ps[i].verdict == rs[i].verdict && ps[i].reason == rs[i].reason && ps[i].id == rs[i].id
              && ps[i].supporting == rs[i].supporting && ps[i].contradicting == rs[i].contradicting
    {
      assert ChangePredicatePayloadOf(rs[i]) == Some(ps[i]);
    }
  }

  /** The re-check accepts exactly the consistent change traces. */
  lemma ChangeSerializerAcceptsConsistent(r: ChangeVerification)
    ensures ChangeVerificationPayloadOf(r).Some? <==> ConsistentChange(r)
  {
    hide ChangePredicatePayloadOf, NonBlank, ExpectedChangeVerdict, ChangePayloadSupporting,
         ChangePayloadContradicting, EvidenceId.WellFormed;
    var payloads := ChangePredicatePayloads(r.results);
    if payloads.Some? {
      var ps := payloads.value;
      ChangePayloadFields(r.results, ps);
      ChangeCitationsAgree(r.results, ps);
      ChangeCompositionsAgree(r.composition, r.results, ps);
      if ConsistentChange(r) && r.reason.Some? {
        GatedChangeTrace(r);
      }
    }
  }

  /** Everything an accepted change payload says about its children. */
  lemma AcceptedChangePayloadComposes(r: ChangeVerification)
    requires ChangeVerificationPayloadOf(r).Some?
    ensures var p := ChangeVerificationPayloadOf(r).value;
            && p.verdict == r.verdict == Verifier.Compose(r.composition, ChangeVerifier.Verdicts(r.results))
            && p.supporting == r.supporting == ChangeVerifier.Supporting(r.results)
            && p.contradicting == r.contradicting == ChangeVerifier.Contradicting(r.results)
            && (r.reason.Some? ==> IsChangeGate(r.reason) && r.verdict == Verifier.Unknown
                                   && p.supporting == [] && p.contradicting == [])
            && (forall i :: 0 <= i < |r.results| ==>
                  if r.reason.Some? then r.results[i].reason == r.reason else !IsChangeGate(r.results[i].reason))
  {
    hide ChangePredicatePayloads, Verifier.Compose, ChangeVerifier.Supporting, ChangeVerifier.Contradicting;
    ChangeSerializerAcceptsConsistent(r);
    if r.reason.Some? {
      GatedChangeTrace(r);
    }
  }

  // ----- a payload carries the whole trace -----

  /** A reader of serialized entries, given the instant that a text renders. */
  function ReadChangeEntry(p: ChangeEntryPayload, kind: ChangeKind, at: Instant): ChangeEntry
    requires Representable(at) && p.text.occurredAt == TimestampText(at) && p.text.kind == KindText(kind)
  {
    ChangeEntry(p.id, p.text.key, kind, at, p.phase)
  }

  /** Of a serialized ledger every entry can be read back: text, identifier and phase determine it. */
  lemma ChangeEntriesRoundTrip(l: ChangeLedger, i: nat, kind: ChangeKind, at: Instant)
    requires AllRepresentable(l.entries) && ChangeEntriesPayload(l.entries).Some?
    requires i < |l.entries| && Representable(at)
    requires var p := ChangeEntriesPayload(l.entries).value;
             |p| == |l.entries| && p[i].text.occurredAt == TimestampText(at) && p[i].text.kind == KindText(kind)
    ensures ReadChangeEntry(ChangeEntriesPayload(l.entries).value[i], kind, at) == l.entries[i]
  {
    hide TimestampText, KindText, Sort;
    TextOrdersLikeInstants(at, l.entries[i].occurredAt);
    KindTextIsInjective(kind, l.entries[i].kind);
  }

  function ReadChangeResult(p: ChangePredicatePayload): ChangeResult {
    ChangeResult(p.id, p.verdict, p.reason, p.constraint, p.supporting, p.contradicting)
  }

  function ReadChangeResults(ps: seq<ChangePredicatePayload>): (r: seq<ChangeResult>)
    ensures |r| == |ps| && forall i :: 0 <= i < |r| ==> r[i] == ReadChangeResult(ps[i])
  {
    if ps == [] then [] else [ReadChangeResult(ps[0])] + ReadChangeResults(ps[1..])
  }

  /** A reader of change verification payloads. */
  function ReadChangeVerification(p: ChangeVerificationPayload): ChangeVerification {
    ChangeVerification(p.id, p.composition, p.verdict, p.reason, ReadChangeResults(p.predicates), p.supporting,
                       p.contradicting)
  }

  /** Writing a change trace and reading it back loses nothing and exchanges nothing. */
  lemma ChangeVerificationRoundTrip(r: ChangeVerification)
    requires ChangeVerificationPayloadOf(r).Some?
    ensures ReadChangeVerification(ChangeVerificationPayloadOf(r).value) == r
  {
    hide ChangeGateAccepted, ExpectedChangeVerdict, ChangeShapeAccepted, NonBlank;
    var p := ChangeVerificationPayloadOf(r).value;
    forall i | 0 <= i < |r.results|
      ensures ReadChangeResult(p.predicates[i]) == r.results[i]
    {
      assert ChangePredicatePayloadOf(r.results[i]) == Some(p.predicates[i]);
    }
    assert ReadChangeResults(p.predicates) == r.results;
  }

  lemma {:induction false} ManyWellFormed(entries: seq<ChangeEntry>)
    requires forall i :: 0 <= i < |entries| ==> entries[i].id.WellFormed()
    ensures AllWellFormed(Changes.Ids(entries))
  {
  }

  lemma MatchingWellFormed(p: ChangePredicate, l: ChangeLedger)
    requires Validated(l).Some?
    ensures AllWellFormed(Changes.Ids(Matching(p, l.entries)))
    ensures AllWellFormed(Changes.Ids(Satisfying(p.constraint, Matching(p, l.entries))))
  {
    hide Validated;
    AcceptedIsFaithful(l);
    var matching := Matching(p, l.entries);
    var satisfying := Satisfying(p.constraint, matching);
    forall i | 0 <= i < |matching|
      ensures matching[i].id.WellFormed()
    {
      MatchingMembers(p, l.entries, matching[i]);
      var k :| 0 <= k < |l.entries| && l.entries[k] == matching[i];
      assert l.entries[k] == EntryOf(l.context, l.window, EventsOf(l.entries)[k]);
    }
    forall i | 0 <= i < |satisfying|
      ensures satisfying[i].id.WellFormed()
    {
      SatisfyingMembers(p.constraint, matching, satisfying[i]);
      var k :| 0 <= k < |matching| && matching[k] == satisfying[i];
    }
    ManyWellFormed(matching);
    ManyWellFormed(satisfying);
  }

  lemma ChangeEvaluationSerializes(p: ChangePredicate, gate: Option<ChangeReason>, l: ChangeLedger)
    requires Validated(l).Some? && NonBlank(p.id) && (gate.Some? ==> IsChangeGate(gate))
    ensures var r := ChangeVerifier.ResultOf(p, gate, l.entries);
            && ChangePredicatePayloadOf(r).Some? && r.id == p.id
            && (if gate.Some? then r.reason == gate else !IsChangeGate(r.reason))
  {
    hide Validated, NonBlank, EvidenceId.WellFormed, Matching, Satisfying;
    MatchingWellFormed(p, l);
  }

  /** Every trace the change verifier produces passes the serializer's re-check. */
  lemma ChangeVerifiedSerializes(h: ChangeHypothesis, l: ChangeLedger)
    requires ChangeVerifier.Verify(h, l).Success?
    ensures ChangeVerificationPayloadOf(ChangeVerifier.Verify(h, l).value).Some?
  {
    hide Validated, ChangeVerifier.ResultOf, ChangePredicatePayloadOf, Verifier.Compose, ChangeVerificationPayloadOf;
    Changes.ValidationNeverRepairs(l);
    var r, gate := ChangeVerifier.Trace(h, l), ChangeVerifier.Gate(h, l);
    forall i | 0 <= i < |r.results|
      ensures ChangePredicatePayloadOf(r.results[i]).Some? && r.results[i].id == h.predicates[i].id
      ensures if gate.Some? then r.results[i].reason == gate else !IsChangeGate(r.results[i].reason)
    {
      ChangeEvaluationSerializes(h.predicates[i], gate, l);
    }
    ChangeVerifier.GatedComposition(h, l);
    ChangeSerializerAcceptsConsistent(r);
  }
}
