/** Change-event logs and the ledger that binds them to an incident window. */
module Changes {
  import opened Prelude
  import opened Text
  import opened Sorting
  import opened Domain

  const MAX_EVENTS := 512

  datatype ChangeEvent = ChangeEvent(key: string, kind: ChangeKind, occurredAt: Instant) {
    predicate Valid() {
      NonBlank(key)
    }
  }

  datatype ChangeEntry = ChangeEntry(
    id: EvidenceId,
    key: string,
    kind: ChangeKind,
    occurredAt: Instant,
    phase: ChangePhase)

  datatype ChangeLedger = ChangeLedger(schema: string, context: Context, window: Window, entries: seq<ChangeEntry>)

  function KindText(kind: ChangeKind): string {
    match kind
    case Configuration => "configuration"
    case Deployment => "deployment"
    case FeatureFlag => "feature_flag"
    case Rollback => "rollback"
    case Scaling => "scaling"
  }

  lemma KindTextIsInjective(a: ChangeKind, b: ChangeKind)
    requires KindText(a) == KindText(b)
    ensures a == b
  {
    assert KindText(a)[0] == KindText(b)[0];
  }

  /** Lexicographic order of a primary order and a tie-breaking one. */
  predicate ByTimeKindKey(a: ChangeEvent, b: ChangeEvent) {
    a.occurredAt < b.occurredAt
    || (a.occurredAt == b.occurredAt
        && (Less(KindText(a.kind), KindText(b.kind)) || (a.kind == b.kind && AtMost(a.key, b.key))))
  }

  lemma ByTimeKindKeyTransitive(a: ChangeEvent, b: ChangeEvent, c: ChangeEvent)
    requires ByTimeKindKey(a, b) && ByTimeKindKey(b, c)
    ensures ByTimeKindKey(a, c)
  {
    hide KindText, AtMost, Less;
    if a.occurredAt == b.occurredAt == c.occurredAt {
      if Less(KindText(a.kind), KindText(b.kind)) && Less(KindText(b.kind), KindText(c.kind)) {
        LessIsTransitive(KindText(a.kind), KindText(b.kind), KindText(c.kind));
      } else if a.kind == b.kind == c.kind && AtMost(a.key, b.key) && AtMost(b.key, c.key) {
        AtMostIsTransitive(a.key, b.key, c.key);
      }
    }
  }

  lemma ByTimeKindKeyTotal(a: ChangeEvent, b: ChangeEvent)
    ensures ByTimeKindKey(a, b) || ByTimeKindKey(b, a)
  {
    hide KindText, Less;
    LessIsTotal(KindText(a.kind), KindText(b.kind));
    LessIsTotal(a.key, b.key);
    if KindText(a.kind) == KindText(b.kind) {
      KindTextIsInjective(a.kind, b.kind);
    }
  }

  lemma ByTimeKindKeyAntisymmetric(a: ChangeEvent, b: ChangeEvent)
    requires ByTimeKindKey(a, b) && ByTimeKindKey(b, a)
    ensures a == b
  {
    hide KindText, Less, AtMost;
    if Less(KindText(a.kind), KindText(b.kind)) {
      LessIsAsymmetric(KindText(a.kind), KindText(b.kind));
    } else if Less(KindText(b.kind), KindText(a.kind)) {
      LessIsAsymmetric(KindText(b.kind), KindText(a.kind));
    } else {
      AtMostIsAntisymmetric(a.key, b.key);
    }
  }

  lemma ChangeOrdering()
    ensures Ordering(ByTimeKindKey) && forall s :: TieFree(ByTimeKindKey, s)
  {
    forall a, b
      ensures ByTimeKindKey(a, b) || ByTimeKindKey(b, a)
    {
      ByTimeKindKeyTotal(a, b);
    }
    forall a, b, c | ByTimeKindKey(a, b) && ByTimeKindKey(b, c)
      ensures ByTimeKindKey(a, c)
    {
      ByTimeKindKeyTransitive(a, b, c);
    }
    forall a, b | ByTimeKindKey(a, b) && ByTimeKindKey(b, a)
      ensures a == b
    {
      ByTimeKindKeyAntisymmetric(a, b);
    }
  }

  // ----- the log -----

  /** A bounded, duplicate-free log in canonical order. */
  function LogOf(events: seq<ChangeEvent>): Result<seq<ChangeEvent>, DomainError> {
    if |events| <= MAX_EVENTS && Distinct(events) then Success(Sort(ByTimeKindKey, events))
    else Failure(InvalidChangeEvent)
  }

  method NewLog(events: seq<ChangeEvent>) returns (r: Result<seq<ChangeEvent>, DomainError>)
    ensures r == LogOf(events)
  {
    hide Sort;
    if |events| > MAX_EVENTS {
      return Failure(InvalidChangeEvent);
    }
    var seen: set<ChangeEvent> := {};
    for i := 0 to |events|
      invariant Distinct(events[..i])
      invariant forall e :: e in seen <==> e in events[..i]
    {
      if events[i] in seen {
        return Failure(InvalidChangeEvent);
      }
      assert events[..i + 1] == events[..i] + [events[i]];
      DistinctAppend(events[..i], events[i]);
      seen := seen + {events[i]};
    }
    assert events[..|events|] == events;
    return Success(Sort(ByTimeKindKey, events));
  }

  // ----- phases -----

  function Phase(occurredAt: Instant, window: Window): ChangePhase {
    if occurredAt < window.start then BeforeWindow
    else if occurredAt < window.injection then PreInjection
    else if occurredAt < window.end then PostInjection
    else AfterWindow
  }

  /** The half-open interval each phase stands for. */
  ghost predicate InPhase(occurredAt: Instant, window: Window, phase: ChangePhase) {
    match phase
    case BeforeWindow => occurredAt < window.start
    case PreInjection => window.start <= occurredAt < window.injection
    case PostInjection => window.injection <= occurredAt < window.end
    case AfterWindow => window.end <= occurredAt
  }

  /** In a valid window every instant lies in exactly one phase, the one that is recorded. */
  lemma PhasesPartition(occurredAt: Instant, window: Window, phase: ChangePhase)
    requires window.Valid()
    ensures InPhase(occurredAt, window, phase) <==> phase == Phase(occurredAt, window)
  {
    match phase
    case BeforeWindow =>
    case PreInjection =>
    case PostInjection =>
    case AfterWindow =>
  }

  // ----- the ledger -----

  function EntryOf(context: Context, window: Window, e: ChangeEvent): ChangeEntry {
    var phase := Phase(e.occurredAt, window);
    ChangeEntry(ChangeDigest(ChangeContent(CHANGE_SCHEMA, context, window, e.key, e.kind, e.occurredAt, phase)),
                e.key, e.kind, e.occurredAt, phase)
  }

  function EntriesOf(context: Context, window: Window, events: seq<ChangeEvent>): (r: seq<ChangeEntry>)
    ensures |r| == |events| && forall i :: 0 <= i < |r| ==> r[i] == EntryOf(context, window, events[i])
  {
    if events == [] then [] else [EntryOf(context, window, events[0])] + EntriesOf(context, window, events[1..])
  }

  function Built(context: Context, window: Window, events: seq<ChangeEvent>): seq<ChangeEntry> {
    EntriesOf(context, window, Sort(ByTimeKindKey, events))
  }

  method BuildEntries(context: Context, window: Window, events: seq<ChangeEvent>) returns (entries: seq<ChangeEntry>)
    ensures entries == Built(context, window, events)
  {
    hide Sort, Phase, EntriesOf, ByTimeKindKey;
    var ordered := Sort(ByTimeKindKey, events);
    entries := [];
    assert ordered[..0] == [] && EntriesOf(context, window, []) == [];
    for i := 0 to |ordered|
      invariant entries == EntriesOf(context, window, ordered[..i])
    {
      var event := ordered[i];
      var phase := Phase(event.occurredAt, window);
      var content := ChangeContent(CHANGE_SCHEMA, context, window, event.key, event.kind, event.occurredAt, phase);
      entries := entries + [ChangeEntry(ChangeDigest(content), event.key, event.kind, event.occurredAt, phase)];
      EntriesNext(context, window, ordered, i);
    }
    assert ordered[..|ordered|] == ordered;
  }

  lemma EntriesNext(context: Context, window: Window, events: seq<ChangeEvent>, i: nat)
    requires i < |events|
    ensures EntriesOf(context, window, events[..i + 1])
            == EntriesOf(context, window, events[..i]) + [EntryOf(context, window, events[i])]
  {
    hide EntryOf;
  }

  function EventOf(e: ChangeEntry): ChangeEvent {
    ChangeEvent(e.key, e.kind, e.occurredAt)
  }

  function EventsOf(entries: seq<ChangeEntry>): (r: seq<ChangeEvent>)
    ensures |r| == |entries| && forall i :: 0 <= i < |r| ==> r[i] == EventOf(entries[i])
  {
    if entries == [] then [] else [EventOf(entries[0])] + EventsOf(entries[1..])
  }

  function Ids(entries: seq<ChangeEntry>): (r: seq<EvidenceId>)
    ensures |r| == |entries| && forall i :: 0 <= i < |r| ==> r[i] == entries[i].id
  {
    if entries == [] then [] else [entries[0].id] + Ids(entries[1..])
  }

  predicate EntryAccepted(e: ChangeEntry, window: Window) {
    e.id.WellFormed() && NonBlank(e.key) && e.phase == Phase(e.occurredAt, window)
  }

  predicate EntriesAccepted(entries: seq<ChangeEntry>, window: Window) {
    forall i :: 0 <= i < |entries| ==> EntryAccepted(entries[i], window)
  }

  predicate HeaderAccepted(l: ChangeLedger) {
    l.schema == CHANGE_SCHEMA && l.context.Valid() && l.window.Valid()
  }

  function Validated(l: ChangeLedger): Option<ChangeLedger> {
    var events := EventsOf(l.entries);
    if !HeaderAccepted(l) || !EntriesAccepted(l.entries, l.window) || !Distinct(events)
       || events != Sort(ByTimeKindKey, events)
       || Ids(Built(l.context, l.window, events)) != Ids(l.entries) then None
    else Some(ChangeLedger(CHANGE_SCHEMA, l.context, l.window, Built(l.context, l.window, events)))
  }

  method ValidateLedger(l: ChangeLedger) returns (r: Option<ChangeLedger>)
    ensures r == Validated(l)
  {
    hide Sort, Built, EntryAccepted, Read, HeaderAccepted;
    if !HeaderAccepted(l) {
      return None;
    }
    var suppliedIds: seq<EvidenceId>, events: seq<ChangeEvent>, seen: set<ChangeEvent> := [], [], {};
    ReadNothing(l.window);
    for i := 0 to |l.entries|
      invariant Read(l.entries[..i], l.window, suppliedIds, events, seen)
    {
      var entry := l.entries[i];
      var event := ChangeEvent(entry.key, entry.kind, entry.occurredAt);
      if !EntryAccepted(entry, l.window) || event in seen {
        ReadBlocks(l.entries, i, l.window, suppliedIds, events, seen);
        return None;
      }
      ReadStep(l.entries, i, l.window, suppliedIds, events, seen);
      seen := seen + {event};
      events := events + [event];
      suppliedIds := suppliedIds + [entry.id];
    }
    assert l.entries[..|l.entries|] == l.entries;
    ReadAll(l.entries, l.window, suppliedIds, events, seen);
    if events != Sort(ByTimeKindKey, events) {
      return None;
    }
    var entries := BuildEntries(l.context, l.window, events);
    if Ids(entries) != suppliedIds {
      return None;
    }
    return Some(ChangeLedger(CHANGE_SCHEMA, l.context, l.window, entries));
  }

  /** What the validating loop knows about the prefix it has read. */
  ghost predicate Read(prefix: seq<ChangeEntry>, window: Window,
                       ids: seq<EvidenceId>, events: seq<ChangeEvent>, seen: set<ChangeEvent>) {
    && ids == Ids(prefix) && events == EventsOf(prefix)
    && EntriesAccepted(prefix, window) && Distinct(events)
    && forall e :: e in seen <==> e in events
  }

  lemma ReadNothing(window: Window)
    ensures Read([], window, [], [], {})
  {
  }

  lemma ReadAll(entries: seq<ChangeEntry>, window: Window,
                ids: seq<EvidenceId>, events: seq<ChangeEvent>, seen: set<ChangeEvent>)
    requires Read(entries, window, ids, events, seen)
    ensures ids == Ids(entries) && events == EventsOf(entries) && EntriesAccepted(entries, window) && Distinct(events)
  {
  }

  lemma ReadBlocks(entries: seq<ChangeEntry>, i: nat, window: Window,
                   ids: seq<EvidenceId>, events: seq<ChangeEvent>, seen: set<ChangeEvent>)
    requires i < |entries| && Read(entries[..i], window, ids, events, seen)
    requires !EntryAccepted(entries[i], window) || EventOf(entries[i]) in seen
    ensures !EntriesAccepted(entries, window) || !Distinct(EventsOf(entries))
  {
    hide EntryAccepted;
    if EventOf(entries[i]) in seen {
      var j :| 0 <= j < i && EventsOf(entries[..i])[j] == EventOf(entries[i]);
      assert EventsOf(entries)[j] == EventsOf(entries)[i];
    }
  }

  lemma ReadStep(entries: seq<ChangeEntry>, i: nat, window: Window,
                 ids: seq<EvidenceId>, events: seq<ChangeEvent>, seen: set<ChangeEvent>)
    requires i < |entries| && Read(entries[..i], window, ids, events, seen)
    requires EntryAccepted(entries[i], window) && EventOf(entries[i]) !in seen
    ensures Read(entries[..i + 1], window, ids + [entries[i].id], events + [EventOf(entries[i])],
                 seen + {EventOf(entries[i])})
  {
    hide EntryAccepted;
    var next := entries[..i + 1];
    assert next == entries[..i] + [entries[i]];
    assert Ids(next) == ids + [entries[i].id];
    assert EventsOf(next) == events + [EventOf(entries[i])];
    DistinctAppend(events, EventOf(entries[i]));
  }

  predicate LogAccepted(events: seq<ChangeEvent>) {
    |events| <= MAX_EVENTS && (forall i :: 0 <= i < |events| ==> events[i].Valid()) && Distinct(events)
  }

  method CheckLog(events: seq<ChangeEvent>) returns (r: Option<seq<ChangeEvent>>)
    ensures r == if LogAccepted(events) then Some(events) else None
  {
    if |events| > MAX_EVENTS {
      return None;
    }
    var reconstructed: seq<ChangeEvent>, seen: set<ChangeEvent> := [], {};
    for i := 0 to |events|
      invariant reconstructed == events[..i] && LogAccepted(reconstructed)
      invariant forall e :: e in seen <==> e in reconstructed
    {
      var event := ChangeEvent(events[i].key, events[i].kind, events[i].occurredAt);
      if !event.Valid() || event in seen {
        return None;
      }
      seen := seen + {event};
      DistinctAppend(reconstructed, event);
      reconstructed := reconstructed + [event];
    }
    assert events[..|events|] == events;
    return Some(reconstructed);
  }

  function Compile(context: Context, window: Window, events: seq<ChangeEvent>): Option<ChangeLedger> {
    if !context.Valid() || !window.Valid() || !LogAccepted(events) then None
    else Validated(ChangeLedger(CHANGE_SCHEMA, context, window, Built(context, window, events)))
  }

  // ----- what an accepted change ledger is -----

  /** Distinct events in canonical order, each entry addressed by its own content and timing. */
  ghost predicate Faithful(l: ChangeLedger) {
    var events := EventsOf(l.entries);
    && HeaderAccepted(l)
    && (forall i :: 0 <= i < |events| ==> events[i].Valid())
    && Distinct(events) && Sorted(ByTimeKindKey, events)
    && l.entries == EntriesOf(l.context, l.window, events)
  }

  lemma AcceptedIsFaithful(l: ChangeLedger)
    requires Validated(l).Some?
    ensures Faithful(l) && Validated(l) == Some(l)
  {
    hide Sort, KindText;
    var events := EventsOf(l.entries);
    ChangeOrdering();
    SortSorts(ByTimeKindKey, events);
    var built := EntriesOf(l.context, l.window, events);
    assert Built(l.context, l.window, events) == built;
    forall i | 0 <= i < |events|
      ensures l.entries[i] == built[i] && events[i].Valid()
    {
      assert EntryAccepted(l.entries[i], l.window);
      assert Ids(built)[i] == Ids(l.entries)[i];
    }
    assert l.entries == built;
  }

  lemma FaithfulIsAccepted(l: ChangeLedger)
    requires Faithful(l)
    ensures Validated(l) == Some(l)
  {
    hide Sort, KindText;
    var events := EventsOf(l.entries);
    ChangeOrdering();
    SortOfSorted(ByTimeKindKey, events);
    forall i | 0 <= i < |l.entries|
      ensures EntryAccepted(l.entries[i], l.window)
    {
      assert events[i].Valid();
    }
  }

  /** Validation accepts exactly the faithful change ledgers and repairs nothing. */
  lemma ValidationNeverRepairs(l: ChangeLedger)
    ensures Validated(l) == if Faithful(l) then Some(l) else None
  {
    hide Validated, Faithful;
    if Validated(l).Some? {
      AcceptedIsFaithful(l);
    }
    if Faithful(l) {
      FaithfulIsAccepted(l);
    }
  }

  lemma BuiltIsFaithful(context: Context, window: Window, events: seq<ChangeEvent>)
    requires context.Valid() && window.Valid() && LogAccepted(events)
    ensures Faithful(ChangeLedger(CHANGE_SCHEMA, context, window, Built(context, window, events)))
  {
    hide Sort, KindText, ByTimeKindKey, ChangeEvent.Valid, Phase, EntriesOf;
    var ordered := Sort(ByTimeKindKey, events);
    ChangeOrdering();
    SortSorts(ByTimeKindKey, events);
    SortContents(ByTimeKindKey, events);
    DistinctIsOrderFree(events, ordered);
    forall i | 0 <= i < |ordered|
      ensures ordered[i].Valid()
    {
      assert ordered[i] in multiset(events);
      var k := IndexOf(events, ordered[i]);
    }
    EntriesRoundTrip(context, window, ordered);
  }

  lemma EntriesRoundTrip(context: Context, window: Window, events: seq<ChangeEvent>)
    ensures EventsOf(EntriesOf(context, window, events)) == events
  {
  }

  /** Compilation fails only on a malformed header or log, and yields the canonical entries. */
  lemma CompileAcceptsExactly(context: Context, window: Window, events: seq<ChangeEvent>)
    ensures Compile(context, window, events)
            == if context.Valid() && window.Valid() && LogAccepted(events)
               then Some(ChangeLedger(CHANGE_SCHEMA, context, window, Built(context, window, events)))
               else None
  {
    hide Validated, Faithful, Built, LogAccepted;
    if context.Valid() && window.Valid() && LogAccepted(events) {
      BuiltIsFaithful(context, window, events);
      FaithfulIsAccepted(ChangeLedger(CHANGE_SCHEMA, context, window, Built(context, window, events)));
    }
  }

  /** The order in which events are logged leaves no mark on the ledger. */
  lemma CompileIsOrderFree(context: Context, window: Window, a: seq<ChangeEvent>, b: seq<ChangeEvent>)
    requires multiset(a) == multiset(b)
    ensures Compile(context, window, a) == Compile(context, window, b)
  {
    hide Sort, Compile, LogAccepted;
    CompileAcceptsExactly(context, window, a);
    CompileAcceptsExactly(context, window, b);
    LogAcceptanceIsOrderFree(a, b);
    LogAcceptanceIsOrderFree(b, a);
    ChangeOrdering();
    SortIsOrderFree(ByTimeKindKey, a, b);
  }

  lemma LogAcceptanceIsOrderFree(a: seq<ChangeEvent>, b: seq<ChangeEvent>)
    requires multiset(a) == multiset(b)
    ensures LogAccepted(a) ==> LogAccepted(b)
  {
    assert |a| == |multiset(a)| == |multiset(b)| == |b|;
    if LogAccepted(a) {
      DistinctIsOrderFree(a, b);
      forall i | 0 <= i < |b|
        ensures b[i].Valid()
      {
        assert b[i] in multiset(a);
        var k := IndexOf(a, b[i]);
      }
    }
  }

  /**
   * Up to the size limit, the accepted ledgers are exactly the compiled ones; beyond it
   * validation still accepts what compilation can no longer produce.
   */
  lemma ValidationImage(l: ChangeLedger)
    ensures (exists events :: Compile(l.context, l.window, events) == Some(l))
      <==> Validated(l).Some? && |l.entries| <= 512
  {
    hide Compile, Sort, Validated, HeaderAccepted, ChangeEvent.Valid;
    if Validated(l).Some? && |l.entries| <= MAX_EVENTS {
      AcceptedIsFaithful(l);
      var events := EventsOf(l.entries);
      ChangeOrdering();
      SortOfSorted(ByTimeKindKey, events);
      FaithfulHeader(l);
      CompileAcceptsExactly(l.context, l.window, events);
      assert Compile(l.context, l.window, events) == Some(l);
    }
    if events :| Compile(l.context, l.window, events) == Some(l) {
      CompileAcceptsExactly(l.context, l.window, events);
      SortContents(ByTimeKindKey, events);
      BuiltIsFaithful(l.context, l.window, events);
      FaithfulIsAccepted(l);
    }
  }

  /**
   * Nothing but compilation enforces the size limit: past it, in every context and window, there
   * are ledgers of every size that validate although no log compiles to them.
   */
  lemma OversizedLedgerValidates(context: Context, window: Window, n: nat) returns (l: ChangeLedger)
    requires context.Valid() && window.Valid() && n > 512
    ensures Validated(l) == Some(l) && |l.entries| == n && l.context == context && l.window == window
    ensures forall events :: Compile(l.context, l.window, events) != Some(l)
  {
    hide Validated, Compile, Phase;
    var events := seq(n, i => ChangeEvent("k", Deployment, i));
    assert !IsSpace("k"[0]);
    l := ChangeLedger(CHANGE_SCHEMA, context, window, EntriesOf(context, window, events));
    EntriesRoundTrip(context, window, events);
    FaithfulIsAccepted(l);
    ValidationImage(l);
  }

  lemma FaithfulHeader(l: ChangeLedger)
    requires Faithful(l)
    ensures l.schema == CHANGE_SCHEMA && l.context.Valid() && l.window.Valid()
  {
  }

  /** One shared identifier pins context, window and entry. */
  lemma IdsBindContent(a: ChangeLedger, b: ChangeLedger, i: nat, j: nat)
    requires Validated(a).Some? && Validated(b).Some?
    requires i < |a.entries| && j < |b.entries| && a.entries[i].id == b.entries[j].id
    ensures a.context == b.context && a.window == b.window && a.entries[i] == b.entries[j]
  {
    AcceptedIsFaithful(a);
    AcceptedIsFaithful(b);
    assert a.entries[i] == EntryOf(a.context, a.window, EventsOf(a.entries)[i]);
    assert b.entries[j] == EntryOf(b.context, b.window, EventsOf(b.entries)[j]);
  }

  // ----- what accepted logs and ledgers say -----

  /** The names that the kinds sort by. */
  lemma KindNames()
    ensures KindText(Configuration) == "configuration" && KindText(Deployment) == "deployment"
    ensures KindText(FeatureFlag) == "feature_flag" && KindText(ChangeKind.Rollback) == "rollback"
    ensures KindText(Scaling) == "scaling"
  {
  }

  /**
   * An accepted change ledger: its schema, a well-formed context and window; entries strictly ascending in time, then
   * kind, then key; each in the phase of its time, and identified by exactly its content in this context and window.
   */
  lemma AcceptedLedgerSays(l: ChangeLedger)
    requires Validated(l).Some?
    ensures l.schema == "change-event-ledger.v1" && l.context.Valid()
    ensures l.window.start <= l.window.injection < l.window.end
    ensures forall i, j :: 0 <= i < j < |l.entries| ==> Precedes(l.entries[i], l.entries[j])
    ensures forall i :: 0 <= i < |l.entries| ==>
      var e := l.entries[i];
      && NonBlank(e.key) && InPhase(e.occurredAt, l.window, e.phase)
      && e.id == ChangeDigest(ChangeContent("change-event-ledger.v1", l.context, l.window, e.key, e.kind, e.occurredAt,
                                            e.phase))
  {
    hide Sort, KindText, Less, NonBlank;
    AcceptedIsFaithful(l);
    var events := EventsOf(l.entries);
    forall i, j | 0 <= i < j < |l.entries|
      ensures Precedes(l.entries[i], l.entries[j])
    {
      assert ByTimeKindKey(events[i], events[j]) && events[i] != events[j];
      if KindText(l.entries[i].kind) == KindText(l.entries[j].kind) {
        KindTextIsInjective(l.entries[i].kind, l.entries[j].kind);
      }
    }
    forall i | 0 <= i < |l.entries|
      ensures l.entries[i] == EntryOf(l.context, l.window, events[i]) && NonBlank(l.entries[i].key)
    {
      assert events[i].Valid();
    }
  }

  /** Strictly earlier; or at the same time and of a kind whose name sorts before, or of the same kind and smaller. */
  predicate Precedes(a: ChangeEntry, b: ChangeEntry) {
    || a.occurredAt < b.occurredAt
    || (a.occurredAt == b.occurredAt
        && (Less(KindText(a.kind), KindText(b.kind)) || (a.kind == b.kind && Less(a.key, b.key))))
  }

  lemma PrecedesIsStrict(a: ChangeEntry, b: ChangeEntry)
    ensures Precedes(a, b) <==> ByTimeKindKey(EventOf(a), EventOf(b)) && EventOf(a) != EventOf(b)
  {
    hide KindText, Less;
    if Less(a.key, b.key) {
      LessIsAsymmetric(a.key, b.key);
    }
    if Less(KindText(a.kind), KindText(b.kind)) {
      LessIsAsymmetric(KindText(a.kind), KindText(b.kind));
    }
  }
}
