/** Where stored reports come from, over whole runs: each says what the raw points of one turn say. */
module Provenance {
  import opened Prelude
  import opened Text
  import opened Domain
  import opened Baseline
  import opened Hypotheses
  import Ledger
  import Verifier
  import opened EndToEnd
  import opened Serialization
  import opened Records
  import opened Tables
  import opened Application
  import opened Lifecycle
  import opened Runs
  import opened Conclusions
  import opened Reports

  // ----- the analysis does not read the status -----

  lemma {:induction false} RowsIgnoreStatus(inv: Investigation, status: InvestigationStatus, entries: seq<MetricEntry>)
    ensures EvidenceRows(inv.(status := status), entries) == EvidenceRows(inv, entries)
  {
    hide EntryPayloadOf;
    if entries != [] {
      RowsIgnoreStatus(inv, status, entries[1..]);
    }
  }

  lemma JudgedIgnoresStatus(inv: Investigation, status: InvestigationStatus, baseline: BaselineResult,
                             l: MetricLedger, h: Hypothesis)
    ensures Judged(inv.(status := status), baseline, l, h) == Judged(inv, baseline, l, h)
  {
    hide EvidenceRows, VerificationPayloadOf, BaselinePayloadOf;
    RowsIgnoreStatus(inv, status, l.entries);
  }

  lemma AnalysisIgnoresStatus(inv: Investigation, status: InvestigationStatus, policy: Policy, turn: Turn)
    requires policy.Valid() && turn.Valid()
    ensures Analyse(inv.(status := status), policy, turn) == Analyse(inv, policy, turn)
  {
    hide Judged, Rank, Ledger.Compile, ParseProposal, AllowedSignals;
    if turn.telemetry.Loaded? && turn.llm.Proposed? && Rank(inv.window, turn.telemetry.inputs, policy).Success? {
      var baseline := Rank(inv.window, turn.telemetry.inputs, policy).value;
      var compiled := Ledger.Compile(inv.context, inv.window, baseline);
      if compiled.Some? && ParseProposal(turn.llm.raw, AllowedSignals(compiled.value)).Success? {
        JudgedIgnoresStatus(inv, status, baseline, compiled.value,
                             ParseProposal(turn.llm.raw, AllowedSignals(compiled.value)).value);
      }
    }
  }

  // ----- a stored report was written by a turn -----

  /** The rows are stored under their own keys, with their own payloads. */
  ghost predicate AllStored(db: Db, rows: seq<Evidence>) {
    forall k :: 0 <= k < |rows| ==>
      KeyOf(rows[k]) in db.evidence && db.evidence[KeyOf(rows[k])].payload == rows[k].payload
  }

  /** The event is a worker's turn whose analysis of investigation `i` wrote its report and its rows. */
  ghost predicate Earned(db: Db, i: Uuid, e: Event)
    requires i in db.reports && i in db.investigations
  {
    && e.Work? && e.worker.Valid() && e.turn.Valid()
    && var a := Analyse(db.investigations[i], e.worker.policy, e.turn);
    && a.Conclusion? && a.report == db.reports[i] && AllStored(db, a.rows)
  }

  /** The event is a turn that claims the job of investigation `i`. */
  ghost predicate Takes(db: Db, e: Event, i: Uuid) {
    && e.Work?
    && var choice := ClaimChoice(db.jobs, e.turn.now);
    && choice.Some? && choice.value in db.jobs && db.jobs[choice.value].investigation == i
  }

  /** The event at `k` is the step of the run that stores the report of `i`: it is not there before, it is after. */
  ghost predicate Stores(db: Db, events: seq<Event>, k: nat, i: Uuid)
    requires AdmissibleRun(db, events) && k < |events|
  {
    RunPrefix(db, events, k);
    && i !in Run(db, events[..k]).reports && i in Run(db, events[..k + 1]).reports
    && Takes(Run(db, events[..k]), events[k], i)
  }

  lemma OutcomeEarns(db: Db, j: Uuid, w: Worker, turn: Turn, i: Uuid)
    requires Grounded(db) && Ready(db, j) && w.Valid() && turn.Valid()
    requires var next := Outcome(db, db.jobs[j], w, turn); i in next.reports && i !in db.reports
    ensures var next := Outcome(db, db.jobs[j], w, turn);
            && i == db.jobs[j].investigation && i in next.investigations && next.investigations[i].status.Succeeded?
            && Earned(next, i, Work(w, turn))
  {
    hide Analyse, Appended, AttemptTaken, Turn.Valid, NonBlank, AllStored;
    var inv := db.investigations[db.jobs[j].investigation];
    AnalysisIgnoresStatus(inv, Succeeded, w.policy, turn);
    RowsAreStored(db, inv, w.policy, turn);
  }

  lemma RowsAreStored(db: Db, inv: Investigation, policy: Policy, turn: Turn)
    requires Grounded(db) && policy.Valid() && turn.Valid() && Analyse(inv, policy, turn).Conclusion?
    ensures var rows := Analyse(inv, policy, turn).rows;
            forall next: Db :: next.evidence == Appended(db.evidence, rows) ==> AllStored(next, rows)
  {
    hide Analyse, Appended, Cites;
    var rows := Analyse(inv, policy, turn).rows;
    ConclusionIsGrounded(inv, policy, turn);
    AppendedStaysAddressed(db.evidence, rows);
    AppendedKeepsRows(db.evidence, rows);
  }

  lemma NewReportIsEarned(db: Db, e: Event, i: Uuid)
    requires Inv(db) && Admissible(db, e) && i in Next(db, e).reports && i !in db.reports
    ensures var next := Next(db, e);
            && i in next.investigations && next.investigations[i].status.Succeeded?
            && Earned(next, i, e) && Takes(db, e, i)
  {
    hide Core, Reported, Grounded, Formed, RunOnce, Execute, Outcome, Ready, Earned;
    match e
    case Work(w, turn) =>
      TurnEffect(db, w, turn);
      var choice := ClaimChoice(db.jobs, turn.now);
      QueuedIsReady(db, choice.value);
      OutcomeEarns(db, choice.value, w, turn, i);
    case Open(cmd, id, jobId, now, maxAttempts) =>
      InvIsKeyed(db);
      OpenEffect(db, cmd, id, jobId, now, maxAttempts);
    case Abandon(_) =>
    case Read(_, _) =>
  }

  /**
   * A report that a run added was stored at one step of it: a turn that claimed the job of exactly
   * that investigation, and whose analysis of it is the report as it still stands at the end.
   */
  lemma {:induction false} ReportsAreEarned(db: Db, events: seq<Event>, i: Uuid) returns (k: nat)
    requires Inv(db) && AdmissibleRun(db, events) && i in Run(db, events).reports && i !in db.reports
    ensures i in Run(db, events).investigations && k < |events| && Stores(db, events, k, i)
    ensures Earned(Run(db, events), i, events[k])
    decreases |events|
  {
    hide Inv, Next, Earned, Takes, Admissible;
    var next := Next(db, events[0]);
    NextKeepsInv(db, events[0]);
    if i in next.reports {
      NewReportIsEarned(db, events[0], i);
      HistoryIsImmutable(next, events[1..]);
      EarnedStays(next, Run(next, events[1..]), i, events[0]);
      k := 0;
      RunPrefix(db, events, 0);
      assert events[..0] == [];
    } else {
      k := ReportsAreEarned(next, events[1..], i);
      k := k + 1;
      RunPrefix(db, events, k);
      assert events[..k][1..] == events[1..][..k - 1] && events[..k + 1][1..] == events[1..][..k];
    }
  }

  lemma EarnedStays(db: Db, later: Db, i: Uuid, e: Event)
    requires i in db.reports && i in db.investigations && db.investigations[i].status.Succeeded?
    requires Preserves(db, later) && Earned(db, i, e)
    ensures i in later.reports && i in later.investigations && Earned(later, i, e)
  {
    hide Analyse;
  }

  /** No two steps of a run store the same report. */
  lemma StoredOnce(db: Db, events: seq<Event>, k: nat, m: nat, i: Uuid)
    requires Inv(db) && AdmissibleRun(db, events) && k < |events| && m < |events|
    requires Stores(db, events, k, i) && Stores(db, events, m, i)
    ensures k == m
  {
    hide Inv, Next, Takes, Admissible, Run, AdmissibleRun;
    if k < m {
      StoredStays(db, events, k, m, i);
    } else if m < k {
      StoredStays(db, events, m, k, i);
    }
  }

  lemma StoredStays(db: Db, events: seq<Event>, k: nat, m: nat, i: Uuid)
    requires Inv(db) && AdmissibleRun(db, events) && k < m < |events|
    requires Stores(db, events, k, i)
    ensures !Stores(db, events, m, i)
  {
    hide Inv, Next, Takes, Admissible, Run, AdmissibleRun;
    RunPrefix(db, events, k);
    RunPrefix(db, events, m);
    var early, between := events[..k + 1], events[k + 1..m];
    assert early + between == events[..m];
    RunConcat(db, early, between);
    RunKeepsInv(db, early);
    HistoryIsImmutable(Run(db, early), between);
  }

  // ----- who asked -----

  /** The event at `m` opened investigation `i`. */
  ghost predicate Opens(db: Db, events: seq<Event>, m: nat, i: Uuid)
    requires AdmissibleRun(db, events) && m < |events|
  {
    RunPrefix(db, events, m);
    && events[m].Open? && events[m].id == i
    && i !in Run(db, events[..m]).investigations && i in Run(db, events[..m + 1]).investigations
  }

  /** The investigation is about what the command asked for. */
  predicate Asked(inv: Investigation, cmd: Command) {
    inv.context == cmd.context && inv.window == cmd.window && inv.idempotencyKey == cmd.idempotencyKey
  }

  lemma NewInvestigationWasAsked(db: Db, e: Event, i: Uuid)
    requires Inv(db) && Admissible(db, e) && i in Next(db, e).investigations && i !in db.investigations
    ensures e.Open? && e.id == i && Asked(Next(db, e).investigations[i], e.cmd)
  {
    hide Inv, RunOnce, Execute, Outcome, Ready;
    match e
    case Work(w, turn) =>
      TurnEffect(db, w, turn);
      var choice := ClaimChoice(db.jobs, turn.now);
      if choice.Some? {
        QueuedIsReady(db, choice.value);
        OutcomeKeepsInvestigations(db, choice.value, w, turn);
      }
    case Open(cmd, id, jobId, now, maxAttempts) =>
      InvIsKeyed(db);
      OpenEffect(db, cmd, id, jobId, now, maxAttempts);
    case Abandon(_) =>
    case Read(_, _) =>
  }

  lemma OutcomeKeepsInvestigations(db: Db, j: Uuid, w: Worker, turn: Turn)
    requires Ready(db, j) && w.Valid() && turn.Valid()
    ensures Outcome(db, db.jobs[j], w, turn).investigations.Keys == db.investigations.Keys
  {
    hide Analyse, Outcome, SettlementOf, AttemptTaken, Worker.Valid, Turn.Valid;
    OutcomeIsSettled(db, db.jobs[j], w, turn);
  }

  /** Every investigation of a run was opened by one of its events, and is about exactly what that event asked for. */
  lemma {:induction false} InvestigationsWereAsked(db: Db, events: seq<Event>, i: Uuid) returns (m: nat)
    requires Inv(db) && AdmissibleRun(db, events) && i in Run(db, events).investigations && i !in db.investigations
    ensures m < |events| && Opens(db, events, m, i) && Asked(Run(db, events).investigations[i], events[m].cmd)
    decreases |events|
  {
    hide Inv, Next, Admissible;
    var next := Next(db, events[0]);
    NextKeepsInv(db, events[0]);
    if i in next.investigations {
      NewInvestigationWasAsked(db, events[0], i);
      HistoryIsImmutable(next, events[1..]);
      m := 0;
      RunPrefix(db, events, 0);
      assert events[..0] == [];
    } else {
      m := InvestigationsWereAsked(next, events[1..], i);
      m := m + 1;
      RunPrefix(db, events, m);
      assert events[..m][1..] == events[1..][..m - 1] && events[..m + 1][1..] == events[1..][..m];
    }
  }

  // ----- what a stored report says -----

  /** An analysis that concluded had a well-formed context and window to compile under. */
  lemma ConcludedIsWellFormed(inv: Investigation, policy: Policy, turn: Turn)
    requires policy.Valid() && turn.Valid() && Analyse(inv, policy, turn).Conclusion?
    ensures inv.context.Valid() && inv.window.Valid()
  {
    hide Judged, Rank, Ledger.Compile, ParseProposal, AllowedSignals;
    Ledger.CompileAcceptsExactly(inv.context, inv.window, Rank(inv.window, turn.telemetry.inputs, policy).value);
  }

  /**
   * The report of `i` and its stored rows say what the raw points of the turn say, in the context and window of the
   * command: every predicate's verdict, reason, direction and citation, the composed verdict, one row per signal, and
   * the ranking.
   */
  ghost predicate SaysWhatPointsSay(db: Db, i: Uuid, cmd: Command, policy: Policy, turn: Turn, rows: seq<Evidence>)
    requires policy.Valid() && turn.Valid() && i in db.reports
  {
    && Concludes(turn) && Rank(cmd.window, turn.telemetry.inputs, policy).Success?
    && var inputs, report := turn.telemetry.inputs, db.reports[i];
    && var h, baseline := ParseProposal(turn.llm.raw, Observed(inputs)).value, Rank(cmd.window, inputs, policy).value;
    && report.investigation == i && report.tenant == cmd.context.tenant && report.run == cmd.context.run
    && AllStored(db, rows) && RowsSay(rows, i, cmd.context, baseline.evaluations, policy)
    && PayloadSays(report.payload, rows, cmd.context, cmd.window, inputs, policy, h)
    && BaselinePayloadOf(baseline) == Some(report.baseline)
  }

  /** The event at `m` asked for the report of `i`, and the turn at `k` stored it as its points say. */
  ghost predicate Accounted(events: seq<Event>, i: Uuid, m: nat, k: nat)
    requires AdmissibleRun(EMPTY_DB, events) && i in Run(EMPTY_DB, events).reports
  {
    && m < |events| && k < |events| && Opens(EMPTY_DB, events, m, i) && Stores(EMPTY_DB, events, k, i)
    && events[k].Work? && events[k].worker.Valid() && events[k].turn.Valid()
    && exists rows ::
         SaysWhatPointsSay(Run(EMPTY_DB, events), i, events[m].cmd, events[k].worker.policy, events[k].turn, rows)
  }

  lemma EarnedSays(db: Db, i: Uuid, cmd: Command, e: Event) returns (rows: seq<Evidence>)
    requires i in db.reports && i in db.investigations && Earned(db, i, e) && Asked(db.investigations[i], cmd)
    requires db.investigations[i].id == i
    ensures SaysWhatPointsSay(db, i, cmd, e.worker.policy, e.turn, rows)
  {
    hide Analyse, Concludes, PayloadSays, RowsSay, AllStored, Rank, ParseProposal, Observed, BaselinePayloadOf,
         Ledger.Compilable;
    var inv, w, turn := db.investigations[i], e.worker, e.turn;
    ConcludedIsWellFormed(inv, w.policy, turn);
    AnalysisOutcome(inv, w.policy, turn);
    ReportSaysPoints(inv, w.policy, turn);
    rows := Analyse(inv, w.policy, turn).rows;
  }

  /**
   * In every reachable state, every stored report was asked for by an opening of the run and stored by a turn of it
   * that claimed the job of that investigation; and it says, in full, what that turn's raw telemetry says in the
   * context and window that were asked for.
   */
  lemma EveryReportSaysWhatPointsSay(events: seq<Event>, i: Uuid)
    requires AdmissibleRun(EMPTY_DB, events) && i in Run(EMPTY_DB, events).reports
    ensures exists m, k :: Accounted(events, i, m, k)
  {
    hide Inv, Next, Run, AdmissibleRun, Analyse, Stores, Admissible, Earned, SaysWhatPointsSay, Asked;
    EmptyKeepsInv();
    var k := ReportsAreEarned(EMPTY_DB, events, i);
    var m := InvestigationsWereAsked(EMPTY_DB, events, i);
    EveryReachableState(events);
    InvIsKeyed(Run(EMPTY_DB, events));
    EarnedIsWork(Run(EMPTY_DB, events), i, events[k]);
    var rows := EarnedSays(Run(EMPTY_DB, events), i, events[m].cmd, events[k]);
    assert Accounted(events, i, m, k);
  }

  /** Its citations: in support, exactly the rows of signals with a supported predicate; against, of refuted ones. */
  lemma StoredCitationsSayPoints(db: Db, i: Uuid, cmd: Command, policy: Policy, turn: Turn, rows: seq<Evidence>,
                                 id: EvidenceId)
    requires policy.Valid() && turn.Valid() && i in db.reports && SaysWhatPointsSay(db, i, cmd, policy, turn, rows)
    ensures var inputs, payload := turn.telemetry.inputs, db.reports[i].payload;
            var h := ParseProposal(turn.llm.raw, Observed(inputs)).value;
            && (id in payload.supporting <==>
                  exists n :: 0 <= n < |h.predicates| && IsRowOf(rows, h.predicates[n].key, id)
                    && PredicateFinding(cmd.context, cmd.window, inputs, policy, h, h.predicates[n]).verdict
                       == Verifier.Supported)
            && (id in payload.contradicting <==>
                  exists n :: 0 <= n < |h.predicates| && IsRowOf(rows, h.predicates[n].key, id)
                    && PredicateFinding(cmd.context, cmd.window, inputs, policy, h, h.predicates[n]).verdict
                       == Verifier.Refuted)
  {
    hide Rank, ParseProposal, Observed, PayloadSays, RowsSay, PredicateFinding, IsRowOf, BaselinePayloadOf, AllStored;
    var inputs := turn.telemetry.inputs;
    RowsAscend(rows, i, cmd.context, cmd.window, inputs, policy);
    CitationsSayPoints(db.reports[i].payload, rows, cmd.context, cmd.window, inputs, policy,
                       ParseProposal(turn.llm.raw, Observed(inputs)).value, id);
  }

  lemma EarnedIsWork(db: Db, i: Uuid, e: Event)
    requires i in db.reports && i in db.investigations && Earned(db, i, e)
    ensures e.Work? && e.worker.Valid() && e.turn.Valid()
  {
  }

  // ----- when a turn publishes -----

  lemma OutcomePublishes(db: Db, j: Uuid, w: Worker, turn: Turn)
    requires Ready(db, j) && w.Valid() && turn.Valid()
    ensures var job := db.jobs[j];
            var inv := db.investigations[job.investigation];
            ReadReport(Outcome(db, job, w, turn), job.tenant, job.investigation)
            == if Analyse(inv, w.policy, turn).Conclusion? then Success(Analyse(inv, w.policy, turn).report)
               else Failure(ReportNotReady)
  {
    hide Analyse, Appended, AttemptTaken, Turn.Valid, NonBlank;
    var inv := db.investigations[db.jobs[j].investigation];
    if Analyse(inv, w.policy, turn).Conclusion? {
      ConclusionShape(inv, w.policy, turn);
    }
  }

  /**
   * The tenant can read a report right after the turn that claimed its investigation if and only if
   * telemetry was readable and the proposal parses over the observed signals.
   */
  lemma TurnPublishesIffConcludes(db: Db, j: Uuid, w: Worker, turn: Turn)
    requires Inv(db) && w.Valid() && turn.Valid() && ClaimChoice(db.jobs, turn.now) == Some(j)
    ensures ReadReport(RunOnce(db, w, turn).0, db.jobs[j].tenant, db.jobs[j].investigation).Success?
      <==> Concludes(turn)
  {
    hide Core, Reported, Grounded, RunOnce, Outcome, Analyse, Concludes, ReadReport, AttemptTaken;
    TurnEffect(db, w, turn);
    QueuedIsReady(db, j);
    OutcomePublishes(db, j, w, turn);
    assert HeaderFormed(db.investigations[db.jobs[j].investigation]);
    AnalysisOutcome(db.investigations[db.jobs[j].investigation], w.policy, turn);
  }

  /** Every valid document about observed signals is such a proposal, when the model writes it down faithfully. */
  lemma FaithfulProposalConcludes(turn: Turn, h: Hypothesis)
    requires Ranks(turn) && h.Valid() && turn.llm == Proposed(Decoded(DocumentJson(h)))
    requires forall i :: 0 <= i < |h.predicates| ==> h.predicates[i].key in Observed(turn.telemetry.inputs)
    ensures Concludes(turn)
  {
    hide Hypothesis.Valid, ParseProposal, DocumentJson, Observed;
    ProposalRoundTrip(h, Observed(turn.telemetry.inputs));
  }
}
