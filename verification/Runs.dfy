/** Whole runs of the service: what holds in every reachable state and along every history. */
module Runs {
  import opened Prelude
  import opened Text
  import opened Domain
  import opened Serialization
  import opened Records
  import opened Tables
  import opened Application
  import opened Lifecycle
  import Schedules

  /** One interaction with the service: committed, abandoned after any repository calls, or reading. */
  datatype Event =
    | Open(cmd: Command, id: Uuid, jobId: Uuid, now: Instant, maxAttempts: int)
    | Work(worker: Worker, turn: Turn)
    | Abandon(calls: seq<Schedules.Operation>)
    | Read(tenant: string, investigation: Uuid)

  /** Identifiers of new investigations and attempts are fresh; commands, workers and telemetry are well formed. */
  ghost predicate Admissible(db: Db, e: Event) {
    match e
    case Open(cmd, id, _, _, _) => cmd.context.Valid() && cmd.window.Valid() && id !in db.investigations
    case Work(w, turn) => w.Valid() && turn.Valid() && turn.attemptId !in db.attempts
    case Abandon(_) => true
    case Read(_, _) => true
  }

  ghost function Next(db: Db, e: Event): Db
    requires Admissible(db, e)
  {
    match e
    case Open(cmd, id, jobId, now, maxAttempts) => Execute(db, cmd, id, jobId, now, maxAttempts).0
    case Work(w, turn) => RunOnce(db, w, turn).0
    case Abandon(_) => db
    case Read(_, _) => db
  }

  ghost predicate AdmissibleRun(db: Db, events: seq<Event>)
    decreases |events|
  {
    events == [] || (Admissible(db, events[0]) && AdmissibleRun(Next(db, events[0]), events[1..]))
  }

  ghost function Run(db: Db, events: seq<Event>): Db
    requires AdmissibleRun(db, events)
    decreases |events|
  {
    if events == [] then db else Run(Next(db, events[0]), events[1..])
  }

  // ----- opening -----

  /** The database after an opening: a pending investigation as asked for, its queued job, due at once, and audit. */
  function Opened(db: Db, cmd: Command, id: Uuid, jobId: Uuid, now: Instant, maxAttempts: int): Db {
    db.(investigations :=
          db.investigations[id := Investigation(id, cmd.context, cmd.window, Pending, cmd.idempotencyKey)],
        jobs := db.jobs[jobId := Job(jobId, id, cmd.context.tenant, Queued, now, None, None, None, 0, maxAttempts)],
        audit := db.audit + [Audit(cmd.context.tenant, id, "control-plane", "investigation.created", None)])
  }

  /** Opening replays, fails without a trace, or adds one investigation with one queued job. */
  lemma OpenEffect(db: Db, cmd: Command, id: Uuid, jobId: Uuid, now: Instant, maxAttempts: int)
    requires WellKeyed(db) && id !in db.investigations
    ensures var r := Execute(db, cmd, id, jobId, now, maxAttempts);
            var existing := ByKey(db, cmd.context.tenant, cmd.idempotencyKey);
            var blank := cmd.idempotencyKey.Some? && !NonBlank(cmd.idempotencyKey.value);
            && (r.1.Failure? ==> r.0 == db)
            && (r.1.Failure? <==> blank || (existing.None? && (maxAttempts < 1 || jobId in db.jobs)))
            && (r.1.Success? && existing.Some? ==> r.0 == db && r.1.value == existing.value.id)
            && (r.1.Success? && existing.None? ==>
                  r.0 == Opened(db, cmd, id, jobId, now, maxAttempts) && r.1.value == id && jobId !in db.jobs)
  {
  }

  lemma OpenedCore(db: Db, cmd: Command, id: Uuid, jobId: Uuid, now: Instant, maxAttempts: int)
    requires Core(db) && id !in db.investigations && jobId !in db.jobs
    requires ByKey(db, cmd.context.tenant, cmd.idempotencyKey).None?
    ensures Core(Opened(db, cmd, id, jobId, now, maxAttempts))
  {
    hide WellKeyed, Linked, OneJobEach, StatusesAgree, Numbered, ByKey;
    OpenedWellKeyed(db, cmd, id, jobId, now, maxAttempts);
    OpenedLinks(db, cmd, id, jobId, now, maxAttempts);
    OpenedOneJob(db, cmd, id, jobId, now, maxAttempts);
    OpenedNumbered(db, cmd, id, jobId, now, maxAttempts);
  }

  lemma OpenedWellKeyed(db: Db, cmd: Command, id: Uuid, jobId: Uuid, now: Instant, maxAttempts: int)
    requires WellKeyed(db) && id !in db.investigations && jobId !in db.jobs
    requires ByKey(db, cmd.context.tenant, cmd.idempotencyKey).None?
    ensures WellKeyed(Opened(db, cmd, id, jobId, now, maxAttempts))
  {
    hide HasKey, SameKey, ByKey;
    CreateKeepsKeys(db, NewInvestigation(cmd, id));
  }

  lemma OpenedLinks(db: Db, cmd: Command, id: Uuid, jobId: Uuid, now: Instant, maxAttempts: int)
    requires Linked(db) && StatusesAgree(db) && id !in db.investigations && jobId !in db.jobs
    ensures var next := Opened(db, cmd, id, jobId, now, maxAttempts); Linked(next) && StatusesAgree(next)
  {
  }

  lemma OpenedOneJob(db: Db, cmd: Command, id: Uuid, jobId: Uuid, now: Instant, maxAttempts: int)
    requires Linked(db) && OneJobEach(db) && id !in db.investigations && jobId !in db.jobs
    ensures OneJobEach(Opened(db, cmd, id, jobId, now, maxAttempts))
  {
    var next := Opened(db, cmd, id, jobId, now, maxAttempts);
    forall i | i in next.investigations
      ensures HasJob(next, i)
    {
      if i == id {
        assert next.jobs[jobId].investigation == i;
      } else {
        assert HasJob(db, i);
        var k :| k in db.jobs && db.jobs[k].investigation == i;
        assert k in next.jobs && next.jobs[k].investigation == i;
      }
    }
  }

  lemma OpenedNumbered(db: Db, cmd: Command, id: Uuid, jobId: Uuid, now: Instant, maxAttempts: int)
    requires Numbered(db) && jobId !in db.jobs
    ensures Numbered(Opened(db, cmd, id, jobId, now, maxAttempts))
  {
    hide AttemptTaken;
  }

  lemma OpenKeepsInv(db: Db, cmd: Command, id: Uuid, jobId: Uuid, now: Instant, maxAttempts: int)
    requires Inv(db) && cmd.context.Valid() && cmd.window.Valid() && id !in db.investigations
    ensures Inv(Execute(db, cmd, id, jobId, now, maxAttempts).0)
  {
    hide Execute, Core, Reported, Grounded, Formed, Opened, NonBlank, Window.Valid;
    InvIsKeyed(db);
    OpenEffect(db, cmd, id, jobId, now, maxAttempts);
    var r := Execute(db, cmd, id, jobId, now, maxAttempts);
    if r.1.Success? && ByKey(db, cmd.context.tenant, cmd.idempotencyKey).None? {
      OpenedCore(db, cmd, id, jobId, now, maxAttempts);
      OpenedRest(db, cmd, id, jobId, now, maxAttempts);
    }
  }

  lemma OpenedRest(db: Db, cmd: Command, id: Uuid, jobId: Uuid, now: Instant, maxAttempts: int)
    requires Reported(db) && Grounded(db) && Formed(db) && cmd.context.Valid() && cmd.window.Valid()
    requires id !in db.investigations
    ensures var next := Opened(db, cmd, id, jobId, now, maxAttempts);
            Reported(next) && Grounded(next) && Formed(next)
  {
    hide RowAddressed, Cites, NonBlank;
  }

  lemma EmptyKeepsInv()
    ensures Inv(EMPTY_DB)
  {
  }

  lemma NextKeepsInv(db: Db, e: Event)
    requires Inv(db) && Admissible(db, e)
    ensures Inv(Next(db, e))
  {
    hide Inv, Execute, RunOnce;
    match e
    case Open(cmd, id, jobId, now, maxAttempts) => OpenKeepsInv(db, cmd, id, jobId, now, maxAttempts);
    case Work(w, turn) => TurnKeepsInv(db, w, turn);
    case Abandon(_) =>
    case Read(_, _) =>
  }

  lemma {:induction false} RunKeepsInv(db: Db, events: seq<Event>)
    requires Inv(db) && AdmissibleRun(db, events)
    ensures Inv(Run(db, events))
    decreases |events|
  {
    hide Inv, Next;
    if events != [] {
      NextKeepsInv(db, events[0]);
      RunKeepsInv(Next(db, events[0]), events[1..]);
    }
  }

  /** In every state any run reaches, the invariant holds. */
  lemma EveryReachableState(events: seq<Event>)
    requires AdmissibleRun(EMPTY_DB, events)
    ensures Inv(Run(EMPTY_DB, events))
  {
    EmptyKeepsInv();
    RunKeepsInv(EMPTY_DB, events);
  }

  // ----- prefixes of a run -----

  /** Every prefix of a run is a run, one event shorter than the next. */
  lemma {:induction false} RunPrefix(db: Db, events: seq<Event>, k: nat)
    requires AdmissibleRun(db, events) && k < |events|
    ensures AdmissibleRun(db, events[..k]) && AdmissibleRun(db, events[..k + 1])
    ensures Admissible(Run(db, events[..k]), events[k])
    ensures Run(db, events[..k + 1]) == Next(Run(db, events[..k]), events[k])
    decreases |events|
  {
    hide Admissible, Next;
    if k == 0 {
      assert events[..0] == [] && events[..1] == [events[0]];
      assert [events[0]][1..] == [];
    } else {
      RunPrefix(Next(db, events[0]), events[1..], k - 1);
      assert events[..k][1..] == events[1..][..k - 1] && events[..k + 1][1..] == events[1..][..k];
    }
  }

  /** A run goes on with any event that its last state admits. */
  lemma {:induction false} RunAppend(db: Db, events: seq<Event>, e: Event)
    requires AdmissibleRun(db, events) && Admissible(Run(db, events), e)
    ensures AdmissibleRun(db, events + [e]) && Run(db, events + [e]) == Next(Run(db, events), e)
    decreases |events|
  {
    hide Admissible, Next;
    if events == [] {
      assert events + [e] == [e] && [e][1..] == [];
    } else {
      assert (events + [e])[0] == events[0] && (events + [e])[1..] == events[1..] + [e];
      RunAppend(Next(db, events[0]), events[1..], e);
    }
  }

  /** Running one sequence of events after another is running them together. */
  lemma {:induction false} RunConcat(db: Db, a: seq<Event>, b: seq<Event>)
    requires AdmissibleRun(db, a + b)
    ensures AdmissibleRun(db, a) && AdmissibleRun(Run(db, a), b)
    ensures Run(db, a + b) == Run(Run(db, a), b)
    decreases |a|
  {
    hide Admissible, Next;
    if a == [] {
      assert a + b == b;
    } else {
      assert (a + b)[0] == a[0] && (a + b)[1..] == a[1..] + b;
      RunConcat(Next(db, a[0]), a[1..], b);
    }
  }

  /** In every reachable state a turn finishes: no exception escapes the worker. */
  lemma NothingEscapes(events: seq<Event>, w: Worker, turn: Turn)
    requires AdmissibleRun(EMPTY_DB, events) && w.Valid() && turn.Valid()
    ensures !RunOnce(Run(EMPTY_DB, events), w, turn).1.Escaped?
  {
    hide Inv, RunOnce, Outcome;
    EveryReachableState(events);
    TurnEffect(Run(EMPTY_DB, events), w, turn);
  }

  // ----- reading -----

  /** In every reachable state a tenant reads a report exactly of its own succeeded investigations. */
  lemma ReportsAreReadable(events: seq<Event>, tenant: string, id: Uuid)
    requires AdmissibleRun(EMPTY_DB, events)
    ensures var db := Run(EMPTY_DB, events);
            var own := id in db.investigations && db.investigations[id].context.tenant == tenant;
            && (ReadReport(db, tenant, id) == Failure(InvestigationNotFound) <==> !own)
            && (ReadReport(db, tenant, id) == Failure(ReportNotReady)
                <==> own && !db.investigations[id].status.Succeeded?)
            && (ReadReport(db, tenant, id).Success? <==> own && db.investigations[id].status.Succeeded?)
            && (ReadStatus(db, tenant, id) == Failure(InvestigationNotFound) <==> !own)
            && (ReadReport(db, tenant, id).Success?
                <==> ReadStatus(db, tenant, id).Success? && ReadStatus(db, tenant, id).value.status.Succeeded?)
  {
    hide Core, Grounded;
    EveryReachableState(events);
  }

  /**
   * What a tenant reads is the stored record itself, and its status tells the job: PENDING is a queued job without an
   * attempt, RUNNING a queued one with some, SUCCEEDED and FAILED a job that ended so.
   */
  lemma StatusIsTheRecord(events: seq<Event>, tenant: string, id: Uuid) returns (j: Uuid)
    requires AdmissibleRun(EMPTY_DB, events) && id in Run(EMPTY_DB, events).investigations
    requires Run(EMPTY_DB, events).investigations[id].context.tenant == tenant
    ensures var db := Run(EMPTY_DB, events);
            && ReadStatus(db, tenant, id) == Success(db.investigations[id])
            && (ReadReport(db, tenant, id).Success? ==>
                  id in db.reports && ReadReport(db, tenant, id) == Success(db.reports[id]))
            && j in db.jobs && db.jobs[j].investigation == id && db.jobs[j].tenant == tenant
            && var status, job := ReadStatus(db, tenant, id).value.status, db.jobs[j];
            && (status == Pending <==> job.status == Queued && job.attemptCount == 0)
            && (status == Running <==> job.status == Queued && job.attemptCount > 0)
            && (status == Succeeded <==> job.status == JobSucceeded)
            && (status == Failed <==> job.status == JobFailed)
  {
    hide WellKeyed, Numbered, Reported, Grounded, Formed;
    EveryReachableState(events);
    var db := Run(EMPTY_DB, events);
    assert HasJob(db, id);
    j :| j in db.jobs && db.jobs[j].investigation == id;
    assert Agree(db.investigations[id].status, db.jobs[j]);
  }

  // ----- nothing that was published changes -----

  /** Published rows survive, finished investigations stay as they are, and none changes owner. */
  ghost predicate Preserves(db: Db, later: Db) {
    && (forall i :: i in db.reports ==> i in later.reports && later.reports[i] == db.reports[i])
    && (forall k :: k in db.evidence ==> k in later.evidence && later.evidence[k] == db.evidence[k])
    && db.audit <= later.audit
    && (forall i :: i in db.investigations ==>
          && i in later.investigations && SameIdentity(db.investigations[i], later.investigations[i])
          && (Finished(db.investigations[i]) ==> later.investigations[i] == db.investigations[i]))
  }

  predicate Finished(inv: Investigation) {
    inv.status.Succeeded? || inv.status.Failed?
  }

  lemma QueuedIsOpen(db: Db, j: Uuid)
    requires Inv(db) && j in db.jobs && db.jobs[j].status.Queued?
    ensures db.jobs[j].investigation in db.investigations && !Finished(db.investigations[db.jobs[j].investigation])
  {
    hide Numbered, OneJobEach, WellKeyed, Reported, Grounded;
    assert Agree(db.investigations[db.jobs[j].investigation].status, db.jobs[j]);
  }

  predicate SameIdentity(a: Investigation, b: Investigation) {
    a.id == b.id && a.context == b.context && a.window == b.window && a.idempotencyKey == b.idempotencyKey
  }

  lemma OutcomePreserves(db: Db, j: Uuid, w: Worker, turn: Turn)
    requires Ready(db, j) && w.Valid() && turn.Valid() && !Finished(db.investigations[db.jobs[j].investigation])
    ensures Preserves(db, Outcome(db, db.jobs[j], w, turn))
  {
    hide Analyse, Outcome, SettlementOf, AttemptTaken, Worker.Valid, Turn.Valid, ClaimedRow;
    OutcomeIsSettled(db, db.jobs[j], w, turn);
    OutcomePublishesOnly(db, j, w, turn);
  }

  /** Of what was published, an outcome only ever adds. */
  lemma OutcomePublishesOnly(db: Db, j: Uuid, w: Worker, turn: Turn)
    requires Ready(db, j) && w.Valid() && turn.Valid()
    ensures var next := Outcome(db, db.jobs[j], w, turn);
            && (forall i :: i in db.reports ==> i in next.reports && next.reports[i] == db.reports[i])
            && (forall k :: k in db.evidence ==> k in next.evidence && next.evidence[k] == db.evidence[k])
            && db.audit <= next.audit
  {
    hide Analyse, Appended, AttemptTaken, NonBlank, Turn.Valid, ClaimedRow;
    var job := db.jobs[j];
    match Analyse(db.investigations[job.investigation], w.policy, turn)
    case Conclusion(rows, report) => AppendedKeepsRows(db.evidence, rows);
    case TerminalFailure(code) =>
    case Crash =>
    case RetryableFailure(code) =>
  }

  lemma TurnPreserves(db: Db, w: Worker, turn: Turn)
    requires Inv(db) && w.Valid() && turn.Valid()
    ensures Preserves(db, RunOnce(db, w, turn).0)
  {
    hide Inv, RunOnce, Outcome, Ready, Finished;
    TurnEffect(db, w, turn);
    var choice := ClaimChoice(db.jobs, turn.now);
    if choice.Some? {
      QueuedIsReady(db, choice.value);
      QueuedIsOpen(db, choice.value);
      OutcomePreserves(db, choice.value, w, turn);
    }
  }

  lemma OpeningPreserves(db: Db, cmd: Command, id: Uuid, jobId: Uuid, now: Instant, maxAttempts: int)
    requires WellKeyed(db) && id !in db.investigations
    ensures Preserves(db, Execute(db, cmd, id, jobId, now, maxAttempts).0)
  {
    hide Execute, WellKeyed, ByKey, NonBlank;
    OpenEffect(db, cmd, id, jobId, now, maxAttempts);
  }

  lemma NextPreserves(db: Db, e: Event)
    requires Inv(db) && Admissible(db, e)
    ensures Preserves(db, Next(db, e))
  {
    hide Execute, RunOnce, Inv, WellKeyed;
    match e
    case Open(cmd, id, jobId, now, maxAttempts) =>
      InvIsKeyed(db);
      OpeningPreserves(db, cmd, id, jobId, now, maxAttempts);
    case Work(w, turn) => TurnPreserves(db, w, turn);
    case Abandon(_) =>
    case Read(_, _) =>
  }

  lemma InvIsKeyed(db: Db)
    requires Inv(db)
    ensures WellKeyed(db)
  {
  }

  /** No later step changes a stored report, an evidence row, or who an investigation belongs to. */
  lemma {:induction false} HistoryIsImmutable(db: Db, events: seq<Event>)
    requires Inv(db) && AdmissibleRun(db, events)
    ensures Preserves(db, Run(db, events))
    decreases |events|
  {
    hide Inv, Next;
    if events != [] {
      var mid := Next(db, events[0]);
      NextKeepsInv(db, events[0]);
      NextPreserves(db, events[0]);
      HistoryIsImmutable(mid, events[1..]);
      PreservesIsTransitive(db, mid, Run(db, events));
    }
  }

  lemma PreservesIsTransitive(a: Db, b: Db, c: Db)
    requires Preserves(a, b) && Preserves(b, c)
    ensures Preserves(a, c)
  {
  }

  // ----- grounding -----

  /**
   * In every reachable state, each identifier a report cites is stored under the report's own
   * tenant and run, with the payload that identifier addresses, whoever stored it first; and
   * it stays so along every further run.
   */
  lemma CitationsStayGrounded(events: seq<Event>, further: seq<Event>, i: Uuid, id: EvidenceId)
    requires AdmissibleRun(EMPTY_DB, events) && AdmissibleRun(Run(EMPTY_DB, events), further)
    requires i in Run(EMPTY_DB, events).reports && Cites(Run(EMPTY_DB, events).reports[i], id)
    ensures id.MetricDigest?
    ensures var report, later := Run(EMPTY_DB, events).reports[i], Run(Run(EMPTY_DB, events), further);
            var key := EvidenceKey(report.tenant, report.run, id);
            && i in later.reports && later.reports[i] == report
            && key in later.evidence && later.evidence[key].payload == Addressed(id)
  {
    hide Core, Reported, Cites;
    EveryReachableState(events);
    HistoryIsImmutable(Run(EMPTY_DB, events), further);
    var db, report := Run(EMPTY_DB, events), Run(EMPTY_DB, events).reports[i];
    var key := EvidenceKey(report.tenant, report.run, id);
    assert RowAddressed(key, db.evidence[key]);
  }

  // ----- idempotency -----

  /** Whenever a keyed opening succeeded, every replay ever after returns the same id and changes nothing. */
  lemma ReplayReturnsTheSame(db: Db, cmd: Command, id: Uuid, jobId: Uuid, now: Instant, maxAttempts: int,
                             further: seq<Event>, replay: Command, id': Uuid, jobId': Uuid, now': Instant,
                             maxAttempts': int)
    requires Inv(db) && Admissible(db, Open(cmd, id, jobId, now, maxAttempts)) && cmd.idempotencyKey.Some?
    requires Execute(db, cmd, id, jobId, now, maxAttempts).1.Success?
    requires AdmissibleRun(Execute(db, cmd, id, jobId, now, maxAttempts).0, further)
    requires replay.context.tenant == cmd.context.tenant && replay.idempotencyKey == cmd.idempotencyKey
    requires id' !in Run(Execute(db, cmd, id, jobId, now, maxAttempts).0, further).investigations
    ensures var first := Execute(db, cmd, id, jobId, now, maxAttempts);
            var later := Run(first.0, further);
            Execute(later, replay, id', jobId', now', maxAttempts') == (later, first.1)
  {
    hide Core, Reported, Grounded, Formed, Execute, HasKey;
    InvIsKeyed(db);
    var first := Execute(db, cmd, id, jobId, now, maxAttempts);
    OpenKeepsInv(db, cmd, id, jobId, now, maxAttempts);
    OpenStoresKey(db, cmd, id, jobId, now, maxAttempts);
    var later := Run(first.0, further);
    RunKeepsInv(first.0, further);
    HistoryIsImmutable(first.0, further);
    InvIsKeyed(later);
    var owner := first.1.value;
    KeyIsKept(first.0.investigations[owner], later.investigations[owner], replay);
    ReplayEffect(later, owner, replay, id', jobId', now', maxAttempts');
  }

  lemma OpenStoresKey(db: Db, cmd: Command, id: Uuid, jobId: Uuid, now: Instant, maxAttempts: int)
    requires WellKeyed(db) && id !in db.investigations && cmd.idempotencyKey.Some?
    requires Execute(db, cmd, id, jobId, now, maxAttempts).1.Success?
    ensures var r := Execute(db, cmd, id, jobId, now, maxAttempts);
            && r.1.value in r.0.investigations && NonBlank(cmd.idempotencyKey.value)
            && HasKey(r.0.investigations[r.1.value], cmd.context.tenant, cmd.idempotencyKey)
  {
    OpenEffect(db, cmd, id, jobId, now, maxAttempts);
  }

  lemma KeyIsKept(a: Investigation, b: Investigation, cmd: Command)
    requires SameIdentity(a, b) && HasKey(a, cmd.context.tenant, cmd.idempotencyKey)
    ensures HasKey(b, cmd.context.tenant, cmd.idempotencyKey)
  {
  }

  lemma ReplayEffect(db: Db, owner: Uuid, cmd: Command, id: Uuid, jobId: Uuid, now: Instant, maxAttempts: int)
    requires WellKeyed(db) && id !in db.investigations && owner in db.investigations
    requires HasKey(db.investigations[owner], cmd.context.tenant, cmd.idempotencyKey)
    requires NonBlank(cmd.idempotencyKey.value)
    ensures Execute(db, cmd, id, jobId, now, maxAttempts) == (db, Success(owner))
  {
    var existing := ByKey(db, cmd.context.tenant, cmd.idempotencyKey);
    var i :| i in db.investigations && db.investigations[i] == existing.value
             && HasKey(existing.value, cmd.context.tenant, cmd.idempotencyKey);
    assert SameKey(db.investigations[i], db.investigations[owner]);
  }
}
