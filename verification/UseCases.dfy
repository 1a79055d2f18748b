/** The use cases and the worker turn as they run: calls on repositories inside one unit of work. */
module UseCases {
  import opened Prelude
  import opened Text
  import opened Records
  import opened Tables
  import opened Application
  import opened Store

  // ----- repository calls, seen from the unit of work -----

  method MarkInvestigation(uow: UnitOfWork, tenant: string, id: Uuid, status: InvestigationStatus)
    returns (r: Result<(), PersistenceError>)
    requires uow.Valid()
    modifies uow.working.Containers()
    ensures uow.Valid() && uow.working == old(uow.working) && uow.working.Containers() == old(uow.working.Containers())
    ensures var spec := SetInvestigationStatus(old(uow.working.Contents()), tenant, id, status);
            if spec.Success? then r.Success? && uow.working.Contents() == spec.value
            else r.Failure? && uow.working.Contents() == old(uow.working.Contents())
  {
    hide WellKeyed;
    r := uow.investigations.SetStatus(tenant, id, status);
  }

  method MarkJob(uow: UnitOfWork, tenant: string, id: Uuid, status: JobStatus) returns (r: Result<(), PersistenceError>)
    requires uow.Valid()
    modifies uow.working.Containers()
    ensures uow.Valid() && uow.working == old(uow.working) && uow.working.Containers() == old(uow.working.Containers())
    ensures var spec := SetJobStatus(old(uow.working.Contents()), tenant, id, status);
            if spec.Success? then r.Success? && uow.working.Contents() == spec.value
            else r.Failure? && uow.working.Contents() == old(uow.working.Contents())
  {
    hide WellKeyed;
    r := uow.jobs.SetStatus(tenant, id, status);
  }

  method RecordAttemptFor(uow: UnitOfWork, c: ClaimedJob, w: Worker, turn: Turn, outcome: AttemptOutcome,
                          code: Option<string>)
    returns (r: Result<(), PersistenceError>)
    requires uow.Valid()
    modifies uow.working.Containers()
    ensures uow.Valid() && uow.working == old(uow.working) && uow.working.Containers() == old(uow.working.Containers())
    ensures var spec := RecordAttempt(old(uow.working.Contents()), AttemptOf(c, w, turn, outcome, code));
            if spec.Success? then r.Success? && uow.working.Contents() == spec.value
            else r.Failure? && uow.working.Contents() == old(uow.working.Contents())
  {
    hide AttemptTaken;
    r := uow.attempts.Record(Attempt(turn.attemptId, c.job, c.tenant, c.attemptCount, w.id, outcome, code));
  }

  method StoreReport(uow: UnitOfWork, row: Report) returns (r: Result<(), PersistenceError>)
    requires uow.Valid()
    modifies uow.working.Containers()
    ensures uow.Valid() && uow.working == old(uow.working) && uow.working.Containers() == old(uow.working.Containers())
    ensures var spec := PutReport(old(uow.working.Contents()), row);
            if spec.Success? then r.Success? && uow.working.Contents() == spec.value
            else r.Failure? && uow.working.Contents() == old(uow.working.Contents())
  {
    hide AttemptTaken;
    r := uow.reports.Put(row);
  }

  method EnqueueJob(uow: UnitOfWork, row: Job) returns (r: Result<(), PersistenceError>)
    requires uow.Valid()
    modifies uow.working.Containers()
    ensures uow.Valid() && uow.working == old(uow.working) && uow.working.Containers() == old(uow.working.Containers())
    ensures var spec := Tables.Enqueue(old(uow.working.Contents()), row);
            if spec.Success? then r.Success? && uow.working.Contents() == spec.value
            else r.Failure? && uow.working.Contents() == old(uow.working.Contents())
  {
    hide WellKeyed;
    r := uow.jobs.Enqueue(row);
  }

  method StoreEvidence(uow: UnitOfWork, rows: seq<Evidence>)
    requires uow.Valid()
    modifies uow.working.Containers()
    ensures uow.Valid() && uow.working == old(uow.working) && uow.working.Containers() == old(uow.working.Containers())
    ensures uow.working.Contents() == AppendEvidence(old(uow.working.Contents()), rows)
  {
    hide WellKeyed, Appended;
    uow.evidence.Append(rows);
    assert WellKeyed(uow.working.Contents()) by { EvidenceKeepsKeys(old(uow.working.Contents()), rows); }
  }

  lemma EvidenceKeepsKeys(db: Db, rows: seq<Evidence>)
    requires WellKeyed(db)
    ensures WellKeyed(AppendEvidence(db, rows))
  {
  }

  method LogAudit(uow: UnitOfWork, row: Audit)
    requires uow.Valid()
    modifies uow.working.Containers()
    ensures uow.Valid() && uow.working == old(uow.working) && uow.working.Containers() == old(uow.working.Containers())
    ensures uow.working.Contents() == AppendAudit(old(uow.working.Contents()), row)
  {
    uow.audit.Record(row);
  }

  method ClaimNext(uow: UnitOfWork, w: Worker, now: Instant) returns (r: Result<Option<ClaimedJob>, PersistenceError>)
    requires uow.Valid()
    modifies uow.working.Containers()
    ensures uow.Valid() && uow.working == old(uow.working) && uow.working.Containers() == old(uow.working.Containers())
    ensures var spec := Claim(old(uow.working.Contents()), w.id, w.lease, now);
            if spec.Success? then r == Success(spec.value.1) && uow.working.Contents() == spec.value.0 else r.Failure?
  {
    hide WellKeyed, Tables.Claim;
    r := uow.jobs.Claim(w.id, w.lease, now);
  }

  /** Opens a unit of work and enters it. */
  method Begin(shared: Store, lock: Lock) returns (uow: UnitOfWork)
    requires !lock.held && WellKeyed(shared.Contents())
    modifies lock
    ensures fresh(uow) && uow.shared == shared && uow.lock == lock && lock.held && uow.Valid()
    ensures fresh(uow.working) && fresh(uow.working.Containers())
    ensures shared.Contents() == old(shared.Contents()) == uow.working.Contents()
  {
    hide WellKeyed;
    uow := new UnitOfWork(shared, lock);
    uow.Enter();
  }

  /** Leaves a unit of work, committed or abandoned. */
  method Finish(uow: UnitOfWork, commit: bool)
    requires uow.Valid()
    modifies uow, uow.shared, uow.lock
    ensures !uow.lock.held && WellKeyed(uow.shared.Contents())
    ensures uow.shared.Contents() == if commit then old(uow.working.Contents()) else old(uow.shared.Contents())
  {
    hide WellKeyed;
    if commit {
      uow.Commit();
    }
    uow.Exit();
  }

  // ----- the worker -----

  method TerminalFail(uow: UnitOfWork, c: ClaimedJob, w: Worker, turn: Turn, code: string)
    returns (r: Result<(), PersistenceError>)
    requires uow.Valid()
    modifies uow.working.Containers()
    ensures uow.Valid() && uow.working == old(uow.working) && uow.working.Containers() == old(uow.working.Containers())
    ensures var spec := Application.TerminalFail(old(uow.working.Contents()), c, w, turn, code);
            if spec.Success? then r.Success? && uow.working.Contents() == spec.value else r.Failure?
  {
    hide UnitOfWork.Valid, Store.Contents, SetInvestigationStatus, SetJobStatus, RecordAttempt, AppendAudit, WellKeyed;
    r := MarkInvestigation(uow, c.tenant, c.investigation, Failed);
    if r.Failure? {
      return;
    }
    r := MarkJob(uow, c.tenant, c.job, JobFailed);
    if r.Failure? {
      return;
    }
    r := RecordAttemptFor(uow, c, w, turn, AttemptFailed, Some(code));
    if r.Failure? {
      return;
    }
    LogAudit(uow, Audit(c.tenant, c.investigation, w.id, "investigation.failed", Some(code)));
  }

  method RetryOrFail(uow: UnitOfWork, c: ClaimedJob, w: Worker, turn: Turn, code: string)
    returns (r: Result<(), PersistenceError>)
    requires uow.Valid()
    modifies uow.working.Containers()
    ensures uow.Valid() && uow.working == old(uow.working) && uow.working.Containers() == old(uow.working.Containers())
    ensures var spec := Application.RetryOrFail(old(uow.working.Contents()), c, w, turn, code);
            if spec.Success? then r.Success? && uow.working.Contents() == spec.value else r.Failure?
  {
    hide UnitOfWork.Valid, Store.Contents, Application.TerminalFail, SetJobStatus, RecordAttempt, WellKeyed;
    if c.attemptCount >= w.maxAttempts {
      r := TerminalFail(uow, c, w, turn, code);
      return;
    }
    r := MarkJob(uow, c.tenant, c.job, Queued);
    if r.Failure? {
      return;
    }
    r := RecordAttemptFor(uow, c, w, turn, AttemptFailed, Some(code));
  }

  method RunPipeline(uow: UnitOfWork, inv: Investigation, w: Worker, turn: Turn) returns (exit: PipelineExit)
    requires uow.Valid() && w.Valid() && turn.Valid()
    modifies uow.working.Containers()
    ensures uow.Valid() && uow.working == old(uow.working) && uow.working.Containers() == old(uow.working.Containers())
    ensures (uow.working.Contents(), exit) == Application.RunPipeline(old(uow.working.Contents()), inv, w, turn)
  {
    hide UnitOfWork.Valid, Store.Contents, Analyse, SetInvestigationStatus, AppendEvidence, PutReport, AppendAudit,
         WellKeyed;
    match Analyse(inv, w.policy, turn) {
      case TerminalFailure(code) => return Terminal(code);
      case RetryableFailure(code) => return Retryable(code);
      case Crash => return Untyped;
      case Conclusion(rows, report) =>
        StoreEvidence(uow, rows);
        var put := StoreReport(uow, report);
        if put.Failure? {
          return Untyped;
        }
        var marked := MarkInvestigation(uow, inv.context.tenant, inv.id, Succeeded);
        if marked.Failure? {
          return Untyped;
        }
        LogAudit(uow, Audit(inv.context.tenant, inv.id, w.id, "report.persisted", None));
        return Completed;
    }
  }

  /** The claimed investigation, from RUNNING to its recorded attempt. */
  method Process(uow: UnitOfWork, c: ClaimedJob, inv: Investigation, w: Worker, turn: Turn)
    returns (r: Result<(), PersistenceError>)
    requires uow.Valid() && w.Valid() && turn.Valid()
    modifies uow.working.Containers()
    ensures uow.Valid() && uow.working == old(uow.working) && uow.working.Containers() == old(uow.working.Containers())
    ensures var spec := Application.Process(old(uow.working.Contents()), c, inv, w, turn);
            if spec.Success? then r.Success? && uow.working.Contents() == spec.value else r.Failure?
  {
    hide UnitOfWork.Valid, Store.Contents, Application.TerminalFail, Application.RetryOrFail, Application.RunPipeline,
         SetInvestigationStatus, SetJobStatus, RecordAttempt, WellKeyed;
    r := MarkInvestigation(uow, c.tenant, c.investigation, Running);
    if r.Failure? {
      return;
    }
    var exit := RunPipeline(uow, inv, w, turn);
    match exit {
      case Terminal(code) => r := TerminalFail(uow, c, w, turn, code);
      case Retryable(code) => r := RetryOrFail(uow, c, w, turn, code);
      case Untyped => r := TerminalFail(uow, c, w, turn, "internal_error");
      case Completed =>
        r := MarkJob(uow, c.tenant, c.job, JobSucceeded);
        if r.Success? {
          r := RecordAttemptFor(uow, c, w, turn, AttemptSucceeded, None);
        }
    }
  }

  /** Claims and processes one job in a unit of work of its own. */
  method RunOnce(shared: Store, lock: Lock, w: Worker, turn: Turn) returns (r: RunResult)
    requires !lock.held && WellKeyed(shared.Contents()) && w.Valid() && turn.Valid()
    modifies lock, shared
    ensures !lock.held && WellKeyed(shared.Contents())
    ensures (shared.Contents(), r) == Application.RunOnce(old(shared.Contents()), w, turn)
  {
    hide UnitOfWork.Valid, Application.RunOnce, WellKeyed;
    var uow := Begin(shared, lock);
    var outcome := RunInside(uow, w, turn);
    Finish(uow, outcome.1);
    r := outcome.0;
  }

  /** The body of the transaction: what to report, and whether to commit. */
  method RunInside(uow: UnitOfWork, w: Worker, turn: Turn) returns (outcome: (RunResult, bool))
    requires uow.Valid() && w.Valid() && turn.Valid()
    modifies uow.working.Containers()
    ensures uow.Valid() && uow.working == old(uow.working) && uow.working.Containers() == old(uow.working.Containers())
    ensures var spec := Application.RunOnce(old(uow.working.Contents()), w, turn);
            && outcome.0 == spec.1 && outcome.1 == !spec.1.Escaped?
            && (outcome.1 ==> uow.working.Contents() == spec.0)
            && (!outcome.1 ==> spec.0 == old(uow.working.Contents()))
  {
    hide UnitOfWork.Valid, Store.Contents, Application.Process, Claim, SetJobStatus, WellKeyed;
    var ticket := ClaimNext(uow, w, turn.now);
    if ticket.Failure? {
      return (Escaped, false);
    }
    if ticket.value.None? {
      return (NoJob, true);
    }
    var c := ticket.value.value;
    var found := FindInvestigation(uow, c.tenant, c.investigation);
    var r: Result<(), PersistenceError>;
    if found.Failure? {
      r := MarkJob(uow, c.tenant, c.job, JobFailed);
    } else if found.value.status.Cancelled? {
      r := MarkJob(uow, c.tenant, c.job, JobCancelled);
    } else {
      r := Process(uow, c, found.value, w, turn);
    }
    return if r.Success? then (Processed, true) else (Escaped, false);
  }

  method FindInvestigation(uow: UnitOfWork, tenant: string, id: Uuid)
    returns (r: Result<Investigation, PersistenceError>)
    requires uow.Valid()
    ensures uow.Valid() && uow.working.Contents() == old(uow.working.Contents())
    ensures r == GetInvestigation(uow.working.Contents(), tenant, id)
  {
    r := uow.investigations.Get(tenant, id);
  }

  // ----- opening and reading -----

  method OpenInvestigation(uow: UnitOfWork, row: Investigation) returns (r: Result<Investigation, PersistenceError>)
    requires uow.Valid()
    modifies uow.working.Containers()
    ensures uow.Valid() && uow.working == old(uow.working) && uow.working.Containers() == old(uow.working.Containers())
    ensures var spec := Create(old(uow.working.Contents()), row);
            if spec.Success? then r == Success(spec.value.1) && uow.working.Contents() == spec.value.0
            else r == Failure(spec.error)
  {
    hide WellKeyed, Create;
    r := uow.investigations.Create(row);
  }

  method ExecuteInside(uow: UnitOfWork, cmd: Command, id: Uuid, jobId: Uuid, now: Instant, maxAttempts: int)
    returns (r: Result<Uuid, PersistenceError>)
    requires uow.Valid()
    modifies uow.working.Containers()
    ensures uow.Valid() && uow.working == old(uow.working) && uow.working.Containers() == old(uow.working.Containers())
    ensures var spec := Application.Execute(old(uow.working.Contents()), cmd, id, jobId, now, maxAttempts);
            && r.Success? == spec.1.Success?
            && (r.Success? ==> r == spec.1 && uow.working.Contents() == spec.0)
            && (r.Failure? ==> r == spec.1 && spec.0 == old(uow.working.Contents()))
  {
    hide UnitOfWork.Valid, Store.Contents, Create, WellKeyed;
    if cmd.idempotencyKey.Some? && !NonBlank(cmd.idempotencyKey.value) {
      return Failure(InvalidRecord);
    }
    var stored := OpenInvestigation(uow, Investigation(id, cmd.context, cmd.window, Pending, cmd.idempotencyKey));
    if stored.Failure? {
      return Failure(stored.error);
    }
    if stored.value.id == id {
      if maxAttempts < 1 {
        return Failure(InvalidRecord);
      }
      var queued := EnqueueJob(uow, Job(jobId, id, cmd.context.tenant, Queued, now, None, None, None, 0, maxAttempts));
      if queued.Failure? {
        return Failure(IdempotencyConflict);
      }
      LogAudit(uow, Audit(cmd.context.tenant, id, "control-plane", "investigation.created", None));
    }
    return Success(stored.value.id);
  }

  /** Opens an investigation in a unit of work of its own. */
  method Execute(shared: Store, lock: Lock, cmd: Command, id: Uuid, jobId: Uuid, now: Instant, maxAttempts: int)
    returns (r: Result<Uuid, PersistenceError>)
    requires !lock.held && WellKeyed(shared.Contents())
    modifies lock, shared
    ensures !lock.held && WellKeyed(shared.Contents())
    ensures (shared.Contents(), r) == Application.Execute(old(shared.Contents()), cmd, id, jobId, now, maxAttempts)
  {
    hide UnitOfWork.Valid, Application.Execute, WellKeyed;
    var uow := Begin(shared, lock);
    r := ExecuteInside(uow, cmd, id, jobId, now, maxAttempts);
    Finish(uow, r.Success?);
  }

  /** Reading in a unit of work of its own commits nothing. */
  method FetchReport(shared: Store, lock: Lock, tenant: string, id: Uuid) returns (r: Result<Report, ReadError>)
    requires !lock.held && WellKeyed(shared.Contents())
    modifies lock
    ensures !lock.held && shared.Contents() == old(shared.Contents())
    ensures r == ReadReport(shared.Contents(), tenant, id)
  {
    hide WellKeyed;
    var uow := Begin(shared, lock);
    var inv := uow.investigations.Get(tenant, id);
    if inv.Failure? {
      r := Failure(InvestigationNotFound);
    } else {
      var report := uow.reports.Get(tenant, id);
      r := if report.Failure? then Failure(ReportNotReady) else Success(report.value);
    }
    uow.Exit();
  }

  method FetchStatus(shared: Store, lock: Lock, tenant: string, id: Uuid) returns (r: Result<Investigation, ReadError>)
    requires !lock.held && WellKeyed(shared.Contents())
    modifies lock
    ensures !lock.held && shared.Contents() == old(shared.Contents())
    ensures r == ReadStatus(shared.Contents(), tenant, id)
  {
    hide WellKeyed;
    var uow := Begin(shared, lock);
    var found := FindInvestigation(uow, tenant, id);
    uow.Exit();
    return if found.Success? then Success(found.value) else Failure(InvestigationNotFound);
  }
}
