/** The use cases and the worker turn, as functions of the committed database. */
module Application {
  import opened Prelude
  import opened Text
  import opened Domain
  import opened Baseline
  import opened Hypotheses
  import Ledger
  import Verifier
  import opened Serialization
  import opened Records
  import opened Tables

  // ----- the pipeline of one investigation -----

  datatype Telemetry = TelemetryUnavailable | TelemetryCrash | Loaded(inputs: seq<SignalInput>)

  datatype Llm = ProviderTimeout | ProviderUnavailable | ProviderResponseInvalid | LlmCrash | Proposed(raw: Proposal)

  /** What the outside world does during one turn of a worker. */
  datatype Turn = Turn(now: Instant, telemetry: Telemetry, llm: Llm, attemptId: Uuid) {
    ghost predicate Valid() {
      telemetry.Loaded? ==> ValidInputs(telemetry.inputs)
    }
  }

  datatype Worker = Worker(id: string, lease: int, maxAttempts: int, policy: Policy) {
    predicate Valid() {
      NonBlank(id) && policy.Valid()
    }
  }

  /** How the analysis of one investigation ends, before anything is written. */
  datatype Analysis =
    | Conclusion(rows: seq<Evidence>, report: Report)
    | TerminalFailure(code: string)
    | RetryableFailure(code: string)
    | Crash

  function DomainCode(e: DomainError): string {
    match e
    case DuplicateSignal => "duplicate_signal"
    case InvalidEvidenceLedger => "invalid_evidence_ledger"
    case InvalidHypothesis => "invalid_hypothesis"
    case InvalidChangeEvent => "invalid_change_event"
    case InvalidChangeLedger => "invalid_change_event_ledger"
    case InvalidChangeHypothesis => "invalid_change_hypothesis"
    case SerializationFailed => "canonical_serialization_failed"
  }

  /** The stable code of a rejection; a decoder error is none. */
  function ProposalCode(e: ProposalError): string
    requires !e.DecoderRaised?
  {
    match e
    case ProposalTooLarge => "proposal_too_large"
    case EmptyProposal => "empty_proposal"
    case MalformedProposal => "malformed_proposal"
    case ProposalSchema => "proposal_schema_invalid"
    case TooManyPredicates => "too_many_predicates"
    case UnauthorizedEntity => "unauthorized_entity"
  }

  function AllowedSignals(l: MetricLedger): set<string> {
    set e | e in l.entries :: e.key
  }

  /** One evidence row per ledger entry, or nothing if some entry does not serialize. */
  function EvidenceRows(inv: Investigation, entries: seq<MetricEntry>): (r: Option<seq<Evidence>>)
    ensures r.Some? ==> |r.value| == |entries|
    ensures r.Some? ==> forall i :: 0 <= i < |entries| ==>
      && EntryPayloadOf(entries[i]).Some?
      && r.value[i] == Evidence(inv.context.tenant, inv.id, inv.context.run, entries[i].id,
                                EntryPayloadOf(entries[i]).value)
  {
    if entries == [] then Some([])
    else
      var payload :- EntryPayloadOf(entries[0]);
      var rest :- EvidenceRows(inv, entries[1..]);
      Some([Evidence(inv.context.tenant, inv.id, inv.context.run, entries[0].id, payload)] + rest)
  }

  function Judged(inv: Investigation, baseline: BaselineResult, l: MetricLedger, h: Hypothesis): Analysis {
    match Verifier.Verify(h, l)
    case Failure(e) => TerminalFailure(DomainCode(e))
    case Success(v) =>
      var rows, payload, ranking := EvidenceRows(inv, l.entries), VerificationPayloadOf(v), BaselinePayloadOf(baseline);
      if rows.None? || payload.None? || ranking.None? then TerminalFailure(DomainCode(SerializationFailed))
      else Conclusion(rows.value, Report(inv.id, inv.context.tenant, inv.context.run, payload.value, ranking.value))
  }

  function Analyse(inv: Investigation, policy: Policy, turn: Turn): Analysis
    requires policy.Valid() && turn.Valid()
  {
    match turn.telemetry
    case TelemetryUnavailable => TerminalFailure("telemetry_unavailable")
    case TelemetryCrash => Crash
    case Loaded(inputs) =>
      match Rank(inv.window, inputs, policy)
      case Failure(e) => TerminalFailure(DomainCode(e))
      case Success(baseline) =>
        match Ledger.Compile(inv.context, inv.window, baseline)
        case None => TerminalFailure(DomainCode(InvalidEvidenceLedger))
        case Some(l) =>
          match turn.llm
          case ProviderTimeout => RetryableFailure("provider_timeout")
          case ProviderUnavailable => RetryableFailure("provider_unavailable")
          case ProviderResponseInvalid => TerminalFailure("provider_response_invalid")
          case LlmCrash => Crash
          case Proposed(raw) =>
            match ParseProposal(raw, AllowedSignals(l))
            case Failure(e) => if e.DecoderRaised? then Crash else TerminalFailure(ProposalCode(e))
            case Success(h) => Judged(inv, baseline, l, h)
  }

  // ----- writing the outcome -----

  datatype PipelineExit = Completed | Terminal(code: string) | Retryable(code: string) | Untyped

  /** The pipeline inside the open transaction; later writes stay even if a later one raises. */
  function RunPipeline(db: Db, inv: Investigation, w: Worker, turn: Turn): (Db, PipelineExit)
    requires w.Valid() && turn.Valid()
  {
    match Analyse(inv, w.policy, turn)
    case TerminalFailure(code) => (db, Terminal(code))
    case RetryableFailure(code) => (db, Retryable(code))
    case Crash => (db, Untyped)
    case Conclusion(rows, report) =>
      var appended := AppendEvidence(db, rows);
      match PutReport(appended, report)
      case Failure(_) => (appended, Untyped)
      case Success(put) =>
        match SetInvestigationStatus(put, inv.context.tenant, inv.id, Succeeded)
        case Failure(_) => (put, Untyped)
        case Success(done) =>
          (AppendAudit(done, Audit(inv.context.tenant, inv.id, w.id, "report.persisted", None)), Completed)
  }

  function AttemptOf(c: ClaimedJob, w: Worker, turn: Turn, outcome: AttemptOutcome, code: Option<string>): Attempt {
    Attempt(turn.attemptId, c.job, c.tenant, c.attemptCount, w.id, outcome, code)
  }

  function TerminalFail(db: Db, c: ClaimedJob, w: Worker, turn: Turn, code: string): Result<Db, PersistenceError> {
    var failed :- SetInvestigationStatus(db, c.tenant, c.investigation, Failed);
    var stopped :- SetJobStatus(failed, c.tenant, c.job, JobFailed);
    var recorded :- RecordAttempt(stopped, AttemptOf(c, w, turn, AttemptFailed, Some(code)));
    Success(AppendAudit(recorded, Audit(c.tenant, c.investigation, w.id, "investigation.failed", Some(code))))
  }

  function RetryOrFail(db: Db, c: ClaimedJob, w: Worker, turn: Turn, code: string): Result<Db, PersistenceError> {
    if c.attemptCount >= w.maxAttempts then TerminalFail(db, c, w, turn, code)
    else
      var requeued :- SetJobStatus(db, c.tenant, c.job, Queued);
      RecordAttempt(requeued, AttemptOf(c, w, turn, AttemptFailed, Some(code)))
  }

  function Succeed(db: Db, c: ClaimedJob, w: Worker, turn: Turn): Result<Db, PersistenceError> {
    var done :- SetJobStatus(db, c.tenant, c.job, JobSucceeded);
    RecordAttempt(done, AttemptOf(c, w, turn, AttemptSucceeded, None))
  }

  /** Everything after a successful claim and lookup, up to the commit. */
  function Process(db: Db, c: ClaimedJob, inv: Investigation, w: Worker, turn: Turn): Result<Db, PersistenceError>
    requires w.Valid() && turn.Valid()
  {
    var running :- SetInvestigationStatus(db, c.tenant, c.investigation, Running);
    var (written, exit) := RunPipeline(running, inv, w, turn);
    match exit
    case Completed => Succeed(written, c, w, turn)
    case Terminal(code) => TerminalFail(written, c, w, turn, code)
    case Retryable(code) => RetryOrFail(written, c, w, turn, code)
    case Untyped => TerminalFail(written, c, w, turn, "internal_error")
  }

  datatype RunResult = NoJob | Processed | Escaped

  /** One turn of a worker; an exception that escapes abandons the transaction. */
  ghost function RunOnce(db: Db, w: Worker, turn: Turn): (Db, RunResult)
    requires w.Valid() && turn.Valid()
  {
    match Claim(db, w.id, w.lease, turn.now)
    case Failure(_) => (db, Escaped)
    case Success((claimed, ticket)) =>
      if ticket.None? then (claimed, NoJob)
      else
        var c := ticket.value;
        var next :=
          match GetInvestigation(claimed, c.tenant, c.investigation)
          case Failure(_) => SetJobStatus(claimed, c.tenant, c.job, JobFailed)
          case Success(inv) =>
            if inv.status.Cancelled? then SetJobStatus(claimed, c.tenant, c.job, JobCancelled)
            else Process(claimed, c, inv, w, turn);
        if next.Success? then (next.value, Processed) else (db, Escaped)
  }

  // ----- opening an investigation -----

  datatype Command = Command(context: Context, window: Window, idempotencyKey: Option<string>)

  function NewInvestigation(cmd: Command, id: Uuid): Investigation {
    Investigation(id, cmd.context, cmd.window, Pending, cmd.idempotencyKey)
  }

  function NewJob(cmd: Command, id: Uuid, investigation: Uuid, now: Instant, maxAttempts: int): Job {
    Job(id, investigation, cmd.context.tenant, Queued, now, None, None, None, 0, maxAttempts)
  }

  /** Opens an investigation and enqueues its job, or replays; raising leaves nothing behind. */
  ghost function Execute(db: Db, cmd: Command, id: Uuid, jobId: Uuid, now: Instant, maxAttempts: int)
    : (Db, Result<Uuid, PersistenceError>)
  {
    if cmd.idempotencyKey.Some? && !NonBlank(cmd.idempotencyKey.value) then (db, Failure(InvalidRecord))
    else
    match Create(db, NewInvestigation(cmd, id))
    case Failure(e) => (db, Failure(e))
    case Success((created, stored)) =>
      if stored.id != id then (created, Success(stored.id))
      else if maxAttempts < 1 then (db, Failure(InvalidRecord))
      else
        match Enqueue(created, NewJob(cmd, jobId, id, now, maxAttempts))
        case Failure(e) => (db, Failure(e))
        case Success(queued) =>
          (AppendAudit(queued, Audit(cmd.context.tenant, id, "control-plane", "investigation.created", None)),
           Success(id))
  }

  // ----- reading -----

  datatype ReadError = InvestigationNotFound | ReportNotReady

  function ReadStatus(db: Db, tenant: string, id: Uuid): Result<Investigation, ReadError> {
    match GetInvestigation(db, tenant, id)
    case Failure(_) => Failure(InvestigationNotFound)
    case Success(inv) => Success(inv)
  }

  function ReadReport(db: Db, tenant: string, id: Uuid): Result<Report, ReadError> {
    if GetInvestigation(db, tenant, id).Failure? then Failure(InvestigationNotFound)
    else
      match GetReport(db, tenant, id)
      case Failure(_) => Failure(ReportNotReady)
      case Success(report) => Success(report)
  }
}
