/** Durable rows, and the database as a value. */
module Records {
  import opened Prelude
  import opened Domain
  import opened Serialization

  /** Surrogate keys; their text has fixed width, so they compare like numbers. */
  type Uuid = nat

  datatype InvestigationStatus = Pending | Running | Succeeded | Failed | Cancelled

  datatype JobStatus = Queued | Claimed | JobRunning | JobSucceeded | JobFailed | JobCancelled

  datatype AttemptOutcome = AttemptSucceeded | AttemptFailed

  datatype Investigation = Investigation(
    id: Uuid,
    context: Context,
    window: Window,
    status: InvestigationStatus,
    idempotencyKey: Option<string>)

  datatype Job = Job(
    id: Uuid,
    investigation: Uuid,
    tenant: string,
    status: JobStatus,
    availableAt: Instant,
    claimedBy: Option<string>,
    claimedAt: Option<Instant>,
    leaseExpiresAt: Option<Instant>,
    attemptCount: nat,
    maxAttempts: int)

  datatype ClaimedJob = ClaimedJob(
    job: Uuid,
    investigation: Uuid,
    tenant: string,
    worker: string,
    leaseExpiresAt: Instant,
    attemptCount: nat)

  datatype Attempt = Attempt(
    id: Uuid,
    job: Uuid,
    tenant: string,
    number: nat,
    worker: string,
    outcome: AttemptOutcome,
    errorCode: Option<string>)

  datatype EvidenceKey = EvidenceKey(tenant: string, run: string, id: EvidenceId)

  datatype Evidence = Evidence(
    tenant: string,
    investigation: Uuid,
    run: string,
    id: EvidenceId,
    payload: EntryPayload)

  datatype Report = Report(
    investigation: Uuid,
    tenant: string,
    run: string,
    payload: VerificationPayload,
    baseline: BaselinePayload)

  datatype Audit = Audit(
    tenant: string,
    investigation: Uuid,
    actor: string,
    action: string,
    detail: Option<string>)

  datatype Db = Db(
    investigations: map<Uuid, Investigation>,
    jobs: map<Uuid, Job>,
    attempts: map<Uuid, Attempt>,
    evidence: map<EvidenceKey, Evidence>,
    reports: map<Uuid, Report>,
    audit: seq<Audit>)

  const EMPTY_DB := Db(map[], map[], map[], map[], map[], [])

  datatype PersistenceError = IdempotencyConflict | RecordNotFound | InvalidRecord
}
