/** What the repository operations mean, row by row and field by field. */
module TableLaws {
  import opened Prelude
  import opened Text
  import opened Domain
  import opened Records
  import opened Tables

  // ----- claiming -----

  /** Due for a claim: queued and available, or claimed under a lease that has run out. */
  predicate Due(job: Job, now: Instant) {
    || (job.status == Queued && job.availableAt <= now)
    || (job.status == Claimed && job.leaseExpiresAt.Some? && job.leaseExpiresAt.value <= now)
  }

  /**
   * A claim takes the due job of least availability, and of least identifier among those; marks it claimed by this
   * worker, now, until the end of the lease; counts the attempt; and changes nothing else. It takes none only if
   * none is due.
   */
  lemma ClaimSays(db: Db, worker: string, lease: int, now: Instant)
    requires WellKeyed(db) && NonBlank(worker)
    ensures Claim(db, worker, lease, now).Success?
    ensures var (next, ticket) := Claim(db, worker, lease, now).value;
            && (ticket.None? ==> next == db && forall k :: k in db.jobs ==> !Due(db.jobs[k], now))
            && (ticket.Some? ==>
                  var j := ticket.value.job;
                  && j in db.jobs && Due(db.jobs[j], now)
                  && (forall k :: k in db.jobs && Due(db.jobs[k], now) ==>
                        || db.jobs[j].availableAt < db.jobs[k].availableAt
                        || (db.jobs[j].availableAt == db.jobs[k].availableAt && j <= k))
                  && var job := db.jobs[j];
                  && next == db.(jobs := db.jobs[j := Job(j, job.investigation, job.tenant, Claimed, job.availableAt,
                                                          Some(worker), Some(now), Some(now + lease),
                                                          job.attemptCount + 1, job.maxAttempts)])
                  && ticket.value == ClaimedJob(j, job.investigation, job.tenant, worker, now + lease,
                                                job.attemptCount + 1))
  {
    hide NonBlank;
    assert forall k :: k in db.jobs ==> (Due(db.jobs[k], now) <==> Claimable(db.jobs[k], now));
  }

  lemma BlankWorkerClaimsNothing(db: Db, worker: string, lease: int, now: Instant)
    requires !NonBlank(worker)
    ensures Claim(db, worker, lease, now) == Failure(InvalidRecord)
  {
  }

  // ----- rows of one tenant -----

  /** A row of another tenant, or none, is not found by anything and changed by nothing. */
  lemma ForeignRowsAreInvisible(db: Db, tenant: string, id: Uuid)
    ensures (id in db.investigations ==> db.investigations[id].context.tenant != tenant) ==>
      && GetInvestigation(db, tenant, id) == Failure(RecordNotFound)
      && forall status :: SetInvestigationStatus(db, tenant, id, status) == Failure(RecordNotFound)
    ensures (id in db.jobs ==> db.jobs[id].tenant != tenant) ==>
      && GetJob(db, tenant, id) == Failure(RecordNotFound)
      && forall status :: SetJobStatus(db, tenant, id, status) == Failure(RecordNotFound)
    ensures (id in db.reports ==> db.reports[id].tenant != tenant) ==>
      GetReport(db, tenant, id) == Failure(RecordNotFound)
  {
  }

  /** A tenant's own row is found as it is, and a new status replaces its status and nothing else. */
  lemma OwnRowsAnswer(db: Db, id: Uuid, status: InvestigationStatus, jobStatus: JobStatus)
    ensures id in db.investigations ==>
      var row := db.investigations[id];
      && GetInvestigation(db, row.context.tenant, id) == Success(row)
      && SetInvestigationStatus(db, row.context.tenant, id, status)
         == Success(db.(investigations := db.investigations[id := Investigation(row.id, row.context, row.window, status,
                                                                               row.idempotencyKey)]))
    ensures id in db.jobs ==>
      var job := db.jobs[id];
      && GetJob(db, job.tenant, id) == Success(job)
      && SetJobStatus(db, job.tenant, id, jobStatus)
         == Success(db.(jobs := db.jobs[id := Job(job.id, job.investigation, job.tenant, jobStatus, job.availableAt,
                                                  job.claimedBy, job.claimedAt, job.leaseExpiresAt, job.attemptCount,
                                                  job.maxAttempts)]))
    ensures id in db.reports ==> GetReport(db, db.reports[id].tenant, id) == Success(db.reports[id])
  {
  }

  // ----- inserting -----

  /** The row has a key, and the stored one has the same under the same tenant. */
  predicate Replays(stored: Investigation, row: Investigation) {
    && row.idempotencyKey.Some? && stored.idempotencyKey == row.idempotencyKey
    && stored.context.tenant == row.context.tenant
  }

  /** Creating gives back the tenant's row under the same key if there is one, or conflicts on a used id, or inserts. */
  lemma CreateSays(db: Db, row: Investigation)
    requires WellKeyed(db)
    ensures forall i :: i in db.investigations && Replays(db.investigations[i], row) ==>
      Create(db, row) == Success((db, db.investigations[i]))
    ensures (forall i :: i in db.investigations ==> !Replays(db.investigations[i], row))
      ==> Create(db, row) == if row.id in db.investigations then Failure(IdempotencyConflict)
                             else Success((db.(investigations := db.investigations[row.id := row]), row))
  {
    forall i | i in db.investigations && HasKey(db.investigations[i], row.context.tenant, row.idempotencyKey)
      ensures ByKey(db, row.context.tenant, row.idempotencyKey) == Some(db.investigations[i])
    {
      var found := ByKey(db, row.context.tenant, row.idempotencyKey).value;
      var k :| k in db.investigations && db.investigations[k] == found;
      assert SameKey(db.investigations[i], db.investigations[k]);
    }
  }

  /** Enqueueing, recording and publishing insert a new row, or conflict: on a used job id, attempt number or report. */
  lemma InsertsSay(db: Db, job: Job, attempt: Attempt, report: Report)
    ensures Enqueue(db, job) == if job.id in db.jobs then Failure(IdempotencyConflict)
                                else Success(db.(jobs := db.jobs[job.id := job]))
    ensures RecordAttempt(db, attempt)
            == if exists a :: a in db.attempts && db.attempts[a].job == attempt.job
                              && db.attempts[a].number == attempt.number then Failure(IdempotencyConflict)
               else Success(db.(attempts := db.attempts[attempt.id := attempt]))
    ensures PutReport(db, report) == if report.investigation in db.reports then Failure(IdempotencyConflict)
                                     else Success(db.(reports := db.reports[report.investigation := report]))
  {
  }
}
