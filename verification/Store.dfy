/** The in-memory store on the heap: containers, snapshots, repositories and the unit of work. */
module Store {
  import opened Prelude
  import opened Text
  import opened Records
  import opened Tables

  /** A mutable dictionary, shared by whoever holds a reference to it. */
  class Dict<K(==), V> {
    var rows: map<K, V>

    constructor (rows: map<K, V>)
      ensures this.rows == rows
    {
      this.rows := rows;
    }
  }

  /** A mutable list of audit rows. */
  class AuditList {
    var rows: seq<Audit>

    constructor (rows: seq<Audit>)
      ensures this.rows == rows
    {
      this.rows := rows;
    }
  }

  class Store {
    var investigations: Dict<Uuid, Investigation>
    var jobs: Dict<Uuid, Job>
    var attempts: Dict<Uuid, Attempt>
    var evidence: Dict<EvidenceKey, Evidence>
    var reports: Dict<Uuid, Report>
    var audit: AuditList

    /** The mutable objects behind the tables. */
    ghost function Containers(): set<object>
      reads this
    {
      {investigations, jobs, attempts, evidence, reports, audit}
    }

    ghost function Contents(): Db
      reads this, Containers()
    {
      Db(investigations.rows, jobs.rows, attempts.rows, evidence.rows, reports.rows, audit.rows)
    }

    constructor (db: Db)
      ensures Contents() == db
      ensures fresh(investigations) && fresh(jobs) && fresh(attempts)
      ensures fresh(evidence) && fresh(reports) && fresh(audit)
    {
      var newInvestigations := new Dict(db.investigations);
      var newJobs := new Dict(db.jobs);
      var newAttempts := new Dict(db.attempts);
      var newEvidence := new Dict(db.evidence);
      var newReports := new Dict(db.reports);
      var newAudit := new AuditList(db.audit);
      investigations, jobs, attempts := newInvestigations, newJobs, newAttempts;
      evidence, reports, audit := newEvidence, newReports, newAudit;
    }

    /** A clone with containers of its own. */
    method Snapshot() returns (clone: Store)
      ensures fresh(clone) && fresh(clone.Containers()) && clone.Contents() == Contents()
    {
      clone := new Store(Db(investigations.rows, jobs.rows, attempts.rows, evidence.rows, reports.rows, audit.rows));
    }

    /** Takes over the other store's containers: from now on the two stores share them. */
    method Adopt(other: Store)
      modifies this
      ensures Containers() == old(other.Containers()) && Contents() == old(other.Contents())
      ensures investigations == old(other.investigations) && jobs == old(other.jobs) && attempts == old(other.attempts)
      ensures evidence == old(other.evidence) && reports == old(other.reports) && audit == old(other.audit)
    {
      investigations := other.investigations;
      jobs := other.jobs;
      attempts := other.attempts;
      evidence := other.evidence;
      reports := other.reports;
      audit := other.audit;
    }
  }

  class InvestigationRepository {
    const store: Store

    constructor (store: Store)
      ensures this.store == store
    {
      this.store := store;
    }

    method Find(tenant: string, key: Option<string>) returns (r: Option<Investigation>)
      requires WellKeyed(store.Contents())
      ensures r == ByKey(store.Contents(), tenant, key)
    {
      if key.None? {
        return None;
      }
      var table := store.investigations.rows;
      var rest := table.Keys;
      while rest != {}
        invariant rest <= table.Keys
        invariant forall i :: i in table && i !in rest ==> !HasKey(table[i], tenant, key)
        decreases |rest|
      {
        var i :| i in rest;
        if HasKey(table[i], tenant, key) {
          return Some(table[i]);
        }
        rest := rest - {i};
      }
      return None;
    }

    method Create(row: Investigation) returns (r: Result<Investigation, PersistenceError>)
      requires WellKeyed(store.Contents())
      modifies store.investigations
      ensures var spec := Tables.Create(old(store.Contents()), row);
              if spec.Success? then r == Success(spec.value.1) && store.Contents() == spec.value.0
              else r == Failure(spec.error) && store.Contents() == old(store.Contents())
      ensures WellKeyed(store.Contents())
    {
      CreateKeepsKeys(store.Contents(), row);
      var existing := Find(row.context.tenant, row.idempotencyKey);
      if existing.Some? {
        return Success(existing.value);
      }
      if row.id in store.investigations.rows {
        return Failure(IdempotencyConflict);
      }
      store.investigations.rows := store.investigations.rows[row.id := row];
      return Success(row);
    }

    method Get(tenant: string, id: Uuid) returns (r: Result<Investigation, PersistenceError>)
      ensures r == GetInvestigation(store.Contents(), tenant, id)
    {
      var table := store.investigations.rows;
      if id !in table || table[id].context.tenant != tenant {
        return Failure(RecordNotFound);
      }
      return Success(table[id]);
    }

    method SetStatus(tenant: string, id: Uuid, status: InvestigationStatus) returns (r: Result<(), PersistenceError>)
      requires WellKeyed(store.Contents())
      modifies store.investigations
      ensures var spec := SetInvestigationStatus(old(store.Contents()), tenant, id, status);
              if spec.Success? then r.Success? && store.Contents() == spec.value
              else r == Failure(spec.error) && store.Contents() == old(store.Contents())
      ensures WellKeyed(store.Contents())
    {
      StatusKeepsKeys(store.Contents(), tenant, id, status);
      var row := Get(tenant, id);
      if row.Failure? {
        return Failure(row.error);
      }
      store.investigations.rows := store.investigations.rows[id := row.value.(status := status)];
      return Success(());
    }
  }

  class JobQueue {
    const store: Store

    constructor (store: Store)
      ensures this.store == store
    {
      this.store := store;
    }

    method Enqueue(row: Job) returns (r: Result<(), PersistenceError>)
      requires WellKeyed(store.Contents())
      modifies store.jobs
      ensures var spec := Tables.Enqueue(old(store.Contents()), row);
              if spec.Success? then r.Success? && store.Contents() == spec.value
              else r == Failure(spec.error) && store.Contents() == old(store.Contents())
      ensures WellKeyed(store.Contents())
    {
      if row.id in store.jobs.rows {
        return Failure(IdempotencyConflict);
      }
      store.jobs.rows := store.jobs.rows[row.id := row];
      return Success(());
    }

    method Claim(worker: string, lease: int, now: Instant) returns (r: Result<Option<ClaimedJob>, PersistenceError>)
      requires WellKeyed(store.Contents())
      modifies store.jobs
      ensures var spec := Tables.Claim(old(store.Contents()), worker, lease, now);
              if spec.Success? then r == Success(spec.value.1) && store.Contents() == spec.value.0
              else r == Failure(spec.error) && store.Contents() == old(store.Contents())
      ensures WellKeyed(store.Contents())
    {
      ClaimKeepsKeys(store.Contents(), worker, lease, now);
      if !NonBlank(worker) {
        return Failure(InvalidRecord);
      }
      var first := SelectFirst(store.jobs.rows, now);
      if first.None? {
        return Success(None);
      }
      var job := store.jobs.rows[first.value];
      var expiry, attemptCount := now + lease, job.attemptCount + 1;
      store.jobs.rows := store.jobs.rows[job.id := job.(
        status := Claimed, claimedBy := Some(worker), claimedAt := Some(now),
        leaseExpiresAt := Some(expiry), attemptCount := attemptCount)];
      return Success(Some(ClaimedJob(job.id, job.investigation, job.tenant, worker, expiry, attemptCount)));
    }

    method SetStatus(tenant: string, id: Uuid, status: JobStatus) returns (r: Result<(), PersistenceError>)
      requires WellKeyed(store.Contents())
      modifies store.jobs
      ensures var spec := SetJobStatus(old(store.Contents()), tenant, id, status);
              if spec.Success? then r.Success? && store.Contents() == spec.value
              else r == Failure(spec.error) && store.Contents() == old(store.Contents())
      ensures WellKeyed(store.Contents())
    {
      var table := store.jobs.rows;
      if id !in table || table[id].tenant != tenant {
        return Failure(RecordNotFound);
      }
      store.jobs.rows := table[id := table[id].(status := status)];
      return Success(());
    }
  }

  class AttemptRepository {
    const store: Store

    constructor (store: Store)
      ensures this.store == store
    {
      this.store := store;
    }

    method Record(row: Attempt) returns (r: Result<(), PersistenceError>)
      modifies store.attempts
      ensures var spec := RecordAttempt(old(store.Contents()), row);
              if spec.Success? then r.Success? && store.Contents() == spec.value
              else r == Failure(spec.error) && store.Contents() == old(store.Contents())
    {
      var table := store.attempts.rows;
      var rest := table.Keys;
      while rest != {}
        invariant rest <= table.Keys
        invariant forall a :: a in table && a !in rest ==> table[a].job != row.job || table[a].number != row.number
        decreases |rest|
      {
        var a :| a in rest;
        if table[a].job == row.job && table[a].number == row.number {
          return Failure(IdempotencyConflict);
        }
        rest := rest - {a};
      }
      store.attempts.rows := table[row.id := row];
      return Success(());
    }
  }

  class EvidenceRepository {
    const store: Store

    constructor (store: Store)
      ensures this.store == store
    {
      this.store := store;
    }

    method Append(rows: seq<Evidence>)
      modifies store.evidence
      ensures store.Contents() == AppendEvidence(old(store.Contents()), rows)
    {
      for i := 0 to |rows|
        modifies store.evidence
        invariant store.evidence.rows == Appended(old(store.evidence.rows), rows[..i])
      {
        assert rows[..i + 1][..i] == rows[..i];
        var key := KeyOf(rows[i]);
        if key !in store.evidence.rows {
          store.evidence.rows := store.evidence.rows[key := rows[i]];
        }
      }
      assert rows[..|rows|] == rows;
    }
  }

  class ReportRepository {
    const store: Store

    constructor (store: Store)
      ensures this.store == store
    {
      this.store := store;
    }

    method Put(row: Report) returns (r: Result<(), PersistenceError>)
      modifies store.reports
      ensures var spec := PutReport(old(store.Contents()), row);
              if spec.Success? then r.Success? && store.Contents() == spec.value
              else r == Failure(spec.error) && store.Contents() == old(store.Contents())
    {
      if row.investigation in store.reports.rows {
        return Failure(IdempotencyConflict);
      }
      store.reports.rows := store.reports.rows[row.investigation := row];
      return Success(());
    }

    method Get(tenant: string, id: Uuid) returns (r: Result<Report, PersistenceError>)
      ensures r == GetReport(store.Contents(), tenant, id)
    {
      var table := store.reports.rows;
      if id !in table || table[id].tenant != tenant {
        return Failure(RecordNotFound);
      }
      return Success(table[id]);
    }
  }

  class AuditLog {
    const store: Store

    constructor (store: Store)
      ensures this.store == store
    {
      this.store := store;
    }

    method Record(row: Audit)
      modifies store.audit
      ensures store.Contents() == AppendAudit(old(store.Contents()), row)
    {
      store.audit.rows := store.audit.rows + [row];
    }
  }

  class Lock {
    var held: bool

    constructor ()
      ensures !held
    {
      held := false;
    }
  }

  /** New repositories over one store. */
  method Repositories(store: Store)
    returns (investigations: InvestigationRepository, jobs: JobQueue, attempts: AttemptRepository,
             evidence: EvidenceRepository, reports: ReportRepository, audit: AuditLog)
    ensures investigations.store == store && jobs.store == store && attempts.store == store
    ensures evidence.store == store && reports.store == store && audit.store == store
  {
    investigations := new InvestigationRepository(store);
    jobs := new JobQueue(store);
    attempts := new AttemptRepository(store);
    evidence := new EvidenceRepository(store);
    reports := new ReportRepository(store);
    audit := new AuditLog(store);
  }

  /** A copy-on-write transaction over the shared store. */
  class UnitOfWork {
    const shared: Store
    const lock: Lock
    var working: Store
    var investigations: InvestigationRepository
    var jobs: JobQueue
    var attempts: AttemptRepository
    var evidence: EvidenceRepository
    var reports: ReportRepository
    var audit: AuditLog

    /**
     * The exposed repositories write to the working store, whose containers are not the
     * shared store's: nothing uncommitted can show.
     */
    ghost predicate Valid()
      reads this, shared, shared.Containers(), working, working.Containers()
    {
      && investigations.store == working && jobs.store == working && attempts.store == working
      && evidence.store == working && reports.store == working && audit.store == working
      && working != shared && working.Containers() !! shared.Containers()
      && WellKeyed(shared.Contents()) && WellKeyed(working.Contents())
    }

    constructor (shared: Store, lock: Lock)
      requires WellKeyed(shared.Contents())
      ensures Valid() && this.shared == shared && this.lock == lock
      ensures fresh(working) && fresh(working.Containers()) && working.Contents() == shared.Contents()
    {
      hide WellKeyed;
      this.shared := shared;
      this.lock := lock;
      var clone := shared.Snapshot();
      working := clone;
      var forInvestigations, forJobs, forAttempts, forEvidence, forReports, forAudit := Repositories(clone);
      investigations, jobs, attempts := forInvestigations, forJobs, forAttempts;
      evidence, reports, audit := forEvidence, forReports, forAudit;
    }

    /** Exposes new repositories bound to the current working store. */
    method Rebind()
      modifies this
      ensures working == old(working)
      ensures investigations.store == working && jobs.store == working && attempts.store == working
      ensures evidence.store == working && reports.store == working && audit.store == working
    {
      investigations, jobs, attempts, evidence, reports, audit := Repositories(working);
    }

    /** Starts over from the shared store, with repositories bound to the new snapshot. */
    method Rollback()
      requires WellKeyed(shared.Contents())
      modifies this
      ensures Valid() && fresh(working) && fresh(working.Containers()) && working.Contents() == shared.Contents()
    {
      working := shared.Snapshot();
      Rebind();
    }

    /** Publishes the working store and continues on a fresh snapshot of it. */
    method Commit()
      requires Valid()
      modifies this, shared
      ensures Valid() && fresh(working) && fresh(working.Containers())
      ensures shared.Contents() == old(working.Contents()) && working.Contents() == shared.Contents()
      ensures shared.Containers() == old(working.Containers())
      ensures shared.investigations == old(working.investigations) && shared.jobs == old(working.jobs)
      ensures shared.attempts == old(working.attempts) && shared.evidence == old(working.evidence)
      ensures shared.reports == old(working.reports) && shared.audit == old(working.audit)
    {
      shared.Adopt(working);
      Rollback();
    }

    method Enter()
      requires !lock.held && WellKeyed(shared.Contents())
      modifies this, lock
      ensures lock.held && Valid()
      ensures fresh(working) && fresh(working.Containers()) && working.Contents() == shared.Contents()
    {
      lock.held := true;
      Rollback();
    }

    method Exit()
      modifies lock
      ensures !lock.held
    {
      lock.held := false;
    }
  }

  /**
   * When an uncommitted write shows: exactly when the writing repository's container is the
   * shared store's own. The repositories a valid unit of work exposes never qualify.
   */
  method EnqueueShowsIffAliased(queue: JobQueue, shared: Store, row: Job)
    requires WellKeyed(queue.store.Contents()) && row.id !in queue.store.jobs.rows
    modifies queue.store.jobs
    ensures shared.Contents() != old(shared.Contents()) <==> queue.store.jobs == shared.jobs
  {
    var r := queue.Enqueue(row);
  }

  /**
   * A repository kept from before a commit does qualify: it writes into containers that the
   * shared store has taken over, so its writes are published with no commit at all.
   */
  method StaleRepositoryWritesThrough(uow: UnitOfWork, row: Job)
    requires uow.Valid() && row.id !in uow.working.Contents().jobs
    modifies uow, uow.shared, uow.working.jobs
    ensures uow.shared.Contents().jobs == old(uow.working.Contents().jobs)[row.id := row]
    ensures uow.working.Contents().jobs == old(uow.working.Contents().jobs)
  {
    hide WellKeyed;
    var stale := uow.jobs;
    uow.Commit();
    var r := stale.Enqueue(row);
  }
}
