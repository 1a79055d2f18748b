/** What each repository operation does to the database, as a function. */
module Tables {
  import opened Prelude
  import opened Text
  import opened Records

  /** Rows sit under their own identifier, and no idempotency key is used twice by a tenant. */
  ghost predicate WellKeyed(db: Db) {
    && (forall i :: i in db.investigations ==> db.investigations[i].id == i)
    && (forall j :: j in db.jobs ==> db.jobs[j].id == j)
    && (forall a, b :: a in db.investigations && b in db.investigations ==>
          SameKey(db.investigations[a], db.investigations[b]) ==> a == b)
  }

  predicate HasKey(row: Investigation, tenant: string, key: Option<string>) {
    key.Some? && row.context.tenant == tenant && row.idempotencyKey == key
  }

  predicate SameKey(a: Investigation, b: Investigation) {
    HasKey(a, b.context.tenant, b.idempotencyKey)
  }

  // ----- investigations -----

  ghost function ByKey(db: Db, tenant: string, key: Option<string>): (r: Option<Investigation>)
    ensures r.Some? <==> exists i :: i in db.investigations && HasKey(db.investigations[i], tenant, key)
    ensures r.Some? ==>
      HasKey(r.value, tenant, key) && exists i :: i in db.investigations && db.investigations[i] == r.value
  {
    if i :| i in db.investigations && HasKey(db.investigations[i], tenant, key) then Some(db.investigations[i])
    else None
  }

  ghost function Create(db: Db, row: Investigation): Result<(Db, Investigation), PersistenceError> {
    var existing := ByKey(db, row.context.tenant, row.idempotencyKey);
    if existing.Some? then Success((db, existing.value))
    else if row.id in db.investigations then Failure(IdempotencyConflict)
    else Success((db.(investigations := db.investigations[row.id := row]), row))
  }

  function GetInvestigation(db: Db, tenant: string, id: Uuid): Result<Investigation, PersistenceError> {
    if id in db.investigations && db.investigations[id].context.tenant == tenant then Success(db.investigations[id])
    else Failure(RecordNotFound)
  }

  function SetInvestigationStatus(db: Db, tenant: string, id: Uuid, status: InvestigationStatus)
    : Result<Db, PersistenceError>
  {
    var row :- GetInvestigation(db, tenant, id);
    Success(db.(investigations := db.investigations[id := row.(status := status)]))
  }

  // ----- jobs -----

  function Enqueue(db: Db, row: Job): Result<Db, PersistenceError> {
    if row.id in db.jobs then Failure(IdempotencyConflict)
    else Success(db.(jobs := db.jobs[row.id := row]))
  }

  predicate Claimable(job: Job, now: Instant) {
    (job.status.Queued? && job.availableAt <= now)
    || (job.status.Claimed? && job.leaseExpiresAt.Some? && job.leaseExpiresAt.value <= now)
  }

  /** Queue order: earliest availability, then identifier. */
  predicate Before(a: Job, b: Job) {
    a.availableAt < b.availableAt || (a.availableAt == b.availableAt && a.id <= b.id)
  }

  ghost predicate IsFirst(jobs: map<Uuid, Job>, now: Instant, j: Uuid) {
    && j in jobs && Claimable(jobs[j], now)
    && forall k :: k in jobs && Claimable(jobs[k], now) ==> Before(jobs[j], jobs[k])
  }

  lemma {:induction false} FirstExists(jobs: map<Uuid, Job>, ids: set<Uuid>, now: Instant) returns (first: Uuid)
    requires ids <= jobs.Keys && exists k :: k in ids && Claimable(jobs[k], now)
    ensures first in ids && Claimable(jobs[first], now)
    ensures forall k :: k in ids && Claimable(jobs[k], now) ==> Before(jobs[first], jobs[k])
    decreases |ids|
  {
    first :| first in ids && Claimable(jobs[first], now);
    var rest := ids - {first};
    if exists k :: k in rest && Claimable(jobs[k], now) {
      var other := FirstExists(jobs, rest, now);
      if !Before(jobs[first], jobs[other]) {
        first := other;
      }
    }
  }

  ghost function ClaimChoice(jobs: map<Uuid, Job>, now: Instant): (r: Option<Uuid>)
    ensures r.Some? ==> IsFirst(jobs, now, r.value)
    ensures r.None? <==> forall k :: k in jobs ==> !Claimable(jobs[k], now)
  {
    if exists k :: k in jobs && Claimable(jobs[k], now) then
      assert exists j :: IsFirst(jobs, now, j) by {
        var j := FirstExists(jobs, jobs.Keys, now);
        assert IsFirst(jobs, now, j);
      }
      var j :| IsFirst(jobs, now, j);
      Some(j)
    else None
  }

  /** With rows under their own identifiers, the choice is forced. */
  lemma ClaimChoiceIsForced(jobs: map<Uuid, Job>, now: Instant, j: Uuid)
    requires (forall k :: k in jobs ==> jobs[k].id == k) && IsFirst(jobs, now, j)
    ensures ClaimChoice(jobs, now) == Some(j)
  {
  }

  /** Scans the table for the first claimable job in queue order. */
  method SelectFirst(jobs: map<Uuid, Job>, now: Instant) returns (first: Option<Uuid>)
    requires forall k :: k in jobs ==> jobs[k].id == k
    ensures first == ClaimChoice(jobs, now)
  {
    var rest := jobs.Keys;
    first := None;
    while rest != {}
      invariant rest <= jobs.Keys
      invariant first.None? ==> forall k :: k in jobs && k !in rest ==> !Claimable(jobs[k], now)
      invariant first.Some? ==> first.value in jobs && Claimable(jobs[first.value], now)
      invariant first.Some? ==> forall k :: k in jobs && k !in rest && Claimable(jobs[k], now)
                                  ==> Before(jobs[first.value], jobs[k])
      decreases |rest|
    {
      var k :| k in rest;
      if Claimable(jobs[k], now) && (first.None? || !Before(jobs[first.value], jobs[k])) {
        first := Some(k);
      }
      rest := rest - {k};
    }
    if first.Some? {
      ClaimChoiceIsForced(jobs, now, first.value);
    }
  }

  function ClaimedRow(job: Job, worker: string, lease: int, now: Instant): Job {
    job.(status := Claimed, claimedBy := Some(worker), claimedAt := Some(now),
         leaseExpiresAt := Some(now + lease), attemptCount := job.attemptCount + 1)
  }

  function ClaimTicket(job: Job, worker: string, lease: int, now: Instant): ClaimedJob {
    ClaimedJob(job.id, job.investigation, job.tenant, worker, now + lease, job.attemptCount + 1)
  }

  ghost function Claim(db: Db, worker: string, lease: int, now: Instant)
    : Result<(Db, Option<ClaimedJob>), PersistenceError>
  {
    if !NonBlank(worker) then Failure(InvalidRecord)
    else
      match ClaimChoice(db.jobs, now)
      case None => Success((db, None))
      case Some(j) =>
        var job := db.jobs[j];
        Success((db.(jobs := db.jobs[job.id := ClaimedRow(job, worker, lease, now)]),
                 Some(ClaimTicket(job, worker, lease, now))))
  }

  function GetJob(db: Db, tenant: string, id: Uuid): Result<Job, PersistenceError> {
    if id in db.jobs && db.jobs[id].tenant == tenant then Success(db.jobs[id]) else Failure(RecordNotFound)
  }

  function SetJobStatus(db: Db, tenant: string, id: Uuid, status: JobStatus): Result<Db, PersistenceError> {
    var row :- GetJob(db, tenant, id);
    Success(db.(jobs := db.jobs[id := row.(status := status)]))
  }

  // ----- attempts, evidence, reports, audit -----

  predicate AttemptTaken(attempts: map<Uuid, Attempt>, job: Uuid, number: nat) {
    exists a :: a in attempts && attempts[a].job == job && attempts[a].number == number
  }

  function RecordAttempt(db: Db, row: Attempt): Result<Db, PersistenceError> {
    if AttemptTaken(db.attempts, row.job, row.number) then Failure(IdempotencyConflict)
    else Success(db.(attempts := db.attempts[row.id := row]))
  }

  function KeyOf(row: Evidence): EvidenceKey {
    EvidenceKey(row.tenant, row.run, row.id)
  }

  function Appended(table: map<EvidenceKey, Evidence>, rows: seq<Evidence>): map<EvidenceKey, Evidence> {
    if rows == [] then table
    else
      var front, last := Appended(table, rows[..|rows| - 1]), rows[|rows| - 1];
      if KeyOf(last) in front then front else front[KeyOf(last) := last]
  }

  function AppendEvidence(db: Db, rows: seq<Evidence>): Db {
    db.(evidence := Appended(db.evidence, rows))
  }

  function PutReport(db: Db, row: Report): Result<Db, PersistenceError> {
    if row.investigation in db.reports then Failure(IdempotencyConflict)
    else Success(db.(reports := db.reports[row.investigation := row]))
  }

  function GetReport(db: Db, tenant: string, id: Uuid): Result<Report, PersistenceError> {
    if id in db.reports && db.reports[id].tenant == tenant then Success(db.reports[id]) else Failure(RecordNotFound)
  }

  function AppendAudit(db: Db, row: Audit): Db {
    db.(audit := db.audit + [row])
  }

  // ----- every operation keeps rows keyed -----

  lemma CreateKeepsKeys(db: Db, row: Investigation)
    requires WellKeyed(db)
    ensures Create(db, row).Success? ==> WellKeyed(Create(db, row).value.0)
  {
    var existing := ByKey(db, row.context.tenant, row.idempotencyKey);
    if existing.None? && row.id !in db.investigations {
      var after := db.investigations[row.id := row];
      forall a, b | a in after && b in after && SameKey(after[a], after[b])
        ensures a == b
      {
        assert b in db.investigations ==> !HasKey(db.investigations[b], row.context.tenant, row.idempotencyKey);
        assert a in db.investigations ==> !HasKey(db.investigations[a], row.context.tenant, row.idempotencyKey);
      }
    }
  }

  lemma StatusKeepsKeys(db: Db, tenant: string, id: Uuid, status: InvestigationStatus)
    requires WellKeyed(db)
    ensures SetInvestigationStatus(db, tenant, id, status).Success?
      ==> WellKeyed(SetInvestigationStatus(db, tenant, id, status).value)
  {
    var r := SetInvestigationStatus(db, tenant, id, status);
    if r.Success? {
      var after := r.value.investigations;
      forall a, b | a in after && b in after && SameKey(after[a], after[b])
        ensures a == b
      {
        assert SameKey(db.investigations[a], db.investigations[b]);
      }
    }
  }

  lemma ClaimKeepsKeys(db: Db, worker: string, lease: int, now: Instant)
    requires WellKeyed(db)
    ensures Claim(db, worker, lease, now).Success? ==> WellKeyed(Claim(db, worker, lease, now).value.0)
  {
  }

  /** Recording loses an earlier attempt exactly when the new row reuses its identifier: nothing checks for that. */
  lemma RecordingKeepsRowsIffFresh(db: Db, row: Attempt)
    requires RecordAttempt(db, row).Success?
    ensures (forall a :: a in db.attempts ==> RecordAttempt(db, row).value.attempts[a] == db.attempts[a])
      <==> row.id !in db.attempts
  {
    if row.id in db.attempts {
      var earlier := db.attempts[row.id];
      assert earlier.job != row.job || earlier.number != row.number;
      assert RecordAttempt(db, row).value.attempts[row.id] == row;
    }
  }

  /** Appending never changes a stored row and stores every requested key. */
  lemma {:induction false} AppendedKeepsRows(table: map<EvidenceKey, Evidence>, rows: seq<Evidence>)
    ensures forall k :: k in table ==> k in Appended(table, rows) && Appended(table, rows)[k] == table[k]
    ensures forall i :: 0 <= i < |rows| ==> KeyOf(rows[i]) in Appended(table, rows)
    ensures forall k :: k in Appended(table, rows) && k !in table ==>
      exists i :: 0 <= i < |rows| && KeyOf(rows[i]) == k && Appended(table, rows)[k] == rows[i]
  {
    if rows != [] {
      var front, last := rows[..|rows| - 1], rows[|rows| - 1];
      AppendedKeepsRows(table, front);
      forall k | k in Appended(table, rows) && k !in table
        ensures exists i :: 0 <= i < |rows| && KeyOf(rows[i]) == k && Appended(table, rows)[k] == rows[i]
      {
        if k in Appended(table, front) {
          var i :| 0 <= i < |front| && KeyOf(front[i]) == k && Appended(table, front)[k] == front[i];
          assert rows[i] == front[i];
        } else {
          assert rows[|rows| - 1] == last;
        }
      }
      forall i | 0 <= i < |rows|
        ensures KeyOf(rows[i]) in Appended(table, rows)
      {
        if i < |front| {
          assert front[i] == rows[i];
        }
      }
    }
  }
}
