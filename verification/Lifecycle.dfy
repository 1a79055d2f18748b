/** What every run keeps: one job per investigation, agreeing statuses, numbered attempts, grounded reports. */
module Lifecycle {
  import opened Prelude
  import opened Text
  import opened Domain
  import opened Baseline
  import opened Hypotheses
  import Ledger
  import Verifier
  import opened Serialization
  import opened Records
  import opened Tables
  import opened Application

  // ----- the invariant -----

  /** Every job belongs to an investigation of its tenant, and no committed job is mid-flight. */
  ghost predicate Linked(db: Db) {
    forall j :: j in db.jobs ==>
      && db.jobs[j].investigation in db.investigations
      && db.investigations[db.jobs[j].investigation].context.tenant == db.jobs[j].tenant
      && (db.jobs[j].status.Queued? || db.jobs[j].status.JobSucceeded? || db.jobs[j].status.JobFailed?)
  }

  ghost predicate HasJob(db: Db, i: Uuid) {
    exists j :: j in db.jobs && db.jobs[j].investigation == i
  }

  /** Every investigation has exactly one job. */
  ghost predicate OneJobEach(db: Db) {
    && (forall i :: i in db.investigations ==> HasJob(db, i))
    && (forall j, k :: j in db.jobs && k in db.jobs && db.jobs[j].investigation == db.jobs[k].investigation ==> j == k)
  }

  /** The status of an investigation is the status of its job. */
  predicate Agree(status: InvestigationStatus, job: Job) {
    match status
    case Pending => job.status.Queued? && job.attemptCount == 0
    case Running => job.status.Queued? && job.attemptCount >= 1
    case Succeeded => job.status.JobSucceeded? && job.attemptCount >= 1
    case Failed => job.status.JobFailed? && job.attemptCount >= 1
    case Cancelled => false
  }

  ghost predicate StatusesAgree(db: Db) {
    forall j :: j in db.jobs && db.jobs[j].investigation in db.investigations
      ==> Agree(db.investigations[db.jobs[j].investigation].status, db.jobs[j])
  }

  predicate SameSlot(a: Attempt, b: Attempt) {
    a.job == b.job && a.number == b.number
  }

  ghost predicate NumbersInRange(db: Db) {
    forall a :: a in db.attempts ==>
      && db.attempts[a].job in db.jobs && db.attempts[a].tenant == db.jobs[db.attempts[a].job].tenant
      && 1 <= db.attempts[a].number <= db.jobs[db.attempts[a].job].attemptCount
  }

  ghost predicate NumbersUnique(db: Db) {
    forall a, b :: a in db.attempts && b in db.attempts && SameSlot(db.attempts[a], db.attempts[b]) ==> a == b
  }

  ghost predicate NumbersComplete(db: Db) {
    forall j, n :: j in db.jobs && 1 <= n <= db.jobs[j].attemptCount ==> AttemptTaken(db.attempts, j, n)
  }

  /** The attempts of a job are numbered exactly from one to its attempt count, once each. */
  ghost predicate Numbered(db: Db) {
    NumbersInRange(db) && NumbersUnique(db) && NumbersComplete(db)
  }

  /** Exactly the succeeded investigations have a report, and it is theirs. */
  ghost predicate Reported(db: Db) {
    && (forall i :: i in db.reports <==> i in db.investigations && db.investigations[i].status.Succeeded?)
    && (forall i :: i in db.reports ==>
          && db.reports[i].investigation == i
          && db.reports[i].tenant == db.investigations[i].context.tenant
          && db.reports[i].run == db.investigations[i].context.run)
  }

  predicate Cites(report: Report, id: EvidenceId) {
    id in report.payload.supporting || id in report.payload.contradicting
  }

  /** Stored evidence is what its identifier addresses, and everything a report cites is stored. */
  ghost predicate Grounded(db: Db) {
    && (forall k :: k in db.evidence ==> RowAddressed(k, db.evidence[k]))
    && (forall i, id :: i in db.reports && Cites(db.reports[i], id)
          ==> EvidenceKey(db.reports[i].tenant, db.reports[i].run, id) in db.evidence)
  }

  predicate RowAddressed(k: EvidenceKey, row: Evidence) {
    k.id.MetricDigest? && KeyOf(row) == k && row.payload == Addressed(k.id)
  }

  /** Every investigation was opened with a well-formed context and window. */
  ghost predicate Formed(db: Db) {
    forall i :: i in db.investigations ==> HeaderFormed(db.investigations[i])
  }

  predicate HeaderFormed(inv: Investigation) {
    inv.context.Valid() && inv.window.Valid()
  }

  /** The part about investigations, jobs and attempts. */
  ghost predicate Core(db: Db) {
    WellKeyed(db) && Linked(db) && OneJobEach(db) && StatusesAgree(db) && Numbered(db)
  }

  ghost predicate Inv(db: Db) {
    Core(db) && Reported(db) && Grounded(db) && Formed(db)
  }

  // ----- the effect of one turn, in closed form -----

  /** The claimed job, its investigation and its attempt row after the turn. */
  function Settled(db: Db, job: Job, w: Worker, turn: Turn,
                   jobStatus: JobStatus, status: InvestigationStatus, outcome: AttemptOutcome, code: Option<string>): Db
    requires job.investigation in db.investigations
  {
    var inv := db.investigations[job.investigation];
    db.(investigations := db.investigations[job.investigation := inv.(status := status)],
        jobs := db.jobs[job.id := ClaimedRow(job, w.id, w.lease, turn.now).(status := jobStatus)],
        attempts := db.attempts[turn.attemptId :=
          Attempt(turn.attemptId, job.id, job.tenant, job.attemptCount + 1, w.id, outcome, code)])
  }

  function Succeeding(db: Db, job: Job, w: Worker, turn: Turn, rows: seq<Evidence>, report: Report): Db
    requires job.investigation in db.investigations
  {
    Settled(db, job, w, turn, JobSucceeded, Succeeded, AttemptSucceeded, None).(
      evidence := Appended(db.evidence, rows),
      reports := db.reports[job.investigation := report],
      audit := db.audit + [Audit(job.tenant, job.investigation, w.id, "report.persisted", None)])
  }

  function Failing(db: Db, job: Job, w: Worker, turn: Turn, code: string): Db
    requires job.investigation in db.investigations
  {
    Settled(db, job, w, turn, JobFailed, Failed, AttemptFailed, Some(code)).(
      audit := db.audit + [Audit(job.tenant, job.investigation, w.id, "investigation.failed", Some(code))])
  }

  function Retrying(db: Db, job: Job, w: Worker, turn: Turn, code: string): Db
    requires job.investigation in db.investigations
  {
    Settled(db, job, w, turn, Queued, Running, AttemptFailed, Some(code))
  }

  /** Success, failure or retry of the job that was claimed. */
  function Outcome(db: Db, job: Job, w: Worker, turn: Turn): Db
    requires job.investigation in db.investigations && w.Valid() && turn.Valid()
  {
    match Analyse(db.investigations[job.investigation], w.policy, turn)
    case Conclusion(rows, report) => Succeeding(db, job, w, turn, rows, report)
    case TerminalFailure(code) => Failing(db, job, w, turn, code)
    case Crash => Failing(db, job, w, turn, "internal_error")
    case RetryableFailure(code) =>
      if job.attemptCount + 1 >= w.maxAttempts then Failing(db, job, w, turn, code)
      else Retrying(db, job, w, turn, code)
  }

  /** The statuses and attempt a job settles with, by how its analysis ended. */
  datatype Settlement = Settlement(
    job: JobStatus, investigation: InvestigationStatus, outcome: AttemptOutcome, code: Option<string>)

  function SettlementOf(job: Job, w: Worker, a: Analysis): Settlement {
    match a
    case Conclusion(_, _) => Settlement(JobSucceeded, Succeeded, AttemptSucceeded, None)
    case TerminalFailure(code) => Settlement(JobFailed, Failed, AttemptFailed, Some(code))
    case Crash => Settlement(JobFailed, Failed, AttemptFailed, Some("internal_error"))
    case RetryableFailure(code) =>
      if job.attemptCount + 1 >= w.maxAttempts then Settlement(JobFailed, Failed, AttemptFailed, Some(code))
      else Settlement(Queued, Running, AttemptFailed, Some(code))
  }

  /** Every outcome settles the job, its investigation and its attempt; the rest is evidence, report and audit. */
  lemma OutcomeIsSettled(db: Db, job: Job, w: Worker, turn: Turn)
    requires job.investigation in db.investigations && w.Valid() && turn.Valid()
    ensures var s := SettlementOf(job, w, Analyse(db.investigations[job.investigation], w.policy, turn));
            var settled := Settled(db, job, w, turn, s.job, s.investigation, s.outcome, s.code);
            var next := Outcome(db, job, w, turn);
            next == settled.(evidence := next.evidence, reports := next.reports, audit := next.audit)
  {
    hide Analyse, Appended, Settled, NonBlank;
    match Analyse(db.investigations[job.investigation], w.policy, turn)
    case Conclusion(_, _) => SettledOnly(db, job, w, turn, JobSucceeded, Succeeded, AttemptSucceeded, None);
    case TerminalFailure(code) => SettledOnly(db, job, w, turn, JobFailed, Failed, AttemptFailed, Some(code));
    case Crash => SettledOnly(db, job, w, turn, JobFailed, Failed, AttemptFailed, Some("internal_error"));
    case RetryableFailure(code) =>
      SettledOnly(db, job, w, turn, JobFailed, Failed, AttemptFailed, Some(code));
      SettledOnly(db, job, w, turn, Queued, Running, AttemptFailed, Some(code));
  }

  /** Settling leaves evidence, reports and audit to the outcome. */
  lemma SettledOnly(db: Db, job: Job, w: Worker, turn: Turn, jobStatus: JobStatus, status: InvestigationStatus,
                    outcome: AttemptOutcome, code: Option<string>)
    requires job.investigation in db.investigations
    ensures var settled := Settled(db, job, w, turn, jobStatus, status, outcome, code);
            settled.evidence == db.evidence && settled.reports == db.reports && settled.audit == db.audit
  {
  }

  /** Nothing stands in the way of processing this queued job. */
  ghost predicate Ready(db: Db, j: Uuid) {
    && j in db.jobs && db.jobs[j].id == j && db.jobs[j].investigation in db.investigations
    && var job, inv := db.jobs[j], db.investigations[db.jobs[j].investigation];
    && inv.id == job.investigation && inv.context.tenant == job.tenant && !inv.status.Cancelled?
    && job.investigation !in db.reports
    && !AttemptTaken(db.attempts, j, job.attemptCount + 1)
  }

  lemma QueuedIsReady(db: Db, j: Uuid)
    requires Inv(db) && j in db.jobs && db.jobs[j].status.Queued?
    ensures Ready(db, j)
  {
    var job := db.jobs[j];
    assert Agree(db.investigations[job.investigation].status, job);
  }

  lemma ConclusionShape(inv: Investigation, policy: Policy, turn: Turn)
    requires policy.Valid() && turn.Valid() && Analyse(inv, policy, turn).Conclusion?
    ensures var report := Analyse(inv, policy, turn).report;
            report.investigation == inv.id && report.tenant == inv.context.tenant && report.run == inv.context.run
  {
    hide Ledger.Compile, Rank, ParseProposal, Verifier.Verify, EvidenceRows, VerificationPayloadOf, BaselinePayloadOf;
  }

  /** The claimed database inside the open transaction. */
  function ClaimedDb(db: Db, job: Job, w: Worker, turn: Turn): Db {
    db.(jobs := db.jobs[job.id := ClaimedRow(job, w.id, w.lease, turn.now)])
  }

  lemma SucceedEffect(db: Db, j: Uuid, w: Worker, turn: Turn, rows: seq<Evidence>, report: Report)
    requires Ready(db, j) && w.Valid() && turn.Valid()
    requires Analyse(db.investigations[db.jobs[j].investigation], w.policy, turn) == Conclusion(rows, report)
    ensures var job := db.jobs[j];
            Process(ClaimedDb(db, job, w, turn), ClaimTicket(job, w.id, w.lease, turn.now),
                    db.investigations[job.investigation], w, turn)
            == Success(Succeeding(db, job, w, turn, rows, report))
  {
    hide Analyse, Appended, AttemptTaken, NonBlank;
    var job := db.jobs[j];
    var inv, i, c := db.investigations[job.investigation], job.investigation, ClaimTicket(job, w.id, w.lease, turn.now);
    ConclusionShape(inv, w.policy, turn);
    var claimed := ClaimedDb(db, job, w, turn);
    var running := SetInvestigationStatus(claimed, c.tenant, c.investigation, Running).value;
    var written := Application.RunPipeline(running, inv, w, turn);
    assert written.1 == Completed;
    assert written.0.investigations == db.investigations[i := inv.(status := Succeeded)];
    assert written.0.jobs == claimed.jobs && written.0.attempts == db.attempts;
    var done := SetJobStatus(written.0, c.tenant, c.job, JobSucceeded);
    assert done.value.jobs == db.jobs[j := ClaimedRow(job, w.id, w.lease, turn.now).(status := JobSucceeded)];
  }

  lemma FailEffect(db: Db, j: Uuid, w: Worker, turn: Turn, code: string)
    requires Ready(db, j)
    ensures var job := db.jobs[j];
            var c := ClaimTicket(job, w.id, w.lease, turn.now);
            var running := SetInvestigationStatus(ClaimedDb(db, job, w, turn), c.tenant, c.investigation, Running);
            && running.Success?
            && TerminalFail(running.value, c, w, turn, code) == Success(Failing(db, job, w, turn, code))
  {
    hide AttemptTaken;
    var job := db.jobs[j];
    var inv, i, c := db.investigations[job.investigation], job.investigation, ClaimTicket(job, w.id, w.lease, turn.now);
    var claimed := ClaimedDb(db, job, w, turn);
    var running := SetInvestigationStatus(claimed, c.tenant, c.investigation, Running).value;
    var failed := SetInvestigationStatus(running, c.tenant, c.investigation, Failed);
    assert failed.value.investigations == db.investigations[i := inv.(status := Failed)];
    var stopped := SetJobStatus(failed.value, c.tenant, c.job, JobFailed);
    assert stopped.value.jobs == db.jobs[j := ClaimedRow(job, w.id, w.lease, turn.now).(status := JobFailed)];
  }

  lemma RetryEffect(db: Db, j: Uuid, w: Worker, turn: Turn, code: string)
    requires Ready(db, j)
    ensures var job := db.jobs[j];
            var c := ClaimTicket(job, w.id, w.lease, turn.now);
            var running := SetInvestigationStatus(ClaimedDb(db, job, w, turn), c.tenant, c.investigation, Running);
            running.Success? && RetryOrFail(running.value, c, w, turn, code)
            == Success(if job.attemptCount + 1 >= w.maxAttempts then Failing(db, job, w, turn, code)
                       else Retrying(db, job, w, turn, code))
  {
    hide AttemptTaken, TerminalFail;
    FailEffect(db, j, w, turn, code);
    var job := db.jobs[j];
    var c := ClaimTicket(job, w.id, w.lease, turn.now);
    var claimed := ClaimedDb(db, job, w, turn);
    var running := SetInvestigationStatus(claimed, c.tenant, c.investigation, Running).value;
    var requeued := SetJobStatus(running, c.tenant, c.job, Queued);
    assert requeued.value.jobs == db.jobs[j := ClaimedRow(job, w.id, w.lease, turn.now).(status := Queued)];
  }

  lemma ProcessEffect(db: Db, j: Uuid, w: Worker, turn: Turn)
    requires Ready(db, j) && w.Valid() && turn.Valid()
    ensures var job := db.jobs[j];
            Process(ClaimedDb(db, job, w, turn), ClaimTicket(job, w.id, w.lease, turn.now),
                    db.investigations[job.investigation], w, turn)
            == Success(Outcome(db, job, w, turn))
  {
    hide Analyse, TerminalFail, RetryOrFail, Succeed, Failing, Retrying, Succeeding, ClaimedDb, SetInvestigationStatus,
         NonBlank, ClaimTicket;
    var job := db.jobs[j];
    match Analyse(db.investigations[job.investigation], w.policy, turn)
    case Conclusion(rows, report) => SucceedEffect(db, j, w, turn, rows, report);
    case TerminalFailure(code) => FailEffect(db, j, w, turn, code);
    case Crash => FailEffect(db, j, w, turn, "internal_error");
    case RetryableFailure(code) => RetryEffect(db, j, w, turn, code);
  }

  /**
   * From any state that keeps the invariant, a turn either finds no due job and changes
   * nothing, or settles the first queued job; no exception escapes, and neither the report
   * conflict, the missing investigation nor the post-write catch-all is ever reached.
   */
  lemma TurnEffect(db: Db, w: Worker, turn: Turn)
    requires Inv(db) && w.Valid() && turn.Valid()
    ensures RunOnce(db, w, turn)
            == match ClaimChoice(db.jobs, turn.now)
               case None => (db, NoJob)
               case Some(j) => (Outcome(db, db.jobs[j], w, turn), Processed)
    ensures ClaimChoice(db.jobs, turn.now).Some? ==> db.jobs[ClaimChoice(db.jobs, turn.now).value].status.Queued?
  {
    hide Process, Outcome, Inv, SetJobStatus;
    var choice := ClaimChoice(db.jobs, turn.now);
    if choice.Some? {
      var j := choice.value;
      ChoiceIsQueued(db, j, turn.now);
      QueuedIsReady(db, j);
      ProcessEffect(db, j, w, turn);
      var job := db.jobs[j];
      assert GetInvestigation(ClaimedDb(db, job, w, turn), job.tenant, job.investigation)
             == Success(db.investigations[job.investigation]);
    }
  }

  lemma ChoiceIsQueued(db: Db, j: Uuid, now: Instant)
    requires Inv(db) && IsFirst(db.jobs, now, j)
    ensures db.jobs[j].status.Queued? && db.jobs[j].id == j
  {
  }

  // ----- a settled job keeps each part of the invariant -----

  /** The row and status a job may settle with. */
  predicate Settles(job: Job, jobStatus: JobStatus, status: InvestigationStatus) {
    Agree(status, job.(status := jobStatus, attemptCount := job.attemptCount + 1))
  }

  lemma SettledWellKeyed(db: Db, j: Uuid, w: Worker, turn: Turn,
                         jobStatus: JobStatus, status: InvestigationStatus, outcome: AttemptOutcome,
                         code: Option<string>)
    requires WellKeyed(db) && Ready(db, j)
    ensures WellKeyed(Settled(db, db.jobs[j], w, turn, jobStatus, status, outcome, code))
  {
    hide AttemptTaken, HasKey;
    var after := Settled(db, db.jobs[j], w, turn, jobStatus, status, outcome, code).investigations;
    forall a, b | a in after && b in after && SameKey(after[a], after[b])
      ensures a == b
    {
      SameKeyIgnoresStatus(db.investigations[a], after[a], db.investigations[b], after[b]);
    }
  }

  lemma SameKeyIgnoresStatus(a: Investigation, a': Investigation, b: Investigation, b': Investigation)
    requires a' == a.(status := a'.status) && b' == b.(status := b'.status)
    ensures SameKey(a, b) <==> SameKey(a', b')
  {
  }

  lemma SettledLinks(db: Db, j: Uuid, w: Worker, turn: Turn,
                     jobStatus: JobStatus, status: InvestigationStatus, outcome: AttemptOutcome, code: Option<string>)
    requires Linked(db) && Ready(db, j) && Settles(db.jobs[j], jobStatus, status)
    ensures Linked(Settled(db, db.jobs[j], w, turn, jobStatus, status, outcome, code))
  {
    hide AttemptTaken;
  }

  lemma SettledHasOneJob(db: Db, j: Uuid, w: Worker, turn: Turn,
                         jobStatus: JobStatus, status: InvestigationStatus, outcome: AttemptOutcome,
                         code: Option<string>)
    requires OneJobEach(db) && Ready(db, j)
    ensures OneJobEach(Settled(db, db.jobs[j], w, turn, jobStatus, status, outcome, code))
  {
    hide AttemptTaken;
    var next := Settled(db, db.jobs[j], w, turn, jobStatus, status, outcome, code);
    forall i | i in next.investigations
      ensures HasJob(next, i)
    {
      assert i in db.investigations && HasJob(db, i);
      var k :| k in db.jobs && db.jobs[k].investigation == i;
      assert k in next.jobs && next.jobs[k].investigation == i;
    }
  }

  lemma SettledAgrees(db: Db, j: Uuid, w: Worker, turn: Turn,
                      jobStatus: JobStatus, status: InvestigationStatus, outcome: AttemptOutcome, code: Option<string>)
    requires OneJobEach(db) && StatusesAgree(db) && Ready(db, j) && Settles(db.jobs[j], jobStatus, status)
    ensures StatusesAgree(Settled(db, db.jobs[j], w, turn, jobStatus, status, outcome, code))
  {
    hide AttemptTaken, HasJob;
    var next := Settled(db, db.jobs[j], w, turn, jobStatus, status, outcome, code);
    forall k | k in next.jobs && next.jobs[k].investigation in next.investigations
      ensures Agree(next.investigations[next.jobs[k].investigation].status, next.jobs[k])
    {
      if k != j {
        assert db.jobs[k].investigation != db.jobs[j].investigation;
      }
    }
  }

  lemma SettledNumbersInRange(db: Db, j: Uuid, w: Worker, turn: Turn,
                              jobStatus: JobStatus, status: InvestigationStatus, outcome: AttemptOutcome,
                              code: Option<string>)
    requires NumbersInRange(db) && Ready(db, j) && turn.attemptId !in db.attempts
    ensures NumbersInRange(Settled(db, db.jobs[j], w, turn, jobStatus, status, outcome, code))
  {
    hide AttemptTaken;
  }

  lemma SettledNumbersUnique(db: Db, j: Uuid, w: Worker, turn: Turn,
                             jobStatus: JobStatus, status: InvestigationStatus, outcome: AttemptOutcome,
                             code: Option<string>)
    requires NumbersInRange(db) && NumbersUnique(db) && Ready(db, j) && turn.attemptId !in db.attempts
    ensures NumbersUnique(Settled(db, db.jobs[j], w, turn, jobStatus, status, outcome, code))
  {
    hide AttemptTaken;
    var next := Settled(db, db.jobs[j], w, turn, jobStatus, status, outcome, code);
    forall a, b | a in next.attempts && b in next.attempts && SameSlot(next.attempts[a], next.attempts[b])
      ensures a == b
    {
      assert a in db.attempts ==> !SameSlot(db.attempts[a], next.attempts[turn.attemptId]);
      assert b in db.attempts ==> !SameSlot(db.attempts[b], next.attempts[turn.attemptId]);
    }
  }

  lemma SettledNumbersComplete(db: Db, j: Uuid, w: Worker, turn: Turn,
                               jobStatus: JobStatus, status: InvestigationStatus, outcome: AttemptOutcome,
                               code: Option<string>)
    requires NumbersComplete(db) && Ready(db, j) && turn.attemptId !in db.attempts
    ensures NumbersComplete(Settled(db, db.jobs[j], w, turn, jobStatus, status, outcome, code))
  {
    var next := Settled(db, db.jobs[j], w, turn, jobStatus, status, outcome, code);
    forall k, n | k in next.jobs && 1 <= n <= next.jobs[k].attemptCount
      ensures AttemptTaken(next.attempts, k, n)
    {
      if k == j && n == db.jobs[j].attemptCount + 1 {
        assert next.attempts[turn.attemptId].job == k && next.attempts[turn.attemptId].number == n;
      } else {
        assert AttemptTaken(db.attempts, k, n);
        var a :| a in db.attempts && db.attempts[a].job == k && db.attempts[a].number == n;
        assert a in next.attempts && next.attempts[a] == db.attempts[a];
      }
    }
  }

  lemma SettledCore(db: Db, j: Uuid, w: Worker, turn: Turn,
                    jobStatus: JobStatus, status: InvestigationStatus, outcome: AttemptOutcome, code: Option<string>)
    requires Inv(db) && Ready(db, j) && Settles(db.jobs[j], jobStatus, status) && turn.attemptId !in db.attempts
    ensures Core(Settled(db, db.jobs[j], w, turn, jobStatus, status, outcome, code))
  {
    hide Ready, WellKeyed, Linked, OneJobEach, StatusesAgree, NumbersInRange, NumbersUnique, NumbersComplete, Reported,
         Grounded,
         Formed;
    SettledWellKeyed(db, j, w, turn, jobStatus, status, outcome, code);
    SettledLinks(db, j, w, turn, jobStatus, status, outcome, code);
    SettledHasOneJob(db, j, w, turn, jobStatus, status, outcome, code);
    SettledAgrees(db, j, w, turn, jobStatus, status, outcome, code);
    SettledNumbersInRange(db, j, w, turn, jobStatus, status, outcome, code);
    SettledNumbersUnique(db, j, w, turn, jobStatus, status, outcome, code);
    SettledNumbersComplete(db, j, w, turn, jobStatus, status, outcome, code);
  }

  /** Evidence, reports and audit rows do not matter to the job and attempt parts. */
  lemma ExtrasKeepCore(db: Db, next: Db)
    requires Core(db)
    requires next.investigations == db.investigations && next.jobs == db.jobs && next.attempts == db.attempts
    ensures Core(next)
  {
    hide Agree, Numbered, OneJobEach, HasKey;
    ExtrasKeepJobs(db, next);
    ExtrasKeepNumbers(db, next);
  }

  lemma ExtrasKeepJobs(db: Db, next: Db)
    requires OneJobEach(db) && next.investigations == db.investigations && next.jobs == db.jobs
    ensures OneJobEach(next)
  {
    forall i | i in next.investigations
      ensures HasJob(next, i)
    {
      assert HasJob(db, i);
    }
  }

  lemma ExtrasKeepNumbers(db: Db, next: Db)
    requires Numbered(db) && next.jobs == db.jobs && next.attempts == db.attempts
    ensures Numbered(next)
  {
    hide AttemptTaken, SameSlot;
  }

  lemma HeaderIgnoresStatus(inv: Investigation, status: InvestigationStatus)
    ensures HeaderFormed(inv.(status := status)) <==> HeaderFormed(inv)
  {
  }

  lemma UnreportedStays(db: Db, j: Uuid, w: Worker, turn: Turn, jobStatus: JobStatus, status: InvestigationStatus,
                        code: string)
    requires Reported(db) && Grounded(db) && Formed(db) && Ready(db, j) && !status.Succeeded?
    ensures var next := Settled(db, db.jobs[j], w, turn, jobStatus, status, AttemptFailed, Some(code));
            Reported(next) && Grounded(next) && Formed(next)
  {
    hide AttemptTaken, RowAddressed, Cites, HeaderFormed;
    assert HeaderFormed(db.investigations[db.jobs[j].investigation]);
    HeaderIgnoresStatus(db.investigations[db.jobs[j].investigation], status);
  }

  lemma UnreportedKeepsInv(db: Db, j: Uuid, w: Worker, turn: Turn, jobStatus: JobStatus, status: InvestigationStatus,
                           code: string)
    requires Inv(db) && Ready(db, j) && Settles(db.jobs[j], jobStatus, status) && turn.attemptId !in db.attempts
    requires !status.Succeeded?
    ensures Inv(Settled(db, db.jobs[j], w, turn, jobStatus, status, AttemptFailed, Some(code)))
  {
    hide Core, Reported, Grounded, Formed, Ready, Settled;
    SettledCore(db, j, w, turn, jobStatus, status, AttemptFailed, Some(code));
    UnreportedStays(db, j, w, turn, jobStatus, status, code);
  }

  lemma AuditKeepsInv(db: Db, audit: seq<Audit>)
    requires Inv(db)
    ensures Inv(db.(audit := audit))
  {
    hide Core, HeaderFormed;
    ExtrasKeepCore(db, db.(audit := audit));
  }

  // ----- grounding -----

  /** What a concluded analysis writes: addressed rows of its own tenant and run, citing only those. */
  lemma ConclusionIsGrounded(inv: Investigation, policy: Policy, turn: Turn)
    requires policy.Valid() && turn.Valid() && Analyse(inv, policy, turn).Conclusion?
    ensures var a := Analyse(inv, policy, turn);
            && (forall i :: 0 <= i < |a.rows| ==>
                  RowAddressed(KeyOf(a.rows[i]), a.rows[i])
                  && a.rows[i].tenant == inv.context.tenant && a.rows[i].run == inv.context.run)
            && (forall id :: Cites(a.report, id) ==> exists i :: 0 <= i < |a.rows| && a.rows[i].id == id)
  {
    hide Ledger.Compile, Rank, ParseProposal, Verifier.Verify, EvidenceRows, VerificationPayloadOf, BaselinePayloadOf,
         EntryPayloadOf;
    var baseline := Rank(inv.window, turn.telemetry.inputs, policy).value;
    var l := Ledger.Compile(inv.context, inv.window, baseline).value;
    var h := ParseProposal(turn.llm.raw, AllowedSignals(l)).value;
    JudgedIsGrounded(inv, baseline, l, h);
  }

  lemma JudgedIsGrounded(inv: Investigation, baseline: BaselineResult, l: MetricLedger, h: Hypothesis)
    requires Judged(inv, baseline, l, h).Conclusion?
    ensures var a := Judged(inv, baseline, l, h);
            && (forall i :: 0 <= i < |a.rows| ==>
                  RowAddressed(KeyOf(a.rows[i]), a.rows[i])
                  && a.rows[i].tenant == inv.context.tenant && a.rows[i].run == inv.context.run)
            && (forall id :: Cites(a.report, id) ==> exists i :: 0 <= i < |a.rows| && a.rows[i].id == id)
  {
    hide Verifier.Verify, EvidenceRows, VerificationPayloadOf, BaselinePayloadOf, EntryPayloadOf, Verifier.Compose,
         Verifier.Supporting, Verifier.Contradicting, Verifier.Verdicts, Ledger.Validated, Addressed;
    var v, a := Verifier.Verify(h, l).value, Judged(inv, baseline, l, h);
    VerifiedLedgerIsValid(h, l);
    forall i | 0 <= i < |a.rows|
      ensures RowAddressed(KeyOf(a.rows[i]), a.rows[i])
              && a.rows[i].tenant == inv.context.tenant && a.rows[i].run == inv.context.run
    {
      LedgerEntrySerializes(l, i);
    }
    AcceptedPayloadComposes(v);
    forall id | Cites(a.report, id)
      ensures exists i :: 0 <= i < |a.rows| && a.rows[i].id == id
    {
      Verifier.CitationsAreEntries(h, l, id);
      var i :| 0 <= i < |l.entries| && l.entries[i].id == id;
      assert a.rows[i].id == id;
    }
  }

  lemma VerifiedLedgerIsValid(h: Hypothesis, l: MetricLedger)
    requires Verifier.Verify(h, l).Success?
    ensures Ledger.Validated(l).Some?
  {
  }

  lemma AppendedStaysAddressed(table: map<EvidenceKey, Evidence>, rows: seq<Evidence>)
    requires forall k :: k in table ==> RowAddressed(k, table[k])
    requires forall i :: 0 <= i < |rows| ==> RowAddressed(KeyOf(rows[i]), rows[i])
    ensures forall k :: k in Appended(table, rows) ==> RowAddressed(k, Appended(table, rows)[k])
  {
    hide Appended, RowAddressed;
    AppendedKeepsRows(table, rows);
  }

  lemma SucceedingIsGrounded(db: Db, j: Uuid, w: Worker, turn: Turn, rows: seq<Evidence>, report: Report)
    requires Inv(db) && Ready(db, j) && w.Valid() && turn.Valid()
    requires Analyse(db.investigations[db.jobs[j].investigation], w.policy, turn) == Conclusion(rows, report)
    ensures Grounded(Succeeding(db, db.jobs[j], w, turn, rows, report))
  {
    hide Analyse, Appended, Cites, Core, Reported, Formed, AttemptTaken;
    var job := db.jobs[j];
    var inv, next := db.investigations[job.investigation], Succeeding(db, job, w, turn, rows, report);
    ConclusionIsGrounded(inv, w.policy, turn);
    ConclusionShape(inv, w.policy, turn);
    AppendedStaysAddressed(db.evidence, rows);
    AppendedKeepsRows(db.evidence, rows);
    forall i, id | i in next.reports && Cites(next.reports[i], id)
      ensures EvidenceKey(next.reports[i].tenant, next.reports[i].run, id) in next.evidence
    {
      if i == job.investigation {
        var r :| 0 <= r < |rows| && rows[r].id == id;
        assert KeyOf(rows[r]) in next.evidence;
      } else {
        assert EvidenceKey(db.reports[i].tenant, db.reports[i].run, id) in db.evidence;
      }
    }
  }

  lemma SucceedingIsReported(db: Db, j: Uuid, w: Worker, turn: Turn, rows: seq<Evidence>, report: Report)
    requires Reported(db) && Ready(db, j)
    requires report.investigation == db.jobs[j].investigation
    requires report.tenant == db.investigations[db.jobs[j].investigation].context.tenant
    requires report.run == db.investigations[db.jobs[j].investigation].context.run
    ensures Reported(Succeeding(db, db.jobs[j], w, turn, rows, report))
  {
    hide AttemptTaken, Appended;
  }

  lemma SucceedingKeepsInv(db: Db, j: Uuid, w: Worker, turn: Turn, rows: seq<Evidence>, report: Report)
    requires Inv(db) && Ready(db, j) && w.Valid() && turn.Valid() && turn.attemptId !in db.attempts
    requires Analyse(db.investigations[db.jobs[j].investigation], w.policy, turn) == Conclusion(rows, report)
    ensures Inv(Succeeding(db, db.jobs[j], w, turn, rows, report))
  {
    hide Analyse, Appended, Core, Reported, Grounded, AttemptTaken, HeaderFormed;
    var job := db.jobs[j];
    HeaderIgnoresStatus(db.investigations[job.investigation], Succeeded);
    SettledCore(db, j, w, turn, JobSucceeded, Succeeded, AttemptSucceeded, None);
    ExtrasKeepCore(Settled(db, job, w, turn, JobSucceeded, Succeeded, AttemptSucceeded, None),
                   Succeeding(db, job, w, turn, rows, report));
    ConclusionShape(db.investigations[job.investigation], w.policy, turn);
    SucceedingIsReported(db, j, w, turn, rows, report);
    SucceedingIsGrounded(db, j, w, turn, rows, report);
  }

  lemma OutcomeKeepsInv(db: Db, j: Uuid, w: Worker, turn: Turn)
    requires Inv(db) && Ready(db, j) && w.Valid() && turn.Valid() && turn.attemptId !in db.attempts
    requires db.jobs[j].status.Queued?
    ensures Inv(Outcome(db, db.jobs[j], w, turn))
  {
    hide Inv, Analyse, Succeeding, Settled;
    var job := db.jobs[j];
    match Analyse(db.investigations[job.investigation], w.policy, turn)
    case Conclusion(rows, report) => SucceedingKeepsInv(db, j, w, turn, rows, report);
    case TerminalFailure(code) => FailingKeepsInv(db, j, w, turn, code);
    case Crash => FailingKeepsInv(db, j, w, turn, "internal_error");
    case RetryableFailure(code) =>
      FailingKeepsInv(db, j, w, turn, code);
      UnreportedKeepsInv(db, j, w, turn, Queued, Running, code);
  }

  lemma FailingKeepsInv(db: Db, j: Uuid, w: Worker, turn: Turn, code: string)
    requires Inv(db) && Ready(db, j) && turn.attemptId !in db.attempts
    ensures Inv(Failing(db, db.jobs[j], w, turn, code))
  {
    hide Inv, Settled;
    UnreportedKeepsInv(db, j, w, turn, JobFailed, Failed, code);
    AuditKeepsInv(Settled(db, db.jobs[j], w, turn, JobFailed, Failed, AttemptFailed, Some(code)),
                  Failing(db, db.jobs[j], w, turn, code).audit);
  }

  lemma TurnKeepsInv(db: Db, w: Worker, turn: Turn)
    requires Inv(db) && w.Valid() && turn.Valid() && turn.attemptId !in db.attempts
    ensures Inv(RunOnce(db, w, turn).0)
  {
    hide Inv, RunOnce, Outcome, Ready;
    TurnEffect(db, w, turn);
    var choice := ClaimChoice(db.jobs, turn.now);
    if choice.Some? {
      QueuedIsReady(db, choice.value);
      OutcomeKeepsInv(db, choice.value, w, turn);
    }
  }

  // ----- what a reused attempt identifier does -----

  /** Whatever the outcome, the turn's row takes the place of whatever its identifier held. */
  lemma OutcomeRecords(db: Db, j: Uuid, w: Worker, turn: Turn)
    requires Ready(db, j) && w.Valid() && turn.Valid()
    ensures var job, next := db.jobs[j], Outcome(db, db.jobs[j], w, turn);
            && turn.attemptId in next.attempts
            && next.attempts == db.attempts[turn.attemptId := next.attempts[turn.attemptId]]
            && next.attempts[turn.attemptId].job == j && next.attempts[turn.attemptId].number == job.attemptCount + 1
            && next.jobs.Keys == db.jobs.Keys
            && forall k :: k in db.jobs ==> db.jobs[k].attemptCount <= next.jobs[k].attemptCount
  {
    hide Analyse, Outcome, SettlementOf, AttemptTaken, Worker.Valid, Turn.Valid;
    OutcomeIsSettled(db, db.jobs[j], w, turn);
  }

  lemma ReuseLosesNumber(db: Db, j: Uuid, w: Worker, turn: Turn)
    requires Numbered(db) && Ready(db, j) && w.Valid() && turn.Valid() && turn.attemptId in db.attempts
    ensures !NumbersComplete(Outcome(db, db.jobs[j], w, turn))
  {
    hide Outcome, Worker.Valid, Turn.Valid;
    OutcomeRecords(db, j, w, turn);
    var lost, next := db.attempts[turn.attemptId], Outcome(db, db.jobs[j], w, turn);
    assert !AttemptTaken(next.attempts, lost.job, lost.number) by {
      forall a | a in next.attempts
        ensures !(next.attempts[a].job == lost.job && next.attempts[a].number == lost.number)
      {
        assert a != turn.attemptId ==> !SameSlot(db.attempts[a], lost);
      }
    }
  }

  /** A turn that claims keeps the invariant if and only if its attempt identifier is fresh. */
  lemma TurnKeepsInvIffFresh(db: Db, w: Worker, turn: Turn)
    requires Inv(db) && w.Valid() && turn.Valid() && ClaimChoice(db.jobs, turn.now).Some?
    ensures Inv(RunOnce(db, w, turn).0) <==> turn.attemptId !in db.attempts
  {
    hide RunOnce, Outcome, Ready, WellKeyed, Linked, OneJobEach, StatusesAgree, Reported, Grounded, Formed,
         NumbersInRange, NumbersUnique, NumbersComplete;
    if turn.attemptId in db.attempts {
      var j := ClaimChoice(db.jobs, turn.now).value;
      TurnEffect(db, w, turn);
      QueuedIsReady(db, j);
      ReuseLosesNumber(db, j, w, turn);
    } else {
      TurnKeepsInv(db, w, turn);
    }
  }
}
