/** Retries: the worker's cap bounds them, the cap stored with a job does not, and attempt identifiers must be fresh. */
module Retries {
  import opened Prelude
  import opened Text
  import opened Domain
  import opened Records
  import opened Tables
  import opened Application
  import opened Lifecycle
  import opened Runs
  import opened Queue
  import opened Conclusions

  /** The job is back in the queue although it has used up the attempts stored with it. */
  predicate Overruns(job: Job) {
    job.status.Queued? && job.attemptCount >= job.maxAttempts
  }

  /** The model was out of reach. */
  predicate Unreachable(turn: Turn) {
    turn.llm.ProviderTimeout? || turn.llm.ProviderUnavailable?
  }

  /**
   * A turn leaves its job queued at or past the job's own cap if and only if readable telemetry met
   * a model out of reach while the worker's cap still had room and the job's own had none.
   */
  lemma TurnOverrunsIff(db: Db, j: Uuid, w: Worker, turn: Turn)
    requires Inv(db) && w.Valid() && turn.Valid() && ClaimChoice(db.jobs, turn.now) == Some(j)
    ensures j in RunOnce(db, w, turn).0.jobs
    ensures Overruns(RunOnce(db, w, turn).0.jobs[j])
      <==> && Ranks(turn) && Unreachable(turn)
           && db.jobs[j].maxAttempts <= db.jobs[j].attemptCount + 1 < w.maxAttempts
  {
    hide Core, Reported, Grounded, RunOnce, Outcome, Analyse, AttemptTaken, Ranks;
    TurnEffect(db, w, turn);
    QueuedIsReady(db, j);
    OutcomeIsSettled(db, db.jobs[j], w, turn);
    assert HeaderFormed(db.investigations[db.jobs[j].investigation]);
    AnalysisOutcome(db.investigations[db.jobs[j].investigation], w.policy, turn);
  }

  // ----- a run of timed-out turns -----

  const TENANT := Context("t", "i", "r")

  function Opening(cap: int): Event {
    Open(Command(TENANT, Window(0, 0, 1), None), 0, 0, 0, cap)
  }

  function PatientWorker(cap: int): Worker {
    Worker("w", 1, cap, Policy(1, 0.0, 0.0, 0.0))
  }

  /** A turn whose telemetry is readable and whose model times out. */
  function TimedOut(attemptId: Uuid): Turn {
    Turn(0, Loaded([]), ProviderTimeout, attemptId)
  }

  function TimedOutTurns(w: Worker, from: nat, n: nat): seq<Event>
    decreases n
  {
    if n == 0 then [] else [Work(w, TimedOut(from))] + TimedOutTurns(w, from + 1, n - 1)
  }

  /** One job, queued after `k` attempts with identifiers below `k`. */
  ghost predicate Waiting(db: Db, cap: int, k: nat) {
    && Inv(db) && db.jobs.Keys == {0} && db.jobs[0].status.Queued? && db.jobs[0].availableAt == 0
    && db.jobs[0].maxAttempts == cap && db.jobs[0].attemptCount == k
    && forall a :: a in db.attempts <==> 0 <= a < k
  }

  lemma ExampleIsWellFormed(cap: int)
    ensures TENANT.Valid() && Window(0, 0, 1).Valid() && PatientWorker(cap).Valid()
  {
    assert !IsSpace("t"[0]) && !IsSpace("i"[0]) && !IsSpace("r"[0]) && !IsSpace("w"[0]);
  }

  lemma OpeningWaits(cap: int)
    requires cap >= 1
    ensures Admissible(EMPTY_DB, Opening(cap)) && Waiting(Next(EMPTY_DB, Opening(cap)), cap, 0)
  {
    hide Inv, Execute, Context.Valid, NonBlank;
    ExampleIsWellFormed(cap);
    EmptyKeepsInv();
    NextKeepsInv(EMPTY_DB, Opening(cap));
    var e := Opening(cap);
    InvIsKeyed(EMPTY_DB);
    OpenEffect(EMPTY_DB, e.cmd, e.id, e.jobId, e.now, e.maxAttempts);
  }

  lemma WaitingIsClaimed(db: Db, cap: int, k: nat)
    requires Waiting(db, cap, k)
    ensures ClaimChoice(db.jobs, 0) == Some(0) && Ready(db, 0)
    ensures HeaderFormed(db.investigations[db.jobs[0].investigation])
  {
    hide Core, Reported, Grounded;
    InvIsKeyed(db);
    assert IsFirst(db.jobs, 0, 0);
    ClaimChoiceIsForced(db.jobs, 0, 0);
    QueuedIsReady(db, 0);
  }

  lemma TimedOutTurnWaits(db: Db, cap: int, k: nat, w: Worker)
    requires Waiting(db, cap, k) && w.Valid() && k + 1 < w.maxAttempts
    ensures Admissible(db, Work(w, TimedOut(k))) && Waiting(Next(db, Work(w, TimedOut(k))), cap, k + 1)
  {
    hide Inv, RunOnce, Outcome, Analyse, AttemptTaken, NonBlank, ClaimChoice;
    var turn := TimedOut(k);
    WaitingIsClaimed(db, cap, k);
    NextKeepsInv(db, Work(w, turn));
    TurnEffect(db, w, turn);
    OutcomeIsSettled(db, db.jobs[0], w, turn);
    AnalysisOutcome(db.investigations[db.jobs[0].investigation], w.policy, turn);
  }

  lemma {:induction false} TimedOutTurnsWait(db: Db, cap: int, k: nat, w: Worker, n: nat)
    requires Waiting(db, cap, k) && w.Valid() && k + n < w.maxAttempts
    ensures AdmissibleRun(db, TimedOutTurns(w, k, n)) && Waiting(Run(db, TimedOutTurns(w, k, n)), cap, k + n)
    decreases n
  {
    hide Waiting, Next, Admissible, Worker.Valid;
    if n > 0 {
      var events := TimedOutTurns(w, k, n);
      TimedOutTurnWaits(db, cap, k, w);
      TimedOutTurnsWait(Next(db, events[0]), cap, k + 1, w, n - 1);
      assert events[1..] == TimedOutTurns(w, k + 1, n - 1);
    }
  }

  /** An opening with its own cap, then as many timed-out turns, all short of the worker's cap. */
  function OverrunningRun(cap: nat, workerCap: int): seq<Event> {
    [Opening(cap)] + TimedOutTurns(PatientWorker(workerCap), 0, cap)
  }

  lemma OwnCapOverrun(cap: nat, workerCap: int)
    requires 1 <= cap < workerCap
    ensures var events := OverrunningRun(cap, workerCap);
            && AdmissibleRun(EMPTY_DB, events)
            && 0 in Run(EMPTY_DB, events).jobs && Overruns(Run(EMPTY_DB, events).jobs[0])
  {
    hide Inv, Next, Admissible, Worker.Valid;
    var events := OverrunningRun(cap, workerCap);
    OpeningWaits(cap);
    ExampleIsWellFormed(workerCap);
    TimedOutTurnsWait(Next(EMPTY_DB, events[0]), cap, 0, PatientWorker(workerCap), cap);
    assert events[1..] == TimedOutTurns(PatientWorker(workerCap), 0, cap);
  }

  /** Opened with cap 1, one timed-out turn of a worker with cap 3 puts the job back with its only attempt used. */
  lemma OwnCapOfOneIsOverrun()
    ensures var events := [Opening(1), Work(PatientWorker(3), TimedOut(0))];
            && AdmissibleRun(EMPTY_DB, events) && 0 in Run(EMPTY_DB, events).jobs
            && var job := Run(EMPTY_DB, events).jobs[0];
            && job.status.Queued? && job.maxAttempts == 1 && job.attemptCount == 1
  {
    hide Inv, Next, Admissible, Worker.Valid;
    var events, w := [Opening(1), Work(PatientWorker(3), TimedOut(0))], PatientWorker(3);
    OpeningWaits(1);
    ExampleIsWellFormed(3);
    TimedOutTurnsWait(Next(EMPTY_DB, events[0]), 1, 0, w, 1);
    assert TimedOutTurns(w, 1, 0) == [];
    assert events[1..] == TimedOutTurns(w, 0, 1);
  }

  // ----- a reused attempt identifier -----

  /** One timed-out turn, then another under the same attempt identifier: the first attempt is lost. */
  lemma ReusedIdentifierLosesAttempt()
    ensures var events, again := [Opening(3), Work(PatientWorker(3), TimedOut(0))], TimedOut(0);
            && AdmissibleRun(EMPTY_DB, events) && Inv(Run(EMPTY_DB, events))
            && PatientWorker(3).Valid() && ClaimChoice(Run(EMPTY_DB, events).jobs, again.now).Some?
            && !Inv(RunOnce(Run(EMPTY_DB, events), PatientWorker(3), again).0)
  {
    hide Inv, Next, Admissible, Worker.Valid, RunOnce, ClaimChoice;
    var events, w := [Opening(3), Work(PatientWorker(3), TimedOut(0))], PatientWorker(3);
    OpeningWaits(3);
    ExampleIsWellFormed(3);
    TimedOutTurnsWait(Next(EMPTY_DB, events[0]), 3, 0, w, 1);
    assert TimedOutTurns(w, 1, 0) == [];
    assert events[1..] == TimedOutTurns(w, 0, 1);
    var db := Run(EMPTY_DB, events);
    WaitingIsClaimed(db, 3, 1);
    TurnKeepsInvIffFresh(db, w, TimedOut(0));
  }

  // ----- when every job keeps to its own cap -----

  ghost predicate KeepsOwnCaps(db: Db) {
    forall j :: j in db.jobs ==> db.jobs[j].attemptCount <= db.jobs[j].maxAttempts && !Overruns(db.jobs[j])
  }

  ghost predicate CapsFrom(db: Db, least: int) {
    forall j :: j in db.jobs ==> db.jobs[j].maxAttempts >= least
  }

  /** Workers grant at most `most` attempts and openings ask for at least `least`. */
  ghost predicate Capped(events: seq<Event>, most: int, least: int) {
    forall k :: 0 <= k < |events| ==>
      && (events[k].Work? ==> events[k].worker.maxAttempts <= most)
      && (events[k].Open? ==> events[k].maxAttempts >= least)
  }

  function AtLeastOne(n: int): int {
    if n < 1 then 1 else n
  }

  lemma NextKeepsCaps(db: Db, e: Event, least: int)
    requires Inv(db) && Admissible(db, e) && CapsFrom(db, AtLeastOne(least)) && (e.Open? ==> e.maxAttempts >= least)
    ensures CapsFrom(Next(db, e), AtLeastOne(least))
  {
    hide Inv, RunOnce, Execute, ClaimChoice, ByKey, NonBlank;
    match e
    case Open(cmd, id, jobId, now, maxAttempts) =>
      InvIsKeyed(db);
      OpenEffect(db, cmd, id, jobId, now, maxAttempts);
    case Work(w, turn) => TurnSettlesFirst(db, w, turn);
    case Abandon(_) =>
    case Read(_, _) =>
  }

  lemma {:induction false} RunKeepsCaps(db: Db, events: seq<Event>, most: int, least: int)
    requires Inv(db) && AdmissibleRun(db, events) && CapsFrom(db, AtLeastOne(least)) && Capped(events, most, least)
    ensures CapsFrom(Run(db, events), AtLeastOne(least))
    decreases |events|
  {
    hide Inv, Next, CapsFrom, Admissible;
    if events != [] {
      NextKeepsInv(db, events[0]);
      NextKeepsCaps(db, events[0], least);
      RunKeepsCaps(Next(db, events[0]), events[1..], most, least);
    }
  }

  lemma {:induction false} TimedOutTurnsAreCapped(w: Worker, from: nat, n: nat, most: int, least: int)
    requires w.maxAttempts <= most
    ensures Capped(TimedOutTurns(w, from, n), most, least)
    decreases n
  {
    if n > 0 {
      TimedOutTurnsAreCapped(w, from + 1, n - 1, most, least);
    }
  }

  /** In every run of such workers and openings each job keeps to its own cap. */
  ghost predicate OwnCapsHold(most: int, least: int) {
    forall events :: AdmissibleRun(EMPTY_DB, events) && Capped(events, most, least)
      ==> KeepsOwnCaps(Run(EMPTY_DB, events))
  }

  /**
   * Jobs keep to their own caps in all runs if and only if no worker grants more attempts than the
   * least any opening asks for, an opening always asking for at least one.
   */
  lemma OwnCapsHoldIff(most: int, least: int)
    ensures OwnCapsHold(most, least) <==> most <= AtLeastOne(least)
  {
    hide Inv, Next, Run, AdmissibleRun;
    if most <= AtLeastOne(least) {
      forall events | AdmissibleRun(EMPTY_DB, events) && Capped(events, most, least)
        ensures KeepsOwnCaps(Run(EMPTY_DB, events))
      {
        EmptyKeepsInv();
        AttemptsAreBounded(events, AtLeastOne(most));
        RunKeepsCaps(EMPTY_DB, events, most, least);
      }
    } else {
      var cap := AtLeastOne(least);
      OwnCapOverrun(cap, most);
      TimedOutTurnsAreCapped(PatientWorker(most), 0, cap, most, least);
      assert Capped(OverrunningRun(cap, most), most, least);
    }
  }

  // ----- the stored cap is never read -----

  /** The same database with other caps stored with some of its jobs. */
  function WithCaps(db: Db, caps: map<Uuid, int>): Db {
    db.(jobs := RecappedAll(db.jobs, caps))
  }

  function Recapped(job: Job, j: Uuid, caps: map<Uuid, int>): Job {
    job.(maxAttempts := if j in caps then caps[j] else job.maxAttempts)
  }

  function Lifted(r: Result<Db, PersistenceError>, caps: map<Uuid, int>): Result<Db, PersistenceError> {
    if r.Success? then Success(WithCaps(r.value, caps)) else r
  }

  lemma CapsDoNotOrder(db: Db, caps: map<Uuid, int>, now: Instant)
    requires WellKeyed(db)
    ensures ClaimChoice(WithCaps(db, caps).jobs, now) == ClaimChoice(db.jobs, now)
  {
    var jobs, choice := WithCaps(db, caps).jobs, ClaimChoice(db.jobs, now);
    assert forall j :: j in db.jobs ==> (Claimable(jobs[j], now) <==> Claimable(db.jobs[j], now));
    if choice.Some? {
      assert IsFirst(jobs, now, choice.value);
      ClaimChoiceIsForced(jobs, now, choice.value);
    }
  }

  function RecappedAll(jobs: map<Uuid, Job>, caps: map<Uuid, int>): map<Uuid, Job> {
    map j | j in jobs :: Recapped(jobs[j], j, caps)
  }

  lemma SameUpdate(jobs: map<Uuid, Job>, caps: map<Uuid, int>, id: Uuid, row: Job)
    ensures RecappedAll(jobs, caps)[id := Recapped(row, id, caps)] == RecappedAll(jobs[id := row], caps)
  {
    hide Recapped;
  }

  lemma JobStatusIgnoresCaps(db: Db, caps: map<Uuid, int>, tenant: string, id: Uuid, status: JobStatus)
    ensures SetJobStatus(WithCaps(db, caps), tenant, id, status) == Lifted(SetJobStatus(db, tenant, id, status), caps)
  {
    var r := GetJob(db, tenant, id);
    if r.Success? {
      SameUpdate(db.jobs, caps, id, r.value.(status := status));
    }
  }

  lemma SucceedIgnoresCaps(db: Db, caps: map<Uuid, int>, c: ClaimedJob, w: Worker, turn: Turn)
    ensures Succeed(WithCaps(db, caps), c, w, turn) == Lifted(Succeed(db, c, w, turn), caps)
  {
    hide SetJobStatus, AttemptTaken;
    JobStatusIgnoresCaps(db, caps, c.tenant, c.job, JobSucceeded);
  }

  lemma TerminalFailIgnoresCaps(db: Db, caps: map<Uuid, int>, c: ClaimedJob, w: Worker, turn: Turn, code: string)
    ensures TerminalFail(WithCaps(db, caps), c, w, turn, code) == Lifted(TerminalFail(db, c, w, turn, code), caps)
  {
    hide SetJobStatus, AttemptTaken;
    var failed := SetInvestigationStatus(db, c.tenant, c.investigation, Failed);
    if failed.Success? {
      JobStatusIgnoresCaps(failed.value, caps, c.tenant, c.job, JobFailed);
    }
  }

  lemma RetryIgnoresCaps(db: Db, caps: map<Uuid, int>, c: ClaimedJob, w: Worker, turn: Turn, code: string)
    ensures RetryOrFail(WithCaps(db, caps), c, w, turn, code) == Lifted(RetryOrFail(db, c, w, turn, code), caps)
  {
    hide SetJobStatus, AttemptTaken, TerminalFail;
    TerminalFailIgnoresCaps(db, caps, c, w, turn, code);
    JobStatusIgnoresCaps(db, caps, c.tenant, c.job, Queued);
  }

  lemma PipelineIgnoresCaps(db: Db, caps: map<Uuid, int>, inv: Investigation, w: Worker, turn: Turn)
    requires w.Valid() && turn.Valid()
    ensures RunPipeline(WithCaps(db, caps), inv, w, turn)
            == (WithCaps(RunPipeline(db, inv, w, turn).0, caps), RunPipeline(db, inv, w, turn).1)
  {
    hide Analyse, Appended, Worker.Valid, Turn.Valid;
  }

  lemma ProcessIgnoresCaps(db: Db, caps: map<Uuid, int>, c: ClaimedJob, inv: Investigation, w: Worker, turn: Turn)
    requires w.Valid() && turn.Valid()
    ensures Process(WithCaps(db, caps), c, inv, w, turn) == Lifted(Process(db, c, inv, w, turn), caps)
  {
    hide RunPipeline, Succeed, TerminalFail, RetryOrFail, Worker.Valid, Turn.Valid;
    var running := SetInvestigationStatus(db, c.tenant, c.investigation, Running);
    if running.Success? {
      PipelineIgnoresCaps(running.value, caps, inv, w, turn);
      var (written, exit) := RunPipeline(running.value, inv, w, turn);
      SucceedIgnoresCaps(written, caps, c, w, turn);
      TerminalFailIgnoresCaps(written, caps, c, w, turn, "internal_error");
      if exit.Terminal? {
        TerminalFailIgnoresCaps(written, caps, c, w, turn, exit.code);
      }
      if exit.Retryable? {
        RetryIgnoresCaps(written, caps, c, w, turn, exit.code);
      }
    }
  }

  lemma ClaimIgnoresCaps(db: Db, caps: map<Uuid, int>, worker: string, lease: int, now: Instant)
    requires WellKeyed(db)
    ensures var r := Claim(db, worker, lease, now);
            Claim(WithCaps(db, caps), worker, lease, now)
            == if r.Success? then Success((WithCaps(r.value.0, caps), r.value.1)) else r
  {
    hide NonBlank, Claimable, Before;
    CapsDoNotOrder(db, caps, now);
    var choice := ClaimChoice(db.jobs, now);
    if NonBlank(worker) && choice.Some? {
      SameUpdate(db.jobs, caps, choice.value, ClaimedRow(db.jobs[choice.value], worker, lease, now));
    }
  }

  /** Whatever caps are stored with the jobs, a turn does the same to everything else and passes them on unread. */
  lemma TurnIgnoresCaps(db: Db, caps: map<Uuid, int>, w: Worker, turn: Turn)
    requires WellKeyed(db) && w.Valid() && turn.Valid()
    ensures RunOnce(WithCaps(db, caps), w, turn)
            == (WithCaps(RunOnce(db, w, turn).0, caps), RunOnce(db, w, turn).1)
  {
    hide Process, SetJobStatus, Claim, Worker.Valid, Turn.Valid, WellKeyed;
    ClaimIgnoresCaps(db, caps, w.id, w.lease, turn.now);
    var claim := Claim(db, w.id, w.lease, turn.now);
    if claim.Success? && claim.value.1.Some? {
      var claimed, c := claim.value.0, claim.value.1.value;
      JobStatusIgnoresCaps(claimed, caps, c.tenant, c.job, JobFailed);
      JobStatusIgnoresCaps(claimed, caps, c.tenant, c.job, JobCancelled);
      var inv := GetInvestigation(claimed, c.tenant, c.investigation);
      if inv.Success? {
        ProcessIgnoresCaps(claimed, caps, c, inv.value, w, turn);
      }
    }
  }

  // ----- nor over whole runs -----

  /** Equal but for the caps stored with the jobs. */
  ghost predicate SameButCaps(a: Db, b: Db) {
    a == WithCaps(b, CapsOf(a))
  }

  function CapsOf(db: Db): map<Uuid, int> {
    map j | j in db.jobs :: db.jobs[j].maxAttempts
  }

  /** Equal but for the cap an opening asks for, both acceptable or neither. */
  predicate SameButCap(e: Event, f: Event) {
    if e.Open? then f.Open? && f == e.(maxAttempts := f.maxAttempts) && (e.maxAttempts >= 1 <==> f.maxAttempts >= 1)
    else e == f
  }

  lemma SameBySource(a: Db, b: Db, caps: map<Uuid, int>)
    requires a == WithCaps(b, caps)
    ensures SameButCaps(a, b)
  {
    assert a.jobs == WithCaps(b, CapsOf(a)).jobs;
  }

  lemma OpenedAgree(a: Db, b: Db, cmd: Command, id: Uuid, jobId: Uuid, now: Instant, cap: int, other: int)
    requires SameButCaps(a, b) && jobId !in a.jobs
    ensures SameButCaps(Opened(a, cmd, id, jobId, now, cap), Opened(b, cmd, id, jobId, now, other))
  {
    var caps := CapsOf(a)[jobId := cap];
    assert jobId !in b.jobs && RecappedAll(b.jobs, caps) == RecappedAll(b.jobs, CapsOf(a));
    SameUpdate(b.jobs, caps, jobId, NewJob(cmd, jobId, id, now, other));
    SameBySource(Opened(a, cmd, id, jobId, now, cap), Opened(b, cmd, id, jobId, now, other), caps);
  }

  lemma SameJobIds(a: Db, b: Db)
    requires SameButCaps(a, b)
    ensures a.jobs.Keys == b.jobs.Keys && a.investigations == b.investigations
  {
  }

  lemma OpeningsAgree(a: Db, b: Db, e: Event, f: Event)
    requires WellKeyed(a) && WellKeyed(b) && SameButCaps(a, b) && SameButCap(e, f) && e.Open?
    requires e.id !in a.investigations
    ensures SameButCaps(Execute(a, e.cmd, e.id, e.jobId, e.now, e.maxAttempts).0,
                        Execute(b, f.cmd, f.id, f.jobId, f.now, f.maxAttempts).0)
  {
    hide Execute, ByKey, NonBlank, WellKeyed, SameButCaps, Opened;
    SameJobIds(a, b);
    OpenEffect(a, e.cmd, e.id, e.jobId, e.now, e.maxAttempts);
    OpenEffect(b, f.cmd, f.id, f.jobId, f.now, f.maxAttempts);
    SameInvestigationsSameKeys(a, b, e.cmd.context.tenant, e.cmd.idempotencyKey);
    if e.jobId !in a.jobs {
      OpenedAgree(a, b, e.cmd, e.id, e.jobId, e.now, e.maxAttempts, f.maxAttempts);
    }
  }

  lemma SameInvestigationsSameKeys(a: Db, b: Db, tenant: string, key: Option<string>)
    requires WellKeyed(a) && a.investigations == b.investigations
    ensures ByKey(a, tenant, key) == ByKey(b, tenant, key)
  {
    var x, y := ByKey(a, tenant, key), ByKey(b, tenant, key);
    if x.Some? && y.Some? {
      var i :| i in a.investigations && a.investigations[i] == x.value && HasKey(x.value, tenant, key);
      var k :| k in a.investigations && a.investigations[k] == y.value && HasKey(y.value, tenant, key);
      assert SameKey(a.investigations[i], a.investigations[k]);
    }
  }

  lemma EventsAgree(a: Db, b: Db, e: Event, f: Event)
    requires Inv(a) && Inv(b) && SameButCaps(a, b) && SameButCap(e, f) && Admissible(a, e)
    ensures Admissible(b, f) && SameButCaps(Next(a, e), Next(b, f))
  {
    hide Inv, RunOnce, Execute, Context.Valid, Window.Valid, Worker.Valid, Turn.Valid;
    InvIsKeyed(a);
    InvIsKeyed(b);
    match e
    case Open(_, _, _, _, _) => OpeningsAgree(a, b, e, f);
    case Work(w, turn) =>
      TurnIgnoresCaps(b, CapsOf(a), w, turn);
      SameBySource(RunOnce(a, w, turn).0, RunOnce(b, w, turn).0, CapsOf(a));
    case Abandon(_) =>
    case Read(_, _) =>
  }

  /** Two runs whose openings differ only in acceptable caps end in databases that differ only in stored caps. */
  lemma {:induction false} CapsAreNeverRead(a: Db, b: Db, es: seq<Event>, fs: seq<Event>)
    requires Inv(a) && Inv(b) && SameButCaps(a, b) && AdmissibleRun(a, es)
    requires |es| == |fs| && forall k :: 0 <= k < |es| ==> SameButCap(es[k], fs[k])
    ensures AdmissibleRun(b, fs) && SameButCaps(Run(a, es), Run(b, fs))
    decreases |es|
  {
    hide Inv, Next, SameButCaps, SameButCap, Admissible;
    if es != [] {
      EventsAgree(a, b, es[0], fs[0]);
      NextKeepsInv(a, es[0]);
      NextKeepsInv(b, fs[0]);
      CapsAreNeverRead(Next(a, es[0]), Next(b, fs[0]), es[1..], fs[1..]);
    }
  }
}
