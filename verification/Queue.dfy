/** The queue over whole runs: bounded attempts, draining, and head-of-line order. */
module Queue {
  import opened Prelude
  import opened Text
  import opened Records
  import opened Tables
  import opened Application
  import opened Lifecycle
  import opened Runs

  // ----- what a turn does to the job table -----

  /** The claimed job leaves the queue for good, or returns to it with one more attempt below the worker's cap. */
  ghost predicate JobSettled(before: Job, after: Job, w: Worker) {
    && after.id == before.id && after.availableAt == before.availableAt && after.maxAttempts == before.maxAttempts
    && after.attemptCount == before.attemptCount + 1
    && (after.status.JobSucceeded? || after.status.JobFailed?
        || (after.status.Queued? && after.attemptCount < w.maxAttempts))
  }

  lemma TurnSettlesFirst(db: Db, w: Worker, turn: Turn)
    requires Inv(db) && w.Valid() && turn.Valid()
    ensures var choice, next := ClaimChoice(db.jobs, turn.now), RunOnce(db, w, turn).0;
            if choice.None? then next == db
            else
              && choice.value in db.jobs && db.jobs[choice.value].status.Queued?
              && next.jobs.Keys == db.jobs.Keys
              && next.jobs == db.jobs[choice.value := next.jobs[choice.value]]
              && JobSettled(db.jobs[choice.value], next.jobs[choice.value], w)
  {
    hide Inv, RunOnce, Outcome, Ready;
    TurnEffect(db, w, turn);
    var choice := ClaimChoice(db.jobs, turn.now);
    if choice.Some? {
      QueuedIsReady(db, choice.value);
      OutcomeSettles(db, choice.value, w, turn);
    }
  }

  lemma OutcomeSettles(db: Db, j: Uuid, w: Worker, turn: Turn)
    requires Ready(db, j) && w.Valid() && turn.Valid()
    ensures var next := Outcome(db, db.jobs[j], w, turn);
            && j in next.jobs && next.jobs.Keys == db.jobs.Keys
            && next.jobs == db.jobs[j := next.jobs[j]] && JobSettled(db.jobs[j], next.jobs[j], w)
  {
    hide Analyse, Outcome, AttemptTaken, Worker.Valid, Turn.Valid;
    OutcomeIsSettled(db, db.jobs[j], w, turn);
  }

  // ----- attempts are bounded -----

  /** No job has more than `bound` attempts, and a queued one still has attempts left. */
  ghost predicate Bounded(db: Db, bound: int) {
    forall j :: j in db.jobs ==>
      db.jobs[j].attemptCount <= bound && (db.jobs[j].status.Queued? ==> db.jobs[j].attemptCount < bound)
  }

  ghost predicate CappedBy(events: seq<Event>, bound: int) {
    bound >= 1 && forall k :: 0 <= k < |events| && events[k].Work? ==> events[k].worker.maxAttempts <= bound
  }

  lemma TurnKeepsBound(db: Db, w: Worker, turn: Turn, bound: int)
    requires Inv(db) && w.Valid() && turn.Valid() && Bounded(db, bound) && w.maxAttempts <= bound
    ensures Bounded(RunOnce(db, w, turn).0, bound)
  {
    hide Inv, RunOnce;
    TurnSettlesFirst(db, w, turn);
  }

  lemma NextKeepsBound(db: Db, e: Event, bound: int)
    requires Inv(db) && Admissible(db, e) && Bounded(db, bound) && bound >= 1
    requires e.Work? ==> e.worker.maxAttempts <= bound
    ensures Bounded(Next(db, e), bound)
  {
    hide Inv, RunOnce, Execute;
    match e
    case Open(cmd, id, jobId, now, maxAttempts) =>
      InvIsKeyed(db);
      OpenEffect(db, cmd, id, jobId, now, maxAttempts);
    case Work(w, turn) => TurnKeepsBound(db, w, turn, bound);
    case Abandon(_) =>
    case Read(_, _) =>
  }

  lemma {:induction false} RunKeepsBound(db: Db, events: seq<Event>, bound: int)
    requires Inv(db) && AdmissibleRun(db, events) && Bounded(db, bound) && CappedBy(events, bound)
    ensures Bounded(Run(db, events), bound)
    decreases |events|
  {
    hide Inv, Next, Bounded;
    if events != [] {
      NextKeepsInv(db, events[0]);
      NextKeepsBound(db, events[0], bound);
      RunKeepsBound(Next(db, events[0]), events[1..], bound);
    }
  }

  /** In every reachable state no job exceeds the largest cap of any worker that ever ran. */
  lemma AttemptsAreBounded(events: seq<Event>, bound: int)
    requires AdmissibleRun(EMPTY_DB, events) && CappedBy(events, bound)
    ensures Bounded(Run(EMPTY_DB, events), bound)
  {
    hide Inv, Next, Run, AdmissibleRun;
    EmptyKeepsInv();
    RunKeepsBound(EMPTY_DB, events, bound);
  }

  // ----- the queue drains -----

  function Weight(job: Job, bound: int): int {
    if job.status.Queued? then bound - job.attemptCount else 0
  }

  /** Attempts still available to the queued jobs among `ids`. */
  ghost function Total(jobs: map<Uuid, Job>, ids: set<Uuid>, bound: int): int
    requires ids <= jobs.Keys
  {
    if ids == {} then 0
    else
      var j :| j in ids;
      Weight(jobs[j], bound) + Total(jobs, ids - {j}, bound)
  }

  ghost function Remaining(db: Db, bound: int): int {
    Total(db.jobs, db.jobs.Keys, bound)
  }

  lemma {:induction false} TotalWithout(jobs: map<Uuid, Job>, ids: set<Uuid>, k: Uuid, bound: int)
    requires ids <= jobs.Keys && k in ids
    ensures Total(jobs, ids, bound) == Weight(jobs[k], bound) + Total(jobs, ids - {k}, bound)
    decreases |ids|
  {
    hide Weight;
    var j :| j in ids && Total(jobs, ids, bound) == Weight(jobs[j], bound) + Total(jobs, ids - {j}, bound);
    if j != k {
      TotalWithout(jobs, ids - {j}, k, bound);
      TotalWithout(jobs, ids - {k}, j, bound);
      assert ids - {j} - {k} == ids - {k} - {j};
    }
  }

  lemma {:induction false} TotalIgnoresOthers(jobs: map<Uuid, Job>, others: map<Uuid, Job>, ids: set<Uuid>, bound: int)
    requires ids <= jobs.Keys && ids <= others.Keys && forall j :: j in ids ==> jobs[j] == others[j]
    ensures Total(jobs, ids, bound) == Total(others, ids, bound)
    decreases |ids|
  {
    hide Weight;
    if ids != {} {
      var j :| j in ids;
      TotalWithout(jobs, ids, j, bound);
      TotalWithout(others, ids, j, bound);
      TotalIgnoresOthers(jobs, others, ids - {j}, bound);
    }
  }

  lemma {:induction false} TotalCoversQueued(jobs: map<Uuid, Job>, ids: set<Uuid>, bound: int)
    requires ids <= jobs.Keys && forall j :: j in ids ==> Weight(jobs[j], bound) >= 0
    ensures Total(jobs, ids, bound) >= 0
    ensures forall j :: j in ids ==> Weight(jobs[j], bound) <= Total(jobs, ids, bound)
    decreases |ids|
  {
    hide Weight;
    if ids != {} {
      forall k | k in ids
        ensures Weight(jobs[k], bound) <= Total(jobs, ids, bound) && Total(jobs, ids, bound) >= 0
      {
        TotalWithout(jobs, ids, k, bound);
        TotalCoversQueued(jobs, ids - {k}, bound);
      }
      var j :| j in ids;
    }
  }

  lemma RemainingIsCounter(db: Db, bound: int)
    requires Bounded(db, bound)
    ensures Remaining(db, bound) >= 0
    ensures Remaining(db, bound) == 0 ==> forall j :: j in db.jobs ==> !db.jobs[j].status.Queued?
  {
    TotalCoversQueued(db.jobs, db.jobs.Keys, bound);
    forall j | j in db.jobs && db.jobs[j].status.Queued?
      ensures Remaining(db, bound) >= 1
    {
      assert Weight(db.jobs[j], bound) >= 1;
    }
  }

  /** A turn that claims uses up at least one of the remaining attempts. */
  lemma ClaimingTurnDrains(db: Db, w: Worker, turn: Turn, bound: int)
    requires Inv(db) && w.Valid() && turn.Valid() && ClaimChoice(db.jobs, turn.now).Some? && Bounded(db, bound)
    ensures Remaining(RunOnce(db, w, turn).0, bound) < Remaining(db, bound)
  {
    hide Inv, RunOnce, Bounded, Total;
    TurnSettlesFirst(db, w, turn);
    var next, j := RunOnce(db, w, turn).0, ClaimChoice(db.jobs, turn.now).value;
    TotalWithout(db.jobs, db.jobs.Keys, j, bound);
    TotalWithout(next.jobs, next.jobs.Keys, j, bound);
    TotalIgnoresOthers(db.jobs, next.jobs, db.jobs.Keys - {j}, bound);
    BoundedHere(db, j, bound);
  }

  lemma BoundedHere(db: Db, j: Uuid, bound: int)
    requires Bounded(db, bound) && j in db.jobs && db.jobs[j].status.Queued?
    ensures db.jobs[j].attemptCount < bound
  {
  }

  /** No openings, and every turn late enough for every job and within the cap. */
  ghost predicate LateTurns(db: Db, events: seq<Event>, bound: int) {
    && CappedBy(events, bound)
    && (forall k :: 0 <= k < |events| ==> !events[k].Open?)
    && forall k :: 0 <= k < |events| && events[k].Work? ==> AllDue(db, events[k].turn.now)
  }

  ghost predicate AllDue(db: Db, now: Instant) {
    forall j :: j in db.jobs ==> db.jobs[j].availableAt <= now
  }

  function Turns(events: seq<Event>): nat {
    if events == [] then 0 else (if events[0].Work? then 1 else 0) + Turns(events[1..])
  }

  lemma TurnKeepsSchedule(db: Db, w: Worker, turn: Turn, events: seq<Event>, bound: int)
    requires Inv(db) && w.Valid() && turn.Valid() && LateTurns(db, events, bound)
    ensures LateTurns(RunOnce(db, w, turn).0, events, bound)
  {
    hide Inv, RunOnce;
    TurnSettlesFirst(db, w, turn);
  }

  lemma NoQueuedNoChoice(db: Db, now: Instant)
    requires Inv(db) && AllDue(db, now)
    ensures ClaimChoice(db.jobs, now).None? <==> forall j :: j in db.jobs ==> !db.jobs[j].status.Queued?
  {
    hide WellKeyed, OneJobEach, StatusesAgree, Numbered, Reported, Grounded;
  }

  /** A late turn uses up a remaining attempt whenever there is one. */
  lemma LateTurnDrains(db: Db, w: Worker, turn: Turn, bound: int)
    requires Inv(db) && w.Valid() && turn.Valid() && Bounded(db, bound) && AllDue(db, turn.now)
    ensures Remaining(db, bound) == 0 || Remaining(RunOnce(db, w, turn).0, bound) < Remaining(db, bound)
    ensures Remaining(db, bound) == 0 ==> RunOnce(db, w, turn).0 == db
  {
    hide Inv, RunOnce, Bounded, Remaining, AllDue;
    NoQueuedNoChoice(db, turn.now);
    RemainingIsCounter(db, bound);
    if ClaimChoice(db.jobs, turn.now).Some? {
      ClaimingTurnDrains(db, w, turn, bound);
    } else {
      TurnSettlesFirst(db, w, turn);
      NoQueuedNothingRemains(db, db.jobs.Keys, bound);
    }
  }

  /**
   * Any schedule of turns empties the queue: once as many turns have run as attempts
   * remained, interleaved with any reads and abandoned transactions, no job is queued,
   * whatever telemetry and model did in each turn.
   */
  lemma {:induction false} EveryScheduleDrains(db: Db, events: seq<Event>, bound: int)
    requires Inv(db) && AdmissibleRun(db, events) && Bounded(db, bound) && LateTurns(db, events, bound)
    requires Turns(events) >= Remaining(db, bound)
    ensures forall j :: j in Run(db, events).jobs ==> !Run(db, events).jobs[j].status.Queued?
    decreases |events|
  {
    hide Inv, RunOnce, Bounded, Remaining, Turn.Valid, Worker.Valid, AllDue;
    RemainingIsCounter(db, bound);
    if events != [] {
      var next := Next(db, events[0]);
      if events[0].Work? {
        var w, turn := events[0].worker, events[0].turn;
        TurnKeepsBound(db, w, turn, bound);
        TurnKeepsSchedule(db, w, turn, events[1..], bound);
        LateTurnDrains(db, w, turn, bound);
        NextKeepsInv(db, events[0]);
      }
      EveryScheduleDrains(next, events[1..], bound);
    }
  }

  // ----- work is conserved over every schedule -----

  /** The turns of a run that found a job to claim. */
  ghost function ClaimingTurns(db: Db, events: seq<Event>): nat
    requires AdmissibleRun(db, events)
    decreases |events|
  {
    if events == [] then 0
    else
      (if events[0].Work? && ClaimChoice(db.jobs, events[0].turn.now).Some? then 1 else 0)
      + ClaimingTurns(Next(db, events[0]), events[1..])
  }

  function Openings(events: seq<Event>): nat {
    if events == [] then 0 else (if events[0].Open? then 1 else 0) + Openings(events[1..])
  }

  lemma OpeningAddsAtMost(db: Db, e: Event, bound: int)
    requires Inv(db) && Admissible(db, e) && e.Open? && bound >= 1
    ensures Remaining(Next(db, e), bound) <= Remaining(db, bound) + bound
  {
    hide Inv, Execute, Total;
    InvIsKeyed(db);
    OpenEffect(db, e.cmd, e.id, e.jobId, e.now, e.maxAttempts);
    var next := Next(db, e);
    if next != db {
      TotalWithout(next.jobs, next.jobs.Keys, e.jobId, bound);
      assert next.jobs.Keys - {e.jobId} == db.jobs.Keys;
      TotalIgnoresOthers(db.jobs, next.jobs, db.jobs.Keys, bound);
    }
  }

  /** Along every run, turns that claimed and attempts still available never exceed the attempts ever granted. */
  lemma {:induction false} WorkIsConserved(db: Db, events: seq<Event>, bound: int)
    requires Inv(db) && AdmissibleRun(db, events) && Bounded(db, bound) && CappedBy(events, bound)
    ensures ClaimingTurns(db, events) + Remaining(Run(db, events), bound)
            <= Remaining(db, bound) + bound * Openings(events)
    decreases |events|
  {
    hide Inv, RunOnce, Execute, Bounded, Remaining, Turn.Valid, Worker.Valid;
    if events != [] {
      var e := events[0];
      NextKeepsInv(db, e);
      NextKeepsBound(db, e, bound);
      WorkIsConserved(Next(db, e), events[1..], bound);
      if e.Open? {
        OpeningAddsAtMost(db, e, bound);
        assert bound * Openings(events) == bound + bound * Openings(events[1..]);
      } else if e.Work? {
        if ClaimChoice(db.jobs, e.turn.now).Some? {
          ClaimingTurnDrains(db, e.worker, e.turn, bound);
        } else {
          TurnSettlesFirst(db, e.worker, e.turn);
        }
      }
    }
  }

  /** From an empty store, at most `bound` turns per opening ever claim a job, whatever the schedule. */
  lemma ClaimsAreBoundedByOpenings(events: seq<Event>, bound: int)
    requires AdmissibleRun(EMPTY_DB, events) && CappedBy(events, bound)
    ensures ClaimingTurns(EMPTY_DB, events) <= bound * Openings(events)
  {
    hide Inv, ClaimingTurns, AdmissibleRun, Run, Next;
    EmptyKeepsInv();
    WorkIsConserved(EMPTY_DB, events, bound);
    RunKeepsBound(EMPTY_DB, events, bound);
    RemainingIsCounter(Run(EMPTY_DB, events), bound);
  }

  lemma {:induction false} NoQueuedNothingRemains(db: Db, ids: set<Uuid>, bound: int)
    requires ids <= db.jobs.Keys && forall j :: j in ids ==> !db.jobs[j].status.Queued?
    ensures Total(db.jobs, ids, bound) == 0
    ensures ids == db.jobs.Keys ==> Remaining(db, bound) == 0
    decreases |ids|
  {
    if ids != {} {
      var j :| j in ids;
      TotalWithout(db.jobs, ids, j, bound);
      NoQueuedNothingRemains(db, ids - {j}, bound);
    }
  }

  // ----- head of line -----

  predicate Done(job: Job) {
    job.status.JobSucceeded? || job.status.JobFailed?
  }

  /** Finished jobs form a prefix of the queue order, and only the first unfinished job was ever started. */
  ghost predicate HeadOfLine(db: Db, clock: Instant) {
    && (forall j :: j in db.jobs ==> db.jobs[j].availableAt <= clock)
    && (forall a, b :: a in db.jobs && b in db.jobs && Before(db.jobs[a], db.jobs[b]) && Done(db.jobs[b])
          ==> Done(db.jobs[a]))
    && (forall a, b :: a in db.jobs && b in db.jobs && Started(db.jobs[a]) && !Done(db.jobs[b])
          ==> Before(db.jobs[a], db.jobs[b]))
  }

  predicate Started(job: Job) {
    !Done(job) && job.attemptCount > 0
  }

  /** At most one unfinished job has been attempted. */
  lemma OneStarted(db: Db, clock: Instant, a: Uuid, b: Uuid)
    requires WellKeyed(db) && HeadOfLine(db, clock)
    requires a in db.jobs && b in db.jobs && Started(db.jobs[a]) && Started(db.jobs[b])
    ensures a == b
  {
    assert Before(db.jobs[a], db.jobs[b]) && Before(db.jobs[b], db.jobs[a]);
  }

  function TimeOf(e: Event, clock: Instant): Instant {
    match e
    case Open(_, _, _, now, _) => now
    case Work(_, turn) => turn.now
    case Abandon(_) => clock
    case Read(_, _) => clock
  }

  /** The clock never goes back, and each opening comes after every job already enqueued. */
  ghost predicate InOrder(db: Db, clock: Instant, e: Event) {
    clock <= TimeOf(e, clock) && (e.Open? ==> forall j :: j in db.jobs ==> db.jobs[j].availableAt < e.now)
  }

  ghost predicate OrderedRun(db: Db, clock: Instant, events: seq<Event>)
    requires AdmissibleRun(db, events)
    decreases |events|
  {
    events == [] ||
    (InOrder(db, clock, events[0]) && OrderedRun(Next(db, events[0]), TimeOf(events[0], clock), events[1..]))
  }

  function FinalTime(clock: Instant, events: seq<Event>): Instant
    decreases |events|
  {
    if events == [] then clock else FinalTime(TimeOf(events[0], clock), events[1..])
  }

  /** With every job due, the claim takes the first unfinished one. */
  lemma ClaimTakesHead(db: Db, clock: Instant, now: Instant, j: Uuid)
    requires Inv(db) && HeadOfLine(db, clock) && clock <= now && IsFirst(db.jobs, now, j)
    ensures forall k :: k in db.jobs && !Done(db.jobs[k]) ==> Before(db.jobs[j], db.jobs[k])
    ensures forall k :: k in db.jobs && Started(db.jobs[k]) ==> k == j
  {
    hide OneJobEach, StatusesAgree, Numbered, Reported, Grounded;
    forall k | k in db.jobs && !Done(db.jobs[k])
      ensures Before(db.jobs[j], db.jobs[k])
    {
      assert Claimable(db.jobs[k], now);
    }
    assert !Done(db.jobs[j]);
  }

  lemma TurnKeepsOrder(db: Db, clock: Instant, w: Worker, turn: Turn)
    requires Inv(db) && w.Valid() && turn.Valid() && HeadOfLine(db, clock) && clock <= turn.now
    ensures HeadOfLine(RunOnce(db, w, turn).0, turn.now)
  {
    hide Inv, RunOnce;
    InvIsKeyed(db);
    TurnSettlesFirst(db, w, turn);
    var choice := ClaimChoice(db.jobs, turn.now);
    if choice.Some? {
      ClaimTakesHead(db, clock, turn.now, choice.value);
      SettlingKeepsOrder(db, RunOnce(db, w, turn).0, clock, turn.now, choice.value);
    }
  }

  lemma SettlingKeepsOrder(db: Db, next: Db, clock: Instant, now: Instant, j: Uuid)
    requires HeadOfLine(db, clock) && clock <= now && j in db.jobs && !Done(db.jobs[j])
    requires j in next.jobs && next.jobs == db.jobs[j := next.jobs[j]]
    requires next.jobs[j].availableAt == db.jobs[j].availableAt
    requires next.jobs[j].id == db.jobs[j].id
    requires forall k :: k in db.jobs ==> db.jobs[k].id == k
    requires forall k :: k in db.jobs && !Done(db.jobs[k]) ==> Before(db.jobs[j], db.jobs[k])
    requires forall k :: k in db.jobs && Started(db.jobs[k]) ==> k == j
    ensures HeadOfLine(next, now)
  {
    forall a, b | a in next.jobs && b in next.jobs && Before(next.jobs[a], next.jobs[b]) && Done(next.jobs[b])
      ensures Done(next.jobs[a])
    {
      assert Before(db.jobs[a], db.jobs[b]);
    }
    forall a, b | a in next.jobs && b in next.jobs && Started(next.jobs[a]) && !Done(next.jobs[b])
      ensures Before(next.jobs[a], next.jobs[b])
    {
      assert a == j;
    }
  }

  lemma OpeningKeepsOrder(db: Db, clock: Instant, e: Event)
    requires WellKeyed(db) && e.Open? && e.id !in db.investigations && HeadOfLine(db, clock) && InOrder(db, clock, e)
    ensures HeadOfLine(Execute(db, e.cmd, e.id, e.jobId, e.now, e.maxAttempts).0, e.now)
  {
    hide Execute, ByKey, NonBlank, SameKey;
    OpenEffect(db, e.cmd, e.id, e.jobId, e.now, e.maxAttempts);
  }

  lemma NextKeepsOrder(db: Db, clock: Instant, e: Event)
    requires Inv(db) && Admissible(db, e) && HeadOfLine(db, clock) && InOrder(db, clock, e)
    ensures HeadOfLine(Next(db, e), TimeOf(e, clock))
  {
    hide Inv, RunOnce, Execute, WellKeyed, HeadOfLine;
    match e
    case Open(cmd, id, jobId, now, maxAttempts) =>
      InvIsKeyed(db);
      OpeningKeepsOrder(db, clock, e);
    case Work(w, turn) => TurnKeepsOrder(db, clock, w, turn);
    case Abandon(_) =>
    case Read(_, _) =>
  }

  /**
   * If openings are stamped in strictly increasing order and the clock never goes back, then in
   * every state of every run the finished jobs are a prefix of the queue and a retried job keeps
   * its place at the head.
   */
  lemma {:induction false} OrderHoldsThroughout(db: Db, clock: Instant, events: seq<Event>)
    requires Inv(db) && AdmissibleRun(db, events) && HeadOfLine(db, clock) && OrderedRun(db, clock, events)
    ensures HeadOfLine(Run(db, events), FinalTime(clock, events))
    decreases |events|
  {
    hide Inv, Next, HeadOfLine, InOrder, TimeOf;
    if events != [] {
      NextKeepsInv(db, events[0]);
      NextKeepsOrder(db, clock, events[0]);
      OrderHoldsThroughout(Next(db, events[0]), TimeOf(events[0], clock), events[1..]);
    }
  }
}
