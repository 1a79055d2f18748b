/** Openers and workers at once: any interleaving that keeps to the lock is a run of the service. */
module Concurrency {
  import opened Prelude
  import opened Text
  import opened Domain
  import opened Records
  import opened Tables
  import opened Application
  import opened Lifecycle
  import opened Runs
  import opened Schedules
  import Store
  import Transactions

  // ----- transactions as calls -----

  /** Committing these calls does what the event does. */
  ghost predicate Body(db: Db, calls: seq<Operation>, e: Event) {
    Admissible(db, e) && ApplyAll(db, calls) == Runs.Next(db, e)
  }

  /** What a unit calls to run a successful pipeline. */
  function PipelineCalls(inv: Investigation, w: Worker, rows: seq<Evidence>, report: Report): seq<Operation> {
    [AppendOp(rows), PutOp(report), InvestigationStatusOp(inv.context.tenant, inv.id, Succeeded),
     AuditOp(Audit(inv.context.tenant, inv.id, w.id, "report.persisted", None))]
  }

  function SucceedCalls(c: ClaimedJob, w: Worker, turn: Turn): seq<Operation> {
    [JobStatusOp(c.tenant, c.job, JobSucceeded), RecordOp(AttemptOf(c, w, turn, AttemptSucceeded, None))]
  }

  function FailCalls(c: ClaimedJob, w: Worker, turn: Turn, code: string): seq<Operation> {
    [InvestigationStatusOp(c.tenant, c.investigation, Failed), JobStatusOp(c.tenant, c.job, JobFailed),
     RecordOp(AttemptOf(c, w, turn, AttemptFailed, Some(code))),
     AuditOp(Audit(c.tenant, c.investigation, w.id, "investigation.failed", Some(code)))]
  }

  function RetryCalls(c: ClaimedJob, w: Worker, turn: Turn, code: string): seq<Operation> {
    if c.attemptCount >= w.maxAttempts then FailCalls(c, w, turn, code)
    else [JobStatusOp(c.tenant, c.job, Queued), RecordOp(AttemptOf(c, w, turn, AttemptFailed, Some(code)))]
  }

  /** What a unit calls after a claim, by how the analysis ends. */
  function ProcessCalls(c: ClaimedJob, inv: Investigation, w: Worker, turn: Turn): seq<Operation>
    requires w.Valid() && turn.Valid()
  {
    [InvestigationStatusOp(c.tenant, c.investigation, Running)]
    + match Analyse(inv, w.policy, turn)
      case Conclusion(rows, report) => PipelineCalls(inv, w, rows, report) + SucceedCalls(c, w, turn)
      case TerminalFailure(code) => FailCalls(c, w, turn, code)
      case Crash => FailCalls(c, w, turn, "internal_error")
      case RetryableFailure(code) => RetryCalls(c, w, turn, code)
  }

  /** The calls of a worker's turn. */
  ghost function TurnCalls(db: Db, w: Worker, turn: Turn): seq<Operation>
    requires Inv(db) && w.Valid() && turn.Valid()
  {
    var choice := ClaimChoice(db.jobs, turn.now);
    [ClaimOp(w.id, w.lease, turn.now)]
    + if choice.None? then []
      else
        assert db.jobs[choice.value].investigation in db.investigations by {
          LinkedJobs(db);
        }
        ProcessCalls(ClaimTicket(db.jobs[choice.value], w.id, w.lease, turn.now),
                     db.investigations[db.jobs[choice.value].investigation], w, turn)
  }

  /** The calls of an opening. */
  ghost function OpenCalls(db: Db, cmd: Command, id: Uuid, jobId: Uuid, now: Instant, maxAttempts: int)
    : seq<Operation>
  {
    [CreateOp(NewInvestigation(cmd, id))]
    + if ByKey(db, cmd.context.tenant, cmd.idempotencyKey).Some? then []
      else [EnqueueOp(NewJob(cmd, jobId, id, now, maxAttempts)),
            AuditOp(Audit(cmd.context.tenant, id, "control-plane", "investigation.created", None))]
  }

  lemma LinkedJobs(db: Db)
    requires Inv(db)
    ensures forall j :: j in db.jobs ==> db.jobs[j].investigation in db.investigations
  {
    hide WellKeyed, OneJobEach, StatusesAgree, Numbered, Reported, Grounded, Formed;
  }

  /** Calls made first are applied first. */
  lemma CallFirst(db: Db, op: Operation, calls: seq<Operation>)
    ensures ApplyAll(db, [op] + calls) == ApplyAll(Apply(db, op), calls)
  {
    hide Apply;
    ApplyAllConcat(db, [op], calls);
    AppliedNothing(db);
    assert [op][..0] == [];
  }

  lemma SucceedCallsRun(db: Db, c: ClaimedJob, w: Worker, turn: Turn)
    requires Succeed(db, c, w, turn).Success?
    ensures ApplyAll(db, SucceedCalls(c, w, turn)) == Succeed(db, c, w, turn).value
  {
    hide SetJobStatus, RecordAttempt, ApplyAll;
    var calls := SucceedCalls(c, w, turn);
    assert calls == [calls[0]] + ([calls[1]] + []);
    CallFirst(db, calls[0], [calls[1]] + []);
    CallFirst(Apply(db, calls[0]), calls[1], []);
    AppliedNothing(Succeed(db, c, w, turn).value);
  }

  lemma FailCallsRun(db: Db, c: ClaimedJob, w: Worker, turn: Turn, code: string)
    requires TerminalFail(db, c, w, turn, code).Success?
    ensures ApplyAll(db, FailCalls(c, w, turn, code)) == TerminalFail(db, c, w, turn, code).value
  {
    hide SetInvestigationStatus, SetJobStatus, RecordAttempt, ApplyAll;
    var calls := FailCalls(c, w, turn, code);
    FourCalls(db, calls);
  }

  lemma FourCalls(db: Db, calls: seq<Operation>)
    requires |calls| == 4
    ensures ApplyAll(db, calls) == Apply(Apply(Apply(Apply(db, calls[0]), calls[1]), calls[2]), calls[3])
  {
    hide Apply, ApplyAll;
    var a, b, c := Apply(db, calls[0]), Apply(Apply(db, calls[0]), calls[1]),
                   Apply(Apply(Apply(db, calls[0]), calls[1]), calls[2]);
    CallFirst(db, calls[0], calls[1..]);
    CallFirst(a, calls[1], calls[2..]);
    CallFirst(b, calls[2], calls[3..]);
    CallFirst(c, calls[3], []);
    assert calls == [calls[0]] + calls[1..] && calls[1..] == [calls[1]] + calls[2..];
    assert calls[2..] == [calls[2]] + calls[3..] && calls[3..] == [calls[3]] + [];
    AppliedNothing(Apply(c, calls[3]));
  }

  lemma RetryCallsRun(db: Db, c: ClaimedJob, w: Worker, turn: Turn, code: string)
    requires RetryOrFail(db, c, w, turn, code).Success?
    ensures ApplyAll(db, RetryCalls(c, w, turn, code)) == RetryOrFail(db, c, w, turn, code).value
  {
    hide SetJobStatus, RecordAttempt, ApplyAll, TerminalFail, FailCalls;
    var calls := RetryCalls(c, w, turn, code);
    if c.attemptCount >= w.maxAttempts {
      FailCallsRun(db, c, w, turn, code);
    } else {
      assert calls == [calls[0]] + ([calls[1]] + []);
      CallFirst(db, calls[0], [calls[1]] + []);
      CallFirst(Apply(db, calls[0]), calls[1], []);
      AppliedNothing(RetryOrFail(db, c, w, turn, code).value);
    }
  }

  lemma PipelineCallsRun(db: Db, inv: Investigation, w: Worker, turn: Turn)
    requires w.Valid() && turn.Valid() && RunPipeline(db, inv, w, turn).1.Completed?
    ensures Analyse(inv, w.policy, turn).Conclusion?
    ensures var a := Analyse(inv, w.policy, turn);
            ApplyAll(db, PipelineCalls(inv, w, a.rows, a.report)) == RunPipeline(db, inv, w, turn).0
  {
    hide Analyse, SetInvestigationStatus, AppendEvidence, PutReport, ApplyAll, NonBlank, Turn.Valid;
    if Analyse(inv, w.policy, turn).Conclusion? {
      var a := Analyse(inv, w.policy, turn);
      FourCalls(db, PipelineCalls(inv, w, a.rows, a.report));
    }
  }

  /** Under the invariant a concluded analysis is written without an error. */
  lemma PipelineCompletes(db: Db, j: Uuid, w: Worker, turn: Turn)
    requires Ready(db, j) && w.Valid() && turn.Valid()
    requires Analyse(db.investigations[db.jobs[j].investigation], w.policy, turn).Conclusion?
    ensures var job := db.jobs[j];
            var running := SetInvestigationStatus(ClaimedDb(db, job, w, turn), job.tenant, job.investigation, Running);
            && running.Success?
            && RunPipeline(running.value, db.investigations[job.investigation], w, turn).1.Completed?
  {
    hide Analyse, Appended, AttemptTaken, NonBlank;
    ConclusionShape(db.investigations[db.jobs[j].investigation], w.policy, turn);
  }

  lemma ProcessCallsRun(db: Db, j: Uuid, w: Worker, turn: Turn)
    requires Ready(db, j) && w.Valid() && turn.Valid()
    ensures var job := db.jobs[j];
            var calls := ProcessCalls(ClaimTicket(job, w.id, w.lease, turn.now), db.investigations[job.investigation],
                                      w, turn);
            ApplyAll(ClaimedDb(db, job, w, turn), calls) == Outcome(db, job, w, turn)
  {
    hide Analyse, Outcome, Ready, ApplyAll, SetInvestigationStatus, RunPipeline, Succeed, TerminalFail, RetryOrFail,
         PipelineCalls, SucceedCalls, FailCalls, RetryCalls, NonBlank, Turn.Valid;
    ProcessEffect(db, j, w, turn);
    ReadyInvestigation(db, j);
    var job, inv := db.jobs[j], db.investigations[db.jobs[j].investigation];
    var c, claimed := ClaimTicket(job, w.id, w.lease, turn.now), ClaimedDb(db, job, w, turn);
    var running := SetInvestigationStatus(claimed, c.tenant, c.investigation, Running).value;
    var first := InvestigationStatusOp(c.tenant, c.investigation, Running);
    match Analyse(inv, w.policy, turn)
    case Conclusion(rows, report) =>
      PipelineCompletes(db, j, w, turn);
      PipelineCallsRun(running, inv, w, turn);
      var written := RunPipeline(running, inv, w, turn).0;
      SucceedCallsRun(written, c, w, turn);
      ApplyAllConcat(running, PipelineCalls(inv, w, rows, report), SucceedCalls(c, w, turn));
      CallFirst(claimed, first, PipelineCalls(inv, w, rows, report) + SucceedCalls(c, w, turn));
    case TerminalFailure(code) =>
      FailedPipeline(running, inv, w, turn);
      FailCallsRun(running, c, w, turn, code);
      CallFirst(claimed, first, FailCalls(c, w, turn, code));
    case Crash =>
      FailedPipeline(running, inv, w, turn);
      FailCallsRun(running, c, w, turn, "internal_error");
      CallFirst(claimed, first, FailCalls(c, w, turn, "internal_error"));
    case RetryableFailure(code) =>
      FailedPipeline(running, inv, w, turn);
      RetryCallsRun(running, c, w, turn, code);
      CallFirst(claimed, first, RetryCalls(c, w, turn, code));
  }

  lemma ReadyInvestigation(db: Db, j: Uuid)
    requires Ready(db, j)
    ensures j in db.jobs && db.jobs[j].id == j && db.jobs[j].investigation in db.investigations
  {
  }

  /** A pipeline that does not conclude writes nothing and exits as its analysis ended. */
  lemma FailedPipeline(db: Db, inv: Investigation, w: Worker, turn: Turn)
    requires w.Valid() && turn.Valid() && !Analyse(inv, w.policy, turn).Conclusion?
    ensures var a := Analyse(inv, w.policy, turn);
            RunPipeline(db, inv, w, turn)
            == (db, match a case TerminalFailure(code) => Terminal(code)
                            case RetryableFailure(code) => Retryable(code)
                            case _ => Untyped)
  {
    hide Analyse, Worker.Valid, Turn.Valid;
  }

  /** The calls of a turn do what the turn does, in every state that keeps the invariant. */
  lemma TurnIsBody(db: Db, w: Worker, turn: Turn)
    requires Inv(db) && Admissible(db, Work(w, turn))
    ensures Body(db, TurnCalls(db, w, turn), Work(w, turn))
  {
    hide Inv, Analyse, Outcome, Ready, ApplyAll, ProcessCalls, RunOnce, ClaimChoice;
    TurnEffect(db, w, turn);
    LinkedJobs(db);
    InvIsKeyed(db);
    var choice, claim := ClaimChoice(db.jobs, turn.now), ClaimOp(w.id, w.lease, turn.now);
    if choice.None? {
      CallFirst(db, claim, []);
      AppliedNothing(db);
      assert [claim] + [] == [claim];
    } else {
      var j := choice.value;
      QueuedIsReady(db, j);
      ReadyInvestigation(db, j);
      ProcessCallsRun(db, j, w, turn);
      CallFirst(db, claim, ProcessCalls(ClaimTicket(db.jobs[j], w.id, w.lease, turn.now),
                                        db.investigations[db.jobs[j].investigation], w, turn));
    }
  }

  /** The calls of an opening that succeeds do what the opening does. */
  lemma OpeningIsBody(db: Db, cmd: Command, id: Uuid, jobId: Uuid, now: Instant, maxAttempts: int)
    requires Admissible(db, Open(cmd, id, jobId, now, maxAttempts))
    requires Execute(db, cmd, id, jobId, now, maxAttempts).1.Success? && WellKeyed(db)
    ensures Body(db, OpenCalls(db, cmd, id, jobId, now, maxAttempts), Open(cmd, id, jobId, now, maxAttempts))
  {
    hide WellKeyed, ByKey, NonBlank, ApplyAll;
    var calls := OpenCalls(db, cmd, id, jobId, now, maxAttempts);
    OpenEffect(db, cmd, id, jobId, now, maxAttempts);
    if ByKey(db, cmd.context.tenant, cmd.idempotencyKey).Some? {
      assert calls == [calls[0]] + [];
      CallFirst(db, calls[0], []);
      AppliedNothing(Apply(db, calls[0]));
    } else {
      assert calls == [calls[0]] + ([calls[1]] + ([calls[2]] + []));
      CallFirst(db, calls[0], [calls[1]] + ([calls[2]] + []));
      CallFirst(Apply(db, calls[0]), calls[1], [calls[2]] + []);
      CallFirst(Apply(Apply(db, calls[0]), calls[1]), calls[2], []);
      AppliedNothing(Apply(Apply(Apply(db, calls[0]), calls[1]), calls[2]));
    }
  }

  // ----- schedules of the service -----

  /** The step commits what the unit inside has pending. */
  predicate Publishes(j: Journal, step: Step) {
    step.Commit? && j.holder == Some(step.unit)
  }

  /**
   * Every commit of the schedule publishes the body of one event, in this order. Everything else is free:
   * any number of units, with their steps interleaved, and transactions that are rolled back or left.
   */
  ghost predicate Serves(steps: seq<Step>, events: seq<Event>)
    decreases |steps|
  {
    if steps == [] then events == []
    else
      var n := |steps| - 1;
      var s, j := AdvanceAll(START, steps[..n]), NotedAll(steps[..n]);
      if Publishes(j, steps[n]) then
        events != [] && Serves(steps[..n], events[..|events| - 1]) && Body(s.shared, j.pending, events[|events| - 1])
      else Serves(steps[..n], events)
  }

  /** Only a commit from inside the scope changes the shared contents, and it publishes what was pending. */
  lemma StepPublishes(s: State, j: Journal, step: Step)
    requires Follows(s, j) && Scoped(s, step)
    ensures Advance(s, step).shared == if Publishes(j, step) then ApplyAll(s.shared, j.pending) else s.shared
  {
    hide Apply, ApplyAll;
  }

  /** The shared contents of such a schedule are those of the run of its committed events, in lock order. */
  lemma {:induction false} SchedulesAreRuns(steps: seq<Step>, events: seq<Event>)
    requires AllScoped(steps) && Serves(steps, events)
    ensures AdmissibleRun(EMPTY_DB, events) && Run(EMPTY_DB, events) == AdvanceAll(START, steps).shared
    decreases |steps|
  {
    hide Advance, Noted, Scoped, Follows, Publishes, Runs.Next, Admissible, ApplyAll;
    if steps != [] {
      var n := |steps| - 1;
      var front, s, j := steps[..n], AdvanceAll(START, steps[..n]), NotedAll(steps[..n]);
      ScopedScheduleFollows(front);
      StepPublishes(s, j, steps[n]);
      if Publishes(j, steps[n]) {
        var earlier, e := events[..|events| - 1], events[|events| - 1];
        SchedulesAreRuns(front, earlier);
        RunAppend(EMPTY_DB, earlier, e);
        assert events == earlier + [e];
      } else {
        SchedulesAreRuns(front, events);
      }
    }
  }

  // ----- and every run is such a schedule -----

  /** Every event is what some calls do, whatever it is. */
  lemma EveryEventHasBody(db: Db, e: Event) returns (calls: seq<Operation>)
    requires Inv(db) && Admissible(db, e)
    ensures Body(db, calls, e)
  {
    hide Inv, ApplyAll, TurnCalls, OpenCalls, Body, Execute, RunOnce, Admissible, Runs.Next;
    AppliedNothing(db);
    InvIsKeyed(db);
    calls := [];
    if e.Work? {
      WorkAdmitted(db, e);
      calls := TurnCalls(db, e.worker, e.turn);
      TurnIsBody(db, e.worker, e.turn);
    } else if e.Open? && Execute(db, e.cmd, e.id, e.jobId, e.now, e.maxAttempts).1.Success? {
      calls := OpenCalls(db, e.cmd, e.id, e.jobId, e.now, e.maxAttempts);
      OpeningIsBody(db, e.cmd, e.id, e.jobId, e.now, e.maxAttempts);
    } else {
      NothingIsBody(db, e);
    }
  }

  lemma WorkAdmitted(db: Db, e: Event)
    requires Admissible(db, e) && e.Work?
    ensures e.worker.Valid() && e.turn.Valid()
  {
  }

  /** What fails, is abandoned or only reads does what no call does. */
  lemma NothingIsBody(db: Db, e: Event)
    requires Admissible(db, e) && WellKeyed(db) && !e.Work?
    requires e.Open? ==> Execute(db, e.cmd, e.id, e.jobId, e.now, e.maxAttempts).1.Failure?
    ensures Body(db, [], e)
  {
    hide WellKeyed, Execute, ByKey;
    AppliedNothing(db);
    if e.Open? {
      OpenEffect(db, e.cmd, e.id, e.jobId, e.now, e.maxAttempts);
    }
  }

  /** A scoped schedule that serves the events so far. */
  ghost predicate Serving(steps: seq<Step>, events: seq<Event>) {
    AllScoped(steps) && Serves(steps, events)
  }

  lemma Extended(steps: seq<Step>, events: seq<Event>, step: Step, more: seq<Event>)
    requires Serving(steps, events) && Scoped(AdvanceAll(START, steps), step)
    requires if Publishes(NotedAll(steps), step)
             then |more| == 1 && Body(AdvanceAll(START, steps).shared, NotedAll(steps).pending, more[0])
             else more == []
    ensures Serving(steps + [step], events + more)
    ensures AdvanceAll(START, steps + [step]) == Advance(AdvanceAll(START, steps), step)
    ensures NotedAll(steps + [step]) == Noted(NotedAll(steps), step)
  {
    hide Advance, Noted, Scoped, Body, Publishes;
    var longer := steps + [step];
    assert longer[..|longer| - 1] == steps && longer[|longer| - 1] == step;
    assert |more| == 1 ==> (events + more)[..|events + more| - 1] == events;
    assert more == [] ==> events + more == events;
  }

  lemma CallExtends(steps: seq<Step>, events: seq<Event>, u: nat, op: Operation)
    requires Serving(steps, events) && NotedAll(steps).holder == Some(u)
    ensures var longer := steps + [Operate(u, op)];
            && Serving(longer, events) && NotedAll(longer).holder == Some(u)
            && NotedAll(longer).pending == NotedAll(steps).pending + [op]
            && AdvanceAll(START, longer).shared == AdvanceAll(START, steps).shared
  {
    hide AdvanceAll, NotedAll, Serving, Follows, Advance, AllScoped;
    ServingFollows(steps, events);
    StepPublishes(AdvanceAll(START, steps), NotedAll(steps), Operate(u, op));
    Extended(steps, events, Operate(u, op), []);
    assert events + [] == events;
  }

  /** The unit inside makes its calls one by one. */
  lemma {:induction false} CallsExtend(steps: seq<Step>, events: seq<Event>, u: nat, calls: seq<Operation>)
    returns (longer: seq<Step>)
    requires Serving(steps, events) && NotedAll(steps).holder == Some(u)
    ensures Serving(longer, events) && NotedAll(longer).holder == Some(u)
    ensures NotedAll(longer).pending == NotedAll(steps).pending + calls
    ensures AdvanceAll(START, longer).shared == AdvanceAll(START, steps).shared
    decreases |calls|
  {
    hide AdvanceAll, NotedAll, Serving;
    if calls == [] {
      longer := steps;
    } else {
      CallExtends(steps, events, u, calls[0]);
      longer := CallsExtend(steps + [Operate(u, calls[0])], events, u, calls[1..]);
      assert NotedAll(steps).pending + calls == NotedAll(steps).pending + [calls[0]] + calls[1..];
    }
  }

  lemma ServingFollows(steps: seq<Step>, events: seq<Event>)
    requires Serving(steps, events)
    ensures Follows(AdvanceAll(START, steps), NotedAll(steps))
    ensures AdmissibleRun(EMPTY_DB, events) && Run(EMPTY_DB, events) == AdvanceAll(START, steps).shared
  {
    hide AdvanceAll, NotedAll, Follows, Run, AdmissibleRun, AllScoped, Serves;
    ScopedScheduleFollows(steps);
    SchedulesAreRuns(steps, events);
  }

  lemma UnitsFollow(s: State, j: Journal)
    requires Follows(s, j)
    ensures j.units == |s.current| && j.holder == s.holder
  {
  }

  /** One more transaction: a new unit enters, makes its calls, commits and leaves. */
  lemma TransactionExtends(steps: seq<Step>, events: seq<Event>, calls: seq<Operation>, e: Event)
    returns (longer: seq<Step>)
    requires Serving(steps, events) && NotedAll(steps).holder.None?
    requires Body(AdvanceAll(START, steps).shared, calls, e)
    ensures Serving(longer, events + [e]) && NotedAll(longer).holder.None?
  {
    hide AdvanceAll, NotedAll, Serving, Follows, Body, AllScoped, Run, AdmissibleRun, Written, Apply;
    var u := NotedAll(steps).units;
    ServingFollows(steps, events);
    UnitsFollow(AdvanceAll(START, steps), NotedAll(steps));
    assert events + [] == events;
    Extended(steps, events, Step.Construct, []);
    var constructed := steps + [Step.Construct];
    ServingFollows(constructed, events);
    UnitsFollow(AdvanceAll(START, constructed), NotedAll(constructed));
    Extended(constructed, events, Step.Enter(u), []);
    var entered := constructed + [Step.Enter(u)];
    assert AdvanceAll(START, entered).shared == AdvanceAll(START, steps).shared;
    var called := CallsExtend(entered, events, u, calls);
    assert NotedAll(called).pending == calls by { assert [] + calls == calls; }
    ServingFollows(called, events);
    UnitsFollow(AdvanceAll(START, called), NotedAll(called));
    Extended(called, events, Step.Commit(u), [e]);
    var committed := called + [Step.Commit(u)];
    ServingFollows(committed, events + [e]);
    UnitsFollow(AdvanceAll(START, committed), NotedAll(committed));
    Extended(committed, events + [e], Step.Exit(u), []);
    longer := committed + [Step.Exit(u)];
    assert events + [e] + [] == events + [e];
  }

  /** Conversely every run of the service is what some scoped schedule of its transactions serves. */
  lemma {:induction false} RunsAreSchedules(events: seq<Event>) returns (steps: seq<Step>)
    requires AdmissibleRun(EMPTY_DB, events)
    ensures Serving(steps, events) && NotedAll(steps).holder.None?
    decreases |events|
  {
    hide Inv, Run, AdmissibleRun, Admissible, Runs.Next, Body;
    steps := [];
    if events != [] {
      var n := |events| - 1;
      RunPrefix(EMPTY_DB, events, n);
      var front := RunsAreSchedules(events[..n]);
      ServingFollows(front, events[..n]);
      EveryReachableState(events[..n]);
      var calls := EveryEventHasBody(Run(EMPTY_DB, events[..n]), events[n]);
      steps := TransactionExtends(front, events[..n], calls, events[n]);
      assert events == events[..n] + [events[n]];
    }
  }

  /**
   * The concurrent service on the heap: however the transactions of openers and workers interleave, if they
   * keep to the lock then the shared store ends up as the run of the committed events, and keeps the
   * invariant of every reachable state.
   */
  method ServeConcurrently(steps: seq<Step>, ghost events: seq<Event>) returns (shared: Store.Store)
    requires AllScoped(steps) && Serves(steps, events)
    ensures AdmissibleRun(EMPTY_DB, events) && shared.Contents() == Run(EMPTY_DB, events)
    ensures Inv(shared.Contents())
  {
    hide Inv, Serves, Transactions.Matches, AllScoped, AdvanceAll, NotedAll, ApplyAll, Run, AdmissibleRun;
    var lock, units, exposed;
    shared, lock, units, exposed := Transactions.RunSchedule(steps);
    ScopedSchedulesAreSerial(steps);
    SchedulesAreRuns(steps, events);
    EveryReachableState(events);
  }
}
