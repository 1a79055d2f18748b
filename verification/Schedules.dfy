/** Any interleaving of units of work that keeps to the lock is a serial execution of the committed ones. */
module Schedules {
  import opened Prelude
  import opened Records
  import opened Tables

  /** One call through an exposed repository. */
  datatype Operation =
    | CreateOp(investigation: Investigation)
    | InvestigationStatusOp(tenant: string, id: Uuid, investigationStatus: InvestigationStatus)
    | EnqueueOp(job: Job)
    | ClaimOp(worker: string, lease: int, now: Instant)
    | JobStatusOp(tenant: string, id: Uuid, jobStatus: JobStatus)
    | RecordOp(attempt: Attempt)
    | AppendOp(rows: seq<Evidence>)
    | PutOp(report: Report)
    | AuditOp(entry: Audit)

  /** The effect of an operation; one that raises changes nothing. */
  ghost function Apply(db: Db, op: Operation): Db {
    match op
    case CreateOp(row) => var r := Create(db, row); if r.Success? then r.value.0 else db
    case InvestigationStatusOp(tenant, id, status) =>
      var r := SetInvestigationStatus(db, tenant, id, status); if r.Success? then r.value else db
    case EnqueueOp(row) => var r := Enqueue(db, row); if r.Success? then r.value else db
    case ClaimOp(worker, lease, now) => var r := Claim(db, worker, lease, now); if r.Success? then r.value.0 else db
    case JobStatusOp(tenant, id, status) =>
      var r := SetJobStatus(db, tenant, id, status); if r.Success? then r.value else db
    case RecordOp(row) => var r := RecordAttempt(db, row); if r.Success? then r.value else db
    case AppendOp(rows) => AppendEvidence(db, rows)
    case PutOp(row) => var r := PutReport(db, row); if r.Success? then r.value else db
    case AuditOp(row) => AppendAudit(db, row)
  }

  ghost function ApplyAll(db: Db, ops: seq<Operation>): Db {
    if ops == [] then db else Apply(ApplyAll(db, ops[..|ops| - 1]), ops[|ops| - 1])
  }

  lemma {:induction false} ApplyAllConcat(db: Db, a: seq<Operation>, b: seq<Operation>)
    ensures ApplyAll(db, a + b) == ApplyAll(ApplyAll(db, a), b)
  {
    hide Apply;
    if b == [] {
      assert a + b == a;
    } else {
      assert (a + b)[..|a + b| - 1] == a + b[..|b| - 1];
      ApplyAllConcat(db, a, b[..|b| - 1]);
    }
  }

  lemma OperationsKeepKeys(db: Db, op: Operation)
    requires WellKeyed(db)
    ensures WellKeyed(Apply(db, op))
  {
    match op
    case CreateOp(row) => CreateKeepsKeys(db, row);
    case InvestigationStatusOp(tenant, id, status) => StatusKeepsKeys(db, tenant, id, status);
    case EnqueueOp(row) =>
    case ClaimOp(worker, lease, now) => ClaimKeepsKeys(db, worker, lease, now);
    case JobStatusOp(tenant, id, status) =>
    case RecordOp(row) =>
    case AppendOp(rows) =>
    case PutOp(row) =>
    case AuditOp(row) =>
  }

  // ----- schedules -----

  /**
   * One scheduling decision. `unit` names a unit of work by order of construction, `exposure` a set of
   * repositories by order in which any unit exposed it, so that repositories can be kept and used later.
   */
  datatype Step =
    | Construct
    | Enter(unit: nat)
    | Operate(unit: nat, op: Operation)
    | OperateKept(exposure: nat, op: Operation)
    | Commit(unit: nat)
    | Rollback(unit: nat)
    | Exit(unit: nat)

  /**
   * What the store and the units hold: the shared contents, the contents behind every exposure so far,
   * the exposure each unit currently offers, the exposure the latest commit published, and who entered.
   */
  datatype State = State(
    shared: Db,
    stores: seq<Db>,
    current: seq<nat>,
    adopted: Option<nat>,
    holder: Option<nat>)

  const START := State(EMPTY_DB, [], [], None, None)

  /** A unit starts over on a new copy of the shared contents. */
  function Refreshed(s: State, u: nat): State
    requires u < |s.current|
  {
    s.(stores := s.stores + [s.shared], current := s.current[u := |s.stores|])
  }

  /** A call through an exposure; if the latest commit published it, the shared store changes with it. */
  ghost function Written(s: State, k: nat, op: Operation): State
    requires k < |s.stores|
  {
    var after := Apply(s.stores[k], op);
    s.(stores := s.stores[k := after], shared := if s.adopted == Some(k) then after else s.shared)
  }

  /**
   * One step of any unit, in or out of its scope. Only entering waits for the lock; steps that name
   * nothing have no effect.
   */
  ghost function Advance(s: State, step: Step): State {
    match step
    case Construct => s.(stores := s.stores + [s.shared], current := s.current + [|s.stores|])
    case Enter(u) => if u < |s.current| && s.holder.None? then Refreshed(s, u).(holder := Some(u)) else s
    case Operate(u, op) =>
      if u < |s.current| && s.current[u] < |s.stores| then Written(s, s.current[u], op) else s
    case OperateKept(k, op) => if k < |s.stores| then Written(s, k, op) else s
    case Commit(u) =>
      if u < |s.current| && s.current[u] < |s.stores|
      then Refreshed(s.(shared := s.stores[s.current[u]], adopted := Some(s.current[u])), u)
      else s
    case Rollback(u) => if u < |s.current| then Refreshed(s, u) else s
    case Exit(u) => if u < |s.current| then s.(holder := None) else s
  }

  /** Steps that name nothing, or wait for the lock, change nothing. */
  lemma StepsWithoutEffect(s: State, step: Step)
    ensures step.Enter? && (step.unit >= |s.current| || s.holder.Some?) ==> Advance(s, step) == s
    ensures step.OperateKept? && step.exposure >= |s.stores| ==> Advance(s, step) == s
    ensures (step.Operate? || step.Commit? || step.Rollback? || step.Exit?) && step.unit >= |s.current|
      ==> Advance(s, step) == s
  {
    hide Apply;
  }

  /** A unit's call is a call through the repositories it offers. */
  lemma OperateIsKept(s: State, u: nat, op: Operation)
    requires u < |s.current| && s.current[u] < |s.stores|
    ensures Advance(s, Operate(u, op)) == Advance(s, OperateKept(s.current[u], op))
  {
    hide Apply;
  }

  ghost function AdvanceAll(s: State, steps: seq<Step>): State {
    if steps == [] then s else Advance(AdvanceAll(s, steps[..|steps| - 1]), steps[|steps| - 1])
  }

  /** Units offer different exposures, and none offers the published one. */
  ghost predicate WellFormed(s: State) {
    && (forall u :: 0 <= u < |s.current| ==> s.current[u] < |s.stores| && s.adopted != Some(s.current[u]))
    && (forall u, v :: 0 <= u < v < |s.current| ==> s.current[u] != s.current[v])
    && (s.adopted.Some? ==> s.adopted.value < |s.stores| && s.stores[s.adopted.value] == s.shared)
    && (s.holder.Some? ==> s.holder.value < |s.current|)
  }

  lemma AdvanceKeepsForm(s: State, step: Step)
    requires WellFormed(s)
    ensures WellFormed(Advance(s, step))
  {
    hide Apply;
  }

  lemma {:induction false} RunsAreWellFormed(steps: seq<Step>)
    ensures WellFormed(AdvanceAll(START, steps))
  {
    hide Advance;
    if steps != [] {
      RunsAreWellFormed(steps[..|steps| - 1]);
      AdvanceKeepsForm(AdvanceAll(START, steps[..|steps| - 1]), steps[|steps| - 1]);
    }
  }

  // ----- when an uncommitted write shows -----

  /**
   * A write through any exposure, current or kept, shows in the shared store if and only if that
   * exposure is the one the latest commit published: then it shows in full, otherwise not at all.
   */
  lemma WriteShowsIffAdopted(s: State, k: nat, op: Operation)
    requires WellFormed(s) && k < |s.stores|
    ensures Advance(s, OperateKept(k, op)).shared == if s.adopted == Some(k) then Apply(s.shared, op) else s.shared
  {
    hide Apply;
  }

  /** What a unit currently exposes is never that one, so nothing uncommitted shows through it. */
  lemma CurrentWritesStayHidden(s: State, u: nat, op: Operation)
    requires WellFormed(s)
    ensures Advance(s, Operate(u, op)).shared == s.shared
    ensures forall v :: 0 <= v < |s.current| && v != u ==>
      Advance(s, Operate(u, op)).stores[s.current[v]] == s.stores[s.current[v]]
  {
    hide Apply;
  }

  /** The position of the latest commit by an existing unit. */
  ghost function LatestCommit(steps: seq<Step>): Option<nat> {
    if steps == [] then None
    else
      var n := |steps| - 1;
      if steps[n].Commit? && steps[n].unit < |AdvanceAll(START, steps[..n]).current| then Some(n)
      else LatestCommit(steps[..n])
  }

  lemma OnlyCommitAdopts(s: State, step: Step)
    requires WellFormed(s)
    ensures Advance(s, step).adopted
            == if step.Commit? && step.unit < |s.current| then Some(s.current[step.unit]) else s.adopted
  {
    hide Apply;
  }

  /** By history: the published exposure is the one its unit offered just before the latest commit. */
  lemma {:induction false} AdoptedByLatestCommit(steps: seq<Step>)
    ensures LatestCommit(steps).None? ==> AdvanceAll(START, steps).adopted.None?
    ensures LatestCommit(steps).Some? ==>
      var n := LatestCommit(steps).value;
      && n < |steps| && steps[n].Commit?
      && var before := AdvanceAll(START, steps[..n]);
      && steps[n].unit < |before.current|
      && AdvanceAll(START, steps).adopted == Some(before.current[steps[n].unit])
  {
    hide Advance, WellFormed;
    if steps != [] {
      var front := steps[..|steps| - 1];
      AdoptedByLatestCommit(front);
      RunsAreWellFormed(front);
      OnlyCommitAdopts(AdvanceAll(START, front), steps[|steps| - 1]);
      assert forall m :: 0 <= m <= |front| ==> front[..m] == steps[..m];
    }
  }

  // ----- serial execution -----

  /** The record of a schedule: who holds the lock, what it has pending, what is committed. */
  datatype Journal = Journal(units: nat, holder: Option<nat>, pending: seq<Operation>, committed: seq<Operation>)

  function Noted(j: Journal, step: Step): Journal {
    match step
    case Construct => j.(units := j.units + 1)
    case Enter(u) => if u < j.units && j.holder.None? then j.(holder := Some(u), pending := []) else j
    case Operate(u, op) => if j.holder == Some(u) then j.(pending := j.pending + [op]) else j
    case OperateKept(_, _) => j
    case Commit(u) =>
      if j.holder == Some(u) then j.(committed := j.committed + j.pending, pending := []) else j
    case Rollback(u) => if j.holder == Some(u) then j.(pending := []) else j
    case Exit(u) => if j.holder == Some(u) then j.(holder := None, pending := []) else j
  }

  function NotedAll(steps: seq<Step>): Journal {
    if steps == [] then Journal(0, None, [], [])
    else Noted(NotedAll(steps[..|steps| - 1]), steps[|steps| - 1])
  }

  /**
   * Keeping to the lock: only the unit inside its scope commits or leaves, and no kept repositories are
   * used that the latest commit published or that the unit inside offers. Anything else is free: other
   * units may be constructed, operated and rolled back, and stale repositories written to, at any time.
   */
  ghost predicate Scoped(s: State, step: Step) {
    match step
    case Commit(u) => u < |s.current| ==> s.holder == Some(u)
    case Exit(u) => u < |s.current| ==> s.holder == Some(u)
    case OperateKept(k, _) =>
      s.adopted != Some(k) && (s.holder.Some? && s.holder.value < |s.current| ==> k != s.current[s.holder.value])
    case _ => true
  }

  ghost predicate AllScoped(steps: seq<Step>) {
    steps == [] || (AllScoped(steps[..|steps| - 1])
                    && Scoped(AdvanceAll(START, steps[..|steps| - 1]), steps[|steps| - 1]))
  }

  /** The shared contents are the committed calls in lock order, and the unit inside adds its pending ones. */
  ghost predicate Follows(s: State, j: Journal) {
    && WellFormed(s) && j.units == |s.current| && j.holder == s.holder
    && s.shared == ApplyAll(EMPTY_DB, j.committed)
    && (s.holder.Some? ==> s.stores[s.current[s.holder.value]] == ApplyAll(s.shared, j.pending))
  }

  lemma OperatingFollows(s: State, j: Journal, k: nat, op: Operation)
    requires Follows(s, j) && k < |s.stores| && s.adopted != Some(k)
    ensures var next := Written(s, k, op);
            if s.holder.Some? && k == s.current[s.holder.value]
            then Follows(next, j.(pending := j.pending + [op])) else Follows(next, j)
  {
    hide Apply;
    assert (j.pending + [op])[..|j.pending + [op]| - 1] == j.pending;
  }

  lemma CommittingFollows(s: State, j: Journal, u: nat)
    requires Follows(s, j) && s.holder == Some(u)
    ensures Follows(Advance(s, Commit(u)), Noted(j, Commit(u)))
  {
    hide Apply, ApplyAll;
    ApplyAllConcat(EMPTY_DB, j.committed, j.pending);
    AppliedNothing(ApplyAll(EMPTY_DB, j.committed + j.pending));
    AdvanceKeepsForm(s, Commit(u));
  }

  lemma AppliedNothing(db: Db)
    ensures ApplyAll(db, []) == db
  {
  }

  lemma FormedIndices(s: State)
    requires WellFormed(s)
    ensures forall u :: 0 <= u < |s.current| ==> s.current[u] < |s.stores| && s.adopted != Some(s.current[u])
    ensures forall u, v :: 0 <= u < v < |s.current| ==> s.current[u] != s.current[v]
    ensures s.holder.Some? ==> s.holder.value < |s.current|
  {
  }

  /** Steps that call and publish nothing. */
  lemma QuietStepFollows(s: State, j: Journal, step: Step)
    requires Follows(s, j) && Scoped(s, step)
    requires step.Construct? || step.Enter? || step.Rollback? || step.Exit?
    ensures Follows(Advance(s, step), Noted(j, step))
  {
    hide WellFormed, Apply, ApplyAll, Written;
    AppliedNothing(s.shared);
    AdvanceKeepsForm(s, step);
    FormedIndices(s);
  }

  /** Calls and commits. */
  lemma CallStepFollows(s: State, j: Journal, step: Step)
    requires Follows(s, j) && Scoped(s, step)
    requires step.Operate? || step.OperateKept? || step.Commit?
    ensures Follows(Advance(s, step), Noted(j, step))
  {
    hide WellFormed, Apply, ApplyAll, Written;
    FormedIndices(s);
    match step
    case Commit(u) =>
      if u < |s.current| {
        CommittingFollows(s, j, u);
      }
    case Operate(u, op) =>
      if u < |s.current| {
        OperatingFollows(s, j, s.current[u], op);
      }
    case OperateKept(k, op) =>
      if k < |s.stores| {
        OperatingFollows(s, j, k, op);
      }
  }

  lemma StepFollows(s: State, j: Journal, step: Step)
    requires Follows(s, j) && Scoped(s, step)
    ensures Follows(Advance(s, step), Noted(j, step))
  {
    hide Follows, Scoped, Advance, Noted;
    if step.Operate? || step.OperateKept? || step.Commit? {
      CallStepFollows(s, j, step);
    } else {
      QuietStepFollows(s, j, step);
    }
  }

  lemma {:induction false} ScopedScheduleFollows(steps: seq<Step>)
    requires AllScoped(steps)
    ensures Follows(AdvanceAll(START, steps), NotedAll(steps))
  {
    hide Advance, Noted, Scoped, Apply;
    if steps != [] {
      ScopedScheduleFollows(steps[..|steps| - 1]);
      StepFollows(AdvanceAll(START, steps[..|steps| - 1]), NotedAll(steps[..|steps| - 1]), steps[|steps| - 1]);
    }
  }

  /**
   * Whatever the interleaving, if it keeps to the lock then the shared contents are the committed calls
   * applied one after the other, in the order the lock admitted their units.
   */
  lemma ScopedSchedulesAreSerial(steps: seq<Step>)
    requires AllScoped(steps)
    ensures AdvanceAll(START, steps).shared == ApplyAll(EMPTY_DB, NotedAll(steps).committed)
  {
    hide AdvanceAll, NotedAll, ApplyAll;
    ScopedScheduleFollows(steps);
  }

  /**
   * When a commit is serial, in every state that was serial so far: if and only if its unit is inside
   * its scope, or what it offers is just what the shared store already holds.
   */
  lemma CommitIsSerialIff(s: State, j: Journal, u: nat)
    requires Follows(s, j) && u < |s.current|
    ensures s.current[u] < |s.stores|
    ensures Advance(s, Commit(u)).shared == ApplyAll(EMPTY_DB, Noted(j, Commit(u)).committed)
      <==> s.holder == Some(u) || s.stores[s.current[u]] == s.shared
  {
    hide Apply, ApplyAll;
    if s.holder == Some(u) {
      CommittingFollows(s, j, u);
    }
  }

  /** Two units, of which the second commits out of its scope. */
  function ForeignCommit(op: Operation): seq<Step> {
    [Construct, Construct, Enter(0), Operate(0, op), Commit(0), Commit(1)]
  }

  /**
   * The scope condition on commits is needed: a foreign commit wipes out what was committed under the
   * lock, and is serial only where there was nothing to wipe out.
   */
  lemma ForeignCommitLosesUpdate(op: Operation)
    ensures NotedAll(ForeignCommit(op)).committed == [op]
    ensures AdvanceAll(START, ForeignCommit(op)[..5]).shared == Apply(EMPTY_DB, op)
    ensures AdvanceAll(START, ForeignCommit(op)).shared == EMPTY_DB
    ensures AdvanceAll(START, ForeignCommit(op)).shared == ApplyAll(EMPTY_DB, NotedAll(ForeignCommit(op)).committed)
      <==> Apply(EMPTY_DB, op) == EMPTY_DB
  {
    hide Apply, AdvanceAll, NotedAll;
    var steps := ForeignCommit(op);
    LastStep(steps, 0);
    assert AdvanceAll(START, steps[..1]) == State(EMPTY_DB, [EMPTY_DB], [0], None, None);
    LastStep(steps, 1);
    assert AdvanceAll(START, steps[..2]) == State(EMPTY_DB, [EMPTY_DB, EMPTY_DB], [0, 1], None, None);
    LastStep(steps, 2);
    assert AdvanceAll(START, steps[..3]) == State(EMPTY_DB, [EMPTY_DB, EMPTY_DB, EMPTY_DB], [2, 1], None, Some(0));
    LastStep(steps, 3);
    LastStep(steps, 4);
    LastStep(steps, 5);
    assert steps[..6] == steps;
    AppliedNothing(EMPTY_DB);
    assert [op][..0] == [];
  }

  lemma LastStep(steps: seq<Step>, n: nat)
    requires n < |steps|
    ensures AdvanceAll(START, steps[..n + 1]) == Advance(AdvanceAll(START, steps[..n]), steps[n])
    ensures NotedAll(steps[..n + 1]) == Noted(NotedAll(steps[..n]), steps[n])
    ensures n == 0 ==> AdvanceAll(START, steps[..n]) == START && NotedAll(steps[..n]) == Journal(0, None, [], [])
  {
    hide Advance, Noted;
    assert steps[..n + 1][..n] == steps[..n];
  }
}
