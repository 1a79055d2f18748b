/** Units of work on the heap: every schedule of every unit does to the objects what the schedule says. */
module Transactions {
  import opened Prelude
  import opened Records
  import opened Tables
  import opened Store
  import opened Schedules

  /** The repositories a unit of work exposes together; whoever keeps them can call them later. */
  datatype Exposure = Exposure(
    investigations: InvestigationRepository,
    jobs: JobQueue,
    attempts: AttemptRepository,
    evidence: EvidenceRepository,
    reports: ReportRepository,
    audit: AuditLog)
  {
    /** The store behind them. */
    function Target(): Store {
      jobs.store
    }

    ghost predicate Consistent() {
      && investigations.store == jobs.store && attempts.store == jobs.store && evidence.store == jobs.store
      && reports.store == jobs.store && audit.store == jobs.store
    }
  }

  // ----- one call -----

  method CallInvestigations(e: Exposure, op: Operation)
    requires e.Consistent() && WellKeyed(e.Target().Contents()) && (op.CreateOp? || op.InvestigationStatusOp?)
    modifies e.Target().Containers()
    ensures WellKeyed(e.Target().Contents()) && e.Target().Contents() == Apply(old(e.Target().Contents()), op)
  {
    hide WellKeyed;
    match op
    case CreateOp(row) => var r := e.investigations.Create(row);
    case InvestigationStatusOp(tenant, id, status) => var r := e.investigations.SetStatus(tenant, id, status);
  }

  method CallJobs(e: Exposure, op: Operation)
    requires e.Consistent() && WellKeyed(e.Target().Contents()) && (op.EnqueueOp? || op.ClaimOp? || op.JobStatusOp?)
    modifies e.Target().Containers()
    ensures WellKeyed(e.Target().Contents()) && e.Target().Contents() == Apply(old(e.Target().Contents()), op)
  {
    hide WellKeyed;
    match op
    case EnqueueOp(row) => var r := e.jobs.Enqueue(row);
    case ClaimOp(worker, lease, now) => var r := e.jobs.Claim(worker, lease, now);
    case JobStatusOp(tenant, id, status) => var r := e.jobs.SetStatus(tenant, id, status);
  }

  method CallRecords(e: Exposure, op: Operation)
    requires e.Consistent() && WellKeyed(e.Target().Contents())
    requires op.RecordOp? || op.AppendOp? || op.PutOp? || op.AuditOp?
    modifies e.Target().Containers()
    ensures WellKeyed(e.Target().Contents()) && e.Target().Contents() == Apply(old(e.Target().Contents()), op)
  {
    hide WellKeyed;
    OperationsKeepKeys(e.Target().Contents(), op);
    match op
    case RecordOp(row) => var r := e.attempts.Record(row);
    case AppendOp(rows) => e.evidence.Append(rows);
    case PutOp(row) => var r := e.reports.Put(row);
    case AuditOp(row) => e.audit.Record(row);
  }

  /** Any call through exposed repositories changes the containers of their store, as the tables say. */
  method Call(e: Exposure, op: Operation)
    requires e.Consistent() && WellKeyed(e.Target().Contents())
    modifies e.Target().Containers()
    ensures WellKeyed(e.Target().Contents()) && e.Target().Contents() == Apply(old(e.Target().Contents()), op)
  {
    hide WellKeyed, Apply, Store.Contents;
    if op.CreateOp? || op.InvestigationStatusOp? {
      CallInvestigations(e, op);
    } else if op.EnqueueOp? || op.ClaimOp? || op.JobStatusOp? {
      CallJobs(e, op);
    } else {
      CallRecords(e, op);
    }
  }

  // ----- the heap behind a schedule -----

  /** The store holds these rows. */
  ghost predicate Holds(store: Store, db: Db)
    reads store, store.Containers()
  {
    WellKeyed(db) && store.Contents() == db
  }

  /** Different stores with no container in common. */
  ghost predicate Apart(a: Store, b: Store)
    reads a, b
  {
    a != b && a.Containers() !! b.Containers()
  }

  /** Both stores refer to the very same containers. */
  ghost predicate Aliased(a: Store, b: Store)
    reads a, b
  {
    && a != b && a.investigations == b.investigations && a.jobs == b.jobs && a.attempts == b.attempts
    && a.evidence == b.evidence && a.reports == b.reports && a.audit == b.audit
  }

  lemma NothingShared(a: Store, b: Store)
    requires a != b && a.Containers() !! b.Containers()
    ensures Apart(a, b)
  {
  }

  lemma ApartSharesNothing(a: Store, b: Store)
    requires Apart(a, b)
    ensures a.Containers() !! b.Containers()
  {
  }

  lemma AliasApart(a: Store, b: Store, c: Store)
    requires Aliased(a, b) && Apart(b, c) && a != c
    ensures Apart(a, c)
  {
  }

  lemma AliasHolds(a: Store, b: Store, db: Db)
    requires Aliased(a, b) && Holds(b, db)
    ensures Holds(a, db)
  {
  }

  ghost function Targets(exposed: seq<Exposure>): set<Store> {
    set k | 0 <= k < |exposed| :: exposed[k].Target()
  }

  /** Every exposure has a store of its own, apart from all others. */
  ghost predicate Separate(exposed: seq<Exposure>)
    reads Targets(exposed)
  {
    && (forall k :: 0 <= k < |exposed| ==> exposed[k].Consistent())
    && (forall j, k :: 0 <= j < |exposed| && 0 <= k < |exposed| && j != k
          ==> Apart(exposed[j].Target(), exposed[k].Target()))
  }

  /** The shared store is an alias of the published exposure and apart from every other one. */
  ghost predicate SharedApart(shared: Store, exposed: seq<Exposure>, adopted: Option<nat>)
    reads shared, Targets(exposed)
  {
    && (forall k :: 0 <= k < |exposed| ==> exposed[k].Target() != shared)
    && (adopted.Some? ==> adopted.value < |exposed| && Aliased(shared, exposed[adopted.value].Target()))
    && (forall k :: 0 <= k < |exposed| && adopted != Some(k) ==> Apart(shared, exposed[k].Target()))
  }

  ghost function Containers(exposed: seq<Exposure>): set<object>
    reads Targets(exposed)
  {
    set k, o | 0 <= k < |exposed| && o in exposed[k].Target().Containers() :: o
  }

  /** The exposures hold these rows. */
  ghost predicate AllHold(exposed: seq<Exposure>, dbs: seq<Db>)
    reads Targets(exposed), Containers(exposed)
  {
    |dbs| == |exposed| && forall k :: 0 <= k < |exposed| ==> Holds(exposed[k].Target(), dbs[k])
  }

  /** Every exposure and the shared store hold what they should, apart from everything but the alias. */
  ghost predicate StoresMatch(shared: Store, exposed: seq<Exposure>, dbs: seq<Db>, db: Db, adopted: Option<nat>)
    reads shared, shared.Containers(), Targets(exposed), Containers(exposed)
  {
    Separate(exposed) && AllHold(exposed, dbs) && SharedApart(shared, exposed, adopted) && Holds(shared, db)
  }

  method CallBeside(e: Exposure, op: Operation, shared: Store, ghost exposed: seq<Exposure>, ghost k: nat,
                    ghost dbs: seq<Db>, ghost db: Db, ghost adopted: Option<nat>)
    requires StoresMatch(shared, exposed, dbs, db, adopted) && k < |exposed| == |dbs| && e == exposed[k]
    modifies e.Target().Containers()
    ensures AllHold(exposed, dbs[k := Apply(dbs[k], op)])
    ensures Holds(shared, if adopted == Some(k) then Apply(dbs[k], op) else db)
  {
    hide Apply, WellKeyed, Store.Contents, Aliased, Apart;
    Call(e, op);
    forall m | 0 <= m < |exposed| && m != k
      ensures Holds(exposed[m].Target(), dbs[m])
    {
      ApartSharesNothing(exposed[m].Target(), exposed[k].Target());
      assert old(Holds(exposed[m].Target(), dbs[m]));
      assert unchanged(exposed[m].Target().Containers());
    }
    if adopted == Some(k) {
      AliasHolds(shared, exposed[k].Target(), Apply(dbs[k], op));
    } else {
      ApartSharesNothing(shared, exposed[k].Target());
      assert old(Holds(shared, db)) && unchanged(shared.Containers());
    }
  }

  /** A call through any exposure changes what it holds, what its alias holds, and nothing else. */
  method CallAmong(e: Exposure, op: Operation, shared: Store, ghost exposed: seq<Exposure>, ghost k: nat,
                   ghost dbs: seq<Db>, ghost db: Db, ghost adopted: Option<nat>)
    requires StoresMatch(shared, exposed, dbs, db, adopted) && k < |exposed| == |dbs| && e == exposed[k]
    modifies e.Target().Containers()
    ensures var after := Apply(dbs[k], op);
            StoresMatch(shared, exposed, dbs[k := after], if adopted == Some(k) then after else db, adopted)
  {
    hide Apply, AllHold, Holds, Aliased, Apart, Exposure.Consistent;
    CallBeside(e, op, shared, exposed, k, dbs, db, adopted);
    assert unchanged(shared) && forall m :: 0 <= m < |exposed| ==> unchanged(exposed[m].Target());
  }

  // ----- one unit -----

  function Offered(uow: UnitOfWork): Exposure
    reads uow
  {
    Exposure(uow.investigations, uow.jobs, uow.attempts, uow.evidence, uow.reports, uow.audit)
  }

  /** The unit currently offers these repositories, and they write to its working store. */
  ghost predicate Exposes(uow: UnitOfWork, e: Exposure)
    reads uow
  {
    e == Offered(uow) && e.Consistent() && uow.working == e.Target()
  }

  /** The unit offers these repositories, over a store that holds these rows. */
  ghost predicate Offers(uow: UnitOfWork, e: Exposure, db: Db)
    reads uow, e.Target(), e.Target().Containers()
  {
    Exposes(uow, e) && Holds(e.Target(), db)
  }

  method Construct(shared: Store, lock: Lock, ghost db: Db) returns (uow: UnitOfWork, e: Exposure)
    requires Holds(shared, db)
    ensures fresh(uow) && uow.shared == shared && uow.lock == lock && Offers(uow, e, db)
    ensures fresh(e.Target()) && fresh(e.Target().Containers())
  {
    hide WellKeyed;
    uow := new UnitOfWork(shared, lock);
    e := Offered(uow);
  }

  /** Rolls back, or enters under a free lock. */
  method Restart(uow: UnitOfWork, enter: bool, ghost db: Db) returns (e: Exposure)
    requires Holds(uow.shared, db) && (enter ==> !uow.lock.held)
    modifies uow, uow.lock
    ensures Offers(uow, e, db) && fresh(e.Target()) && fresh(e.Target().Containers())
    ensures uow.lock.held == (enter || old(uow.lock.held))
  {
    hide WellKeyed;
    if enter {
      uow.Enter();
    } else {
      uow.Rollback();
    }
    e := Offered(uow);
  }

  method Publish(uow: UnitOfWork, ghost db: Db) returns (e: Exposure)
    requires uow.Valid() && Holds(uow.working, db)
    modifies uow, uow.shared
    ensures Offers(uow, e, db) && fresh(e.Target()) && fresh(e.Target().Containers())
    ensures Holds(uow.shared, db) && Aliased(uow.shared, old(uow.working)) && Apart(uow.shared, e.Target())
  {
    hide WellKeyed;
    uow.Commit();
    e := Offered(uow);
  }

  // ----- all units -----

  ghost predicate Bound(units: seq<UnitOfWork>, exposed: seq<Exposure>, current: seq<nat>, shared: Store, lock: Lock)
    reads set u | 0 <= u < |units| :: units[u]
  {
    && |units| == |current|
    && (forall u :: 0 <= u < |units| ==>
          && current[u] < |exposed| && units[u].shared == shared && units[u].lock == lock
          && Exposes(units[u], exposed[current[u]]))
    && (forall u, v :: 0 <= u < |units| && 0 <= v < |units| && u != v ==> units[u] != units[v])
  }

  lemma ExtraExposure(exposed: seq<Exposure>, dbs: seq<Db>, e: Exposure, db: Db, shared: Store, adopted: Option<nat>)
    requires Separate(exposed) && AllHold(exposed, dbs) && SharedApart(shared, exposed, adopted)
    requires e.Consistent() && Holds(e.Target(), db) && Apart(shared, e.Target())
    requires forall k :: 0 <= k < |exposed| ==> Apart(exposed[k].Target(), e.Target())
    ensures Separate(exposed + [e]) && AllHold(exposed + [e], dbs + [db]) && SharedApart(shared, exposed + [e], adopted)
  {
    hide Holds, Aliased, Exposure.Consistent, Exposure.Target;
    assert e.Target() != shared;
    forall j, k | 0 <= j < |exposed + [e]| && 0 <= k < |exposed + [e]| && j != k
      ensures Apart((exposed + [e])[j].Target(), (exposed + [e])[k].Target())
    {
      if j == |exposed| {
        assert Apart(exposed[k].Target(), e.Target());
      }
    }
  }

  // ----- the stores of a schedule -----

  method RestartBeside(uow: UnitOfWork, enter: bool, ghost exposed: seq<Exposure>, ghost dbs: seq<Db>, ghost db: Db)
    returns (e: Exposure)
    requires AllHold(exposed, dbs) && Holds(uow.shared, db) && (enter ==> !uow.lock.held)
    modifies uow, uow.lock
    ensures uow.lock.held == (enter || old(uow.lock.held))
    ensures fresh(e.Target()) && fresh(e.Target().Containers()) && Exposes(uow, e) && Holds(e.Target(), db)
    ensures AllHold(exposed, dbs) && Holds(uow.shared, db) && Apart(uow.shared, e.Target())
    ensures forall k :: 0 <= k < |exposed| ==> Apart(exposed[k].Target(), e.Target())
  {
    hide WellKeyed, Store.Contents, Apart;
    e := Restart(uow, enter, db);
    forall k | 0 <= k < |exposed|
      ensures Holds(exposed[k].Target(), dbs[k]) && Apart(exposed[k].Target(), e.Target())
    {
      assert old(Holds(exposed[k].Target(), dbs[k]));
      assert unchanged(exposed[k].Target());
      assert unchanged(exposed[k].Target().Containers());
      assert old(exposed[k].Target().Contents()) == exposed[k].Target().Contents();
      NothingShared(exposed[k].Target(), e.Target());
    }
    NothingShared(uow.shared, e.Target());
  }

  /** Starting a unit over adds a store apart from all others and leaves those alone. */
  method RestartAmong(uow: UnitOfWork, enter: bool, exposed: seq<Exposure>, ghost dbs: seq<Db>, ghost db: Db,
                      ghost adopted: Option<nat>)
    returns (e: Exposure)
    requires StoresMatch(uow.shared, exposed, dbs, db, adopted) && (enter ==> !uow.lock.held)
    modifies uow, uow.lock
    ensures uow.lock.held == (enter || old(uow.lock.held))
    ensures fresh(e.Target()) && fresh(e.Target().Containers()) && Exposes(uow, e)
    ensures StoresMatch(uow.shared, exposed + [e], dbs + [db], db, adopted)
  {
    hide AllHold, Holds, Aliased, Apart;
    e := RestartBeside(uow, enter, exposed, dbs, db);
    ExtraExposure(exposed, dbs, e, db, uow.shared, adopted);
  }

  /** So does constructing one. */
  method ConstructAmong(shared: Store, lock: Lock, exposed: seq<Exposure>, ghost dbs: seq<Db>, ghost db: Db,
                        ghost adopted: Option<nat>)
    returns (uow: UnitOfWork, e: Exposure)
    requires StoresMatch(shared, exposed, dbs, db, adopted)
    ensures fresh(uow) && uow.shared == shared && uow.lock == lock && Exposes(uow, e)
    ensures fresh(e.Target()) && fresh(e.Target().Containers())
    ensures StoresMatch(shared, exposed + [e], dbs + [db], db, adopted)
  {
    hide WellKeyed, Store.Contents, Aliased, Apart;
    uow, e := Construct(shared, lock, db);
    forall k | 0 <= k < |exposed|
      ensures Holds(exposed[k].Target(), dbs[k]) && Apart(exposed[k].Target(), e.Target())
    {
      assert old(Holds(exposed[k].Target(), dbs[k]));
      assert unchanged(exposed[k].Target());
      assert unchanged(exposed[k].Target().Containers());
      assert old(exposed[k].Target().Contents()) == exposed[k].Target().Contents();
      NothingShared(exposed[k].Target(), e.Target());
    }
    NothingShared(shared, e.Target());
    ExtraExposure(exposed, dbs, e, db, shared, adopted);
  }

  /** Committing makes the shared store an alias of what the unit offered, and starts the unit over. */
  method PublishAmong(uow: UnitOfWork, exposed: seq<Exposure>, ghost k: nat, ghost dbs: seq<Db>, ghost db: Db,
                      ghost adopted: Option<nat>)
    returns (e: Exposure)
    requires StoresMatch(uow.shared, exposed, dbs, db, adopted) && k < |exposed| == |dbs| && adopted != Some(k)
    requires Exposes(uow, exposed[k])
    modifies uow, uow.shared
    ensures fresh(e.Target()) && fresh(e.Target().Containers()) && Exposes(uow, e)
    ensures StoresMatch(uow.shared, exposed + [e], dbs + [dbs[k]], dbs[k], Some(k))
  {
    hide WellKeyed, Store.Contents, Aliased, Apart;
    UnitIsValid(uow, exposed[k], dbs[k], db);
    e := Publish(uow, dbs[k]);
    forall m | 0 <= m < |exposed|
      ensures Holds(exposed[m].Target(), dbs[m]) && Apart(exposed[m].Target(), e.Target())
      ensures m != k ==> Apart(uow.shared, exposed[m].Target())
    {
      assert old(Holds(exposed[m].Target(), dbs[m]));
      assert unchanged(exposed[m].Target());
      assert unchanged(exposed[m].Target().Containers());
      assert old(exposed[m].Target().Contents()) == exposed[m].Target().Contents();
      NothingShared(exposed[m].Target(), e.Target());
      if m != k {
        assert old(Apart(exposed[k].Target(), exposed[m].Target()));
        AliasApart(uow.shared, exposed[k].Target(), exposed[m].Target());
      }
    }
    ExtraExposure(exposed, dbs, e, dbs[k], uow.shared, Some(k));
  }

  /** A unit that offers an exposure apart from the shared store is fit to commit. */
  lemma UnitIsValid(uow: UnitOfWork, e: Exposure, db: Db, sharedDb: Db)
    requires Exposes(uow, e) && Holds(e.Target(), db) && Holds(uow.shared, sharedDb) && Apart(uow.shared, e.Target())
    ensures uow.Valid()
  {
    hide WellKeyed;
  }

  // ----- the objects of a schedule -----

  /** The objects hold what the state of the schedule says. */
  ghost predicate Matches(shared: Store, lock: Lock, units: seq<UnitOfWork>, exposed: seq<Exposure>, s: State)
    reads shared, shared.Containers(), Targets(exposed), Containers(exposed), lock, set u | 0 <= u < |units| :: units[u]
  {
    && WellFormed(s) && lock.held == s.holder.Some?
    && StoresMatch(shared, exposed, s.stores, s.shared, s.adopted)
    && |exposed| == |s.stores| && Bound(units, exposed, s.current, shared, lock)
  }

  method TakeCall(e: Exposure, op: Operation, shared: Store, lock: Lock, units: seq<UnitOfWork>,
                  ghost exposed: seq<Exposure>, ghost k: nat, ghost s: State)
    requires Matches(shared, lock, units, exposed, s) && k < |exposed| && e == exposed[k]
    modifies e.Target().Containers()
    ensures Matches(shared, lock, units, exposed, Advance(s, OperateKept(k, op)))
  {
    hide Apply, WellFormed, StoresMatch, Exposes;
    AdvanceKeepsForm(s, OperateKept(k, op));
    CallAmong(e, op, shared, exposed, k, s.stores, s.shared, s.adopted);
  }

  method TakeConstruct(shared: Store, lock: Lock, units: seq<UnitOfWork>, exposed: seq<Exposure>, ghost s: State)
    returns (uow: UnitOfWork, e: Exposure)
    requires Matches(shared, lock, units, exposed, s)
    ensures fresh(uow) && fresh(e.Target()) && fresh(e.Target().Containers())
    ensures Matches(shared, lock, units + [uow], exposed + [e], Advance(s, Step.Construct))
  {
    hide Apply, WellFormed, StoresMatch, Exposes;
    AdvanceKeepsForm(s, Step.Construct);
    uow, e := ConstructAmong(shared, lock, exposed, s.stores, s.shared, s.adopted);
  }

  method TakeRestart(shared: Store, lock: Lock, units: seq<UnitOfWork>, exposed: seq<Exposure>, u: nat, enter: bool,
                     ghost s: State)
    returns (e: Exposure)
    requires Matches(shared, lock, units, exposed, s) && u < |units| && (enter ==> s.holder.None?)
    modifies units[u], lock
    ensures fresh(e.Target()) && fresh(e.Target().Containers())
    ensures Matches(shared, lock, units, exposed + [e], Advance(s, if enter then Step.Enter(u) else Step.Rollback(u)))
  {
    hide Apply, WellFormed, StoresMatch, Exposes;
    AdvanceKeepsForm(s, if enter then Step.Enter(u) else Step.Rollback(u));
    e := RestartAmong(units[u], enter, exposed, s.stores, s.shared, s.adopted);
  }

  method TakeCommit(shared: Store, lock: Lock, units: seq<UnitOfWork>, exposed: seq<Exposure>, u: nat, ghost s: State)
    returns (e: Exposure)
    requires Matches(shared, lock, units, exposed, s) && u < |units|
    modifies units[u], shared
    ensures fresh(e.Target()) && fresh(e.Target().Containers())
    ensures Matches(shared, lock, units, exposed + [e], Advance(s, Step.Commit(u)))
  {
    hide Apply, StoresMatch, Exposes;
    AdvanceKeepsForm(s, Step.Commit(u));
    ghost var k := s.current[u];
    e := PublishAmong(units[u], exposed, k, s.stores, s.shared, s.adopted);
  }

  /**
   * A call through any repositories ever exposed shows in the shared store at once and in full if the
   * latest commit published them, and not at all otherwise.
   */
  method CallShows(e: Exposure, op: Operation, shared: Store, lock: Lock, units: seq<UnitOfWork>,
                   ghost exposed: seq<Exposure>, ghost k: nat, ghost s: State)
    requires Matches(shared, lock, units, exposed, s) && k < |exposed| && e == exposed[k]
    modifies e.Target().Containers()
    ensures Matches(shared, lock, units, exposed, Advance(s, OperateKept(k, op)))
    ensures shared.Contents()
            == if s.adopted == Some(k) then Apply(old(shared.Contents()), op) else old(shared.Contents())
  {
    hide Matches, Advance, WellFormed, Apply;
    MatchedSizes(shared, lock, units, exposed, s);
    WriteShowsIffAdopted(s, k, op);
    TakeCall(e, op, shared, lock, units, exposed, k, s);
    MatchedSizes(shared, lock, units, exposed, Advance(s, OperateKept(k, op)));
  }

  lemma StartMatches(shared: Store, lock: Lock)
    requires shared.Contents() == EMPTY_DB && !lock.held
    ensures Matches(shared, lock, [], [], START)
  {
  }

  lemma MatchedSizes(shared: Store, lock: Lock, units: seq<UnitOfWork>, exposed: seq<Exposure>, s: State)
    requires Matches(shared, lock, units, exposed, s)
    ensures |units| == |s.current| && |exposed| == |s.stores| && lock.held == s.holder.Some? && WellFormed(s)
    ensures shared.Contents() == s.shared
    ensures forall k :: 0 <= k < |exposed| ==> exposed[k].Target() != shared
    ensures forall u :: 0 <= u < |units| ==>
      units[u].lock == lock && s.current[u] < |exposed| && Offered(units[u]) == exposed[s.current[u]]
  {
    hide WellKeyed, Apart, Aliased;
  }

  /** One step of the schedule on the heap. */
  method Take(step: Step, shared: Store, lock: Lock, units: seq<UnitOfWork>, exposed: seq<Exposure>,
              ghost s: State)
    returns (units': seq<UnitOfWork>, exposed': seq<Exposure>)
    requires Matches(shared, lock, units, exposed, s)
    modifies shared, lock, set u | 0 <= u < |units| :: units[u]
    modifies Containers(exposed)
    ensures Matches(shared, lock, units', exposed', Advance(s, step))
    ensures units <= units' && forall u :: |units| <= u < |units'| ==> fresh(units'[u])
    ensures exposed <= exposed' && forall k :: 0 <= k < |exposed| ==> unchanged(exposed[k].Target())
    ensures forall k :: |exposed| <= k < |exposed'| ==>
      fresh(exposed'[k].Target()) && fresh(exposed'[k].Target().Containers())
  {
    hide Matches, Advance, WellFormed;
    MatchedSizes(shared, lock, units, exposed, s);
    StepsWithoutEffect(s, step);
    units', exposed' := units, exposed;
    match step {
      case Construct =>
        var uow, e := TakeConstruct(shared, lock, units, exposed, s);
        units', exposed' := units + [uow], exposed + [e];
      case Enter(u) =>
        if u < |units| && !lock.held {
          var e := TakeRestart(shared, lock, units, exposed, u, true, s);
          exposed' := exposed + [e];
        }
      case Operate(u, op) =>
        if u < |units| {
          OperateIsKept(s, u, op);
          TakeCall(Offered(units[u]), op, shared, lock, units, exposed, s.current[u], s);
        }
      case OperateKept(k, op) =>
        if k < |exposed| {
          TakeCall(exposed[k], op, shared, lock, units, exposed, k, s);
        }
      case Commit(u) =>
        if u < |units| {
          var e := TakeCommit(shared, lock, units, exposed, u, s);
          exposed' := exposed + [e];
        }
      case Rollback(u) =>
        if u < |units| {
          var e := TakeRestart(shared, lock, units, exposed, u, false, s);
          exposed' := exposed + [e];
        }
      case Exit(u) =>
        if u < |units| {
          TakeExit(shared, lock, units, exposed, u, s);
        }
    }
  }

  method TakeExit(shared: Store, lock: Lock, units: seq<UnitOfWork>, exposed: seq<Exposure>, u: nat, ghost s: State)
    requires Matches(shared, lock, units, exposed, s) && u < |units|
    modifies lock
    ensures Matches(shared, lock, units, exposed, Advance(s, Step.Exit(u)))
  {
    hide Apply, WellFormed, StoresMatch, Exposes;
    AdvanceKeepsForm(s, Step.Exit(u));
    ExitAmong(units[u], exposed, s.stores, s.shared, s.adopted);
  }

  method ExitAmong(uow: UnitOfWork, ghost exposed: seq<Exposure>, ghost dbs: seq<Db>, ghost db: Db,
                   ghost adopted: Option<nat>)
    requires StoresMatch(uow.shared, exposed, dbs, db, adopted)
    modifies uow.lock
    ensures !uow.lock.held && StoresMatch(uow.shared, exposed, dbs, db, adopted)
  {
    hide WellKeyed, Store.Contents, Aliased, Apart;
    uow.Exit();
    forall k | 0 <= k < |exposed|
      ensures Holds(exposed[k].Target(), dbs[k])
    {
      assert old(Holds(exposed[k].Target(), dbs[k]));
      assert unchanged(exposed[k].Target().Containers());
    }
    assert old(Holds(uow.shared, db)) && unchanged(uow.shared.Containers());
  }

  /**
   * Runs any schedule on the heap, in or out of scope and through kept repositories too. The objects end
   * up as the schedule says, every exposure ever offered apart from every other and, unless the latest
   * commit published it, from the shared store. A schedule that keeps to the lock leaves the committed
   * calls applied one after the other, in the order the lock admitted their units.
   */
  method RunSchedule(steps: seq<Step>)
    returns (shared: Store, lock: Lock, units: seq<UnitOfWork>, exposed: seq<Exposure>)
    ensures Matches(shared, lock, units, exposed, AdvanceAll(START, steps))
    ensures AllScoped(steps) ==> shared.Contents() == ApplyAll(EMPTY_DB, NotedAll(steps).committed)
  {
    hide Matches, Advance, AdvanceAll, NotedAll, ApplyAll, AllScoped;
    shared := new Store(EMPTY_DB);
    lock := new Lock();
    units, exposed := [], [];
    StartMatches(shared, lock);
    StartsEmpty(steps);
    for n := 0 to |steps|
      invariant Matches(shared, lock, units, exposed, AdvanceAll(START, steps[..n]))
      invariant forall u :: 0 <= u < |units| ==> fresh(units[u])
      invariant forall k :: 0 <= k < |exposed| ==> fresh(exposed[k].Target()) && fresh(exposed[k].Target().Containers())
    {
      LastStep(steps, n);
      units, exposed := Take(steps[n], shared, lock, units, exposed, AdvanceAll(START, steps[..n]));
    }
    assert steps[..|steps|] == steps;
    ScopedHeapIsSerial(shared, lock, units, exposed, steps);
  }

  lemma ScopedHeapIsSerial(shared: Store, lock: Lock, units: seq<UnitOfWork>, exposed: seq<Exposure>, steps: seq<Step>)
    requires Matches(shared, lock, units, exposed, AdvanceAll(START, steps))
    ensures AllScoped(steps) ==> shared.Contents() == ApplyAll(EMPTY_DB, NotedAll(steps).committed)
  {
    hide Matches, Advance, AdvanceAll, NotedAll, ApplyAll, AllScoped, WellFormed;
    MatchedSizes(shared, lock, units, exposed, AdvanceAll(START, steps));
    if AllScoped(steps) {
      ScopedSchedulesAreSerial(steps);
    }
  }

  lemma StartsEmpty(steps: seq<Step>)
    ensures AdvanceAll(START, steps[..0]) == START
  {
  }
}
