/** The service on the heap: a whole run of events against one shared store. */
module Service {
  import opened Records
  import opened Tables
  import opened Application
  import opened Lifecycle
  import opened Runs
  import opened Store
  import Schedules
  import Transactions
  import UseCases

  /** One call through a unit of work. */
  method PerformOne(uow: UnitOfWork, op: Schedules.Operation)
    requires uow.Valid()
    modifies uow.working.Containers()
    ensures uow.Valid() && uow.working == old(uow.working) && uow.working.Containers() == old(uow.working.Containers())
    ensures uow.shared.Contents() == old(uow.shared.Contents())
    ensures uow.working.Contents() == Schedules.Apply(old(uow.working.Contents()), op)
  {
    hide WellKeyed, Schedules.Apply;
    Transactions.Call(Transactions.Offered(uow), op);
  }

  /** Any calls through a unit of work stay in its working store. */
  method PerformAll(uow: UnitOfWork, calls: seq<Schedules.Operation>)
    requires uow.Valid()
    modifies uow.working.Containers()
    ensures uow.Valid() && uow.working == old(uow.working) && uow.working.Containers() == old(uow.working.Containers())
    ensures uow.shared.Contents() == old(uow.shared.Contents())
    ensures uow.working.Contents() == Schedules.ApplyAll(old(uow.working.Contents()), calls)
  {
    hide UnitOfWork.Valid, Store.Contents, Schedules.Apply;
    assert calls[..0] == [];
    for k := 0 to |calls|
      modifies uow.working.Containers()
      invariant uow.Valid() && uow.shared.Contents() == old(uow.shared.Contents())
      invariant uow.working.Contents() == Schedules.ApplyAll(old(uow.working.Contents()), calls[..k])
    {
      assert calls[..k + 1][..k] == calls[..k];
      PerformOne(uow, calls[k]);
    }
    assert calls[..|calls|] == calls;
  }

  /** Serves one event in units of work of its own. */
  method Handle(shared: Store, lock: Lock, e: Event)
    requires !lock.held && Inv(shared.Contents()) && Admissible(shared.Contents(), e)
    modifies lock, shared
    ensures !lock.held && Inv(shared.Contents()) && shared.Contents() == Next(old(shared.Contents()), e)
  {
    hide Inv, WellKeyed, Application.RunOnce, Application.Execute, ReadReport;
    NextKeepsInv(shared.Contents(), e);
    InvIsKeyed(shared.Contents());
    match e {
      case Open(cmd, id, jobId, now, maxAttempts) =>
        var created := UseCases.Execute(shared, lock, cmd, id, jobId, now, maxAttempts);
      case Work(w, turn) =>
        var worked := UseCases.RunOnce(shared, lock, w, turn);
      case Abandon(calls) =>
        var uow := UseCases.Begin(shared, lock);
        PerformAll(uow, calls);
        UseCases.Finish(uow, false);
      case Read(tenant, id) =>
        var read := UseCases.FetchReport(shared, lock, tenant, id);
    }
  }

  /** Serves any admissible run: what is proved of runs is true of the store it leaves. */
  method Serve(events: seq<Event>) returns (shared: Store, lock: Lock)
    requires AdmissibleRun(EMPTY_DB, events)
    ensures !lock.held && Inv(shared.Contents()) && shared.Contents() == Run(EMPTY_DB, events)
  {
    hide Inv, Next, Admissible, Run, AdmissibleRun;
    shared := new Store(EMPTY_DB);
    lock := new Lock();
    RunOfNothing(EMPTY_DB, events);
    EmptyKeepsInv();
    for k := 0 to |events|
      invariant !lock.held && AdmissibleRun(EMPTY_DB, events[..k])
      invariant Inv(shared.Contents()) && shared.Contents() == Run(EMPTY_DB, events[..k])
    {
      RunPrefix(EMPTY_DB, events, k);
      Handle(shared, lock, events[k]);
    }
    assert events[..|events|] == events;
  }

  lemma RunOfNothing(db: Db, events: seq<Event>)
    ensures AdmissibleRun(db, events[..0]) && Run(db, events[..0]) == db
  {
  }
}
