/** Concurrent claims against row locks that are skipped when held. */
module ClaimProtocol {
  import opened Prelude
  import opened Text
  import opened Records
  import opened Tables
  import TableLaws

  // ----- the life of one row -----

  datatype RowEvent = ClaimEvent(worker: string, now: Instant, lease: int) | StatusEvent(status: JobStatus)

  function ApplyEvent(job: Job, e: RowEvent): Job {
    match e
    case ClaimEvent(worker, now, lease) => ClaimedRow(job, worker, lease, now)
    case StatusEvent(status) => job.(status := status)
  }

  function Replay(job: Job, events: seq<RowEvent>): Job {
    if events == [] then job else ApplyEvent(Replay(job, events[..|events| - 1]), events[|events| - 1])
  }

  /** Every claim in the history found the row claimable at its moment. */
  predicate Legal(job: Job, events: seq<RowEvent>) {
    events == [] ||
    var front, last := events[..|events| - 1], events[|events| - 1];
    Legal(job, front) && (last.ClaimEvent? ==> Claimable(Replay(job, front), last.now))
  }

  function Claims(events: seq<RowEvent>): nat {
    if events == [] then 0
    else Claims(events[..|events| - 1]) + if events[|events| - 1].ClaimEvent? then 1 else 0
  }

  /** Two claims with no status change between them are at least one lease apart. */
  ghost predicate Spaced(events: seq<RowEvent>) {
    forall i :: 0 <= i < |events| - 1 && events[i].ClaimEvent? && events[i + 1].ClaimEvent?
      ==> events[i].now + events[i].lease <= events[i + 1].now
  }

  lemma {:induction false} LegalHistoriesAreSpaced(job: Job, events: seq<RowEvent>)
    requires Legal(job, events)
    ensures Spaced(events)
  {
    if |events| > 1 {
      var n := |events|;
      var front := events[..n - 1];
      LegalHistoriesAreSpaced(job, front);
      assert front[..n - 2] == events[..n - 2] && front[n - 2] == events[n - 2];
      forall i | 0 <= i < n - 1 && events[i].ClaimEvent? && events[i + 1].ClaimEvent?
        ensures events[i].now + events[i].lease <= events[i + 1].now
      {
        if i + 1 < n - 1 {
          assert front[i] == events[i] && front[i + 1] == events[i + 1];
        } else {
          assert Replay(job, front) == ApplyEvent(Replay(job, front[..n - 2]), events[i]);
        }
      }
    }
  }

  lemma {:induction false} ReplayCountsClaims(job: Job, events: seq<RowEvent>)
    ensures Replay(job, events).attemptCount == job.attemptCount + Claims(events)
    ensures Replay(job, events).id == job.id
  {
    if events != [] {
      ReplayCountsClaims(job, events[..|events| - 1]);
    }
  }

  // ----- transactions -----

  /** What an open transaction has written, and locked, and how it got there. */
  datatype Transaction = Transaction(writes: map<Uuid, Job>, events: map<Uuid, seq<RowEvent>>)

  datatype State = State(
    inserted: map<Uuid, Job>,
    rows: map<Uuid, Job>,
    history: map<Uuid, seq<RowEvent>>,
    open: map<nat, Transaction>)

  const INITIAL := State(map[], map[], map[], map[])

  predicate LockedByOther(s: State, t: nat, id: Uuid) {
    exists u :: u in s.open && u != t && id in s.open[u].writes
  }

  /** A transaction sees its own write, else the committed row. */
  function Visible(s: State, t: nat, id: Uuid): Job
    requires t in s.open && id in s.rows
  {
    if id in s.open[t].writes then s.open[t].writes[id] else s.rows[id]
  }

  function Pending(s: State, t: nat, id: Uuid): seq<RowEvent>
    requires t in s.open
  {
    if id in s.open[t].events then s.open[t].events[id] else []
  }

  /** The rows the claim query can lock, as the transaction sees them. */
  function Candidates(s: State, t: nat): map<Uuid, Job>
    requires t in s.open
  {
    map id | id in s.rows && !LockedByOther(s, t, id) :: Visible(s, t, id)
  }

  function Write(s: State, t: nat, id: Uuid, e: RowEvent): State
    requires t in s.open && id in s.rows
  {
    var row := ApplyEvent(Visible(s, t, id), e);
    var tx := Transaction(s.open[t].writes[id := row], s.open[t].events[id := Pending(s, t, id) + [e]]);
    s.(open := s.open[t := tx])
  }

  datatype Step =
    | Insert(job: Job)
    | Begin(t: nat)
    | Claim(t: nat, worker: string, lease: int, now: Instant)
    | SetStatus(t: nat, tenant: string, id: Uuid, status: JobStatus)
    | Commit(t: nat)
    | Rollback(t: nat)

  function Committed(s: State, t: nat): State
    requires t in s.open
  {
    State(s.inserted, s.rows + s.open[t].writes,
          map id | id in s.history :: s.history[id] + Pending(s, t, id),
          s.open - {t})
  }

  function Inserted(s: State, job: Job): State {
    State(s.inserted[job.id := job], s.rows[job.id := job], s.history[job.id := []], s.open)
  }

  /** One step of some session; a step that would wait for a lock does not happen. */
  ghost function Next(s: State, step: Step): State {
    match step
    case Insert(job) => if job.id in s.rows || job.attemptCount != 0 then s else Inserted(s, job)
    case Begin(t) => if t in s.open then s else s.(open := s.open[t := Transaction(map[], map[])])
    case Claim(t, worker, lease, now) =>
      if t !in s.open || !NonBlank(worker) then s
      else
        (match ClaimChoice(Candidates(s, t), now)
         case None => s
         case Some(id) => Write(s, t, id, ClaimEvent(worker, now, lease)))
    case SetStatus(t, tenant, id, status) =>
      if t !in s.open || id !in s.rows || LockedByOther(s, t, id) || Visible(s, t, id).tenant != tenant then s
      else Write(s, t, id, StatusEvent(status))
    case Commit(t) => if t in s.open then Committed(s, t) else s
    case Rollback(t) => s.(open := s.open - {t})
  }

  // ----- the invariant -----

  /** No row is held by two open transactions. */
  ghost predicate Exclusive(s: State) {
    forall t, u, id :: t in s.open && u in s.open && id in s.open[t].writes && id in s.open[u].writes ==> t == u
  }

  /** A committed row is its inserted version after its committed, legal history. */
  ghost predicate RowTold(s: State, id: Uuid) {
    && id in s.inserted && id in s.history && id in s.rows
    && s.inserted[id].id == id && s.inserted[id].attemptCount == 0
    && s.rows[id] == Replay(s.inserted[id], s.history[id])
    && Legal(s.inserted[id], s.history[id])
  }

  /** An uncommitted row continues the committed history legally. */
  ghost predicate WriteTold(s: State, t: nat, id: Uuid)
    requires t in s.open
  {
    && id in s.open[t].writes && id in s.open[t].events && id in s.history && id in s.inserted
    && s.open[t].writes[id] == Replay(s.inserted[id], s.history[id] + s.open[t].events[id])
    && Legal(s.inserted[id], s.history[id] + s.open[t].events[id])
  }

  ghost predicate Told(s: State) {
    && s.rows.Keys == s.inserted.Keys == s.history.Keys
    && (forall id :: id in s.rows ==> RowTold(s, id))
    && (forall t :: t in s.open ==>
          s.open[t].writes.Keys == s.open[t].events.Keys && s.open[t].writes.Keys <= s.rows.Keys)
    && (forall t, id :: t in s.open && id in s.open[t].writes ==> WriteTold(s, t, id))
  }

  ghost predicate Inv(s: State) {
    Exclusive(s) && Told(s)
  }

  lemma VisibleIsTold(s: State, t: nat, id: Uuid)
    requires Told(s) && t in s.open && id in s.rows
    ensures id in s.inserted && id in s.history
    ensures Visible(s, t, id) == Replay(s.inserted[id], s.history[id] + Pending(s, t, id))
    ensures Legal(s.inserted[id], s.history[id] + Pending(s, t, id))
  {
    hide Replay, Legal;
    assert RowTold(s, id);
    if id in s.open[t].writes {
      assert WriteTold(s, t, id);
    } else {
      assert s.history[id] + [] == s.history[id];
    }
  }

  lemma WriteKeepsExclusion(s: State, t: nat, id: Uuid, e: RowEvent)
    requires Exclusive(s) && t in s.open && id in s.rows && !LockedByOther(s, t, id)
    ensures Exclusive(Write(s, t, id, e))
  {
    hide ApplyEvent;
  }

  lemma HistoryExtends(job: Job, events: seq<RowEvent>, e: RowEvent)
    requires Legal(job, events) && (e.ClaimEvent? ==> Claimable(Replay(job, events), e.now))
    ensures Legal(job, events + [e]) && Replay(job, events + [e]) == ApplyEvent(Replay(job, events), e)
  {
    assert (events + [e])[..|events + [e]| - 1] == events;
  }

  lemma WriteKeepsTold(s: State, t: nat, id: Uuid, e: RowEvent)
    requires Told(s) && t in s.open && id in s.rows
    requires e.ClaimEvent? ==> Claimable(Visible(s, t, id), e.now)
    ensures Told(Write(s, t, id, e))
  {
    hide Replay, Legal, ApplyEvent, Claimable;
    var next := Write(s, t, id, e);
    VisibleIsTold(s, t, id);
    var before := s.history[id] + Pending(s, t, id);
    HistoryExtends(s.inserted[id], before, e);
    assert s.history[id] + (Pending(s, t, id) + [e]) == before + [e];
    forall u, k | u in next.open && k in next.open[u].writes
      ensures WriteTold(next, u, k)
    {
      if u != t || k != id {
        assert u in s.open && k in s.open[u].writes && WriteTold(s, u, k);
      }
    }
    forall k | k in next.rows
      ensures RowTold(next, k)
    {
      assert RowTold(s, k);
    }
  }

  lemma CommitKeepsTold(s: State, t: nat)
    requires Inv(s) && t in s.open
    ensures Told(Committed(s, t))
  {
    hide Replay, Legal;
    var next := Committed(s, t);
    forall id | id in next.rows
      ensures RowTold(next, id)
    {
      assert RowTold(s, id);
      VisibleIsTold(s, t, id);
    }
    forall u, id | u in next.open && id in next.open[u].writes
      ensures WriteTold(next, u, id)
    {
      assert WriteTold(s, u, id);
      assert id !in s.open[t].writes;
      assert s.history[id] + [] == s.history[id];
    }
  }

  lemma InsertKeepsTold(s: State, job: Job)
    requires Told(s) && job.id !in s.rows && job.attemptCount == 0
    ensures Told(Inserted(s, job))
  {
    hide RowTold, WriteTold;
    var next := Inserted(s, job);
    forall id | id in next.rows
      ensures RowTold(next, id)
    {
      if id in s.rows {
        RowCarries(s, next, id);
      } else {
        NewRowIsTold(s, job);
      }
    }
    forall u, id | u in next.open && id in next.open[u].writes
      ensures WriteTold(next, u, id)
    {
      WriteCarries(s, next, u, id);
    }
  }

  /** A row that does not change stays told. */
  lemma RowCarries(s: State, next: State, id: Uuid)
    requires RowTold(s, id) && id in next.rows && id in next.inserted && id in next.history
    requires next.rows[id] == s.rows[id] && next.inserted[id] == s.inserted[id] && next.history[id] == s.history[id]
    ensures RowTold(next, id)
  {
    hide Replay, Legal;
  }

  lemma WriteCarries(s: State, next: State, u: nat, id: Uuid)
    requires u in s.open && u in next.open && next.open[u] == s.open[u] && WriteTold(s, u, id)
    requires id in next.inserted && id in next.history
    requires next.inserted[id] == s.inserted[id] && next.history[id] == s.history[id]
    ensures WriteTold(next, u, id)
  {
    hide Replay, Legal;
  }

  lemma NewRowIsTold(s: State, job: Job)
    requires job.attemptCount == 0
    ensures RowTold(Inserted(s, job), job.id)
  {
  }

  lemma ClosingKeepsTold(s: State, next: State)
    requires Told(s) && next == s.(open := next.open)
    requires forall t :: t in next.open ==>
      (t in s.open && next.open[t] == s.open[t]) || next.open[t] == Transaction(map[], map[])
    ensures Told(next)
  {
    hide Replay, Legal;
    forall id | id in next.rows
      ensures RowTold(next, id)
    {
      assert RowTold(s, id);
    }
    forall u, id | u in next.open && id in next.open[u].writes
      ensures WriteTold(next, u, id)
    {
      assert WriteTold(s, u, id);
    }
  }

  /** Every step of every session keeps exclusion and the told histories. */
  lemma NextKeepsInv(s: State, step: Step)
    requires Inv(s)
    ensures Inv(Next(s, step))
  {
    hide RowTold, WriteTold, Write, Claimable;
    match step
    case Insert(job) =>
      if job.id !in s.rows && job.attemptCount == 0 {
        InsertKeepsTold(s, job);
      }
    case Begin(t) => ClosingKeepsTold(s, Next(s, step));
    case Claim(t, worker, lease, now) =>
      if t in s.open && NonBlank(worker) && ClaimChoice(Candidates(s, t), now).Some? {
        var id := ClaimChoice(Candidates(s, t), now).value;
        assert IsFirst(Candidates(s, t), now, id);
        WriteKeepsExclusion(s, t, id, ClaimEvent(worker, now, lease));
        WriteKeepsTold(s, t, id, ClaimEvent(worker, now, lease));
      }
    case SetStatus(t, tenant, id, status) =>
      if Next(s, step) != s {
        WriteKeepsExclusion(s, t, id, StatusEvent(status));
        WriteKeepsTold(s, t, id, StatusEvent(status));
      }
    case Commit(t) =>
      if t in s.open {
        CommitKeepsTold(s, t);
      }
    case Rollback(t) => ClosingKeepsTold(s, Next(s, step));
  }

  ghost function Run(s: State, steps: seq<Step>): State
    decreases |steps|
  {
    if steps == [] then s else Run(Next(s, steps[0]), steps[1..])
  }

  lemma {:induction false} RunKeepsInv(s: State, steps: seq<Step>)
    requires Inv(s)
    ensures Inv(Run(s, steps))
    decreases |steps|
  {
    hide Inv, Next;
    if steps != [] {
      NextKeepsInv(s, steps[0]);
      RunKeepsInv(Next(s, steps[0]), steps[1..]);
    }
  }

  /**
   * Over every interleaving of any number of sessions: no job is held by two open
   * transactions; the attempt count of a job is the number of its committed claims; and two
   * committed claims with no status change between them are at least one lease apart.
   */
  lemma ClaimsAreExclusive(steps: seq<Step>)
    ensures var s := Run(INITIAL, steps);
            && (forall t, u, id :: t in s.open && u in s.open && id in s.open[t].writes && id in s.open[u].writes
                  ==> t == u)
            && s.history.Keys == s.rows.Keys
            && (forall id :: id in s.rows ==>
                  s.rows[id].attemptCount == Claims(s.history[id]) && Spaced(s.history[id]))
  {
    hide Next, Spaced, Claims;
    RunKeepsInv(INITIAL, steps);
    var s := Run(INITIAL, steps);
    forall id | id in s.rows
      ensures s.rows[id].attemptCount == Claims(s.history[id]) && Spaced(s.history[id])
    {
      assert RowTold(s, id);
      ReplayCountsClaims(s.inserted[id], s.history[id]);
      LegalHistoriesAreSpaced(s.inserted[id], s.history[id]);
    }
  }

  /** With no competing transaction, the row-lock claim is the in-memory claim. */
  lemma LoneClaimMatchesMemory(s: State, t: nat, db: Db, worker: string, lease: int, now: Instant)
    requires s.open == map[t := Transaction(map[], map[])] && s.rows == db.jobs && NonBlank(worker)
    requires forall j :: j in db.jobs ==> db.jobs[j].id == j
    ensures Tables.Claim(db, worker, lease, now).Success?
    ensures var memory := Tables.Claim(db, worker, lease, now).value;
            var locked := Next(s, Claim(t, worker, lease, now));
            t in locked.open && locked.rows + locked.open[t].writes == memory.0.jobs
  {
    assert Candidates(s, t) == db.jobs;
    var choice := ClaimChoice(db.jobs, now);
    if choice.Some? {
      var j := choice.value;
      assert s.rows + map[j := ClaimedRow(db.jobs[j], worker, lease, now)]
             == db.jobs[j := ClaimedRow(db.jobs[j], worker, lease, now)];
      assert s.open[t].writes[j := ClaimedRow(db.jobs[j], worker, lease, now)]
             == map[j := ClaimedRow(db.jobs[j], worker, lease, now)];
    } else {
      assert s.rows + s.open[t].writes == s.rows;
    }
  }

  // ----- the session calls -----

  /** The table as sessions use it: every call is one step of the protocol. */
  class JobTable {
    var state: State

    constructor ()
      ensures state == INITIAL
    {
      state := INITIAL;
    }

    /** Locks and updates the first claimable row that no other transaction holds. */
    method ClaimRow(t: nat, worker: string, lease: int, now: Instant)
      returns (r: Result<Option<ClaimedJob>, PersistenceError>)
      requires Inv(state) && t in state.open
      modifies this
      ensures Inv(state) && state == Next(old(state), Claim(t, worker, lease, now))
      ensures r == Failure(InvalidRecord) <==> !NonBlank(worker)
      ensures r.Failure? || r.value.None? ==> state == old(state)
      ensures r == Success(None) ==>
        forall id :: id in Candidates(old(state), t) ==> !Claimable(Candidates(old(state), t)[id], now)
      ensures r.Success? && r.value.Some? ==>
        var c := r.value.value;
        && c.job in old(state).rows && !LockedByOther(old(state), t, c.job)
        && c.job in state.open[t].writes && state.open[t].writes[c.job].status.Claimed?
        && c.attemptCount == state.open[t].writes[c.job].attemptCount && c.leaseExpiresAt == now + lease
    {
      hide Inv, ApplyEvent, Claimable, Legal, Replay;
      NextKeepsInv(state, Claim(t, worker, lease, now));
      if !NonBlank(worker) {
        return Failure(InvalidRecord);
      }
      CandidatesAreKeyed(state, t);
      var first := SelectFirst(Candidates(state, t), now);
      if first.None? {
        return Success(None);
      }
      var id := first.value;
      var job := Visible(state, t, id);
      ClaimApplies(job, worker, lease, now);
      state := Write(state, t, id, ClaimEvent(worker, now, lease));
      return Success(Some(ClaimTicket(job, worker, lease, now)));
    }

    method CommitTransaction(t: nat)
      requires Inv(state) && t in state.open
      modifies this
      ensures Inv(state) && state == Next(old(state), Commit(t))
      ensures forall id :: id in old(state).open[t].writes ==> state.rows[id] == old(state).open[t].writes[id]
      ensures state.rows.Keys == old(state).rows.Keys
      ensures forall id :: id in old(state).rows && id !in old(state).open[t].writes ==>
        state.rows[id] == old(state).rows[id]
      ensures t !in state.open && state.open == old(state).open - {t}
    {
      NextKeepsInv(state, Commit(t));
      state := Committed(state, t);
    }

    method RollbackTransaction(t: nat)
      requires Inv(state) && t in state.open
      modifies this
      ensures Inv(state) && state == Next(old(state), Step.Rollback(t)) && state.rows == old(state).rows
      ensures t !in state.open && state.open == old(state).open - {t}
    {
      NextKeepsInv(state, Step.Rollback(t));
      state := state.(open := state.open - {t});
    }
  }

  lemma ClaimApplies(job: Job, worker: string, lease: int, now: Instant)
    ensures ApplyEvent(job, ClaimEvent(worker, now, lease)) == ClaimedRow(job, worker, lease, now)
  {
  }

  lemma CandidatesAreKeyed(s: State, t: nat)
    requires Inv(s) && t in s.open
    ensures forall k :: k in Candidates(s, t) ==> Candidates(s, t)[k].id == k
  {
    hide Legal;
    forall k | k in Candidates(s, t)
      ensures Candidates(s, t)[k].id == k
    {
      VisibleIsTold(s, t, k);
      assert RowTold(s, k);
      ReplayCountsClaims(s.inserted[k], s.history[k] + Pending(s, t, k));
    }
  }

  // ----- what single steps mean -----

  /** A claim takes the due row of least availability, then identifier, among those no other session holds. */
  lemma ClaimStepSays(s: State, t: nat, worker: string, lease: int, now: Instant)
    requires Inv(s) && t in s.open && NonBlank(worker)
    ensures var next := Next(s, Claim(t, worker, lease, now));
            || (next == s
                && forall k :: k in s.rows && !LockedByOther(s, t, k) ==> !TableLaws.Due(Visible(s, t, k), now))
            || exists j :: j in s.rows && !LockedByOther(s, t, j) && TableLaws.Due(Visible(s, t, j), now)
                 && next.rows == s.rows && next.open.Keys == s.open.Keys
                 && (forall u :: u in s.open && u != t ==> next.open[u] == s.open[u])
                 && next.open[t].writes == s.open[t].writes[j := ClaimedRow(Visible(s, t, j), worker, lease, now)]
                 && forall k :: k in s.rows && !LockedByOther(s, t, k) && TableLaws.Due(Visible(s, t, k), now) ==>
                      var a, b := Visible(s, t, j).availableAt, Visible(s, t, k).availableAt;
                      a < b || (a == b && j <= k)
  {
    hide Inv, Visible, LockedByOther;
    CandidatesAreKeyed(s, t);
    var candidates := Candidates(s, t);
    assert forall k :: k in candidates ==> (TableLaws.Due(candidates[k], now) <==> Claimable(candidates[k], now));
    assert forall k :: k in s.rows && !LockedByOther(s, t, k) ==> k in candidates && candidates[k] == Visible(s, t, k);
    var choice := ClaimChoice(candidates, now);
    if choice.Some? {
      var j := choice.value;
      assert IsFirst(candidates, now, j);
      ClaimApplies(Visible(s, t, j), worker, lease, now);
    }
  }

  /** A status change writes the row the session sees, with the new status, unless another session or tenant has it. */
  lemma StatusStepSays(s: State, t: nat, tenant: string, id: Uuid, status: JobStatus)
    requires t in s.open && id in s.rows
    ensures var next := Next(s, SetStatus(t, tenant, id, status));
            if LockedByOther(s, t, id) || Visible(s, t, id).tenant != tenant then next == s
            else && next.rows == s.rows && next.open.Keys == s.open.Keys
                 && (forall u :: u in s.open && u != t ==> next.open[u] == s.open[u])
                 && next.open[t].writes == s.open[t].writes[id := Visible(s, t, id).(status := status)]
  {
    hide LockedByOther, Visible;
  }

  /** A session that begins holds nothing; one that commits or rolls back holds nothing any more. */
  lemma SessionsOpenAndClose(s: State, t: nat)
    ensures t !in s.open ==> Next(s, Begin(t)) == s.(open := s.open[t := Transaction(map[], map[])])
    ensures t in s.open ==> Next(s, Begin(t)) == s
    ensures t !in Next(s, Commit(t)).open && t !in Next(s, Step.Rollback(t)).open
    ensures Next(s, Step.Rollback(t)).rows == s.rows
    ensures t in s.open ==> Next(s, Commit(t)).rows == s.rows + s.open[t].writes
  {
  }
}
