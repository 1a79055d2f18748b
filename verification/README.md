# Incident evidence compiler: a verified model

The service turns telemetry into a ranked baseline, binds the baseline into a content-addressed
ledger, verifies untrusted hypotheses against that ledger in three-valued logic, and persists the
outcome through a transactional job queue. This project models those parts in Dafny and proves
what the design promises about them.

The modules follow the program:

- `Statistics`, `Sorting`, `Baseline`, `Ledger`, `Hypotheses`, `Verifier`, `EndToEnd`, `Symmetry`,
  `Abstention` and `Serialization` cover rank, compile, validate, verify and serialize;
  `OrderStatistics` and `RawPoints` say what their numbers mean on the telemetry points themselves.
- `Changes`, `Timestamps`, `ChangeVerifier` and `ChangeSerialization` cover the change-event ledger.
- `Records` and `Tables` describe the repositories as functions of the database, and `TableLaws`
  what these functions mean; `Store` puts the containers, repositories and unit of work on the heap;
  `Schedules` says what arbitrary interleavings of units of work do, and `Transactions` does it on
  the heap.
- `Application` specifies the use cases and the worker's turn; `UseCases` implements them on the heap
  against that specification; `Service` serves whole runs, and `Concurrency` serves them interleaved.
- `Lifecycle` proves the invariant of one step, `Runs`, `Queue` and `Retries` what holds over whole runs.
- `Conclusions`, `Reports` and `Provenance` join the two halves: what a stored report says is what raw
  points say.
- `ClaimProtocol` is the row-lock claim of concurrent transactions; `CsvLoader`, `RecordWidths`,
  `CsvCases` and `Harness` are the evaluation input and the translation of verified claims into
  services.

Numbers are exact reals, instants are whole microseconds, identifiers are an injective constructor
over the content that is hashed, and payloads are datatypes. Telemetry, the model, the clock, new
identifiers and the reading of CSV text are parameters; every theorem is for all of their values.

What the model shows about the code, beyond what its documentation says:

- repositories kept across a commit write straight through to the shared store, exactly until the
  next commit (`Schedules.WriteShowsIffAdopted`, `Store.StaleRepositoryWritesThrough`);
- an attempt whose identifier is reused silently replaces the earlier attempt, and that breaks the
  attempt numbering every time (`Tables.RecordingKeepsRowsIffFresh`, `Lifecycle.TurnKeepsInvIffFresh`);
- the retry cap is the worker's; the cap stored with each job is never read, and is kept only where
  no worker grants more than the least any opening asks for (`Retries.OwnCapsHoldIff`,
  `Retries.CapsAreNeverRead`);
- change ledgers of more than 512 entries validate although compilation never produces one
  (`Changes.OversizedLedgerValidates`);
- a CSV header that is blank but not empty is reported as an invalid timestamp
  (`CsvLoader.BlankHeaderIsAnInvalidTimestamp`);
- a model output whose JSON decoding raises something other than a syntax error, as on an integer
  literal with too many digits, escapes the harness (`Harness.PredictionEscapesIff`) and ends as an
  internal error in the worker (`Conclusions.AnalysisOutcome`).

## Model

| member | source | states |
|---|---|---|
| Provenance.EveryReportSaysWhatPointsSay | src/incident_evidence_compiler/application/worker.py:182-293 | In every state any run reaches, every report was asked for by an opening of the run and stored by a turn of it that claimed that investigation's job. In the context and window that were asked for it says in full what that turn's raw points say: identity and composition of the document; verdict, reason, direction and threshold of every predicate; for every decided one the stored row of its own signal on the side of its verdict; citations concatenated in order; the composed verdict; one stored row per signal; and the ranking. |
| Provenance.StoredCitationsSayPoints | src/incident_evidence_compiler/application/worker.py:236-280 | An identifier is cited in support of a stored report if and only if it is that of the stored row of a signal with a predicate the raw points support, and against it if and only if with one they refute. |
| Provenance.InvestigationsWereAsked | src/incident_evidence_compiler/application/use_cases.py:50-97 | Every investigation of a run was added by one of its openings, and has exactly the context, window and idempotency key of that command for ever after. |
| Provenance.TurnPublishesIffConcludes | src/incident_evidence_compiler/application/worker.py:136-293 | Right after a turn that claimed it, an investigation's report is readable if and only if telemetry was readable and the proposal parses over the observed signals. |
| Provenance.FaithfulProposalConcludes | src/incident_evidence_compiler/llm/parsing.py:36-93 | Every valid document about observed signals whose text fits the size limit, written down faithfully by the model, leads to a report. |
| Provenance.ReportsAreEarned | src/incident_evidence_compiler/application/worker.py:136-180 | A report that a run added was stored at one step of it: a turn that claimed that investigation's job and whose analysis of it is the report as it stands at the end. |
| Provenance.StoredOnce | src/incident_evidence_compiler/application/worker.py:253-280 | No two steps of a run store the report of one investigation. |
| Conclusions.AnalysisOutcome | src/incident_evidence_compiler/application/worker.py:182-251 | An analysis ends in a report if and only if telemetry loaded with distinct signals and the proposal parses over the observed signals; is retryable if and only if readable telemetry met a timed-out or unavailable model; and ends as an internal error if and only if telemetry, model or JSON decoder raised something unforeseen. So compile, validate, verify and serialize never reject in the worker. |
| Conclusions.ReportDecidesRawPoints | src/incident_evidence_compiler/application/worker.py:216-280 | The report of a concluding turn carries, per predicate and composed, the verdict a direct reading of the raw points gives. |
| Reports.ReportSaysPoints | src/incident_evidence_compiler/application/worker.py:236-280 | What a concluding turn writes, in full, about the points it was given: the whole payload, one row per signal with its evaluation under its own identifier and owner, and the serialized ranking. |
| Reports.ReportCitesPoints | src/incident_evidence_compiler/application/worker.py:236-280 | The citations of such a report on both sides, read off the raw points. |
| Conclusions.AnalysisCodes | src/incident_evidence_compiler/application/worker.py:182-251 | The stable code of every failure: unavailable telemetry, duplicate signals, each provider failure, and each rejection of a proposal. |
| Conclusions.AllowedAreObserved | src/incident_evidence_compiler/application/worker.py:195-213 | The allow-list given to the model is exactly the set of observed signals. |
| Runs.EveryReachableState | src/incident_evidence_compiler/application/worker.py:136-180 | After every run of openings, turns, abandoned transactions and reads from the empty store: one same-tenant job per investigation; PENDING means QUEUED with no attempt, RUNNING means QUEUED with some, SUCCEEDED and FAILED match the job; no committed job is CLAIMED; attempts are numbered exactly 1 to the count; a report exists exactly for SUCCEEDED; cited evidence is stored. |
| Runs.NothingEscapes | src/incident_evidence_compiler/application/worker.py:136-180 | In no reachable state does a turn raise: the report conflict, the attempt conflict, the missing-record branches and the post-write catch-all cannot be reached. |
| Runs.HistoryIsImmutable | src/incident_evidence_compiler/persistence/memory.py:211-243 | No later step of any run changes a stored report or evidence row, rewrites the audit trail, reopens a finished investigation, or changes whose it is. |
| Runs.CitationsStayGrounded | src/incident_evidence_compiler/application/worker.py:243-280 | Each identifier a report cites is stored under the report's tenant and run with the payload that identifier addresses, even when another investigation stored it first, and this stays so along every further run. |
| Runs.ReplayReturnsTheSame | src/incident_evidence_compiler/application/use_cases.py:50-97 | After a keyed opening succeeded, every replay of that tenant and key, after any run, returns the same id and changes nothing. |
| Runs.OpenEffect | src/incident_evidence_compiler/application/use_cases.py:50-97 | Opening fails if and only if the key is blank, or there is nothing to replay and the cap or the job id is unusable, and then leaves no trace; otherwise it replays, or adds one pending investigation with the context, window and key asked for, one queued job of that tenant due at once with no lease and no attempt, and one audit row. |
| Runs.ReportsAreReadable | src/incident_evidence_compiler/application/use_cases.py:100-131 | In every reachable state a tenant reads a report exactly for its own succeeded investigations, the status query agrees, and not-ready and not-found partition the rest. |
| Runs.StatusIsTheRecord | src/incident_evidence_compiler/application/use_cases.py:100-131 | What a tenant reads is the stored investigation and the stored report themselves; and the status read tells the job: PENDING if and only if queued without an attempt, RUNNING if and only if queued with some, SUCCEEDED and FAILED if and only if it ended so. |
| Lifecycle.TurnEffect | src/incident_evidence_compiler/application/worker.py:136-180 | Under the invariant a turn is a closed form: nothing, or success, failure or retry of the first queued job. The claim only ever finds queued jobs, and every defensive branch is dead. |
| Lifecycle.TurnKeepsInv | src/incident_evidence_compiler/application/worker.py:136-180 | Every turn with a fresh attempt id keeps the lifecycle invariant. |
| Lifecycle.TurnKeepsInvIffFresh | src/incident_evidence_compiler/application/worker.py:325-346 | A turn that claims keeps the invariant if and only if its attempt id is fresh: a reused id always loses an attempt number. |
| Retries.ReusedIdentifierLosesAttempt | src/incident_evidence_compiler/application/worker.py:325-346 | A concrete reachable state from which a second timed-out turn under the same attempt id breaks the numbering. |
| Lifecycle.OutcomeKeepsInv | src/incident_evidence_compiler/application/worker.py:253-323 | Success, terminal failure and retry each keep statuses agreeing, attempts numbered, reports matched and citations grounded. |
| Lifecycle.ConclusionIsGrounded | src/incident_evidence_compiler/application/worker.py:243-280 | What a concluded analysis writes is addressed by its own identifiers, belongs to the investigation's tenant and run, and contains everything the report cites. |
| Queue.AttemptsAreBounded | src/incident_evidence_compiler/application/worker.py:295-303 | In every reachable state no job exceeds max(1, the largest worker cap), and a queued job is strictly below it. |
| Queue.ClaimingTurnDrains | src/incident_evidence_compiler/application/worker.py:295-346 | Each turn that claims strictly lowers the attempts remaining to queued jobs. |
| Queue.WorkIsConserved | src/incident_evidence_compiler/application/worker.py:295-346 | Along every run, claiming turns plus remaining attempts never exceed the attempts remaining at the start plus the bound times the openings. |
| Queue.ClaimsAreBoundedByOpenings | src/incident_evidence_compiler/application/worker.py:136-180 | From the empty store at most `bound` turns per opening ever claim a job, whatever the schedule. |
| Queue.EveryScheduleDrains | src/incident_evidence_compiler/application/worker.py:295-346 | Any schedule without openings, with as many due turns as attempts remained, leaves no job queued, whatever telemetry and model did. |
| Retries.TurnOverrunsIff | src/incident_evidence_compiler/application/worker.py:295-303 | A turn leaves its job queued at or past the job's own cap if and only if readable telemetry met an unreachable model, the worker's cap had room and the job's own had none. |
| Retries.OwnCapOfOneIsOverrun | src/incident_evidence_compiler/application/worker.py:295-303 | A concrete run: opened with cap 1, one timed-out turn of a worker with cap 3 leaves the job queued with its one attempt used. |
| Retries.OwnCapsHoldIff | src/incident_evidence_compiler/application/worker.py:295-303 | Every job keeps to its own cap in all runs of workers granting at most W attempts and openings asking for at least M if and only if W is at most max(1, M). |
| Retries.TurnIgnoresCaps | src/incident_evidence_compiler/application/worker.py:136-180 | Changing the caps stored with any jobs changes a turn in those fields only. |
| Retries.CapsAreNeverRead | src/incident_evidence_compiler/application/worker.py:136-180 | Two runs whose openings differ only in acceptable caps end in databases that differ only in the stored caps. |
| Queue.OrderHoldsThroughout | src/incident_evidence_compiler/persistence/memory.py:134-149 | With strictly increasing openings and a clock that never goes back, after every run the finished jobs are a prefix of the (available_at, id) order and only the first unfinished job was ever started: a retry keeps its place. |
| Queue.OneStarted | src/incident_evidence_compiler/persistence/memory.py:134-149 | At most one unfinished job has a positive attempt count. |
| Queue.ClaimTakesHead | src/incident_evidence_compiler/persistence/memory.py:134-149 | A claim takes the first unfinished job, and any started job is that one. |
| UseCases.RunOnce | src/incident_evidence_compiler/application/worker.py:136-180 | The worker on the heap: the shared store and the result after one turn are those of the specified turn, the lock is released, and an escaping exception leaves the store as it was. |
| UseCases.Process | src/incident_evidence_compiler/application/worker.py:150-180 | From RUNNING to the recorded attempt, the working store follows the specification for completion, terminal failure, retry and untyped failure. |
| UseCases.RunPipeline | src/incident_evidence_compiler/application/worker.py:182-293 | Evidence, report, status and audit are written in that order, and writes made before a raise stay in the working store. |
| UseCases.RetryOrFail | src/incident_evidence_compiler/application/worker.py:295-303 | Requeues below the worker's own cap and fails at it; the job record's cap is not read. |
| UseCases.TerminalFail | src/incident_evidence_compiler/application/worker.py:305-323 | Investigation and job become FAILED, the attempt is recorded with its code, and an audit row is added. |
| UseCases.RecordAttemptFor | src/incident_evidence_compiler/application/worker.py:325-346 | Records the attempt under the claimed attempt number, or conflicts. |
| UseCases.Execute | src/incident_evidence_compiler/application/use_cases.py:50-97 | Opening on the heap refines the specified opening; a failure abandons the transaction. |
| UseCases.FetchReport | src/incident_evidence_compiler/application/use_cases.py:116-131 | Reading changes nothing in the shared store. |
| UseCases.FetchStatus | src/incident_evidence_compiler/application/use_cases.py:100-113 | Reads a tenant's own investigation or reports it missing, and changes nothing in the shared store. |
| Service.Serve | src/incident_evidence_compiler/application/worker.py:136-180 | Serving any admissible run of events one at a time on the heap, abandoned transactions with whatever calls they made included, leaves the shared store holding exactly the specified run. |
| Concurrency.ServeConcurrently | src/incident_evidence_compiler/persistence/memory.py:269-327 | However the transactions of openers and workers interleave on the heap, if they keep to the lock then the shared store ends up as the run of the committed events in lock order, and satisfies the invariant of every reachable state. |
| Concurrency.SchedulesAreRuns | src/incident_evidence_compiler/persistence/memory.py:269-316 | A schedule that keeps to the lock and each of whose commits publishes the body of some event leaves the run of those events, whatever else is interleaved, rolled back or left. |
| Concurrency.RunsAreSchedules | src/incident_evidence_compiler/persistence/memory.py:269-327 | Conversely every run of the service is what some such schedule of its transactions serves. |
| Concurrency.TurnIsBody | src/incident_evidence_compiler/application/worker.py:136-346 | From every state that keeps the invariant, the repository calls of a turn, one after another, do exactly what the turn does. |
| Concurrency.OpeningIsBody | src/incident_evidence_compiler/application/use_cases.py:50-97 | The repository calls of an opening that succeeds do exactly what the opening does. |
| Transactions.RunSchedule | src/incident_evidence_compiler/persistence/memory.py:269-327 | For any interleaving of construct, enter, commit, rollback, exit and calls through current or kept repositories, in or out of scope, the heap ends up as the schedule says: every exposure ever offered has containers apart from every other one and, unless the latest commit published it, from the shared store. Schedules that keep to the lock leave the committed calls applied serially in lock order. |
| Schedules.ScopedSchedulesAreSerial | src/incident_evidence_compiler/persistence/memory.py:269-316 | If only the unit inside its scope commits or leaves, and no published or current repositories are used behind its back, the shared contents are the committed calls one after another in lock order, whatever other units do. |
| Schedules.WriteShowsIffAdopted | src/incident_evidence_compiler/persistence/memory.py:59-75 | A write of any operation through any repositories, current or kept, shows in the shared store if and only if the latest commit published them: then in full, otherwise not at all. |
| Schedules.AdoptedByLatestCommit | src/incident_evidence_compiler/persistence/memory.py:291-294 | By history: the published repositories are those the committing unit offered just before the latest commit. |
| Schedules.CurrentWritesStayHidden | src/incident_evidence_compiler/persistence/memory.py:269-316 | What any unit currently exposes is never published, so its uncommitted writes reach neither the shared store nor another unit. |
| Schedules.CommitIsSerialIff | src/incident_evidence_compiler/persistence/memory.py:291-294 | From every state that was serial so far, a commit is serial if and only if its unit is inside its scope or offers just what the shared store already holds. |
| Schedules.ForeignCommitLosesUpdate | src/incident_evidence_compiler/persistence/memory.py:291-294 | The witness: after six steps a commit from outside the scope has wiped out the operation committed under the lock. |
| Transactions.Call | src/incident_evidence_compiler/persistence/memory.py:82-257 | Every repository call changes only the containers of the store behind it, as the table specification says. |
| Transactions.CallShows | src/incident_evidence_compiler/persistence/memory.py:59-75 | On the heap: a call through any repositories ever exposed changes the shared contents as the operation says if the latest commit published them, and leaves them as they were otherwise. |
| Transactions.TakeCommit | src/incident_evidence_compiler/persistence/memory.py:291-294 | Commit by any unit, in scope or not, publishes what it offered, makes the shared store its alias, and renews the unit on containers apart from all others. |
| Transactions.TakeRestart | src/incident_evidence_compiler/persistence/memory.py:296-308 | Entering under a free lock, and rolling back at any time, renew the unit on a copy of the shared contents apart from all other stores. |
| Store.Store.Snapshot | src/incident_evidence_compiler/persistence/memory.py:59-67 | A clone with equal contents and containers of its own. |
| Store.Store.Adopt | src/incident_evidence_compiler/persistence/memory.py:69-75 | Afterwards the two stores share the other's containers. |
| Store.UnitOfWork.constructor | src/incident_evidence_compiler/persistence/memory.py:272-281 | Repositories bound to a fresh snapshot disjoint from the shared store. |
| Store.UnitOfWork.Commit | src/incident_evidence_compiler/persistence/memory.py:291-294 | Publishes the working contents, and the newly exposed repositories are again disjoint from the shared store. |
| Store.UnitOfWork.Rollback | src/incident_evidence_compiler/persistence/memory.py:296-298 | Restarts from the shared contents with disjoint containers. |
| Store.UnitOfWork.Enter | src/incident_evidence_compiler/persistence/memory.py:300-308 | Takes the lock and restarts from the shared contents. |
| Store.StaleRepositoryWritesThrough | src/incident_evidence_compiler/persistence/memory.py:291-294 | Finding: a repository kept from before a commit writes into containers the shared store has taken over, so its write shows with no commit. |
| Store.EnqueueShowsIffAliased | src/incident_evidence_compiler/persistence/memory.py:122-126 | An uncommitted enqueue shows if and only if the repository's container is the shared store's own. |
| Store.InvestigationRepository.Create | src/incident_evidence_compiler/persistence/memory.py:86-101 | Returns the row under the same tenant and key if there is one, conflicts on a reused id, else inserts. |
| Store.InvestigationRepository.SetStatus | src/incident_evidence_compiler/persistence/memory.py:109-115 | Replaces the status of a row of that tenant only. |
| Store.JobQueue.Enqueue | src/incident_evidence_compiler/persistence/memory.py:122-126 | Inserts a new job or conflicts. |
| Store.JobQueue.Claim | src/incident_evidence_compiler/persistence/memory.py:128-158 | Claims the first claimable job in queue order with lease and incremented attempt count, or nothing. |
| Store.JobQueue.SetStatus | src/incident_evidence_compiler/persistence/memory.py:175-179 | Changes the status of a job of that tenant only; attempts, lease and place stay. |
| Store.AttemptRepository.Record | src/incident_evidence_compiler/persistence/memory.py:186-195 | Records unless the job already has that attempt number. |
| Store.EvidenceRepository.Append | src/incident_evidence_compiler/persistence/memory.py:211-221 | First write wins per (tenant, run, id). |
| Store.ReportRepository.Put | src/incident_evidence_compiler/persistence/memory.py:239-243 | Stores the first report of an investigation and rejects a second. |
| Tables.SelectFirst | src/incident_evidence_compiler/persistence/memory.py:128-167 | The scan finds the claimable job that precedes every other in (available_at, id) order, or none if none is claimable. |
| TableLaws.ClaimSays | src/incident_evidence_compiler/persistence/memory.py:128-167 | A claim takes the due job of least availability and then identifier, writes claimant, time, lease end and attempt count into it and into the ticket, and changes nothing else; it takes none only if none is due. |
| TableLaws.OwnRowsAnswer | src/incident_evidence_compiler/persistence/memory.py:103-115 | A tenant's own rows are found as they are, and a new status replaces the status and nothing else. |
| TableLaws.ForeignRowsAreInvisible | src/incident_evidence_compiler/persistence/memory.py:103-115 | A row of another tenant is neither found nor changed. |
| TableLaws.CreateSays | src/incident_evidence_compiler/persistence/memory.py:86-101 | Creating gives back the tenant's row under the same key, or conflicts on a used id, or inserts. |
| TableLaws.InsertsSay | src/incident_evidence_compiler/persistence/memory.py:122-243 | Enqueueing, recording an attempt and publishing a report insert, or conflict exactly on a used job id, attempt number or investigation. |
| Tables.AppendedKeepsRows | src/incident_evidence_compiler/persistence/memory.py:211-221 | Appending changes no stored row, stores every requested key, and adds only requested rows. |
| Tables.CreateKeepsKeys | src/incident_evidence_compiler/persistence/memory.py:86-101 | Creating keeps idempotency keys unique per tenant. |
| Tables.RecordingKeepsRowsIffFresh | src/incident_evidence_compiler/persistence/memory.py:186-195 | Finding: recording an attempt loses an earlier one if and only if its id is reused, which nothing checks. |
| ClaimProtocol.ClaimsAreExclusive | src/incident_evidence_compiler/persistence/postgres/unit_of_work.py:280-314 | Over every interleaving of any number of sessions no job is held by two open transactions, the attempt count is the number of committed claims, and committed claims with no status change between them are at least a lease apart. |
| ClaimProtocol.NextKeepsInv | src/incident_evidence_compiler/persistence/postgres/unit_of_work.py:280-314 | Every insert, begin, claim, status change, commit and rollback keeps row exclusion and the told histories. |
| ClaimProtocol.ClaimStepSays | src/incident_evidence_compiler/persistence/postgres/unit_of_work.py:280-314 | A claim step takes the due row of least availability and then identifier among those no other session holds, and writes nothing else. |
| ClaimProtocol.StatusStepSays | src/incident_evidence_compiler/persistence/postgres/unit_of_work.py:327-338 | A status step writes the row the session sees with the new status, unless another session or another tenant has it. |
| ClaimProtocol.SessionsOpenAndClose | src/incident_evidence_compiler/persistence/postgres/unit_of_work.py:523-548 | A session that begins holds nothing, and after commit or rollback it holds nothing any more. |
| ClaimProtocol.LegalHistoriesAreSpaced | src/incident_evidence_compiler/persistence/memory.py:159-167 | A row history in which each claim found the row claimable is spaced by leases. |
| ClaimProtocol.LoneClaimMatchesMemory | src/incident_evidence_compiler/persistence/postgres/unit_of_work.py:280-314 | Without competitors the row-lock claim leaves the same job table as the in-memory claim. |
| ClaimProtocol.JobTable.ClaimRow | src/incident_evidence_compiler/persistence/postgres/unit_of_work.py:280-314 | Locks and updates the first claimable row nobody else holds; reports none only if no unlocked row is claimable, rejects a blank worker, and then changes nothing. |
| ClaimProtocol.JobTable.CommitTransaction | src/incident_evidence_compiler/persistence/postgres/unit_of_work.py:523-524 | Publishes exactly the transaction's rows and releases them. |
| ClaimProtocol.JobTable.RollbackTransaction | src/incident_evidence_compiler/persistence/postgres/unit_of_work.py:526-527 | Leaves the committed rows as they were and releases what was held. |
| EndToEnd.PipelineDecidesRawPoints | src/incident_evidence_compiler/domain/verifier.py:114-220 | Rank, compile, validate and verify answer if and only if signals are distinct and the document valid, and every verdict and reason equals a direct specification on raw points: context, semantics, enough points on both sides, sign of the median shift, and shift at least minimum_score times scale. |
| RawPoints.ValidSignalAscends | src/incident_evidence_compiler/domain/metrics.py:44-60 | Comparing neighbouring points is enough: a signal is accepted if and only if all its instants are distinct and in order. |
| RawPoints.SamplesAreThePoints | src/incident_evidence_compiler/domain/baseline.py:180-189 | The pre-injection sample holds every value exactly as often as a point in [start, injection) has it, and the post-injection sample as often as a point in [injection, end). |
| RawPoints.RisingPointsNeverFall | src/incident_evidence_compiler/domain/verifier.py:114-165 | If every point before the injection lies below every point after it, no document has an increase refuted or a decrease supported. |
| RawPoints.EvaluationSaysPoints | src/incident_evidence_compiler/domain/baseline.py:175-202 | Everything an evaluation records, read off the points: counts, eligibility, medians, spread, floors, scale, and a score whose product with the scale is the move of the median. |
| RawPoints.RankSays | src/incident_evidence_compiler/domain/baseline.py:205-271 | Ranking evaluates every signal in strictly ascending key order, has exactly the eligible ones as candidates in strictly descending suspicion with ties by key, and ranks or abstains for the reason their scores alone determine, with their lead, top and second score. |
| EndToEnd.AllowListPreventsUnknownSignals | src/incident_evidence_compiler/llm/parsing.py:75-78 | A proposal admitted by the ledger's allow-list never yields SIGNAL_NOT_FOUND. |
| EndToEnd.PipelineIsOrderFree | src/incident_evidence_compiler/domain/baseline.py:211-232 | Permuting the telemetry changes no verdict, reason, identifier or trace. |
| Symmetry.PipelineIsSignFree | src/incident_evidence_compiler/domain/baseline.py:134-145 | Negating every value and flipping every expected direction keeps every verdict and reason of every document. |
| Symmetry.PipelineIsUnitFree | src/incident_evidence_compiler/domain/baseline.py:134-145 | Scaling all values and absolute floors by k > 0 changes no verdict and no reason of any document. |
| EndToEnd.ThresholdsAreMonotone | src/incident_evidence_compiler/domain/verifier.py:125-165 | Lowering minimum_score changes no decided predicate or document verdict, and minimum_margin changes no verdict at all. |
| EndToEnd.ScoreThreshold | src/incident_evidence_compiler/domain/baseline.py:134-172 | Comparing the score with a threshold is comparing the median shift with the threshold times the scale. |
| Abstention.DecidableIffConclusive | src/incident_evidence_compiler/domain/baseline.py:233-265 | Some hypothesis gets a verdict other than UNKNOWN if and only if the top score is positive and at least minimum_score. |
| Abstention.AbstentionForcesUnknown | src/incident_evidence_compiler/domain/baseline.py:233-265 | Weak and insufficient abstentions force UNKNOWN on every document. |
| Abstention.TopIsMaximum | src/incident_evidence_compiler/domain/baseline.py:233-265 | The recorded top score is the largest suspicion among the entries and is attained. |
| Statistics.MedianIsRobust | src/incident_evidence_compiler/domain/baseline.py:134-145 | Altering at most floor((n-1)/2) values arbitrarily keeps the median within any bounds of the unaltered ones. |
| OrderStatistics.MedianIsMiddle | src/incident_evidence_compiler/domain/baseline.py:134-145 | The median is the mean of the two values that counting puts at ranks (n-1)/2 and n/2, which for odd n are one value. |
| OrderStatistics.MedianOfShifted | src/incident_evidence_compiler/domain/baseline.py:134-145 | Moving a sample moves its median. |
| RawPoints.SpreadIsMiddleDistance | src/incident_evidence_compiler/domain/baseline.py:134-145 | The spread is the middle distance of the values from their median. |
| RawPoints.ScaleIsLargest | src/incident_evidence_compiler/domain/baseline.py:134-145 | The scale is at least the scaled spread, the absolute floor and the relative floor, and is one of them. |
| Statistics.MedianOfNegated | src/incident_evidence_compiler/domain/baseline.py:134-145 | Negating a sample negates its median. |
| Statistics.MedianOfScaled | src/incident_evidence_compiler/domain/baseline.py:134-145 | Scaling a sample by k > 0 scales its median. |
| Baseline.ScoreOfNegated | src/incident_evidence_compiler/domain/baseline.py:128-172 | Negating all values negates signed_score and keeps suspicion_score and scale. |
| Baseline.ScoreOfScaled | src/incident_evidence_compiler/domain/baseline.py:128-172 | Scaling values and absolute floor by k > 0 keeps both scores and scales the scale. |
| Baseline.RankIsOrderFree | src/incident_evidence_compiler/domain/baseline.py:205-271 | Permuting the input signals changes neither ranking nor abstention nor the duplicate-signal error. |
| Ledger.ParseEvaluations | src/incident_evidence_compiler/domain/evidence/_parsing.py:170-221 | The loop accepts exactly distinct, well-formed evaluations, and returns them and their candidates in canonical order. |
| Ledger.CompilerTableAgrees | src/incident_evidence_compiler/domain/evidence/_decisions.py:19-92 | The compiler's decision table accepts a result if and only if it is the baseline's own decision for those candidates. |
| Ledger.ValidatorTableAgrees | src/incident_evidence_compiler/domain/evidence/_decisions.py:95-166 | The validator's table accepts a recorded decision if and only if it is the snapshot of the baseline's own decision. |
| Ledger.ValidateLedger | src/incident_evidence_compiler/domain/evidence/_ledger.py:30-125 | The loops of validation compute the specified reconstruction. |
| Ledger.ValidationNeverRepairs | src/incident_evidence_compiler/domain/evidence/_ledger.py:30-125 | Validation returns the ledger itself if header, evaluations, order, decision and identifiers are faithful, and rejects otherwise. |
| RawPoints.AcceptedLedgerSays | src/incident_evidence_compiler/domain/evidence/_ledger.py:30-125 | An accepted ledger has its schema and a well-formed header, entries in strictly ascending key order each determined by its own statistics and identified by its own content, and the decision that its candidates determine, field by field. |
| Ledger.IdsBindContent | src/incident_evidence_compiler/domain/evidence/_identity.py:69-112 | Two accepted ledgers sharing one identifier share context, window, policy and decision, and the entry under it. |
| Ledger.IdsAreDistinct | src/incident_evidence_compiler/domain/evidence/_identity.py:100-112 | Within an accepted ledger identifiers are distinct. |
| Ledger.CompileAcceptsExactly | src/incident_evidence_compiler/domain/evidence/_ledger.py:138-191 | Compilation accepts exactly a valid header with well-formed distinct evaluations whose decision is the baseline's, and yields their canonical ledger. |
| Ledger.CompileIsOrderFree | src/incident_evidence_compiler/domain/evidence/_parsing.py:170-221 | Permuting the evaluations inside a result leaves the ledger, entries and identifiers unchanged. |
| Ledger.ValidationImage | src/incident_evidence_compiler/domain/evidence/_ledger.py:30-191 | A ledger is accepted if and only if it is the output of some compilation. |
| Ledger.RankCompiles | src/incident_evidence_compiler/domain/baseline.py:205-271 | Every ranking or abstention of the baseline compiles. |
| Hypotheses.DocumentAcceptedIff | src/incident_evidence_compiler/domain/hypotheses.py:88-135 | A document is accepted, unchanged, if and only if its texts are not blank, it has 1 to 32 predicates, and as many different identifiers and signals as predicates. |
| Hypotheses.ParsedProposalIsSafe | src/incident_evidence_compiler/llm/parsing.py:36-93 | Whatever the model wrote, an accepted proposal is a valid document over allowed signals only. |
| Hypotheses.ProposalRoundTrip | src/incident_evidence_compiler/llm/parsing.py:36-93 | Parsing the structure of any valid allowed document gives the document back. |
| Hypotheses.ProposalParsesIff | src/incident_evidence_compiler/llm/parsing.py:52-93 | A decoded proposal is accepted as a document if and only if it writes that document down word for word and the document is valid and about allowed signals only. |
| Hypotheses.ProposalErrors | src/incident_evidence_compiler/llm/parsing.py:52-78 | Exactly when a decoded proposal is rejected for too many predicates, for a signal that is not allowed, and for its schema, as any other word makes it. |
| Verifier.CompositionIsExtremal | src/incident_evidence_compiler/domain/verifier.py:150-165 | ALL is the least and ANY the greatest child verdict in refuted < unknown < supported. |
| Verifier.CompositionIsOrderFree | src/incident_evidence_compiler/domain/verifier.py:150-165 | Composition ignores predicate order. |
| Verifier.VerifierDuality | src/incident_evidence_compiler/domain/verifier.py:114-220 | Flipping every direction and swapping ALL with ANY swaps SUPPORTED and REFUTED, keeps UNKNOWN and reasons, and swaps the two citation lists exactly. |
| Verifier.CitationsAreEntries | src/incident_evidence_compiler/domain/verifier.py:168-220 | Every cited identifier is an entry of the ledger verified against. |
| Serialization.SerializerAcceptsConsistent | src/incident_evidence_compiler/domain/serialization.py:284-434 | The re-check accepts exactly the consistent traces. |
| Serialization.ChildSerializesIff | src/incident_evidence_compiler/domain/serialization.py:284-325 | A child trace serializes if and only if it cites support exactly when supported, contradiction exactly when refuted, gives a reason exactly when unknown, and a direction unless its reason leaves none. |
| Serialization.AcceptedPayloadComposes | src/incident_evidence_compiler/domain/serialization.py:361-434 | An accepted payload has the composed verdict of its children and their citations concatenated in order; under a gate reason every child carries that reason, the verdict is UNKNOWN and there is no evidence; without one no child carries a gate reason. |
| Serialization.CompositionsAgree | src/incident_evidence_compiler/domain/serialization.py:384-400 | The serializer's own composition equals the verifier's. |
| Serialization.VerifiedSerializes | src/incident_evidence_compiler/domain/serialization.py:361-434 | The re-check rejects no output of the verifier. |
| Serialization.VerificationRoundTrip | src/incident_evidence_compiler/domain/serialization.py:284-434 | A verification payload can be read back as exactly the trace it was written from, and its citations are those of its children in order. |
| Serialization.EntryRoundTrip | src/incident_evidence_compiler/domain/serialization.py:227-255 | An evidence payload can be read back as exactly the entry it was written from. |
| Serialization.BaselinePayloadSays | src/incident_evidence_compiler/domain/serialization.py:437-469 | The serialized ranking carries the candidates in order, the policy, the two highest scores, the lead of a ranking with a runner-up and the reason of an abstention. |
| Serialization.LedgerEntrySerializes | src/incident_evidence_compiler/domain/serialization.py:227-255 | Every entry of an accepted ledger serializes to exactly the payload its identifier addresses. |
| Serialization.EntrySerializesIff | src/incident_evidence_compiler/domain/serialization.py:207-255 | Exactly which entries serialize; an eligible one must have a candidate that repeats its key, counts and floors. |
| Serialization.CompilableSerializes | src/incident_evidence_compiler/domain/serialization.py:437-469 | Every compilable ranking or abstention serializes. |
| Serialization.BaselineSerializesIff | src/incident_evidence_compiler/domain/serialization.py:437-469 | Exactly which rankings and abstentions serialize, also those that no ranking produces, and that none is changed on the way. |
| Changes.NewLog | src/incident_evidence_compiler/domain/changes.py:75-93 | A log is accepted exactly when it has no duplicate and is within the event limit, and is held in (time, kind, key) order. |
| Changes.PhasesPartition | src/incident_evidence_compiler/domain/change_evidence.py:147-154 | In a valid window each instant lies in exactly one phase, the recorded one. |
| Changes.BuildEntries | src/incident_evidence_compiler/domain/change_evidence.py:223-250 | The loop builds the canonical entries of the ordered events. |
| Changes.CheckLog | src/incident_evidence_compiler/domain/change_evidence.py:253-272 | Accepts exactly well-formed, distinct, bounded logs. |
| Changes.ValidateLedger | src/incident_evidence_compiler/domain/change_evidence.py:275-320 | The loop of validation computes the specified reconstruction. |
| Changes.ValidationNeverRepairs | src/incident_evidence_compiler/domain/change_evidence.py:275-320 | Accepts exactly the faithful change ledgers and returns them unchanged. |
| Changes.AcceptedLedgerSays | src/incident_evidence_compiler/domain/change_evidence.py:275-320 | An accepted change ledger has strictly ascending entries by time, name of kind and key, each in the phase of its time and identified by exactly its content. |
| Changes.CompileAcceptsExactly | src/incident_evidence_compiler/domain/change_evidence.py:333-354 | Compilation fails only on a malformed header or log, and yields the canonical entries. |
| Changes.CompileIsOrderFree | src/incident_evidence_compiler/domain/change_evidence.py:333-354 | The order of logging leaves no mark on the ledger. |
| Changes.ValidationImage | src/incident_evidence_compiler/domain/change_evidence.py:275-354 | A ledger is compiled from some log if and only if it validates and has at most 512 entries. |
| Changes.OversizedLedgerValidates | src/incident_evidence_compiler/domain/change_evidence.py:275-320 | Finding: in every context and window and for every size above 512 there is a ledger that validates although no log compiles to it. |
| Changes.IdsBindContent | src/incident_evidence_compiler/domain/change_evidence.py:161-200 | A shared identifier pins context, window and entry. |
| Timestamps.TextOrdersLikeInstants | src/incident_evidence_compiler/domain/change_evidence.py:157-158 | The fixed-width ISO text of instants in years 1 to 9999 orders, and distinguishes, exactly like the instants. |
| Timestamps.RepresentableIff | src/incident_evidence_compiler/domain/change_evidence.py:157-158 | The instants that have such a text are exactly those of the 3652059 days of the years 1 to 9999. |
| Timestamps.DatesAreGregorian | src/incident_evidence_compiler/domain/change_evidence.py:157-158 | The date written for a day is that day of the Gregorian calendar. |
| Timestamps.ClockIsExact | src/incident_evidence_compiler/domain/change_evidence.py:157-158 | The clock written for a time of day is that time. |
| ChangeVerifier.VerdictOnEvents | src/incident_evidence_compiler/domain/change_verifier.py:99-134 | On a compiled ledger: SUPPORTED if and only if a logged event of that kind and key satisfies the phase constraint, UNKNOWN if and only if none was logged, REFUTED if and only if some were and none satisfies it. |
| ChangeVerifier.CitationsOnEvents | src/incident_evidence_compiler/domain/change_verifier.py:99-134 | Supporting citations are exactly the identifiers of the logged events that satisfy the claim; contradicting ones exactly those of the logged events of a claim that none satisfies. |
| ChangeVerifier.PipelineDecidesEvents | src/incident_evidence_compiler/domain/change_verifier.py:155-202 | Compile, validate and verify answer if and only if header, log and document are well formed; every verdict and reason is what the logged events say; every predicate and the document cite exactly their deciding events on both sides; and the document composes the verdicts. |
| ChangeVerifier.DocumentAcceptedIff | src/incident_evidence_compiler/domain/change_hypotheses.py:85-130 | A change document is answered as malformed unless its texts are not blank, it has 1 to 32 predicates, and their identifiers differ; keys may repeat. |
| ChangeVerifier.TraceSays | src/incident_evidence_compiler/domain/change_verifier.py:155-202 | A trace names its document, composition and gate reason, and its predicates with their constraints in order. |
| ChangeVerifier.MatchingKeepsOrder | src/incident_evidence_compiler/domain/change_verifier.py:99-112 | Matching filters entry by entry in ledger order. |
| ChangeVerifier.GatedComposition | src/incident_evidence_compiler/domain/change_verifier.py:155-202 | The forced UNKNOWN of a gated document equals the composition of its gated children. |
| ChangeSerialization.TextOrdersLikeEvents | src/incident_evidence_compiler/domain/serialization.py:550-563 | Rendered entries compare exactly like the events they render. |
| ChangeSerialization.ChangeLedgerSerializes | src/incident_evidence_compiler/domain/serialization.py:550-563 | The text ordering rejects no valid change ledger. |
| ChangeSerialization.ChangeEntriesSerializeIff | src/incident_evidence_compiler/domain/serialization.py:539-563 | Change entries serialize if and only if each is writable and they ascend strictly by time, name of kind and key. |
| ChangeSerialization.ChangeEntriesRoundTrip | src/incident_evidence_compiler/domain/serialization.py:539-563 | Every serialized change entry can be read back from its text, identifier and phase. |
| ChangeSerialization.ChangeSerializerAcceptsConsistent | src/incident_evidence_compiler/domain/serialization.py:590-703 | The re-check accepts exactly the consistent change traces. |
| ChangeSerialization.ChangeChildSerializesIff | src/incident_evidence_compiler/domain/serialization.py:590-619 | The same for the children of a change result. |
| ChangeSerialization.AcceptedChangePayloadComposes | src/incident_evidence_compiler/domain/serialization.py:631-703 | The same for change results: composed verdict, citations in order, and a uniform gate reason with no evidence. |
| ChangeSerialization.ChangeVerifiedSerializes | src/incident_evidence_compiler/domain/serialization.py:590-703 | The re-check rejects no output of the change verifier. |
| ChangeSerialization.ChangeVerificationRoundTrip | src/incident_evidence_compiler/domain/serialization.py:590-703 | A change verification payload can be read back as exactly the trace it was written from. |
| CsvLoader.ParseMetricCsv | src/incident_evidence_compiler/evaluation/rcaeval/csv_loader.py:133-182 | From text to table or to the first error in the order of the code: record width on the text, then header, rows and cells, then a tokenizer error. |
| CsvLoader.ValidateRecordWidth | src/incident_evidence_compiler/evaluation/rcaeval/csv_loader.py:109-130 | The character scan accepts if and only if no separator outside quotes opens a column beyond the limit, quotes being decided by the parity of quote characters. |
| RecordWidths.WrittenRecordsFit | src/incident_evidence_compiler/evaluation/rcaeval/csv_loader.py:109-130 | Text written as records of bare and quoted fields, under any of the three line breaks, passes the scan if and only if no record has more fields than the limit. |
| CsvLoader.ReadTokens | src/incident_evidence_compiler/evaluation/rcaeval/csv_loader.py:139-182 | The row loop computes the specified table or its first error. |
| CsvLoader.ReadRow | src/incident_evidence_compiler/evaluation/rcaeval/csv_loader.py:158-182 | One row extends each column by its cell unless it is a gap, counts gaps, and rejects width, order, limit and number errors in the code's order. |
| CsvLoader.SignalsHoldTheirCells | src/incident_evidence_compiler/evaluation/rcaeval/csv_loader.py:158-226 | Each signal of a parsed case is its header name with exactly the readable cells of its column at their rows' times. |
| CsvCases.PointsAreNumbers | src/incident_evidence_compiler/evaluation/rcaeval/csv_loader.py:87-107 | A signal has a point exactly where a row's cell in its column is not empty and reads as that finite number, at that row's time. |
| CsvCases.CaseParsesIff | src/incident_evidence_compiler/evaluation/rcaeval/csv_loader.py:133-226 | Exactly which texts make a case, condition by condition. |
| CsvCases.CaseWindow | src/incident_evidence_compiler/evaluation/rcaeval/csv_loader.py:216-219 | The window starts at the time of the first row, has the injection that was given, and ends one microsecond after the time of the last row. |
| CsvCases.CaseCounts | src/incident_evidence_compiler/domain/baseline.py:180-202 | The baseline sees as many values of a signal before and after the injection as it has cells holding a number in rows before it, and at or after it. |
| CsvCases.RowErrors | src/incident_evidence_compiler/evaluation/rcaeval/csv_loader.py:158-182 | Exactly why a row is not read, in the order of the code. |
| CsvCases.TableErrors | src/incident_evidence_compiler/evaluation/rcaeval/csv_loader.py:133-192 | What the other errors of a table mean. |
| CsvLoader.CellsAreConserved | src/incident_evidence_compiler/evaluation/rcaeval/csv_loader.py:158-226 | Retained points plus dropped cells are rows times metric columns; signals are valid and uniquely named; each retained point falls on exactly one side of the injection. |
| CsvLoader.PointsSplit | src/incident_evidence_compiler/domain/baseline.py:180-202 | Points inside a window are counted in exactly one of pre and post. |
| CsvLoader.ParsedCaseRanks | src/incident_evidence_compiler/evaluation/rcaeval/csv_loader.py:196-226 | A parsed case never raises the duplicate-signal error. |
| CsvLoader.BlankHeaderIsAnInvalidTimestamp | src/incident_evidence_compiler/evaluation/rcaeval/csv_loader.py:216-226 | Finding: with every time in order a case is rejected, as an invalid timestamp, if and only if some metric header is blank without being empty. |
| CsvLoader.BlankHeaderExample | src/incident_evidence_compiler/evaluation/rcaeval/csv_loader.py:216-226 | One data row under such a header is rejected that way. |
| Harness.Dedup | src/incident_evidence_compiler/evaluation/harness/runner.py:70-77 | Computes the first occurrences in order. |
| Harness.DedupKeepsValues | src/incident_evidence_compiler/evaluation/harness/runner.py:70-77 | Deduplication loses no value, invents none and repeats none. |
| Harness.PredictServices | src/incident_evidence_compiler/evaluation/harness/runner.py:126-151 | Parses, verifies and translates as specified; rejected proposals abstain, and decoder and verifier errors are passed on. |
| Harness.PredictionEscapesIff | src/incident_evidence_compiler/evaluation/harness/runner.py:126-131 | Finding: on an accepted ledger an error escapes if and only if decoding the model output raised an error that is no syntax error. |
| Harness.NoInvalidCitations | src/incident_evidence_compiler/evaluation/harness/runner.py:133-140 | The invalid-identifier count is 0 for every model output that yields a prediction. |
| Harness.CollectKeys | src/incident_evidence_compiler/evaluation/harness/runner.py:141-148 | The loop collects the distinct keys of the cited entries and counts unknown identifiers. |
| Harness.PredictionsAreSupported | src/incident_evidence_compiler/evaluation/harness/runner.py:133-151 | Predicted services are exactly the services of signals whose evidence supports the document, once each. |
| Harness.PredictionsAreRanked | src/incident_evidence_compiler/evaluation/harness/runner.py:149-151 | A service precedes another because one of its supported signals outranks, by suspicion then key, every supported signal of the other. |
| Harness.PredictionsRankEntries | src/incident_evidence_compiler/evaluation/harness/runner.py:133-151 | The same on the entries: by the suspicion of their candidates, then by key. |
| Harness.PredictionAbstains | src/incident_evidence_compiler/evaluation/harness/runner.py:126-151 | A prediction abstains exactly when it names no service; a rejected proposal names none. |
| Harness.InvalidCountSays | src/incident_evidence_compiler/evaluation/harness/runner.py:137-140 | The invalid count is the number of cited identifiers that no entry has. |
| Harness.ServiceOfColumn | src/incident_evidence_compiler/evaluation/harness/baseline_inputs.py:68-78 | A column named service, underscore, metric maps to its service when the metric holds no underscore, and a name without underscore maps to itself. |
| Harness.PredictionsOnRawPoints | src/incident_evidence_compiler/evaluation/harness/runner.py:95-151 | For every telemetry that ranks and every model output whose decoding does not raise, the predicted services are exactly those of a predicate of an admissible proposal that the raw points support. |

## Left out

- Float rounding, overflow and NaN: arithmetic is over reals, so the computation-error branch of the baseline has no counterpart.
- SHA-256, hexadecimal floats, JSON text and character encoding: identifiers are injective by construction and payloads stay structured. Identifier text is assumed to be UTF-8 encodable; a lone surrogate in it passes verification and is rejected only when serialized, which the model does not show.
- Checks that a value really has its declared Python type, and redacted representations: the types here rule the cases out.
- Bookkeeping timestamps that nothing reads (created, updated, started, finished, occurred) and the metrics registry.
- Timeouts, HTTP clients and provider retries: a turn's telemetry and model outcomes are arbitrary values of the outcomes the worker distinguishes.
- Cancellation: no use case sets it; the worker's branch for it is modelled and shown unreachable in runs without it.
- Collisions of investigation and attempt identifiers in runs: both are taken fresh (what a reused attempt identifier does is proved apart); a colliding job identifier is modelled.
- Commands with a blank identifier or a malformed window: the source's value types reject them before a command exists.
- Dictionary insertion order: lookups by idempotency key are determined by uniqueness instead, which every operation keeps.
- List queries of the repositories.
- PostgreSQL beyond the claim: rows locked by another transaction are skipped, the claim statement is atomic, a status change that would wait does not happen, and inserted jobs are visible at once with no attempts yet.
- The serializer of whole metric ledgers, and the header of serialized change ledgers; their entries are covered.
- CSV tokenization, file size and encoding limits, and the reading of numbers and timestamps: parameters, whatever they yield.
- API routes, authentication, configuration, migrations, case discovery, manifests and scoring averages: plumbing or easier members.
- ChangeSerialization.ChangeLedgerSerializes: for instants in years 1 to 9999, the range of the source's timestamps.
