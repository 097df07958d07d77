# Verified model of the RFP evaluation platform

An organisation publishes an RFP, vendors drop their proposals into folders, a scheduler closes the
RFP at its deadline and has the proposals turned into facts, and agents then evaluate, compare and
decide. Language models answer the questions in between; everything around those answers is
deterministic. This project models that deterministic part and proves what it keeps.

The answers of a language model, clock readings, file contents and random ids are arbitrary inputs.
Numbers are exact; Python's `round` is modelled as rounding to nearest with ties to even, a
`NUMERIC(3,2)` column as rounding to nearest with ties away from zero.

| modules | part of the system |
|---|---|
| IngestionTables, IngestionRuns, IngestionLifecycle, LateJobs, Supersession, DropRaces, FactStore, IngestionWatcher, DeadlineTick | RFPs and ingestion jobs: every SQL statement or transaction is a step; ticks, file drops, workers, deadline edits and administrators interleave |
| RateLimiter, CircuitBreaker, TenantStamp, SettingsCache, SettingsRace | infrastructure under concurrency and time |
| TaskGraph, Planner | the evaluation plan and its guardrail |
| Schemas, Voting, Compliance, Critic | mandatory checks and the critic |
| Rounding, Scoring, StableSort, Ranking, Governance, Decision | scores, ranking, rejection and shortlist |
| CriteriaMerge | merging four sources of criteria |
| AuthState, TokenRaces, Logins | one-time tokens, revocable sessions, creations that overlap, logins that overlap a reset |

Where the source updates state in place the model is a class or a loop, proved against a function
of the old state; the theorems are about that function and about all runs.

## What the proofs found

Each item is a promise of the code or its documentation that does not hold on all inputs, with the
exact condition under which it does.

- A drop reads the RFP and writes the job in separate transactions, and the tick queues the jobs of
  closed RFPs in a transaction whose effects show only when it commits. Over a run no received job is
  missed, that is left behind now or as soon as such a transaction commits, if and only if every insert
  and every assignment of a received job changes nothing or finds its RFP open, or closed with no open
  queueing transaction past its jobs (`LateJobs.NoneLeftBehindIff`). One that comes later leaves an RFP
  that stays in processing, without an event, until one of two kinds of step releases it
  (`Supersession.LateInsertGetsStuck`, `Supersession.SweptInsertGetsStuck`, `Supersession.ReleasedIff`,
  `Supersession.StuckForever`).
- Overlapping drops of one vendor: a drop's row is superseded if and only if another drop has linked
  since it was inserted, so two drops lose both rows if and only if both inserts precede both links
  (`DropRaces.SupersededIff`, `DropRaces.BothLostIff`). Assigning a file to a vendor supersedes nothing
  (`Supersession.AssignmentKeepsUniquenessIff`).
- app/infra/circuit_breaker.py:19 says only one trial call probes recovery. From a probe on that is
  true of every continuation if and only if no other call was running as the probe was let through
  (`CircuitBreaking.OneProbeIff`).
- app/domain/org_settings.py:106-112 says individual fields layer on top of the preset. The preset
  wins (`SettingsCache.PresetBeatsCaller`). An invalidation lasts until the next write if and only if
  no reader that has fetched another value is still within its time to live
  (`SettingsRace.InvalidationLastsIff`).
- The error text of `validate_plan` names a task "involved" in a cycle. Whatever the order of the
  list the named task is on a cycle if and only if every task that leads to one lies on one
  (`TaskGraph.NamedIsAlwaysOnCycleIff`).
- app/auth/tokens.py:58-59 says a user never holds two live links. The UPDATE and the INSERT are two
  statements of the caller's transaction, and an UPDATE sees committed rows only: after any interleaving
  of any number of creations a token is live if and only if no UPDATE started after its COMMIT; two
  creations leave two live links if and only if each UPDATE starts before the other's COMMIT
  (`TokenRaces.LiveIff`, `TokenRaces.OverlappingCreationsLeaveTwo`).
- app/api/auth_routes.py:514 says any token issued before a reset is dead. No session can come from a
  password check made before the reset commits if and only if, as it commits, no login of the user is
  between its check and its registration and no active session of the user was registered after the
  revocation ran (`Logins.CommitIsCompleteIff`). Seen from the revocation: if no login of the user passes
  its check before the commit, that holds whatever else happens if and only if none was waiting to
  register (`Logins.ResetIsCompleteIff`); one that checks and registers in between always survives
  (`Logins.InsideLoginSurvives`).
- Two criteria with one id can push coverage above 1, which the output type refuses. The published
  coverage exceeds 1 if and only if the weight looked up for the scored criteria exceeds that of the
  distinct ids by more than the rounding hides (`Scoring.CoverageIsRefusedIff`); some answers make a
  setup fail if and only if its criteria weigh that much more than its distinct ids
  (`Scoring.SetupCanBeRefusedIff`).
- Contradictions that only samples other than the representative report are not seen by the check
  (`Compliance.VotedContradictionIff`).
- With "marginal" configured above another band, a worse score can get the better label
  (`Governance.LabelsNeverImproveIff`). With an evaluated vendor nobody requested, the shortlist
  need not fall by score (`Decision.ShortlistFallsIff`).
- `merge_criteria` promises a result fit for the setup type. Exactly which input weights give one is
  `CriteriaMerge.MergeFitsIff`: there must be some, since a merge without scoring criteria publishes no
  total weight; passed through, each must lie in (0, 1]; recomputed, each share must exceed half a
  thousandth and the rounded shares must come to 990 to 1010 thousandths. The last is
  automatic for every list of weights if and only if there are at most 22 (`CriteriaMerge.SumFitsIff`).

app/infra/rate_limiter.py:21 calls the limiter a token bucket; it is a sliding window, and modelled as one.

## Model

| member | source | states |
|---|---|---|
| IngestionRuns.ExactlyOnce | app/jobs/deadline_processor.py:154-234 | over every interleaving of any number of ticks (with stale candidates, uncommitted flips, aborts) and all other steps: events logged plus entries pending in all `winners` lists are 1 if the RFP was flipped to facts_ready and 0 otherwise; a row lock is held by one scanning tick; an uncommitted winner is listed once |
| IngestionRuns.AtMostOneEvent | app/jobs/deadline_processor.py:203-234 | never two lifecycle events for one RFP, of either type |
| IngestionRuns.WinnerEmitsOnce | app/jobs/deadline_processor.py:218-234 | the winning tick's emission turns zero events into exactly one |
| IngestionRuns.QuiescentMeansDelivered | app/jobs/deadline_processor.py:154-234 | once no tick has anything left to emit, exactly the flipped RFPs have their one event |
| IngestionLifecycle.JobsOnlyMoveLegally | app/pipeline/ingestion_graph.py:143-225 | over every interleaving a job is never removed and only makes legal moves; its vendor changes only while it needs attribution; superseded, ready and failed are final |
| IngestionLifecycle.LifecycleHolds | app/domain/rfp.py:26-37 | every committed status change over all interleavings is one `can_transition` allows, deadlines move only while open, and a non-open RFP has a past deadline and is never manual |
| IngestionLifecycle.OneChain | app/domain/rfp.py:26-37 | `can_transition` allows the four changes of one chain from open to evaluated and no others |
| IngestionLifecycle.RfpChangesIff | app/jobs/deadline_processor.py:74-216 | whatever the step: an open RFP is closed if and only if a closing sweep runs, its mode is not manual and its deadline is before now; a closed one is queued if and only if a queueing transaction that looked at it and waits for nobody commits; one in processing is finalised if and only if the tick that holds its lock commits; only an edit while open moves a deadline |
| IngestionLifecycle.CountPassesIff | app/jobs/deadline_processor.py:163-216 | an RFP passes a tick's count if and only if it was a candidate, none of its jobs is received, queued or running, and one is ready |
| IngestionLifecycle.JobChangesIff | app/pipeline/ingestion_graph.py:89-225 | whatever the step: which move makes a job queued, running, ready or failed, each exactly when; no other job leaves its status, but received ones superseded and unattributed ones assigned |
| IngestionLifecycle.SweepFindsIff | app/jobs/deadline_processor.py:100-126 | a queueing transaction holds the received jobs of a closed, non-manual RFP that nobody holds, waits for those another holds, and takes no others |
| IngestionLifecycle.FactsReadyIsBacked | app/jobs/deadline_processor.py:184-214 | no interleaving or stale count takes an RFP to facts_ready without a successful job |
| LateJobs.ReceivedOnlyWhileOpenOrClosed | app/jobs/deadline_processor.py:95-127 | if each drop and each assignment is one transaction, no received job is missed or left behind when an RFP moves on, over every run |
| LateJobs.GuardIff | app/jobs/ingestion_watcher.py:175-198 | at statement grain, whatever the step: it misses no received job if and only if an insert or assignment of a received job changes nothing or finds its RFP open, or closed with no queueing transaction past its jobs |
| LateJobs.NoneLeftBehindIff | app/jobs/deadline_processor.py:100-126 | the same over whole runs: none is missed at any point if and only if that guard held at every step |
| LateJobs.PassedOverIsLeftBehind | app/jobs/deadline_processor.py:108-126 | the commit of a queueing transaction leaves behind every received job it passed over |
| IngestionLifecycle.EventsHaveTheirType | app/jobs/deadline_processor.py:217-233 | over every run each logged event is of the type its RFP's mode calls for |
| Supersession.RunsStayChained | app/db/fact_store.py:685-705 | over every run without reassignment: each accepted submission but the vendor's newest is superseded by its direct successor, nothing else is, and in an open RFP the newest is received |
| Supersession.OneReceivedTheNewest | app/jobs/ingestion_watcher.py:175-198 | each (rfp, vendor) has at most one received job, the newest accepted one |
| Supersession.ChainEndsAtNewest | app/db/fact_store.py:685-705 | supersession links strictly increase insertion order, so chains are acyclic and end at the unsuperseded newest submission |
| Supersession.RedropChangesNothing | app/db/fact_store.py:539-581 | dropping content already in the folder changes no row, in any state |
| Supersession.AssignmentKeepsUniquenessIff | app/api/admin_routes.py:249-260 | after an assignment in an open RFP the vendor has two received jobs if and only if it had one before |
| DropRaces.SupersededIff | app/jobs/ingestion_watcher.py:175-198 | after any interleaving of the inserts and links of any number of drops, a drop's row is superseded if and only if another drop linked since its insert, and received otherwise |
| DropRaces.BothLostIff | app/db/fact_store.py:685-705 | over all orders of two drops' inserts and links: both rows are superseded, and the vendor has no received job left, if and only if both inserts precede both links |
| Supersession.LateInsertGetsStuck | app/jobs/ingestion_watcher.py:96-157 | an insert leaves an RFP stuck at once if and only if the content is new and the RFP already in processing with no flip under way |
| Supersession.SweptInsertGetsStuck | app/jobs/deadline_processor.py:108-126 | an insert into a closed RFP whose jobs an open queueing transaction has passed gets stuck when that commits, if and only if the content is new |
| Supersession.ReleasedIff | app/jobs/deadline_processor.py:95-127 | exactly which steps release a stuck RFP: the commit of a queueing transaction that saw all its received jobs, or a pending link of another drop that supersedes all of them |
| Supersession.StuckForever | app/jobs/deadline_processor.py:163-216 | at transaction grain, a run keeps an RFP stuck throughout if and only if none of its steps releases it; then it stays in processing and no event is logged for it |
| FactStore.Store.InsertRfp | app/db/fact_store.py:459-493 | the table gets the row with status open and the given deadline and mode, or nothing if the id exists |
| FactStore.Store.Invite | app/db/fact_store.py:496-516 | adds the invitation once, nothing else, and tells when the foreign key refuses it |
| FactStore.Store.MoveDeadline | app/db/fact_store.py:519-536 | sets the deadline alone and answers true, if and only if the RFP is there and open |
| FactStore.Store.EnqueueJob | app/db/fact_store.py:539-581 | inserts the row, as given and linked to nothing, under a fresh id, or answers none and changes nothing if some row has the same RFP, vendor and content |
| FactStore.Store.SupersedePriorReceived | app/db/fact_store.py:685-705 | the status and link of exactly the vendor's other received jobs change, and they are counted |
| IngestionWatcher.HandleDroppedFile | app/jobs/ingestion_watcher.py:96-157 | tables and answer for every drop, from the RFP's row and the invitations as they are: orphan, late, unattributed, duplicate or accepted |
| IngestionWatcher.IngestReceived | app/jobs/ingestion_watcher.py:175-198 | insert, then supersede the vendor's received jobs, or report a duplicate |
| IngestionWatcher.DropOutcome | app/jobs/ingestion_watcher.py:96-224 | a drop is accepted if and only if the RFP is open and not past its deadline, the vendor is invited and the content new; it adds at most one row, with the status answered; an accepted one supersedes exactly the vendor's received jobs and no other touches an existing row |
| IngestionWatcher.DropAnswer | app/jobs/ingestion_watcher.py:96-224 | which answer each drop gets: orphan without the RFP, late when it is not open or past its deadline, unattributed without an invited vendor, duplicate when the content is there, and accepted otherwise; and whether it left a row |
| IngestionWatcher.AssignAttribution | app/api/admin_routes.py:198-261 | tables and answer for every assignment, the refused ones included |
| IngestionWatcher.AssignOutcome | app/api/admin_routes.py:198-261 | which assignments succeed, from the job, the RFP, the invitation and the rows of that vendor; the job then has the vendor and is received while the RFP is open and queued otherwise, and nothing but the invitation changes beside it |
| IngestionWatcher.AcceptLateAddendum | app/api/admin_routes.py:269-293 | the status of exactly a job rejected as late becomes queued, and the answer says so |
| DeadlineTick.CloseExpiredRfps | app/jobs/deadline_processor.py:74-92 | on each row's own fields: closed if and only if it was open, its deadline is before now and its mode is not manual; deadline, mode and every other status stay; and as many as changed are counted |
| DeadlineTick.QueueReceivedJobs | app/jobs/deadline_processor.py:95-127 | for every closed non-manual RFP queues its received jobs and moves it to processing, nothing else |
| DeadlineTick.SweepAloneIsOneStep | app/jobs/deadline_processor.py:100-126 | the transaction's statements, one RFP after another, and its commit come to that when nobody comes between |
| DeadlineTick.ProcessJob | app/pipeline/ingestion_graph.py:89-137 | moves its own queued job to a terminal status and touches no other job |
| DeadlineTick.ProcessJobs | app/jobs/deadline_processor.py:142-151 | every queued job ends ready or failed as its outcome says, and each count is exact |
| DeadlineTick.WorkersDoNotInterfere | app/pipeline/ingestion_graph.py:143-225 | after any interleaving of the workers' claims and marks each job is where its own worker has got to |
| DeadlineTick.OverlapMakesNoDifference | app/jobs/deadline_processor.py:142-151 | workers run in parallel, in any interleaving, come to what `ProcessJobs` states |
| DeadlineTick.FinalizeCompletedRfps | app/jobs/deadline_processor.py:154-234 | flips exactly the RFPs in processing with no open and some successful job, logs one event each, reports as many events as flips |
| DeadlineTick.Tick | app/jobs/deadline_processor.py:54-68 | the whole tick as a function of the tables, and each count of its report from the rows before it: closed, queued, processed, failed, finalised and events |
| DeadlineTick.EmitAll | app/jobs/deadline_processor.py:215-234 | logs one event of the right type for each winner and counts them |
| DeadlineTick.TickOutcome | app/jobs/deadline_processor.py:54-68 | the row of every RFP after an undisturbed tick, from the fields before it: taken on if closed, or open with a deadline before now, and not manual; facts_ready if taken on, or in processing with no received job, while no job runs and one is ready or succeeds now |
| DeadlineTick.TickJobs | app/jobs/deadline_processor.py:54-68 | the row of every job after it: processed if and only if it was queued, or received for an RFP the tick takes on |
| DeadlineTick.OneTickIsEnough | app/jobs/deadline_processor.py:54-68 | with no job running, one tick takes an open RFP with a deadline before now and a mode other than manual all the way, if one of its jobs is ready or is processed with success |
| DeadlineTick.TickEvents | app/jobs/deadline_processor.py:203-234 | a tick logs one event per RFP it finalises, of the type its mode calls for, and none for any other |
| DeadlineTick.ManualIsSkipped | app/jobs/deadline_processor.py:74-92 | an open manual RFP and its received jobs are untouched by a tick |
| DeadlineTick.SecondTickChangesNothing | app/jobs/deadline_processor.py:54-68 | a second tick at the same instant changes nothing, whatever the agents answer |
| RateLimiting.RateLimiter.Acquire | app/infra/rate_limiter.py:31-46 | one call sleeps if and only if rpm stamps are younger than the window; the wait then ends window + 0.1 after the oldest of them; the deque keeps what is younger at the last reading, plus the grant |
| RateLimiting.RunsKeepInvariant | app/infra/rate_limiter.py:31-46 | over every run the deque is the tail of the grants, never longer than rpm, and what left it is a window older than the newest grant |
| RateLimiting.DequeSorted | app/infra/rate_limiter.py:31-46 | the deque is sorted after every run |
| RateLimiting.GrantsAreSpaced | app/infra/rate_limiter.py:31-46 | grant i+rpm comes at least one window after grant i |
| RateLimiting.WindowHoldsAtMostRpm | app/infra/rate_limiter.py:19-29 | no half-open window, wherever it starts, holds more than rpm grants |
| RateLimiting.SleepsOnlyWhenFull | app/infra/rate_limiter.py:38-41 | a call sleeps if and only if rpm grants lie within the last window, and asks for more than 0.1 and at most window + 0.1 |
| RateLimiting.BoundNeedsTheSleep | app/infra/rate_limiter.py:38-46 | with a full deque the bound survives the call if and only if the wake-up reading is a window past the oldest stamp |
| CircuitBreaking.CircuitBreaker.Enter | app/infra/circuit_breaker.py:23-41 | each answer exactly when, from state, flag and the time since the last failure, and every field after it |
| CircuitBreaking.CircuitBreaker.Succeed | app/infra/circuit_breaker.py:44-48 | closes and clears the breaker |
| CircuitBreaking.CircuitBreaker.Fail | app/infra/circuit_breaker.py:49-56 | counts, stamps, clears the in-flight flag, opens at the threshold |
| CircuitBreaking.StateFromHistory | app/infra/circuit_breaker.py:22-56 | after any history of overlapping calls: closed if and only if the trailing run of failures is shorter than the threshold; a probe is in flight if and only if half-open |
| CircuitBreaking.ClosedAdmits | app/infra/circuit_breaker.py:22-43 | after any history a call is admitted as no probe if and only if fewer than threshold completions failed in a row |
| CircuitBreaking.OpenAdmitsIff | app/infra/circuit_breaker.py:23-41 | once that run is full the answer depends on the last failure: rejected up to the timeout, then one probe, then rejected while it is out |
| CircuitBreaking.ThresholdMustBePositive | app/infra/circuit_breaker.py:13-20 | that characterisation holds if and only if the threshold is at least 1 |
| CircuitBreaking.HalfOpenAdmitsNobody | app/infra/circuit_breaker.py:37-41 | the branch that would admit a call in half-open is unreachable |
| CircuitBreaking.ProbesAreSpaced | app/infra/circuit_breaker.py:24-36 | in a success-free stretch successive probes are more than the recovery timeout apart |
| CircuitBreaking.LoneProbeStaysAlone | app/infra/circuit_breaker.py:19-19 | a probe admitted with nothing else running is the only call until it completes |
| CircuitBreaking.SecondProbeNeedsStraggler | app/infra/circuit_breaker.py:19-19 | two probes run together only if a call from before the first was still running |
| CircuitBreaking.OneProbeIff | app/infra/circuit_breaker.py:19-41 | from a probe on, in every well-formed chronological continuation it stays the only probe until it completes, if and only if no other call was running when it was let through |
| CircuitBreaking.StragglerAllowsTwoProbes | app/infra/circuit_breaker.py:19-19 | a reachable history in which two probes run at once |
| TenantStamp.PooledConnection.OnCheckout | app/db/session.py:114-125 | stamps unless the marker agrees, sets the marker only after the stamp succeeded |
| TenantStamp.PooledConnection.OnConnect | app/db/session.py:114-119 | a new physical connection starts clean and without a marker |
| TenantStamp.PooledConnection.ApplyOrgContext | app/db/session.py:66-96 | sets and commits the session variable, or leaves the committed value alone on a failure |
| TenantStamp.RunsStayInLockStep | app/db/session.py:66-96 | over every run of connects, checkouts, failed stamps, commits, rollbacks, SET LOCAL scopes and returns a present marker equals the committed variable |
| TenantStamp.BorrowerSeesItsOrg | app/db/session.py:114-125 | every query outside a SET LOCAL scope sees the org active at checkout |
| TenantStamp.LocalScopeEnds | app/db/session.py:114-125 | after commit or rollback a SET LOCAL scope no longer shows |
| TenantStamp.CachedRefinesAlwaysStamping | app/db/session.py:114-125 | after every run session and borrower are those of an implementation that stamps at every checkout |
| TenantStamp.StampMustCommit | app/db/session.py:66-96 | with the commit removed a borrower can read no tenant |
| TenantStamp.UncommittedStampIsLostIff | app/db/session.py:66-96 | over runs of that variant a borrower loses its org if and only if the last stamp was undone before any commit and another org was committed before it |
| SettingsCache.SettingsStore.Get | app/domain/org_settings.py:73-95 | returns the cached value if and only if it is younger than the time to live, otherwise the stored or default row, cached with the time read before the query |
| SettingsCache.SettingsStore.Invalidate | app/domain/org_settings.py:98-100 | whatever the clock says, the next read of the organisation comes from the table, and no other organisation's reads change |
| SettingsCache.SettingsStore.RecordAudits | app/domain/org_settings.py:140-149 | appends the audit rows of the write |
| SettingsCache.SettingsStore.Upsert | app/domain/org_settings.py:103-152 | row, audit trail, cache and result of a write, the refused write that leaves rows and trail alone, and that the result is the state to be written if and only if its two-decimal columns get two-decimal numbers |
| SettingsCache.PresetBeatsCaller | app/domain/org_settings.py:113-122 | every given field takes effect if and only if it does not disagree with the tier's preset |
| SettingsCache.NewStateIs | app/domain/org_settings.py:113-122 | every field of a write: the preset's value where the overlay applies, else the caller's, else the current one; unknown fields are not set |
| SettingsCache.DefaultsAre | app/domain/org_settings.py:53-70 | every field of the defaults: the environment's reranker, the tier, the preset's value, else the organisation default |
| SettingsCache.AuditsAreTheChanges | app/domain/org_settings.py:140-149 | a field is audited if and only if its rendered value changed, with both values |
| SettingsCache.StoredIsExact | app/db/schema.sql:588-627 | a stored number comes back unchanged if and only if it has at most two decimals |
| SettingsCache.StoredIs | app/db/schema.sql:588-627 | such a column keeps a multiple of a hundredth within half of one, every other column the value itself |
| SettingsRace.RunsKeepInvariant | app/domain/org_settings.py:73-100 | under every interleaving of readers, writers and invalidations each cached and fetched value held at or after the time it is stamped with |
| SettingsRace.ReaderStepsAre | app/domain/org_settings.py:73-95 | a reader answers from the cache if and only if the entry is younger than the time to live at its start, reads the row otherwise, and caches it under the reading of its start |
| SettingsRace.ReadsAreBoundedlyStale | app/domain/org_settings.py:73-95 | a value returned by a read started at t was the stored value at some instant after t minus the time to live |
| SettingsRace.InvalidationLastsIff | app/domain/org_settings.py:98-100 | after an invalidation every later reader returns the stored value in every continuation without a write, if and only if no reader holds another fetched value within its time to live |
| SettingsRace.InvalidationCanBeUndone | app/domain/org_settings.py:73-100 | a run that reaches such a reader and lets it put the old value back |
| TaskGraph.CycleDetector.HasCycle | app/agents/planner.py:190-207 | terminates; if it answers yes the node reaches a cycle; if no, the node is finished and the finish order lists dependencies first |
| TaskGraph.ValidatePlan | app/agents/planner.py:142-217 | the size and coverage errors, and after them a circular-dependency error naming the first task that reaches a cycle if and only if the map has one, unknown ids included |
| TaskGraph.ErrorsMean | app/agents/planner.py:150-188 | each of those errors exactly when: fewer than 5 tasks, more than 500, and the ids for which no task of the kind is called by the prefix and the id |
| TaskGraph.CoveredKeys | app/agents/planner.py:163-188 | the keys named by tasks of a kind after the prefix, both directions |
| TaskGraph.OrderedNodeIsSafe | app/agents/planner.py:190-215 | a node in a dependencies-first order reaches no cycle: what makes sharing one visited set sound |
| TaskGraph.LastTaskCounts | app/agents/planner.py:190-191 | of several tasks with one id the map has the last one's dependencies |
| TaskGraph.TopologicalOrderMeansAcyclic | app/agents/planner.py:190-215 | a complete finish order proves the map acyclic |
| TaskGraph.NamedTaskNeedNotBeOnCycle | app/agents/planner.py:208-215 | the task named in the error need not be on the cycle |
| TaskGraph.NamedIsAlwaysOnCycleIff | app/agents/planner.py:208-215 | for every order of the list the named task is on a cycle, if and only if every task that leads to a cycle lies on one |
| Planner.BuildPlan | app/agents/planner.py:36-123 | the loops build the five layers |
| Planner.PlanIsLayered | app/agents/planner.py:36-123 | every task of the plan in order, with its id, kind and dependencies: each depends on all tasks of the layer before |
| Planner.RunPlanner | app/agents/planner.py:11-139 | the critic approves if and only if there is a vendor and 2V+C+S+3 is at most 500, and blocks otherwise |
| Planner.PlanIsAcyclic | app/agents/planner.py:36-123 | every plan is acyclic, by stage, even with repeated ids |
| Planner.GuardrailVerdict | app/agents/planner.py:142-188 | for any non-empty vendor list the guardrail reports nothing if and only if 2V+C+S+3 is at most 500, and otherwise only the size |
| Planner.ExplainDependsOnAll | app/agents/planner.py:36-123 | with a check and a criterion every other task is a transitive dependency of task-explain |
| Planner.ExplainWaitsForEverything | app/agents/planner.py:36-123 | and that holds if and only if there is at least one of each |
| Critic.PlannerVerdict | app/agents/critic.py:54-96 | the planner critic approves or blocks, never escalates, and exactly when |
| Critic.EvaluationVerdict | app/agents/critic.py:332-391 | for any output: never escalated; blocked if and only if a contradicted check was nevertheless decided; approved if and only if there is no contradiction, no pass that is only implied and no variance of 2 or more |
| Critic.ComparatorVerdict | app/agents/critic.py:394-445 | escalated, blocked and approved, each exactly when |
| Critic.DecisionVerdict | app/agents/critic.py:448-492 | escalated, blocked and approved, each exactly when |
| Critic.VerdictOf | app/agents/critic.py:37-51 | escalated, hard and clean verdicts by what the flags contain |
| Voting.Normalise | app/agents/evaluation.py:230-236 | each of the three words is read as its status, any other text or value as insufficient evidence |
| Voting.Vote | app/agents/evaluation.py:281-309 | whichever largest tally entry is picked: the result carries the strict-majority decision or insufficient evidence, its agreement ratio, and the first most confident sample that voted for it; exactly when it raises |
| Voting.Decide | app/agents/evaluation.py:239-309 | in terms of the answers alone: no resampling unless voting is on with more than one sample and the first confidence, a half if absent, lies in the band; an answer that is not JSON then reads as insufficient evidence with confidence 0, no evidence and no contradictions; in a vote it counts for insufficient evidence; the decision, ratio and words of the record, and exactly when it raises |
| Voting.MajorityWins | app/agents/evaluation.py:286-289 | a decision with more than half the votes wins, and nothing else does except insufficient evidence |
| Voting.OtherWinnerIsAgreed | app/agents/evaluation.py:286-307 | any other winner has an agreement ratio above one half |
| Voting.OrderDoesNotMatter | app/agents/evaluation.py:281-309 | winner and ratio depend only on the collection of votes, and the representative reads back as the winner |
| Voting.SynthesisedMeansNobody | app/agents/evaluation.py:294-307 | the synthesised record stands for insufficient evidence with ratio zero |
| Compliance.EvaluateCheck | app/agents/evaluation.py:363-420 | from the fields of the answer and the passages: exactly when the check is dropped, and decision, confidence, reasoning, evidence, basis and contradictions of its record otherwise |
| Compliance.EvidenceInOrder | app/agents/evaluation.py:383-394 | the evidence found in the document is that of exactly the satisfying passages that quote any, in order |
| Compliance.WhenItPasses | app/agents/evaluation.py:363-401 | exactly when a check passes and fails, from the answer's decision and contradictions, the facts, the retry and the passages found; a contradicted one is insufficient evidence whatever the rest says |
| Compliance.VotedContradictionIff | app/agents/evaluation.py:294-309 | a voted check counts as contradicted if and only if its representative sample lists a contradiction |
| Compliance.EvaluateChecks | app/agents/evaluation.py:528-543 | one record for each check that does not raise, in order |
| Compliance.KeptInOrder | app/agents/evaluation.py:528-543 | exactly the checks that have a target and do not raise, in their order |
| Compliance.ContradictedEndsInsufficient | app/agents/evaluation.py:367-369 | no contradicted check of the agent's output is decided |
| Compliance.CriticNeverBlocksEvaluation | app/agents/critic.py:351-369 | the evaluation critic never raises a HARD flag on the agent's own output |
| Scoring.RawScore | app/agents/evaluation.py:487-487 | a raw score lies in 0..10 and is the truncated number where that fits |
| Scoring.AnswerMeans | app/agents/evaluation.py:429-505 | what each answer comes to: no evidence is no score, no JSON a zero with confidence 0, malformed numbers nothing, and others count with a score cut off to 0..10 if the confidence lies in 0..1 |
| Scoring.ScoresInOrder | app/agents/evaluation.py:557-576 | the scorecard has a score for exactly the criteria whose answer could be read, in their order |
| Scoring.ConfidenceIsMean | app/agents/evaluation.py:591-596 | the published confidence is the mean over the assessed criteria to three digits, and 0 without any |
| Scoring.LastWeightCounts | app/agents/evaluation.py:605-607 | of several criteria with one id the last one's weight counts |
| Scoring.ScoreVendor | app/agents/evaluation.py:557-617 | the loops compute the scorecard |
| Scoring.TotalIsNear | app/agents/evaluation.py:487-499 | the total is within 0.005 + 0.0005 n of the exact weighted sum, n criteria scored |
| Scoring.CoverageIsShare | app/agents/evaluation.py:602-614 | with distinct ids coverage is the assessed share of the weight to four digits, between 0 and 1 |
| Scoring.CoverageIsRefusedIff | app/agents/evaluation.py:602-614 | the published coverage exceeds 1 if and only if the weight looked up for scored criteria exceeds 1.00005 times the weight of the distinct ids |
| Scoring.SetupCanBeRefusedIff | app/schemas/schema_evaluation.py:80-97 | some answers make the output type refuse a setup's coverage if and only if its criteria weigh more than 1.00005 times its distinct ids; never with distinct ids |
| Scoring.AssessedExceedsTotalIff | app/agents/evaluation.py:602-611 | before rounding, with every criterion scored, the assessed weight exceeds the total if and only if an id repeats |
| Scoring.NormalisingOnlyRaises | app/agents/evaluation.py:615-617 | full coverage: normalised equals total; positive coverage: never below it; none: zero |
| Scoring.MeanBetween | app/agents/evaluation.py:591-617 | the weighted mean over assessed criteria lies between their lowest and highest raw score |
| Scoring.UnroundedIsMean | app/agents/evaluation.py:591-617 | the unrounded projection of the total over the coverage is that mean times the sum of all weights, and nothing else is |
| Scoring.NormalisedIsNearMean | app/agents/evaluation.py:591-617 | for any weight sum W the published normalised score is within 0.005 + (0.005 + 0.0005 n + 0.0005 W)/coverage of that projection |
| Scoring.AcceptedSetupIsNearMean | app/schemas/schema_setup.py:44-71 | for every accepted setup it is within 0.105 + (0.005505 + 0.0005 n)/coverage of the plain mean |
| Scoring.OutputIsWithinBounds | app/schemas/schema_evaluation.py:80-97 | coverage and average confidence meet the output type's bounds |
| Ranking.RankingIsSound | app/agents/comparator.py:199-206 | the ranking is a permutation of the evaluated requested vendors by falling normalised score, ties in order of evaluation |
| Ranking.CriticOnRanking | app/agents/critic.py:394-445 | the critic escalates the ranking if and only if a requested vendor has no evaluation, and blocks only an empty request |
| Ranking.RankMargins | app/agents/comparator.py:221-229 | the loop's margin for each ranked vendor |
| Ranking.MarginIsGap | app/agents/comparator.py:221-229 | a margin is the gap to the vendor above rounded to four digits, exact where the gap has no more, and 0 for the first |
| Ranking.MarginsTelescope | app/agents/comparator.py:221-229 | margins are nonnegative, equal the gaps exactly and sum to top minus bottom |
| Ranking.ScoresAreHundredths | app/agents/evaluation.py:615-617 | published scores have two decimals, which makes the margins exact |
| Ranking.RankIsStable | app/agents/comparator.py:39-48 | comparing sorted neighbours finds instability if and only if some two scores are closer than the threshold |
| Governance.Recommend | app/agents/decision.py:86-97 | the label of a band the score meets with no higher one met, "marginal" if it meets none |
| Governance.ReachedIsBest | app/agents/decision.py:86-97 | no band the score meets has a higher minimum than the one reached |
| Governance.PositionNeverImproves | app/agents/decision.py:86-97 | for any table a lower score never reaches a better position |
| Governance.LabelsNeverImproveIff | app/agents/decision.py:86-97 | for scores from zero up a lower score never gets a better label if and only if "marginal" is absent, lowest, or never needed |
| Governance.RouteToTier | app/agents/decision.py:27-48 | the smallest tier that covers the value, a tier without bound only if no other does, or the largest if none does; none for an empty table |
| Decision.RejectingDecisions | app/agents/decision.py:51-83 | the rejecting subset in order |
| Decision.RejectedIff | app/agents/decision.py:51-83 | rejected if and only if some check FAILs, or evidence is missing and nothing is contradicted |
| Decision.ContradictedVendorNeedsFail | app/agents/decision.py:51-83 | with any contradiction exactly the FAILs reject, and on the agent's output those carry none |
| Decision.NoticeIsGrounded | app/agents/decision.py:100-152 | whatever the model answers, a notice names exactly the rejecting decisions, in order, each with its reasoning or a sentence of its own; it cites all their evidence, without any the model's answer, and without that the first three reasons |
| Decision.Split | app/agents/decision.py:168-178 | the loop's rejected notices and shortlisted vendors |
| Decision.SplitIsPartition | app/agents/decision.py:168-178 | rejected and shortlisted vendors partition the evaluated ones |
| Decision.NoticesInOrder | app/agents/decision.py:168-178 | the notices stand in the order of the evaluations |
| Decision.ShortlistedInOrder | app/agents/decision.py:168-178 | and so do the vendors to be shortlisted, before they are sorted |
| Decision.RunDecision | app/agents/decision.py:155-265 | for any input: review is required if and only if every evaluated vendor, at least one, is rejected, or a shortlisted one has a check left with insufficient evidence, a criterion not scored, or low coverage; the reasons list exactly those checks and criteria; each entry has the vendor's scores and the best label its normalised score meets; routing and escalation |
| Decision.ShortlistHolds | app/agents/decision.py:180-185 | the shortlist is a permutation of the vendors not rejected |
| Decision.OrderIsByRanking | app/agents/decision.py:180-185 | ranked vendors stand in the order of the ranking, one that is not ranked as if at place 999 |
| Decision.ShortlistFallsIff | app/agents/decision.py:180-185 | scores fall down the shortlist for every scoring if and only if every shortlisted vendor was requested or there is at most one |
| Decision.BandsFallDownTheShortlist | app/agents/decision.py:187-241 | scores, bands and (for a sound table) labels never improve down the shortlist |
| Decision.CriticOnDecision | app/agents/critic.py:448-492 | on the agent's own output the critic never blocks and escalates if and only if every evaluated vendor is rejected |
| CriteriaMerge.MergeCriteria | app/domain/criteria.py:329-534 | each published item is one of its source's list, in that list's order: checks with its name, what-passes text, target, lock and page; criteria with its name, lock, page, bands (blank ones filled from the RFP) and its weight as given if the weights come to 1 within 0.01, else as a rounded share; targets and total weight, the empty case included |
| CriteriaMerge.BuildTargets | app/domain/criteria.py:661-696 | one target for each check with its target id, what-passes text and id, then one for each criterion with its derived id and name |
| CriteriaMerge.MergedChecksInvariant | app/domain/criteria.py:344-460 | checks are ordered by priority, the organisation's come first and complete, and beyond them every normalised name is new |
| CriteriaMerge.MergedCriteriaInvariant | app/domain/criteria.py:344-478 | the same for scoring criteria |
| CriteriaMerge.NoCheckIsLost | app/domain/criteria.py:344-460 | every item of every list that gives a check is in the result with its fields, or shares its normalised name with a kept one of equal or higher priority; the organisation's are always there |
| CriteriaMerge.NoCriterionIsLost | app/domain/criteria.py:344-478 | the same for scoring criteria |
| CriteriaMerge.DuplicatesAreOrg | app/domain/criteria.py:351-372 | only the organisation can have two checks of one normalised name |
| CriteriaMerge.CriterionDuplicatesAreOrg | app/domain/criteria.py:351-384 | the same for scoring criteria |
| CriteriaMerge.BandsAreOnlyFilled | app/domain/criteria.py:480-499 | each band in terms of the inputs: non-blank ones stay, blank ones come from the last RFP criterion of the same normalised name, none change without one; the criterion says when one was filled |
| CriteriaMerge.ReferencedTargetsExist | app/domain/criteria.py:519-523 | every extraction target referred to is among the targets and feeds what refers to it |
| CriteriaMerge.MergedWeights | app/domain/criteria.py:510-518 | the published weights, one by one and in sum, are the recomputed ones |
| CriteriaMerge.FinalWeightsSumToOne | app/domain/criteria.py:510-518 | weights sum to 1 within 0.01 when passed through, within 0.0005 n when recomputed |
| CriteriaMerge.MergeFitsIff | app/schemas/schema_setup.py:29-71 | exactly which input weights merge into a setup the types accept (a total weight, each weight in (0, 1], sum in 0.99 to 1.01), passed through or recomputed; none at all do not |
| CriteriaMerge.FewMergesFitIff | app/schemas/schema_setup.py:29-71 | with up to 22 criteria recomputed weights are accepted if and only if each share exceeds half a thousandth |
| CriteriaMerge.EvenMergeFitsIff | app/domain/criteria.py:510-514 | criteria without weights: accepted if and only if n times the rounded thousandths of 1/n lies in 990 to 1010 |
| CriteriaMerge.SumFitsIff | app/schemas/schema_setup.py:60-71 | the bound on the sum alone: met whatever the weights if and only if n is at most 22 |
| AuthState.Store.CreateOnetimeToken | app/auth/tokens.py:45-106 | the new row as given, unused and expiring ttl from now, with exactly the unused tokens of the purpose and address stamped, or nothing changed if the hash exists |
| AuthState.Store.ConsumeToken | app/auth/tokens.py:109-136 | on the row's fields: answers the payload if and only if the token is there, has the purpose, is unused and expires after now; then its time of use is the only change, otherwise nothing changes |
| AuthState.Store.Accept | app/api/auth_routes.py:425-455 | answers a user if and only if the token is an unused, unexpired invitation and nobody has its address; then that user exists with the password and the token is spent, otherwise nothing changes |
| AuthState.Store.Reset | app/api/auth_routes.py:503-516 | succeeds if and only if the token is an unused, unexpired reset token; then it is spent, its user has the new password and exactly that user's unrevoked sessions are revoked, otherwise nothing changes |
| AuthState.Store.Issue | app/auth/sessions.py:22-41 | inserts the session unless its id exists |
| AuthState.Store.SessionIsActive | app/auth/sessions.py:44-59 | true if and only if the row is there, not revoked and expires after now |
| AuthState.Store.RevokeSession | app/auth/sessions.py:62-73 | stamps one unrevoked session |
| AuthState.Store.RevokeUserSessions | app/auth/sessions.py:76-90 | stamps exactly the user's unrevoked sessions and counts them |
| AuthState.Store.PurgeExpiredSessions | app/auth/sessions.py:93-98 | deletes exactly the expired rows and counts them |
| AuthState.TokensAreSingleUse | app/auth/tokens.py:71-136 | over every run at most one unused token per purpose and address, and each token is redeemed at most once |
| AuthState.RedeemedInTime | app/auth/tokens.py:109-136 | over every run a redeemed token was unused and its expiry still to come when the invitation was accepted, or when the reset began that was then committed |
| AuthState.LinkIsMadeIff | app/api/auth_routes.py:396-410 | an invitation is made if and only if nobody has the address, a reset link if and only if the account exists, each with its fields |
| AuthState.ResetBeginsIff | app/auth/tokens.py:118-134 | a reset begins if and only if its token is an unused, unexpired reset token and no other reset of the user is open |
| AuthState.LoginPassesIff | app/api/auth_routes.py:244-268 | a login passes its check if and only if it has the password the user's row holds |
| AuthState.RefusedInviteStaysUnspent | app/api/auth_routes.py:431-455 | a redeemable invitation is still redeemable afterwards if and only if the address was taken |
| TokenRaces.LiveIff | app/auth/tokens.py:71-105 | after any interleaving of the statements and commits of any number of creations a token is live if and only if no UPDATE started after its COMMIT |
| TokenRaces.OverlappingCreationsLeaveTwo | app/auth/tokens.py:58-105 | over all orders of two creations two links are live at the end if and only if each UPDATE starts before the other's COMMIT |
| TokenRaces.AloneItIsOneStep | app/auth/tokens.py:71-105 | with nobody in between the statements come to the creation as one step |
| AuthState.EndedStaysEnded | app/auth/sessions.py:44-90 | a session that has ended is never active again, over every run with fresh ids |
| AuthState.ResetEndsSessions | app/api/auth_routes.py:507-516 | the commit of a reset ends every session of its user that the revocation could see, for good, and no other |
| AuthState.ResetAloneIsOneStep | app/api/auth_routes.py:507-516 | with nobody in between, revocation and commit come to the reset as one step |
| Logins.ActiveAfterReset | app/api/auth_routes.py:503-516 | whatever happens inside and after a reset, an active session of the user was registered after the revocation, by a login checked after it or pending as it ran |
| Logins.SessionsReadTheNewPassword | app/api/auth_routes.py:244-268 | until the next reset, every session from a check made after this one's commit read the new password |
| Logins.LateLoginSurvivesReset | app/api/auth_routes.py:74-86 | a login pending at the commit can still register an active session from its old check |
| Logins.UnseenSurvivesReset | app/auth/sessions.py:76-90 | a session registered between the revocation and the commit stays active |
| Logins.InsideLoginSurvives | app/api/auth_routes.py:244-268 | a login that checks the old password and registers between the two always gets past the reset, with none pending at either end |
| Logins.CommitIsCompleteIff | app/api/auth_routes.py:507-516 | no continuation has an active session of the user from a check made before the commit if and only if none of the user's logins is pending at it and no active session was registered since the revocation |
| Logins.ResetIsCompleteIff | app/api/auth_routes.py:503-516 | whatever else happens between revocation and commit, as long as no login of the user passes its check there, the reset is complete if and only if none was pending at the revocation |
| AuthState.PurgingIsInvisible | app/auth/sessions.py:93-98 | at the end of every later run each `session_is_active` answer and every other table is what it would have been without the purge |

## Left out

- Calls to language models, embeddings, retrieval, document parsing: their answers are arbitrary inputs.
- Answers that are NaN or infinite, and floating-point representation error: numbers are exact. Where a bound is met with equality (22 criteria) the floating-point program may differ in the last digit.
- HTTP routing, organisation and role checks of the routes, Row-Level Security policies: only the effects on tables and on the session variable are modelled.
- The administrator's call that marks an RFP facts_ready outside the tick, and the later move to evaluated.
- Python's recursion limit: `validate_plan` raises on dependency chains of about a thousand tasks, since the size error does not stop the search.
- Which of two statements that wait for the same row lock goes first, and deadlocks between overlapping ticks.
- Process crashes inside a transaction, SAVEPOINTs, and a commit whose acknowledgement is lost.
- The scoping of the ContextVar behind `org_context`: the org active at a checkout is an input.
- Retry back-off and the metrics table around the rate limiter; calls that leave the breaker by something other than `Exception`.
- The tenant's CHECK constraints are a parameter of SettingsCache; rows are opaque numbers in SettingsRace.
- Texts of flags and review reasons are constructors; a vendor name that itself contains "insufficient evidence" or "escalate" is not modelled.
- Accounts switched inactive, and the route that founds an organisation with its first user.
- Payload columns of a token (organisation, role, department), and `_email_taken` racing two acceptances, where the table's unique address decides.
- Descriptions of checks and other text that is copied along unread.
- Deleting users or organisations, which removes their tokens and sessions.
- Per-criterion comparison rows and relative positions of the comparator; overall compliance; they would add easy members.
- `detect_and_fill_gaps` and the extraction of criteria from sheets and RFP texts.
- Decision.RunDecision: the deadline computed from the tier's hours and the vendor names are left out.
