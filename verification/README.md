# Lake control plane: verified model

This Dafny project models the control plane of a lake of Lance datasets and proves what it promises. It
covers the worker and queue protocol, the tenant filter that rewrites SQL, the life of index rows with the
watcher that drives it, the lifecycle planner, the cache of signing keys, and the reconciliation with
Gravitino.

`dafny verify dfyconfig.toml` checks everything.

## How it is laid out

- `Database.dfy`: the rows of the tables, and the `Session` through which calls read and reassign them.
- `Keys.dfy`: idempotency keys; when two spellings are equal and how long they get.
- `Dispatch.dfy`: what each call of the queue protocol does to the rows. `SchedulerService.dfy` and
  `TaskService.dfy` hold the calls themselves. `DispatchInvariants.dfy`, `DispatchHistory.dfy`,
  `TaskHistory.dfy`, `DispatchOrder.dfy` and `DispatchLimits.dfy` prove what holds in every reachable state
  and over whole runs. `WorkerHistory.dfy` and `TaskColumns.dfy` read every column of a worker and a task row off
  the calls of the run.
- `RowLevelSecurity.dfy`: statements over join trees, the rewrite, and what a statement means on a database.
  `RlsProofs.dfy`, `RlsJoins.dfy` and `RlsTheorems.dfy` relate the rewritten statement to the original on one
  tenant's slice.
- `IndexLifecycle.dfy`, `IndexService.dfy`, `WorkerService.dfy`, `IndexWatcher.dfy`: index rows, the calls
  that move them and the worker that finalizes. `IndexInvariants.dfy` holds the events of the whole fleet, and
  `IndexCalls.dfy` says by the columns what they may do.
  `IndexStranding.dfy` says exactly which event strands a row, and `IndexRuns.dfy` what that means for the row's
  future, with runs. `OptimizeLoop.dfy` and `OptimizeOnce.dfy` bound what watcher and optimizer do to each other,
  and `OptimizeBound.dfy` shows the bounds to be exact.
- `Planner.dfy`, `PlannerTheorems.dfy`: one tick, and any run of ticks among other calls. `PlannerRows.dfy`: who
  asked for each row, by the columns of policies, rules and indexes.
- `JwksCache.dfy`: the coroutines that share the cache of signing keys.
- `MetaSync.dfy`, `MetaSyncTheorems.dfy`: reconciliation with Gravitino's filesets. `MetaSyncRows.dfy`: its rows
  and its report, by the columns and Gravitino's answers.

A service call is a method on a session, proved equal to a function from the rows before to the rows after.
The theorems are about those functions, and about sequences of calls. What a function makes of the rows is stated
once more without it, by the columns: see the rows of `WorkerHistory`, `TaskColumns`, `IndexCalls`, `PlannerRows`
and `MetaSyncRows` below.

## Assumptions

- Each service call is one atomic step on committed rows. A worker's iteration is several: the claim, the
  executor's run and the finalization, with anything in between.
- Uuids and row ids handed out are new. Where a theorem needs it, it says so.
- Worker capacity is at least zero and `max_attempts` at least one; where a theorem needs a non-empty worker
  id it says so, and the effect of an empty one is proved.
- A principal without the system flag sees its tenant's rows; scheduler, planner, watcher and worker run as
  the system, and a reconciliation runs under a principal that sees the rows of its tenant.
- Lance, object storage, Gravitino and the identity provider are parameters: a version, a row count, a
  success or a failure.

## Where the code differs from what it says

Each point is proved, with the exact condition or an input that shows it.

- A join filter is said to be correct for every join. It is, exactly when no outer join of the tree can extend a
  protected table with NULLs; otherwise the rewritten query loses rows of the tenant that have no partner
  (`RewriteExactOnTreeIff`, `OuterJoinLosesUnmatchedRows`).
- An UPDATE that assigns tenant_id passes the hook and hands the tenant's rows to another tenant; this is the
  only way an UPDATE or DELETE reaches another tenant's slice (`WriteOnSlice`,
  `TenantUpdateHandsOver`).
- A scoped idempotency key is said never to collide across tenants. Two tenants' keys can, exactly when one tenant
  id followed by a colon is a prefix of the other (`ScopedKeysSeparate`, `ScopedKeysEqualIff`,
  `ScopedKeysCanCollide`).
- A comment says that a retry resets an exhausted row. It does not: a retry that reaches the limit is never
  dispatched (`RetryDispatchableIff`, `WaitingAtLimitStaysWaiting`, `RetryAtLimit`).
- Registering again zeroes the counter but leaves the RUNNING rows, so a worker can run more than its capacity
  (`ReregisteringOvercommits`; `ExactSlots` for all other runs).
- A cancel gives no slot back to a worker with an empty id (`EmptyWorkerIdLosesSlot`). This is an input of the
  service call alone: the worker's command line replaces an empty id before it registers.
- An index row flipped to OPTIMIZING or BUILDING is promised a worker. It waits for good after a cancel of its last
  task that can run, after the failure of that task's last attempt, after a reap of one whose attempts are used
  up, and when its submission replays a task that cannot run (`StrandsIff`, `StrandedUntilHelped`; runs in
  `CancelStrands`, `SecondFailureStrands`, `SecondOptimizeStrands`, `TakenKeyStrandsCreate`).
- The key of an optimize is said to be fresh for a second optimize. It is not within one clock reading
  (`SecondOptimizeAtSameTime`).
- The watcher and the executor are said not to trigger each other. Seen from a moment when the index is READY and
  nothing runs on its dataset, with only the watcher adding tasks from then on, that holds if and only if no
  optimize task of the dataset can still run at that moment; a single one, whoever added it, can make the loop
  feed itself for good (`NoSelfTriggeringIff`, `ForeignTaskFeedsLoop`; such a moment in `BesideForeign`).
- DROPPED is called terminal, but a finished INDEX_BUILD run takes a row out of it (`DroppedRowLeavesIff`,
  `DroppedRowReturns`).
- `last_run_at` is said to be recorded whatever happens. It is not when nothing was due (`PlanOnce`,
  `StampNotRecorded`).
- The planner's VECTORIZE key is per policy, not per rule: rules share one row an hour (`PolicyKeysEqualIff`,
  `OneVectorizeRowPerHour`).
- The delta-threshold key can exceed its 128-character column (`AutoOptimizeKeyLength`, `OverlongDeltaKey`).
- The watcher is said to take the first watching policy of a dataset. It takes all of them, and a second
  policy can emit again in the same pass (`SecondPolicyEmitsIff`, `TwoPoliciesEmitTwice`); a second pass is quiet
  all the same (`SecondPassEmitsNothing`).
- A dry run of the reconciliation counts a name that is listed twice two times (`DryRunForetellsIff`,
  `DryRunCountsTwice`).

## Model

| member | source | states |
|---|---|---|
| SchedulerService.RegisterWorker | src/lcp/services/scheduler_service.py:128-200 | the whole new state: the row is inserted or overwritten with a fresh lease, in_flight 0 and ALIVE; no task row changes |
| SchedulerService.Heartbeat | src/lcp/services/scheduler_service.py:203-230 | unknown workers and stale leases are refused; last_heartbeat_at is stamped, a DEAD worker becomes ALIVE and any other status stays; which heartbeat that column shows over a run is in HeartbeatIsLastHeard |
| SchedulerService.DrainWorker | src/lcp/services/scheduler_service.py:233-256 | anything but DEAD becomes DRAINING; no other row changes |
| SchedulerService.ClaimNextTask | src/lcp/services/scheduler_service.py:264-330 | picks a row that the ordered query limited to one may return when it skips locked rows, and changes the worker row and that row together; nothing changes when the worker is not ALIVE, is full, or nothing unlocked is dispatchable; by the columns in ClaimTakesMostUrgent and ClaimServedIff |
| SchedulerService.FirstExists | src/lcp/services/scheduler_service.py:300-309 | among any dispatchable rows one comes before all others in (priority, created_at) |
| SchedulerService.DecrementInFlight | src/lcp/services/scheduler_service.py:502-521 | one slot is given back, never below zero, and an unregistered worker is ignored |
| SchedulerService.CompleteTask | src/lcp/services/scheduler_service.py:333-366 | only the owner of a RUNNING row finishes it; row and counter change together, a refusal changes nothing |
| SchedulerService.FailTask | src/lcp/services/scheduler_service.py:369-403 | as CompleteTask, ending FAILED with the error recorded |
| SchedulerService.RequeueTasksOf | src/lcp/services/scheduler_service.py:453-465 | exactly the RUNNING rows of one worker go back to PENDING without owner, each listed once |
| SchedulerService.ReapDeadWorkers | src/lcp/services/scheduler_service.py:411-473 | the nested loops, in any row order, bury exactly the stale unlocked workers, requeue exactly the RUNNING rows they own, and list each of both once |
| TaskService.SubmitTask | src/lcp/services/task_service.py:70-146 | replay of a visible holder of the scoped key, refusal when the holder is invisible, or one new PENDING row of the caller's tenant |
| TaskService.CancelTask | src/lcp/services/task_service.py:215-245 | idempotent on CANCELLED, refused on other terminal rows, gives the slot of a RUNNING row back |
| TaskService.RetryTask | src/lcp/services/task_service.py:248-273 | only a FAILED row below its limit becomes PENDING again, with attempt one higher and errors cleared |
| DispatchInvariants.RunningStep | src/lcp/services/scheduler_service.py:317-326 | what each call does to the set of RUNNING rows a worker owns |
| DispatchInvariants.GapStep | src/lcp/services/scheduler_service.py:156-167 | counter and real load move together; only a registration, or a slot given back at zero, moves one of them |
| DispatchInvariants.SlotsStep | src/lcp/services/scheduler_service.py:288-292 | every call keeps 0 <= in_flight <= min(capacity, RUNNING rows owned) |
| DispatchInvariants.TaskStep | src/lcp/services/scheduler_service.py:300-324 | every call keeps a RUNNING row owned by a registered worker that is not DEAD, and attempt within its bounds |
| DispatchInvariants.KeysStep | src/lcp/services/task_service.py:103-142 | every call keeps the idempotency keys unique |
| DispatchInvariants.SoundStep | src/lcp/services/scheduler_service.py:128-521 | all of these are kept by every call |
| DispatchHistory.ReachableSound | src/lcp/services/scheduler_service.py:128-521 | they hold in every state that any interleaving of calls can reach |
| DispatchHistory.ExactSlots | src/lcp/services/scheduler_service.py:447-469 | along every run in which the worker never registers while it owns RUNNING rows, in_flight equals the number of RUNNING rows it owns, and so never more than its capacity run |
| TaskHistory.RowStep | src/lcp/services/scheduler_service.py:317-324 | the only changes a call can make to a task row, named by effect, with owner, status and attempt before and after |
| TaskHistory.OwnedSinceClaim | src/lcp/services/scheduler_service.py:320-326 | an owned row was last claimed by its owner and has not changed since that claim |
| TaskHistory.FinishMatchesLatestClaim | src/lcp/services/scheduler_service.py:348-361 | every successful complete or fail is matched by the latest claim, made by the caller, with nothing touching the row in between |
| TaskHistory.FinishAfterLossNeedsNewClaim | src/lcp/services/scheduler_service.py:461-465 | a worker that lost a row, to the reaper or otherwise, finishes it later only after claiming it again |
| TaskHistory.FlowConservation | src/lcp/services/task_service.py:237-243 | claims = completions + failures + cancels while RUNNING + requeues + (1 if RUNNING now), in every run |
| TaskHistory.AttemptAccounting | src/lcp/services/task_service.py:261-266 | attempt is the number of retries, plus one once dispatched; every failure but the current one was retried |
| TaskHistory.NthFailureAtAttemptN | src/lcp/services/scheduler_service.py:395-398 | the n-th failure happens at attempt n, so failures happen at strictly larger attempts |
| TaskHistory.DispatchedBelowLimit | src/lcp/services/scheduler_service.py:302-305 | a dispatched or failed row is at its first attempt or still below max_attempts |
| TaskHistory.AttemptInBudget | src/lcp/services/scheduler_service.py:323-324 | attempt never exceeds max_attempts, given max_attempts at least 1 |
| TaskHistory.RetryBudget | src/lcp/services/task_service.py:256-270 | with any number of reaps and retries a row fails at most max(1, max_attempts - 1) times |
| TaskHistory.RemainingStep | src/lcp/services/scheduler_service.py:317-324 | every effective claim, complete, fail, cancel and retry strictly decreases 3 * (max_attempts - attempt) plus a status rank; a requeue adds one |
| TaskHistory.EffectiveCallsBounded | src/lcp/services/scheduler_service.py:300-324 | a row goes through at most 3 * max_attempts + 3 effective calls, plus one for each requeue |
| TaskHistory.TerminalIsAbsorbing | src/lcp/services/task_service.py:231-236 | a SUCCEEDED or CANCELLED row is never changed again by any call |
| TaskHistory.RetryDispatchableIff | src/lcp/services/task_service.py:261-266 | an accepted retry is dispatchable if and only if attempt + 1 is still below max_attempts |
| TaskHistory.WaitingAtLimitStaysWaiting | src/lcp/services/scheduler_service.py:297-305 | a waiting row at its limit is never dispatched; nothing but a cancel touches it any more |
| DispatchOrder.ClaimTakesMostUrgent | src/lcp/services/scheduler_service.py:300-313 | in every run, when a claim hands out a row, that row was unlocked, PENDING or QUEUED, of the requested type and below max_attempts, and every other such row has a priority number no lower, and at the same number a created_at no earlier |
| DispatchOrder.ClaimServedIff | src/lcp/services/scheduler_service.py:282-315 | a claim hands something out if and only if its worker is registered under this lease, ALIVE and below capacity, and some unlocked row waits for it; it is refused if and only if worker or lease is unknown |
| DispatchOrder.IterationStep | src/lcp/services/scheduler_service.py:333-366 | claiming and finishing ends one row for good, frees the slot and leaves every other row alone |
| DispatchOrder.WorksInOrder | src/lcp/services/scheduler_service.py:300-330 | a worker that claims and finishes over a fixed queue goes through distinct eligible rows in dispatch order, and through all of them once a claim finds nothing |
| DispatchOrder.WorksByUrgency | src/lcp/services/scheduler_service.py:300-309 | by the columns: an earlier row of that sequence has the lower priority number, or the same and a created_at no later |
| DispatchOrder.OverlappingClaimsDisjoint | src/lcp/services/scheduler_service.py:300-309 | with the locking query and the commit as separate steps, open claims hold different rows, each still waiting with budget left |
| DispatchOrder.CommitIsClaimCall | src/lcp/services/scheduler_service.py:300-328 | the commit of an overlapping claim is a claim call of the protocol with the skipped rows counted as locked, so the results over runs cover overlapping claims |
| DispatchOrder.NeverDispatchedTwice | src/lcp/services/scheduler_service.py:317-328 | in every interleaving of overlapping claims a row that one claim dispatched is dispatched again only after some call has made it wait again |
| DispatchLimits.ReapLeavesLiveOwners | src/lcp/services/scheduler_service.py:425-473 | right after a reap every RUNNING row's owner is registered, not DEAD and heard of since the cutoff (or locked by another reaper), and a buried worker owns nothing |
| DispatchLimits.NoOrphans | src/lcp/services/scheduler_service.py:453-469 | in every reachable state the owner of a RUNNING row is registered and not DEAD |
| DispatchLimits.LeaseIsLatest | src/lcp/services/scheduler_service.py:148-165 | a worker's lease is the one its latest registration in the run handed out |
| DispatchLimits.OldLeaseRefused | src/lcp/services/scheduler_service.py:219-222 | a heartbeat or claim under any other lease is refused and changes nothing |
| WorkerHistory.RegistrationIsLatest | src/lcp/services/scheduler_service.py:148-178 | in every run type, lease and capacity of a worker are those of its latest registration |
| WorkerHistory.HeartbeatIsLastHeard | src/lcp/services/scheduler_service.py:203-230 | in every run last_heartbeat_at is the time of the latest registration, or of a later heartbeat under the lease then current, and the status is what registrations, heartbeats, drains and reaps of the run make it |
| WorkerHistory.ReapedIff | src/lcp/services/scheduler_service.py:425-473 | a reap buries a registered worker if and only if the run last heard of it before the cutoff, nobody else holds its row and it is not DEAD; every other worker keeps its row |
| WorkerHistory.ReapRequeuesIff | src/lcp/services/scheduler_service.py:444-466 | a RUNNING row goes back to PENDING, owner and start cleared, if and only if its owner was last heard of before the cutoff and is not locked |
| WorkerHistory.DrainedWorkerGetsNothing | src/lcp/services/scheduler_service.py:233-256 | a drained worker is handed nothing, heartbeats or not, until it registers again or is reaped |
| WorkerHistory.ReapedWorkerGetsNothing | src/lcp/services/scheduler_service.py:288-290 | a reaped worker is handed nothing until it registers again or sends a heartbeat |
| TaskColumns.RowIsItsSubmission | src/lcp/services/task_service.py:97-125 | every row of every run was inserted by one submission and still carries its type, dataset, priority, limit, parameters, tenant, time and scoped key |
| TaskColumns.ColumnsAlwaysAgree | src/lcp/services/scheduler_service.py:333-408 | in every reachable state owner, start, finish, error and result of a row agree with its status: no retry or reap leaves an old one behind |
| TaskColumns.RowIsItsLastCall | src/lcp/services/scheduler_service.py:264-408 | a row is what one call of the run made of it, unchanged since, and shows that call's worker, time, result or error |
| TaskColumns.TenantCallsStayHome | src/lcp/services/task_service.py:215-273 | a submission, cancel or retry of another tenant changes nothing about a row, and what it inserts is its own |
| TaskColumns.RetryAnswers | src/lcp/services/task_service.py:248-273 | a retry is answered TaskNotFound if and only if the caller cannot see such a row, and accepted if and only if the row is FAILED below its limit; it then waits again, and otherwise nothing changes |
| TaskColumns.CancelAnswers | src/lcp/services/task_service.py:215-245 | a cancel is answered TaskNotFound if and only if the caller cannot see such a row, and accepted if and only if the row is unfinished or CANCELLED already |
| DispatchLimits.ReplayReturnsFirst | src/lcp/services/task_service.py:103-113 | after any further run a submission under a used key returns the first row and inserts nothing |
| DispatchLimits.SubmitRefusedIff | src/lcp/services/task_service.py:129-142 | a submission is refused if and only if a row the caller cannot see holds the scoped key |
| DispatchLimits.ScopedKeysEqualIff | src/lcp/services/task_service.py:95-101 | two tenants' keys are stored as one if and only if one tenant id is the other, a colon and a rest, and the shorter tenant's key is that rest, a colon and the longer one's key |
| DispatchLimits.ScopedKeysSeparate | src/lcp/services/task_service.py:86-91 | no keys of two tenants collide if and only if neither tenant id followed by a colon is a prefix of the other id |
| DispatchLimits.SameKeyTwoTenants | src/lcp/services/task_service.py:86-91 | the same key under two tenants is always two keys |
| DispatchLimits.ScopedKeysCanCollide | src/lcp/services/task_service.py:86-91 | a run in which the second of two such tenants is refused, against what the documentation says |
| DispatchLimits.ReregisteringOvercommits | src/lcp/services/scheduler_service.py:156-167 | a run in which a worker re-registers and then really runs more than its capacity |
| DispatchLimits.RetryAtLimit | src/lcp/services/task_service.py:261-266 | a run in which a retry is accepted and reaches the limit, so that the row waits for good |
| DispatchLimits.EmptyWorkerIdLosesSlot | src/lcp/services/task_service.py:239-240 | a run of service calls in which a worker with an empty id loses its only slot for good through a cancel |
| RowLevelSecurity.FindRlsTargets | src/lcp/db/rls.py:55-105 | the loops return each protected table of the join trees once, in order of first occurrence, and nothing for other statements |
| RowLevelSecurity.InjectTenantFilter | src/lcp/db/rls.py:108-125 | one tenant condition for every target is added to the WHERE, and nothing else changes |
| RowLevelSecurity.BeforeExecute | src/lcp/db/rls.py:128-166 | rewrite, pass through or refusal, by setting, kind of statement, targets and principal; whatever the targets are, a statement that mentions neither dataset nor task passes as it is for everybody, and one that mentions one of them passes as it is for the system alone |
| RowLevelSecurity.FilteredIff | src/lcp/db/rls.py:38-51 | the rewrite changes a statement if and only if its join trees mention dataset or task; every other table, vector_index included, is left alone |
| RlsTheorems.TenantSeesOwnRows | src/lcp/db/rls.py:108-125 | on any data every row of dataset and task in a tenant's rewritten query carries its tenant_id, and a query over other tables finds what it always found |
| RlsTheorems.TargetsAreGuarded | src/lcp/db/rls.py:69-105 | however deep the join tree, the targets are exactly the protected tables in it, each once |
| RlsProofs.JoinFilter | src/lcp/db/rls.py:64-66 | for joins of any kind, a filter that splits over both sides may be applied to the sides first, up to rows that lack a partner |
| RlsProofs.SliceOfFrom | src/lcp/db/rls.py:55-66 | by recursion over the tree, the tenant's part of the joined rows is the join of the slices, less rows in which a protected table is missing |
| RlsTheorems.RewriteIsSlice | src/lcp/db/rls.py:108-166 | the rewritten query works on exactly the original's rows over the tenant's slice, less rows an outer join left without a protected table |
| RlsTheorems.RewriteExactIff | src/lcp/db/rls.py:108-166 | on one database it sees exactly what the original sees on the slice if and only if no such row passes the WHERE there |
| RlsJoins.FromComplete | src/lcp/db/rls.py:64-66 | every row of a join has a row of each table that no outer join of the tree can extend with NULLs |
| RlsJoins.NotPreservedMissing | src/lcp/db/rls.py:64-66 | for every other table there is data on which, with true join conditions, some row of the join lacks it |
| RlsTheorems.PreservedQueryOnSlice | src/lcp/db/rls.py:69-166 | when the join tree preserves every protected table, the rewritten query on all data is the original on the slice, with any WHERE, ordering, OFFSET and LIMIT |
| RlsTheorems.SomeDataDiffer | src/lcp/db/rls.py:113-118 | when it does not, some database tells the two apart |
| RlsTheorems.RewriteExactOnTreeIff | src/lcp/db/rls.py:108-166 | for every shape of join tree: the rewrite is right on all data if and only if the tree preserves every protected table in it |
| RlsTheorems.TenantUpdateHandsOver | src/lcp/db/rls.py:88-91 | an UPDATE of tenant_id that, rewritten for one tenant, gives another a row |
| RlsTheorems.InnerQueryOnSlice | src/lcp/db/rls.py:69-166 | over inner joins, with any WHERE, ordering, OFFSET and LIMIT, the rewritten query on all data is the original on the slice |
| RlsTheorems.NonInterference | src/lcp/db/rls.py:55-125 | databases that agree on the tenant's rows and on unprotected tables give the same result for every rewritten query, outer joins included |
| RlsTheorems.OuterJoinLosesUnmatchedRows | src/lcp/db/rls.py:113-118 | a left join on which the rewritten query and the original on the slice differ |
| RlsTheorems.RewrittenUpdateRows | src/lcp/db/rls.py:88-91 | row by row, a rewritten UPDATE changes the tenant's rows as the original would and no other row |
| RlsTheorems.UpdateOnOwnRows | src/lcp/db/rls.py:108-125 | on one table: a rewritten UPDATE commutes with taking the slice, and leaves another tenant's rows alone, if and only if every row it changes keeps its tenant, and none turns up with the other |
| RlsTheorems.DeleteOnOwnRows | src/lcp/db/rls.py:108-125 | a rewritten DELETE always commutes with taking the slice and leaves other tenants' rows as they are |
| RlsTheorems.WriteOnSlice | src/lcp/db/rls.py:88-166 | over whole databases, for each tenant: a rewritten write does to the slice what the original does there, and nothing to another's slice, if and only if it is a DELETE or the rows it changes stay put; an UPDATE of tenant_id is covered |
| IndexService.CreateIndex | src/lcp/services/index_service.py:83-158 | the whole new state: guard, replacement, BUILDING row with its submission, FAILED row when the submission fails |
| IndexService.OptimizeIndex | src/lcp/services/index_service.py:215-264 | READY flips to OPTIMIZING with its submission and flips back when the submission fails; any other status is refused |
| IndexService.DropIndex | src/lcp/services/index_service.py:197-212 | any found row ends DROPPED and nothing else changes |
| IndexService.MergeIndex | src/lcp/services/index_service.py:267-284 | only READY goes to MERGING |
| IndexCalls.StrangersRefused | src/lcp/services/index_service.py:98-102 | a create, optimize, drop or merge is answered DatasetNotFound if and only if the dataset is missing, soft-deleted or another tenant's, and then changes nothing |
| IndexCalls.RefusedIff | src/lcp/services/index_service.py:104-125 | the other refusals by the row found: name taken, name unknown, row not READY; none of them changes anything |
| IndexCalls.CallsTouchNamedRow | src/lcp/services/index_service.py:83-284 | an index row a call touches is on the caller's own dataset and has the name given; only a create removes one |
| IndexCalls.CreateQueues | src/lcp/services/index_service.py:110-152 | an accepted create leaves a bare BUILDING row and queues an INDEX_BUILD of that row with its columns, key, priority and limit |
| IndexCalls.OptimizeQueues | src/lcp/services/index_service.py:227-258 | an accepted optimize flips the READY row named and queues an INDEX_OPTIMIZE of it |
| IndexCalls.FailedSubmissionLeavesNobodyWaiting | src/lcp/services/index_service.py:153-157 | when the submission fails the created row is FAILED, or the flipped one READY again with an error, and the queue is unchanged |
| IndexCalls.DropsAndMerges | src/lcp/services/index_service.py:197-212 | an accepted drop or merge sets the status of the one row named and nothing else; a merge has found it READY |
| WorkerService.ExecuteOptimize | src/lcp/workers/executors/index_optimize.py:69-97 | the row loop promotes exactly the OPTIMIZING rows of the dataset and pins the version seen, by the fallback chain |
| WorkerService.ExecuteBuild | src/lcp/workers/executors/index_build.py:79-165 | raises without its parameters or without the named row, else promotes that row whatever its status |
| WorkerService.DispatchAndFinalize | src/lcp/workers/lifecycle_worker_service.py:132-229 | promotions are committed with the completion, or rolled back with a failure or a refusal |
| IndexCalls.FinalizedIff | src/lcp/workers/lifecycle_worker_service.py:132-229 | a task still owned ends SUCCEEDED with the run's result if and only if the executor gets through, and FAILED otherwise under the code that says why: dataset, type, the executor's error, or a build without its inputs |
| IndexCalls.PromotedByColumns | src/lcp/workers/executors/index_optimize.py:69-97 | a finished optimize makes every OPTIMIZING row of its dataset READY, stamped and pinned to the version lance reported or else the one the task carries; a finished build makes the one row it names READY; no other row changes |
| WorkerService.RunIteration | src/lcp/workers/lifecycle_worker_service.py:88-124 | with no other call in between, a claimed row always ends SUCCEEDED or FAILED |
| IndexInvariants.FinalizeIsAtomic | src/lcp/workers/lifecycle_worker_service.py:186-223 | a finalization fails the row and leaves all index rows alone, or is refused and changes nothing, or completes and promotes together |
| IndexInvariants.ProtocolAdvances | src/lcp/services/task_service.py:215-273 | no dispatch call but a completion makes an index task newly SUCCEEDED, and none changes what identifies it |
| IndexInvariants.OwnBuildPromotes | src/lcp/workers/executors/index_build.py:96-116 | a row's own build run promotes that very row |
| IndexInvariants.CompletedLeavesNoneBehind | src/lcp/workers/executors/index_optimize.py:69-97 | completing a run together with its promotions leaves no row waiting whose tasks have all SUCCEEDED |
| IndexInvariants.StepLeavesNoneBehind | src/lcp/services/index_service.py:110-158 | the same for every call, given that user submissions find their keys free |
| IndexInvariants.NeverLeftBehind | src/lcp/workers/lifecycle_worker_service.py:186-223 | no run from empty tables reaches an OPTIMIZING row all of whose dataset's INDEX_OPTIMIZE rows SUCCEEDED, nor a BUILDING row whose own INDEX_BUILD row SUCCEEDED |
| IndexInvariants.OptimizeLeavesBehindIff | src/lcp/services/index_service.py:241-264 | an accepted optimize leaves its row so if and only if its key is taken and every INDEX_OPTIMIZE row of the dataset SUCCEEDED |
| IndexInvariants.CreateLeavesBehindIff | src/lcp/services/index_service.py:129-152 | an accepted create does if and only if its key is taken by anything but a build of this very row that has not SUCCEEDED |
| IndexInvariants.SecondOptimizeAtSameTime | src/lcp/services/index_service.py:254-257 | a full run in which an index is optimized, promoted and optimized again at one clock reading, against the comment on the key |
| IndexInvariants.PassLeavesNoneBehind | src/lcp/services/index_watcher_service.py:436-484 | a whole watcher pass leaves no row behind |
| IndexStranding.CanRunStep | src/lcp/services/scheduler_service.py:300-324 | a task that can still run (running, or to be claimed now or after a retry) stops being able to exactly by a completion, a cancel, the failure of its last attempt, or a requeue when its attempts are used up |
| IndexStranding.HopesAfterCall | src/lcp/services/task_service.py:215-273 | what each call does to the set of tasks that can run and would promote a given row |
| IndexStranding.FinalizeRow | src/lcp/workers/lifecycle_worker_service.py:186-229 | a finalization changes a row if and only if it succeeds for a task that serves the row, which then is READY |
| IndexStranding.CallStrandsIff | src/lcp/services/task_service.py:215-245 | a dispatch call strands a waiting row (no task is left that can run and promote it) if and only if it spends every task the row could hope for |
| IndexStranding.CancelStrandsIff | src/lcp/services/task_service.py:227-245 | a cancel strands a waiting row if and only if it hits the last such task |
| IndexStranding.FinalizationStrandsIff | src/lcp/workers/lifecycle_worker_service.py:186-216 | a finalization does if and only if it fails the last attempt of the last such task |
| IndexStranding.OptimizeStrandsIff | src/lcp/services/index_service.py:241-264 | an accepted optimize strands its row if and only if its key is taken and no task can run that would promote it |
| IndexStranding.CreateStrandsIff | src/lcp/services/index_service.py:129-158 | an accepted create strands its row if and only if no task can run that builds an index of this name, and its key is taken or a required parameter is empty |
| IndexStranding.OthersStrandNothing | src/lcp/services/index_watcher_service.py:450-484 | drops, merges, watcher emissions, planner inserts and dataset changes strand nothing |
| IndexStranding.StrandsIff | src/lcp/workers/lifecycle_worker_service.py:186-223 | all events together: a row is stranded by an event if and only if the event is of one of these four kinds, told from the state before it |
| IndexStranding.NeverStrandedOtherwise | src/lcp/workers/lifecycle_worker_service.py:186-223 | in every run from empty tables a stranded row was stranded by such an event |
| IndexRuns.StrandedUntilHelped | src/lcp/services/scheduler_service.py:411-473 | no claims, failures, retries, reaps or finalizations ever change a stranded row |
| IndexRuns.HopeCanPromote | src/lcp/workers/lifecycle_worker_service.py:88-124 | a waiting row with a task left that can run is promoted by some run of retries, claims and a finalization alone |
| IndexRuns.CancelStrands | src/lcp/services/task_service.py:227-245 | a run in which cancelling the optimize task leaves its index OPTIMIZING for good |
| IndexRuns.SecondFailureStrands | src/lcp/services/task_service.py:261-266 | a run in which the second failure of three attempts does |
| IndexRuns.SecondOptimizeStrands | src/lcp/services/index_service.py:254-257 | a run in which an optimize whose key is held by a finished task does |
| IndexRuns.TakenKeyStrandsCreate | src/lcp/services/index_service.py:140-152 | a run in which a create whose key a user has taken leaves its row BUILDING for good |
| IndexRuns.PassStrandsNothing | src/lcp/services/index_watcher_service.py:436-484 | a whole watcher pass strands nothing |
| IndexRuns.DroppedRowReturns | src/lcp/workers/executors/index_build.py:96-116 | a run in which an index dropped while its build waits is READY again |
| IndexRuns.TwoPoliciesEmitTwice | src/lcp/services/index_watcher_service.py:398-410 | one pass over one index in which two watching policies both emit |
| IndexInvariants.DroppedRowLeavesIff | src/lcp/workers/executors/index_build.py:96-116 | DROPPED is left if and only if the row is replaced by a create or an INDEX_BUILD run that targets it completes |
| IndexWatcher.TriggerMonotone | src/lcp/services/index_watcher_service.py:159-218 | more unindexed rows, a newer version, a later clock or laxer thresholds never turn a trigger off |
| IndexWatcher.ReasonIsFirstCrossed | src/lcp/services/index_watcher_service.py:174-218 | the reason is the first threshold crossed, rows before versions before age, under the name the task carries; none if and only if none is crossed |
| IndexWatcher.WatchOne | src/lcp/services/index_watcher_service.py:256-324 | one candidate: exactly one counter moves, and the emission flips the row and inserts together |
| IndexWatcher.RunWatchPass | src/lcp/services/index_watcher_service.py:226-335 | the loop over all READY indexes paired with each watching policy, in any order, is the pass specified row by row; by the columns: an index row changes, by the flip, only if it was READY and its dataset has an enabled policy that opted in, every task added asks for an optimize of such an index for a threshold it has crossed, and scanned is the number of such pairs whose dataset exists |
| IndexWatcher.PassByColumns | src/lcp/services/index_watcher_service.py:383-410 | the same of the pass as a function, for every listing of the pairs |
| IndexWatcher.RowCounted | src/lcp/services/index_watcher_service.py:256-324 | which counter a row goes to: not opened, not there, no threshold crossed, key held by a task, or emitted under a free key |
| IndexWatcher.CountersByKind | src/lcp/services/index_watcher_service.py:256-335 | over a pass the first two counters are the numbers of pairs that cannot be opened or are not there, and the queue grows by the number reported as enqueued |
| IndexWatcher.TryEmitOptimizeTask | src/lcp/services/index_watcher_service.py:413-484 | emits if and only if the key is free, flipping the row with the insert |
| IndexWatcher.CountersAddUp | src/lcp/services/index_watcher_service.py:254-324 | scanned = enqueued + the four skip counters, and one key is reported for each emission |
| IndexWatcher.PassGrows | src/lcp/services/index_watcher_service.py:436-484 | a pass changes an index only to OPTIMIZING and only adds rows to the queue |
| IndexWatcher.PassLeavesQuiet | src/lcp/services/index_watcher_service.py:256-324 | a candidate whose index the pass left alone would not be emitted right after it |
| IndexWatcher.SecondPassEmitsNothing | src/lcp/services/index_watcher_service.py:226-335 | a second pass on unchanged lance state and clock emits nothing and changes nothing, with any number of policies per dataset and any row order |
| OptimizeLoop.RowAfterEnd | src/lcp/workers/executors/index_optimize.py:69-97 | a finalized optimize run leaves the watched row alone or, if it was OPTIMIZING and the task is still the worker's, promotes it with the version that very run saw |
| OptimizeLoop.CoherentStep | src/lcp/workers/executors/index_optimize.py:76-97 | runs that have committed saw different versions, none newer than the current one, none the row has seen; kept by every move of the fleet |
| OptimizeLoop.ChangeOwes | src/lcp/services/index_watcher_service.py:294-306 | an append or a commit makes at most one more emission possible, and none when it answers an emission and no other run has committed |
| OptimizeLoop.OthersPay | src/lcp/services/index_watcher_service.py:294-324 | an emission and the end of a run, in time or outdated, use up what was owed |
| OptimizeLoop.EmissionsPaidFor | src/lcp/services/index_watcher_service.py:294-324 | in every run, drift emissions plus what is still owed are at most one more than the changes nothing asked for |
| OptimizeLoop.EmissionsBoundedByChanges | src/lcp/services/index_watcher_service.py:294-324 | for any optimize tasks at all: drift emissions are at most 1 + the appends + the commits made while the index is READY or another run has committed |
| OptimizeLoop.CountedEmissionIff | src/lcp/services/index_watcher_service.py:174-197 | the emissions counted are the looks at which uncovered rows or the version drift cross a threshold and nobody holds the key |
| OptimizeOnce.PromotionEndsTask | src/lcp/workers/executors/index_optimize.py:69-97 | with only the watcher's tasks, the promotion of the row ends the one task that could run |
| OptimizeOnce.OneAtATimeStep | src/lcp/services/index_watcher_service.py:450-484 | with only the watcher's tasks at most one can still run, and none while the index is READY |
| OptimizeOnce.CommitDues | src/lcp/workers/executors/index_optimize.py:57-65 | a first execution of a task the watcher added makes no further emission possible |
| OptimizeOnce.DuesPaid | src/lcp/services/index_watcher_service.py:294-324 | in every such run, drift emissions plus what is still due are at most one more than appends and repeated executions |
| OptimizeOnce.LoopDoesNotFeedItself | src/lcp/workers/executors/index_optimize.py:76-97 | no self-triggering, on the whole fleet, with positive thresholds and one watching policy: when only the watcher adds optimize tasks of the dataset, drift emissions are at most 1 + appends + repeated executions; failures, retries, deaths, reaps, cancels and late finalizations included |
| OptimizeOnce.NoReexecutions | src/lcp/services/scheduler_service.py:320-326 | while no task is taken from a run under way, no execution is repeated |
| OptimizeOnce.OnceExecutedLoop | src/lcp/workers/executors/index_optimize.py:76-97 | then drift emissions are at most 1 + appends |
| OptimizeLoop.IdleIndexFiresIff | src/lcp/services/index_watcher_service.py:174-197 | on a fully covered, fully seen index a drift signal fires if and only if its threshold is not positive |
| OptimizeLoop.SecondPolicyEmitsIff | src/lcp/services/index_watcher_service.py:398-410 | right after an emission a second policy's row of the same pass emits again if and only if it fires for another reason |
| OptimizeBound.FreeFrom | src/lcp/services/index_watcher_service.py:436-448 | whatever tasks there are, from some version on no key of an emission is taken |
| OptimizeBound.LookStep | src/lcp/services/index_watcher_service.py:413-484 | an index behind its version, with a free key, is emitted, flipped and given its row in the queue |
| OptimizeBound.EndStep | src/lcp/workers/lifecycle_worker_service.py:186-229 | the worker's finalization promotes the row with the version its run saw, frees the slot and changes no other task |
| OptimizeBound.BoundIsReached | src/lcp/services/index_watcher_service.py:189-197 | from any start with the index READY, nothing running on its dataset and a version to catch up with, n appends can lead to n + 1 emissions with nobody interfering: the bound is exact |
| OptimizeBound.ForeignTaskFeedsLoop | src/lcp/workers/executors/index_optimize.py:69-97 | from any start with the index READY and an optimize task of its dataset that can still run, there is no bound: n emissions for any n, without an append, a repeated execution or an interference |
| OptimizeBound.NoSelfTriggeringIff | src/lcp/workers/executors/index_optimize.py:76-97 | with the index READY and nothing running on its dataset: all runs in which only the watcher adds tasks and none is taken from a run keep drift emissions at most 1 + appends if and only if no optimize task of the dataset can still run at the start |
| OptimizeBound.BesideForeign | src/lcp/services/task_service.py:115-125 | such a start: a user's optimize task, submitted without a key, waits beside a READY index |
| Keys.DecRoundTrip | src/lcp/services/lifecycle_planner_service.py:164 | reading the decimal digits of a number gives the number back |
| Keys.DecLength | src/lcp/services/lifecycle_planner_service.py:156-161 | a number has at most k digits if and only if it is below 10^k |
| Keys.BucketsInjective | src/lcp/services/lifecycle_planner_service.py:138-147 | day buckets are equal if and only if the day is, hour buckets if and only if the hour is |
| Keys.BucketsSpelled | src/lcp/services/lifecycle_planner_service.py:138-147 | buckets are spelled year, month, day and hour in that order, two digits each after the year |
| Keys.LifecycleKeyInjective | src/lcp/services/lifecycle_planner_service.py:150-164 | lifecycle keys are equal only when tenant, policy, type and bucket all are, with any tenant id |
| Keys.LifecycleKeyLength | src/lcp/services/lifecycle_planner_service.py:156-161 | they never exceed 121 characters for tenants up to 64 characters and policy ids below 2^64 |
| Keys.AutoOptimizeKeyLength | src/lcp/services/lifecycle_planner_service.py:318-321 | the delta-threshold key fits 128 characters if and only if its three names together take at most 101 |
| Keys.OverlongDeltaKey | src/lcp/services/lifecycle_planner_service.py:318-321 | it does not fit for a 64-character tenant, a uuid and an index name of two letters |
| Keys.WatcherKeyInjective | src/lcp/services/index_watcher_service.py:436-439 | watcher keys are equal only for the same index, version and reason |
| Planner.TryEmitTask | src/lcp/services/lifecycle_planner_service.py:401-432 | inserts if and only if no row holds the key, and counts the other case |
| Planner.PlanSettings | src/lcp/services/lifecycle_planner_service.py:239-293 | the three settings of a policy row, in the code's order, each attempted once; by type, parameters and key in TickRowsAskedFor and DueKeyIffAsked |
| Planner.PlanForPolicy | src/lcp/services/lifecycle_planner_service.py:228-384 | every due source of the policy is attempted exactly once |
| Planner.PlanOnce | src/lcp/services/lifecycle_planner_service.py:172-220 | every due source of every enabled policy with a dataset is attempted exactly once; last_run_at is recorded, for the policies scanned and nobody else, if and only if anything was due |
| PlannerRows.TickRowsAskedFor | src/lcp/services/lifecycle_planner_service.py:228-384 | every row a tick adds was asked for: a TTL_DELETE by an enabled policy of its dataset with ttl_days, which it carries, a COMPACTION by one with a compaction threshold, an INDEX_OPTIMIZE by one with a cron or, without one, for a READY index with at least 10 deltas, a VECTORIZE by an enabled rule whose id it carries |
| PlannerRows.DueKeyIffAsked | src/lcp/services/lifecycle_planner_service.py:239-374 | conversely a key is due in an hour if and only if the columns of a policy, an index or a rule ask for it |
| PlannerRows.HeldAfterRunIff | src/lcp/services/lifecycle_planner_service.py:401-432 | after any run of ticks among other calls a row holds a key if and only if one did at the start, a submission brought it, or somebody asked for it in an hour in which the planner ticked |
| Planner.JobsCounted | src/lcp/services/lifecycle_planner_service.py:192-220 | emitted + skipped is the number of attempts |
| PlannerTheorems.JobsExtend | src/lcp/services/lifecycle_planner_service.py:401-432 | in any order of attempts the keys become the old ones and the attempted ones, with one emission for each key that was missing |
| PlannerTheorems.TickEffect | src/lcp/services/lifecycle_planner_service.py:172-220 | in any row order a tick adds one row for each missing due key, skips the rest, and keeps the keys unique |
| PlannerTheorems.PlannedForItsTenant | src/lcp/services/lifecycle_planner_service.py:192-200 | every planned row carries the tenant of its dataset and is the one specified for something due |
| PlannerTheorems.RunKeys | src/lcp/services/lifecycle_planner_service.py:172-220 | after any run of ticks mixed with any dispatch calls the keys are exactly the initial ones, the due keys of the hours visited and the keys submitted |
| PlannerTheorems.PlannerConfluence | src/lcp/services/lifecycle_planner_service.py:181-184 | two runs that visit the same hours end with the same keys, whatever the order and the repetition of ticks |
| PlannerTheorems.EachDueKeyOnce | src/lcp/services/lifecycle_planner_service.py:401-432 | for every hour visited everything due is on exactly one row |
| PlannerTheorems.SecondTickEmitsNothing | src/lcp/services/lifecycle_planner_service.py:181-184 | a further tick within an hour visited emits nothing, changes no row, and skips as many as each tick of the run emitted and skipped together |
| PlannerTheorems.StampNotRecorded | src/lcp/services/lifecycle_planner_service.py:379-382 | an enabled policy that a tick stamps while nothing is due, so that PlanOnce records no stamp |
| PlannerTheorems.PolicyKeysEqualIff | src/lcp/services/lifecycle_planner_service.py:357-374 | two settings or rules share a key if and only if policy, type and bucket agree; the rule does not count |
| PlannerTheorems.OneVectorizeRowPerHour | src/lcp/services/lifecycle_planner_service.py:357-374 | however many enabled rules a dataset has, each policy of it has exactly one VECTORIZE row for each hour visited |
| PlannerTheorems.HotKeysEqualIff | src/lcp/services/lifecycle_planner_service.py:318-321 | two policies share the delta-threshold key of one dataset if and only if index name and hour agree |
| JwksCache.BuildCache | src/lcp/core/security.py:152-164 | the loop builds the specified index of the key list |
| JwksCache.IndexedFindsLast | src/lcp/core/security.py:155-159 | a kid is found if and only if some key carries it, and then the last such key |
| JwksCache.ReachableSound | src/lcp/core/security.py:187-206 | in every interleaving one call at most fetches, it holds the lock, what it read before its fetch is still the cache, and an unforced fetch found the cache expired |
| JwksCache.ReturnedKeysAreRecent | src/lcp/core/security.py:167-206 | every cache returned was fetched less than 2 * ttl before its check, and less than ttl unless the call's own fetch had failed |
| JwksCache.FailedFetchAnswersIff | src/lcp/core/security.py:202-206 | after a failed fetch a call answers if and only if the module's cache is younger than 2 * ttl, and answers with it |
| JwksCache.CacheIsLastSuccess | src/lcp/core/security.py:198-206 | the cache is what the last successful fetch of the run delivered; failures, errors and cancellations never change it |
| JwksCache.CacheFindsFetchedKeys | src/lcp/core/security.py:152-164 | looking up a kid finds the last key with it among those the last success delivered, and nothing else |
| JwksCache.EntryAnswersIff | src/lcp/core/security.py:176-185 | a call is answered without the lock if and only if it does not force a refresh and the last success is less than one ttl ago |
| JwksCache.LockedCallFetchesIff | src/lcp/core/security.py:187-195 | with the lock in hand a call fetches if and only if it forces a refresh or no success is less than one ttl ago; otherwise it returns the last success |
| JwksCache.ForcedCallFetches | src/lcp/core/security.py:180-206 | in every run a forced call returns only after a fetch of its own: what that delivered, or keys marked as older |
| JwksCache.FetchedAtNeverDecreases | src/lcp/core/security.py:198-201 | once filled the cache stays filled and fetched_at never decreases |
| JwksCache.SuccessesAreSpaced | src/lcp/core/security.py:187-201 | an unforced fetch succeeds at least ttl after every earlier success |
| JwksCache.NoStampede | src/lcp/core/security.py:113-114 | an unforced call that gets the lock within ttl of a success fetches nothing and returns a cache at least that new |
| JwksCache.RefreshRate | src/lcp/core/security.py:187-201 | n + 1 unforced refreshes take at least n * ttl, however many calls run and however many force a refresh |
| JwksCache.JwksModule.FastPath | src/lcp/core/security.py:176-185 | the code before the lock is the model's first step, for every state with this cache |
| JwksCache.JwksModule.DoubleCheck | src/lcp/core/security.py:187-195 | the code from the lock to the fetch is the model's second step |
| JwksCache.JwksModule.AfterFetch | src/lcp/core/security.py:197-206 | the code after the fetch is the model's last step, for success and failure |
| MetaSync.ReconcileFileset | src/lcp/services/meta_sync_service.py:99-145 | one fileset: error recorded, row created, or exactly the diverged columns updated and counted once; a dry run only counts |
| MetaSync.ReconcileSchema | src/lcp/services/meta_sync_service.py:68-150 | the loop with its counters, errors and dry run is the specified pass; a raised lookup error commits nothing |
| MetaSync.ReconcileAll | src/lcp/services/meta_sync_service.py:153-187 | the schemas are reconciled one after the other, each committed by itself, with summed reports |
| MetaSyncTheorems.StandingAfterOne | src/lcp/services/meta_sync_service.py:107-145 | one fileset ends in sync and every other place stands as before |
| MetaSyncTheorems.SyncReconciles | src/lcp/services/meta_sync_service.py:99-145 | a real pass brings every readable fileset's dataset in agreement with its non-empty location and comment and counts each dataset created or updated once, repeated names included |
| MetaSyncTheorems.OtherRowsUntouched | src/lcp/services/meta_sync_service.py:107-145 | of an existing row at most location and description change, and only if it is the dataset of a readable fileset listed |
| MetaSyncTheorems.AddedRowsAreMade | src/lcp/services/meta_sync_service.py:116-129 | every row added is the one specified for a place that had none |
| MetaSyncRows.AddedByColumns | src/lcp/services/meta_sync_service.py:116-129 | a row added has catalog, schema, name and tenant of a listed place no row stood for, Gravitino's location and comment, and is not soft-deleted |
| MetaSyncRows.KeptByColumns | src/lcp/services/meta_sync_service.py:130-145 | a row that was there is overwritten, where Gravitino has something to say, if its place is listed and answered for, and else is as it was |
| MetaSyncRows.OneRowForEach | src/lcp/services/meta_sync_service.py:107-145 | afterwards exactly one row stands for each listed place Gravitino answered for |
| MetaSyncRows.RaisesIff | src/lcp/services/meta_sync_service.py:107-114 | a pass raises if and only if two rows stand for a place it lists and can read |
| MetaSyncRows.ReportIsComplete | src/lcp/services/meta_sync_service.py:82-187 | a run that does not raise reports every schema and fileset listed, and each error of Gravitino in order |
| MetaSyncTheorems.SyncCrashesIff | src/lcp/services/meta_sync_service.py:107-114 | a pass raises if and only if a readable fileset listed has several datasets |
| MetaSyncTheorems.DryRunCounts | src/lcp/services/meta_sync_service.py:116-145 | a dry run changes nothing and counts every occurrence |
| MetaSyncTheorems.DryRunForetellsIff | src/lcp/services/meta_sync_service.py:116-145 | a dry run reports the real run's counts if and only if no place to be created or updated is listed twice |
| MetaSyncTheorems.DryRunCountsTwice | src/lcp/services/meta_sync_service.py:116-129 | a new fileset listed twice is created once, and a dry run announces two |
| MetaSyncTheorems.ErrorsAreRemote | src/lcp/services/meta_sync_service.py:99-105 | the errors of a pass are Gravitino's failed answers in order, whatever the rows are |
| MetaSyncTheorems.SchemasAreOnePass | src/lcp/services/meta_sync_service.py:173-185 | going schema by schema with summed reports is one pass over everything listed |
| MetaSyncTheorems.ReconcileAllConverges | src/lcp/services/meta_sync_service.py:153-187 | one real run over all schemas, unless it raises, leaves every readable fileset in sync with exact counts |
| MetaSyncTheorems.SecondRunIsQuiet | src/lcp/services/meta_sync_service.py:68-87 | a second run over the same answers reports zero created and updated and changes no row |

## Left out

- SQLAlchemy's identity map, transaction isolation and lost updates inside one call: each call is atomic here.
- The unique-constraint races in which another session commits between a call's check and its insert, in the
  planner, the watcher, registration and submission: with atomic calls the check decides. Between overlapping
  claims the race is modelled (`DispatchOrder`).
- ORM objects as aliases of rows: rows are values in a table, and a method that assigns a field replaces the row.
- The guards that refuse a caller without the system flag, and the lookup of the current principal.
- Statements over aliases, subqueries and raw text: the walk of the join tree sees plain tables only, so the
  statements here have no others, and each table occurs once in a FROM.
- The contents of lease ids and uuids, and the errors' message texts where nothing depends on them.
- Columns nothing in the model reads, such as host, labels, progress, row counts and timestamps of creation;
  of a planned row's parameters, thresholds, source columns, model version, endpoint and batch size; of a
  watcher row's, the three measured numbers and the source tag.
- The printed form of a timestamp inside the optimize key: it stands as a number. Years with other than four
  digits do not occur in buckets.
- Staleness in floating-point minutes: here it is exact, in the clock's own unit.
- WorkerService.ExecuteOptimize: a `lance_version` parameter given as text counts as absent; the source reads a
  number out of it. Tasks of the watcher carry a number.
- IndexService.CreateIndex: the nested parameter dictionary of the index and of its task is not modelled; it is
  handed to lance and decides nothing here.
- The stub mode of the optimize executor inside the feedback loop: there every optimize run reports its version.
- OptimizeOnce.LoopDoesNotFeedItself: one watching policy. Tasks for a second index of the same dataset are tasks
  somebody else added, because an optimize run covers every index of its dataset.
- User calls that move the watched row (optimize, merge, drop, replace, rebuild) inside the feedback loop; what
  they do to rows is in `IndexService` and `IndexInvariants`.
- MERGING rows, which nothing takes back to READY, beyond the call that sets them.
- Compaction and TTL executors: no property beyond the row that completes.
- The vectorize loop and the hash embedding: they count rows and fill buffers, with no state shared with the rest.
- Pushing index properties to Gravitino and writing statistics back: best effort, no effect on rows.
- `GravitinoDisabledError` from `get_fileset`: the listing before it raises the same error first.
- Signature checks, mTLS and SPIFFE parsing, the jti denylist, REST and gRPC routers, command lines and metrics.
- Dataset, policy and rule CRUD, listings and pagination.
- Fairness of the refresh lock, and the hook that resets the cache for tests.
