/** lcp.workers.lifecycle_worker_service and the INDEX_OPTIMIZE and INDEX_BUILD executors: claim a task,
    run it, and finalize it in one commit. */
module WorkerService {
  import opened Database
  import opened Dispatch
  import opened IndexLifecycle
  import SchedulerService

  /** The bookkeeping half of IndexOptimizeExecutor.execute: one row after the other. */
  method ExecuteOptimize(session: Session, task: Task, version: Option<int>, now: int)
    modifies session`indexes
    ensures session.indexes == PromoteAll(old(session.indexes), task.datasetUuid, SeenVersion(task, version), now)
  {
    ghost var before := session.indexes;
    var rows := set id | id in session.indexes && session.indexes[id].datasetUuid == task.datasetUuid
                         && session.indexes[id].status == OPTIMIZING;
    var seen := version;
    if seen.None? {
      seen := SeenVersion(task, None);
    }
    var todo := rows;
    while todo != {}
      invariant todo <= rows
      invariant session.indexes == map id | id in before ::
                  if id in rows - todo then Promoted(before[id], seen, now) else before[id]
    {
      var id :| id in todo;
      var row := session.indexes[id];
      row := row.(status := READY, lastOptimizedAt := Some(now));
      if seen.Some? {
        row := row.(lastSeenVersion := seen);
      }
      session.indexes := session.indexes[id := row];
      todo := todo - {id};
    }
  }

  /** IndexBuildExecutor.execute around the lance call; `ok` is false when it raises. */
  method ExecuteBuild(session: Session, task: Task, now: int) returns (ok: bool)
    requires NamesUnique(session.indexes)
    modifies session`indexes
    ensures ok == BuildTarget(old(session.indexes), task).Some?
    ensures session.indexes == if ok then
                                 var id := BuildTarget(old(session.indexes), task).value;
                                 old(session.indexes)[id := Promoted(old(session.indexes[id]), None, now)]
                               else old(session.indexes)
  {
    var name := Required(task, "index_name");
    if name.None? || Required(task, "column_name").None? || Required(task, "index_type").None? {
      return false;
    }
    var found := Lookup(session.indexes, task.datasetUuid, name.value);
    if found.None? {
      return false;
    }
    var row := session.indexes[found.value];
    row := row.(status := READY, lastOptimizedAt := Some(now));
    session.indexes := session.indexes[found.value := row];
    ok := true;
  }

  /** _dispatch_and_finalize; `run` is what the outside world does during the executor's run.  When the
      completion is refused, nothing of the executor's work is kept. */
  method DispatchAndFinalize(session: Session, w: string, t: string, run: Run, now: int) returns (reply: Reply)
    requires NamesUnique(session.indexes) && t in session.tasks
    modifies session`workers, session`tasks, session`indexes
    ensures Finish(session.Committed(), reply) == Finalize(old(session.Committed()), w, t, run, now)
  {
    var task := session.tasks[t];
    if task.datasetUuid !in session.datasets {
      reply := SchedulerService.FailTask(session, w, t, "DatasetMissing", "", now);
      return;
    }
    if task.taskType !in TASK_TYPES {
      reply := SchedulerService.FailTask(session, w, t, "UnknownTaskType", "", now);
      return;
    }
    if run.Raised? {
      reply := SchedulerService.FailTask(session, w, t, run.code, run.message, now);
      return;
    }
    var savepoint := session.indexes;
    if task.taskType == INDEX_OPTIMIZE {
      ExecuteOptimize(session, task, run.version, now);
    } else if task.taskType == INDEX_BUILD {
      var ok := ExecuteBuild(session, task, now);
      if !ok {
        session.indexes := savepoint;
        reply := SchedulerService.FailTask(session, w, t, "ValueError", "", now);
        return;
      }
    }
    reply := SchedulerService.CompleteTask(session, w, t, Some(run.result), now);
    if reply.Refused? {
      session.indexes := savepoint;
    }
  }

  datatype TickOutcome = Idle(reply: Reply) | Worked(task: string, succeeded: bool)

  /** run_iteration when no other call comes between its claim and its finalization: a claimed task always
      ends SUCCEEDED or FAILED. */
  method RunIteration(session: Session, w: string, lease: string, taskType: Option<string>, locked: set<string>,
                      run: Run, now: int)
    returns (outcome: TickOutcome)
    requires NamesUnique(session.indexes)
    modifies session`workers, session`tasks, session`indexes
    ensures outcome.Idle? ==> session.Committed() == old(session.Committed())
    ensures outcome.Worked? ==>
              && IsNext(old(session.tasks), taskType, locked, Some(outcome.task))
              && Dispatch.Claim(old(session.Rows()), w, lease, Some(outcome.task), now).reply == Claimed(outcome.task)
              && var db := Dispatch.Claim(old(session.Rows()), w, lease, Some(outcome.task), now).db;
              && var claimed := old(session.Committed()).(db := db);
              && Finalize(claimed, w, outcome.task, run, now) == Finish(session.Committed(), Done)
              && session.tasks[outcome.task].status == (if outcome.succeeded then SUCCEEDED else FAILED)
  {
    var claim, pick := SchedulerService.ClaimNextTask(session, w, lease, taskType, locked, now);
    if !claim.Claimed? {
      return Idle(claim);
    }
    var succeeded := FinishOwned(session, w, claim.task, run, now);
    outcome := Worked(claim.task, succeeded);
  }

  /** The finalization of a task that the worker still owns. */
  method FinishOwned(session: Session, w: string, t: string, run: Run, now: int) returns (succeeded: bool)
    requires NamesUnique(session.indexes) && Owns(session.Rows(), w, t)
    modifies session`workers, session`tasks, session`indexes
    ensures Finalize(old(session.Committed()), w, t, run, now) == Finish(session.Committed(), Done)
    ensures t in session.tasks && session.tasks[t].status == (if succeeded then SUCCEEDED else FAILED)
  {
    var reply := DispatchAndFinalize(session, w, t, run, now);
    succeeded := session.tasks[t].status == SUCCEEDED;
  }
}
