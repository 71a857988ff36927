/** What the calls on indexes and the worker's finalization do, told by the columns of the rows: who may call, what
    is queued, what is promoted and what fails. */
module IndexCalls {
  import opened Database
  import opened Dispatch
  import opened IndexLifecycle
  import opened IndexInvariants
  import Keys
  import TaskHistory

  // ---- Who may call ----

  /** A user's call on an index. */
  predicate IndexCall(e: FleetEvent) {
    e.Create? || e.Optimize? || e.SetIndex?
  }

  /** The dataset is there for the caller: not soft-deleted, and its tenant's own unless the system calls. */
  predicate Owned(f: Fleet, p: Principal, dataset: string) {
    && dataset in f.datasets && !f.datasets[dataset].deleted
    && (p.isSystem || f.datasets[dataset].tenantId == p.tenantId)
  }

  function ReplyTo(f: Fleet, e: FleetEvent): IndexReply
    requires FleetEnabled(f, e) && IndexCall(e)
  {
    match e
    case Create(p, dataset, name, column, indexType, replace, id, s, now) =>
      CreateIndex(f, p, dataset, name, column, indexType, replace, id, s, now).reply
    case Optimize(p, dataset, name, s, stamp) => OptimizeIndex(f, p, dataset, name, s, stamp).reply
    case SetIndex(p, dataset, name, status) => SetStatus(f, p, dataset, name, status).reply
  }

  /** Another tenant's caller, or anybody's on a deleted dataset, learns nothing but that there is no such dataset,
      and changes nothing; an owner is never told so. */
  lemma StrangersRefused(f: Fleet, e: FleetEvent)
    requires FleetEnabled(f, e) && IndexCall(e)
    ensures ReplyTo(f, e) == Rejected(DatasetNotFound) <==> !Owned(f, e.p, e.dataset)
    ensures !Owned(f, e.p, e.dataset) ==> FleetNext(f, e) == f
  {
  }

  predicate HasIndex(f: Fleet, dataset: string, name: string) {
    exists id | id in f.indexes :: f.indexes[id].datasetUuid == dataset && f.indexes[id].indexName == name
  }

  predicate HasReady(f: Fleet, dataset: string, name: string) {
    exists id | id in f.indexes ::
      f.indexes[id].datasetUuid == dataset && f.indexes[id].indexName == name && f.indexes[id].status == READY
  }

  /** The other refusals, by the row found: a name that is taken, one that is not there, and a row that is not
      READY when it has to be. */
  lemma RefusedIff(f: Fleet, e: FleetEvent)
    requires FleetEnabled(f, e) && IndexCall(e) && Owned(f, e.p, e.dataset)
    ensures ReplyTo(f, e) == Rejected(AlreadyExists)
            <==> e.Create? && !e.replace && HasIndex(f, e.dataset, e.name)
    ensures ReplyTo(f, e) == Rejected(IndexNotFound)
            <==> (e.Optimize? || e.SetIndex?) && !HasIndex(f, e.dataset, e.name)
    ensures ReplyTo(f, e) == Rejected(WrongState)
            <==> (e.Optimize? || (e.SetIndex? && e.status == MERGING))
                 && HasIndex(f, e.dataset, e.name) && !HasReady(f, e.dataset, e.name)
    ensures ReplyTo(f, e).Rejected? && ReplyTo(f, e) != Rejected(SubmissionFailed) ==> FleetNext(f, e) == f
  {
    var found := Lookup(f.indexes, e.dataset, e.name);
    if found.Some? {
      forall id | Names(f.indexes, e.dataset, e.name, id) ensures id == found.value {
      }
    } else {
      forall id ensures !Names(f.indexes, e.dataset, e.name, id) {
      }
    }
  }

  /** An index row that a call touches lies on the caller's own dataset, and has the name the call gave. */
  lemma CallsTouchNamedRow(f: Fleet, e: FleetEvent, id: nat)
    requires FleetEnabled(f, e) && IndexCall(e) && id in f.indexes
    requires !(id in FleetNext(f, e).indexes && FleetNext(f, e).indexes[id] == f.indexes[id])
    ensures Owned(f, e.p, e.dataset) && f.indexes[id].datasetUuid == e.dataset && f.indexes[id].indexName == e.name
    ensures e.Create? <==> id !in FleetNext(f, e).indexes
  {
  }

  // ---- What is queued ----

  /** A task as its submission leaves it. */
  predicate JustSubmitted(row: Task, p: Principal, dataset: string, key: string, now: int) {
    && row.datasetUuid == dataset && row.tenantId == p.tenantId && row.idempotencyKey == Some(p.tenantId + ":" + key)
    && (row.status, row.priority, row.attempt, row.maxAttempts) == (PENDING, 5, 0, 3)
    && row.workerId.None? && row.createdAt == now
  }

  /** An accepted create leaves a bare BUILDING row, and in the queue the task that will build this very row. */
  lemma CreateQueues(f: Fleet, e: FleetEvent)
    requires FleetEnabled(f, e) && e.Create? && ReplyTo(f, e).Accepted?
    ensures var after := FleetNext(f, e);
            && ReplyTo(f, e) == Accepted(e.id)
            && e.id in after.indexes
            && after.indexes[e.id]
               == Index(e.dataset, e.name, e.column, e.indexType, BUILDING, 0, None, None, None)
            && (e.s.holder.None? ==>
                  && e.s.uuid in after.db.tasks
                  && var task := after.db.tasks[e.s.uuid];
                  && task.taskType == "INDEX_BUILD"
                  && task.params == map["index_name" := Text(e.name), "column_name" := Text(e.column),
                                        "index_type" := Text(e.indexType)]
                  && JustSubmitted(task, e.p, e.dataset, "build:" + e.dataset + "/" + e.name + ":" + Keys.Dec(e.id),
                                   e.now))
  {
  }

  /** An accepted optimize has found a READY row and flips it, and queues an optimize of it. */
  lemma OptimizeQueues(f: Fleet, e: FleetEvent)
    requires FleetEnabled(f, e) && e.Optimize? && ReplyTo(f, e).Accepted?
    ensures var after, id := FleetNext(f, e), ReplyTo(f, e).id;
            && Names(f.indexes, e.dataset, e.name, id) && f.indexes[id].status == READY
            && after.indexes
               == f.indexes[id := f.indexes[id].(status := OPTIMIZING, lastOptimizedAt := Some(e.stamp))]
            && (e.s.holder.None? ==>
                  && e.s.uuid in after.db.tasks
                  && var task := after.db.tasks[e.s.uuid];
                  && task.taskType == "INDEX_OPTIMIZE" && task.params == map["index_name" := Text(e.name)]
                  && JustSubmitted(task, e.p, e.dataset, "optimize:" + e.dataset + "/" + e.name + ":" + Keys.Dec(id)
                                   + ":" + Keys.Dec(e.stamp), e.stamp))
  {
  }

  /** When the submission fails, nobody is left waiting: a created row is FAILED, and a flipped one is READY again,
      with the time of the attempt. */
  lemma FailedSubmissionLeavesNobodyWaiting(f: Fleet, e: FleetEvent)
    requires FleetEnabled(f, e) && IndexCall(e) && ReplyTo(f, e) == Rejected(SubmissionFailed)
    ensures FleetNext(f, e).db == f.db && !e.SetIndex?
    ensures e.Create? ==> e.id in FleetNext(f, e).indexes
                          && FleetNext(f, e).indexes[e.id]
                             == Index(e.dataset, e.name, e.column, e.indexType, INDEX_FAILED, 0, None, None,
                                      Some("task submission failed"))
    ensures e.Optimize? ==>
              forall id | id in f.indexes ::
                && id in FleetNext(f, e).indexes
                && FleetNext(f, e).indexes[id]
                   == if f.indexes[id].datasetUuid == e.dataset && f.indexes[id].indexName == e.name
                      then f.indexes[id].(lastOptimizedAt := Some(e.stamp),
                                          errorMessage := Some("task submission failed"))
                      else f.indexes[id]
  {
  }

  /** An accepted drop or merge changes the status of the one row named, and nothing else; a merge has found it
      READY. */
  lemma DropsAndMerges(f: Fleet, e: FleetEvent)
    requires FleetEnabled(f, e) && e.SetIndex? && ReplyTo(f, e).Accepted?
    ensures var id := ReplyTo(f, e).id;
            && Names(f.indexes, e.dataset, e.name, id) && e.status in {DROPPED, MERGING}
            && (e.status == MERGING ==> f.indexes[id].status == READY)
            && FleetNext(f, e) == f.(indexes := f.indexes[id := f.indexes[id].(status := e.status)])
  {
  }

  // ---- What is promoted ----

  /** A text parameter that is there and not empty. */
  predicate Given(task: Task, key: string) {
    key in task.params && task.params[key].Text? && |task.params[key].text| > 0
  }

  predicate KnownType(taskType: string) {
    taskType in {"TTL_DELETE", "COMPACTION", "INDEX_BUILD", "INDEX_OPTIMIZE", "VECTORIZE"}
  }

  /** The code of a failure: no dataset, no executor, the executor's own error, or a build without its inputs. */
  function WhyFailed(f: Fleet, task: Task, run: Run): string {
    if task.datasetUuid !in f.datasets then "DatasetMissing"
    else if !KnownType(task.taskType) then "UnknownTaskType"
    else if run.Raised? then run.code
    else "ValueError"
  }

  /** The executor gets through: lance does, and a build finds its parameters and its row. */
  predicate GetsThrough(f: Fleet, task: Task, run: Run) {
    && task.datasetUuid in f.datasets
    && KnownType(task.taskType)
    && run.Ran?
    && (task.taskType == "INDEX_BUILD" ==>
          && Given(task, "index_name") && Given(task, "column_name") && Given(task, "index_type")
          && HasIndex(f, task.datasetUuid, task.params["index_name"].text))
  }

  /** How a task that its worker still owns is finalized: SUCCEEDED with the run's result exactly when the executor
      gets through, and FAILED otherwise, under a code that says why. */
  lemma FinalizedIff(f: Fleet, w: string, t: string, run: Run, now: int)
    requires NamesUnique(f.indexes) && Owns(f.db, w, t)
    ensures var o, task := Finalize(f, w, t, run, now), f.db.tasks[t];
            var after := o.fleet.db.tasks[t];
            && o.reply == Done && after.finishedAt == Some(now)
            && after.status == (if GetsThrough(f, task, run) then SUCCEEDED else FAILED)
            && (after.status == SUCCEEDED ==> after.result == Some(run.result))
            && (after.status == FAILED ==> after.errorCode == Some(WhyFailed(f, task, run)))
            && (after.status == FAILED && task.datasetUuid in f.datasets && KnownType(task.taskType) && run.Raised? ==>
                  after.errorMessage == Some(run.message))
  {
    BuildFindsRowIff(f, f.db.tasks[t]);
  }

  lemma BuildFindsRowIff(f: Fleet, task: Task)
    requires NamesUnique(f.indexes)
    ensures BuildTarget(f.indexes, task).Some?
            <==> && Given(task, "index_name") && Given(task, "column_name") && Given(task, "index_type")
                 && HasIndex(f, task.datasetUuid, task.params["index_name"].text)
  {
    var name := Required(task, "index_name");
    if name.Some? {
      var found := Lookup(f.indexes, task.datasetUuid, name.value);
      if found.None? {
        forall id ensures !Names(f.indexes, task.datasetUuid, name.value, id) {
        }
      }
    }
  }

  /** The version an optimize run leaves on its rows: what lance reported, else the number the task carries. */
  predicate Pins(task: Task, version: Option<int>, was: Option<int>, seen: Option<int>) {
    if version.Some? then seen == version
    else if "lance_version" in task.params && task.params["lance_version"].Number?
    then seen == Some(task.params["lance_version"].number)
    else seen == was
  }

  /** Index rows change only with a success.  A finished optimize makes every OPTIMIZING row of its dataset READY,
      stamped and pinned, and touches no other row; a finished build makes the one row it names READY; every other
      kind leaves all rows alone. */
  lemma PromotedByColumns(f: Fleet, w: string, t: string, run: Run, now: int, id: nat)
    requires NamesUnique(f.indexes) && Owns(f.db, w, t) && id in f.indexes
    ensures id in Finalize(f, w, t, run, now).fleet.indexes
    ensures var task, before, after := f.db.tasks[t], f.indexes[id], Finalize(f, w, t, run, now).fleet.indexes[id];
            && (GetsThrough(f, task, run) && task.taskType == "INDEX_OPTIMIZE"
                && before.datasetUuid == task.datasetUuid && before.status == OPTIMIZING ==>
                  && after == before.(status := READY, lastOptimizedAt := Some(now),
                                      lastSeenVersion := after.lastSeenVersion)
                  && Pins(task, run.version, before.lastSeenVersion, after.lastSeenVersion))
            && (GetsThrough(f, task, run) && task.taskType == "INDEX_BUILD"
                && before.datasetUuid == task.datasetUuid && before.indexName == task.params["index_name"].text ==>
                  after == before.(status := READY, lastOptimizedAt := Some(now)))
            && (after != before ==>
                  && GetsThrough(f, task, run) && before.datasetUuid == task.datasetUuid
                  && ((task.taskType == "INDEX_OPTIMIZE" && before.status == OPTIMIZING)
                      || (task.taskType == "INDEX_BUILD" && before.indexName == task.params["index_name"].text)))
  {
    BuildFindsRowIff(f, f.db.tasks[t]);
  }
}
