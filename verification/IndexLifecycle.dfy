/** The life of index rows: the calls of lcp.services.index_service, the watcher's emission and the
    worker's finalization of INDEX_BUILD and INDEX_OPTIMIZE tasks, as functions of the committed rows. */
module IndexLifecycle {
  import opened Database
  import opened Dispatch
  import Keys

  const INDEX_BUILD := "INDEX_BUILD"
  const INDEX_OPTIMIZE := "INDEX_OPTIMIZE"

  datatype IndexError = DatasetNotFound | IndexNotFound | AlreadyExists | WrongState | SubmissionFailed

  datatype IndexReply = Accepted(id: nat) | Rejected(error: IndexError)

  datatype Change = Change(fleet: Fleet, reply: IndexReply)

  /** The row that a lookup by dataset and name finds. */
  predicate Names(indexes: map<nat, Index>, dataset: string, name: string, id: nat) {
    id in indexes && indexes[id].datasetUuid == dataset && indexes[id].indexName == name
  }

  /** The UNIQUE constraint on (dataset_uuid, index_name). */
  predicate NamesUnique(indexes: map<nat, Index>) {
    forall i, j | i in indexes && j in indexes && indexes[i].datasetUuid == indexes[j].datasetUuid &&
                  indexes[i].indexName == indexes[j].indexName :: i == j
  }

  function Lookup(indexes: map<nat, Index>, dataset: string, name: string): (found: Option<nat>)
    requires NamesUnique(indexes)
    ensures found.Some? ==> Names(indexes, dataset, name, found.value)
    ensures found.None? ==> forall id :: !Names(indexes, dataset, name, id)
  {
    if id :| id in indexes && Names(indexes, dataset, name, id) then Some(id) else None
  }

  /** What the dataset lookup of a tenant's call finds: visible to the caller and not soft-deleted. */
  predicate Guard(f: Fleet, p: Principal, dataset: string) {
    dataset in f.datasets && p.Sees(f.datasets[dataset].tenantId) && !f.datasets[dataset].deleted
  }

  // ---- Tasks that belong to an index ----

  function BuildRequest(dataset: string, name: string, column: string, indexType: string, id: nat): Request {
    Request(INDEX_BUILD, dataset, 5,
            map["index_name" := Text(name), "column_name" := Text(column), "index_type" := Text(indexType)],
            Some("build:" + dataset + "/" + name + ":" + Keys.Dec(id)), 3)
  }

  /** `stamp` stands for the printed optimize time. */
  function OptimizeRequest(dataset: string, name: string, id: nat, stamp: nat): Request {
    Request(INDEX_OPTIMIZE, dataset, 5, map["index_name" := Text(name)],
            Some("optimize:" + dataset + "/" + name + ":" + Keys.Dec(id) + ":" + Keys.Dec(stamp)), 3)
  }

  /** The choices made in a nested submission: the row the key lookup returns, the new uuid, and whether
      the database fails. */
  datatype Submission = Submission(holder: Option<string>, uuid: string, failing: bool)

  function TrySubmit(db: Db, p: Principal, r: Request, s: Submission, now: int): Outcome {
    if s.failing then Refuse(db, IntegrityFailure) else Submit(db, p, r, s.holder, s.uuid, now)
  }

  // ---- index_service ----

  function CreateIndex(f: Fleet, p: Principal, dataset: string, name: string, column: string, indexType: string,
                       replace: bool, id: nat, s: Submission, now: int): Change
    requires NamesUnique(f.indexes)
  {
    if !Guard(f, p, dataset) then Change(f, Rejected(DatasetNotFound))
    else
      var existing := Lookup(f.indexes, dataset, name);
      if existing.Some? && !replace then Change(f, Rejected(AlreadyExists))
      else
        var kept := if existing.Some? then f.indexes - {existing.value} else f.indexes;
        var row := Index(dataset, name, column, indexType, BUILDING, 0, None, None, None);
        var o := TrySubmit(f.db, p, BuildRequest(dataset, name, column, indexType, id), s, now);
        if o.reply.Refused? then
          var failed := row.(status := INDEX_FAILED, errorMessage := Some("task submission failed"));
          Change(f.(db := o.db, indexes := kept[id := failed]), Rejected(SubmissionFailed))
        else Change(f.(db := o.db, indexes := kept[id := row]), Accepted(id))
  }

  function OptimizeIndex(f: Fleet, p: Principal, dataset: string, name: string, s: Submission, now: nat): Change
    requires NamesUnique(f.indexes)
  {
    if !Guard(f, p, dataset) then Change(f, Rejected(DatasetNotFound))
    else
      match Lookup(f.indexes, dataset, name)
      case None => Change(f, Rejected(IndexNotFound))
      case Some(id) =>
        var row := f.indexes[id];
        if row.status != READY then Change(f, Rejected(WrongState))
        else
          var flipped := row.(status := OPTIMIZING, lastOptimizedAt := Some(now));
          var o := TrySubmit(f.db, p, OptimizeRequest(dataset, name, id, now), s, now);
          if o.reply.Refused? then
            var restored := flipped.(status := READY, errorMessage := Some("task submission failed"));
            Change(f.(db := o.db, indexes := f.indexes[id := restored]), Rejected(SubmissionFailed))
          else Change(f.(db := o.db, indexes := f.indexes[id := flipped]), Accepted(id))
  }

  /** drop_index and merge_index. */
  function SetStatus(f: Fleet, p: Principal, dataset: string, name: string, status: IndexStatus): Change
    requires NamesUnique(f.indexes) && status in {DROPPED, MERGING}
  {
    if !Guard(f, p, dataset) then Change(f, Rejected(DatasetNotFound))
    else
      match Lookup(f.indexes, dataset, name)
      case None => Change(f, Rejected(IndexNotFound))
      case Some(id) =>
        if status == MERGING && f.indexes[id].status != READY then Change(f, Rejected(WrongState))
        else Change(f.(indexes := f.indexes[id := f.indexes[id].(status := status)]), Accepted(id))
  }

  // ---- The worker's finalization ----

  /** How the executor's run ended; `version` is the dataset version after a real lance optimize. */
  datatype Run = Raised(code: string, message: string) | Ran(version: Option<int>, result: string)

  const TASK_TYPES: set<string> := {"TTL_DELETE", "COMPACTION", INDEX_BUILD, INDEX_OPTIMIZE, "VECTORIZE"}

  /** The version an optimize run pins: the one lance reported, else the one the task carries. */
  function SeenVersion(task: Task, version: Option<int>): Option<int> {
    if version.Some? then version
    else if "lance_version" in task.params && task.params["lance_version"].Number? then
      Some(task.params["lance_version"].number)
    else None
  }

  function Promoted(row: Index, seen: Option<int>, now: int): Index {
    row.(status := READY, lastOptimizedAt := Some(now),
         lastSeenVersion := if seen.Some? then seen else row.lastSeenVersion)
  }

  /** Every OPTIMIZING row of the dataset goes back to READY. */
  function PromoteAll(indexes: map<nat, Index>, dataset: string, seen: Option<int>, now: int): map<nat, Index> {
    map id | id in indexes ::
      if indexes[id].datasetUuid == dataset && indexes[id].status == OPTIMIZING then Promoted(indexes[id], seen, now)
      else indexes[id]
  }

  /** A required INDEX_BUILD parameter, absent when missing or empty. */
  function Required(task: Task, key: string): Option<string> {
    if key in task.params && task.params[key].Text? && task.params[key].text != "" then Some(task.params[key].text)
    else None
  }

  /** The row an INDEX_BUILD run promotes; none makes the executor raise. */
  function BuildTarget(indexes: map<nat, Index>, task: Task): Option<nat>
    requires NamesUnique(indexes)
  {
    var name := Required(task, "index_name");
    if name.None? || Required(task, "column_name").None? || Required(task, "index_type").None? then None
    else Lookup(indexes, task.datasetUuid, name.value)
  }

  /** The index rows once the executor has run for `task`, or None when it raises. */
  function Executed(indexes: map<nat, Index>, task: Task, version: Option<int>, now: int): Option<map<nat, Index>>
    requires NamesUnique(indexes)
  {
    if task.taskType == INDEX_OPTIMIZE then
      Some(PromoteAll(indexes, task.datasetUuid, SeenVersion(task, version), now))
    else if task.taskType == INDEX_BUILD then
      match BuildTarget(indexes, task)
      case None => None
      case Some(id) => Some(indexes[id := Promoted(indexes[id], None, now)])
    else Some(indexes)
  }

  datatype Finish = Finish(fleet: Fleet, reply: Reply)

  /** _dispatch_and_finalize from the moment the executor has returned or raised: either the promotions
      and the completion are committed together, or the session is rolled back and the task failed. */
  function Finalize(f: Fleet, w: string, t: string, run: Run, now: int): Finish
    requires NamesUnique(f.indexes) && t in f.db.tasks
  {
    var task := f.db.tasks[t];
    if task.datasetUuid !in f.datasets then Failed(f, w, t, "DatasetMissing", "", now)
    else if task.taskType !in TASK_TYPES then Failed(f, w, t, "UnknownTaskType", "", now)
    else
      match run
      case Raised(code, message) => Failed(f, w, t, code, message, now)
      case Ran(version, result) =>
        match Executed(f.indexes, task, version, now)
        case None => Failed(f, w, t, "ValueError", "", now)
        case Some(promoted) =>
          var o := Complete(f.db, w, t, Some(result), now);
          if o.reply.Refused? then Finish(f, o.reply)
          else Finish(f.(db := o.db, indexes := promoted), o.reply)
  }

  function Failed(f: Fleet, w: string, t: string, code: string, message: string, now: int): Finish {
    var o := Fail(f.db, w, t, code, message, now);
    Finish(f.(db := o.db), o.reply)
  }

  // ---- The watcher's emission ----

  function WatchTask(f: Fleet, id: nat, version: nat, reason: string, now: int): Task
    requires id in f.indexes && f.indexes[id].datasetUuid in f.datasets
  {
    var row := f.indexes[id];
    Task(INDEX_OPTIMIZE, row.datasetUuid, f.datasets[row.datasetUuid].tenantId, PENDING, 5, 0, 3, None,
         Some(Keys.WatcherKey(id, version, reason)),
         map["index_name" := Text(row.indexName), "trigger_reason" := Text(reason), "lance_version" := Number(version)],
         None, None, None, None, None, now)
  }

  /** _try_emit_optimize_task: nothing when the key is taken, else the row flips and the task is added. */
  function WatchEmit(f: Fleet, id: nat, version: nat, reason: string, uuid: string, now: int): Fleet
    requires id in f.indexes && f.indexes[id].datasetUuid in f.datasets
  {
    if Holders(f.db.tasks, Some(Keys.WatcherKey(id, version, reason))) != {} then f
    else
      f.(indexes := f.indexes[id := f.indexes[id].(status := OPTIMIZING, lastOptimizedAt := Some(now))],
         db := f.db.(tasks := f.db.tasks[uuid := WatchTask(f, id, version, reason, now)]))
  }
}
