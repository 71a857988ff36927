/** The fleet of index rows and tasks, over any interleaving of user calls, watcher passes, planner ticks,
    worker runs and reaps: no index row goes on waiting once the tasks it could wait for have succeeded.
    Whether one of them can still run is the subject of IndexStranding. */
module IndexInvariants {
  import opened Database
  import opened Dispatch
  import opened TaskHistory
  import opened IndexLifecycle
  import IndexWatcher

  datatype FleetEvent =
    | Protocol(e: Event)
    | Create(p: Principal, dataset: string, name: string, column: string, indexType: string, replace: bool,
             id: nat, s: Submission, now: int)
    | Optimize(p: Principal, dataset: string, name: string, s: Submission, stamp: nat)
    | SetIndex(p: Principal, dataset: string, name: string, status: IndexStatus)
    | Finalization(w: string, t: string, run: Run, now: int)
    | Watch(id: nat, version: nat, reason: string, uuid: string, now: int)
    | Insert(uuid: string, task: Task)
    | Datasets(datasets: map<string, Dataset>)

  predicate IsIndexTask(task: Task) {
    task.taskType in {INDEX_BUILD, INDEX_OPTIMIZE}
  }

  predicate CanSubmit(db: Db, p: Principal, r: Request, s: Submission) {
    s.uuid !in db.tasks && IsVisibleHolder(db, p, ScopedKey(p, r.idempotencyKey), s.holder)
  }

  /** The choices in an event are ones the database could make.  Index tasks are completed only by the
      worker's finalization; the planner inserts waiting tasks under free keys. */
  predicate FleetEnabled(f: Fleet, e: FleetEvent) {
    NamesUnique(f.indexes) &&
    match e
    case Protocol(call) =>
      Enabled(f.db, call) && (call.CompleteCall? && call.t in f.db.tasks ==> !IsIndexTask(f.db.tasks[call.t]))
    case Create(p, dataset, name, column, indexType, _, id, s, _) =>
      id !in f.indexes && CanSubmit(f.db, p, BuildRequest(dataset, name, column, indexType, id), s)
    case Optimize(p, dataset, name, s, stamp) =>
      var found := Lookup(f.indexes, dataset, name);
      found.Some? ==> CanSubmit(f.db, p, OptimizeRequest(dataset, name, found.value, stamp), s)
    case SetIndex(_, _, _, status) => status in {DROPPED, MERGING}
    case Finalization(_, t, _, _) => t in f.db.tasks
    case Watch(id, _, _, uuid, _) =>
      // A second policy's row of the same pass finds the index already OPTIMIZING.
      && id in f.indexes && f.indexes[id].status in {READY, OPTIMIZING}
      && f.indexes[id].datasetUuid in f.datasets && uuid !in f.db.tasks
    case Insert(uuid, task) => uuid !in f.db.tasks && task.status == PENDING
    case Datasets(_) => true
  }

  function FleetNext(f: Fleet, e: FleetEvent): Fleet
    requires FleetEnabled(f, e)
  {
    match e
    case Protocol(call) => f.(db := Next(f.db, call))
    case Create(p, dataset, name, column, indexType, replace, id, s, now) =>
      CreateIndex(f, p, dataset, name, column, indexType, replace, id, s, now).fleet
    case Optimize(p, dataset, name, s, stamp) => OptimizeIndex(f, p, dataset, name, s, stamp).fleet
    case SetIndex(p, dataset, name, status) => SetStatus(f, p, dataset, name, status).fleet
    case Finalization(w, t, run, now) => Finalize(f, w, t, run, now).fleet
    case Watch(id, version, reason, uuid, now) => WatchEmit(f, id, version, reason, uuid, now)
    case Insert(uuid, task) => f.(db := f.db.(tasks := f.db.tasks[uuid := task]))
    case Datasets(datasets) => f.(datasets := datasets)
  }

  // ---- Rows whose tasks have all succeeded ----

  /** An INDEX_OPTIMIZE task of the dataset that has not succeeded; it may have been cancelled or given up. */
  predicate OptimizeUnsucceeded(tasks: map<string, Task>, dataset: string) {
    exists t | t in tasks :: OptimizesDataset(tasks[t], dataset)
  }

  predicate OptimizesDataset(task: Task, dataset: string) {
    task.taskType == INDEX_OPTIMIZE && task.datasetUuid == dataset && task.status != SUCCEEDED
  }

  /** The row's own INDEX_BUILD task, not yet succeeded. */
  predicate BuildsRow(task: Task, row: Index, id: nat) {
    var r := BuildRequest(row.datasetUuid, row.indexName, row.columnName, row.indexType, id);
    && task.taskType == INDEX_BUILD && task.datasetUuid == row.datasetUuid
    && task.params == r.params && task.idempotencyKey == ScopedKey(Principal(task.tenantId, false), r.idempotencyKey)
    && task.status != SUCCEEDED
  }

  predicate BuildUnsucceeded(tasks: map<string, Task>, row: Index, id: nat) {
    exists t | t in tasks :: BuildsRow(tasks[t], row, id)
  }

  /** The row still waits although every task it could wait for has succeeded. */
  predicate LeftBehind(f: Fleet, id: nat)
    requires id in f.indexes
  {
    var row := f.indexes[id];
    || (row.status == OPTIMIZING && !OptimizeUnsucceeded(f.db.tasks, row.datasetUuid))
    || (row.status == BUILDING && !BuildUnsucceeded(f.db.tasks, row, id))
  }

  predicate NoneLeftBehind(f: Fleet) {
    forall id | id in f.indexes :: !LeftBehind(f, id)
  }

  /** A user call that submits a task finds its idempotency key free. */
  predicate KeyFree(e: FleetEvent) {
    (e.Create? || e.Optimize? ==> e.s.holder.None?)
  }

  // ---- One step ----

  /** Rows of the queue stay recognizable, and no index task has newly succeeded. */
  predicate TasksAdvance(before: map<string, Task>, after: map<string, Task>) {
    forall t | t in before ::
      && t in after
      && (after[t].taskType, after[t].datasetUuid, after[t].params, after[t].idempotencyKey, after[t].tenantId)
         == (before[t].taskType, before[t].datasetUuid, before[t].params, before[t].idempotencyKey, before[t].tenantId)
      && (after[t].status == SUCCEEDED && before[t].status != SUCCEEDED ==> !IsIndexTask(before[t]))
  }

  lemma UnsucceededKept(before: map<string, Task>, after: map<string, Task>, dataset: string, row: Index, id: nat)
    requires TasksAdvance(before, after)
    ensures OptimizeUnsucceeded(before, dataset) ==> OptimizeUnsucceeded(after, dataset)
    ensures BuildUnsucceeded(before, row, id) ==> BuildUnsucceeded(after, row, id)
  {
    if OptimizeUnsucceeded(before, dataset) {
      var t :| t in before && OptimizesDataset(before[t], dataset);
      assert OptimizesDataset(after[t], dataset);
    }
    if BuildUnsucceeded(before, row, id) {
      var t :| t in before && BuildsRow(before[t], row, id);
      assert BuildsRow(after[t], row, id);
    }
  }

  lemma ProtocolAdvances(db: Db, call: Event)
    requires Enabled(db, call)
    requires call.CompleteCall? && call.t in db.tasks ==> !IsIndexTask(db.tasks[call.t])
    ensures TasksAdvance(db.tasks, Next(db, call).tasks)
  {
    forall t | t in db.tasks
      ensures t in Next(db, call).tasks
      ensures var a, b := db.tasks[t], Next(db, call).tasks[t];
              && (b.taskType, b.datasetUuid, b.params, b.idempotencyKey, b.tenantId)
                 == (a.taskType, a.datasetUuid, a.params, a.idempotencyKey, a.tenantId)
              && (b.status == SUCCEEDED && a.status != SUCCEEDED ==> !IsIndexTask(a))
    {
      RowStep(db, call, t);
    }
  }

  /** Rows that are untouched, and tasks that only advance, leave no row behind that was not. */
  lemma RowNotLeftBehind(f: Fleet, after: Fleet, id: nat)
    requires id in f.indexes && id in after.indexes && after.indexes[id] == f.indexes[id]
    requires TasksAdvance(f.db.tasks, after.db.tasks) && !LeftBehind(f, id)
    ensures !LeftBehind(after, id)
  {
    UnsucceededKept(f.db.tasks, after.db.tasks, f.indexes[id].datasetUuid, f.indexes[id], id);
  }

  lemma NamesKept(f: Fleet, e: FleetEvent)
    requires FleetEnabled(f, e)
    ensures NamesUnique(FleetNext(f, e).indexes)
  {
    if e.Finalization? {
      FinalizeKeepsNames(f, e.w, e.t, e.run, e.now);
    } else if e.Create? {
      CreateKeepsNames(f, e);
    }
  }

  lemma FinalizeKeepsNames(f: Fleet, w: string, t: string, run: Run, now: int)
    requires NamesUnique(f.indexes) && t in f.db.tasks
    ensures NamesUnique(Finalize(f, w, t, run, now).fleet.indexes)
  {
  }

  lemma CreateKeepsNames(f: Fleet, e: FleetEvent)
    requires FleetEnabled(f, e) && e.Create?
    ensures NamesUnique(FleetNext(f, e).indexes)
  {
  }

  /** A finalization either fails the task and leaves the index rows alone, or it is refused and leaves
      everything alone, or it completes the task and promotes in the same commit. */
  lemma FinalizeIsAtomic(f: Fleet, w: string, t: string, run: Run, now: int)
    requires NamesUnique(f.indexes) && t in f.db.tasks
    ensures var o := Finalize(f, w, t, run, now);
            || (o.reply.Refused? && o.fleet == f)
            || (o.reply == Done && o.fleet.db.tasks[t].status == FAILED && o.fleet.indexes == f.indexes)
            || (o.reply == Done && o.fleet.db.tasks[t].status == SUCCEEDED && run.Ran?
                && Executed(f.indexes, f.db.tasks[t], run.version, now) == Some(o.fleet.indexes))
    ensures Finalize(f, w, t, run, now).reply == Done <==> Owns(f.db, w, t)
  {
  }

  lemma FinalizeLeavesNoneBehind(f: Fleet, e: FleetEvent)
    requires e.Finalization? && FleetEnabled(f, e) && NoneLeftBehind(f)
    ensures NoneLeftBehind(FleetNext(f, e))
  {
    var after := FleetNext(f, e);
    var task := f.db.tasks[e.t];
    FinalizeIsAtomic(f, e.w, e.t, e.run, e.now);
    if after.indexes == f.indexes {
      FinalizeAdvances(f, e.w, e.t, e.run, e.now);
    }
    forall id | id in after.indexes ensures !LeftBehind(after, id) {
      assert id in f.indexes && !LeftBehind(f, id);
      if TasksAdvance(f.db.tasks, after.db.tasks) && after.indexes == f.indexes {
        RowNotLeftBehind(f, after, id);
      } else {
        CompletedLeavesNoneBehind(f, after, e.t, id);
      }
    }
  }

  /** Unless it completes the task, a finalization lets tasks only advance. */
  lemma FinalizeAdvances(f: Fleet, w: string, t: string, run: Run, now: int)
    requires NamesUnique(f.indexes) && t in f.db.tasks
    ensures var after := Finalize(f, w, t, run, now).fleet;
            || after == f
            || after.db.tasks[t].status == SUCCEEDED
            || TasksAdvance(f.db.tasks, after.db.tasks)
  {
  }

  /** A row's own build task, once its executor has run, promotes that very row. */
  lemma OwnBuildPromotes(indexes: map<nat, Index>, task: Task, version: Option<int>, now: int, id: nat)
    requires NamesUnique(indexes) && id in indexes
    requires Executed(indexes, task, version, now).Some?
    ensures var after := Executed(indexes, task, version, now).value;
            BuildsRow(task, indexes[id], id) ==> id in after && after[id].status == READY
  {
    var row := indexes[id];
    if BuildsRow(task, row, id) {
      assert task.params["index_name"] == Text(row.indexName);
      assert Names(indexes, task.datasetUuid, row.indexName, id);
    }
  }

  /** Completing a task together with its promotions leaves no row behind: the rows that counted on it are
      exactly the ones it promotes. */
  lemma CompletedLeavesNoneBehind(f: Fleet, after: Fleet, t: string, id: nat)
    requires NamesUnique(f.indexes) && t in f.db.tasks && id in f.indexes && !LeftBehind(f, id)
    requires after.db.tasks.Keys == f.db.tasks.Keys
    requires forall u | u in f.db.tasks && u != t :: after.db.tasks[u] == f.db.tasks[u]
    requires exists version, now ::
               Executed(f.indexes, f.db.tasks[t], version, now) == Some(after.indexes)
    ensures id in after.indexes && !LeftBehind(after, id)
  {
    var version, now :| Executed(f.indexes, f.db.tasks[t], version, now) == Some(after.indexes);
    var row, task := f.indexes[id], f.db.tasks[t];
    if after.indexes[id] == row {
      if row.status == OPTIMIZING {
        var u :| u in f.db.tasks && OptimizesDataset(f.db.tasks[u], row.datasetUuid);
        assert u != t;
        assert OptimizesDataset(after.db.tasks[u], row.datasetUuid);
      }
      if row.status == BUILDING {
        var u :| u in f.db.tasks && BuildsRow(f.db.tasks[u], row, id);
        OwnBuildPromotes(f.indexes, task, version, now, id);
        assert BuildsRow(after.db.tasks[u], row, id);
      }
    }
  }

  /** Every step keeps all rows from being left behind, when user submissions find their keys free. */
  lemma StepLeavesNoneBehind(f: Fleet, e: FleetEvent)
    requires FleetEnabled(f, e) && NoneLeftBehind(f) && KeyFree(e)
    ensures NoneLeftBehind(FleetNext(f, e))
  {
    var after := FleetNext(f, e);
    if e.Finalization? {
      FinalizeLeavesNoneBehind(f, e);
    } else {
      StepAdvances(f, e);
      forall id | id in after.indexes ensures !LeftBehind(after, id) {
        if id in f.indexes && after.indexes[id] == f.indexes[id] {
          RowNotLeftBehind(f, after, id);
        } else {
          ChangedRowHasTask(f, e, id);
        }
      }
    }
  }

  lemma StepAdvances(f: Fleet, e: FleetEvent)
    requires FleetEnabled(f, e) && !e.Finalization?
    ensures TasksAdvance(f.db.tasks, FleetNext(f, e).db.tasks)
  {
    if e.Protocol? {
      ProtocolAdvances(f.db, e.e);
    }
  }

  lemma CreatedRowHasTask(f: Fleet, e: FleetEvent, id: nat)
    requires FleetEnabled(f, e) && KeyFree(e) && e.Create?
    requires id in FleetNext(f, e).indexes
    requires id !in f.indexes || FleetNext(f, e).indexes[id] != f.indexes[id]
    ensures !LeftBehind(FleetNext(f, e), id)
  {
    var after := FleetNext(f, e);
    if after.indexes[id].status == BUILDING {
      assert BuildsRow(after.db.tasks[e.s.uuid], after.indexes[id], id);
    }
  }

  lemma ChangedRowHasTask(f: Fleet, e: FleetEvent, id: nat)
    requires FleetEnabled(f, e) && KeyFree(e) && !e.Finalization?
    requires id in FleetNext(f, e).indexes
    requires id !in f.indexes || FleetNext(f, e).indexes[id] != f.indexes[id]
    ensures !LeftBehind(FleetNext(f, e), id)
  {
    var after := FleetNext(f, e);
    match e
    case Create(_, _, _, _, _, _, _, _, _) => CreatedRowHasTask(f, e, id);
    case Optimize(_, _, _, s, _) =>
      if after.indexes[id].status == OPTIMIZING {
        assert OptimizesDataset(after.db.tasks[s.uuid], after.indexes[id].datasetUuid);
      }
    case Watch(_, _, _, uuid, _) => assert OptimizesDataset(after.db.tasks[uuid], after.indexes[id].datasetUuid);
    case _ =>
  }

  // ---- Whole runs ----

  predicate FleetValid(start: Fleet, es: seq<FleetEvent>)
    decreases |es|, 0
  {
    es == [] ||
    (FleetValid(start, es[..|es| - 1]) && FleetEnabled(FleetExec(start, es[..|es| - 1]), es[|es| - 1]))
  }

  function FleetExec(start: Fleet, es: seq<FleetEvent>): Fleet
    requires FleetValid(start, es)
    decreases |es|, 1
  {
    if es == [] then start else FleetNext(FleetExec(start, es[..|es| - 1]), es[|es| - 1])
  }

  const EMPTY_FLEET := Fleet(Db(map[], map[]), map[], map[])

  /** No run from empty tables, in which user submissions find their keys free, ever leaves a row behind. */
  lemma {:induction false} NeverLeftBehind(es: seq<FleetEvent>)
    requires FleetValid(EMPTY_FLEET, es) && forall e | e in es :: KeyFree(e)
    ensures NoneLeftBehind(FleetExec(EMPTY_FLEET, es))
  {
    if es != [] {
      var front := es[..|es| - 1];
      NeverLeftBehind(front);
      StepLeavesNoneBehind(FleetExec(EMPTY_FLEET, front), es[|es| - 1]);
    }
  }

  /** Without that: an accepted optimize leaves its row behind exactly when its key is already taken and every
      INDEX_OPTIMIZE task of the dataset has succeeded, for then no task is added. */
  lemma OptimizeLeavesBehindIff(f: Fleet, e: FleetEvent)
    requires e.Optimize? && FleetEnabled(f, e)
    requires OptimizeIndex(f, e.p, e.dataset, e.name, e.s, e.stamp).reply.Accepted?
    ensures var id := OptimizeIndex(f, e.p, e.dataset, e.name, e.s, e.stamp).reply.id;
            && id in FleetNext(f, e).indexes
            && (LeftBehind(FleetNext(f, e), id) <==> e.s.holder.Some? && !OptimizeUnsucceeded(f.db.tasks, e.dataset))
  {
    var id := OptimizeIndex(f, e.p, e.dataset, e.name, e.s, e.stamp).reply.id;
    if e.s.holder.None? {
      ChangedRowHasTask(f, e, id);
    }
  }

  /** An accepted create leaves its row behind exactly when its key is taken by anything but a build task of
      this very row that has not succeeded. */
  lemma CreateLeavesBehindIff(f: Fleet, e: FleetEvent)
    requires e.Create? && FleetEnabled(f, e)
    requires CreateIndex(f, e.p, e.dataset, e.name, e.column, e.indexType, e.replace, e.id, e.s, e.now).reply.Accepted?
    ensures e.id in FleetNext(f, e).indexes
    ensures LeftBehind(FleetNext(f, e), e.id)
            <==> e.s.holder.Some? && !BuildUnsucceeded(f.db.tasks, FleetNext(f, e).indexes[e.id], e.id)
  {
    if e.s.holder.None? {
      ChangedRowHasTask(f, e, e.id);
    }
  }

  lemma FleetExtend(start: Fleet, es: seq<FleetEvent>, e: FleetEvent) returns (longer: seq<FleetEvent>)
    requires FleetValid(start, es) && FleetEnabled(FleetExec(start, es), e)
    ensures longer == es + [e] && FleetValid(start, longer)
    ensures FleetExec(start, longer) == FleetNext(FleetExec(start, es), e)
  {
    longer := es + [e];
    assert longer[..|longer| - 1] == es;
  }

  /** An idle fleet: one worker, one dataset with one READY index, no tasks. */
  const IDLE := Fleet(
    Db(map["w" := Worker("", "l", 1, 0, ALIVE, 0)], map[]),
    map[1 := Index("d", "i", "c", "IVF_PQ", READY, 0, None, None, None)],
    map["d" := Dataset("a", "c", "s", "t", "u", None, false)])

  const USER := Principal("a", false)

  function Optimizing(holder: Option<string>, uuid: string): FleetEvent {
    Optimize(USER, "d", "i", Submission(holder, uuid, false), 5)
  }

  function Row(status: IndexStatus): Index {
    Index("d", "i", "c", "IVF_PQ", status, 0, Some(5), None, None)
  }

  function FirstTask(): Task {
    NewTask(USER, OptimizeRequest("d", "i", 1, 5), 5)
  }

  function Flipped(): Fleet {
    Fleet(Db(IDLE.db.workers, map["t" := FirstTask()]), map[1 := Row(OPTIMIZING)], IDLE.datasets)
  }

  function Running(): Fleet {
    Fleet(Db(map["w" := IDLE.db.workers["w"].(inFlight := 1)],
             map["t" := FirstTask().(status := RUNNING, workerId := Some("w"), startedAt := Some(5), attempt := 1)]),
          map[1 := Row(OPTIMIZING)], IDLE.datasets)
  }

  lemma FlipStep()
    ensures FleetEnabled(IDLE, Optimizing(None, "t")) && FleetNext(IDLE, Optimizing(None, "t")) == Flipped()
  {
    assert Names(IDLE.indexes, "d", "i", 1);
    assert Lookup(IDLE.indexes, "d", "i") == Some(1);
  }

  lemma ClaimStep()
    ensures var e := Protocol(ClaimCall("w", "l", None, {}, Some("t"), 5));
            FleetEnabled(Flipped(), e) && FleetNext(Flipped(), e) == Running()
  {
  }

  lemma PromoteStep()
    ensures var e := Finalization("w", "t", Ran(None, ""), 5);
            && FleetEnabled(Running(), e)
            && var f := FleetNext(Running(), e);
            && f.datasets == IDLE.datasets && f.indexes == map[1 := Row(READY)]
            && f.db.tasks == map["t" := Running().db.tasks["t"].(status := SUCCEEDED, finishedAt := Some(5),
                                                                  result := Some(""))]
  {
    assert Owns(Running().db, "w", "t");
  }

  lemma FirstOptimizeRound() returns (es: seq<FleetEvent>)
    ensures FleetValid(IDLE, es)
    ensures var f := FleetExec(IDLE, es);
            && f.datasets == IDLE.datasets
            && f.indexes == map[1 := Row(READY)]
            && f.db.tasks == map["t" := Running().db.tasks["t"].(status := SUCCEEDED, finishedAt := Some(5),
                                                                  result := Some(""))]
  {
    assert FleetValid(IDLE, []) && FleetExec(IDLE, []) == IDLE;
    FlipStep();
    var s1 := FleetExtend(IDLE, [], Optimizing(None, "t"));
    ClaimStep();
    var s2 := FleetExtend(IDLE, s1, Protocol(ClaimCall("w", "l", None, {}, Some("t"), 5)));
    PromoteStep();
    es := FleetExtend(IDLE, s2, Finalization("w", "t", Ran(None, ""), 5));
  }

  /** The key of an optimize is made of the index and the clock reading, so it is taken when an index is
      optimized, promoted and optimized again at the same reading: the second call then leaves it behind. */
  lemma SecondOptimizeAtSameTime() returns (es: seq<FleetEvent>)
    ensures NoneLeftBehind(IDLE) && FleetValid(IDLE, es)
    ensures 1 in FleetExec(IDLE, es).indexes && LeftBehind(FleetExec(IDLE, es), 1)
  {
    var s := FirstOptimizeRound();
    var f := FleetExec(IDLE, s);
    SecondOptimizeStep(f);
    es := FleetExtend(IDLE, s, Optimizing(Some("t"), "t2"));
    OptimizeLeavesBehindIff(f, Optimizing(Some("t"), "t2"));
  }

  /** The second optimize finds its key taken by the finished task. */
  lemma SecondOptimizeStep(f: Fleet)
    requires f.datasets == IDLE.datasets && f.indexes == map[1 := Row(READY)]
    requires f.db.tasks == map["t" := Running().db.tasks["t"].(status := SUCCEEDED, finishedAt := Some(5),
                                                               result := Some(""))]
    ensures FleetEnabled(f, Optimizing(Some("t"), "t2"))
    ensures OptimizeIndex(f, USER, "d", "i", Submission(Some("t"), "t2", false), 5).reply == Accepted(1)
    ensures !OptimizeUnsucceeded(f.db.tasks, "d")
  {
    assert Names(f.indexes, "d", "i", 1);
    assert Lookup(f.indexes, "d", "i") == Some(1);
    assert "t" in Holders(f.db.tasks, f.db.tasks["t"].idempotencyKey);
  }

  /** A whole watcher pass leaves no row behind. */
  lemma {:induction false} PassLeavesNoneBehind(f: Fleet, policies: map<nat, Policy>, rows: seq<IndexWatcher.Candidate>,
                                              world: IndexWatcher.World)
    requires NamesUnique(f.indexes) && NoneLeftBehind(f)
    requires forall c | c in rows :: IndexWatcher.Readable(f, policies, c) && f.indexes[c.index].status == READY
    requires IndexWatcher.FreshIds(f, rows, world)
    ensures NamesUnique(IndexWatcher.RunPass(f, policies, rows, world).fleet.indexes)
    ensures NoneLeftBehind(IndexWatcher.RunPass(f, policies, rows, world).fleet)
  {
    if rows != [] {
      var front, c := rows[..|rows| - 1], rows[|rows| - 1];
      assert c in rows;
      IndexWatcher.FreshFront(f, rows, world);
      PassLeavesNoneBehind(f, policies, front, world);
      IndexWatcher.PassGrows(f, policies, front, world);
      WatchRowLeavesNoneBehind(IndexWatcher.RunPass(f, policies, front, world).fleet, policies, c, world);
    }
  }

  lemma WatchRowLeavesNoneBehind(f: Fleet, policies: map<nat, Policy>, c: IndexWatcher.Candidate,
                               world: IndexWatcher.World)
    requires NamesUnique(f.indexes) && NoneLeftBehind(f) && IndexWatcher.Readable(f, policies, c)
    requires f.indexes[c.index].status in {READY, OPTIMIZING} && world.newId(c) !in f.db.tasks
    ensures var after := IndexWatcher.WatchRow(f, policies, c, world.lance(c), world.newId(c), world.now).fleet;
            NamesUnique(after.indexes) && NoneLeftBehind(after)
  {
    if world.lance(c).Live? {
      var row := f.indexes[c.index];
      var reason := IndexWatcher.DecideTrigger(world.lance(c).unindexed, world.lance(c).latest, row.lastSeenVersion,
                                               row.lastOptimizedAt, world.now, policies[c.policy]).reason;
      var e := Watch(c.index, world.lance(c).latest, reason.Tag(), world.newId(c), world.now);
      assert FleetEnabled(f, e);
      StepLeavesNoneBehind(f, e);
      NamesKept(f, e);
    }
  }

  // ---- DROPPED ----

  /** DROPPED is left in exactly two ways: the row is replaced by a new create, or an INDEX_BUILD run that
      targets it completes, which does not look at the status it finds. */
  lemma DroppedRowLeavesIff(f: Fleet, e: FleetEvent, id: nat)
    requires FleetEnabled(f, e) && id in f.indexes && f.indexes[id].status == DROPPED
    ensures var after := FleetNext(f, e);
            !(id in after.indexes && after.indexes[id].status == DROPPED)
            <==>
            || (e.Create? && e.replace && Guard(f, e.p, e.dataset) && Lookup(f.indexes, e.dataset, e.name) == Some(id))
            || (e.Finalization? && e.run.Ran? && Owns(f.db, e.w, e.t) && f.db.tasks[e.t].taskType == INDEX_BUILD
                && f.db.tasks[e.t].datasetUuid in f.datasets && BuildTarget(f.indexes, f.db.tasks[e.t]) == Some(id))
  {
    if e.Finalization? {
      DroppedRowPromotedIff(f, e.w, e.t, e.run, e.now, id);
    }
  }

  lemma DroppedRowPromotedIff(f: Fleet, w: string, t: string, run: Run, now: int, id: nat)
    requires NamesUnique(f.indexes) && t in f.db.tasks && id in f.indexes && f.indexes[id].status == DROPPED
    ensures var after := Finalize(f, w, t, run, now).fleet;
            && id in after.indexes
            && (after.indexes[id].status != DROPPED
                <==> run.Ran? && Owns(f.db, w, t) && f.db.tasks[t].taskType == INDEX_BUILD
                     && f.db.tasks[t].datasetUuid in f.datasets && BuildTarget(f.indexes, f.db.tasks[t]) == Some(id))
  {
  }
}
