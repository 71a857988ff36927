/** When an index row waits for good: no task is left that can run and promote it.  Which event strands a
    row is stated exactly, for every event, by what holds before it. */
module IndexStranding {
  import opened Database
  import opened Dispatch
  import opened TaskHistory
  import opened IndexLifecycle
  import opened IndexInvariants

  /** The task can still run: it is running, or a claim may take it, now or after a retry. */
  predicate CanRun(task: Task) {
    || task.status == RUNNING
    || (Waiting(task) && task.attempt < task.maxAttempts)
    || (task.status == FAILED && task.attempt + 1 < task.maxAttempts)
  }

  /** A completed run of the task promotes the row as it stands. */
  predicate Serves(task: Task, row: Index) {
    task.datasetUuid == row.datasetUuid &&
    if task.taskType == INDEX_OPTIMIZE then row.status == OPTIMIZING
    else
      && task.taskType == INDEX_BUILD && Required(task, "index_name") == Some(row.indexName)
      && Required(task, "column_name").Some? && Required(task, "index_type").Some?
  }

  /** The tasks a row can hope for. */
  function Hopes(tasks: map<string, Task>, row: Index): set<string> {
    set t | t in tasks && CanRun(tasks[t]) && Serves(tasks[t], row)
  }

  predicate Awaits(row: Index) {
    row.status in {BUILDING, OPTIMIZING}
  }

  /** The row waits, and no task that can run would promote it. */
  predicate Stranded(f: Fleet, id: nat)
    requires id in f.indexes
  {
    Awaits(f.indexes[id]) && Hopes(f.db.tasks, f.indexes[id]) == {}
  }

  predicate NoneStranded(f: Fleet) {
    forall id | id in f.indexes :: !Stranded(f, id)
  }

  // ---- Calls on the queue ----

  /** The tasks a call makes unable to run: the one it cancels or completes, the one whose last attempt it
      fails, and requeued ones that have used up their attempts. */
  function SpentBy(db: Db, call: Event): set<string> {
    match call
    case CancelCall(p, t, _) =>
      if t in db.tasks && p.Sees(db.tasks[t].tenantId) && (Waiting(db.tasks[t]) || db.tasks[t].status == RUNNING)
      then {t} else {}
    case CompleteCall(w, t, _, _) => if Owns(db, w, t) then {t} else {}
    case FailCall(w, t, _, _, _) => if Owns(db, w, t) && LastAttempt(db.tasks[t]) then {t} else {}
    case ReapCall(cutoff, locked) =>
      set t | t in db.tasks && RunningUnder(db.tasks[t], Stale(db.workers, cutoff, locked))
              && db.tasks[t].attempt >= db.tasks[t].maxAttempts
    case _ => {}
  }

  /** A failure at this attempt leaves no retry that could be dispatched. */
  predicate LastAttempt(task: Task) {
    task.attempt + 1 >= task.maxAttempts
  }

  /** Exactly the spent tasks stop being able to run, and none starts again. */
  lemma CanRunStep(db: Db, call: Event, t: string)
    requires Enabled(db, call) && t in db.tasks
    ensures t in Next(db, call).tasks
    ensures CanRun(Next(db, call).tasks[t]) <==> CanRun(db.tasks[t]) && t !in SpentBy(db, call)
  {
    RowStep(db, call, t);
  }

  lemma HopesAfterCall(f: Fleet, call: Event, row: Index)
    requires Enabled(f.db, call)
    ensures Hopes(f.db.tasks, row) - SpentBy(f.db, call) <= Hopes(Next(f.db, call).tasks, row)
    ensures !call.SubmitCall? ==> Hopes(Next(f.db, call).tasks, row) == Hopes(f.db.tasks, row) - SpentBy(f.db, call)
  {
    var after := Next(f.db, call).tasks;
    forall t | t in f.db.tasks
      ensures t in Hopes(after, row) <==> t in Hopes(f.db.tasks, row) && t !in SpentBy(f.db, call)
    {
      CanRunStep(f.db, call, t);
      RowStep(f.db, call, t);
    }
    forall t | t in after && t !in f.db.tasks ensures call.SubmitCall? {
      RowBorn(f.db, call, t);
    }
  }

  // ---- Finalizations ----

  /** The run ends in a failure. */
  predicate FinalizeFails(f: Fleet, t: string, run: Run)
    requires NamesUnique(f.indexes) && t in f.db.tasks
  {
    var task := f.db.tasks[t];
    || task.datasetUuid !in f.datasets || task.taskType !in TASK_TYPES || run.Raised?
    || (task.taskType == INDEX_BUILD && BuildTarget(f.indexes, task).None?)
  }

  lemma FinalizeTasks(f: Fleet, w: string, t: string, run: Run, now: int)
    requires NamesUnique(f.indexes) && t in f.db.tasks
    ensures var after := Finalize(f, w, t, run, now).fleet;
            && after.db.tasks.Keys == f.db.tasks.Keys
            && (forall u | u in f.db.tasks && u != t :: after.db.tasks[u] == f.db.tasks[u])
            && (!Owns(f.db, w, t) ==> after == f)
            && (Owns(f.db, w, t) ==> after.db.tasks[t].status == if FinalizeFails(f, t, run) then FAILED else SUCCEEDED)
  {
  }

  /** The columns of a task that no finalization changes. */
  lemma FinalizedTask(f: Fleet, w: string, t: string, run: Run, now: int)
    requires NamesUnique(f.indexes) && t in f.db.tasks
    ensures var a := f.db.tasks[t];
            t in Finalize(f, w, t, run, now).fleet.db.tasks &&
            var b := Finalize(f, w, t, run, now).fleet.db.tasks[t];
            (a.taskType, a.datasetUuid, a.params, a.attempt, a.maxAttempts)
              == (b.taskType, b.datasetUuid, b.params, b.attempt, b.maxAttempts)
  {
  }

  lemma ExecutedRow(indexes: map<nat, Index>, task: Task, version: Option<int>, now: int, id: nat)
    requires NamesUnique(indexes) && id in indexes && Executed(indexes, task, version, now).Some?
    ensures var after := Executed(indexes, task, version, now).value;
            && after.Keys == indexes.Keys
            && (Serves(task, indexes[id]) ==> after[id].status == READY)
            && (!Serves(task, indexes[id]) ==> after[id] == indexes[id])
  {
    if task.taskType == INDEX_BUILD {
      ServesTarget(indexes, task, id);
    }
  }

  /** What a finalization does to one row: nothing, unless it succeeds for a task that serves the row. */
  lemma FinalizeRow(f: Fleet, w: string, t: string, run: Run, now: int, id: nat)
    requires NamesUnique(f.indexes) && t in f.db.tasks && id in f.indexes
    ensures var after := Finalize(f, w, t, run, now).fleet;
            && id in after.indexes
            && if Owns(f.db, w, t) && !FinalizeFails(f, t, run) && Serves(f.db.tasks[t], f.indexes[id])
               then after.indexes[id].status == READY else after.indexes[id] == f.indexes[id]
  {
    if run.Ran? && Executed(f.indexes, f.db.tasks[t], run.version, now).Some? {
      ExecutedRow(f.indexes, f.db.tasks[t], run.version, now, id);
    }
  }

  /** A build task serves exactly the row its executor looks up. */
  lemma ServesTarget(indexes: map<nat, Index>, task: Task, id: nat)
    requires NamesUnique(indexes) && id in indexes && task.taskType == INDEX_BUILD
    ensures Serves(task, indexes[id]) <==> BuildTarget(indexes, task) == Some(id)
  {
    if Serves(task, indexes[id]) {
      assert Names(indexes, task.datasetUuid, indexes[id].indexName, id);
    }
  }

  // ---- Which event strands a row ----

  /** What strands the row `id`, told from the state before the event. */
  predicate Strands(f: Fleet, e: FleetEvent, id: nat)
    requires FleetEnabled(f, e)
  {
    match e
    case Protocol(call) =>
      // The call spends every task the row could hope for.
      id in f.indexes && Awaits(f.indexes[id]) && Hopes(f.db.tasks, f.indexes[id]) <= SpentBy(f.db, call)
    case Finalization(w, t, run, _) =>
      // The last attempt of the last such task fails.
      && id in f.indexes && Awaits(f.indexes[id]) && Hopes(f.db.tasks, f.indexes[id]) == {t}
      && Owns(f.db, w, t) && FinalizeFails(f, t, run) && LastAttempt(f.db.tasks[t])
    case Optimize(p, dataset, name, s, stamp) =>
      // The key is taken, so no task is added, and no other can run.
      && OptimizeIndex(f, p, dataset, name, s, stamp).reply == Accepted(id)
      && s.holder.Some? && Hopes(f.db.tasks, f.indexes[id].(status := OPTIMIZING)) == {}
    case Create(p, dataset, name, column, indexType, replace, newId, s, now) =>
      // The same, or the new task lacks a parameter its executor requires.
      && CreateIndex(f, p, dataset, name, column, indexType, replace, newId, s, now).reply == Accepted(id)
      && (s.holder.Some? || name == "" || column == "" || indexType == "")
      && Hopes(f.db.tasks, NewRow(dataset, name, column, indexType)) == {}
    case _ => false
  }

  function NewRow(dataset: string, name: string, column: string, indexType: string): Index {
    Index(dataset, name, column, indexType, BUILDING, 0, None, None, None)
  }

  /** A call on the queue strands a waiting row if and only if it spends every task the row could hope for. */
  lemma CallStrandsIff(f: Fleet, e: FleetEvent, id: nat)
    requires e.Protocol? && FleetEnabled(f, e) && id in f.indexes && !Stranded(f, id)
    ensures Stranded(FleetNext(f, e), id) <==> Strands(f, e, id)
  {
    HopesAfterCall(f, e.e, f.indexes[id]);
  }

  /** A cancel strands a waiting row if and only if it is the last task the row could hope for. */
  lemma CancelStrandsIff(f: Fleet, p: Principal, t: string, now: int, id: nat)
    requires FleetEnabled(f, Protocol(CancelCall(p, t, now))) && id in f.indexes && !Stranded(f, id)
    ensures Stranded(FleetNext(f, Protocol(CancelCall(p, t, now))), id)
            <==> && Awaits(f.indexes[id]) && Hopes(f.db.tasks, f.indexes[id]) == {t}
                 && p.Sees(f.db.tasks[t].tenantId) && f.db.tasks[t].status != FAILED
  {
    CallStrandsIff(f, Protocol(CancelCall(p, t, now)), id);
    if Hopes(f.db.tasks, f.indexes[id]) == {t} {
      assert t in Hopes(f.db.tasks, f.indexes[id]);
    }
  }

  /** A finalization strands a waiting row if and only if it fails the last attempt of its last hope. */
  lemma FinalizationStrandsIff(f: Fleet, e: FleetEvent, id: nat)
    requires e.Finalization? && FleetEnabled(f, e) && id in f.indexes && !Stranded(f, id)
    ensures id in FleetNext(f, e).indexes
    ensures Stranded(FleetNext(f, e), id) <==> Strands(f, e, id)
  {
    var after, row, t := FleetNext(f, e), f.indexes[id], e.t;
    FinalizeTasks(f, e.w, t, e.run, e.now);
    FinalizedTask(f, e.w, t, e.run, e.now);
    FinalizeRow(f, e.w, t, e.run, e.now, id);
    if after.indexes[id] == row {
      forall u | u in f.db.tasks && u != t
        ensures u in Hopes(after.db.tasks, row) <==> u in Hopes(f.db.tasks, row)
      {
      }
      assert Hopes(after.db.tasks, row) - {t} == Hopes(f.db.tasks, row) - {t};
    }
  }

  lemma HopesGrow(before: map<string, Task>, after: map<string, Task>, row: Index)
    requires forall t | t in before :: t in after && after[t] == before[t]
    ensures Hopes(before, row) <= Hopes(after, row)
  {
  }

  /** An accepted optimize strands its row if and only if its key is taken and no task can run that would
      promote it once it is OPTIMIZING. */
  lemma OptimizeStrandsIff(f: Fleet, e: FleetEvent, id: nat)
    requires e.Optimize? && FleetEnabled(f, e)
    requires OptimizeIndex(f, e.p, e.dataset, e.name, e.s, e.stamp).reply == Accepted(id)
    ensures id in f.indexes && id in FleetNext(f, e).indexes
    ensures Stranded(FleetNext(f, e), id)
            <==> e.s.holder.Some? && Hopes(f.db.tasks, f.indexes[id].(status := OPTIMIZING)) == {}
  {
    var after, flipped := FleetNext(f, e), f.indexes[id].(status := OPTIMIZING);
    assert forall t | t in after.db.tasks ::
             Serves(after.db.tasks[t], after.indexes[id]) == Serves(after.db.tasks[t], flipped);
    assert Hopes(after.db.tasks, after.indexes[id]) == Hopes(after.db.tasks, flipped);
    if e.s.holder.None? {
      assert e.s.uuid in Hopes(after.db.tasks, after.indexes[id]);
    }
  }

  /** An accepted create strands its row if and only if no task can run that builds an index of this name,
      and none is added: the key is taken, or the new task lacks a parameter. */
  lemma CreateStrandsIff(f: Fleet, e: FleetEvent)
    requires e.Create? && FleetEnabled(f, e)
    requires CreateIndex(f, e.p, e.dataset, e.name, e.column, e.indexType, e.replace, e.id, e.s, e.now).reply
             == Accepted(e.id)
    ensures e.id in FleetNext(f, e).indexes
    ensures Stranded(FleetNext(f, e), e.id)
            <==> && (e.s.holder.Some? || e.name == "" || e.column == "" || e.indexType == "")
                 && Hopes(f.db.tasks, NewRow(e.dataset, e.name, e.column, e.indexType)) == {}
  {
    var after, row := FleetNext(f, e), NewRow(e.dataset, e.name, e.column, e.indexType);
    assert after.indexes[e.id] == row;
    if e.s.holder.None? {
      var task := after.db.tasks[e.s.uuid];
      assert Serves(task, row) <==> e.name != "" && e.column != "" && e.indexType != "";
      assert Hopes(after.db.tasks, row) == Hopes(f.db.tasks, row) + if Serves(task, row) then {e.s.uuid} else {};
    }
  }

  /** Nothing else strands a row. */
  lemma OthersStrandNothing(f: Fleet, e: FleetEvent, id: nat)
    requires FleetEnabled(f, e) && (e.SetIndex? || e.Watch? || e.Insert? || e.Datasets?)
    requires id in FleetNext(f, e).indexes && (id in f.indexes ==> !Stranded(f, id))
    ensures !Stranded(FleetNext(f, e), id)
  {
    var after := FleetNext(f, e);
    if after.indexes[id] == f.indexes[id] {
      HopesGrow(f.db.tasks, after.db.tasks, f.indexes[id]);
    } else if e.Watch? {
      assert e.uuid in Hopes(after.db.tasks, after.indexes[id]);
    }
  }

  /** A create or an optimize leaves the other rows, and those of a refused call, as they were. */
  lemma SubmittingStrandsNoOther(f: Fleet, e: FleetEvent, id: nat)
    requires FleetEnabled(f, e) && (e.Create? || e.Optimize?)
    requires id in FleetNext(f, e).indexes && (id in f.indexes ==> !Stranded(f, id))
    requires e.Create? ==>
               CreateIndex(f, e.p, e.dataset, e.name, e.column, e.indexType, e.replace, e.id, e.s, e.now).reply
               != Accepted(id)
    requires e.Optimize? ==> OptimizeIndex(f, e.p, e.dataset, e.name, e.s, e.stamp).reply != Accepted(id)
    ensures !Stranded(FleetNext(f, e), id)
  {
    var after := FleetNext(f, e);
    if id in f.indexes && after.indexes[id] == f.indexes[id] {
      HopesGrow(f.db.tasks, after.db.tasks, f.indexes[id]);
    }
  }

  /** An event strands a row that was not stranded if and only if it is one of the four kinds above. */
  lemma StrandsIff(f: Fleet, e: FleetEvent, id: nat)
    requires FleetEnabled(f, e) && id in FleetNext(f, e).indexes && (id in f.indexes ==> !Stranded(f, id))
    ensures Stranded(FleetNext(f, e), id) <==> Strands(f, e, id)
  {
    match e
    case Protocol(_) => CallStrandsIff(f, e, id);
    case Finalization(_, t, _, _) => FinalizationKeepsRows(f, e); FinalizationStrandsIff(f, e, id);
    case Create(p, dataset, name, column, indexType, replace, newId, s, now) =>
      if CreateIndex(f, p, dataset, name, column, indexType, replace, newId, s, now).reply == Accepted(id) {
        assert id == newId;
        CreateStrandsIff(f, e);
      } else {
        SubmittingStrandsNoOther(f, e, id);
      }
    case Optimize(p, dataset, name, s, stamp) =>
      if OptimizeIndex(f, p, dataset, name, s, stamp).reply == Accepted(id) {
        OptimizeStrandsIff(f, e, id);
      } else {
        SubmittingStrandsNoOther(f, e, id);
      }
    case _ => OthersStrandNothing(f, e, id);
  }

  lemma FinalizationKeepsRows(f: Fleet, e: FleetEvent)
    requires FleetEnabled(f, e) && e.Finalization?
    ensures FleetNext(f, e).indexes.Keys == f.indexes.Keys
  {
  }

  // ---- Whole runs ----

  /** Some event of the run strands the row. */
  ghost predicate StrandedIn(es: seq<FleetEvent>, id: nat)
    requires FleetValid(EMPTY_FLEET, es)
    decreases |es|
  {
    es != [] && (StrandedIn(es[..|es| - 1], id) || Strands(FleetExec(EMPTY_FLEET, es[..|es| - 1]), es[|es| - 1], id))
  }

  /** In every run from empty tables, a stranded row was stranded by an event of one of the four kinds. */
  lemma {:induction false} NeverStrandedOtherwise(es: seq<FleetEvent>, id: nat)
    requires FleetValid(EMPTY_FLEET, es) && id in FleetExec(EMPTY_FLEET, es).indexes
             && Stranded(FleetExec(EMPTY_FLEET, es), id)
    ensures StrandedIn(es, id)
  {
    if es != [] {
      var front, e := es[..|es| - 1], es[|es| - 1];
      var f := FleetExec(EMPTY_FLEET, front);
      if id in f.indexes && Stranded(f, id) {
        NeverStrandedOtherwise(front, id);
      } else {
        StrandsIff(f, e, id);
      }
    }
  }
}
