/** The feedback loop between the watcher, which emits an optimize task when an index has drifted, and
    the optimize runs, which themselves make new dataset versions. */
module OptimizeLoop {
  import opened Database
  import opened Dispatch
  import opened IndexLifecycle
  import opened IndexWatcher
  import IndexInvariants
  import IndexStranding
  import TaskHistory
  import Keys

  type FleetEvent = IndexInvariants.FleetEvent

  /** A worker's run of an optimize task: who claimed which task, and the version it saw after its lance
      commit, once that is done. */
  datatype LiveRun = LiveRun(task: string, worker: string, seen: Option<nat>)

  /** The fleet with one watched index, `id`, and its lance dataset: the version, the rows the index does
      not cover, and the optimize runs under way. */
  datatype Site = Site(id: nat, fleet: Fleet, version: nat, unindexed: nat, runs: map<nat, LiveRun>)

  datatype Move =
    /** A user writes to the dataset behind the service's back. */
    | Append(rows: nat)
    /** The watcher comes to the index; old lance versions do not report the row count. */
    | Watch(counted: bool, policy: Policy, uuid: string, now: int)
    /** A worker is given an optimize task of the dataset and starts a run. */
    | Begin(run: nat, call: Event)
    /** The lance half of a run: a new version, or several, and no row left unindexed.  It does not look
        whether the task is still the worker's. */
    | Commit(run: nat, bump: nat)
    /** The run is finalized. */
    | End(run: nat, result: string, now: int)
    /** The run raises, before or after its lance half; what lance committed stays. */
    | Crash(run: nat, code: string, message: string, now: int)
    /** The worker's process dies; the task stays RUNNING. */
    | Abandon(run: nat)
    /** Anything else that leaves the row of this index alone: claims nobody survives, reaps, cancels, retries,
        planner ticks, and all that happens to other indexes. */
    | Elsewhere(e: FleetEvent)

  /** The thresholds the policy schema admits. */
  predicate Positive(policy: Policy) {
    && (policy.minUnindexedRows.Some? ==> policy.minUnindexedRows.value >= 1)
    && (policy.minVersionDrift.Some? ==> policy.minVersionDrift.value >= 1)
  }

  /** What lance reports when the watcher asks. */
  function StatsFor(s: Site, counted: bool): Stats {
    Live(s.version, if counted then Some(s.unindexed) else None)
  }

  /** What the watcher makes of the index, under the one policy that watches it. */
  function Watched(s: Site, m: Move): RowOutcome
    requires m.Watch? && s.id in s.fleet.indexes && s.fleet.indexes[s.id].datasetUuid in s.fleet.datasets
  {
    WatchRow(s.fleet, map[0 := m.policy], Candidate(s.id, 0), StatsFor(s, m.counted), m.uuid, m.now)
  }

  /** An INDEX_OPTIMIZE task of the watched dataset. */
  predicate OptimizesIt(s: Site, task: Task)
    requires s.id in s.fleet.indexes
  {
    task.taskType == INDEX_OPTIMIZE && task.datasetUuid == s.fleet.indexes[s.id].datasetUuid
  }

  predicate CanMove(s: Site, m: Move) {
    s.id in s.fleet.indexes && NamesUnique(s.fleet.indexes) &&
    var row := s.fleet.indexes[s.id];
    match m
    case Append(_) => true
    case Watch(_, policy, uuid, _) =>
      row.status == READY && row.datasetUuid in s.fleet.datasets && Positive(policy) && uuid !in s.fleet.db.tasks
    case Begin(run, call) =>
      && run !in s.runs && call.ClaimCall? && Enabled(s.fleet.db, call)
      && Step(s.fleet.db, call).reply.Claimed? && OptimizesIt(s, s.fleet.db.tasks[Step(s.fleet.db, call).reply.task])
    case Commit(run, bump) => run in s.runs && s.runs[run].seen.None? && bump >= 1
    case End(run, _, _) => run in s.runs && s.runs[run].seen.Some? && s.runs[run].task in s.fleet.db.tasks
    case Crash(run, _, _, _) => run in s.runs && s.runs[run].task in s.fleet.db.tasks
    case Abandon(run) => run in s.runs
    case Elsewhere(e) =>
      && IndexInvariants.FleetEnabled(s.fleet, e)
      && var after := IndexInvariants.FleetNext(s.fleet, e).indexes;
      && s.id in after && after[s.id] == row
  }

  /** How a run is finalized, for the task it was claimed for, which may have been taken away since. */
  function Finished(s: Site, m: Move): Finish
    requires (m.End? || m.Crash?) && CanMove(s, m)
  {
    var run := s.runs[m.run];
    Finalize(s.fleet, run.worker, run.task,
             if m.End? then Ran(Some(run.seen.value), m.result) else Raised(m.code, m.message), m.now)
  }

  function Moved(s: Site, m: Move): Site
    requires CanMove(s, m)
  {
    match m
    case Append(rows) => s.(version := s.version + 1, unindexed := s.unindexed + rows)
    case Watch(_, _, _, _) => s.(fleet := Watched(s, m).fleet)
    case Begin(run, call) =>
      s.(fleet := s.fleet.(db := Next(s.fleet.db, call)),
         runs := s.runs[run := LiveRun(Step(s.fleet.db, call).reply.task, call.w, None)])
    case Commit(run, bump) =>
      s.(version := s.version + bump, unindexed := 0,
         runs := s.runs[run := s.runs[run].(seen := Some(s.version + bump))])
    case End(run, _, _) => s.(fleet := Finished(s, m).fleet, runs := s.runs - {run})
    case Crash(run, _, _, _) => s.(fleet := Finished(s, m).fleet, runs := s.runs - {run})
    case Abandon(run) => s.(runs := s.runs - {run})
    case Elsewhere(e) => s.(fleet := IndexInvariants.FleetNext(s.fleet, e))
  }

  // ---- Runs ----

  predicate Runs(start: Site, ms: seq<Move>)
    decreases |ms|, 0
  {
    ms == [] || (Runs(start, ms[..|ms| - 1]) && CanMove(After(start, ms[..|ms| - 1]), ms[|ms| - 1]))
  }

  function After(start: Site, ms: seq<Move>): Site
    requires Runs(start, ms)
    decreases |ms|, 1
  {
    if ms == [] then start else Moved(After(start, ms[..|ms| - 1]), ms[|ms| - 1])
  }

  function ReasonOf(s: Site, m: Move): Reason
    requires m.Watch? && s.id in s.fleet.indexes
  {
    var row := s.fleet.indexes[s.id];
    DecideTrigger(StatsFor(s, m.counted).unindexed, s.version, row.lastSeenVersion, row.lastOptimizedAt, m.now,
                  m.policy).reason
  }

  /** The move emits a task for drift, that is, not for mere age. */
  predicate EmitsForDrift(s: Site, m: Move)
    requires CanMove(s, m)
  {
    m.Watch? && Watched(s, m).result == Enqueued && ReasonOf(s, m) != StaleIndex
  }

  function DriftEmissions(start: Site, ms: seq<Move>): nat
    requires Runs(start, ms)
  {
    if ms == [] then 0
    else
      var s, m := After(start, ms[..|ms| - 1]), ms[|ms| - 1];
      DriftEmissions(start, ms[..|ms| - 1]) + One(EmitsForDrift(s, m))
  }

  /** The emissions counted are those of the watcher's looks at which the uncovered rows or the version drift cross
      a threshold of the policy and nobody holds the key yet; an emission for age alone is not counted. */
  lemma CountedEmissionIff(s: Site, m: Move)
    requires CanMove(s, m)
    ensures EmitsForDrift(s, m)
            <==> && m.Watch?
                 && var row := s.fleet.indexes[s.id];
                 && var rows := RowsCrossed(m.policy, if m.counted then Some(s.unindexed) else None);
                 && (rows || DriftCrossed(m.policy, s.version, row.lastSeenVersion))
                 && forall t | t in s.fleet.db.tasks ::
                      s.fleet.db.tasks[t].idempotencyKey
                      != Some("watcher:" + Keys.Dec(s.id) + ":INDEX_OPTIMIZE:v" + Keys.Dec(s.version) + ":"
                              + if rows then "unindexed_rows" else "version_drift")
  {
    if m.Watch? {
      var row, stats := s.fleet.indexes[s.id], StatsFor(s, m.counted);
      ReasonIsFirstCrossed(stats.unindexed, s.version, row.lastSeenVersion, row.lastOptimizedAt, m.now, m.policy);
      TagsDiffer(ReasonOf(s, m));
      KeySpelled(s.id, s.version, ReasonOf(s, m).Tag());
      assert Watched(s, m).result == Enqueued
             <==> Holders(s.fleet.db.tasks, Some(Keys.WatcherKey(s.id, s.version, ReasonOf(s, m).Tag()))) == {}
                  && ReasonOf(s, m) != NoReason;
      HoldersIff(s.fleet.db.tasks, Keys.WatcherKey(s.id, s.version, ReasonOf(s, m).Tag()));
    }
  }

  lemma HoldersIff(tasks: map<string, Task>, key: string)
    ensures Holders(tasks, Some(key)) == {} <==> forall t | t in tasks :: tasks[t].idempotencyKey != Some(key)
  {
    assert forall t | t in tasks && tasks[t].idempotencyKey == Some(key) :: t in Holders(tasks, Some(key));
  }

  /** Changes of the dataset that nothing asked for: an append, or an optimize run that commits while the index
      is READY or while another run has committed and not ended. */
  predicate Unasked(s: Site, m: Move)
    requires CanMove(s, m)
  {
    m.Append? || (m.Commit? && (s.fleet.indexes[s.id].status == READY || Committed(s) != {}))
  }

  function UnaskedChanges(start: Site, ms: seq<Move>): nat
    requires Runs(start, ms)
  {
    if ms == [] then 0
    else UnaskedChanges(start, ms[..|ms| - 1]) + One(Unasked(After(start, ms[..|ms| - 1]), ms[|ms| - 1]))
  }

  function Appends(ms: seq<Move>): nat {
    if ms == [] then 0 else Appends(ms[..|ms| - 1]) + One(ms[|ms| - 1].Append?)
  }

  function One(b: bool): nat {
    if b then 1 else 0
  }

  // ---- What the watched row and the runs under way keep ----

  function Seen(s: Site): int
    requires s.id in s.fleet.indexes
  {
    var row := s.fleet.indexes[s.id];
    if row.lastSeenVersion.Some? then row.lastSeenVersion.value else 0
  }

  /** The index has something a drift signal could fire on. */
  predicate Drifted(s: Site)
    requires s.id in s.fleet.indexes
  {
    s.version > Seen(s) || s.unindexed > 0
  }

  /** The runs whose lance half is done. */
  function Committed(s: Site): set<nat> {
    set run | run in s.runs && s.runs[run].seen.Some?
  }

  /** Those that saw an older version: each would leave the index drifted. */
  function Outdated(s: Site): set<nat> {
    set run | run in s.runs && s.runs[run].seen.Some? && s.runs[run].seen.value < s.version
  }

  /** Committed runs saw different versions, none newer than the current one and none the row has seen; after
      the one that saw the current version no row was added. */
  ghost predicate Coherent(s: Site) {
    && s.id in s.fleet.indexes && s.fleet.indexes[s.id].status in {READY, OPTIMIZING}
    && Seen(s) <= s.version
    && (forall run | run in Committed(s) :: s.runs[run].seen.value <= s.version && s.runs[run].seen.value != Seen(s))
    && (forall a, b | a in Committed(s) && b in Committed(s) && s.runs[a].seen == s.runs[b].seen :: a == b)
    && (forall run | run in Committed(s) && s.runs[run].seen.value == s.version :: s.unindexed == 0)
  }

  /** Every run is of an optimize task of the dataset. */
  ghost predicate Tied(s: Site) {
    s.id in s.fleet.indexes &&
    forall run | run in s.runs ::
      s.runs[run].task in s.fleet.db.tasks && OptimizesIt(s, s.fleet.db.tasks[s.runs[run].task])
  }

  /** A task keeps its kind, and once it cannot run any more it never can again. */
  predicate TaskKept(a: Task, b: Task) {
    b.taskType == a.taskType && b.datasetUuid == a.datasetUuid
      && (IndexStranding.CanRun(b) ==> IndexStranding.CanRun(a))
  }

  /** Tasks never vanish either. */
  ghost predicate TasksKept(before: map<string, Task>, after: map<string, Task>) {
    forall t | t in before :: t in after && TaskKept(before[t], after[t])
  }

  lemma CallKeepsTasks(db: Db, call: Event)
    requires Enabled(db, call)
    ensures TasksKept(db.tasks, Next(db, call).tasks)
  {
    forall t | t in db.tasks ensures t in Next(db, call).tasks && TaskKept(db.tasks[t], Next(db, call).tasks[t]) {
      TaskHistory.RowStep(db, call, t);
      IndexStranding.CanRunStep(db, call, t);
    }
  }

  lemma FinalizeKeepsTasks(f: Fleet, w: string, t: string, run: Run, now: int)
    requires NamesUnique(f.indexes) && t in f.db.tasks
    ensures TasksKept(f.db.tasks, Finalize(f, w, t, run, now).fleet.db.tasks)
  {
    IndexStranding.FinalizeTasks(f, w, t, run, now);
    IndexStranding.FinalizedTask(f, w, t, run, now);
  }

  lemma EventKeepsTasks(f: Fleet, e: FleetEvent)
    requires IndexInvariants.FleetEnabled(f, e)
    ensures TasksKept(f.db.tasks, IndexInvariants.FleetNext(f, e).db.tasks)
  {
    match e
    case Protocol(call) => CallKeepsTasks(f.db, call);
    case Finalization(w, t, run, now) => FinalizeKeepsTasks(f, w, t, run, now);
    case _ => AddingKeepsTasks(f, e);
  }

  lemma AddingKeepsTasks(f: Fleet, e: FleetEvent)
    requires IndexInvariants.FleetEnabled(f, e) && !e.Protocol? && !e.Finalization?
    ensures forall t | t in f.db.tasks :: t in IndexInvariants.FleetNext(f, e).db.tasks
                                          && IndexInvariants.FleetNext(f, e).db.tasks[t] == f.db.tasks[t]
  {
  }

  lemma MoveKeepsTasks(s: Site, m: Move)
    requires CanMove(s, m)
    ensures TasksKept(s.fleet.db.tasks, Moved(s, m).fleet.db.tasks)
  {
    match m
    case Watch(_, _, _, _) =>
    case Begin(_, call) => CallKeepsTasks(s.fleet.db, call);
    case End(run, result, now) =>
      FinalizeKeepsTasks(s.fleet, s.runs[run].worker, s.runs[run].task, Ran(Some(s.runs[run].seen.value), result), now);
    case Crash(run, code, message, now) =>
      FinalizeKeepsTasks(s.fleet, s.runs[run].worker, s.runs[run].task, Raised(code, message), now);
    case Elsewhere(e) => EventKeepsTasks(s.fleet, e);
    case _ =>
  }

  /** A finalization leaves the row alone or, if it was OPTIMIZING and the task still the worker's, promotes it. */
  lemma RowAfterEnd(s: Site, m: Move)
    requires CanMove(s, m) && Tied(s) && m.End?
    ensures s.id in Moved(s, m).fleet.indexes
    ensures var row, after := s.fleet.indexes[s.id], Moved(s, m).fleet.indexes[s.id];
            || after == row
            || (&& row.status == OPTIMIZING && after == Promoted(row, Some(s.runs[m.run].seen.value), m.now)
                && Owns(s.fleet.db, s.runs[m.run].worker, s.runs[m.run].task)
                && s.runs[m.run].task in Moved(s, m).fleet.db.tasks
                && Moved(s, m).fleet.db.tasks[s.runs[m.run].task].status == SUCCEEDED)
  {
  }

  lemma RowAfterCrash(s: Site, m: Move)
    requires CanMove(s, m) && m.Crash?
    ensures Moved(s, m).fleet.indexes == s.fleet.indexes
  {
  }

  lemma RowAfterWatch(s: Site, m: Move)
    requires CanMove(s, m) && m.Watch?
    ensures s.id in Moved(s, m).fleet.indexes
    ensures var row, after := s.fleet.indexes[s.id], Moved(s, m).fleet.indexes[s.id];
            if Watched(s, m).result == Enqueued
            then && after == row.(status := OPTIMIZING, lastOptimizedAt := Some(m.now)) && ReasonOf(s, m) != NoReason
                 && Moved(s, m).fleet.db.tasks.Keys == s.fleet.db.tasks.Keys + {m.uuid}
                 && forall t | t in s.fleet.db.tasks :: Moved(s, m).fleet.db.tasks[t] == s.fleet.db.tasks[t]
            else Moved(s, m) == s
  {
  }

  /** All other moves leave the row alone. */
  lemma RowKept(s: Site, m: Move)
    requires CanMove(s, m) && !m.End? && !m.Watch?
    ensures s.id in Moved(s, m).fleet.indexes && Moved(s, m).fleet.indexes[s.id] == s.fleet.indexes[s.id]
  {
    if m.Crash? {
      RowAfterCrash(s, m);
    }
  }

  /** A drift signal fires only on an index that has drifted. */
  lemma DriftSignalMeansDrift(s: Site, m: Move)
    requires CanMove(s, m) && m.Watch? && ReasonOf(s, m) in {UnindexedRows, VersionDrift}
    ensures Drifted(s)
  {
  }

  lemma RowOfMove(s: Site, m: Move)
    requires CanMove(s, m) && Tied(s)
    ensures s.id in Moved(s, m).fleet.indexes
    ensures var row, after := s.fleet.indexes[s.id], Moved(s, m).fleet.indexes[s.id];
            && after.datasetUuid == row.datasetUuid
            && (after.status == row.status || after.status in {READY, OPTIMIZING})
  {
    match m
    case End(_, _, _) => RowAfterEnd(s, m);
    case Watch(_, _, _, _) => RowAfterWatch(s, m);
    case _ => RowKept(s, m);
  }

  lemma TiedStep(s: Site, m: Move)
    requires Tied(s) && CanMove(s, m)
    ensures Tied(Moved(s, m))
  {
    MoveKeepsTasks(s, m);
    RowOfMove(s, m);
    var after := Moved(s, m);
    forall run | run in after.runs
      ensures after.runs[run].task in after.fleet.db.tasks
              && OptimizesIt(after, after.fleet.db.tasks[after.runs[run].task])
    {
      assert run in s.runs ==> after.runs[run].task == s.runs[run].task;
    }
  }

  /** Fewer committed runs, and a row that has seen the same version, stay coherent. */
  lemma CoherentKept(s: Site, after: Site)
    requires Coherent(s) && after.id == s.id && after.version == s.version && after.unindexed == s.unindexed
    requires after.id in after.fleet.indexes && after.fleet.indexes[after.id].status in {READY, OPTIMIZING}
    requires after.fleet.indexes[after.id].lastSeenVersion == s.fleet.indexes[s.id].lastSeenVersion
    requires forall run | run in Committed(after) :: run in Committed(s) && after.runs[run].seen == s.runs[run].seen
    ensures Coherent(after)
  {
  }

  /** Promotion by one of the committed runs keeps the others coherent. */
  lemma CoherentPromoted(s: Site, after: Site, run: nat, now: int)
    requires Coherent(s) && run in Committed(s) && after.id == s.id && after.version == s.version
    requires after.unindexed == s.unindexed && after.runs == s.runs - {run} && after.id in after.fleet.indexes
    requires after.fleet.indexes[after.id] == Promoted(s.fleet.indexes[s.id], Some(s.runs[run].seen.value), now)
    ensures Coherent(after)
  {
    assert forall other | other in Committed(after) :: other in Committed(s) && other != run;
  }

  lemma CoherentChange(s: Site, m: Move)
    requires Coherent(s) && CanMove(s, m) && (m.Append? || m.Commit?)
    ensures Coherent(Moved(s, m))
  {
    var after := Moved(s, m);
    assert after.fleet == s.fleet;
    assert forall run | run in Committed(after) ::
             (m.Commit? && run == m.run) || (run in Committed(s) && after.runs[run] == s.runs[run]);
  }

  lemma CoherentStep(s: Site, m: Move)
    requires Coherent(s) && Tied(s) && CanMove(s, m)
    ensures Coherent(Moved(s, m))
  {
    match m
    case Append(_) => CoherentChange(s, m);
    case Commit(_, _) => CoherentChange(s, m);
    case End(run, _, now) =>
      RowAfterEnd(s, m);
      if Moved(s, m).fleet.indexes[s.id] == s.fleet.indexes[s.id] {
        CoherentKept(s, Moved(s, m));
      } else {
        CoherentPromoted(s, Moved(s, m), run, now);
      }
    case Watch(_, _, _, _) =>
      RowAfterWatch(s, m);
      CoherentKept(s, Moved(s, m));
    case _ =>
      RowKept(s, m);
      CoherentKept(s, Moved(s, m));
  }

  // ---- Emissions are paid for ----

  /** What is owed: emissions that can still come without another change. */
  ghost function Owed(s: Site): nat
    requires s.id in s.fleet.indexes
  {
    |Outdated(s)| + One(s.fleet.indexes[s.id].status == READY && Drifted(s))
  }

  /** At most one run saw the current version. */
  lemma AllButOneOutdated(s: Site)
    requires Coherent(s)
    ensures Outdated(s) <= Committed(s) && |Committed(s) - Outdated(s)| <= 1
    ensures |Committed(s)| <= |Outdated(s)| + 1
  {
    var current := Committed(s) - Outdated(s);
    assert Committed(s) == Outdated(s) + current;
    if current != {} {
      var run :| run in current;
      assert current == {run} by {
        forall other | other in current ensures other == run {
        }
      }
    }
  }

  /** A run that saw the current version means that the row has not. */
  lemma CurrentMeansDrifted(s: Site)
    requires Coherent(s) && !Drifted(s)
    ensures Committed(s) == Outdated(s)
  {
  }

  /** Every change makes at most one more emission possible. */
  lemma ChangeOwes(s: Site, m: Move)
    requires Coherent(s) && Tied(s) && CanMove(s, m) && (m.Append? || m.Commit?)
    ensures s.id in Moved(s, m).fleet.indexes
    ensures Owed(Moved(s, m)) <= Owed(s) + One(Unasked(s, m))
  {
    var after := Moved(s, m);
    assert Outdated(after) == Committed(s);
    if m.Append? || s.fleet.indexes[s.id].status == READY || Committed(s) != {} {
      OutdatingOwes(s, after);
    }
  }

  /** After a change of version every committed run is outdated: at most one emission more. */
  lemma OutdatingOwes(s: Site, after: Site)
    requires Coherent(s) && after.id == s.id && after.fleet == s.fleet && Outdated(after) == Committed(s)
    ensures Owed(after) <= Owed(s) + 1
  {
    AllButOneOutdated(s);
    if !Drifted(s) {
      CurrentMeansDrifted(s);
    }
  }

  lemma SmallerOwes(a: set<nat>, b: set<nat>)
    requires a <= b
    ensures |a| <= |b|
  {
    assert b == a + (b - a);
  }

  lemma EndPays(s: Site, m: Move)
    requires Coherent(s) && Tied(s) && CanMove(s, m) && m.End?
    ensures s.id in Moved(s, m).fleet.indexes && Owed(Moved(s, m)) <= Owed(s)
  {
    RowAfterEnd(s, m);
    EndedRunPays(s, Moved(s, m), m.run, m.now);
  }

  lemma EndedRunPays(s: Site, after: Site, run: nat, now: int)
    requires Coherent(s) && run in Committed(s) && after.id == s.id && after.id in after.fleet.indexes
    requires after.version == s.version && after.unindexed == s.unindexed && after.runs == s.runs - {run}
    requires var row, promoted := s.fleet.indexes[s.id], after.fleet.indexes[s.id];
             || promoted == row
             || (row.status == OPTIMIZING && promoted == Promoted(row, Some(s.runs[run].seen.value), now))
    ensures Owed(after) <= Owed(s)
  {
    OutdatedWithout(s, after, run);
    if after.fleet.indexes[s.id] != s.fleet.indexes[s.id] && Drifted(after) {
      CurrentRunCatchesUp(s, after, run, now);
    }
  }

  lemma OutdatedWithout(s: Site, after: Site, run: nat)
    requires after.version == s.version && after.runs == s.runs - {run}
    ensures |Outdated(after)| == |Outdated(s)| - (if run in Outdated(s) then 1 else 0)
  {
    assert Outdated(after) == Outdated(s) - {run};
  }

  /** A promotion that leaves the row drifted was by an outdated run. */
  lemma CurrentRunCatchesUp(s: Site, after: Site, run: nat, now: int)
    requires Coherent(s) && run in Committed(s) && after.id == s.id && after.id in after.fleet.indexes
    requires after.version == s.version && after.unindexed == s.unindexed && Drifted(after)
    requires after.fleet.indexes[s.id] == Promoted(s.fleet.indexes[s.id], Some(s.runs[run].seen.value), now)
    ensures run in Outdated(s)
  {
  }

  /** An emission, and the end of a run, are paid for by what was owed. */
  lemma OthersPay(s: Site, m: Move)
    requires Coherent(s) && Tied(s) && CanMove(s, m) && !m.Append? && !m.Commit?
    ensures s.id in Moved(s, m).fleet.indexes
    ensures Owed(Moved(s, m)) + One(EmitsForDrift(s, m)) <= Owed(s)
  {
    match m
    case Watch(_, _, _, _) => WatchPays(s, m);
    case End(_, _, _) => EndPays(s, m);
    case Begin(_, _) => RestPays(s, m);
    case Crash(_, _, _, _) => RestPays(s, m);
    case Abandon(_) => RestPays(s, m);
    case Elsewhere(_) => RestPays(s, m);
  }

  lemma RestPays(s: Site, m: Move)
    requires Coherent(s) && CanMove(s, m) && (m.Begin? || m.Crash? || m.Abandon? || m.Elsewhere?)
    ensures s.id in Moved(s, m).fleet.indexes && Owed(Moved(s, m)) <= Owed(s)
  {
    RowKept(s, m);
    SmallerOwes(Outdated(Moved(s, m)), Outdated(s));
  }

  lemma WatchPays(s: Site, m: Move)
    requires Coherent(s) && CanMove(s, m) && m.Watch?
    ensures s.id in Moved(s, m).fleet.indexes
    ensures Owed(Moved(s, m)) + One(EmitsForDrift(s, m)) <= Owed(s)
  {
    RowAfterWatch(s, m);
    if ReasonOf(s, m) in {UnindexedRows, VersionDrift} {
      DriftSignalMeansDrift(s, m);
    }
    assert Outdated(Moved(s, m)) == Outdated(s);
  }

  /** Where a run of the loop may start: the row and the runs are in order, and no run has committed. */
  ghost predicate Startable(s: Site) {
    Coherent(s) && Tied(s) && Committed(s) == {}
  }

  lemma {:induction false} EmissionsPaidFor(start: Site, ms: seq<Move>)
    requires Startable(start) && Runs(start, ms)
    ensures Coherent(After(start, ms)) && Tied(After(start, ms))
    ensures DriftEmissions(start, ms) + Owed(After(start, ms)) <= 1 + UnaskedChanges(start, ms)
  {
    if ms == [] {
      assert Outdated(start) <= Committed(start);
    } else {
      var front, m := ms[..|ms| - 1], ms[|ms| - 1];
      EmissionsPaidFor(start, front);
      var s := After(start, front);
      CoherentStep(s, m);
      TiedStep(s, m);
      if m.Append? || m.Commit? {
        ChangeOwes(s, m);
      } else {
        OthersPay(s, m);
      }
    }
  }

  /** In any run whatever, with positive thresholds, the watcher emits for drift at most once plus once for each
      change that nothing asked for. */
  lemma EmissionsBoundedByChanges(start: Site, ms: seq<Move>)
    requires Startable(start) && Runs(start, ms)
    ensures DriftEmissions(start, ms) <= 1 + UnaskedChanges(start, ms)
  {
    EmissionsPaidFor(start, ms);
  }

  /** On an index that is fully covered and seen up to the current version a drift signal fires if and only
      if a threshold is zero or less: with such a threshold the bound is lost. */
  lemma IdleIndexFiresIff(s: Site, m: Move)
    requires s.id in s.fleet.indexes && s.fleet.indexes[s.id].lastSeenVersion == Some(s.version) && s.unindexed == 0
    requires m.Watch? && m.counted
    ensures ReasonOf(s, m) in {UnindexedRows, VersionDrift}
            <==> || (m.policy.minUnindexedRows.Some? && m.policy.minUnindexedRows.value <= 0)
                 || (m.policy.minVersionDrift.Some? && m.policy.minVersionDrift.value <= 0)
  {
  }

  /** Why one policy: right after an emission a second policy's row of the same pass emits again, on the row
      already OPTIMIZING, if and only if it fires for another reason. */
  lemma SecondPolicyEmitsIff(f: Fleet, first: Candidate, second: Candidate, policies: map<nat, Policy>, stats: Stats,
                             uuid: string, other: string, now: int)
    requires Readable(f, policies, first) && Readable(f, policies, second) && first.index == second.index
    requires stats.Live? && uuid !in f.db.tasks
    requires forall reason: Reason ::
               Holders(f.db.tasks, Some(Keys.WatcherKey(first.index, stats.latest, reason.Tag()))) == {}
    requires WatchRow(f, policies, first, stats, uuid, now).result == Enqueued
    ensures var after := WatchRow(f, policies, first, stats, uuid, now).fleet;
            var row := f.indexes[first.index];
            var reason := DecideTrigger(stats.unindexed, stats.latest, row.lastSeenVersion, row.lastOptimizedAt, now,
                                        policies[first.policy]).reason;
            var again := DecideTrigger(stats.unindexed, stats.latest, row.lastSeenVersion, Some(now), now,
                                       policies[second.policy]).reason;
            && Readable(after, policies, second)
            && (WatchRow(after, policies, second, stats, other, now).result == Enqueued
                <==> again != NoReason && again != reason)
  {
    var after := WatchRow(f, policies, first, stats, uuid, now).fleet;
    var row := f.indexes[first.index];
    var reason := DecideTrigger(stats.unindexed, stats.latest, row.lastSeenVersion, row.lastOptimizedAt, now,
                                policies[first.policy]).reason;
    var again := DecideTrigger(stats.unindexed, stats.latest, row.lastSeenVersion, Some(now), now,
                               policies[second.policy]).reason;
    var key := Keys.WatcherKey(first.index, stats.latest, again.Tag());
    HoldersAfterEmission(f, after, first.index, stats.latest, reason, again, uuid);
  }

  lemma HoldersAfterEmission(f: Fleet, after: Fleet, id: nat, version: nat, reason: Reason, again: Reason, uuid: string)
    requires uuid !in f.db.tasks && uuid in after.db.tasks && after.db.tasks == f.db.tasks[uuid := after.db.tasks[uuid]]
    requires after.db.tasks[uuid].idempotencyKey == Some(Keys.WatcherKey(id, version, reason.Tag()))
    requires Holders(f.db.tasks, Some(Keys.WatcherKey(id, version, again.Tag()))) == {}
    ensures Holders(after.db.tasks, Some(Keys.WatcherKey(id, version, again.Tag()))) == {} <==> reason != again
  {
    var key := Some(Keys.WatcherKey(id, version, again.Tag()));
    assert Holders(after.db.tasks, key) == if after.db.tasks[uuid].idempotencyKey == key then {uuid} else {} by {
      assert forall u | u in f.db.tasks && u != uuid ::
               u !in Holders(f.db.tasks, key) && after.db.tasks[u] == f.db.tasks[u];
    }
    if after.db.tasks[uuid].idempotencyKey == key {
      Keys.WatcherKeyInjective(id, version, reason.Tag(), id, version, again.Tag());
      assert |NoReason.Tag()| == 0 && |UnindexedRows.Tag()| == 14 && |VersionDrift.Tag()| == 13
             && |StaleIndex.Tag()| == 5;
    }
  }
}
