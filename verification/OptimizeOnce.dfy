/** The loop does not feed itself: when all optimize tasks of the dataset are the watcher's own, only appends
    and repeated executions of a task can make it emit again. */
module OptimizeOnce {
  import opened Database
  import opened Dispatch
  import opened IndexLifecycle
  import opened IndexWatcher
  import opened OptimizeLoop
  import IndexStranding
  import TaskHistory

  /** The optimize tasks of the dataset that can still run: running, or to be claimed now or after a retry. */
  function Unfinished(s: Site): set<string>
    requires s.id in s.fleet.indexes
  {
    set t | t in s.fleet.db.tasks && OptimizesIt(s, s.fleet.db.tasks[t]) && IndexStranding.CanRun(s.fleet.db.tasks[t])
  }

  /** At most one is unfinished, and none while the index is READY. */
  ghost predicate OneAtATime(s: Site) {
    && s.id in s.fleet.indexes
    && (forall t, u | t in Unfinished(s) && u in Unfinished(s) :: t == u)
    && (s.fleet.indexes[s.id].status == READY ==> Unfinished(s) == {})
  }

  /** Nobody but the watcher adds an optimize task of the dataset. */
  ghost predicate WatcherOnly(s: Site, m: Move)
    requires CanMove(s, m)
  {
    m.Elsewhere? ==>
      var after := Moved(s, m).fleet.db.tasks;
      forall t | t in after && t !in s.fleet.db.tasks :: !OptimizesIt(s, after[t])
  }

  ghost predicate AllWatcherOnly(start: Site, ms: seq<Move>)
    requires Runs(start, ms)
    decreases |ms|
  {
    ms != [] ==>
      && AllWatcherOnly(start, ms[..|ms| - 1])
      && WatcherOnly(After(start, ms[..|ms| - 1]), ms[|ms| - 1])
  }

  // ---- One task at a time ----

  /** Only an emission adds an unfinished task. */
  lemma UnfinishedShrinks(s: Site, m: Move)
    requires Tied(s) && CanMove(s, m) && WatcherOnly(s, m)
    ensures s.id in Moved(s, m).fleet.indexes
    ensures m.Watch? ==> Unfinished(Moved(s, m)) <= Unfinished(s) + {m.uuid}
    ensures !m.Watch? ==> Unfinished(Moved(s, m)) <= Unfinished(s)
  {
    MoveKeepsTasks(s, m);
    RowOfMove(s, m);
    if !m.Elsewhere? {
      NewTasks(s, m);
    }
  }

  lemma NewTasks(s: Site, m: Move)
    requires CanMove(s, m) && !m.Elsewhere?
    ensures forall t | t in Moved(s, m).fleet.db.tasks && t !in s.fleet.db.tasks :: m.Watch? && t == m.uuid
  {
    match m
    case Watch(_, _, _, _) => RowAfterWatch(s, m);
    case Begin(_, call) =>
      forall t | t in Moved(s, m).fleet.db.tasks && t !in s.fleet.db.tasks ensures false {
        TaskHistory.RowBorn(s.fleet.db, call, t);
      }
    case End(run, result, now) =>
      IndexStranding.FinalizeTasks(s.fleet, s.runs[run].worker, s.runs[run].task,
                                   Ran(Some(s.runs[run].seen.value), result), now);
    case Crash(run, code, message, now) =>
      IndexStranding.FinalizeTasks(s.fleet, s.runs[run].worker, s.runs[run].task, Raised(code, message), now);
    case _ =>
  }

  /** The promotion of the row ends the one task that was unfinished. */
  lemma PromotionEndsTask(s: Site, m: Move)
    requires OneAtATime(s) && Tied(s) && CanMove(s, m) && m.End?
    ensures s.id in Moved(s, m).fleet.indexes
    ensures Moved(s, m).fleet.indexes[s.id] == s.fleet.indexes[s.id] || Unfinished(Moved(s, m)) == {}
  {
    RowAfterEnd(s, m);
    UnfinishedShrinks(s, m);
    if Moved(s, m).fleet.indexes[s.id] != s.fleet.indexes[s.id] {
      assert s.runs[m.run].task in Unfinished(s);
      assert s.runs[m.run].task !in Unfinished(Moved(s, m));
    }
  }

  lemma OneAtATimeStep(s: Site, m: Move)
    requires OneAtATime(s) && Tied(s) && CanMove(s, m) && WatcherOnly(s, m)
    ensures OneAtATime(Moved(s, m))
  {
    UnfinishedShrinks(s, m);
    match m
    case Watch(_, _, _, _) => RowAfterWatch(s, m);
    case End(_, _, _) => PromotionEndsTask(s, m);
    case _ => RowKept(s, m);
  }

  // ---- Repeated executions ----

  /** A run commits although its task cannot run any more, or while another run of the same task has committed. */
  predicate Reexecutes(s: Site, m: Move)
    requires CanMove(s, m)
  {
    m.Commit? &&
    var t := s.runs[m.run].task;
    t !in Unfinished(s) || exists other | other in Committed(s) :: s.runs[other].task == t
  }

  function Reexecutions(start: Site, ms: seq<Move>): nat
    requires Runs(start, ms)
  {
    if ms == [] then 0
    else Reexecutions(start, ms[..|ms| - 1]) + One(Reexecutes(After(start, ms[..|ms| - 1]), ms[|ms| - 1]))
  }

  /** Outdated runs that can still promote the row. */
  function Threats(s: Site): set<nat>
    requires s.id in s.fleet.indexes
  {
    set run | run in Outdated(s) && s.runs[run].task in Unfinished(s)
  }

  ghost function Due(s: Site): nat
    requires s.id in s.fleet.indexes
  {
    |Threats(s)| + One(s.fleet.indexes[s.id].status == READY && Drifted(s))
  }

  /** After a change of version every committed run is outdated: at most one threat more. */
  lemma ChangeThreatens(s: Site, after: Site)
    requires Coherent(s) && after.id == s.id && after.fleet == s.fleet && Outdated(after) == Committed(s)
    requires forall run | run in Committed(s) :: after.runs[run].task == s.runs[run].task
    ensures |Threats(after)| <= |Threats(s)| + 1
  {
    AllButOneOutdated(s);
    assert Threats(after) <= Threats(s) + (Committed(s) - Outdated(s));
    SmallerOwes(Threats(after), Threats(s) + (Committed(s) - Outdated(s)));
  }

  lemma AppendDues(s: Site, m: Move)
    requires OneAtATime(s) && Coherent(s) && CanMove(s, m) && m.Append?
    ensures s.id in Moved(s, m).fleet.indexes && Due(Moved(s, m)) <= Due(s) + 1
  {
    var after := Moved(s, m);
    assert Unfinished(after) == Unfinished(s) && Outdated(after) == Committed(s);
    if s.fleet.indexes[s.id].status == READY {
      assert Threats(after) == {};
    } else {
      ChangeThreatens(s, after);
    }
  }

  /** A first execution, with no other run of the task committed, threatens nothing. */
  lemma FirstCommitThreatensNone(s: Site, m: Move)
    requires OneAtATime(s) && CanMove(s, m) && m.Commit? && !Reexecutes(s, m)
    requires Outdated(Moved(s, m)) == Committed(s)
    ensures Threats(Moved(s, m)) == {}
  {
    var after := Moved(s, m);
    assert Unfinished(after) == Unfinished(s);
    forall run | run in Committed(s) ensures run !in Threats(after) {
      assert after.runs[run].task == s.runs[run].task != s.runs[m.run].task;
    }
  }

  lemma CommitDues(s: Site, m: Move)
    requires OneAtATime(s) && Coherent(s) && CanMove(s, m) && m.Commit?
    ensures s.id in Moved(s, m).fleet.indexes && Due(Moved(s, m)) <= Due(s) + One(Reexecutes(s, m))
  {
    var after := Moved(s, m);
    assert Unfinished(after) == Unfinished(s) && Outdated(after) == Committed(s);
    if s.fleet.indexes[s.id].status == READY {
      assert Threats(after) == {} && Reexecutes(s, m);
    } else if Reexecutes(s, m) {
      ChangeThreatens(s, after);
    } else {
      FirstCommitThreatensNone(s, m);
    }
  }

  lemma WatchDues(s: Site, m: Move)
    requires OneAtATime(s) && Coherent(s) && Tied(s) && CanMove(s, m) && m.Watch?
    ensures s.id in Moved(s, m).fleet.indexes
    ensures Due(Moved(s, m)) + One(EmitsForDrift(s, m)) <= Due(s)
  {
    var after := Moved(s, m);
    RowAfterWatch(s, m);
    UnfinishedShrinks(s, m);
    if ReasonOf(s, m) in {UnindexedRows, VersionDrift} {
      DriftSignalMeansDrift(s, m);
    }
    forall run | run in after.runs ensures run !in Threats(after) {
      assert after.runs[run] == s.runs[run] && s.runs[run].task in s.fleet.db.tasks;
    }
    assert Threats(after) == {};
  }

  lemma EndDues(s: Site, m: Move)
    requires OneAtATime(s) && Coherent(s) && Tied(s) && CanMove(s, m) && m.End?
    ensures s.id in Moved(s, m).fleet.indexes && Due(Moved(s, m)) <= Due(s)
  {
    var after := Moved(s, m);
    RowAfterEnd(s, m);
    UnfinishedShrinks(s, m);
    PromotionEndsTask(s, m);
    assert Threats(after) <= Threats(s);
    SmallerOwes(Threats(after), Threats(s));
    if after.fleet.indexes[s.id] != s.fleet.indexes[s.id] {
      assert Threats(after) == {};
      if Drifted(after) {
        assert m.run in Threats(s);
      }
    }
  }

  lemma RestDues(s: Site, m: Move)
    requires OneAtATime(s) && Coherent(s) && Tied(s) && CanMove(s, m) && WatcherOnly(s, m)
    requires m.Begin? || m.Crash? || m.Abandon? || m.Elsewhere?
    ensures s.id in Moved(s, m).fleet.indexes && Due(Moved(s, m)) <= Due(s)
  {
    RowKept(s, m);
    UnfinishedShrinks(s, m);
    assert Threats(Moved(s, m)) <= Threats(s);
    SmallerOwes(Threats(Moved(s, m)), Threats(s));
  }

  lemma MoveDues(s: Site, m: Move)
    requires OneAtATime(s) && Coherent(s) && Tied(s) && CanMove(s, m) && WatcherOnly(s, m)
    ensures s.id in Moved(s, m).fleet.indexes
    ensures Due(Moved(s, m)) + One(EmitsForDrift(s, m)) <= Due(s) + One(m.Append?) + One(Reexecutes(s, m))
  {
    match m
    case Append(_) => AppendDues(s, m);
    case Commit(_, _) => CommitDues(s, m);
    case Watch(_, _, _, _) => WatchDues(s, m);
    case End(_, _, _) => EndDues(s, m);
    case _ => RestDues(s, m);
  }

  lemma {:induction false} DuesPaid(start: Site, ms: seq<Move>)
    requires Startable(start) && OneAtATime(start) && Runs(start, ms) && AllWatcherOnly(start, ms)
    ensures Coherent(After(start, ms)) && Tied(After(start, ms)) && OneAtATime(After(start, ms))
    ensures DriftEmissions(start, ms) + Due(After(start, ms)) <= 1 + Appends(ms) + Reexecutions(start, ms)
  {
    if ms == [] {
      assert Threats(start) <= Committed(start);
    } else {
      var front, m := ms[..|ms| - 1], ms[|ms| - 1];
      DuesPaid(start, front);
      var s := After(start, front);
      CoherentStep(s, m);
      TiedStep(s, m);
      OneAtATimeStep(s, m);
      MoveDues(s, m);
    }
  }

  /** No self-triggering: with positive thresholds, when only the watcher adds optimize tasks of the dataset,
      it emits for drift at most once plus once for each append and each repeated execution, in any run, with
      runs failing, dying, overlapping and finalized late, and tasks retried, reaped and cancelled.  An optimize
      run that an emission asked for costs nothing, however many versions it makes. */
  lemma LoopDoesNotFeedItself(start: Site, ms: seq<Move>)
    requires Startable(start) && OneAtATime(start) && Runs(start, ms) && AllWatcherOnly(start, ms)
    ensures DriftEmissions(start, ms) <= 1 + Appends(ms) + Reexecutions(start, ms)
  {
    DuesPaid(start, ms);
  }

  // ---- Executed once ----

  /** Every run still has its task, and no two have the same. */
  ghost predicate Held(s: Site) {
    && (forall run | run in s.runs :: Owns(s.fleet.db, s.runs[run].worker, s.runs[run].task))
    && (forall a, b | a in s.runs && b in s.runs && s.runs[a].task == s.runs[b].task :: a == b)
  }

  /** No task is requeued, cancelled or finished by anybody else while its run is under way. */
  ghost predicate Undisturbed(s: Site, m: Move)
    requires CanMove(s, m)
  {
    m.Elsewhere? ==>
      forall run | run in s.runs :: Owns(Moved(s, m).fleet.db, s.runs[run].worker, s.runs[run].task)
  }

  ghost predicate AllUndisturbed(start: Site, ms: seq<Move>)
    requires Runs(start, ms)
    decreases |ms|
  {
    ms != [] ==>
      && AllUndisturbed(start, ms[..|ms| - 1])
      && Undisturbed(After(start, ms[..|ms| - 1]), ms[|ms| - 1])
  }

  /** Finalizing one run leaves the others their tasks. */
  lemma HeldAfterFinish(s: Site, m: Move)
    requires Held(s) && CanMove(s, m) && (m.End? || m.Crash?)
    ensures Held(Moved(s, m))
  {
    var run := s.runs[m.run];
    IndexStranding.FinalizeTasks(s.fleet, run.worker, run.task,
                                 if m.End? then Ran(Some(run.seen.value), m.result) else Raised(m.code, m.message),
                                 m.now);
    var after := Moved(s, m);
    forall other | other in after.runs ensures Owns(after.fleet.db, after.runs[other].worker, after.runs[other].task) {
      assert s.runs[other].task != run.task;
    }
  }

  lemma HeldAfterBegin(s: Site, m: Move)
    requires Held(s) && CanMove(s, m) && m.Begin?
    ensures Held(Moved(s, m))
  {
    var after, t := Moved(s, m), Step(s.fleet.db, m.call).reply.task;
    assert forall run | run in s.runs :: s.runs[run].task != t;
    forall run | run in after.runs ensures Owns(after.fleet.db, after.runs[run].worker, after.runs[run].task) {
      if run != m.run {
        assert after.fleet.db.tasks[s.runs[run].task] == s.fleet.db.tasks[s.runs[run].task];
      }
    }
  }

  lemma HeldStep(s: Site, m: Move)
    requires Held(s) && CanMove(s, m) && Undisturbed(s, m)
    ensures Held(Moved(s, m))
  {
    match m
    case Begin(_, _) => HeldAfterBegin(s, m);
    case End(_, _, _) => HeldAfterFinish(s, m);
    case Crash(_, _, _, _) => HeldAfterFinish(s, m);
    case Watch(_, _, _, _) => RowAfterWatch(s, m);
    case _ =>
  }

  /** A run that still has its task, alone, repeats nothing. */
  lemma HeldNeverReexecutes(s: Site, m: Move)
    requires Held(s) && Tied(s) && CanMove(s, m)
    ensures !Reexecutes(s, m)
  {
    if m.Commit? {
      assert s.runs[m.run].task in Unfinished(s);
    }
  }

  lemma {:induction false} NoReexecutions(start: Site, ms: seq<Move>)
    requires Startable(start) && Held(start) && Runs(start, ms) && AllUndisturbed(start, ms)
    ensures Held(After(start, ms)) && Tied(After(start, ms)) && Reexecutions(start, ms) == 0
  {
    if ms != [] {
      var front, m := ms[..|ms| - 1], ms[|ms| - 1];
      NoReexecutions(start, front);
      HeldStep(After(start, front), m);
      TiedStep(After(start, front), m);
      HeldNeverReexecutes(After(start, front), m);
    }
  }

  /** With every task executed by one run at a time, failures, deaths and retries included, the bound is one
      plus the number of appends. */
  lemma OnceExecutedLoop(start: Site, ms: seq<Move>)
    requires Startable(start) && OneAtATime(start) && Held(start)
    requires Runs(start, ms) && AllWatcherOnly(start, ms) && AllUndisturbed(start, ms)
    ensures DriftEmissions(start, ms) <= 1 + Appends(ms)
  {
    LoopDoesNotFeedItself(start, ms);
    NoReexecutions(start, ms);
  }
}
