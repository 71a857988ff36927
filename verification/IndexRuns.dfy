/** What being stranded means for the future of an index row, and runs that show how rows get there. */
module IndexRuns {
  import opened Database
  import opened Dispatch
  import opened TaskHistory
  import opened IndexLifecycle
  import opened IndexInvariants
  import opened IndexStranding
  import IndexWatcher
  import OptimizeLoop

  // ---- A stranded row stays as it is ----

  /** Somebody adds a task, or moves an index row by hand. */
  predicate Helps(e: FleetEvent) {
    e.Create? || e.Optimize? || e.SetIndex? || e.Watch? || e.Insert? || (e.Protocol? && e.e.SubmitCall?)
  }

  lemma StrandedStep(f: Fleet, e: FleetEvent, id: nat)
    requires FleetEnabled(f, e) && !Helps(e) && id in f.indexes && Stranded(f, id)
    ensures id in FleetNext(f, e).indexes && FleetNext(f, e).indexes[id] == f.indexes[id]
    ensures Stranded(FleetNext(f, e), id)
  {
    var row := f.indexes[id];
    match e
    case Protocol(call) =>
      HopesAfterCall(f, call, row);
    case Finalization(w, t, run, now) =>
      FinalizeTasks(f, w, t, run, now);
      FinalizedTask(f, w, t, run, now);
      FinalizeRow(f, w, t, run, now, id);
      OwnedIsHope(f, w, t, row);
      assert Hopes(FleetNext(f, e).db.tasks, row) - {t} == Hopes(f.db.tasks, row) - {t};
    case Datasets(_) =>
  }

  lemma OwnedIsHope(f: Fleet, w: string, t: string, row: Index)
    ensures Owns(f.db, w, t) && Serves(f.db.tasks[t], row) ==> t in Hopes(f.db.tasks, row)
  {
  }

  /** Whatever workers, reapers and retries do, a stranded row never changes until somebody helps. */
  lemma {:induction false} StrandedUntilHelped(start: Fleet, es: seq<FleetEvent>, id: nat)
    requires FleetValid(start, es) && (forall e | e in es :: !Helps(e)) && id in start.indexes && Stranded(start, id)
    ensures id in FleetExec(start, es).indexes && FleetExec(start, es).indexes[id] == start.indexes[id]
    ensures Stranded(FleetExec(start, es), id)
  {
    if es != [] {
      var front := es[..|es| - 1];
      StrandedUntilHelped(start, front, id);
      StrandedStep(FleetExec(start, front), es[|es| - 1], id);
    }
  }

  // ---- A row with hope can be promoted ----

  /** `later` lies ahead of `f` without help, and nothing but the queue has changed. */
  ghost predicate Ahead(f: Fleet, es: seq<FleetEvent>, later: Fleet) {
    && FleetValid(f, es) && FleetExec(f, es) == later && (forall e | e in es :: !Helps(e))
    && later.indexes == f.indexes && later.datasets == f.datasets
  }

  lemma StepAhead(f: Fleet, es: seq<FleetEvent>, now: Fleet, call: Event) returns (longer: seq<FleetEvent>)
    requires Ahead(f, es, now) && NamesUnique(now.indexes) && Enabled(now.db, call) && !call.SubmitCall?
             && !call.CompleteCall?
    ensures Ahead(f, longer, now.(db := Next(now.db, call)))
  {
    longer := FleetExtend(f, es, Protocol(call));
  }

  /** A failed task with a retry left waits again after it. */
  lemma RetryAhead(f: Fleet, t: string) returns (es: seq<FleetEvent>, later: Fleet)
    requires NamesUnique(f.indexes) && t in f.db.tasks && CanRun(f.db.tasks[t]) && f.db.tasks[t].status == FAILED
    ensures Ahead(f, es, later) && t in later.db.tasks && Waiting(later.db.tasks[t])
    ensures later.db.tasks[t].attempt < later.db.tasks[t].maxAttempts
    ensures forall row: Index :: Serves(later.db.tasks[t], row) == Serves(f.db.tasks[t], row)
  {
    var call := RetryCall(Principal("", true), t);
    es := StepAhead(f, [], f, call);
    later := f.(db := Next(f.db, call));
  }

  /** A waiting task below its limit can be claimed: by a worker that registers, while the rows before it
      are held by others. */
  lemma ClaimAhead(f: Fleet, es: seq<FleetEvent>, now: Fleet, t: string) returns (longer: seq<FleetEvent>, later: Fleet)
    requires Ahead(f, es, now) && NamesUnique(f.indexes)
    requires t in now.db.tasks && Dispatchable(now.db.tasks[t], None)
    ensures Ahead(f, longer, later) && Owns(later.db, "w", t)
    ensures forall row: Index :: Serves(later.db.tasks[t], row) == Serves(now.db.tasks[t], row)
  {
    var register := RegisterCall("w", "", 1, "l", 0);
    longer := StepAhead(f, es, now, register);
    var mid := now.(db := Next(now.db, register));
    var claim := ClaimCall("w", "l", None, mid.db.tasks.Keys - {t}, Some(t), 0);
    longer := StepAhead(f, longer, mid, claim);
    later := mid.(db := Next(mid.db, claim));
  }

  lemma RunningAhead(f: Fleet, t: string) returns (es: seq<FleetEvent>, later: Fleet, w: string)
    requires NamesUnique(f.indexes) && t in f.db.tasks && CanRun(f.db.tasks[t])
    requires f.db.tasks[t].status == RUNNING ==> f.db.tasks[t].workerId.Some?
    ensures Ahead(f, es, later) && Owns(later.db, w, t)
    ensures forall row: Index :: Serves(later.db.tasks[t], row) == Serves(f.db.tasks[t], row)
  {
    es, later := [], f;
    if f.db.tasks[t].status == RUNNING {
      w := f.db.tasks[t].workerId.value;
    } else {
      if f.db.tasks[t].status == FAILED {
        es, later := RetryAhead(f, t);
      }
      es, later := ClaimAhead(f, es, later, t);
      w := "w";
    }
  }

  /** A waiting row with a hope left can still be promoted without help: some run of retries, claims and a
      finalization makes it READY. */
  lemma HopeCanPromote(f: Fleet, id: nat, t: string) returns (es: seq<FleetEvent>)
    requires NamesUnique(f.indexes) && id in f.indexes && t in Hopes(f.db.tasks, f.indexes[id])
    requires f.indexes[id].datasetUuid in f.datasets
    requires f.db.tasks[t].status == RUNNING ==> f.db.tasks[t].workerId.Some?
    ensures FleetValid(f, es) && (forall e | e in es :: !Helps(e))
    ensures id in FleetExec(f, es).indexes && FleetExec(f, es).indexes[id].status == READY
  {
    var later, w;
    es, later, w := RunningAhead(f, t);
    var finish := Finalization(w, t, Ran(None, ""), 0);
    if later.db.tasks[t].taskType == INDEX_BUILD {
      ServesTarget(later.indexes, later.db.tasks[t], id);
    }
    FinalizeRow(later, w, t, Ran(None, ""), 0, id);
    es := FleetExtend(f, es, finish);
  }

  // ---- Runs that strand a row ----

  lemma Reach(es: seq<FleetEvent>, f: Fleet, e: FleetEvent, next: Fleet) returns (longer: seq<FleetEvent>)
    requires FleetValid(IDLE, es) && FleetExec(IDLE, es) == f && FleetEnabled(f, e) && FleetNext(f, e) == next
    ensures FleetValid(IDLE, longer) && FleetExec(IDLE, longer) == next && longer == es + [e]
  {
    longer := FleetExtend(IDLE, es, e);
  }

  lemma StartIdle()
    ensures FleetValid(IDLE, []) && FleetExec(IDLE, []) == IDLE
  {
  }

  const CANCEL := Protocol(CancelCall(USER, "t", 6))

  lemma CancelStep()
    ensures FleetEnabled(Flipped(), CANCEL)
    ensures var f := FleetNext(Flipped(), CANCEL); 1 in f.indexes && Stranded(f, 1)
  {
    assert Hopes(Flipped().db.tasks, Row(OPTIMIZING)) == {"t"} && !Stranded(Flipped(), 1);
    CancelStrandsIff(Flipped(), USER, "t", 6, 1);
  }

  /** Cancelling the only optimize task of an OPTIMIZING index strands it. */
  lemma CancelStrands() returns (es: seq<FleetEvent>)
    ensures FleetValid(IDLE, es) && forall e | e in es :: KeyFree(e)
    ensures 1 in FleetExec(IDLE, es).indexes && Stranded(FleetExec(IDLE, es), 1)
  {
    StartIdle();
    FlipStep();
    CancelStep();
    es := Reach([], IDLE, Optimizing(None, "t"), Flipped());
    es := Reach(es, Flipped(), CANCEL, FleetNext(Flipped(), CANCEL));
  }

  /** The fleet while the optimize task is on its `attempt`-th attempt, or has failed it. */
  function OnAttempt(attempt: nat, status: TaskStatus): Fleet {
    Fleet(Db(map["w" := IDLE.db.workers["w"].(inFlight := if status == RUNNING then 1 else 0)],
             map["t" := FirstTask().(status := status, attempt := attempt, workerId := Some("w"), startedAt := Some(5),
                                     finishedAt := if status == FAILED then Some(5) else None,
                                     errorCode := if status == FAILED then Some("e") else None,
                                     errorMessage := if status == FAILED then Some("") else None)]),
          map[1 := Row(OPTIMIZING)], IDLE.datasets)
  }

  const CLAIM := Protocol(ClaimCall("w", "l", None, {}, Some("t"), 5))
  const FAIL := Finalization("w", "t", Raised("e", ""), 5)
  const RETRY := Protocol(RetryCall(USER, "t"))

  lemma FailStep(attempt: nat)
    ensures FleetEnabled(OnAttempt(attempt, RUNNING), FAIL)
    ensures FleetNext(OnAttempt(attempt, RUNNING), FAIL) == OnAttempt(attempt, FAILED)
  {
    assert Owns(OnAttempt(attempt, RUNNING).db, "w", "t");
  }

  /** The fleet after the retry. */
  function Retried(): Fleet {
    var f := OnAttempt(1, FAILED);
    f.(db := f.db.(tasks := map["t" := f.db.tasks["t"].(status := PENDING, attempt := 2, startedAt := None,
                                                        finishedAt := None, errorCode := None,
                                                        errorMessage := None)]))
  }

  lemma RetryStep()
    ensures FleetEnabled(OnAttempt(1, FAILED), RETRY) && FleetNext(OnAttempt(1, FAILED), RETRY) == Retried()
  {
  }

  lemma SecondClaimStep()
    ensures FleetEnabled(Retried(), CLAIM) && FleetNext(Retried(), CLAIM) == OnAttempt(2, RUNNING)
  {
    assert IsNext(Retried().db.tasks, None, {}, Some("t"));
    SecondClaim();
  }

  lemma SecondClaim()
    ensures Claim(Retried().db, "w", "l", Some("t"), 5).db == OnAttempt(2, RUNNING).db
  {
  }

  lemma SecondFailureIsLast()
    ensures 1 in OnAttempt(2, FAILED).indexes && Stranded(OnAttempt(2, FAILED), 1)
  {
  }

  /** So does the failure of its second attempt of three: the one retry left would reach the limit. */
  lemma SecondFailureStrands() returns (es: seq<FleetEvent>)
    ensures FleetValid(IDLE, es) && forall e | e in es :: KeyFree(e)
    ensures 1 in FleetExec(IDLE, es).indexes && Stranded(FleetExec(IDLE, es), 1)
  {
    es := SecondAttempt();
    FailStep(2);
    SecondFailureIsLast();
    es := Reach(es, OnAttempt(2, RUNNING), FAIL, OnAttempt(2, FAILED));
  }

  lemma SecondAttempt() returns (es: seq<FleetEvent>)
    ensures FleetValid(IDLE, es) && FleetExec(IDLE, es) == OnAttempt(2, RUNNING) && forall e | e in es :: KeyFree(e)
  {
    es := FirstFailure();
    RetryStep();
    es := Reach(es, OnAttempt(1, FAILED), RETRY, Retried());
    SecondClaimStep();
    es := Reach(es, Retried(), CLAIM, OnAttempt(2, RUNNING));
  }

  lemma FirstFailure() returns (es: seq<FleetEvent>)
    ensures FleetValid(IDLE, es) && FleetExec(IDLE, es) == OnAttempt(1, FAILED) && forall e | e in es :: KeyFree(e)
  {
    es := FirstClaim();
    FailStep(1);
    es := Reach(es, OnAttempt(1, RUNNING), FAIL, OnAttempt(1, FAILED));
  }

  lemma FirstClaim() returns (es: seq<FleetEvent>)
    ensures FleetValid(IDLE, es) && FleetExec(IDLE, es) == Running() == OnAttempt(1, RUNNING)
    ensures forall e | e in es :: KeyFree(e)
  {
    StartIdle();
    FlipStep();
    es := Reach([], IDLE, Optimizing(None, "t"), Flipped());
    ClaimStep();
    es := Reach(es, Flipped(), CLAIM, Running());
  }

  /** An optimize whose key is held by a task that has run already strands the row at once. */
  lemma SecondOptimizeStrands() returns (es: seq<FleetEvent>)
    ensures FleetValid(IDLE, es)
    ensures 1 in FleetExec(IDLE, es).indexes && Stranded(FleetExec(IDLE, es), 1)
  {
    var first := FirstOptimizeRound();
    var f := FleetExec(IDLE, first);
    SecondOptimizeStep(f);
    es := FleetExtend(IDLE, first, Optimizing(Some("t"), "t2"));
    OptimizeStrandsIff(f, Optimizing(Some("t"), "t2"), 1);
  }

  /** A user's task under the key that create_index would use for index row 2. */
  const TAKER := Request("COMPACTION", "d", 5, map[], BuildRequest("d", "j", "c", "IVF_PQ", 2).idempotencyKey, 3)

  const TAKE := Protocol(SubmitCall(USER, TAKER, None, "t", 0))

  const CREATE := Create(USER, "d", "j", "c", "IVF_PQ", false, 2, Submission(Some("t"), "t2", false), 0)

  function Taken(): Fleet {
    IDLE.(db := IDLE.db.(tasks := map["t" := NewTask(USER, TAKER, 0)]))
  }

  lemma TakeStep()
    ensures FleetEnabled(IDLE, TAKE) && FleetNext(IDLE, TAKE) == Taken()
  {
    assert Holders(IDLE.db.tasks, ScopedKey(USER, TAKER.idempotencyKey)) == {};
  }

  lemma CreateStep()
    ensures FleetEnabled(Taken(), CREATE) && 2 in FleetNext(Taken(), CREATE).indexes
            && Stranded(FleetNext(Taken(), CREATE), 2)
  {
    assert "t" in Holders(Taken().db.tasks, ScopedKey(USER, TAKER.idempotencyKey));
    assert forall id :: !Names(Taken().indexes, "d", "j", id);
    CreateStrandsIff(Taken(), CREATE);
  }

  /** A create whose key a user has taken for a task of another kind strands the new row. */
  lemma TakenKeyStrandsCreate() returns (es: seq<FleetEvent>)
    ensures FleetValid(IDLE, es)
    ensures 2 in FleetExec(IDLE, es).indexes && Stranded(FleetExec(IDLE, es), 2)
  {
    StartIdle();
    TakeStep();
    CreateStep();
    es := Reach([], IDLE, TAKE, Taken());
    es := Reach(es, Taken(), CREATE, FleetNext(Taken(), CREATE));
  }

  // ---- A dropped row comes back ----

  function BuildTask(): Task {
    NewTask(USER, BuildRequest("d", "j", "c", "IVF_PQ", 2), 0)
  }

  /** The idle fleet with index row 2 in the given status and its build task. */
  function Building(status: IndexStatus, task: Task, inFlight: int): Fleet {
    Fleet(Db(map["w" := IDLE.db.workers["w"].(inFlight := inFlight)], map["b" := task]),
          IDLE.indexes[2 := NewRow("d", "j", "c", "IVF_PQ").(status := status)], IDLE.datasets)
  }

  const BUILD := Create(USER, "d", "j", "c", "IVF_PQ", false, 2, Submission(None, "b", false), 0)
  const DROP := SetIndex(USER, "d", "j", DROPPED)
  const CLAIM_BUILD := Protocol(ClaimCall("w", "l", None, {}, Some("b"), 0))

  function BuildRunning(): Task {
    BuildTask().(status := RUNNING, workerId := Some("w"), startedAt := Some(0), attempt := 1)
  }

  lemma BuildStep()
    ensures FleetEnabled(IDLE, BUILD) && FleetNext(IDLE, BUILD) == Building(BUILDING, BuildTask(), 0)
  {
    assert forall id :: !Names(IDLE.indexes, "d", "j", id);
  }

  lemma DropStep()
    ensures FleetEnabled(Building(BUILDING, BuildTask(), 0), DROP)
    ensures FleetNext(Building(BUILDING, BuildTask(), 0), DROP) == Building(DROPPED, BuildTask(), 0)
  {
    assert Names(Building(BUILDING, BuildTask(), 0).indexes, "d", "j", 2);
  }

  lemma ClaimBuildStep()
    ensures FleetEnabled(Building(DROPPED, BuildTask(), 0), CLAIM_BUILD)
    ensures FleetNext(Building(DROPPED, BuildTask(), 0), CLAIM_BUILD) == Building(DROPPED, BuildRunning(), 1)
  {
    assert IsNext(Building(DROPPED, BuildTask(), 0).db.tasks, None, {}, Some("b"));
    ClaimedBuild();
  }

  lemma ClaimedBuild()
    ensures Claim(Building(DROPPED, BuildTask(), 0).db, "w", "l", Some("b"), 0).db
            == Building(DROPPED, BuildRunning(), 1).db
  {
  }

  /** An index dropped while its build waits is READY again once the build has run. */
  lemma DroppedRowReturns() returns (es: seq<FleetEvent>, dropped: Fleet, e: FleetEvent)
    ensures FleetValid(IDLE, es) && FleetExec(IDLE, es) == dropped && FleetEnabled(dropped, e)
    ensures 2 in dropped.indexes && dropped.indexes[2].status == DROPPED
    ensures 2 in FleetNext(dropped, e).indexes && FleetNext(dropped, e).indexes[2].status == READY
  {
    StartIdle();
    BuildStep();
    DropStep();
    ClaimBuildStep();
    es := Reach([], IDLE, BUILD, Building(BUILDING, BuildTask(), 0));
    es := Reach(es, Building(BUILDING, BuildTask(), 0), DROP, Building(DROPPED, BuildTask(), 0));
    dropped := Building(DROPPED, BuildRunning(), 1);
    es := Reach(es, Building(DROPPED, BuildTask(), 0), CLAIM_BUILD, dropped);
    FinishBuildStep();
    e := Finalization("w", "b", Ran(None, ""), 0);
  }

  lemma FinishBuildStep()
    ensures var dropped, e := Building(DROPPED, BuildRunning(), 1), Finalization("w", "b", Ran(None, ""), 0);
            FleetEnabled(dropped, e) && 2 in FleetNext(dropped, e).indexes
              && FleetNext(dropped, e).indexes[2].status == READY
  {
    var dropped := Building(DROPPED, BuildRunning(), 1);
    BuildServes();
    FinalizeRow(dropped, "w", "b", Ran(None, ""), 0, 2);
  }

  lemma BuildServes()
    ensures var dropped := Building(DROPPED, BuildRunning(), 1);
            && NamesUnique(dropped.indexes) && Owns(dropped.db, "w", "b") && Serves(BuildRunning(), dropped.indexes[2])
            && !FinalizeFails(dropped, "b", Ran(None, ""))
  {
    ServesTarget(Building(DROPPED, BuildRunning(), 1).indexes, BuildRunning(), 2);
  }

  // ---- A watcher pass ----

  /** Two policies that watch one dataset, for rows and for versions. */
  const WATCHERS: map<nat, Policy> :=
    map[0 := Policy("d", "p", None, false, "", true, Some(1), None, None, true),
        1 := Policy("d", "q", None, false, "", true, None, Some(1), None, true)]

  const BOTH := [IndexWatcher.Candidate(1, 0), IndexWatcher.Candidate(1, 1)]

  function DriftedWorld(): IndexWatcher.World {
    IndexWatcher.World(0, (_: IndexWatcher.Candidate) => IndexWatcher.Live(3, Some(5)),
                       (c: IndexWatcher.Candidate) => if c.policy == 0 then "x" else "y")
  }

  /** In one pass over one index with rows and versions to catch up with, both emit. */
  lemma TwoPoliciesEmitTwice()
    ensures forall c :: c in BOTH <==> c in IndexWatcher.Candidates(IDLE, WATCHERS)
    ensures IndexWatcher.RunPass(IDLE, WATCHERS, BOTH, DriftedWorld()).report.enqueued == 2
  {
    var first, second := BOTH[0], BOTH[1];
    var world := DriftedWorld();
    forall c ensures c in BOTH <==> c in IndexWatcher.Candidates(IDLE, WATCHERS) {
      assert c in IndexWatcher.Candidates(IDLE, WATCHERS) ==> c == IndexWatcher.Candidate(c.index, c.policy);
    }
    assert BOTH[..1] == [first] && [first][..0] == [];
    assert IndexWatcher.RunPass(IDLE, WATCHERS, [], world) == IndexWatcher.Pass(IDLE, IndexWatcher.EMPTY_REPORT);
    var one := IndexWatcher.WatchRow(IDLE, WATCHERS, first, world.lance(first), "x", 0);
    assert one.result == IndexWatcher.Enqueued;
    assert IndexWatcher.RunPass(IDLE, WATCHERS, [first], world).fleet == one.fleet;
    OptimizeLoop.SecondPolicyEmitsIff(IDLE, first, second, WATCHERS, world.lance(first), "x", "y", 0);
  }

  lemma WatchRowStrandsNothing(f: Fleet, policies: map<nat, Policy>, c: IndexWatcher.Candidate,
                               world: IndexWatcher.World)
    requires NamesUnique(f.indexes) && NoneStranded(f) && IndexWatcher.Readable(f, policies, c)
    requires f.indexes[c.index].status in {READY, OPTIMIZING} && world.newId(c) !in f.db.tasks
    ensures var after := IndexWatcher.WatchRow(f, policies, c, world.lance(c), world.newId(c), world.now).fleet;
            NamesUnique(after.indexes) && NoneStranded(after)
  {
    if world.lance(c).Live? {
      var row := f.indexes[c.index];
      var reason := IndexWatcher.DecideTrigger(world.lance(c).unindexed, world.lance(c).latest, row.lastSeenVersion,
                                               row.lastOptimizedAt, world.now, policies[c.policy]).reason;
      var e := Watch(c.index, world.lance(c).latest, reason.Tag(), world.newId(c), world.now);
      assert FleetEnabled(f, e);
      NamesKept(f, e);
      forall id | id in FleetNext(f, e).indexes ensures !Stranded(FleetNext(f, e), id) {
        OthersStrandNothing(f, e, id);
      }
    }
  }

  /** A whole watcher pass strands nothing. */
  lemma {:induction false} PassStrandsNothing(f: Fleet, policies: map<nat, Policy>, rows: seq<IndexWatcher.Candidate>,
                                              world: IndexWatcher.World)
    requires NamesUnique(f.indexes) && NoneStranded(f)
    requires forall c | c in rows :: IndexWatcher.Readable(f, policies, c) && f.indexes[c.index].status == READY
    requires IndexWatcher.FreshIds(f, rows, world)
    ensures NamesUnique(IndexWatcher.RunPass(f, policies, rows, world).fleet.indexes)
    ensures NoneStranded(IndexWatcher.RunPass(f, policies, rows, world).fleet)
  {
    if rows != [] {
      var front, c := rows[..|rows| - 1], rows[|rows| - 1];
      assert c in rows;
      IndexWatcher.FreshFront(f, rows, world);
      PassStrandsNothing(f, policies, front, world);
      IndexWatcher.PassGrows(f, policies, front, world);
      WatchRowStrandsNothing(IndexWatcher.RunPass(f, policies, front, world).fleet, policies, c, world);
    }
  }
}
