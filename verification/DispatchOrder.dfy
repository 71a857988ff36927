/** The order in which tasks are dispatched, and claims that overlap in time. */
module DispatchOrder {
  import opened Database
  import opened Dispatch
  import opened DispatchHistory

  // ---- What one claim is given ----

  /** The row waits with budget left, and is of the type asked for if one was. */
  predicate WaitsFor(row: Task, taskType: Option<string>) {
    && row.status in {PENDING, QUEUED}
    && row.attempt < row.maxAttempts
    && (taskType.Some? ==> row.taskType == taskType.value)
  }

  /** `a` is the more urgent row by its columns: a smaller priority number, or the same and no younger. */
  predicate NoLessUrgent(a: Task, b: Task) {
    a.priority <= b.priority && (a.priority == b.priority ==> a.createdAt <= b.createdAt)
  }

  /** Whatever the i-th call of a run is, if it is a claim that hands out `t`, then `t` was an unlocked row
      waiting for it, and no unlocked row waiting for it was more urgent. */
  lemma ClaimTakesMostUrgent(es: seq<Event>, i: nat, t: string)
    requires Valid(es) && i < |es| && es[i].ClaimCall?
    ensures Valid(es[..i]) && Enabled(Exec(es[..i]), es[i])
    ensures var tasks, e := Exec(es[..i]).tasks, es[i];
            Step(Exec(es[..i]), e).reply == Claimed(t) ==>
              && t in tasks && t !in e.locked && WaitsFor(tasks[t], e.taskType)
              && forall u | u in tasks && u !in e.locked && WaitsFor(tasks[u], e.taskType) ::
                   NoLessUrgent(tasks[t], tasks[u])
  {
    Prefix(es, i);
  }

  /** And a claim is handed something exactly when its worker is registered under this lease, ALIVE and below
      its capacity, and some unlocked row waits for it; a refusal means a worker or lease nobody knows. */
  lemma ClaimServedIff(es: seq<Event>, i: nat)
    requires Valid(es) && i < |es| && es[i].ClaimCall?
    ensures Valid(es[..i]) && Enabled(Exec(es[..i]), es[i])
    ensures var db, e := Exec(es[..i]), es[i];
            Step(db, e).reply.Claimed?
            <==> && e.w in db.workers && db.workers[e.w].leaseId == e.lease && db.workers[e.w].status == ALIVE
                 && db.workers[e.w].inFlight < db.workers[e.w].capacity
                 && exists u | u in db.tasks :: u !in e.locked && WaitsFor(db.tasks[u], e.taskType)
    ensures var db, e := Exec(es[..i]), es[i];
            Step(db, e).reply.Refused? <==> !(e.w in db.workers && db.workers[e.w].leaseId == e.lease)
  {
    Prefix(es, i);
    var db, e := Exec(es[..i]), es[i];
    if e.pick.Some? {
      assert WaitsFor(db.tasks[e.pick.value], e.taskType);
    }
  }

  // ---- One worker working off a queue ----

  /** `w` can be handed a task under `lease`. */
  predicate Serving(db: Db, w: string, lease: string) {
    && w in db.workers
    && db.workers[w].leaseId == lease
    && db.workers[w].status == ALIVE
    && 0 <= db.workers[w].inFlight < db.workers[w].capacity
  }

  /** One iteration of the worker: the task it was given and how executing it ended. */
  datatype Iteration = Iteration(task: string, succeeded: bool, claimedAt: int, finishedAt: int)

  function ClaimOf(w: string, lease: string, taskType: Option<string>, it: Iteration): Event {
    ClaimCall(w, lease, taskType, {}, Some(it.task), it.claimedAt)
  }

  function FinishOf(w: string, it: Iteration): Event {
    if it.succeeded then CompleteCall(w, it.task, None, it.finishedAt)
    else FailCall(w, it.task, "", "", it.finishedAt)
  }

  function AfterIteration(db: Db, w: string, lease: string, taskType: Option<string>, it: Iteration): Db
    requires Enabled(db, ClaimOf(w, lease, taskType, it))
  {
    Next(Next(db, ClaimOf(w, lease, taskType, it)), FinishOf(w, it))
  }

  /** The iterations are ones the worker can go through when nobody else makes a call. */
  predicate WorksOff(db: Db, w: string, lease: string, taskType: Option<string>, its: seq<Iteration>)
    decreases |its|
  {
    its != [] ==>
      && Enabled(db, ClaimOf(w, lease, taskType, its[0]))
      && WorksOff(AfterIteration(db, w, lease, taskType, its[0]), w, lease, taskType, its[1..])
  }

  function AfterAll(db: Db, w: string, lease: string, taskType: Option<string>, its: seq<Iteration>): Db
    requires WorksOff(db, w, lease, taskType, its)
    decreases |its|
  {
    if its == [] then db
    else AfterAll(AfterIteration(db, w, lease, taskType, its[0]), w, lease, taskType, its[1..])
  }

  function Eligible(tasks: map<string, Task>, taskType: Option<string>): set<string> {
    set t | t in tasks && Dispatchable(tasks[t], taskType)
  }

  /** An iteration finishes its task for good, frees its slot and leaves every other row alone. */
  lemma IterationStep(db: Db, w: string, lease: string, taskType: Option<string>, it: Iteration)
    requires Serving(db, w, lease) && Enabled(db, ClaimOf(w, lease, taskType, it))
    ensures var after := AfterIteration(db, w, lease, taskType, it);
            && after.workers == db.workers
            && after.tasks.Keys == db.tasks.Keys
            && (forall u | u in db.tasks && u != it.task :: after.tasks[u] == db.tasks[u])
            && Eligible(after.tasks, taskType) == Eligible(db.tasks, taskType) - {it.task}
  {
    var claimed := Next(db, ClaimOf(w, lease, taskType, it));
    assert Owns(claimed, w, it.task);
    var after := Next(claimed, FinishOf(w, it));
    assert after.workers[w] == db.workers[w];
    assert after.workers == db.workers;
  }

  /** The tasks of some iterations. */
  function Given(its: seq<Iteration>): set<string> {
    set it | it in its :: it.task
  }

  /** Distinct tasks, in dispatch order. */
  predicate InOrder(tasks: map<string, Task>, its: seq<Iteration>) {
    forall i, j | 0 <= i < j < |its| ::
      its[i].task != its[j].task && its[i].task in tasks && its[j].task in tasks &&
      NotAfter(tasks[its[i].task], tasks[its[j].task])
  }

  /** None of `left` comes before any of the tasks given. */
  predicate NoneBefore(tasks: map<string, Task>, its: seq<Iteration>, left: set<string>) {
    forall it, u | it in its && u in left && it.task in tasks && u in tasks :: NotAfter(tasks[it.task], tasks[u])
  }

  lemma GivenCons(first: Iteration, rest: seq<Iteration>)
    ensures Given([first] + rest) == {first.task} + Given(rest)
  {
    assert forall it | it in rest :: it in [first] + rest;
    assert first in [first] + rest;
  }

  /** In front of tasks that are in order comes one that precedes them all. */
  lemma InOrderCons(tasks: map<string, Task>, later: map<string, Task>, first: Iteration, rest: seq<Iteration>)
    requires InOrder(later, rest) && first.task in tasks && first.task !in Given(rest)
    requires forall u | u in Given(rest) :: u in tasks && u in later && later[u] == tasks[u]
                                            && NotAfter(tasks[first.task], tasks[u])
    ensures InOrder(tasks, [first] + rest)
  {
    var its := [first] + rest;
    assert forall j | 0 < j < |its| :: its[j] == rest[j - 1] && its[j].task in Given(rest);
  }

  lemma NoneBeforeCons(tasks: map<string, Task>, later: map<string, Task>, first: Iteration, rest: seq<Iteration>,
                       left: set<string>)
    requires NoneBefore(later, rest, left) && first.task in tasks
    requires forall u | u in left + Given(rest) :: u in tasks && u in later && later[u] == tasks[u]
    requires forall u | u in left :: NotAfter(tasks[first.task], tasks[u])
    ensures NoneBefore(tasks, [first] + rest, left)
  {
    forall it, u | it in [first] + rest && u in left ensures it.task in tasks && NotAfter(tasks[it.task], tasks[u]) {
      assert it == first || (it in rest && it.task in Given(rest));
    }
  }

  lemma PickedFirst(db: Db, w: string, lease: string, taskType: Option<string>, it: Iteration)
    requires Enabled(db, ClaimOf(w, lease, taskType, it))
    ensures it.task in Eligible(db.tasks, taskType)
    ensures forall u | u in Eligible(db.tasks, taskType) :: NotAfter(db.tasks[it.task], db.tasks[u])
  {
  }

  /** The worker is given distinct eligible tasks in dispatch order, none of those left comes before
      any of those given, and once a claim finds nothing it has been given exactly the eligible ones. */
  lemma {:induction false} WorksInOrder(db: Db, w: string, lease: string, taskType: Option<string>, its: seq<Iteration>)
    requires Serving(db, w, lease) && WorksOff(db, w, lease, taskType, its)
    ensures InOrder(db.tasks, its)
    ensures var left := Eligible(AfterAll(db, w, lease, taskType, its).tasks, taskType);
            && Given(its) !! left
            && Given(its) + left == Eligible(db.tasks, taskType)
            && NoneBefore(db.tasks, its, left)
    decreases |its|
  {
    if its != [] {
      var first, rest := its[0], its[1..];
      var after := AfterIteration(db, w, lease, taskType, first);
      IterationStep(db, w, lease, taskType, first);
      WorksInOrder(after, w, lease, taskType, rest);
      assert its == [first] + rest;
      GivenCons(first, rest);
      PickedFirst(db, w, lease, taskType, first);
      var left := Eligible(AfterAll(after, w, lease, taskType, rest).tasks, taskType);
      assert forall u | u in left + Given(rest) :: u in Eligible(after.tasks, taskType) && u != first.task;
      InOrderCons(db.tasks, after.tasks, first, rest);
      NoneBeforeCons(db.tasks, after.tasks, first, rest, left);
    }
  }

  /** By the columns: the tasks come by priority number, older rows first among equal ones, and no row left
      is more urgent than one that was given. */
  lemma WorksByUrgency(db: Db, w: string, lease: string, taskType: Option<string>, its: seq<Iteration>, i: nat)
    requires Serving(db, w, lease) && WorksOff(db, w, lease, taskType, its) && i < |its|
    ensures its[i].task in db.tasks && WaitsFor(db.tasks[its[i].task], taskType)
    ensures forall j | i < j < |its| ::
              its[j].task in db.tasks && NoLessUrgent(db.tasks[its[i].task], db.tasks[its[j].task])
    ensures forall u | u in db.tasks && WaitsFor(db.tasks[u], taskType) ::
              || (exists j | 0 <= j < |its| :: its[j].task == u)
              || NoLessUrgent(db.tasks[its[i].task], db.tasks[u])
  {
    WorksInOrder(db, w, lease, taskType, its);
    assert its[i].task in Given(its);
    forall j | i < j < |its| ensures its[j].task in db.tasks {
      assert its[j].task in Given(its);
    }
    forall u | u in db.tasks && WaitsFor(db.tasks[u], taskType) && u in Given(its)
      ensures exists j | 0 <= j < |its| :: its[j].task == u
    {
      var it :| it in its && it.task == u;
    }
    assert forall u | u in db.tasks && WaitsFor(db.tasks[u], taskType) :: u in Eligible(db.tasks, taskType);
  }

  // ---- Claims that overlap ----

  /** The task table while claims are between their locking query and their commit. */
  datatype Overlap = Overlap(tasks: map<string, Task>, open: map<int, string>)

  datatype Move =
    | Lock(session: int, taskType: Option<string>, pick: Option<string>)
    | Commit(session: int, w: string, now: int)
    | Abort(session: int)
    | Other(t: string, row: Task)

  predicate CanMove(s: Overlap, m: Move) {
    match m
    case Lock(session, taskType, pick) => session !in s.open && IsNext(s.tasks, taskType, s.open.Values, pick)
    case Commit(session, _, _) => session in s.open && s.open[session] in s.tasks
    case Abort(session) => session in s.open
    case Other(t, _) => t !in s.open.Values    // a write to a locked row waits for the lock
  }

  function Dispatched(task: Task, w: string, now: int): Task {
    task.(status := RUNNING, workerId := Some(w), startedAt := Some(now),
          attempt := if task.attempt == 0 then 1 else task.attempt)
  }

  function Moved(s: Overlap, m: Move): Overlap
    requires CanMove(s, m)
  {
    match m
    case Lock(session, _, pick) => if pick.None? then s else s.(open := s.open[session := pick.value])
    case Commit(session, w, now) =>
      var t := s.open[session];
      Overlap(s.tasks[t := Dispatched(s.tasks[t], w, now)], s.open - {session})
    case Abort(session) => s.(open := s.open - {session})
    case Other(t, row) => s.(tasks := s.tasks[t := row])
  }

  /** Open claims hold different rows, and each row they hold is still waiting with budget left. */
  predicate LocksDisjoint(s: Overlap) {
    && (forall a, b | a in s.open && b in s.open && s.open[a] == s.open[b] :: a == b)
    && (forall a | a in s.open :: s.open[a] in s.tasks && Dispatchable(s.tasks[s.open[a]], None))
  }

  /** However claims and other calls overlap, this stays so; hence a commit always dispatches a waiting
      row, and no two claims can dispatch the same one without a requeue or retry in between. */
  lemma OverlappingClaimsDisjoint(s: Overlap, m: Move)
    requires LocksDisjoint(s) && CanMove(s, m)
    ensures LocksDisjoint(Moved(s, m))
    ensures m.Commit? ==> Dispatchable(s.tasks[s.open[m.session]], None) &&
                          s.open[m.session] !in Moved(s, m).open.Values &&
                          !Dispatchable(Moved(s, m).tasks[s.open[m.session]], None)
  {
    var after := Moved(s, m);
    match m
    case Lock(session, _, pick) =>
      if pick.Some? {
        forall a | a in s.open ensures s.open[a] != pick.value {
          assert s.open[a] in s.open.Values;
        }
      }
    case Commit(session, _, _) =>
      var t := s.open[session];
      forall a | a in after.open ensures after.open[a] != t && after.tasks[after.open[a]] == s.tasks[s.open[a]] {
        assert a in s.open;
      }
    case Abort(_) =>
    case Other(t, _) =>
      forall a | a in s.open ensures s.open[a] != t {
        assert s.open[a] in s.open.Values;
      }
  }

  /** The commit of an overlapping claim is one of the calls that runs of the protocol are made of, whatever was
      inserted or released since its locking query: the rows that query passed over count as locked. */
  lemma CommitIsClaimCall(s: Overlap, m: Move, workers: map<string, Worker>, lease: string)
    requires LocksDisjoint(s) && CanMove(s, m) && m.Commit?
    requires Serving(Db(workers, s.tasks), m.w, lease)
    ensures var t := s.open[m.session];
            var call := ClaimCall(m.w, lease, None, s.tasks.Keys - {t}, Some(t), m.now);
            && Enabled(Db(workers, s.tasks), call)
            && Step(Db(workers, s.tasks), call).reply == Claimed(t)
            && Next(Db(workers, s.tasks), call).tasks == Moved(s, m).tasks
  {
  }

  ghost predicate Path(s: Overlap, ms: seq<Move>)
    decreases |ms|
  {
    ms == [] || (CanMove(s, ms[0]) && Path(Moved(s, ms[0]), ms[1..]))
  }

  ghost function After(s: Overlap, ms: seq<Move>): Overlap
    requires Path(s, ms)
    decreases |ms|
  {
    if ms == [] then s else After(Moved(s, ms[0]), ms[1..])
  }

  predicate Dispatches(s: Overlap, m: Move, t: string) {
    CanMove(s, m) && m.Commit? && s.open[m.session] == t
  }

  /** Some call in between has made `t` wait again. */
  predicate MadeWaiting(ms: seq<Move>, t: string) {
    exists k | 0 <= k < |ms| :: ms[k].Other? && ms[k].t == t && Dispatchable(ms[k].row, None)
  }

  lemma {:induction false} DispatchNeedsWaiting(s: Overlap, ms: seq<Move>, m: Move, t: string)
    requires LocksDisjoint(s) && Path(s, ms) && Dispatches(After(s, ms), m, t)
    requires t in s.tasks && !Dispatchable(s.tasks[t], None)
    ensures MadeWaiting(ms, t)
    decreases |ms|
  {
    if ms != [] {
      var next := Moved(s, ms[0]);
      OverlappingClaimsDisjoint(s, ms[0]);
      if Dispatchable(next.tasks[t], None) {
        assert ms[0].Other? && ms[0].t == t;
      } else {
        DispatchNeedsWaiting(next, ms[1..], m, t);
        var k :| 0 <= k < |ms[1..]| && ms[1..][k].Other? && ms[1..][k].t == t && Dispatchable(ms[1..][k].row, None);
        assert ms[k + 1] == ms[1..][k];
      }
    }
  }

  /** In every interleaving of overlapping claims with any other calls, a task that one claim dispatched is
      dispatched again only after some call has made it wait again. */
  lemma NeverDispatchedTwice(s: Overlap, first: Move, between: seq<Move>, second: Move, t: string)
    requires LocksDisjoint(s) && Dispatches(s, first, t) && Path(Moved(s, first), between)
    requires Dispatches(After(Moved(s, first), between), second, t)
    ensures MadeWaiting(between, t)
  {
    OverlappingClaimsDisjoint(s, first);
    DispatchNeedsWaiting(Moved(s, first), between, second, t);
  }
}
