/** The dispatch protocol: what one call of scheduler_service or task_service does to the
    committed rows, as a function of the rows before it.  SchedulerService and TaskService
    hold the calls themselves and are proved to do exactly this. */
module Dispatch {
  import opened Database

  datatype Error = WorkerNotFound | LeaseMismatch | TransitionError | TaskNotFound | IntegrityFailure

  datatype Reply =
    | Done
    | NoWork
    | Claimed(task: string)
    | Submitted(uuid: string, created: bool)
    | Reaped(workers: set<string>, requeued: set<string>)
    | Refused(error: Error)

  datatype Outcome = Outcome(db: Db, reply: Reply)

  function Refuse(db: Db, error: Error): Outcome {
    Outcome(db, Refused(error))
  }

  // ---- Worker registry ----

  function Register(db: Db, w: string, workerType: string, capacity: int, lease: string, now: int): Outcome {
    Outcome(db.(workers := db.workers[w := Worker(workerType, lease, capacity, 0, ALIVE, now)]), Done)
  }

  function Heartbeat(db: Db, w: string, lease: string, now: int): Outcome {
    if w !in db.workers then Refuse(db, WorkerNotFound)
    else if db.workers[w].leaseId != lease then Refuse(db, LeaseMismatch)
    else
      var row := db.workers[w];
      var status := if row.status == DEAD then ALIVE else row.status;
      Outcome(db.(workers := db.workers[w := row.(lastHeartbeatAt := now, status := status)]), Done)
  }

  function Drain(db: Db, w: string): Outcome {
    if w !in db.workers then Refuse(db, WorkerNotFound)
    else if db.workers[w].status == DEAD then Outcome(db, Done)
    else Outcome(db.(workers := db.workers[w := db.workers[w].(status := DRAINING)]), Done)
  }

  // ---- Claim ----

  /** A waiting task of the requested type with retry budget left. */
  predicate Dispatchable(task: Task, taskType: Option<string>) {
    && (task.status == PENDING || task.status == QUEUED)
    && task.attempt < task.maxAttempts
    && (taskType.None? || task.taskType == taskType.value)
  }

  /** The dispatch order: lower priority number first, then the older row. */
  predicate NotAfter(a: Task, b: Task) {
    a.priority < b.priority || (a.priority == b.priority && a.createdAt <= b.createdAt)
  }

  /** `pick` is an answer the ordered query limited to one row may give when it skips the rows `locked` by
      other transactions. */
  predicate IsNext(tasks: map<string, Task>, taskType: Option<string>, locked: set<string>, pick: Option<string>) {
    match pick
    case None => forall u | u in tasks && u !in locked :: !Dispatchable(tasks[u], taskType)
    case Some(t) =>
      && t in tasks && t !in locked
      && Dispatchable(tasks[t], taskType)
      && forall u | u in tasks && u !in locked && Dispatchable(tasks[u], taskType) :: NotAfter(tasks[t], tasks[u])
  }

  function Claim(db: Db, w: string, lease: string, pick: Option<string>, now: int): Outcome
    requires pick.Some? ==> pick.value in db.tasks
  {
    if w !in db.workers then Refuse(db, WorkerNotFound)
    else if db.workers[w].leaseId != lease then Refuse(db, LeaseMismatch)
    else if db.workers[w].status != ALIVE || db.workers[w].inFlight >= db.workers[w].capacity then Outcome(db, NoWork)
    else
      match pick
      case None => Outcome(db, NoWork)
      case Some(t) =>
        var task := db.tasks[t];
        var attempt := if task.attempt == 0 then 1 else task.attempt;
        var claimed := task.(status := RUNNING, workerId := Some(w), startedAt := Some(now), attempt := attempt);
        var worker := db.workers[w];
        Outcome(Db(db.workers[w := worker.(inFlight := worker.inFlight + 1)], db.tasks[t := claimed]), Claimed(t))
  }

  // ---- Finish ----

  /** One slot given back, never below zero; a worker that is not registered is left out. */
  function Released(workers: map<string, Worker>, w: string): map<string, Worker> {
    if w in workers then
      workers[w := workers[w].(inFlight := if workers[w].inFlight > 0 then workers[w].inFlight - 1 else 0)]
    else workers
  }

  /** The task that `w` may finish now. */
  predicate Owns(db: Db, w: string, t: string) {
    t in db.tasks && db.tasks[t].workerId == Some(w) && db.tasks[t].status == RUNNING
  }

  function Complete(db: Db, w: string, t: string, result: Option<string>, now: int): Outcome {
    if !Owns(db, w, t) then Refuse(db, TransitionError)
    else
      var finished := db.tasks[t].(status := SUCCEEDED, finishedAt := Some(now), result := result,
                                   errorCode := None, errorMessage := None);
      Outcome(Db(Released(db.workers, w), db.tasks[t := finished]), Done)
  }

  function Fail(db: Db, w: string, t: string, code: string, message: string, now: int): Outcome {
    if !Owns(db, w, t) then Refuse(db, TransitionError)
    else
      var failed := db.tasks[t].(status := FAILED, finishedAt := Some(now),
                                 errorCode := Some(code), errorMessage := Some(message));
      Outcome(Db(Released(db.workers, w), db.tasks[t := failed]), Done)
  }

  // ---- Reap ----

  /** Workers the reaper takes: not yet DEAD, last heard of before the cutoff, and not held by
      another reaper's row lock. */
  function Stale(workers: map<string, Worker>, cutoff: int, locked: set<string>): set<string> {
    set w | w in workers && w !in locked && workers[w].status != DEAD && workers[w].lastHeartbeatAt < cutoff
  }

  predicate RunningUnder(task: Task, owners: set<string>) {
    task.status == RUNNING && task.workerId.Some? && task.workerId.value in owners
  }

  function Requeued(task: Task): Task {
    task.(status := PENDING, workerId := None, startedAt := None)
  }

  function Buried(worker: Worker): Worker {
    worker.(status := DEAD, inFlight := 0)
  }

  /** The tables once the workers in `dead` are reaped. */
  function Bury(db: Db, dead: set<string>): Db {
    Db(map w | w in db.workers :: if w in dead then Buried(db.workers[w]) else db.workers[w],
       map t | t in db.tasks :: if RunningUnder(db.tasks[t], dead) then Requeued(db.tasks[t]) else db.tasks[t])
  }

  function Reap(db: Db, cutoff: int, locked: set<string>): Outcome {
    var dead := Stale(db.workers, cutoff, locked);
    Outcome(Bury(db, dead), Reaped(dead, set t | t in db.tasks && RunningUnder(db.tasks[t], dead)))
  }

  // ---- Submit, cancel, retry ----

  /** The fields a caller chooses when it submits a task. */
  datatype Request = Request(taskType: string, datasetUuid: string, priority: int,
                             params: map<string, Param>, idempotencyKey: Option<string>, maxAttempts: int)

  function ScopedKey(p: Principal, key: Option<string>): Option<string> {
    match key
    case None => None
    case Some(k) => Some(p.tenantId + ":" + k)
  }

  /** The tasks that hold an idempotency key. */
  function Holders(tasks: map<string, Task>, key: Option<string>): set<string> {
    set t | t in tasks && key.Some? && tasks[t].idempotencyKey == key
  }

  function NewTask(p: Principal, r: Request, now: int): Task {
    Task(r.taskType, r.datasetUuid, p.tenantId, PENDING, r.priority, 0, r.maxAttempts, None,
         ScopedKey(p, r.idempotencyKey), r.params, None, None, None, None, None, now)
  }

  /** `holder` is the row the lookup by key returns, if the caller can see one. */
  predicate IsVisibleHolder(db: Db, p: Principal, key: Option<string>, holder: Option<string>) {
    match holder
    case None => forall t | t in Holders(db.tasks, key) :: !p.Sees(db.tasks[t].tenantId)
    case Some(t) => t in Holders(db.tasks, key) && p.Sees(db.tasks[t].tenantId)
  }

  function Submit(db: Db, p: Principal, r: Request, holder: Option<string>, uuid: string, now: int): Outcome {
    if holder.Some? then Outcome(db, Submitted(holder.value, false))
    else if Holders(db.tasks, ScopedKey(p, r.idempotencyKey)) != {} then Refuse(db, IntegrityFailure)
    else Outcome(db.(tasks := db.tasks[uuid := NewTask(p, r, now)]), Submitted(uuid, true))
  }

  function Cancel(db: Db, p: Principal, t: string, now: int): Outcome {
    if t !in db.tasks || !p.Sees(db.tasks[t].tenantId) then Refuse(db, TaskNotFound)
    else
      var task := db.tasks[t];
      if task.status == CANCELLED then Outcome(db, Done)
      else if task.status == SUCCEEDED || task.status == FAILED then Refuse(db, TransitionError)
      else
        // An empty worker id is falsy in the source: no slot is given back for it.
        var workers := if task.status == RUNNING && task.workerId.Some? && task.workerId.value != ""
                       then Released(db.workers, task.workerId.value) else db.workers;
        Outcome(Db(workers, db.tasks[t := task.(status := CANCELLED, finishedAt := Some(now))]), Done)
  }

  function Retry(db: Db, p: Principal, t: string): Outcome {
    if t !in db.tasks || !p.Sees(db.tasks[t].tenantId) then Refuse(db, TaskNotFound)
    else
      var task := db.tasks[t];
      if task.status != FAILED || task.attempt >= task.maxAttempts then Refuse(db, TransitionError)
      else
        Outcome(db.(tasks := db.tasks[t := task.(status := PENDING, attempt := task.attempt + 1, errorCode := None,
                                                 errorMessage := None, startedAt := None, finishedAt := None)]), Done)
  }

  // ---- Events ----

  /** One committed service call with the choices the database or the outside world made in it. */
  datatype Event =
    | RegisterCall(w: string, workerType: string, capacity: int, lease: string, now: int)
    | HeartbeatCall(w: string, lease: string, now: int)
    | DrainCall(w: string)
    | ClaimCall(w: string, lease: string, taskType: Option<string>, locked: set<string>, pick: Option<string>, now: int)
    | CompleteCall(w: string, t: string, result: Option<string>, now: int)
    | FailCall(w: string, t: string, code: string, message: string, now: int)
    | ReapCall(cutoff: int, locked: set<string>)
    | SubmitCall(p: Principal, request: Request, holder: Option<string>, uuid: string, now: int)
    | CancelCall(p: Principal, t: string, now: int)
    | RetryCall(p: Principal, t: string)

  /** The choices recorded in an event are ones the database could make. */
  predicate Enabled(db: Db, e: Event) {
    match e
    case ClaimCall(_, _, taskType, locked, pick, _) => IsNext(db.tasks, taskType, locked, pick)
    case SubmitCall(p, r, holder, uuid, _) =>
      uuid !in db.tasks && IsVisibleHolder(db, p, ScopedKey(p, r.idempotencyKey), holder)
    case _ => true
  }

  function Step(db: Db, e: Event): Outcome
    requires Enabled(db, e)
  {
    match e
    case RegisterCall(w, workerType, capacity, lease, now) => Register(db, w, workerType, capacity, lease, now)
    case HeartbeatCall(w, lease, now) => Heartbeat(db, w, lease, now)
    case DrainCall(w) => Drain(db, w)
    case ClaimCall(w, lease, _, _, pick, now) => Claim(db, w, lease, pick, now)
    case CompleteCall(w, t, result, now) => Complete(db, w, t, result, now)
    case FailCall(w, t, code, message, now) => Fail(db, w, t, code, message, now)
    case ReapCall(cutoff, locked) => Reap(db, cutoff, locked)
    case SubmitCall(p, r, holder, uuid, now) => Submit(db, p, r, holder, uuid, now)
    case CancelCall(p, t, now) => Cancel(db, p, t, now)
    case RetryCall(p, t) => Retry(db, p, t)
  }

  function Next(db: Db, e: Event): Db
    requires Enabled(db, e)
  {
    Step(db, e).db
  }
}
