/** Slot accounting and ownership: what every call of the dispatch protocol keeps true of the
    rows, whoever makes the call and whatever happened before it. */
module DispatchInvariants {
  import opened Database
  import opened Dispatch

  /** The RUNNING tasks that name `w` as their worker. */
  ghost function RunningOf(db: Db, w: string): set<string> {
    set t | t in db.tasks && Owns(db, w, t)
  }

  /** How many tasks the worker really runs beyond what its counter says. */
  ghost function Gap(db: Db, w: string): int
    requires w in db.workers
  {
    |RunningOf(db, w)| - db.workers[w].inFlight
  }

  function AtLeastZero(n: int): int {
    if n < 0 then 0 else n
  }

  /** The counter stays between zero and both the capacity and the number of tasks really run. */
  ghost predicate SlotsSound(db: Db, w: string)
    requires w in db.workers
  {
    var worker := db.workers[w];
    && 0 <= worker.inFlight <= AtLeastZero(worker.capacity)
    && (w != "" ==> worker.inFlight <= |RunningOf(db, w)|)
    && (worker.status == DEAD ==> worker.inFlight == 0)
  }

  /** A RUNNING task has a registered owner that is not DEAD, and attempts stay in the budget. */
  predicate TaskSound(db: Db, t: string)
    requires t in db.tasks
  {
    var task := db.tasks[t];
    && 0 <= task.attempt <= AtLeastZero(task.maxAttempts)
    && (task.status == RUNNING ==>
          && task.attempt >= 1
          && task.workerId.Some?
          && task.workerId.value in db.workers
          && db.workers[task.workerId.value].status != DEAD)
  }

  /** The UNIQUE constraint on the idempotency key. */
  predicate KeysUnique(tasks: map<string, Task>) {
    forall t, u | t in tasks && u in tasks && tasks[t].idempotencyKey.Some? &&
                  tasks[t].idempotencyKey == tasks[u].idempotencyKey :: t == u
  }

  ghost predicate Sound(db: Db) {
    && (forall w | w in db.workers :: SlotsSound(db, w))
    && (forall t | t in db.tasks :: TaskSound(db, t))
    && KeysUnique(db.tasks)
  }

  /** What a call does to the set of tasks a worker runs. */
  ghost function RunningAfter(db: Db, e: Event, w: string): set<string>
    requires Enabled(db, e)
  {
    var before := RunningOf(db, w);
    var reply := Step(db, e).reply;
    match e
    case ClaimCall(v, _, _, _, _, _) => if v == w && reply.Claimed? then before + {reply.task} else before
    case CompleteCall(_, t, _, _) => if reply.Done? then before - {t} else before
    case FailCall(_, t, _, _, _) => if reply.Done? then before - {t} else before
    case CancelCall(_, t, _) => if reply.Done? then before - {t} else before
    case ReapCall(_, _) => if w in reply.workers then {} else before
    case _ => before
  }

  lemma RunningStep(db: Db, e: Event, w: string)
    requires Enabled(db, e)
    ensures RunningOf(Next(db, e), w) == RunningAfter(db, e, w)
  {
    var after := Next(db, e);
    forall t
      ensures t in RunningOf(after, w) <==> t in RunningAfter(db, e, w)
    {
    }
  }

  /** How many tasks `w` runs after a call. */
  ghost function LoadAfter(db: Db, e: Event, w: string): int
    requires Enabled(db, e)
  {
    var load := |RunningOf(db, w)|;
    var reply := Step(db, e).reply;
    match e
    case ClaimCall(v, _, _, _, _, _) => if v == w && reply.Claimed? then load + 1 else load
    case CompleteCall(v, _, _, _) => if v == w && reply.Done? then load - 1 else load
    case FailCall(v, _, _, _, _) => if v == w && reply.Done? then load - 1 else load
    case CancelCall(_, t, _) => if reply.Done? && Owns(db, w, t) then load - 1 else load
    case ReapCall(_, _) => if w in reply.workers then 0 else load
    case _ => load
  }

  lemma LoadWithout(db: Db, w: string, t: string)
    ensures |RunningOf(db, w) - {t}| == |RunningOf(db, w)| - (if Owns(db, w, t) then 1 else 0)
  {
    if !Owns(db, w, t) {
      assert RunningOf(db, w) - {t} == RunningOf(db, w);
    }
  }

  lemma LoadWith(db: Db, w: string, t: string)
    requires !Owns(db, w, t)
    ensures |RunningOf(db, w) + {t}| == |RunningOf(db, w)| + 1
  {
  }

  lemma SizeAfterClaim(db: Db, e: Event, w: string)
    requires Enabled(db, e) && e.ClaimCall?
    ensures |RunningAfter(db, e, w)| == LoadAfter(db, e, w)
  {
    if Step(db, e).reply.Claimed? {
      LoadWith(db, w, Step(db, e).reply.task);
    }
  }

  lemma SizeAfterEnd(db: Db, e: Event, w: string)
    requires Enabled(db, e) && (e.CompleteCall? || e.FailCall? || e.CancelCall?)
    ensures |RunningAfter(db, e, w)| == LoadAfter(db, e, w)
  {
    LoadWithout(db, w, e.t);
  }

  lemma SizeAfter(db: Db, e: Event, w: string)
    requires Enabled(db, e)
    ensures |RunningAfter(db, e, w)| == LoadAfter(db, e, w)
  {
    match e
    case ClaimCall(_, _, _, _, _, _) => SizeAfterClaim(db, e, w);
    case CompleteCall(_, _, _, _) => SizeAfterEnd(db, e, w);
    case FailCall(_, _, _, _, _) => SizeAfterEnd(db, e, w);
    case CancelCall(_, _, _) => SizeAfterEnd(db, e, w);
    case ReapCall(_, _) => assert w in Step(db, e).reply.workers ==> RunningAfter(db, e, w) == {};
    case _ =>
  }

  lemma LoadStep(db: Db, e: Event, w: string)
    requires Enabled(db, e)
    ensures |RunningOf(Next(db, e), w)| == LoadAfter(db, e, w)
  {
    RunningStep(db, e, w);
    SizeAfter(db, e, w);
  }

  /** The counter of `w` after a call. */
  function CounterAfter(db: Db, e: Event, w: string): int
    requires Enabled(db, e) && w in db.workers
  {
    var n := db.workers[w].inFlight;
    var reply := Step(db, e).reply;
    match e
    case RegisterCall(v, _, _, _, _) => if v == w then 0 else n
    case ClaimCall(v, _, _, _, _, _) => if v == w && reply.Claimed? then n + 1 else n
    case CompleteCall(v, _, _, _) => if v == w && reply.Done? then AtLeastZero(n - 1) else n
    case FailCall(v, _, _, _, _) => if v == w && reply.Done? then AtLeastZero(n - 1) else n
    case CancelCall(_, t, _) => if w != "" && reply.Done? && Owns(db, w, t) then AtLeastZero(n - 1) else n
    case ReapCall(_, _) => if w in reply.workers then 0 else n
    case _ => n
  }

  lemma CounterStep(db: Db, e: Event, w: string)
    requires Enabled(db, e) && w in db.workers
    ensures w in Next(db, e).workers
    ensures Next(db, e).workers[w].inFlight == CounterAfter(db, e, w)
  {
    if e.CompleteCall? || e.FailCall? || e.CancelCall? {
      CounterStepEnd(db, e, w);
    }
  }

  lemma CounterStepEnd(db: Db, e: Event, w: string)
    requires Enabled(db, e) && w in db.workers && (e.CompleteCall? || e.FailCall? || e.CancelCall?)
    ensures w in Next(db, e).workers
    ensures Next(db, e).workers[w].inFlight == CounterAfter(db, e, w)
  {
  }

  /** A worker's counter and its real load move together, except that a slot given back at zero
      and a registration move only one of them. */
  lemma GapStep(db: Db, e: Event, w: string)
    requires Sound(db) && Enabled(db, e) && w in db.workers && w != ""
    ensures w in Next(db, e).workers
    ensures e.RegisterCall? && e.w == w ==> Gap(Next(db, e), w) == |RunningOf(db, w)|
    ensures !(e.RegisterCall? && e.w == w) ==> Gap(Next(db, e), w) <= Gap(db, w)
  {
    LoadStep(db, e, w);
    CounterStep(db, e, w);
    GapArithmetic(db, e, w);
  }

  lemma GapArithmetic(db: Db, e: Event, w: string)
    requires Sound(db) && Enabled(db, e) && w in db.workers && w != ""
    ensures e.RegisterCall? && e.w == w ==> CounterAfter(db, e, w) == 0 && LoadAfter(db, e, w) == |RunningOf(db, w)|
    ensures !(e.RegisterCall? && e.w == w) ==> LoadAfter(db, e, w) - CounterAfter(db, e, w) <= Gap(db, w)
  {
    assert SlotsSound(db, w);
  }

  lemma SlotsStep(db: Db, e: Event, w: string)
    requires Enabled(db, e) && w in Next(db, e).workers && (w in db.workers ==> SlotsSound(db, w))
    ensures SlotsSound(Next(db, e), w)
  {
    if w in db.workers {
      LoadStep(db, e, w);
      CounterStep(db, e, w);
    }
  }

  lemma TaskStep(db: Db, e: Event, t: string)
    requires Enabled(db, e) && t in Next(db, e).tasks && (t in db.tasks ==> TaskSound(db, t))
    ensures TaskSound(Next(db, e), t)
  {
    if e.ReapCall? || e.ClaimCall? {
      TaskStepMoved(db, e, t);
    }
  }

  lemma TaskStepMoved(db: Db, e: Event, t: string)
    requires Enabled(db, e) && t in db.tasks && TaskSound(db, t) && (e.ReapCall? || e.ClaimCall?)
    ensures t in Next(db, e).tasks && TaskSound(Next(db, e), t)
  {
  }

  lemma KeysStep(db: Db, e: Event)
    requires KeysUnique(db.tasks) && Enabled(db, e)
    ensures KeysUnique(Next(db, e).tasks)
  {
  }

  /** Every call keeps the rows sound. */
  lemma SoundStep(db: Db, e: Event)
    requires Sound(db) && Enabled(db, e)
    ensures Sound(Next(db, e))
  {
    var after := Next(db, e);
    forall w | w in after.workers ensures SlotsSound(after, w) {
      SlotsStep(db, e, w);
    }
    forall t | t in after.tasks ensures TaskSound(after, t) {
      TaskStep(db, e, t);
    }
    KeysStep(db, e);
  }
}
