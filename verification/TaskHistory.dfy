/** The life of one task over a whole run: who may finish it, how often it can be dispatched,
    failed and retried, and why runs end. */
module TaskHistory {
  import opened Database
  import opened Dispatch
  import opened DispatchInvariants
  import opened DispatchHistory

  /** What one call does to one task that existed before it. */
  datatype Effect = Untouched | ClaimedBy(w: string) | CompletedBy(w: string) | FailedBy(w: string)
                  | Requeued | CancelledRunning | CancelledIdle | Retried

  function EffectOn(db: Db, e: Event, t: string): Effect
    requires Enabled(db, e) && t in db.tasks
  {
    var reply := Step(db, e).reply;
    match e
    case ClaimCall(w, _, _, _, _, _) => if reply == Claimed(t) then ClaimedBy(w) else Untouched
    case CompleteCall(w, u, _, _) => if u == t && reply.Done? then CompletedBy(w) else Untouched
    case FailCall(w, u, _, _, _) => if u == t && reply.Done? then FailedBy(w) else Untouched
    case ReapCall(_, _) => if t in reply.requeued then Requeued else Untouched
    case CancelCall(_, u, _) =>
      if u == t && reply.Done? && db.tasks[t].status != CANCELLED then
        if db.tasks[t].status == RUNNING then CancelledRunning else CancelledIdle
      else Untouched
    case RetryCall(_, u) => if u == t && reply.Done? then Retried else Untouched
    case _ => Untouched
  }

  predicate Waiting(task: Task) {
    task.status == PENDING || task.status == QUEUED
  }

  /** The only row changes the protocol makes. */
  predicate RowChange(a: Task, b: Task, effect: Effect) {
    && (a.maxAttempts, a.taskType, a.datasetUuid, a.tenantId, a.idempotencyKey, a.params, a.priority, a.createdAt)
       == (b.maxAttempts, b.taskType, b.datasetUuid, b.tenantId, b.idempotencyKey, b.params, b.priority, b.createdAt)
    && match effect
       case Untouched => a == b
       case ClaimedBy(w) =>
         && Waiting(a) && a.attempt < a.maxAttempts && b.status == RUNNING && b.workerId == Some(w)
         && b.attempt == (if a.attempt == 0 then 1 else a.attempt)
       case CompletedBy(w) =>
         a.status == RUNNING && a.workerId == Some(w) == b.workerId && b.status == SUCCEEDED && b.attempt == a.attempt
       case FailedBy(w) =>
         a.status == RUNNING && a.workerId == Some(w) == b.workerId && b.status == FAILED && b.attempt == a.attempt
       case Requeued => a.status == RUNNING && b.status == PENDING && b.workerId == None && b.attempt == a.attempt
       case CancelledRunning => a.status == RUNNING && b.status == CANCELLED && b.attempt == a.attempt
       case CancelledIdle => Waiting(a) && b.status == CANCELLED && b.attempt == a.attempt
       case Retried =>
         a.status == FAILED && a.attempt < a.maxAttempts && b.status == PENDING && b.attempt == a.attempt + 1
  }

  lemma RowStep(db: Db, e: Event, t: string)
    requires Enabled(db, e) && t in db.tasks
    ensures t in Next(db, e).tasks
    ensures RowChange(db.tasks[t], Next(db, e).tasks[t], EffectOn(db, e, t))
  {
  }

  /** A row that a call adds is a fresh submission. */
  lemma RowBorn(db: Db, e: Event, t: string)
    requires Enabled(db, e) && t !in db.tasks && t in Next(db, e).tasks
    ensures e.SubmitCall?
    ensures Next(db, e).tasks[t] == NewTask(e.p, e.request, e.now)
  {
  }

  // ---- Ownership ----

  /** The run's i-th call is a claim by `w` that dispatched `t`. */
  ghost predicate ClaimsAt(es: seq<Event>, i: nat, w: string, t: string)
    requires Valid(es) && i < |es|
  {
    Prefix(es, i);
    es[i].ClaimCall? && es[i].w == w && Step(Exec(es[..i]), es[i]).reply == Claimed(t)
  }

  /** The row of `t` is the same in the i-th state of the run as in its last. */
  ghost predicate SameRowAt(es: seq<Event>, i: nat, t: string)
    requires Valid(es) && i <= |es| && t in Exec(es).tasks
  {
    Prefix(es, i);
    t in Exec(es[..i]).tasks && Exec(es[..i]).tasks[t] == Exec(es).tasks[t]
  }

  /** A task owned by `w` was last claimed by `w`, and its row has not changed since that claim. */
  lemma {:induction false} OwnedSinceClaim(es: seq<Event>, w: string, t: string) returns (i: nat)
    requires Valid(es) && Owns(Exec(es), w, t)
    ensures i < |es| && ClaimsAt(es, i, w, t)
    ensures forall j | i < j <= |es| :: SameRowAt(es, j, t)
  {
    var n := |es| - 1;
    var front, e := es[..n], es[n];
    if t !in Exec(front).tasks {
      RowBorn(Exec(front), e, t);
      assert false;
    }
    RowStep(Exec(front), e, t);
    if EffectOn(Exec(front), e, t) == Untouched {
      i := OwnedSinceClaim(front, w, t);
      assert front[..i] == es[..i];
      forall j | i < j <= |es| ensures SameRowAt(es, j, t) {
        if j == |es| {
          assert es[..j] == es;
        } else {
          assert SameRowAt(front, j, t);
          assert front[..j] == es[..j];
        }
      }
    } else {
      i := n;
      assert es[..|es|] == es;
    }
  }

  /** Who may finish: a call completes or fails `t` only if the caller made the task's latest claim
      and nothing touched the row in between, neither a requeue, a cancel nor another finish. */
  lemma FinishMatchesLatestClaim(es: seq<Event>, e: Event) returns (i: nat)
    requires Valid(es) && (e.CompleteCall? || e.FailCall?)
    requires Step(Exec(es), e).reply.Done?
    ensures i < |es| && ClaimsAt(es, i, e.w, e.t)
    ensures e.t in Exec(es).tasks && forall j | i < j <= |es| :: SameRowAt(es, j, e.t)
  {
    i := OwnedSinceClaim(es, e.w, e.t);
  }

  /** In the i-th state of the run `w` owned `t`. */
  ghost predicate OwnedAt(es: seq<Event>, i: nat, w: string, t: string)
    requires Valid(es) && i <= |es|
  {
    Prefix(es, i);
    Owns(Exec(es[..i]), w, t)
  }

  /** A worker that no longer owned a task after call r, because the reaper took it or for any other
      reason, finishes it later only after claiming it again. */
  lemma FinishAfterLossNeedsNewClaim(es: seq<Event>, r: nat, e: Event) returns (i: nat)
    requires Valid(es) && (e.CompleteCall? || e.FailCall?)
    requires Step(Exec(es), e).reply.Done?
    requires r < |es| && !OwnedAt(es, r + 1, e.w, e.t)
    ensures r < i < |es| && ClaimsAt(es, i, e.w, e.t)
  {
    i := FinishMatchesLatestClaim(es, e);
    assert !SameRowAt(es, r + 1, e.t);
  }

  // ---- Tallies ----

  /** How often each thing happened to one task. */
  datatype Tally = Tally(claims: nat, completes: nat, fails: nat, requeues: nat,
                         runningCancels: nat, idleCancels: nat, retries: nat)

  function Count(tally: Tally, effect: Effect): Tally {
    match effect
    case Untouched => tally
    case ClaimedBy(_) => tally.(claims := tally.claims + 1)
    case CompletedBy(_) => tally.(completes := tally.completes + 1)
    case FailedBy(_) => tally.(fails := tally.fails + 1)
    case Requeued => tally.(requeues := tally.requeues + 1)
    case CancelledRunning => tally.(runningCancels := tally.runningCancels + 1)
    case CancelledIdle => tally.(idleCancels := tally.idleCancels + 1)
    case Retried => tally.(retries := tally.retries + 1)
  }

  function TallyOf(es: seq<Event>, t: string): Tally
    requires Valid(es)
  {
    if es == [] then Tally(0, 0, 0, 0, 0, 0, 0)
    else
      var front, e := es[..|es| - 1], es[|es| - 1];
      if t in Exec(front).tasks then Count(TallyOf(front, t), EffectOn(Exec(front), e, t))
      else TallyOf(front, t)
  }

  lemma {:induction false} NothingBeforeBirth(es: seq<Event>, t: string)
    requires Valid(es) && t !in Exec(es).tasks
    ensures TallyOf(es, t) == Tally(0, 0, 0, 0, 0, 0, 0)
  {
    if es != [] {
      var front, e := es[..|es| - 1], es[|es| - 1];
      if t in Exec(front).tasks {
        RowStep(Exec(front), e, t);
      }
      NothingBeforeBirth(front, t);
    }
  }

  /** Flow conservation: every dispatch of a task ends in exactly one completion, failure, cancel or
      requeue, unless it is the dispatch running now. */
  lemma {:induction false} FlowConservation(es: seq<Event>, t: string)
    requires Valid(es) && t in Exec(es).tasks
    ensures var n := TallyOf(es, t);
            n.claims == n.completes + n.fails + n.runningCancels + n.requeues
                        + (if Exec(es).tasks[t].status == RUNNING then 1 else 0)
  {
    var front, e := es[..|es| - 1], es[|es| - 1];
    if t in Exec(front).tasks {
      FlowConservation(front, t);
      RowStep(Exec(front), e, t);
    } else {
      NothingBeforeBirth(front, t);
      RowBorn(Exec(front), e, t);
    }
  }

  /** Attempt accounting: `attempt` is the number of retries plus one once the task was dispatched,
      and every failure but the current one was retried. */
  lemma {:induction false} AttemptAccounting(es: seq<Event>, t: string)
    requires Valid(es) && t in Exec(es).tasks
    ensures var n, task := TallyOf(es, t), Exec(es).tasks[t];
            && task.attempt == n.retries + (if n.claims > 0 then 1 else 0)
            && n.fails == n.retries + (if task.status == FAILED then 1 else 0)
            && (n.claims == 0 ==> n.retries == 0 && (Waiting(task) || task.status == CANCELLED))
  {
    var front, e := es[..|es| - 1], es[|es| - 1];
    if t in Exec(front).tasks {
      AttemptAccounting(front, t);
      RowStep(Exec(front), e, t);
    } else {
      NothingBeforeBirth(front, t);
      RowBorn(Exec(front), e, t);
    }
  }

  /** The n-th failure of a task happens at attempt n, so failures happen at ever larger attempts. */
  lemma NthFailureAtAttemptN(es: seq<Event>, e: Event)
    requires Valid(es) && e.FailCall? && Step(Exec(es), e).reply.Done?
    ensures Exec(es).tasks[e.t].attempt == TallyOf(es, e.t).fails + 1
  {
    AttemptAccounting(es, e.t);
    FlowConservation(es, e.t);
  }

  function Larger(a: int, b: int): int {
    if a < b then b else a
  }

  /** A dispatched or failed task is at its first attempt or still below the limit. */
  lemma {:induction false} DispatchedBelowLimit(es: seq<Event>, t: string)
    requires Valid(es) && t in Exec(es).tasks
    ensures var task := Exec(es).tasks[t];
            task.status == RUNNING || task.status == FAILED ==> task.attempt <= Larger(1, task.maxAttempts - 1)
  {
    var front, e := es[..|es| - 1], es[|es| - 1];
    if t in Exec(front).tasks {
      DispatchedBelowLimit(front, t);
      RowStep(Exec(front), e, t);
    } else {
      RowBorn(Exec(front), e, t);
    }
  }

  lemma AttemptInBudget(es: seq<Event>, t: string)
    requires Valid(es) && t in Exec(es).tasks
    ensures 0 <= Exec(es).tasks[t].attempt <= AtLeastZero(Exec(es).tasks[t].maxAttempts)
  {
    ReachableSound(es);
    assert TaskSound(Exec(es), t);
  }

  /** Retry budget: however many reaps and retries happen, `attempt` stays within the limit and the
      task fails at most max(1, maxAttempts - 1) times. */
  lemma RetryBudget(es: seq<Event>, t: string)
    requires Valid(es) && t in Exec(es).tasks
    ensures Exec(es).tasks[t].attempt <= AtLeastZero(Exec(es).tasks[t].maxAttempts)
    ensures TallyOf(es, t).fails <= Larger(1, Exec(es).tasks[t].maxAttempts - 1)
  {
    AttemptInBudget(es, t);
    AttemptAccounting(es, t);
    DispatchedBelowLimit(es, t);
  }

  // ---- Why runs end ----

  function Rank(status: TaskStatus): nat {
    match status
    case PENDING => 3
    case QUEUED => 3
    case RUNNING => 2
    case FAILED => 1
    case SUCCEEDED => 0
    case CANCELLED => 0
  }

  /** What is left for a task to go through: three calls for each attempt left, plus its status. */
  function Remaining(task: Task): int {
    3 * (AtLeastZero(task.maxAttempts) - task.attempt) + Rank(task.status)
  }

  /** What a call adds to it at most: a requeue gives back one, every other effective call uses some up. */
  function Gain(effect: Effect): int {
    if effect == Untouched then 0 else if effect == Requeued then 1 else -1
  }

  lemma RemainingStep(db: Db, e: Event, t: string)
    requires Enabled(db, e) && t in db.tasks
    requires 0 <= db.tasks[t].attempt <= AtLeastZero(db.tasks[t].maxAttempts)
    ensures t in Next(db, e).tasks && Next(db, e).tasks[t].maxAttempts == db.tasks[t].maxAttempts
    ensures 0 <= Remaining(Next(db, e).tasks[t]) <= Remaining(db.tasks[t]) + Gain(EffectOn(db, e, t))
  {
    RowStep(db, e, t);
  }

  function Effective(n: Tally): nat {
    n.claims + n.completes + n.fails + n.runningCancels + n.idleCancels + n.retries
  }

  lemma EffectiveStep(n: Tally, effect: Effect)
    ensures Effective(Count(n, effect)) - Count(n, effect).requeues == Effective(n) - n.requeues - Gain(effect)
  {
  }

  /** Effective calls less requeues. */
  function NetCalls(es: seq<Event>, t: string): int
    requires Valid(es)
  {
    Effective(TallyOf(es, t)) - TallyOf(es, t).requeues
  }

  lemma NetCallsStep(es: seq<Event>, t: string)
    requires Valid(es) && es != [] && t in Exec(es[..|es| - 1]).tasks
    ensures NetCalls(es, t) == NetCalls(es[..|es| - 1], t) - Gain(EffectOn(Exec(es[..|es| - 1]), es[|es| - 1], t))
  {
    EffectiveStep(TallyOf(es[..|es| - 1], t), EffectOn(Exec(es[..|es| - 1]), es[|es| - 1], t));
  }

  /** A task goes through at most 3 * maxAttempts + 3 effective calls, plus one for each requeue, so a
      run over a fixed set of tasks with finitely many requeues has finitely many effective calls. */
  lemma {:induction false} EffectiveCallsBounded(es: seq<Event>, t: string)
    requires Valid(es) && t in Exec(es).tasks
    ensures var task := Exec(es).tasks[t];
            && NetCalls(es, t) + Remaining(task) <= 3 * AtLeastZero(task.maxAttempts) + 3
            && Effective(TallyOf(es, t)) <= 3 * AtLeastZero(task.maxAttempts) + 3 + TallyOf(es, t).requeues
  {
    AttemptInBudget(es, t);
    var front, e := es[..|es| - 1], es[|es| - 1];
    if t in Exec(front).tasks {
      EffectiveCallsBounded(front, t);
      AttemptInBudget(front, t);
      RemainingStep(Exec(front), e, t);
      NetCallsStep(es, t);
    } else {
      NothingBeforeBirth(front, t);
      RowBorn(Exec(front), e, t);
    }
  }

  /** `later` continues the run `es`. */
  predicate Extends(later: seq<Event>, es: seq<Event>) {
    |es| <= |later| && later[..|es|] == es
  }

  /** SUCCEEDED and CANCELLED are absorbing: no later call changes the row at all. */
  lemma {:induction false} TerminalIsAbsorbing(es: seq<Event>, later: seq<Event>, t: string)
    requires Valid(es) && t in Exec(es).tasks && Exec(es).tasks[t].status in {SUCCEEDED, CANCELLED}
    requires Valid(later) && Extends(later, es)
    ensures t in Exec(later).tasks && Exec(later).tasks[t] == Exec(es).tasks[t]
  {
    if |later| == |es| {
      assert later == es;
    } else {
      var front, e := later[..|later| - 1], later[|later| - 1];
      assert front[..|es|] == es;
      TerminalIsAbsorbing(es, front, t);
      RowStep(Exec(front), e, t);
    }
  }

  /** A retry that is accepted makes the task dispatchable again if and only if it was not the last
      attempt: the claim needs attempt below the limit and the retry has just raised it. */
  lemma RetryDispatchableIff(db: Db, p: Principal, t: string)
    requires Step(db, RetryCall(p, t)).reply.Done?
    ensures Dispatchable(Next(db, RetryCall(p, t)).tasks[t], None)
            <==> db.tasks[t].attempt + 1 < db.tasks[t].maxAttempts
  {
  }

  /** A waiting task at its limit is never dispatched: nothing but a cancel touches it any more. */
  lemma {:induction false} WaitingAtLimitStaysWaiting(es: seq<Event>, later: seq<Event>, t: string)
    requires Valid(es) && t in Exec(es).tasks
    requires Waiting(Exec(es).tasks[t]) && Exec(es).tasks[t].attempt >= Exec(es).tasks[t].maxAttempts
    requires Valid(later) && Extends(later, es)
    ensures t in Exec(later).tasks
    ensures Exec(later).tasks[t] == Exec(es).tasks[t] || Exec(later).tasks[t].status == CANCELLED
  {
    if |later| == |es| {
      assert later == es;
    } else {
      var front, e := later[..|later| - 1], later[|later| - 1];
      assert front[..|es|] == es;
      WaitingAtLimitStaysWaiting(es, front, t);
      RowStep(Exec(front), e, t);
    }
  }
}
