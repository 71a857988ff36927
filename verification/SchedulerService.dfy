/** lcp.services.scheduler_service: the worker registry, the claim, the worker-side finishes and
    the reaper, as calls on a session.  Each is proved against its function in Dispatch. */
module SchedulerService {
  import opened Database
  import opened Dispatch

  method RegisterWorker(session: Session, w: string, workerType: string, capacity: int, newLease: string, now: int)
    modifies session`workers
    ensures session.Rows() == Register(old(session.Rows()), w, workerType, capacity, newLease, now).db
  {
    if w in session.workers {
      var existing := session.workers[w];
      existing := existing.(workerType := workerType, leaseId := newLease, capacity := capacity);
      existing := existing.(inFlight := 0, status := ALIVE, lastHeartbeatAt := now);
      session.workers := session.workers[w := existing];
    } else {
      session.workers := session.workers[w := Worker(workerType, newLease, capacity, 0, ALIVE, now)];
    }
  }

  method Heartbeat(session: Session, w: string, lease: string, now: int) returns (reply: Reply)
    modifies session`workers
    ensures Outcome(session.Rows(), reply) == Dispatch.Heartbeat(old(session.Rows()), w, lease, now)
  {
    if w !in session.workers {
      return Refused(WorkerNotFound);
    }
    var row := session.workers[w];
    if row.leaseId != lease {
      return Refused(LeaseMismatch);
    }
    row := row.(lastHeartbeatAt := now);
    if row.status == DEAD {
      row := row.(status := ALIVE);
    }
    session.workers := session.workers[w := row];
    reply := Done;
  }

  method DrainWorker(session: Session, w: string) returns (reply: Reply)
    modifies session`workers
    ensures Outcome(session.Rows(), reply) == Drain(old(session.Rows()), w)
  {
    if w !in session.workers {
      return Refused(WorkerNotFound);
    }
    if session.workers[w].status != DEAD {
      session.workers := session.workers[w := session.workers[w].(status := DRAINING)];
    }
    reply := Done;
  }

  /** A nonempty set of tasks has one that none of the others goes before. */
  lemma {:induction false} FirstExists(tasks: map<string, Task>, candidates: set<string>) returns (first: string)
    requires candidates != {} && candidates <= tasks.Keys
    ensures first in candidates
    ensures forall u | u in candidates :: NotAfter(tasks[first], tasks[u])
    decreases candidates
  {
    var t :| t in candidates;
    var rest := candidates - {t};
    if rest == {} {
      assert candidates == {t};
      first := t;
    } else {
      first := FirstExists(tasks, rest);
      if !NotAfter(tasks[first], tasks[t]) {
        first := t;
      }
      assert candidates == rest + {t};
    }
  }

  /** claim_next_task; `locked` are the task rows other transactions hold. */
  method ClaimNextTask(session: Session, w: string, lease: string, taskType: Option<string>, locked: set<string>,
                       now: int)
    returns (reply: Reply, ghost pick: Option<string>)
    modifies session`workers, session`tasks
    ensures IsNext(old(session.tasks), taskType, locked, pick)
    ensures Outcome(session.Rows(), reply) == Claim(old(session.Rows()), w, lease, pick, now)
  {
    var candidates := set t | t in session.tasks && t !in locked && Dispatchable(session.tasks[t], taskType);
    pick := None;
    ghost var first;
    if candidates != {} {
      first := FirstExists(session.tasks, candidates);
      pick := Some(first);
    }
    assert IsNext(session.tasks, taskType, locked, pick) by {
      assert forall u | u in session.tasks && u !in locked && Dispatchable(session.tasks[u], taskType) ::
               u in candidates;
    }

    if w !in session.workers {
      return Refused(WorkerNotFound), pick;
    }
    var worker := session.workers[w];
    if worker.leaseId != lease {
      return Refused(LeaseMismatch), pick;
    }
    if worker.status != ALIVE {
      return NoWork, pick;
    }
    if worker.inFlight >= worker.capacity {
      return NoWork, pick;
    }
    if candidates == {} {
      return NoWork, pick;
    }
    assert first in candidates;
    var t :| t in candidates && forall u | u in candidates :: NotAfter(session.tasks[t], session.tasks[u]);
    pick := Some(t);
    var task := session.tasks[t];
    task := task.(status := RUNNING, workerId := Some(w), startedAt := Some(now));
    if task.attempt == 0 {
      task := task.(attempt := 1);
    }
    session.tasks := session.tasks[t := task];
    session.workers := session.workers[w := worker.(inFlight := worker.inFlight + 1)];
    reply := Claimed(t);
  }

  method DecrementInFlight(session: Session, w: string)
    modifies session`workers
    ensures session.workers == Released(old(session.workers), w)
  {
    if w in session.workers {
      var row := session.workers[w];
      row := row.(inFlight := if row.inFlight > 0 then row.inFlight - 1 else 0);
      session.workers := session.workers[w := row];
    }
  }

  method CompleteTask(session: Session, w: string, t: string, result: Option<string>, now: int) returns (reply: Reply)
    modifies session`workers, session`tasks
    ensures Outcome(session.Rows(), reply) == Complete(old(session.Rows()), w, t, result, now)
  {
    if t !in session.tasks {
      return Refused(TransitionError);
    }
    var task := session.tasks[t];
    if task.workerId != Some(w) {
      return Refused(TransitionError);
    }
    if task.status != RUNNING {
      return Refused(TransitionError);
    }
    task := task.(status := SUCCEEDED, finishedAt := Some(now), result := result);
    task := task.(errorCode := None, errorMessage := None);
    session.tasks := session.tasks[t := task];
    DecrementInFlight(session, w);
    reply := Done;
  }

  method FailTask(session: Session, w: string, t: string, code: string, message: string, now: int)
    returns (reply: Reply)
    modifies session`workers, session`tasks
    ensures Outcome(session.Rows(), reply) == Fail(old(session.Rows()), w, t, code, message, now)
  {
    if t !in session.tasks {
      return Refused(TransitionError);
    }
    var task := session.tasks[t];
    if task.workerId != Some(w) {
      return Refused(TransitionError);
    }
    if task.status != RUNNING {
      return Refused(TransitionError);
    }
    task := task.(status := FAILED, finishedAt := Some(now));
    task := task.(errorCode := Some(code), errorMessage := Some(message));
    session.tasks := session.tasks[t := task];
    DecrementInFlight(session, w);
    reply := Done;
  }

  /** `listed` names every element of `s` once. */
  ghost predicate Enumerates(listed: seq<string>, s: set<string>) {
    && (forall i, j | 0 <= i < j < |listed| :: listed[i] != listed[j])
    && (forall x :: x in listed <==> x in s)
  }

  /** Tasks once the workers in `dead` are reaped and, of the worker being reaped, those in `handled`. */
  ghost function PartlyRequeued(tasks: map<string, Task>, dead: set<string>, handled: set<string>): map<string, Task> {
    map t | t in tasks :: if RunningUnder(tasks[t], dead) || t in handled then Requeued(tasks[t]) else tasks[t]
  }

  /** Moves one reaped worker's RUNNING tasks back to PENDING, appending their ids to `listed`. */
  method RequeueTasksOf(session: Session, w: string, ghost before: map<string, Task>, ghost dead: set<string>,
                        listed: seq<string>)
    returns (requeued: seq<string>)
    requires w !in dead
    requires session.tasks == PartlyRequeued(before, dead, {})
    requires Enumerates(listed, set t | t in before && RunningUnder(before[t], dead))
    modifies session`tasks
    ensures session.tasks == PartlyRequeued(before, dead + {w}, {})
    ensures Enumerates(requeued, set t | t in before && RunningUnder(before[t], dead + {w}))
  {
    requeued := listed;
    var running := set t | t in session.tasks && RunningUnder(session.tasks[t], {w});
    var todo := running;
    assert running == set t | t in before && RunningUnder(before[t], {w});
    while todo != {}
      invariant todo <= running
      invariant session.tasks == PartlyRequeued(before, dead, running - todo)
      invariant Enumerates(requeued, (set t | t in before && RunningUnder(before[t], dead)) + (running - todo))
    {
      var t :| t in todo;
      session.tasks := session.tasks[t := Requeued(session.tasks[t])];
      requeued := requeued + [t];
      todo := todo - {t};
    }
  }

  /** `reap_dead_workers`; `locked` are the worker rows another reaper holds. */
  method ReapDeadWorkers(session: Session, now: int, timeout: int, locked: set<string>)
    returns (reaped: seq<string>, requeued: seq<string>)
    modifies session`workers, session`tasks
    ensures var o := Reap(old(session.Rows()), now - timeout, locked);
            && session.Rows() == o.db
            && Enumerates(reaped, o.reply.workers)
            && Enumerates(requeued, o.reply.requeued)
  {
    var cutoff := now - timeout;
    ghost var before := session.Rows();
    var stale := Stale(session.workers, cutoff, locked);
    var todo := stale;
    reaped, requeued := [], [];
    assert session.tasks == PartlyRequeued(before.tasks, {}, {});
    while todo != {}
      invariant todo <= stale
      invariant session.workers == map w | w in before.workers ::
                                     if w in stale - todo then Buried(before.workers[w]) else before.workers[w]
      invariant session.tasks == PartlyRequeued(before.tasks, stale - todo, {})
      invariant Enumerates(reaped, stale - todo)
      invariant Enumerates(requeued, set t | t in before.tasks && RunningUnder(before.tasks[t], stale - todo))
    {
      var w :| w in todo;
      requeued := RequeueTasksOf(session, w, before.tasks, stale - todo, requeued);
      session.workers := session.workers[w := Buried(session.workers[w])];
      reaped := reaped + [w];
      assert stale - todo + {w} == stale - (todo - {w});
      todo := todo - {w};
    }
    assert stale - todo == stale;
  }
}
