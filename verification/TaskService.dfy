/** lcp.services.task_service: submit, cancel and retry, as calls on a session.  The row-level
    filter of the caller's tenant is part of every lookup. */
module TaskService {
  import opened Database
  import opened Dispatch
  import SchedulerService

  method SubmitTask(session: Session, p: Principal, r: Request, newUuid: string, now: int)
    returns (reply: Reply, ghost holder: Option<string>)
    modifies session`tasks
    ensures IsVisibleHolder(old(session.Rows()), p, ScopedKey(p, r.idempotencyKey), holder)
    ensures Outcome(session.Rows(), reply) == Submit(old(session.Rows()), p, r, holder, newUuid, now)
  {
    holder := None;
    var key := ScopedKey(p, r.idempotencyKey);
    var visible := set t | t in Holders(session.tasks, key) && p.Sees(session.tasks[t].tenantId);
    if visible != {} {
      var existing :| existing in visible;
      holder := Some(existing);
      return Submitted(existing, false), holder;
    }
    assert forall t | t in Holders(session.tasks, key) :: p.Sees(session.tasks[t].tenantId) ==> t in visible;
    if Holders(session.tasks, key) != {} {
      // The UNIQUE constraint fires and the re-read under the filter finds nothing.
      return Refused(IntegrityFailure), holder;
    }
    session.tasks := session.tasks[newUuid := NewTask(p, r, now)];
    reply := Submitted(newUuid, true);
  }

  method CancelTask(session: Session, p: Principal, t: string, now: int) returns (reply: Reply)
    modifies session`workers, session`tasks
    ensures Outcome(session.Rows(), reply) == Cancel(old(session.Rows()), p, t, now)
  {
    if t !in session.tasks || !p.Sees(session.tasks[t].tenantId) {
      return Refused(TaskNotFound);
    }
    var task := session.tasks[t];
    if task.status == CANCELLED {
      return Done;
    }
    if task.status !in {PENDING, QUEUED, RUNNING} {
      return Refused(TransitionError);
    }
    if task.status == RUNNING && task.workerId.Some? && task.workerId.value != "" {
      SchedulerService.DecrementInFlight(session, task.workerId.value);
    }
    session.tasks := session.tasks[t := task.(status := CANCELLED, finishedAt := Some(now))];
    reply := Done;
  }

  method RetryTask(session: Session, p: Principal, t: string) returns (reply: Reply)
    modifies session`tasks
    ensures Outcome(session.Rows(), reply) == Retry(old(session.Rows()), p, t)
  {
    if t !in session.tasks || !p.Sees(session.tasks[t].tenantId) {
      return Refused(TaskNotFound);
    }
    var task := session.tasks[t];
    if task.status != FAILED {
      return Refused(TransitionError);
    }
    if task.attempt >= task.maxAttempts {
      return Refused(TransitionError);
    }
    task := task.(status := PENDING, attempt := task.attempt + 1);
    task := task.(errorCode := None, errorMessage := None);
    task := task.(startedAt := None, finishedAt := None);
    session.tasks := session.tasks[t := task];
    reply := Done;
  }
}
