/** What the columns of a task row say: where each value came from in the run, and which values go together. */
module TaskColumns {
  import opened Database
  import opened Dispatch
  import opened DispatchHistory
  import opened TaskHistory

  // ---- The columns a submission fills ----

  /** The row carries what was asked for, by whom and when. */
  predicate FilledBy(row: Task, e: Event)
    requires e.SubmitCall?
  {
    && (row.taskType, row.datasetUuid, row.priority, row.maxAttempts, row.params)
       == (e.request.taskType, e.request.datasetUuid, e.request.priority, e.request.maxAttempts, e.request.params)
    && row.tenantId == e.p.tenantId && row.createdAt == e.now
    && row.idempotencyKey == (if e.request.idempotencyKey.None? then None
                              else Some(e.p.tenantId + ":" + e.request.idempotencyKey.value))
  }

  /** Every row of the queue was inserted by one submission of the run, and still carries what that asked for. */
  lemma {:induction false} RowIsItsSubmission(es: seq<Event>, t: string) returns (i: nat)
    requires Valid(es) && t in Exec(es).tasks
    ensures i < |es| && es[i].SubmitCall? && es[i].uuid == t && FilledBy(Exec(es).tasks[t], es[i])
  {
    var front, e := es[..|es| - 1], es[|es| - 1];
    if t in Exec(front).tasks {
      i := RowIsItsSubmission(front, t);
      RowStep(Exec(front), e, t);
    } else {
      RowBorn(Exec(front), e, t);
      i := |es| - 1;
    }
  }

  // ---- Which values go together ----

  /** Nothing is left over from an earlier state of the row. */
  predicate ColumnsAgree(row: Task) {
    && row.status != QUEUED
    && (row.status == PENDING ==> row.startedAt.None?)
    && (row.status == RUNNING ==> row.startedAt.Some? && row.workerId.Some?)
    && (row.finishedAt.Some? <==> row.status in {SUCCEEDED, FAILED, CANCELLED})
    && (row.errorCode.Some? <==> row.status == FAILED) && (row.errorMessage.Some? <==> row.status == FAILED)
    && (row.result.Some? ==> row.status == SUCCEEDED)
  }

  lemma ColumnsStep(db: Db, e: Event, t: string)
    requires Enabled(db, e) && t in Next(db, e).tasks && (t in db.tasks ==> ColumnsAgree(db.tasks[t]))
    ensures ColumnsAgree(Next(db, e).tasks[t])
  {
  }

  /** In every reachable state the columns of every row agree with its status; in particular no retry or reap
      leaves an old error, start or finish behind. */
  lemma {:induction false} ColumnsAlwaysAgree(es: seq<Event>, t: string)
    requires Valid(es) && t in Exec(es).tasks
    ensures ColumnsAgree(Exec(es).tasks[t])
  {
    var front := es[..|es| - 1];
    if t in Exec(front).tasks {
      ColumnsAlwaysAgree(front, t);
    }
    ColumnsStep(Exec(front), es[|es| - 1], t);
  }

  // ---- The columns the last call fills ----

  /** The call is one that brings `t` into the state its row is in, and the row carries what the call brought. */
  predicate BroughtAbout(e: Event, t: string, row: Task) {
    match row.status
    case RUNNING => e.ClaimCall? && e.pick == Some(t) && row.workerId == Some(e.w) && row.startedAt == Some(e.now)
    case SUCCEEDED =>
      && e.CompleteCall? && e.t == t && row.workerId == Some(e.w)
      && row.finishedAt == Some(e.now) && row.result == e.result
    case FAILED =>
      && e.FailCall? && e.t == t && row.workerId == Some(e.w)
      && row.finishedAt == Some(e.now) && row.errorCode == Some(e.code) && row.errorMessage == Some(e.message)
    case CANCELLED => e.CancelCall? && e.t == t && row.finishedAt == Some(e.now)
    case PENDING =>
      (e.SubmitCall? && e.uuid == t) || e.ReapCall? || (e.RetryCall? && e.t == t)
    case QUEUED => false
  }

  /** A row is what one call of the run made of it, unchanged since, and that call's worker, time, result or error
      are the ones it shows. */
  lemma {:induction false} RowIsItsLastCall(es: seq<Event>, t: string) returns (i: nat)
    requires Valid(es) && t in Exec(es).tasks
    ensures i < |es| && BroughtAbout(es[i], t, Exec(es).tasks[t])
    ensures forall j | i < j <= |es| :: SameRowAt(es, j, t)
  {
    var front, e := es[..|es| - 1], es[|es| - 1];
    assert es[..|es|] == es;
    if t in Exec(front).tasks && Exec(front).tasks[t] == Exec(es).tasks[t] {
      i := RowIsItsLastCall(front, t);
      forall j | i < j < |es| ensures SameRowAt(es, j, t) {
        assert SameRowAt(front, j, t);
        assert front[..j] == es[..j];
      }
    } else {
      i := |es| - 1;
      LastCallChanges(Exec(front), e, t);
    }
  }

  lemma LastCallChanges(db: Db, e: Event, t: string)
    requires Enabled(db, e) && t in Next(db, e).tasks && !(t in db.tasks && db.tasks[t] == Next(db, e).tasks[t])
    ensures BroughtAbout(e, t, Next(db, e).tasks[t])
  {
  }

  // ---- Whose rows a call reaches ----

  /** The tenant's own calls. */
  predicate TenantCall(e: Event) {
    e.SubmitCall? || e.CancelCall? || e.RetryCall?
  }

  /** A caller that is neither the system nor of the row's tenant changes nothing about it, and what it inserts is
      its own. */
  lemma TenantCallsStayHome(es: seq<Event>, e: Event, t: string)
    requires Valid(es) && Enabled(Exec(es), e) && TenantCall(e) && !e.p.isSystem
    ensures t in Exec(es).tasks && Exec(es).tasks[t].tenantId != e.p.tenantId ==>
              t in Next(Exec(es), e).tasks && Next(Exec(es), e).tasks[t] == Exec(es).tasks[t]
    ensures t !in Exec(es).tasks && t in Next(Exec(es), e).tasks ==> Next(Exec(es), e).tasks[t].tenantId == e.p.tenantId
  {
    if t in Exec(es).tasks {
      RowStep(Exec(es), e, t);
    }
  }

  /** The task is there for the caller: every task for the system, its tenant's for anyone else. */
  predicate Reachable(db: Db, p: Principal, t: string) {
    t in db.tasks && (p.isSystem || db.tasks[t].tenantId == p.tenantId)
  }

  /** A retry is told apart by the row it finds: none the caller can see, one that has not failed or is used up,
      or one that waits again afterwards. */
  lemma RetryAnswers(es: seq<Event>, p: Principal, t: string)
    requires Valid(es)
    ensures var db, o := Exec(es), Step(Exec(es), RetryCall(p, t));
            && (o.reply == Refused(TaskNotFound) <==> !Reachable(db, p, t))
            && (o.reply == Done <==> Reachable(db, p, t) && db.tasks[t].status == FAILED
                                     && db.tasks[t].attempt < db.tasks[t].maxAttempts)
            && (o.reply == Done || o.reply == Refused(TransitionError) || o.reply == Refused(TaskNotFound))
            && (o.reply != Done ==> o.db == db)
            && (o.reply == Done ==> o.db.tasks[t].status == PENDING && o.db.tasks[t].errorCode.None?)
  {
    if Reachable(Exec(es), p, t) {
      ColumnsAlwaysAgree(es, t);
    }
  }

  /** A cancel as well: an unfinished row ends CANCELLED, a cancelled one is left alone, and a row that has
      SUCCEEDED or FAILED is refused. */
  lemma CancelAnswers(es: seq<Event>, p: Principal, t: string, now: int)
    requires Valid(es)
    ensures var db, o := Exec(es), Step(Exec(es), CancelCall(p, t, now));
            && (o.reply == Refused(TaskNotFound) <==> !Reachable(db, p, t))
            && (o.reply == Done
                <==> Reachable(db, p, t) && (db.tasks[t].finishedAt.None? || db.tasks[t].status == CANCELLED))
            && (o.reply == Done || o.reply == Refused(TransitionError) || o.reply == Refused(TaskNotFound))
            && (o.reply != Done ==> o.db == db)
            && (o.reply == Done ==> o.db.tasks[t].status == CANCELLED)
            && (o.reply == Done && db.tasks[t].status == CANCELLED ==> o.db == db)
  {
    if Reachable(Exec(es), p, t) {
      ColumnsAlwaysAgree(es, t);
    }
  }
}
