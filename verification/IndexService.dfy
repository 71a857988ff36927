/** lcp.services.index_service: the calls that insert index rows and move them between states, each
    paired with the submission of the task that will move them on. */
module IndexService {
  import opened Database
  import opened Dispatch
  import IndexLifecycle
  import TaskService

  type IndexReply = IndexLifecycle.IndexReply
  type Submission = IndexLifecycle.Submission

  predicate Takes(db: Db, p: Principal, r: Request, s: Submission) {
    IsVisibleHolder(db, p, ScopedKey(p, r.idempotencyKey), s.holder)
  }

  /** What a submission would find by key, for calls that end before they submit. */
  ghost method AnyHolder(db: Db, p: Principal, r: Request, uuid: string, failing: bool) returns (s: Submission)
    ensures s.uuid == uuid && s.failing == failing && Takes(db, p, r, s)
  {
    var visible := set t | t in Holders(db.tasks, ScopedKey(p, r.idempotencyKey)) && p.Sees(db.tasks[t].tenantId);
    if visible == {} {
      assert forall t | t in Holders(db.tasks, ScopedKey(p, r.idempotencyKey)) :: t !in visible;
      s := IndexLifecycle.Submission(None, uuid, failing);
    } else {
      var t :| t in visible;
      s := IndexLifecycle.Submission(Some(t), uuid, failing);
    }
  }

  /** The nested call of submit_task; `failing` is a database failure in it. */
  method TrySubmit(session: Session, p: Principal, r: Request, uuid: string, failing: bool, now: int)
    returns (reply: Reply, ghost s: Submission)
    modifies session`tasks
    ensures s.uuid == uuid && s.failing == failing && Takes(old(session.Rows()), p, r, s)
    ensures Outcome(session.Rows(), reply) == IndexLifecycle.TrySubmit(old(session.Rows()), p, r, s, now)
  {
    if failing {
      s := AnyHolder(session.Rows(), p, r, uuid, failing);
      reply := Refused(IntegrityFailure);
    } else {
      ghost var holder;
      reply, holder := TaskService.SubmitTask(session, p, r, uuid, now);
      s := IndexLifecycle.Submission(holder, uuid, failing);
    }
  }

  method CreateIndex(session: Session, p: Principal, dataset: string, name: string, column: string, indexType: string,
                     replaceIfExists: bool, id: nat, uuid: string, failing: bool, now: int)
    returns (reply: IndexReply, ghost s: Submission)
    requires IndexLifecycle.NamesUnique(session.indexes)
    modifies session`indexes, session`tasks
    ensures s.uuid == uuid && s.failing == failing
    ensures reply == IndexLifecycle.Accepted(id)
            || reply == IndexLifecycle.Rejected(IndexLifecycle.SubmissionFailed) ==>
              Takes(old(session.Rows()), p, IndexLifecycle.BuildRequest(dataset, name, column, indexType, id), s)
    ensures IndexLifecycle.Change(session.Committed(), reply)
            == IndexLifecycle.CreateIndex(old(session.Committed()), p, dataset, name, column, indexType,
                                          replaceIfExists, id, s, now)
  {
    s := IndexLifecycle.Submission(None, uuid, failing);
    if !IndexLifecycle.Guard(session.Committed(), p, dataset) {
      return IndexLifecycle.Rejected(IndexLifecycle.DatasetNotFound), s;
    }
    var existing := IndexLifecycle.Lookup(session.indexes, dataset, name);
    if existing.Some? {
      if !replaceIfExists {
        return IndexLifecycle.Rejected(IndexLifecycle.AlreadyExists), s;
      }
      session.indexes := session.indexes - {existing.value};
    }
    session.indexes := session.indexes[id := Index(dataset, name, column, indexType, BUILDING, 0, None, None, None)];
    reply, s := SubmitBuild(session, p, id, uuid, failing, now);
  }

  /** The second half of create_index: the committed row gets its task, or is marked FAILED. */
  method SubmitBuild(session: Session, p: Principal, id: nat, uuid: string, failing: bool, now: int)
    returns (reply: IndexReply, ghost s: Submission)
    requires id in session.indexes
    modifies session`indexes, session`tasks
    ensures s.uuid == uuid && s.failing == failing
    ensures var row := old(session.indexes[id]);
            var r := IndexLifecycle.BuildRequest(row.datasetUuid, row.indexName, row.columnName, row.indexType, id);
            var o := IndexLifecycle.TrySubmit(old(session.Rows()), p, r, s, now);
            && Takes(old(session.Rows()), p, r, s) && session.Rows() == o.db
            && if o.reply.Refused? then
                 && reply == IndexLifecycle.Rejected(IndexLifecycle.SubmissionFailed)
                 && session.indexes == old(session.indexes)
                      [id := row.(status := INDEX_FAILED, errorMessage := Some("task submission failed"))]
               else reply == IndexLifecycle.Accepted(id) && session.indexes == old(session.indexes)
  {
    var row := session.indexes[id];
    var request := IndexLifecycle.BuildRequest(row.datasetUuid, row.indexName, row.columnName, row.indexType, id);
    var submitted;
    submitted, s := TrySubmit(session, p, request, uuid, failing, now);
    if submitted.Refused? {
      row := row.(status := INDEX_FAILED, errorMessage := Some("task submission failed"));
      session.indexes := session.indexes[id := row];
      return IndexLifecycle.Rejected(IndexLifecycle.SubmissionFailed), s;
    }
    reply := IndexLifecycle.Accepted(id);
  }

  method OptimizeIndex(session: Session, p: Principal, dataset: string, name: string, uuid: string, failing: bool,
                       now: nat)
    returns (reply: IndexReply, ghost s: Submission)
    requires IndexLifecycle.NamesUnique(session.indexes)
    modifies session`indexes, session`tasks
    ensures s.uuid == uuid && s.failing == failing
    ensures reply.Accepted? ==>
              Takes(old(session.Rows()), p, IndexLifecycle.OptimizeRequest(dataset, name, reply.id, now), s)
    ensures IndexLifecycle.Change(session.Committed(), reply)
            == IndexLifecycle.OptimizeIndex(old(session.Committed()), p, dataset, name, s, now)
  {
    s := IndexLifecycle.Submission(None, uuid, failing);
    if !IndexLifecycle.Guard(session.Committed(), p, dataset) {
      return IndexLifecycle.Rejected(IndexLifecycle.DatasetNotFound), s;
    }
    var found := IndexLifecycle.Lookup(session.indexes, dataset, name);
    if found.None? {
      return IndexLifecycle.Rejected(IndexLifecycle.IndexNotFound), s;
    }
    var id := found.value;
    var row := session.indexes[id];
    if row.status !in {READY} {
      return IndexLifecycle.Rejected(IndexLifecycle.WrongState), s;
    }
    row := row.(status := OPTIMIZING, lastOptimizedAt := Some(now));
    session.indexes := session.indexes[id := row];
    var submitted;
    submitted, s := TrySubmit(session, p, IndexLifecycle.OptimizeRequest(dataset, name, id, now), uuid, failing, now);
    if submitted.Refused? {
      row := row.(status := READY, errorMessage := Some("task submission failed"));
      session.indexes := session.indexes[id := row];
      return IndexLifecycle.Rejected(IndexLifecycle.SubmissionFailed), s;
    }
    reply := IndexLifecycle.Accepted(id);
  }

  method DropIndex(session: Session, p: Principal, dataset: string, name: string) returns (reply: IndexReply)
    requires IndexLifecycle.NamesUnique(session.indexes)
    modifies session`indexes
    ensures IndexLifecycle.Change(session.Committed(), reply)
            == IndexLifecycle.SetStatus(old(session.Committed()), p, dataset, name, DROPPED)
  {
    if !IndexLifecycle.Guard(session.Committed(), p, dataset) {
      return IndexLifecycle.Rejected(IndexLifecycle.DatasetNotFound);
    }
    var found := IndexLifecycle.Lookup(session.indexes, dataset, name);
    if found.None? {
      return IndexLifecycle.Rejected(IndexLifecycle.IndexNotFound);
    }
    var row := session.indexes[found.value];
    if row.status != DROPPED {
      session.indexes := session.indexes[found.value := row.(status := DROPPED)];
    }
    reply := IndexLifecycle.Accepted(found.value);
  }

  method MergeIndex(session: Session, p: Principal, dataset: string, name: string) returns (reply: IndexReply)
    requires IndexLifecycle.NamesUnique(session.indexes)
    modifies session`indexes
    ensures IndexLifecycle.Change(session.Committed(), reply)
            == IndexLifecycle.SetStatus(old(session.Committed()), p, dataset, name, MERGING)
  {
    if !IndexLifecycle.Guard(session.Committed(), p, dataset) {
      return IndexLifecycle.Rejected(IndexLifecycle.DatasetNotFound);
    }
    var found := IndexLifecycle.Lookup(session.indexes, dataset, name);
    if found.None? {
      return IndexLifecycle.Rejected(IndexLifecycle.IndexNotFound);
    }
    var row := session.indexes[found.value];
    if row.status !in {READY} {
      return IndexLifecycle.Rejected(IndexLifecycle.WrongState);
    }
    session.indexes := session.indexes[found.value := row.(status := MERGING)];
    reply := IndexLifecycle.Accepted(found.value);
  }
}
