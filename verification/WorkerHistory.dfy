/** The worker registry as the record of a run: what a worker's row holds is told by the calls that were made,
    without looking at the tables. */
module WorkerHistory {
  import opened Database
  import opened Dispatch
  import opened DispatchHistory
  import opened DispatchLimits

  // ---- What the run has to say about a worker ----

  /** The latest registration of `w`. */
  function LatestRegistration(es: seq<Event>, w: string): Option<Event> {
    if es == [] then None
    else
      var e := es[|es| - 1];
      if e.RegisterCall? && e.w == w then Some(e) else LatestRegistration(es[..|es| - 1], w)
  }

  /** When the worker was last heard of: at its latest registration, or at a later heartbeat under the lease
      that was then current. */
  function LastHeard(es: seq<Event>, w: string): Option<int> {
    if es == [] then None
    else
      var front, e := es[..|es| - 1], es[|es| - 1];
      if e.RegisterCall? && e.w == w then Some(e.now)
      else if e.HeartbeatCall? && e.w == w && LatestLease(front, w) == Some(e.lease) then Some(e.now)
      else LastHeard(front, w)
  }

  /** A reap finds the worker silent since the cutoff, and its row unlocked. */
  predicate Silent(es: seq<Event>, w: string, cutoff: int, locked: set<string>) {
    LastHeard(es, w).Some? && LastHeard(es, w).value < cutoff && w !in locked
  }

  /** The worker's state by the calls alone: a registration makes it ALIVE, a drain DRAINING unless it is DEAD,
      a reap DEAD when it has been silent, and a heartbeat under its lease brings it back from DEAD only. */
  function Standing(es: seq<Event>, w: string): Option<WorkerStatus> {
    if es == [] then None
    else
      var front, e := es[..|es| - 1], es[|es| - 1];
      var was := Standing(front, w);
      match e
      case RegisterCall(v, _, _, _, _) => if v == w then Some(ALIVE) else was
      case HeartbeatCall(v, lease, _) =>
        if v == w && LatestLease(front, w) == Some(lease) && was == Some(DEAD) then Some(ALIVE) else was
      case DrainCall(v) => if v == w && was == Some(ALIVE) then Some(DRAINING) else was
      case ReapCall(cutoff, locked) => if was.Some? && Silent(front, w, cutoff, locked) then Some(DEAD) else was
      case _ => was
  }

  // ---- The rows agree ----

  lemma RegistrationStep(db: Db, e: Event, w: string)
    requires Enabled(db, e) && !(e.RegisterCall? && e.w == w)
    ensures w in Next(db, e).workers <==> w in db.workers
    ensures w in db.workers ==>
              var was, row := db.workers[w], Next(db, e).workers[w];
              (row.workerType, row.leaseId, row.capacity) == (was.workerType, was.leaseId, was.capacity)
  {
  }

  /** The registration columns are those of the latest registration. */
  lemma {:induction false} RegistrationIsLatest(es: seq<Event>, w: string)
    requires Valid(es)
    ensures w in Exec(es).workers <==> LatestRegistration(es, w).Some?
    ensures w in Exec(es).workers ==>
              var row, r := Exec(es).workers[w], LatestRegistration(es, w).value;
              r.RegisterCall? && (row.workerType, row.leaseId, row.capacity) == (r.workerType, r.lease, r.capacity)
  {
    if es != [] {
      var front, e := es[..|es| - 1], es[|es| - 1];
      RegistrationIsLatest(front, w);
      if !(e.RegisterCall? && e.w == w) {
        RegistrationStep(Exec(front), e, w);
      }
    }
  }

  /** What one call other than its registration does to the two columns of a worker. */
  lemma StandingStep(db: Db, e: Event, w: string)
    requires Enabled(db, e) && w in db.workers && !(e.RegisterCall? && e.w == w)
    ensures w in Next(db, e).workers
    ensures var was, row := db.workers[w], Next(db, e).workers[w];
            var heard := e.HeartbeatCall? && e.w == w && was.leaseId == e.lease;
            && row.lastHeartbeatAt == (if heard then e.now else was.lastHeartbeatAt)
            && row.status == (if heard && was.status == DEAD then ALIVE
                              else if e.DrainCall? && e.w == w && was.status == ALIVE then DRAINING
                              else if e.ReapCall? && was.lastHeartbeatAt < e.cutoff && w !in e.locked then DEAD
                              else was.status)
  {
  }

  /** The heartbeat column is the time the worker was last heard of, and the status its standing. */
  lemma {:induction false} HeartbeatIsLastHeard(es: seq<Event>, w: string)
    requires Valid(es)
    ensures w in Exec(es).workers <==> LastHeard(es, w).Some? && Standing(es, w).Some?
    ensures w !in Exec(es).workers <==> LastHeard(es, w).None? && Standing(es, w).None?
    ensures w in Exec(es).workers ==>
              && LastHeard(es, w) == Some(Exec(es).workers[w].lastHeartbeatAt)
              && Standing(es, w) == Some(Exec(es).workers[w].status)
  {
    if es != [] {
      var front, e := es[..|es| - 1], es[|es| - 1];
      HeartbeatIsLastHeard(front, w);
      LeaseIsLatest(front, w);
      if e.RegisterCall? && e.w == w {
        assert Exec(es).workers[w].status == ALIVE;
      } else if w in Exec(front).workers {
        StandingStep(Exec(front), e, w);
      } else {
        RegistrationStep(Exec(front), e, w);
      }
    }
  }

  // ---- Who is reaped ----

  /** A reap buries a registered worker exactly when it was last heard of before the cutoff, nobody else holds
      its row, and it is not DEAD already; whoever was heard of at or after the cutoff keeps its row as it is. */
  lemma ReapedIff(es: seq<Event>, cutoff: int, locked: set<string>, w: string)
    requires Valid(es) && LastHeard(es, w).Some?
    ensures var db, e := Exec(es), ReapCall(cutoff, locked);
            && w in db.workers && w in Next(db, e).workers
            && (w in Step(db, e).reply.workers
                <==> LastHeard(es, w).value < cutoff && w !in locked && Standing(es, w) != Some(DEAD))
            && Next(db, e).workers[w]
               == (if w in Step(db, e).reply.workers then db.workers[w].(status := DEAD, inFlight := 0)
                   else db.workers[w])
  {
    HeartbeatIsLastHeard(es, w);
  }

  /** And its RUNNING tasks go back to the queue exactly then. */
  lemma ReapRequeuesIff(es: seq<Event>, cutoff: int, locked: set<string>, w: string, t: string)
    requires Valid(es) && t in Exec(es).tasks
    requires Exec(es).tasks[t].status == RUNNING && Exec(es).tasks[t].workerId == Some(w)
    ensures LastHeard(es, w).Some?
    ensures var after := Next(Exec(es), ReapCall(cutoff, locked)).tasks;
            && t in after
            && after[t] == if LastHeard(es, w).value < cutoff && w !in locked
                           then Exec(es).tasks[t].(status := PENDING, workerId := None, startedAt := None)
                           else Exec(es).tasks[t]
  {
    NoOrphans(es, t);
    HeartbeatIsLastHeard(es, w);
    ReapedIff(es, cutoff, locked, w);
  }

  // ---- Who is given work ----

  /** The run's i-th call leaves `w` with this standing. */
  predicate StandsAfter(es: seq<Event>, i: nat, w: string, standing: WorkerStatus)
    requires i < |es|
  {
    Standing(es[..i + 1], w) == Some(standing)
  }

  lemma {:induction false} DrainingLasts(es: seq<Event>, i: nat, w: string)
    requires i < |es| && StandsAfter(es, i, w, DRAINING)
    requires forall k | i < k < |es| :: !(es[k].RegisterCall? && es[k].w == w)
    requires forall k | i < k < |es| :: es[k].ReapCall? ==> !Silent(es[..k], w, es[k].cutoff, es[k].locked)
    ensures Standing(es, w) == Some(DRAINING)
  {
    if i + 1 == |es| {
      assert es[..i + 1] == es;
    } else {
      var front := es[..|es| - 1];
      assert front[..i + 1] == es[..i + 1] && es[..|front|] == front;
      forall k | i < k < |front| ensures front[..k] == es[..k] && front[k] == es[k] {
      }
      DrainingLasts(front, i, w);
    }
  }

  lemma DrainedStands(es: seq<Event>, i: nat)
    requires i < |es| && es[i].DrainCall?
    requires Standing(es[..i], es[i].w).Some? && Standing(es[..i], es[i].w) != Some(DEAD)
    ensures StandsAfter(es, i, es[i].w, DRAINING)
  {
    var upto := es[..i + 1];
    assert upto[..|upto| - 1] == es[..i] && upto[|upto| - 1] == es[i];
    var was := Standing(es[..i], es[i].w).value;
    assert was.ALIVE? || was.DRAINING?;
  }

  /** A worker that was drained is handed nothing, heartbeats or not, until it registers again or is reaped. */
  lemma DrainedWorkerGetsNothing(es: seq<Event>, i: nat, e: Event)
    requires Valid(es) && i < |es| && es[i].DrainCall? && e.ClaimCall? && e.w == es[i].w
    requires Standing(es[..i], e.w).Some? && Standing(es[..i], e.w) != Some(DEAD)
    requires forall k | i < k < |es| :: !(es[k].RegisterCall? && es[k].w == e.w)
    requires forall k | i < k < |es| :: es[k].ReapCall? ==> !Silent(es[..k], e.w, es[k].cutoff, es[k].locked)
    requires Enabled(Exec(es), e)
    ensures Next(Exec(es), e) == Exec(es) && !Step(Exec(es), e).reply.Claimed?
  {
    DrainedStands(es, i);
    DrainingLasts(es, i, e.w);
    HeartbeatIsLastHeard(es, e.w);
  }

  lemma {:induction false} DeadLasts(es: seq<Event>, i: nat, w: string)
    requires i < |es| && StandsAfter(es, i, w, DEAD)
    requires forall k | i < k < |es| :: !((es[k].RegisterCall? || es[k].HeartbeatCall?) && es[k].w == w)
    ensures Standing(es, w) == Some(DEAD)
  {
    if i + 1 == |es| {
      assert es[..i + 1] == es;
    } else {
      var front := es[..|es| - 1];
      assert front[..i + 1] == es[..i + 1];
      DeadLasts(front, i, w);
    }
  }

  /** A worker that was reaped is handed nothing until it registers again or sends a heartbeat. */
  lemma ReapedWorkerGetsNothing(es: seq<Event>, i: nat, e: Event)
    requires Valid(es) && i < |es| && es[i].ReapCall? && e.ClaimCall?
    requires Silent(es[..i], e.w, es[i].cutoff, es[i].locked) && Standing(es[..i], e.w).Some?
    requires forall k | i < k < |es| :: !((es[k].RegisterCall? || es[k].HeartbeatCall?) && es[k].w == e.w)
    requires Enabled(Exec(es), e)
    ensures Next(Exec(es), e) == Exec(es) && !Step(Exec(es), e).reply.Claimed?
  {
    assert es[..i + 1][..i] == es[..i];
    DeadLasts(es, i, e.w);
    HeartbeatIsLastHeard(es, e.w);
  }
}
