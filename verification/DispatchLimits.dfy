/** What the reaper, the lease and the idempotency key guarantee over a run, and the inputs on which
    the counters say less than one might expect. */
module DispatchLimits {
  import opened Database
  import opened Dispatch
  import opened DispatchInvariants
  import opened DispatchHistory
  import opened TaskHistory
  import Keys

  // ---- The reaper ----

  /** Right after a reap every RUNNING task belongs to a registered worker that is not DEAD and was
      heard of since the cutoff, unless another reaper holds its row; a reaped worker owns nothing. */
  lemma ReapLeavesLiveOwners(db: Db, cutoff: int, locked: set<string>, t: string)
    requires Sound(db) && t in db.tasks
    ensures var after := Next(db, ReapCall(cutoff, locked));
            && t in after.tasks
            && (after.tasks[t].status == RUNNING ==>
                  && after.tasks[t].workerId.Some?
                  && var w := after.tasks[t].workerId.value;
                  && w in after.workers
                  && after.workers[w].status != DEAD
                  && (w in locked || after.workers[w].lastHeartbeatAt >= cutoff))
    ensures var dead := Stale(db.workers, cutoff, locked);
            forall w | w in dead :: RunningOf(Next(db, ReapCall(cutoff, locked)), w) == {}
  {
    assert TaskSound(db, t);
    forall w | w in Stale(db.workers, cutoff, locked)
      ensures RunningOf(Next(db, ReapCall(cutoff, locked)), w) == {}
    {
      RunningStep(db, ReapCall(cutoff, locked), w);
    }
  }

  /** No orphans in any reachable state: the owner of a RUNNING task is registered and not DEAD. */
  lemma NoOrphans(es: seq<Event>, t: string)
    requires Valid(es) && t in Exec(es).tasks && Exec(es).tasks[t].status == RUNNING
    ensures Exec(es).tasks[t].workerId.Some?
    ensures var w := Exec(es).tasks[t].workerId.value;
            w in Exec(es).workers && Exec(es).workers[w].status != DEAD
  {
    ReachableSound(es);
    assert TaskSound(Exec(es), t);
  }

  // ---- The lease ----

  /** The lease handed out by the latest registration of `w` in the run. */
  function LatestLease(es: seq<Event>, w: string): Option<string> {
    if es == [] then None
    else
      var e := es[|es| - 1];
      if e.RegisterCall? && e.w == w then Some(e.lease) else LatestLease(es[..|es| - 1], w)
  }

  lemma {:induction false} LeaseIsLatest(es: seq<Event>, w: string)
    requires Valid(es)
    ensures w in Exec(es).workers <==> LatestLease(es, w).Some?
    ensures w in Exec(es).workers ==> LatestLease(es, w) == Some(Exec(es).workers[w].leaseId)
  {
    if es != [] {
      LeaseIsLatest(es[..|es| - 1], w);
    }
  }

  /** A heartbeat or claim under any lease but the latest is refused and changes nothing. */
  lemma OldLeaseRefused(es: seq<Event>, e: Event)
    requires Valid(es) && Enabled(Exec(es), e) && (e.HeartbeatCall? || e.ClaimCall?)
    requires LatestLease(es, e.w) != Some(e.lease)
    ensures Next(Exec(es), e) == Exec(es)
    ensures Step(Exec(es), e).reply == Refused(if LatestLease(es, e.w).None? then WorkerNotFound else LeaseMismatch)
  {
    LeaseIsLatest(es, e.w);
  }

  // ---- Idempotent submission ----

  /** The run's i-th call is a submission by `p` under `key` that inserted `t`. */
  ghost predicate InsertsAt(es: seq<Event>, i: nat, p: Principal, key: string, t: string)
    requires Valid(es) && i < |es|
  {
    Prefix(es, i);
    && es[i].SubmitCall? && es[i].p == p && es[i].request.idempotencyKey == Some(key)
    && Step(Exec(es[..i]), es[i]).reply == Submitted(t, true)
  }

  lemma {:induction false} InsertedRowKeepsKey(es: seq<Event>, i: nat, p: Principal, key: string, t: string)
    requires Valid(es) && i < |es| && InsertsAt(es, i, p, key, t)
    ensures t in Exec(es).tasks
    ensures Exec(es).tasks[t].idempotencyKey == ScopedKey(p, Some(key)) && Exec(es).tasks[t].tenantId == p.tenantId
  {
    var front, e := es[..|es| - 1], es[|es| - 1];
    if i == |es| - 1 {
      assert es[..i] == front;
    } else {
      assert front[..i] == es[..i];
      InsertedRowKeepsKey(front, i, p, key, t);
      RowStep(Exec(front), e, t);
    }
  }

  /** Once a submission has inserted a task, every later one by the same principal under the same key
      returns that task and inserts nothing. */
  lemma ReplayReturnsFirst(es: seq<Event>, i: nat, p: Principal, key: string, t: string, e: Event)
    requires Valid(es) && i < |es| && InsertsAt(es, i, p, key, t)
    requires Enabled(Exec(es), e) && e.SubmitCall? && e.p == p && e.request.idempotencyKey == Some(key)
    ensures Step(Exec(es), e) == Outcome(Exec(es), Submitted(t, false))
  {
    InsertedRowKeepsKey(es, i, p, key, t);
    ReachableSound(es);
    assert t in Holders(Exec(es).tasks, ScopedKey(p, Some(key)));
  }

  /** A submission is refused exactly when another tenant's task holds the scoped key. */
  lemma SubmitRefusedIff(es: seq<Event>, e: Event)
    requires Valid(es) && Enabled(Exec(es), e) && e.SubmitCall?
    ensures Step(Exec(es), e).reply.Refused?
            <==> exists t | t in Holders(Exec(es).tasks, ScopedKey(e.p, e.request.idempotencyKey)) ::
                   !e.p.Sees(Exec(es).tasks[t].tenantId)
  {
    ReachableSound(es);
    var key := ScopedKey(e.p, e.request.idempotencyKey);
    if e.holder.Some? {
      forall t | t in Holders(Exec(es).tasks, key) ensures t == e.holder.value {
      }
    }
  }

  /** One tenant id continues the other after a colon. */
  predicate Continues(shorter: string, longer: string) {
    shorter + ":" <= longer
  }

  /** Which keys of two tenants are stored as one: the longer id is the shorter one, a colon and a rest, and
      the shorter tenant's key begins with that rest. */
  lemma ScopedKeysEqualIff(p: Principal, k: string, q: Principal, l: string)
    requires p.tenantId != q.tenantId
    ensures ScopedKey(p, Some(k)) == ScopedKey(q, Some(l))
            <==> || (Continues(p.tenantId, q.tenantId) && k == q.tenantId[|p.tenantId| + 1..] + ":" + l)
                 || (Continues(q.tenantId, p.tenantId) && l == p.tenantId[|q.tenantId| + 1..] + ":" + k)
  {
    var a, b := p.tenantId, q.tenantId;
    if |a| == |b| {
      if a + ":" + k == b + ":" + l {
        Keys.CutAt(a, k, b, l, ':');
      }
    } else if |a| < |b| {
      OneContinuesIff(a, k, b, l);
    } else {
      OneContinuesIff(b, l, a, k);
    }
  }

  lemma OneContinuesIff(a: string, k: string, b: string, l: string)
    requires |a| < |b|
    ensures a + ":" + k == b + ":" + l <==> Continues(a, b) && k == b[|a| + 1..] + ":" + l
  {
    if a + ":" + k == b + ":" + l {
      assert a + ":" == (a + ":" + k)[..|a| + 1] == (b + ":" + l)[..|a| + 1] == b[..|a| + 1];
      assert k == (a + ":" + k)[|a| + 1..] == (b + ":" + l)[|a| + 1..] == b[|a| + 1..] + ":" + l;
    }
    if Continues(a, b) && k == b[|a| + 1..] + ":" + l {
      assert b == (a + ":") + b[|a| + 1..];
      assert a + ":" + k == (a + ":" + b[|a| + 1..]) + ":" + l;
    }
  }

  predicate StoredAsOne(p: Principal, k: string, q: Principal, l: string) {
    ScopedKey(p, Some(k)) == ScopedKey(q, Some(l))
  }

  /** Scoping separates two tenants, whatever keys they use, if and only if neither id continues the other
      after a colon; in particular when neither has a colon. */
  lemma ScopedKeysSeparate(p: Principal, q: Principal)
    requires p.tenantId != q.tenantId
    ensures (forall k, l :: !StoredAsOne(p, k, q, l))
            <==> !Continues(p.tenantId, q.tenantId) && !Continues(q.tenantId, p.tenantId)
    ensures ':' !in p.tenantId && ':' !in q.tenantId ==> forall k, l :: !StoredAsOne(p, k, q, l)
  {
    forall k, l
      ensures StoredAsOne(p, k, q, l) ==> Continues(p.tenantId, q.tenantId) || Continues(q.tenantId, p.tenantId)
    {
      ScopedKeysEqualIff(p, k, q, l);
    }
    if Continues(p.tenantId, q.tenantId) {
      CollidingKeys(p, q);
    }
    if Continues(q.tenantId, p.tenantId) {
      CollidingKeys(q, p);
    }
    ColonInContinued(p.tenantId, q.tenantId);
    ColonInContinued(q.tenantId, p.tenantId);
  }

  lemma CollidingKeys(p: Principal, q: Principal)
    requires Continues(p.tenantId, q.tenantId)
    ensures exists k :: StoredAsOne(p, k, q, "") && StoredAsOne(q, "", p, k)
  {
    var k := q.tenantId[|p.tenantId| + 1..] + ":";
    assert k + "" == k;
    OneContinuesIff(p.tenantId, k, q.tenantId, "");
    assert StoredAsOne(p, k, q, "");
  }

  /** The same key under two tenants is always two keys. */
  lemma SameKeyTwoTenants(p: Principal, q: Principal, k: string)
    requires p.tenantId != q.tenantId
    ensures !StoredAsOne(p, k, q, k)
  {
    ScopedKeysEqualIff(p, k, q, k);
  }

  lemma ColonInContinued(a: string, b: string)
    ensures Continues(a, b) ==> ':' in b
  {
    if Continues(a, b) {
      assert b[|a|] == (a + ":")[|a|];
    }
  }

  /** What a collision costs: tenant "a" under "b:k" and tenant "a:b" under "k" share a key, so the
      second of the two is refused. */
  lemma ScopedKeysCanCollide() returns (es: seq<Event>, e: Event)
    ensures Valid(es) && Enabled(Exec(es), e) && e.SubmitCall? && e.p.tenantId == "a:b"
    ensures e.request.idempotencyKey == Some("k")
    ensures forall t | t in Exec(es).tasks :: Exec(es).tasks[t].tenantId == "a"
    ensures Step(Exec(es), e).reply == Refused(IntegrityFailure)
  {
    var p, q := Principal("a", false), Principal("a:b", false);
    var first := SubmitCall(p, Request("COMPACTION", "d", 5, map[], Some("b:k"), 3), None, "t1", 0);
    es := [first];
    e := SubmitCall(q, Request("COMPACTION", "d", 5, map[], Some("k"), 3), None, "t2", 0);
    assert es[..0] == [] && Valid([]) && Exec([]) == EMPTY;
    assert Holders(EMPTY.tasks, ScopedKey(p, Some("b:k"))) == {};
    assert Exec(es) == Next(EMPTY, first);
    assert Exec(es).tasks == map["t1" := NewTask(p, first.request, 0)];
    assert "a" + ":" + "b:k" == "a:b" + ":" + "k";
    assert "t1" in Holders(Exec(es).tasks, ScopedKey(q, Some("k")));
  }

  // ---- Where the counter and the load part ----

  /** A registration while tasks are running forgets them: the worker can then run more tasks than its
      capacity allows. */
  lemma ReregisteringOvercommits() returns (es: seq<Event>, w: string)
    ensures Valid(es) && w in Exec(es).workers
    ensures |RunningOf(Exec(es), w)| > Exec(es).workers[w].capacity
  {
    w := "w";
    var s1 := OneRunning(3);
    var s2 := Extend(s1, RegisterCall(w, "", 1, "m", 0));
    var s3 := Extend(s2, SubmitCall(Principal("a", false), ANY_REQUEST, None, "t2", 0));
    es := Extend(s3, ClaimCall(w, "m", None, {}, Some("t2"), 0));
    assert RunningOf(Exec(es), w) == {"t1", "t2"};
  }

  /** A retry that reaches the limit is accepted, and the task then waits for a claim that never comes. */
  lemma RetryAtLimit() returns (es: seq<Event>)
    ensures Valid(es) && "t1" in Exec(es).tasks
    ensures Waiting(Exec(es).tasks["t1"]) && Exec(es).tasks["t1"].attempt == Exec(es).tasks["t1"].maxAttempts == 2
  {
    var s1 := OneRunning(2);
    var s2 := Extend(s1, FailCall("w", "t1", "", "", 0));
    es := Extend(s2, RetryCall(Principal("a", false), "t1"));
  }

  const ANY_REQUEST := Request("COMPACTION", "d", 5, map[], None, 3)

  /** A run that leaves worker "w" with its only slot taken. */
  lemma OneRunning(maxAttempts: nat) returns (es: seq<Event>)
    requires maxAttempts > 0
    ensures Valid(es) && Exec(es).tasks.Keys == {"t1"} && Owns(Exec(es), "w", "t1")
    ensures Exec(es).workers.Keys == {"w"} && Exec(es).tasks["t1"].tenantId == "a"
    ensures Exec(es).tasks["t1"].attempt == 1 && Exec(es).tasks["t1"].maxAttempts == maxAttempts
  {
    assert Valid([]) && Exec([]) == EMPTY;
    var s1 := Extend([], RegisterCall("w", "", 1, "l", 0));
    var s2 := Extend(s1, SubmitCall(Principal("a", false), ANY_REQUEST.(maxAttempts := maxAttempts), None, "t1", 0));
    es := Extend(s2, ClaimCall("w", "l", None, {}, Some("t1"), 0));
  }

  lemma Extend(es: seq<Event>, e: Event) returns (longer: seq<Event>)
    requires Valid(es) && Enabled(Exec(es), e)
    ensures longer == es + [e] && Valid(longer) && Exec(longer) == Next(Exec(es), e)
  {
    longer := es + [e];
    assert longer[..|longer| - 1] == es;
  }

  /** A cancel gives no slot back to a worker whose id is empty: its counter stays at one with nothing
      running, so at capacity one it is never handed a task again. */
  lemma EmptyWorkerIdLosesSlot() returns (es: seq<Event>)
    ensures Valid(es) && "" in Exec(es).workers
    ensures RunningOf(Exec(es), "") == {} && Exec(es).workers[""].inFlight == Exec(es).workers[""].capacity == 1
  {
    var p := Principal("a", false);
    var r := Request("COMPACTION", "d", 5, map[], None, 3);
    assert Valid([]) && Exec([]) == EMPTY;
    var s1 := Extend([], RegisterCall("", "", 1, "l", 0));
    var s2 := Extend(s1, SubmitCall(p, r, None, "t1", 0));
    var s3 := Extend(s2, ClaimCall("", "l", None, {}, Some("t1"), 0));
    es := Extend(s3, CancelCall(p, "t1", 0));
  }
}
