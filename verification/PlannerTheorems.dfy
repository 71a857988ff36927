/** What the planner's keys promise: however its ticks are ordered, repeated and mixed with the rest of
    the queue's life, every due key is planned exactly once. */
module PlannerTheorems {
  import opened Database
  import opened Dispatch
  import opened DispatchInvariants
  import opened Keys
  import opened Planner
  import TaskHistory

  function KeysIn(tasks: map<string, Task>): set<string> {
    set u | u in tasks && tasks[u].idempotencyKey.Some? :: tasks[u].idempotencyKey.value
  }

  function JobKeys(jobs: seq<Job>): set<string> {
    set j | j in jobs :: j.key
  }

  /** The jobs' ids are new and different, and every job's task carries its key. */
  ghost predicate Fresh(tasks: map<string, Task>, jobs: seq<Job>) {
    && (forall j | j in jobs :: j.uuid !in tasks && j.task.idempotencyKey == Some(j.key))
    && (forall a, b | 0 <= a < b < |jobs| :: jobs[a].uuid != jobs[b].uuid)
  }

  // ---- One tick ----

  /** `after` has the keys of `before` and of `jobs`, and one emission for each key that was missing. */
  ghost predicate Extends(before: Progress, jobs: seq<Job>, after: Progress) {
    && KeysIn(after.tasks) == KeysIn(before.tasks) + JobKeys(jobs)
    && |after.emitted| - |before.emitted| == |KeysIn(after.tasks)| - |KeysIn(before.tasks)|
  }

  /** Old rows stay, and every new row is the task of a job and reported as emitted. */
  ghost predicate AddsRowsOf(before: Progress, jobs: seq<Job>, after: Progress) {
    && (forall u | u in before.tasks :: u in after.tasks && after.tasks[u] == before.tasks[u])
    && (forall u | u in after.tasks && u !in before.tasks ::
          u in after.emitted && exists j | j in jobs :: j.uuid == u && j.task == after.tasks[u])
  }

  lemma HeldIff(tasks: map<string, Task>, key: string)
    ensures Holders(tasks, Some(key)) != {} <==> key in KeysIn(tasks)
  {
    if key in KeysIn(tasks) {
      var u :| u in tasks && tasks[u].idempotencyKey == Some(key);
      assert u in Holders(tasks, Some(key));
    }
  }

  lemma KeysWith(tasks: map<string, Task>, uuid: string, task: Task, key: string)
    requires uuid !in tasks && task.idempotencyKey == Some(key)
    ensures KeysIn(tasks[uuid := task]) == KeysIn(tasks) + {key}
  {
    var after := tasks[uuid := task];
    forall k | k in KeysIn(tasks) ensures k in KeysIn(after) {
      var u :| u in tasks && tasks[u].idempotencyKey == Some(k);
      assert after[u] == tasks[u];
    }
    assert after[uuid] == task;
  }

  lemma UniqueWith(tasks: map<string, Task>, uuid: string, task: Task, key: string)
    requires KeysUnique(tasks) && uuid !in tasks && task.idempotencyKey == Some(key) && Holders(tasks, Some(key)) == {}
    ensures KeysUnique(tasks[uuid := task])
  {
    assert forall u | u in tasks :: u !in Holders(tasks, Some(key));
  }

  lemma EmitExtends(before: Progress, job: Job)
    requires job.uuid !in before.tasks && job.task.idempotencyKey == Some(job.key)
    ensures Extends(before, [job], TryEmit(before, job))
  {
    HeldIff(before.tasks, job.key);
    assert JobKeys([job]) == {job.key};
    if job.key in KeysIn(before.tasks) {
      assert KeysIn(before.tasks) + {job.key} == KeysIn(before.tasks);
    } else {
      KeysWith(before.tasks, job.uuid, job.task, job.key);
      assert |KeysIn(before.tasks) + {job.key}| == |KeysIn(before.tasks)| + 1;
    }
  }

  lemma ExtendsAgain(before: Progress, jobs: seq<Job>, mid: Progress, job: Job, after: Progress)
    requires Extends(before, jobs, mid) && Extends(mid, [job], after)
    ensures Extends(before, jobs + [job], after)
  {
    JobKeysConcat(jobs, [job]);
    assert KeysIn(before.tasks) + JobKeys(jobs) + JobKeys([job])
           == KeysIn(before.tasks) + (JobKeys(jobs) + JobKeys([job]));
  }

  lemma JobKeysConcat(a: seq<Job>, b: seq<Job>)
    ensures JobKeys(a + b) == JobKeys(a) + JobKeys(b)
  {
    assert forall j | j in a + b :: j in a || j in b;
    assert forall j | j in a || j in b :: j in a + b;
  }

  lemma AddsAgain(before: Progress, jobs: seq<Job>, mid: Progress, job: Job)
    requires AddsRowsOf(before, jobs, mid) && job.uuid !in mid.tasks
    ensures AddsRowsOf(before, jobs + [job], TryEmit(mid, job))
  {
  }

  lemma {:induction false} JobsExtend(before: Progress, jobs: seq<Job>)
    requires Fresh(before.tasks, jobs)
    ensures Extends(before, jobs, RunJobs(before, jobs)) && AddsRowsOf(before, jobs, RunJobs(before, jobs))
  {
    if jobs == [] {
      assert JobKeys(jobs) == {};
    } else {
      var front, job := jobs[..|jobs| - 1], jobs[|jobs| - 1];
      assert jobs == front + [job];
      JobsExtend(before, front);
      var mid := RunJobs(before, front);
      assert job.uuid !in mid.tasks;
      EmitExtends(mid, job);
      ExtendsAgain(before, front, mid, job, TryEmit(mid, job));
      AddsAgain(before, front, mid, job);
    }
  }

  /** Being due, in one line. */
  lemma DueIff(tables: Tables, s: Source)
    ensures s in Due(tables) <==> IsDue(tables, s)
  {
    DueAmongIff(tables, tables.policies.Keys, s);
  }

  /** The keys a tick at `now` stands for. */
  ghost function DueKeys(tables: Tables, now: Time): set<string>
    requires now.Proper()
  {
    set s | s in Due(tables) && IsDue(tables, s) :: KeyOf(tables, s, now)
  }

  /** The ids handed out in a tick are new. */
  ghost predicate NewIds(tables: Tables, tasks: map<string, Task>, m: Moment) {
    && (forall s | s in Due(tables) :: m.newId(s) !in tasks)
    && (forall s, t | s in Due(tables) && t in Due(tables) && s != t :: m.newId(s) != m.newId(t))
  }

  lemma {:induction false} SetOfSeq(s: seq<Source>)
    ensures |set x | x in s| <= |s|
  {
    if s != [] {
      SetOfSeq(s[1..]);
      assert (set x | x in s) == (set x | x in s[1..]) + {s[0]};
    } else {
      assert (set x | x in s) == {};
    }
  }

  lemma Distinct(order: seq<Source>, due: set<Source>, i: nat, j: nat)
    requires Covers(order, due) && i < j < |order|
    ensures order[i] != order[j]
  {
    if order[i] == order[j] {
      var rest := order[..j] + order[j + 1..];
      assert order == order[..j] + [order[j]] + order[j + 1..];
      assert order[i] == rest[i];
      assert due == (set x | x in rest);
      SetOfSeq(rest);
      assert false;
    }
  }

  lemma JobsFresh(tables: Tables, tasks: map<string, Task>, m: Moment, order: seq<Source>)
    requires m.now.Proper() && AllDue(tables, order) && Covers(order, Due(tables)) && NewIds(tables, tasks, m)
    ensures Fresh(tasks, JobsOf(tables, order, m))
    ensures JobKeys(JobsOf(tables, order, m)) == DueKeys(tables, m.now)
  {
    var jobs := JobsOf(tables, order, m);
    forall j | j in jobs
      ensures j.uuid !in tasks && j.task.idempotencyKey == Some(j.key) && j.key in DueKeys(tables, m.now)
    {
      var i :| 0 <= i < |jobs| && jobs[i] == j;
      assert order[i] in order;
    }
    forall a, b | 0 <= a < b < |jobs| ensures jobs[a].uuid != jobs[b].uuid {
      Distinct(order, Due(tables), a, b);
      assert order[a] in order && order[b] in order;
    }
    forall k | k in DueKeys(tables, m.now) ensures k in JobKeys(jobs) {
      var s :| s in Due(tables) && IsDue(tables, s) && KeyOf(tables, s, m.now) == k;
      assert s in order;
      var i :| 0 <= i < |order| && order[i] == s;
      assert jobs[i].key == k && jobs[i] in jobs;
    }
  }

  lemma {:induction false} JobsKeepUnique(before: Progress, jobs: seq<Job>)
    requires Fresh(before.tasks, jobs) && KeysUnique(before.tasks)
    ensures KeysUnique(RunJobs(before, jobs).tasks)
  {
    if jobs != [] {
      var front, job := jobs[..|jobs| - 1], jobs[|jobs| - 1];
      assert jobs == front + [job];
      JobsKeepUnique(before, front);
      JobsExtend(before, front);
      var mid := RunJobs(before, front);
      assert job.uuid !in mid.tasks;
      if Holders(mid.tasks, Some(job.key)) == {} {
        UniqueWith(mid.tasks, job.uuid, job.task, job.key);
      }
    }
  }

  /** One tick, in whatever order its rows come: it adds one task for every due key that is missing, skips
      the rest, and keeps the keys unique. */
  lemma TickEffect(tables: Tables, m: Moment, tasks: map<string, Task>, order: seq<Source>, after: Progress)
    requires Ticked(tables, m, Progress(tasks, [], 0), order, Due(tables), after) && NewIds(tables, tasks, m)
    ensures KeysIn(after.tasks) == KeysIn(tasks) + DueKeys(tables, m.now)
    ensures |after.emitted| == |DueKeys(tables, m.now) - KeysIn(tasks)|
    ensures |after.emitted| + after.skipped == |Due(tables)|
    ensures KeysUnique(tasks) ==> KeysUnique(after.tasks)
  {
    var start, jobs := Progress(tasks, [], 0), JobsOf(tables, order, m);
    JobsFresh(tables, tasks, m, order);
    assert Extends(start, jobs, after) by { JobsExtend(start, jobs); }
    JobsCounted(start, jobs);
    Difference(KeysIn(tasks), DueKeys(tables, m.now));
    if KeysUnique(tasks) {
      JobsKeepUnique(start, jobs);
    }
  }

  lemma Difference(a: set<string>, b: set<string>)
    ensures |a + b| - |a| == |b - a|
  {
    assert a + b == a + (b - a);
  }

  /** Every task a tick adds belongs to the tenant of its dataset and waits under the key of something due. */
  lemma PlannedForItsTenant(tables: Tables, m: Moment, tasks: map<string, Task>, order: seq<Source>, after: Progress,
                            u: string)
    requires Ticked(tables, m, Progress(tasks, [], 0), order, Due(tables), after) && NewIds(tables, tasks, m)
    requires u in after.tasks && u !in tasks
    ensures u in after.emitted && after.tasks[u].datasetUuid in tables.datasets
    ensures after.tasks[u].tenantId == tables.datasets[after.tasks[u].datasetUuid].tenantId
    ensures exists s | IsDue(tables, s) :: after.tasks[u] == TaskOf(tables, s, m.now, m.stamp)
  {
    var jobs := JobsOf(tables, order, m);
    JobsFresh(tables, tasks, m, order);
    JobsExtend(Progress(tasks, [], 0), jobs);
    var j :| j in jobs && j.uuid == u && j.task == after.tasks[u];
    var i :| 0 <= i < |jobs| && jobs[i] == j;
    assert order[i] in order && IsDue(tables, order[i]);
    assert j.task == TaskOf(tables, order[i], m.now, m.stamp);
  }

  // ---- Runs of ticks among the other calls on the queue ----

  datatype PlannerEvent = Tick(m: Moment, order: seq<Source>) | Between(call: Event)

  ghost predicate CanHappen(tables: Tables, db: Db, e: PlannerEvent) {
    match e
    case Tick(m, order) =>
      m.now.Proper() && AllDue(tables, order) && Covers(order, Due(tables)) && NewIds(tables, db.tasks, m)
    case Between(call) => Enabled(db, call)
  }

  function TickResult(tables: Tables, db: Db, m: Moment, order: seq<Source>): Progress
    requires m.now.Proper() && AllDue(tables, order)
  {
    RunJobs(Progress(db.tasks, [], 0), JobsOf(tables, order, m))
  }

  ghost function Then(tables: Tables, db: Db, e: PlannerEvent): Db
    requires CanHappen(tables, db, e)
  {
    match e
    case Tick(m, order) => db.(tasks := TickResult(tables, db, m, order).tasks)
    case Between(call) => Next(db, call)
  }

  ghost predicate Runs(tables: Tables, db: Db, run: seq<PlannerEvent>)
    decreases |run|
  {
    run == [] || (CanHappen(tables, db, run[0]) && Runs(tables, Then(tables, db, run[0]), run[1..]))
  }

  ghost function End(tables: Tables, db: Db, run: seq<PlannerEvent>): Db
    requires Runs(tables, db, run)
    decreases |run|
  {
    if run == [] then db else End(tables, Then(tables, db, run[0]), run[1..])
  }

  /** The keys one event stands for: the due keys of a tick's hour, or a submission's key. */
  ghost function KeysOf(tables: Tables, e: PlannerEvent): set<string> {
    match e
    case Tick(m, _) => if m.now.Proper() then DueKeys(tables, m.now) else {}
    case Between(call) =>
      if call.SubmitCall? && call.request.idempotencyKey.Some?
      then {ScopedKey(call.p, call.request.idempotencyKey).value} else {}
  }

  /** The keys all the events of a run stand for. */
  ghost function KeysOfRun(tables: Tables, run: seq<PlannerEvent>): set<string> {
    set e, k | e in run && k in KeysOf(tables, e) :: k
  }

  lemma CallKeys(db: Db, call: Event)
    requires Enabled(db, call)
    ensures KeysIn(Next(db, call).tasks) == KeysIn(db.tasks) + KeysOf(Tables(map[], map[], map[], map[]), Between(call))
    ensures KeysUnique(db.tasks) ==> KeysUnique(Next(db, call).tasks)
  {
    var after := Next(db, call);
    forall t | t in db.tasks ensures t in after.tasks && after.tasks[t].idempotencyKey == db.tasks[t].idempotencyKey {
      TaskHistory.RowStep(db, call, t);
    }
    forall t | t in after.tasks && t !in db.tasks
      ensures call.SubmitCall? && after.tasks[t].idempotencyKey == ScopedKey(call.p, call.request.idempotencyKey)
    {
      TaskHistory.RowBorn(db, call, t);
    }
    if call.SubmitCall? {
      SubmittedKeyHeld(db, call);
    }
    forall k | k in KeysIn(db.tasks) ensures k in KeysIn(after.tasks) {
      var u :| u in db.tasks && db.tasks[u].idempotencyKey == Some(k);
      assert u in after.tasks;
    }
  }

  /** However a submission ends, its key is held afterwards. */
  lemma SubmittedKeyHeld(db: Db, call: Event)
    requires Enabled(db, call) && call.SubmitCall?
    ensures call.request.idempotencyKey.Some? ==>
              ScopedKey(call.p, call.request.idempotencyKey).value in KeysIn(Next(db, call).tasks)
    ensures KeysUnique(db.tasks) ==> KeysUnique(Next(db, call).tasks)
  {
    var key := ScopedKey(call.p, call.request.idempotencyKey);
    if call.request.idempotencyKey.Some? {
      if Holders(db.tasks, key) != {} {
        var u :| u in Holders(db.tasks, key);
        assert u in Next(db, call).tasks && Next(db, call).tasks[u] == db.tasks[u];
      } else {
        assert Next(db, call).tasks[call.uuid].idempotencyKey == key;
      }
    }
  }

  lemma StepKeys(tables: Tables, db: Db, e: PlannerEvent)
    requires CanHappen(tables, db, e)
    ensures KeysIn(Then(tables, db, e).tasks) == KeysIn(db.tasks) + KeysOf(tables, e)
    ensures KeysUnique(db.tasks) ==> KeysUnique(Then(tables, db, e).tasks)
  {
    match e
    case Tick(m, order) =>
      TickEffect(tables, m, db.tasks, order, TickResult(tables, db, m, order));
    case Between(call) =>
      CallKeys(db, call);
  }

  /** After any run of ticks mixed with any calls on the queue, the keys are exactly the ones there at the
      start, the due keys of the hours visited and the keys submitted; no key is ever held twice. */
  lemma {:induction false} RunKeys(tables: Tables, db: Db, run: seq<PlannerEvent>)
    requires Runs(tables, db, run)
    ensures KeysIn(End(tables, db, run).tasks) == KeysIn(db.tasks) + KeysOfRun(tables, run)
    ensures KeysUnique(db.tasks) ==> KeysUnique(End(tables, db, run).tasks)
    decreases |run|
  {
    if run == [] {
      assert KeysOfRun(tables, run) == {};
    } else {
      StepKeys(tables, db, run[0]);
      RunKeys(tables, Then(tables, db, run[0]), run[1..]);
      assert run == [run[0]] + run[1..];
      assert KeysOfRun(tables, run) == KeysOf(tables, run[0]) + KeysOfRun(tables, run[1..]);
    }
  }

  /** Hours at which a run ticks. */
  ghost function Hours(run: seq<PlannerEvent>): set<Time> {
    set e | e in run && e.Tick? :: e.m.now
  }

  ghost function Calls(run: seq<PlannerEvent>): set<Event> {
    set e | e in run && e.Between? :: e.call
  }

  lemma KeysOfRunByHours(tables: Tables, run: seq<PlannerEvent>, other: seq<PlannerEvent>)
    requires Hours(run) <= Hours(other) && Calls(run) <= Calls(other)
    ensures KeysOfRun(tables, run) <= KeysOfRun(tables, other)
  {
    forall k | k in KeysOfRun(tables, run) ensures k in KeysOfRun(tables, other) {
      var e :| e in run && k in KeysOf(tables, e);
      match e
      case Tick(m, order) =>
        assert m.now in Hours(run);
        var t :| t in other && t.Tick? && t.m.now == m.now;
        assert k in KeysOf(tables, t);
      case Between(call) =>
        assert call in Calls(run);
        assert Between(call) in other;
    }
  }

  /** Confluence: two runs that visit the same hours plan the same keys, whatever the order and the number
      of their ticks, and each key on exactly one task. */
  lemma PlannerConfluence(tables: Tables, db: Db, run: seq<PlannerEvent>, other: seq<PlannerEvent>)
    requires Runs(tables, db, run) && Runs(tables, db, other)
    requires Hours(run) == Hours(other) && Calls(run) == Calls(other)
    ensures KeysIn(End(tables, db, run).tasks) == KeysIn(End(tables, db, other).tasks)
  {
    RunKeys(tables, db, run);
    RunKeys(tables, db, other);
    KeysOfRunByHours(tables, run, other);
    KeysOfRunByHours(tables, other, run);
  }

  lemma HeldOnce(tasks: map<string, Task>, key: string)
    requires KeysUnique(tasks) && key in KeysIn(tasks)
    ensures |Holders(tasks, Some(key))| == 1
  {
    var u :| u in tasks && tasks[u].idempotencyKey == Some(key);
    assert Holders(tasks, Some(key)) == {u};
  }

  /** Everything due is on exactly one task for every hour visited. */
  lemma EachDueKeyOnce(tables: Tables, db: Db, run: seq<PlannerEvent>, now: Time, s: Source)
    requires Runs(tables, db, run) && KeysUnique(db.tasks) && now in Hours(run) && now.Proper() && IsDue(tables, s)
    ensures |Holders(End(tables, db, run).tasks, Some(KeyOf(tables, s, now)))| == 1
  {
    DueIff(tables, s);
    assert KeyOf(tables, s, now) in DueKeys(tables, now);
    VisitedKeysHeld(tables, db, run, now);
    RunKeys(tables, db, run);
    HeldOnce(End(tables, db, run).tasks, KeyOf(tables, s, now));
  }

  lemma VisitedKeysHeld(tables: Tables, db: Db, run: seq<PlannerEvent>, now: Time)
    requires Runs(tables, db, run) && now in Hours(run) && now.Proper()
    ensures DueKeys(tables, now) <= KeysIn(End(tables, db, run).tasks)
  {
    var e :| e in run && e.Tick? && e.m.now == now;
    RunKeys(tables, db, run);
    forall k | k in DueKeys(tables, now) ensures k in KeysOfRun(tables, run) {
      assert k in KeysOf(tables, e);
    }
  }

  /** A tick all of whose keys are held changes nothing. */
  lemma {:induction false} NothingToEmit(before: Progress, jobs: seq<Job>)
    requires JobKeys(jobs) <= KeysIn(before.tasks)
    ensures RunJobs(before, jobs) == before.(skipped := before.skipped + |jobs|)
  {
    if jobs != [] {
      var front, job := jobs[..|jobs| - 1], jobs[|jobs| - 1];
      assert JobKeys(front) <= JobKeys(jobs);
      NothingToEmit(before, front);
      assert job.key in JobKeys(jobs);
      HeldIff(before.tasks, job.key);
    }
  }

  /** A further tick within an hour already visited emits nothing, changes no row, and skips as many as
      any tick of the run emitted and skipped together. */
  lemma SecondTickEmitsNothing(tables: Tables, db: Db, run: seq<PlannerEvent>, m: Moment, order: seq<Source>)
    requires Runs(tables, db, run) && m.now in Hours(run) && CanHappen(tables, End(tables, db, run), Tick(m, order))
    ensures TickResult(tables, End(tables, db, run), m, order)
            == Progress(End(tables, db, run).tasks, [], |Due(tables)|)
  {
    var tasks := End(tables, db, run).tasks;
    VisitedKeysHeld(tables, db, run, m.now);
    JobsFresh(tables, tasks, m, order);
    NothingToEmit(Progress(tasks, [], 0), JobsOf(tables, order, m));
  }

  // ---- Which sources share a key ----

  /** Two settings or rules share a key exactly when policy, task type and bucket agree: the rule does not
      count, so a policy gets one VECTORIZE task an hour however many rules its dataset has. */
  lemma PolicyKeysEqualIff(tables: Tables, s: Source, a: Time, t: Source, b: Time)
    requires IsDue(tables, s) && IsDue(tables, t) && a.Proper() && b.Proper() && !s.HotIndex? && !t.HotIndex?
    ensures KeyOf(tables, s, a) == KeyOf(tables, t, b)
            <==> && s.policy == t.policy && TypeOf(s) == TypeOf(t)
                 && (if s.Ttl? || s.Compaction? then a.SameDay(b) else a == b)
  {
    var hourly, hourly' := s.Cron? || s.Vectorize?, t.Cron? || t.Vectorize?;
    var bucket := if hourly then HourBucket(a) else DayBucket(a);
    var bucket' := if hourly' then HourBucket(b) else DayBucket(b);
    var tenant, tenant' := TenantOf(tables, s), TenantOf(tables, t);
    assert KeyOf(tables, s, a) == LifecycleKey(tenant, s.policy, TypeOf(s), bucket);
    assert KeyOf(tables, t, b) == LifecycleKey(tenant', t.policy, TypeOf(t), bucket');
    BucketsInjective(a, b);
    NoSeparatorInBuckets(a);
    NoSeparatorInBuckets(b);
    NoSeparatorInTypes(s);
    NoSeparatorInTypes(t);
    if KeyOf(tables, s, a) == KeyOf(tables, t, b) {
      LifecycleKeyInjective(tenant, s.policy, TypeOf(s), bucket, tenant', t.policy, TypeOf(t), bucket');
    } else if s.policy == t.policy && TypeOf(s) == TypeOf(t) {
      SameTypeSameCadence(s, t);
    }
  }

  /** However many rules a dataset has, a policy of it has one VECTORIZE task for an hour. */
  lemma OneVectorizeRowPerHour(tables: Tables, db: Db, run: seq<PlannerEvent>, now: Time, policy: nat, a: nat, b: nat)
    requires Runs(tables, db, run) && KeysUnique(db.tasks) && now in Hours(run) && now.Proper()
    requires IsDue(tables, Vectorize(policy, a)) && IsDue(tables, Vectorize(policy, b))
    ensures var tasks := End(tables, db, run).tasks;
            && Holders(tasks, Some(KeyOf(tables, Vectorize(policy, a), now)))
               == Holders(tasks, Some(KeyOf(tables, Vectorize(policy, b), now)))
            && |Holders(tasks, Some(KeyOf(tables, Vectorize(policy, a), now)))| == 1
  {
    EachDueKeyOnce(tables, db, run, now, Vectorize(policy, a));
    PolicyKeysEqualIff(tables, Vectorize(policy, a), now, Vectorize(policy, b), now);
  }

  function TenantOf(tables: Tables, s: Source): string
    requires IsDue(tables, s)
  {
    tables.datasets[tables.policies[s.policy].datasetUuid].tenantId
  }

  lemma NoSeparatorInTypes(s: Source)
    ensures ':' !in TypeOf(s)
  {
  }

  lemma SameTypeSameCadence(s: Source, t: Source)
    requires TypeOf(s) == TypeOf(t) && !s.HotIndex? && !t.HotIndex?
    ensures (s.Cron? || s.Vectorize?) == (t.Cron? || t.Vectorize?)
  {
    assert TypeOf(s)[0] == TypeOf(t)[0];
  }

  /** Two policies that watch the same index's deltas share its key within the hour. */
  lemma HotKeysEqualIff(tables: Tables, s: Source, a: Time, t: Source, b: Time)
    requires IsDue(tables, s) && IsDue(tables, t) && a.Proper() && b.Proper() && s.HotIndex? && t.HotIndex?
    requires tables.indexes[s.index].datasetUuid == tables.indexes[t.index].datasetUuid
    ensures KeyOf(tables, s, a) == KeyOf(tables, t, b)
            <==> tables.indexes[s.index].indexName == tables.indexes[t.index].indexName && a == b
  {
    var dataset := tables.indexes[s.index].datasetUuid;
    var n, n' := tables.indexes[s.index].indexName, tables.indexes[t.index].indexName;
    var prefix := TenantOf(tables, s) + ":auto-optimize:" + dataset + "/";
    assert KeyOf(tables, s, a) == prefix + (n + [':'] + HourBucket(a));
    assert KeyOf(tables, t, b) == prefix + (n' + [':'] + HourBucket(b));
    NoSeparatorInBuckets(a);
    NoSeparatorInBuckets(b);
    BucketsInjective(a, b);
    if KeyOf(tables, s, a) == KeyOf(tables, t, b) {
      SamePrefix(prefix, n + [':'] + HourBucket(a), n' + [':'] + HourBucket(b));
      LastSeparator(n, HourBucket(a), n', HourBucket(b), ':');
    }
  }

  // ---- A policy with nothing due ----

  /** One enabled policy without any setting, on a dataset without indexes or rules. */
  const IDLE_POLICY := Tables(
    map[1 := Policy("d", "p", None, false, "", false, None, None, None, true)], map[], map[],
    map["d" := Dataset("a", "c", "s", "t", "u", None, false)])

  /** The planner sees the policy and stamps it, but nothing is due, so PlanOnce does not record the stamp. */
  lemma StampNotRecorded(now: int)
    ensures Scanned(IDLE_POLICY, 1) && 1 in Stamps(IDLE_POLICY, now) && Due(IDLE_POLICY) == {}
  {
    forall s ensures s !in Due(IDLE_POLICY) {
      DueIff(IDLE_POLICY, s);
    }
  }
}
