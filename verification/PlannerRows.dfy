/** What the planner queues, told by the columns of the policies, rules and indexes it reads: no task of a kind
    nobody asked for, and none missing that somebody did. */
module PlannerRows {
  import opened Database
  import opened Dispatch
  import opened Keys
  import opened Planner
  import opened PlannerTheorems

  // ---- Who asks for what ----

  /** An enabled policy whose dataset is there. */
  predicate Active(tables: Tables, p: nat) {
    p in tables.policies && tables.policies[p].enabled && tables.policies[p].datasetUuid in tables.datasets
  }

  function DatasetTenant(tables: Tables, p: nat): string
    requires Active(tables, p)
  {
    tables.datasets[tables.policies[p].datasetUuid].tenantId
  }

  predicate AsksTtl(tables: Tables, p: nat) {
    Active(tables, p) && tables.policies[p].ttlDays.Some?
  }

  predicate AsksCompaction(tables: Tables, p: nat) {
    Active(tables, p) && tables.policies[p].hasCompactionThreshold
  }

  predicate AsksOptimize(tables: Tables, p: nat) {
    Active(tables, p) && |tables.policies[p].indexOptimizeCron| > 0
  }

  /** A READY index of the policy's dataset with at least ten deltas, while the policy has no cron. */
  predicate AsksForIndex(tables: Tables, p: nat, i: nat) {
    && Active(tables, p) && |tables.policies[p].indexOptimizeCron| == 0
    && i in tables.indexes && tables.indexes[i].datasetUuid == tables.policies[p].datasetUuid
    && tables.indexes[i].status == READY && tables.indexes[i].deltaCount >= 10
  }

  /** An enabled rule of the policy's dataset. */
  predicate AsksVectorize(tables: Tables, p: nat, r: nat) {
    && Active(tables, p) && r in tables.rules && tables.rules[r].enabled
    && tables.rules[r].datasetUuid == tables.policies[p].datasetUuid
  }

  function PolicyKey(tables: Tables, p: nat, taskType: string, bucket: string): string
    requires Active(tables, p)
  {
    DatasetTenant(tables, p) + ":lifecycle:" + Dec(p) + ":" + taskType + ":" + bucket
  }

  function IndexKey(tables: Tables, p: nat, i: nat, now: Time): string
    requires AsksForIndex(tables, p, i) && now.Proper()
  {
    DatasetTenant(tables, p) + ":auto-optimize:" + tables.policies[p].datasetUuid + "/" + tables.indexes[i].indexName
    + ":" + HourBucket(now)
  }

  // ---- The rows of a tick ----

  /** What all planned rows of a policy have in common. */
  predicate PlannedFor(tables: Tables, m: Moment, p: nat, row: Task) {
    && Active(tables, p)
    && row.datasetUuid == tables.policies[p].datasetUuid && row.tenantId == DatasetTenant(tables, p)
    && (row.status, row.priority, row.attempt, row.maxAttempts) == (PENDING, 5, 0, 3)
    && row.workerId.None? && row.result.None? && row.errorCode.None? && row.createdAt == m.stamp
    && "policy_name" in row.params && row.params["policy_name"] == Text(tables.policies[p].policyName)
  }

  predicate TtlRow(tables: Tables, m: Moment, p: nat, row: Task)
    requires m.now.Proper()
  {
    && PlannedFor(tables, m, p, row) && AsksTtl(tables, p) && row.taskType == "TTL_DELETE"
    && row.params.Keys == {"ttl_days", "policy_name"}
    && row.params["ttl_days"] == Number(tables.policies[p].ttlDays.value)
    && row.idempotencyKey == Some(PolicyKey(tables, p, "TTL_DELETE", DayBucket(m.now)))
  }

  predicate CompactionRow(tables: Tables, m: Moment, p: nat, row: Task)
    requires m.now.Proper()
  {
    && PlannedFor(tables, m, p, row) && AsksCompaction(tables, p) && row.taskType == "COMPACTION"
    && row.params.Keys == {"policy_name"}
    && row.idempotencyKey == Some(PolicyKey(tables, p, "COMPACTION", DayBucket(m.now)))
  }

  predicate CronRow(tables: Tables, m: Moment, p: nat, row: Task)
    requires m.now.Proper()
  {
    && PlannedFor(tables, m, p, row) && AsksOptimize(tables, p) && row.taskType == "INDEX_OPTIMIZE"
    && row.params.Keys == {"cron", "policy_name"}
    && row.params["cron"] == Text(tables.policies[p].indexOptimizeCron)
    && row.idempotencyKey == Some(PolicyKey(tables, p, "INDEX_OPTIMIZE", HourBucket(m.now)))
  }

  predicate DeltaRow(tables: Tables, m: Moment, p: nat, i: nat, row: Task)
    requires m.now.Proper()
  {
    && PlannedFor(tables, m, p, row) && AsksForIndex(tables, p, i) && row.taskType == "INDEX_OPTIMIZE"
    && row.params.Keys == {"index_name", "policy_name", "trigger", "delta_count"}
    && row.params["index_name"] == Text(tables.indexes[i].indexName)
    && row.params["trigger"] == Text("delta_threshold")
    && row.params["delta_count"] == Number(tables.indexes[i].deltaCount)
    && row.idempotencyKey == Some(IndexKey(tables, p, i, m.now))
  }

  predicate RuleRow(tables: Tables, m: Moment, p: nat, r: nat, row: Task)
    requires m.now.Proper()
  {
    && PlannedFor(tables, m, p, row) && AsksVectorize(tables, p, r) && row.taskType == "VECTORIZE"
    && row.params.Keys == {"target_column", "model_name", "rule_id", "policy_name"}
    && row.params["target_column"] == Text(tables.rules[r].targetColumn)
    && row.params["model_name"] == Text(tables.rules[r].modelName) && row.params["rule_id"] == Number(r)
    && row.idempotencyKey == Some(PolicyKey(tables, p, "VECTORIZE", HourBucket(m.now)))
  }

  /** The row is one that somebody asked for. */
  ghost predicate AskedFor(tables: Tables, m: Moment, row: Task)
    requires m.now.Proper()
  {
    match row.taskType
    case "TTL_DELETE" => exists p :: TtlRow(tables, m, p, row)
    case "COMPACTION" => exists p :: CompactionRow(tables, m, p, row)
    case "INDEX_OPTIMIZE" =>
      (exists p :: CronRow(tables, m, p, row)) || (exists p, i :: DeltaRow(tables, m, p, i, row))
    case "VECTORIZE" => exists p, r :: RuleRow(tables, m, p, r, row)
    case _ => false
  }

  lemma SourceAsked(tables: Tables, m: Moment, s: Source)
    requires m.now.Proper() && IsDue(tables, s)
    ensures AskedFor(tables, m, TaskOf(tables, s, m.now, m.stamp))
  {
    var row := TaskOf(tables, s, m.now, m.stamp);
    match s
    case Ttl(p) => assert TtlRow(tables, m, p, row);
    case Compaction(p) => assert CompactionRow(tables, m, p, row);
    case Cron(p) => assert CronRow(tables, m, p, row);
    case HotIndex(p, i) => assert DeltaRow(tables, m, p, i, row);
    case Vectorize(p, r) => assert RuleRow(tables, m, p, r, row);
  }

  /** Every row a tick adds is of one of the four kinds, was asked for by a policy of its dataset, and carries what
      was asked for. */
  lemma TickRowsAskedFor(tables: Tables, m: Moment, tasks: map<string, Task>, order: seq<Source>, after: Progress,
                         u: string)
    requires Ticked(tables, m, Progress(tasks, [], 0), order, Due(tables), after) && NewIds(tables, tasks, m)
    requires u in after.tasks && u !in tasks
    ensures AskedFor(tables, m, after.tasks[u])
  {
    PlannedForItsTenant(tables, m, tasks, order, after, u);
    var s :| IsDue(tables, s) && after.tasks[u] == TaskOf(tables, s, m.now, m.stamp);
    SourceAsked(tables, m, s);
  }

  // ---- The keys of an hour ----

  /** Somebody asks for a task under this key in this hour. */
  ghost predicate KeyAskedFor(tables: Tables, now: Time, key: string)
    requires now.Proper()
  {
    || (exists p :: AsksTtl(tables, p) && key == PolicyKey(tables, p, "TTL_DELETE", DayBucket(now)))
    || (exists p :: AsksCompaction(tables, p) && key == PolicyKey(tables, p, "COMPACTION", DayBucket(now)))
    || (exists p :: AsksOptimize(tables, p) && key == PolicyKey(tables, p, "INDEX_OPTIMIZE", HourBucket(now)))
    || (exists p, i :: AsksForIndex(tables, p, i) && key == IndexKey(tables, p, i, now))
    || (exists p, r :: AsksVectorize(tables, p, r) && key == PolicyKey(tables, p, "VECTORIZE", HourBucket(now)))
  }

  lemma DueKeyAsked(tables: Tables, now: Time, s: Source)
    requires now.Proper() && IsDue(tables, s)
    ensures KeyAskedFor(tables, now, KeyOf(tables, s, now))
  {
    var key := KeyOf(tables, s, now);
    match s
    case Ttl(p) => assert AsksTtl(tables, p);
    case Compaction(p) => assert AsksCompaction(tables, p);
    case Cron(p) => assert AsksOptimize(tables, p);
    case HotIndex(p, i) => assert AsksForIndex(tables, p, i) && key == IndexKey(tables, p, i, now);
    case Vectorize(p, r) => assert AsksVectorize(tables, p, r);
  }

  lemma AskedSource(tables: Tables, now: Time, key: string) returns (s: Source)
    requires now.Proper() && KeyAskedFor(tables, now, key)
    ensures IsDue(tables, s) && KeyOf(tables, s, now) == key
  {
    if p :| AsksTtl(tables, p) && key == PolicyKey(tables, p, "TTL_DELETE", DayBucket(now)) {
      s := Ttl(p);
    } else if p :| AsksCompaction(tables, p) && key == PolicyKey(tables, p, "COMPACTION", DayBucket(now)) {
      s := Compaction(p);
    } else if p :| AsksOptimize(tables, p) && key == PolicyKey(tables, p, "INDEX_OPTIMIZE", HourBucket(now)) {
      s := Cron(p);
    } else if p, i :| AsksForIndex(tables, p, i) && key == IndexKey(tables, p, i, now) {
      s := HotIndex(p, i);
    } else {
      var p, r :| AsksVectorize(tables, p, r) && key == PolicyKey(tables, p, "VECTORIZE", HourBucket(now));
      s := Vectorize(p, r);
    }
  }

  /** A key is due in an hour exactly when the columns ask for it. */
  lemma DueKeyIffAsked(tables: Tables, now: Time, key: string)
    requires now.Proper()
    ensures key in DueKeys(tables, now) <==> KeyAskedFor(tables, now, key)
  {
    if key in DueKeys(tables, now) {
      var s :| s in Due(tables) && IsDue(tables, s) && KeyOf(tables, s, now) == key;
      DueKeyAsked(tables, now, s);
    }
    if KeyAskedFor(tables, now, key) {
      var s := AskedSource(tables, now, key);
      DueIff(tables, s);
    }
  }

  /** After any run of ticks among other calls a row holds the key exactly when one did at the start, a submission
      brought it, or somebody asked for it in an hour in which the planner ticked. */
  lemma HeldAfterRunIff(tables: Tables, db: Db, run: seq<PlannerEvent>, key: string)
    requires Runs(tables, db, run)
    ensures (exists u | u in End(tables, db, run).tasks :: End(tables, db, run).tasks[u].idempotencyKey == Some(key))
            <==> || (exists u | u in db.tasks :: db.tasks[u].idempotencyKey == Some(key))
                 || (exists e | e in run :: e.Tick? && e.m.now.Proper() && KeyAskedFor(tables, e.m.now, key))
                 || (exists e | e in run :: e.Between? && e.call.SubmitCall? &&
                                            ScopedKey(e.call.p, e.call.request.idempotencyKey) == Some(key))
  {
    RunKeys(tables, db, run);
    HeldIffIn(db.tasks, key);
    HeldIffIn(End(tables, db, run).tasks, key);
    forall e | e in run
      ensures key in KeysOf(tables, e)
              <==> || (e.Tick? && e.m.now.Proper() && KeyAskedFor(tables, e.m.now, key))
                   || (e.Between? && e.call.SubmitCall? &&
                       ScopedKey(e.call.p, e.call.request.idempotencyKey) == Some(key))
    {
      if e.Tick? && e.m.now.Proper() {
        DueKeyIffAsked(tables, e.m.now, key);
      }
    }
  }

  lemma HeldIffIn(tasks: map<string, Task>, key: string)
    ensures key in KeysIn(tasks) <==> exists u | u in tasks :: tasks[u].idempotencyKey == Some(key)
  {
  }
}
