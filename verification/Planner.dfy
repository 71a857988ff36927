/** lcp.services.lifecycle_planner_service: one tick turns every enabled policy into the tasks that are
    due, under keys that name the day or the hour. */
module Planner {
  import opened Database
  import opened Dispatch
  import opened Keys

  const DELTA_THRESHOLD := 10

  /** The tables a tick reads and does not change. */
  datatype Tables = Tables(policies: map<nat, Policy>, rules: map<nat, Rule>, indexes: map<nat, Index>,
                           datasets: map<string, Dataset>)

  function TablesOf(session: Session): Tables
    reads session`policies, session`rules, session`indexes, session`datasets
  {
    Tables(session.policies, session.rules, session.indexes, session.datasets)
  }

  /** What makes a task due: one of a policy's own settings, an index with many deltas, or a rule. */
  datatype Source =
    | Ttl(policy: nat)
    | Compaction(policy: nat)
    | Cron(policy: nat)
    | HotIndex(policy: nat, index: nat)
    | Vectorize(policy: nat, rule: nat)

  /** The policy is scanned: enabled, and its dataset still exists. */
  predicate Scanned(tables: Tables, policy: nat) {
    policy in tables.policies && tables.policies[policy].enabled
      && tables.policies[policy].datasetUuid in tables.datasets
  }

  predicate IsDue(tables: Tables, s: Source) {
    Scanned(tables, s.policy) &&
    var p := tables.policies[s.policy];
    match s
    case Ttl(_) => p.ttlDays.Some?
    case Compaction(_) => p.hasCompactionThreshold
    case Cron(_) => p.indexOptimizeCron != ""
    case HotIndex(_, i) =>
      && p.indexOptimizeCron == "" && i in tables.indexes && tables.indexes[i].datasetUuid == p.datasetUuid
      && tables.indexes[i].status == READY && tables.indexes[i].deltaCount >= DELTA_THRESHOLD
    case Vectorize(_, r) =>
      r in tables.rules && tables.rules[r].datasetUuid == p.datasetUuid && tables.rules[r].enabled
  }

  function HotSources(tables: Tables, p: nat): set<Source> {
    set i | i in tables.indexes && IsDue(tables, HotIndex(p, i)) :: HotIndex(p, i)
  }

  function RuleSources(tables: Tables, p: nat): set<Source> {
    set r | r in tables.rules && IsDue(tables, Vectorize(p, r)) :: Vectorize(p, r)
  }

  function OneIf(tables: Tables, s: Source): set<Source> {
    if IsDue(tables, s) then {s} else {}
  }

  function SettingSources(tables: Tables, p: nat): set<Source> {
    OneIf(tables, Ttl(p)) + OneIf(tables, Compaction(p)) + OneIf(tables, Cron(p))
  }

  function DueOf(tables: Tables, p: nat): set<Source> {
    SettingSources(tables, p) + HotSources(tables, p) + RuleSources(tables, p)
  }

  /** Everything due; the clock does not matter here, only for the keys. */
  function Due(tables: Tables): set<Source> {
    DueAmong(tables, tables.policies.Keys)
  }

  function TypeOf(s: Source): string {
    match s
    case Ttl(_) => "TTL_DELETE"
    case Compaction(_) => "COMPACTION"
    case Cron(_) => "INDEX_OPTIMIZE"
    case HotIndex(_, _) => "INDEX_OPTIMIZE"
    case Vectorize(_, _) => "VECTORIZE"
  }

  function KeyOf(tables: Tables, s: Source, now: Time): string
    requires IsDue(tables, s) && now.Proper()
  {
    var dataset := tables.policies[s.policy].datasetUuid;
    var tenant := tables.datasets[dataset].tenantId;
    match s
    case Ttl(p) => LifecycleKey(tenant, p, TypeOf(s), DayBucket(now))
    case Compaction(p) => LifecycleKey(tenant, p, TypeOf(s), DayBucket(now))
    case Cron(p) => LifecycleKey(tenant, p, TypeOf(s), HourBucket(now))
    case HotIndex(_, i) => AutoOptimizeKey(tenant, dataset, tables.indexes[i].indexName, HourBucket(now))
    case Vectorize(p, _) => LifecycleKey(tenant, p, TypeOf(s), HourBucket(now))
  }

  function ParamsOf(tables: Tables, s: Source): map<string, Param>
    requires IsDue(tables, s)
  {
    var p := tables.policies[s.policy];
    var own := match s
      case Ttl(_) => map["ttl_days" := Number(p.ttlDays.value)]
      case Compaction(_) => map[]
      case Cron(_) => map["cron" := Text(p.indexOptimizeCron)]
      case HotIndex(_, i) =>
        map["index_name" := Text(tables.indexes[i].indexName), "trigger" := Text("delta_threshold"),
            "delta_count" := Number(tables.indexes[i].deltaCount)]
      case Vectorize(_, r) =>
        map["target_column" := Text(tables.rules[r].targetColumn), "model_name" := Text(tables.rules[r].modelName),
            "rule_id" := Number(r)];
    own["policy_name" := Text(p.policyName)]
  }

  /** A planned task carries its dataset's tenant. */
  function TaskOf(tables: Tables, s: Source, now: Time, stamp: int): Task
    requires IsDue(tables, s) && now.Proper()
  {
    var dataset := tables.policies[s.policy].datasetUuid;
    Task(TypeOf(s), dataset, tables.datasets[dataset].tenantId, PENDING, 5, 0, 3, None, Some(KeyOf(tables, s, now)),
         ParamsOf(tables, s), None, None, None, None, None, stamp)
  }

  // ---- A tick ----

  /** The clock and the ids a tick hands out. */
  datatype Moment = Moment(now: Time, stamp: int, newId: Source -> string)

  /** One insert a tick attempts. */
  datatype Job = Job(key: string, uuid: string, task: Task)

  function JobOf(tables: Tables, s: Source, m: Moment): Job
    requires IsDue(tables, s) && m.now.Proper()
  {
    Job(KeyOf(tables, s, m.now), m.newId(s), TaskOf(tables, s, m.now, m.stamp))
  }

  predicate AllDue(tables: Tables, order: seq<Source>) {
    forall s | s in order :: IsDue(tables, s)
  }

  function JobsOf(tables: Tables, order: seq<Source>, m: Moment): (jobs: seq<Job>)
    requires AllDue(tables, order) && m.now.Proper()
    ensures |jobs| == |order|
  {
    seq(|order|, i requires 0 <= i < |order| => assert order[i] in order; JobOf(tables, order[i], m))
  }

  /** What a tick has done so far. */
  datatype Progress = Progress(tasks: map<string, Task>, emitted: seq<string>, skipped: nat)

  function TryEmit(before: Progress, job: Job): Progress {
    if Holders(before.tasks, Some(job.key)) != {} then before.(skipped := before.skipped + 1)
    else Progress(before.tasks[job.uuid := job.task], before.emitted + [job.uuid], before.skipped)
  }

  function RunJobs(before: Progress, jobs: seq<Job>): Progress {
    if jobs == [] then before else TryEmit(RunJobs(before, jobs[..|jobs| - 1]), jobs[|jobs| - 1])
  }

  lemma {:induction false} RunJobsConcat(before: Progress, a: seq<Job>, b: seq<Job>)
    ensures RunJobs(before, a + b) == RunJobs(RunJobs(before, a), b)
  {
    if b == [] {
      assert a + b == a;
    } else {
      RunJobsConcat(before, a, b[..|b| - 1]);
      assert (a + b)[..|a + b| - 1] == a + b[..|b| - 1];
    }
  }

  /** Every insert a tick attempts is counted, as emitted or as skipped. */
  lemma {:induction false} JobsCounted(before: Progress, jobs: seq<Job>)
    ensures var after := RunJobs(before, jobs);
            |after.emitted| + after.skipped == |before.emitted| + before.skipped + |jobs|
  {
    if jobs != [] {
      JobsCounted(before, jobs[..|jobs| - 1]);
    }
  }

  /** `order` goes through `due` once. */
  ghost predicate Covers(order: seq<Source>, due: set<Source>) {
    && (forall s :: s in order <==> s in due)
    && |order| == |due|
  }

  lemma CoversConcat(a: seq<Source>, x: set<Source>, b: seq<Source>, y: set<Source>)
    requires Covers(a, x) && Covers(b, y) && x !! y
    ensures Covers(a + b, x + y)
  {
    assert |x + y| == |x| + |y|;
  }

  /** A tick over all of `due` in the order `order` comes from `before` to `after`. */
  ghost predicate Ticked(tables: Tables, m: Moment, before: Progress, order: seq<Source>, due: set<Source>,
                         after: Progress) {
    && m.now.Proper() && AllDue(tables, order) && Covers(order, due)
    && after == RunJobs(before, JobsOf(tables, order, m))
  }

  lemma TickedConcat(tables: Tables, m: Moment, p: Progress, a: seq<Source>, x: set<Source>, q: Progress,
                     b: seq<Source>, y: set<Source>, r: Progress)
    requires Ticked(tables, m, p, a, x, q) && Ticked(tables, m, q, b, y, r) && x !! y
    ensures Ticked(tables, m, p, a + b, x + y, r)
  {
    CoversConcat(a, x, b, y);
    JobsConcat(tables, a, b, m);
    RunJobsConcat(p, JobsOf(tables, a, m), JobsOf(tables, b, m));
  }

  lemma JobsConcat(tables: Tables, a: seq<Source>, b: seq<Source>, m: Moment)
    requires AllDue(tables, a) && AllDue(tables, b) && m.now.Proper()
    ensures AllDue(tables, a + b) && JobsOf(tables, a + b, m) == JobsOf(tables, a, m) + JobsOf(tables, b, m)
  {
  }

  /** The result of plan_once. */
  datatype PlannerTick = PlannerTick(scannedPolicies: nat, emittedTasks: seq<string>, skippedDuplicates: nat)

  /** _try_emit_task and its twin in the delta-threshold loop. */
  method TryEmitTask(session: Session, job: Job, emitted: seq<string>, skipped: nat)
    returns (emitted': seq<string>, skipped': nat)
    modifies session`tasks
    ensures Progress(session.tasks, emitted', skipped') == TryEmit(Progress(old(session.tasks), emitted, skipped), job)
  {
    if Holders(session.tasks, Some(job.key)) != {} {
      return emitted, skipped + 1;
    }
    session.tasks := session.tasks[job.uuid := job.task];
    emitted', skipped' := emitted + [job.uuid], skipped;
  }

  method EmitEach(session: Session, jobs: seq<Job>, emitted: seq<string>, skipped: nat)
    returns (emitted': seq<string>, skipped': nat)
    modifies session`tasks
    ensures Progress(session.tasks, emitted', skipped') == RunJobs(Progress(old(session.tasks), emitted, skipped), jobs)
  {
    emitted', skipped' := emitted, skipped;
    ghost var before := Progress(session.tasks, emitted, skipped);
    for i := 0 to |jobs|
      invariant Progress(session.tasks, emitted', skipped') == RunJobs(before, jobs[..i])
    {
      assert jobs[..i + 1][..i] == jobs[..i];
      emitted', skipped' := TryEmitTask(session, jobs[i], emitted', skipped');
    }
    assert jobs[..|jobs|] == jobs;
  }

  /** The rows of a query, in whatever order the database returns them. */
  method Listed(rows: set<Source>) returns (listed: seq<Source>)
    ensures Covers(listed, rows)
  {
    listed := [];
    var todo := rows;
    while todo != {}
      invariant todo <= rows && Covers(listed, rows - todo)
    {
      var s :| s in todo;
      assert rows - (todo - {s}) == (rows - todo) + {s};
      listed, todo := listed + [s], todo - {s};
    }
    assert rows - todo == rows;
  }

  function ListIf(tables: Tables, s: Source): seq<Source> {
    if IsDue(tables, s) then [s] else []
  }

  /** The settings of a policy that are due by themselves, in the order the code asks them. */
  function Settings(tables: Tables, p: nat): (order: seq<Source>)
    ensures AllDue(tables, order)
  {
    ListIf(tables, Ttl(p)) + ListIf(tables, Compaction(p)) + ListIf(tables, Cron(p))
  }

  lemma SettingsCover(tables: Tables, p: nat)
    ensures Covers(Settings(tables, p), SettingSources(tables, p))
  {
    var ttl, compaction, cron := Ttl(p), Compaction(p), Cron(p);
    CoversConcat(ListIf(tables, ttl), OneIf(tables, ttl), ListIf(tables, compaction), OneIf(tables, compaction));
    CoversConcat(ListIf(tables, ttl) + ListIf(tables, compaction), OneIf(tables, ttl) + OneIf(tables, compaction),
                 ListIf(tables, cron), OneIf(tables, cron));
  }

  /** The part of _plan_for_policy that looks at the policy row alone. */
  method PlanSettings(session: Session, p: nat, m: Moment, emitted: seq<string>, skipped: nat)
    returns (emitted': seq<string>, skipped': nat)
    requires Scanned(TablesOf(session), p) && m.now.Proper()
    modifies session`tasks
    ensures Progress(session.tasks, emitted', skipped')
            == RunJobs(Progress(old(session.tasks), emitted, skipped),
                       JobsOf(TablesOf(session), Settings(TablesOf(session), p), m))
  {
    var tables := TablesOf(session);
    var policy := session.policies[p];
    var due: seq<Source> := [];
    if policy.ttlDays.Some? {
      due := due + [Ttl(p)];
    }
    if policy.hasCompactionThreshold {
      due := due + [Compaction(p)];
    }
    if policy.indexOptimizeCron != "" {
      due := due + [Cron(p)];
    }
    assert due == Settings(tables, p);
    emitted', skipped' := EmitEach(session, JobsOf(tables, due, m), emitted, skipped);
  }

  /** The three parts of a policy make up its tick. */
  lemma PolicyTicked(tables: Tables, m: Moment, p: nat, hot: seq<Source>, rules: seq<Source>,
                     p0: Progress, p1: Progress, p2: Progress, p3: Progress)
    requires m.now.Proper() && Covers(hot, HotSources(tables, p)) && Covers(rules, RuleSources(tables, p))
    requires AllDue(tables, hot) && AllDue(tables, rules)
    requires p1 == RunJobs(p0, JobsOf(tables, Settings(tables, p), m))
    requires p2 == RunJobs(p1, JobsOf(tables, hot, m)) && p3 == RunJobs(p2, JobsOf(tables, rules, m))
    ensures Ticked(tables, m, p0, Settings(tables, p) + hot + rules, DueOf(tables, p), p3)
  {
    var settings, sources := Settings(tables, p), SettingSources(tables, p);
    SettingsCover(tables, p);
    DisjointSources(tables, p);
    TickedConcat(tables, m, p0, settings, sources, p1, hot, HotSources(tables, p), p2);
    TickedConcat(tables, m, p0, settings + hot, sources + HotSources(tables, p), p2, rules, RuleSources(tables, p), p3);
  }

  lemma DisjointSources(tables: Tables, p: nat)
    ensures SettingSources(tables, p) !! HotSources(tables, p)
    ensures SettingSources(tables, p) + HotSources(tables, p) !! RuleSources(tables, p)
    ensures forall s | s in HotSources(tables, p) + RuleSources(tables, p) :: IsDue(tables, s)
  {
  }

  /** _plan_for_policy. */
  method PlanForPolicy(session: Session, p: nat, m: Moment, emitted: seq<string>, skipped: nat)
    returns (emitted': seq<string>, skipped': nat, ghost order: seq<Source>)
    requires Scanned(TablesOf(session), p) && m.now.Proper()
    modifies session`tasks
    ensures Ticked(TablesOf(session), m, Progress(old(session.tasks), emitted, skipped), order,
                   DueOf(TablesOf(session), p), Progress(session.tasks, emitted', skipped'))
  {
    var tables := TablesOf(session);
    DisjointSources(tables, p);
    ghost var p0 := Progress(session.tasks, emitted, skipped);
    emitted', skipped' := PlanSettings(session, p, m, emitted, skipped);
    ghost var p1 := Progress(session.tasks, emitted', skipped');
    var hot := Listed(HotSources(tables, p));
    emitted', skipped' := EmitEach(session, JobsOf(tables, hot, m), emitted', skipped');
    ghost var p2 := Progress(session.tasks, emitted', skipped');
    var rules := Listed(RuleSources(tables, p));
    emitted', skipped' := EmitEach(session, JobsOf(tables, rules, m), emitted', skipped');
    PolicyTicked(tables, m, p, hot, rules, p0, p1, p2, Progress(session.tasks, emitted', skipped'));
    order := Settings(tables, p) + hot + rules;
  }

  lemma TickCounted(tables: Tables, m: Moment, order: seq<Source>, after: Progress, start: Progress)
    requires Ticked(tables, m, start, order, Due(tables), after) && start.emitted == [] && start.skipped == 0
    ensures after.emitted == [] && after.skipped == 0 <==> Due(tables) == {}
  {
    JobsCounted(start, JobsOf(tables, order, m));
    assert |after.emitted| + after.skipped == |Due(tables)|;
  }

  /** The loop of plan_once has gone through the policies in `done`. */
  ghost predicate Planned(tables: Tables, m: Moment, start: Progress, order: seq<Source>, done: set<nat>,
                          progress: Progress, stamped: map<nat, int>) {
    && Ticked(tables, m, start, order, DueAmong(tables, done), progress)
    && stamped == StampsAmong(tables, done, m.stamp)
  }

  lemma NothingPlanned(tables: Tables, m: Moment, start: Progress)
    requires m.now.Proper()
    ensures Planned(tables, m, start, [], {}, start, map[])
  {
    assert JobsOf(tables, [], m) == [];
  }

  lemma PolicyPlanned(tables: Tables, m: Moment, start: Progress, order: seq<Source>, done: set<nat>, sofar: Progress,
                      stamped: map<nat, int>, p: nat, mine: seq<Source>, after: Progress)
    requires Planned(tables, m, start, order, done, sofar, stamped) && p !in done && Scanned(tables, p)
    requires Ticked(tables, m, sofar, mine, DueOf(tables, p), after)
    ensures Planned(tables, m, start, order + mine, done + {p}, after, stamped[p := m.stamp])
  {
    DueAmongMore(tables, done, p);
    TickedConcat(tables, m, start, order, DueAmong(tables, done), sofar, mine, DueOf(tables, p), after);
    MoreStamps(tables, done, p, m.stamp);
  }

  lemma MoreStamps(tables: Tables, done: set<nat>, p: nat, stamp: int)
    requires p !in done && Scanned(tables, p)
    ensures StampsAmong(tables, done + {p}, stamp) == StampsAmong(tables, done, stamp)[p := stamp]
  {
  }

  lemma OrphanPlanned(tables: Tables, m: Moment, start: Progress, order: seq<Source>, done: set<nat>, sofar: Progress,
                      stamped: map<nat, int>, p: nat)
    requires Planned(tables, m, start, order, done, sofar, stamped) && p !in done && !Scanned(tables, p)
    ensures Planned(tables, m, start, order, done + {p}, sofar, stamped)
  {
    OrphanAddsNothing(tables, done, p, m.stamp);
  }

  lemma OrphanAddsNothing(tables: Tables, done: set<nat>, p: nat, stamp: int)
    requires p !in done && !Scanned(tables, p)
    ensures DueAmong(tables, done + {p}) == DueAmong(tables, done)
    ensures StampsAmong(tables, done + {p}, stamp) == StampsAmong(tables, done, stamp)
  {
    DueAmongMore(tables, done, p);
  }

  lemma AllPlanned(tables: Tables, m: Moment, start: Progress, order: seq<Source>, done: set<nat>, sofar: Progress,
                   stamped: map<nat, int>)
    requires Planned(tables, m, start, order, done, sofar, stamped)
    requires done == EnabledIn(tables.policies)
    requires start.emitted == [] && start.skipped == 0
    ensures WholeTick(tables, m, start, order, sofar, stamped)
  {
    DueAmongAll(tables, done);
    TickCounted(tables, m, order, sofar, start);
  }

  /** A finished tick: everything due was attempted, every scanned policy has its stamp, and the counters
      are both zero exactly when nothing was due. */
  ghost predicate WholeTick(tables: Tables, m: Moment, start: Progress, order: seq<Source>, end: Progress,
                            stamped: map<nat, int>) {
    && Ticked(tables, m, start, order, Due(tables), end) && stamped == Stamps(tables, m.stamp)
    && (end.emitted == [] && end.skipped == 0 <==> Due(tables) == {})
  }

  function EnabledIn(policies: map<nat, Policy>): set<nat> {
    set p | p in policies && policies[p].enabled
  }

  /** One round of the loop of plan_once; a policy whose dataset is gone is passed over. */
  method PlanNext(session: Session, m: Moment, p: nat, emitted: seq<string>, skipped: nat, stamped: map<nat, int>,
                  ghost start: Progress, ghost order: seq<Source>, ghost done: set<nat>)
    returns (emitted': seq<string>, skipped': nat, stamped': map<nat, int>, ghost order': seq<Source>)
    requires Planned(TablesOf(session), m, start, order, done, Progress(session.tasks, emitted, skipped), stamped)
    requires p in EnabledIn(session.policies) - done
    modifies session`tasks
    ensures Planned(TablesOf(session), m, start, order', done + {p}, Progress(session.tasks, emitted', skipped'),
                    stamped')
  {
    ghost var tables, sofar := TablesOf(session), Progress(session.tasks, emitted, skipped);
    emitted', skipped', stamped', order' := emitted, skipped, stamped, order;
    if session.policies[p].datasetUuid in session.datasets {
      ghost var mine;
      emitted', skipped', mine := PlanForPolicy(session, p, m, emitted, skipped);
      PolicyPlanned(tables, m, start, order, done, sofar, stamped, p, mine,
                    Progress(session.tasks, emitted', skipped'));
      stamped', order' := stamped[p := m.stamp], order + mine;
    } else {
      OrphanPlanned(tables, m, start, order, done, sofar, stamped, p);
    }
  }

  /** The loop of plan_once over the enabled policies. */
  method PlanPolicies(session: Session, m: Moment, policies: set<nat>)
    returns (emitted: seq<string>, skipped: nat, stamped: map<nat, int>, ghost order: seq<Source>)
    requires policies == EnabledIn(session.policies) && m.now.Proper()
    modifies session`tasks
    ensures WholeTick(TablesOf(session), m, Progress(old(session.tasks), [], 0), order,
                      Progress(session.tasks, emitted, skipped), stamped)
  {
    ghost var start := Progress(session.tasks, [], 0);
    var todo := policies;
    emitted, skipped, stamped, order := [], 0, map[], [];
    NothingPlanned(TablesOf(session), m, start);
    ghost var done: set<nat> := {};
    while todo != {}
      invariant todo <= policies && done == policies - todo
      invariant Planned(TablesOf(session), m, start, order, done, Progress(session.tasks, emitted, skipped), stamped)
    {
      var p :| p in todo;
      emitted, skipped, stamped, order := PlanNext(session, m, p, emitted, skipped, stamped, start, order, done);
      todo, done := todo - {p}, done + {p};
    }
    AllPlanned(TablesOf(session), m, start, order, done, Progress(session.tasks, emitted, skipped), stamped);
  }

  /** The stamps have changed for the enabled policies with a dataset, and for nobody else. */
  ghost predicate StampedOnly(policies: map<nat, Policy>, datasets: map<string, Dataset>, before: map<nat, int>,
                              after: map<nat, int>, stamp: int) {
    forall p ::
      if p in policies && policies[p].enabled && policies[p].datasetUuid in datasets then
        p in after && after[p] == stamp
      else if p in before then p in after && after[p] == before[p]
      else p !in after
  }

  lemma StampsStampOnly(tables: Tables, before: map<nat, int>, stamp: int)
    ensures StampedOnly(tables.policies, tables.datasets, before, before + Stamps(tables, stamp), stamp)
  {
  }

  /** plan_once.  `order` is the order in which the rows came. */
  method PlanOnce(session: Session, m: Moment) returns (tick: PlannerTick, ghost order: seq<Source>)
    requires m.now.Proper()
    modifies session`tasks, session`lastRunAt
    ensures Ticked(TablesOf(session), m, Progress(old(session.tasks), [], 0), order, Due(TablesOf(session)),
                   Progress(session.tasks, tick.emittedTasks, tick.skippedDuplicates))
    ensures session.lastRunAt == if Due(TablesOf(session)) == {} then old(session.lastRunAt)
                                 else old(session.lastRunAt) + Stamps(TablesOf(session), m.stamp)
    ensures tick.scannedPolicies == |EnabledIn(session.policies)|
    // A policy is stamped when the tick did anything at all, it is enabled and its dataset is there.
    ensures tick.emittedTasks == [] && tick.skippedDuplicates == 0 ==> session.lastRunAt == old(session.lastRunAt)
    ensures tick.emittedTasks != [] || tick.skippedDuplicates > 0 ==>
              StampedOnly(session.policies, session.datasets, old(session.lastRunAt), session.lastRunAt, m.stamp)
  {
    var policies := EnabledIn(session.policies);
    var emitted, skipped, stamped;
    emitted, skipped, stamped, order := PlanPolicies(session, m, policies);
    StampsStampOnly(TablesOf(session), session.lastRunAt, m.stamp);
    if emitted != [] || skipped != 0 {
      // Only now are the last_run_at stamps committed together with the tasks.
      session.lastRunAt := session.lastRunAt + stamped;
    }
    tick := PlannerTick(|policies|, emitted, skipped);
  }

  /** The last_run_at values a tick sets. */
  function Stamps(tables: Tables, stamp: int): map<nat, int> {
    map p | p in tables.policies && Scanned(tables, p) :: stamp
  }

  ghost function StampsAmong(tables: Tables, ps: set<nat>, stamp: int): map<nat, int> {
    map p | p in ps && Scanned(tables, p) :: stamp
  }

  function DueAmong(tables: Tables, ps: set<nat>): set<Source> {
    set p, s | p in ps && s in DueOf(tables, p) :: s
  }

  lemma DueOfIff(tables: Tables, p: nat, s: Source)
    ensures s in DueOf(tables, p) <==> s.policy == p && IsDue(tables, s)
  {
    assert s in SettingSources(tables, p)
           <==> s.policy == p && IsDue(tables, s) && (s.Ttl? || s.Compaction? || s.Cron?);
    assert s in HotSources(tables, p) <==> s.policy == p && IsDue(tables, s) && s.HotIndex?;
    assert s in RuleSources(tables, p) <==> s.policy == p && IsDue(tables, s) && s.Vectorize?;
  }

  lemma DueAmongIff(tables: Tables, ps: set<nat>, s: Source)
    ensures s in DueAmong(tables, ps) <==> s.policy in ps && IsDue(tables, s)
  {
    DueOfIff(tables, s.policy, s);
    if s in DueAmong(tables, ps) {
      var p :| p in ps && s in DueOf(tables, p);
      DueOfIff(tables, p, s);
    }
  }

  lemma DueAmongMore(tables: Tables, ps: set<nat>, p: nat)
    requires p !in ps
    ensures DueAmong(tables, ps + {p}) == DueAmong(tables, ps) + DueOf(tables, p)
    ensures DueAmong(tables, ps) !! DueOf(tables, p)
    ensures !Scanned(tables, p) ==> DueOf(tables, p) == {}
  {
    var more, less, own := DueAmong(tables, ps + {p}), DueAmong(tables, ps), DueOf(tables, p);
    forall s
      ensures s in more <==> s in less || s in own
      ensures s in own ==> s !in less && Scanned(tables, p)
    {
      DueAmongIff(tables, ps + {p}, s);
      DueAmongIff(tables, ps, s);
      DueOfIff(tables, p, s);
    }
  }

  lemma DueAmongAll(tables: Tables, policies: set<nat>)
    requires policies == EnabledIn(tables.policies)
    ensures DueAmong(tables, policies) == Due(tables)
  {
    forall s ensures s in Due(tables) <==> s in DueAmong(tables, policies) {
      DueAmongIff(tables, policies, s);
      DueAmongIff(tables, tables.policies.Keys, s);
    }
  }
}
