/** lcp.services.index_watcher_service: the decision whether an index has drifted far enough, and the
    pass that applies it to every watched READY index. */
module IndexWatcher {
  import opened Database
  import opened Dispatch
  import opened IndexLifecycle
  import Keys

  // ---- The decision ----

  datatype Reason = NoReason | UnindexedRows | VersionDrift | StaleIndex {
    function Tag(): string {
      match this
      case NoReason => ""
      case UnindexedRows => "unindexed_rows"
      case VersionDrift => "version_drift"
      case StaleIndex => "stale"
    }
  }

  datatype Decision = Decision(reason: Reason, unindexedRows: Option<int>, versionDrift: int, staleFor: int)

  const MINUTE := 60_000_000    // clock readings are in microseconds

  function Drift(latest: int, seen: Option<int>): (d: int)
    ensures d >= 0
  {
    var from := if seen.Some? then seen.value else 0;
    if latest - from < 0 then 0 else latest - from
  }

  function DecideTrigger(unindexed: Option<int>, latest: int, seen: Option<int>, optimizedAt: Option<int>,
                         now: int, policy: Policy): Decision {
    var drift := Drift(latest, seen);
    var staleFor := if optimizedAt.None? then 0 else now - optimizedAt.value;
    var reason :=
      if unindexed.Some? && policy.minUnindexedRows.Some? && unindexed.value >= policy.minUnindexedRows.value
      then UnindexedRows
      else if policy.minVersionDrift.Some? && drift >= policy.minVersionDrift.value then VersionDrift
      else if policy.staleMinutes.Some? && optimizedAt.Some? && staleFor >= policy.staleMinutes.value * MINUTE
      then StaleIndex
      else NoReason;
    Decision(reason, unindexed, drift, staleFor)
  }

  /** `a` is at least as easy to cross as `b`; a threshold that is not set is never crossed. */
  predicate NoStricter(a: Option<int>, b: Option<int>) {
    b.Some? ==> a.Some? && a.value <= b.value
  }

  /** Triggering is monotone: more unindexed rows, a newer version, a later clock or laxer thresholds
      never turn a trigger off. */
  lemma TriggerMonotone(rows: Option<int>, latest: int, seen: Option<int>, at: Option<int>, now: int, policy: Policy,
                        rows': Option<int>, latest': int, now': int, policy': Policy)
    requires DecideTrigger(rows, latest, seen, at, now, policy).reason != NoReason
    requires rows.Some? ==> rows'.Some? && rows.value <= rows'.value
    requires latest <= latest' && now <= now'
    requires NoStricter(policy'.minUnindexedRows, policy.minUnindexedRows)
    requires NoStricter(policy'.minVersionDrift, policy.minVersionDrift)
    requires NoStricter(policy'.staleMinutes, policy.staleMinutes)
    ensures DecideTrigger(rows', latest', seen, at, now', policy').reason != NoReason
  {
  }

  // ---- When a threshold is crossed ----

  predicate RowsCrossed(policy: Policy, unindexed: Option<int>) {
    unindexed.Some? && policy.minUnindexedRows.Some? && unindexed.value >= policy.minUnindexedRows.value
  }

  /** The index is at least so many versions behind; an index never seen is behind version 0. */
  predicate DriftCrossed(policy: Policy, latest: int, seen: Option<int>) {
    policy.minVersionDrift.Some? &&
    var least := policy.minVersionDrift.value;
    least <= 0 || latest >= least + (if seen.None? then 0 else seen.value)
  }

  /** The last optimization is at least so many minutes ago, in a clock of microseconds. */
  predicate StaleCrossed(policy: Policy, at: Option<int>, now: int) {
    policy.staleMinutes.Some? && at.Some? && at.value + policy.staleMinutes.value * 60_000_000 <= now
  }

  /** The reason given is the first threshold crossed, rows before versions before age, by the name it has in the
      task; none is given exactly when none is crossed. */
  lemma ReasonIsFirstCrossed(rows: Option<int>, latest: int, seen: Option<int>, at: Option<int>, now: int,
                             policy: Policy)
    ensures var tag := DecideTrigger(rows, latest, seen, at, now, policy).reason.Tag();
            && (tag == "unindexed_rows" <==> RowsCrossed(policy, rows))
            && (tag == "version_drift" <==> !RowsCrossed(policy, rows) && DriftCrossed(policy, latest, seen))
            && (tag == "stale"
                <==> !RowsCrossed(policy, rows) && !DriftCrossed(policy, latest, seen) && StaleCrossed(policy, at, now))
            && (tag == "" <==> !RowsCrossed(policy, rows) && !DriftCrossed(policy, latest, seen)
                               && !StaleCrossed(policy, at, now))
    ensures DecideTrigger(rows, latest, seen, at, now, policy).reason == NoReason
            <==> !RowsCrossed(policy, rows) && !DriftCrossed(policy, latest, seen) && !StaleCrossed(policy, at, now)
  {
    TagsDiffer(DecideTrigger(rows, latest, seen, at, now, policy).reason);
  }

  lemma TagsDiffer(r: Reason)
    ensures r.Tag() == "unindexed_rows" <==> r.UnindexedRows?
    ensures r.Tag() == "version_drift" <==> r.VersionDrift?
    ensures r.Tag() == "stale" <==> r.StaleIndex?
    ensures r.Tag() == "" <==> r.NoReason?
  {
    assert |"unindexed_rows"| == 14 && |"version_drift"| == 13 && |"stale"| == 5;
  }

  // ---- One row of a pass ----

  /** What reading the live statistics of an index gives. */
  datatype Stats = Unreadable | Missing | Live(latest: nat, unindexed: Option<int>)

  datatype RowResult = NoIndexOnDisk | OpenFailed | BelowThreshold | Duplicate | Enqueued

  datatype RowOutcome = RowOutcome(fleet: Fleet, result: RowResult, key: string)

  /** An index paired with one of the policies that watch its dataset. */
  datatype Candidate = Candidate(index: nat, policy: nat)

  predicate IsCandidate(f: Fleet, policies: map<nat, Policy>, c: Candidate) {
    && c.index in f.indexes && f.indexes[c.index].status == READY && f.indexes[c.index].datasetUuid in f.datasets
    && c.policy in policies && policies[c.policy].enabled && policies[c.policy].watchEnabled
    && policies[c.policy].datasetUuid == f.indexes[c.index].datasetUuid
  }

  function Candidates(f: Fleet, policies: map<nat, Policy>): set<Candidate> {
    set i, p | i in f.indexes && p in policies && IsCandidate(f, policies, Candidate(i, p)) ::
      Candidate(i, p)
  }

  /** The candidate's index and policy are still there. */
  predicate Readable(f: Fleet, policies: map<nat, Policy>, c: Candidate) {
    c.index in f.indexes && f.indexes[c.index].datasetUuid in f.datasets && c.policy in policies
  }

  function WatchRow(f: Fleet, policies: map<nat, Policy>, c: Candidate, stats: Stats, uuid: string,
                    now: int): RowOutcome
    requires Readable(f, policies, c)
  {
    match stats
    case Unreadable => RowOutcome(f, OpenFailed, "")
    case Missing => RowOutcome(f, NoIndexOnDisk, "")
    case Live(latest, unindexed) =>
      var row := f.indexes[c.index];
      var reason := DecideTrigger(unindexed, latest, row.lastSeenVersion, row.lastOptimizedAt, now,
                                  policies[c.policy]).reason;
      if reason == NoReason then RowOutcome(f, BelowThreshold, "")
      else
        var key := Keys.WatcherKey(c.index, latest, reason.Tag());
        if Holders(f.db.tasks, Some(key)) != {} then RowOutcome(f, Duplicate, key)
        else RowOutcome(WatchEmit(f, c.index, latest, reason.Tag(), uuid, now), Enqueued, key)
  }

  // ---- A pass ----

  datatype Report = Report(scanned: nat, enqueued: nat, noDataset: nat, below: nat, openFailed: nat, duplicates: nat,
                           emittedKeys: seq<string>)

  function Tally(report: Report, o: RowOutcome): Report {
    var counted := report.(scanned := report.scanned + 1);
    match o.result
    case NoIndexOnDisk => counted.(noDataset := counted.noDataset + 1)
    case OpenFailed => counted.(openFailed := counted.openFailed + 1)
    case BelowThreshold => counted.(below := counted.below + 1)
    case Duplicate => counted.(duplicates := counted.duplicates + 1)
    case Enqueued => counted.(enqueued := counted.enqueued + 1, emittedKeys := counted.emittedKeys + [o.key])
  }

  datatype Pass = Pass(fleet: Fleet, report: Report)

  /** What lies outside the tables during a pass: the clock, the live statistics and fresh task ids. */
  datatype World = World(now: int, lance: Candidate -> Stats, newId: Candidate -> string)

  const EMPTY_REPORT := Report(0, 0, 0, 0, 0, 0, [])

  /** The pass over `rows` in that order. */
  function RunPass(f: Fleet, policies: map<nat, Policy>, rows: seq<Candidate>, world: World): (pass: Pass)
    requires forall c | c in rows :: Readable(f, policies, c)
    ensures pass.fleet.indexes.Keys == f.indexes.Keys && pass.fleet.datasets == f.datasets
    ensures forall id | id in f.indexes :: pass.fleet.indexes[id].datasetUuid == f.indexes[id].datasetUuid
  {
    if rows == [] then Pass(f, EMPTY_REPORT)
    else
      var sofar, c := RunPass(f, policies, rows[..|rows| - 1], world), rows[|rows| - 1];
      assert Readable(f, policies, rows[|rows| - 1]);
      var o := WatchRow(sofar.fleet, policies, c, world.lance(c), world.newId(c), world.now);
      Pass(o.fleet, Tally(sofar.report, o))
  }

  /** One round of the loop of run_watch_pass. */
  method WatchOne(session: Session, c: Candidate, world: World, sofar: Report) returns (report: Report)
    requires Readable(session.Committed(), session.policies, c)
    modifies session`indexes, session`tasks
    ensures var o := WatchRow(old(session.Committed()), session.policies, c, world.lance(c), world.newId(c), world.now);
            session.Committed() == o.fleet && report == Tally(sofar, o)
  {
    report := sofar.(scanned := sofar.scanned + 1);
    match world.lance(c) {
      case Unreadable => report := report.(openFailed := report.openFailed + 1);
      case Missing => report := report.(noDataset := report.noDataset + 1);
      case Live(latest, unindexed) =>
        var index := session.indexes[c.index];
        var decision := DecideTrigger(unindexed, latest, index.lastSeenVersion, index.lastOptimizedAt, world.now,
                                      session.policies[c.policy]);
        if decision.reason == NoReason {
          report := report.(below := report.below + 1);
          return;
        }
        var key := Keys.WatcherKey(c.index, latest, decision.reason.Tag());
        var emitted := TryEmitOptimizeTask(session, c.index, latest, decision.reason.Tag(), world.newId(c), world.now);
        if emitted {
          report := report.(enqueued := report.enqueued + 1, emittedKeys := report.emittedKeys + [key]);
        } else {
          report := report.(duplicates := report.duplicates + 1);
        }
    }
  }

  // ---- What a pass may touch, by the columns ----

  /** Some policy of the dataset is enabled and has opted in to being watched. */
  predicate OptedIn(policies: map<nat, Policy>, dataset: string) {
    exists p | p in policies ::
      policies[p].enabled && policies[p].watchEnabled && policies[p].datasetUuid == dataset
  }

  /** A pair of a READY index and a policy of its dataset, still there, that is enabled and opted in. */
  predicate WatchedPair(f: Fleet, policies: map<nat, Policy>, c: Candidate) {
    && c.index in f.indexes && c.policy in policies && f.indexes[c.index].status == READY
    && policies[c.policy].datasetUuid == f.indexes[c.index].datasetUuid
    && policies[c.policy].datasetUuid in f.datasets
    && policies[c.policy].enabled && policies[c.policy].watchEnabled
  }

  /** The index row after an emission. */
  predicate Flipped(before: Index, after: Index, now: int) {
    after == before.(status := OPTIMIZING, lastOptimizedAt := Some(now))
  }

  /** What the task says triggered it is crossed, and no earlier threshold is.  A second policy's row finds the
      index just flipped, so there an age of zero is enough. */
  predicate Justified(row: Index, policy: Policy, latest: nat, unindexed: Option<int>, now: int, reason: string) {
    var rows, drift := RowsCrossed(policy, unindexed), DriftCrossed(policy, latest, row.lastSeenVersion);
    var stale := StaleCrossed(policy, row.lastOptimizedAt, now) || StaleCrossed(policy, Some(now), now);
    || (reason == "unindexed_rows" && rows)
    || (reason == "version_drift" && drift && !rows)
    || (reason == "stale" && stale && !rows && !drift)
  }

  /** The task asks for an optimize of this very index, for a reason that holds. */
  predicate QueuedFor(f: Fleet, policies: map<nat, Policy>, c: Candidate, world: World, task: Task) {
    && WatchedPair(f, policies, c) && world.lance(c).Live?
    && var row := f.indexes[c.index];
    && task.taskType == "INDEX_OPTIMIZE" && task.datasetUuid == row.datasetUuid
    && task.tenantId == f.datasets[row.datasetUuid].tenantId
    && (task.status, task.priority, task.attempt, task.maxAttempts) == (PENDING, 5, 0, 3)
    && task.workerId.None? && task.createdAt == world.now
    && task.params.Keys == {"index_name", "trigger_reason", "lance_version"}
    && task.params["index_name"] == Text(row.indexName)
    && task.params["lance_version"] == Number(world.lance(c).latest) && task.params["trigger_reason"].Text?
    && var reason := task.params["trigger_reason"].text;
    && Justified(row, policies[c.policy], world.lance(c).latest, world.lance(c).unindexed, world.now, reason)
    && task.idempotencyKey == Some("watcher:" + Keys.Dec(c.index) + ":INDEX_OPTIMIZE:v"
                                   + Keys.Dec(world.lance(c).latest) + ":" + reason)
  }

  lemma CandidateIff(f: Fleet, policies: map<nat, Policy>, c: Candidate)
    ensures c in Candidates(f, policies) <==> WatchedPair(f, policies, c)
  {
  }

  lemma KeySpelled(id: nat, version: nat, reason: string)
    ensures Keys.WatcherKey(id, version, reason)
            == "watcher:" + Keys.Dec(id) + ":INDEX_OPTIMIZE:v" + Keys.Dec(version) + ":" + reason
  {
  }

  lemma FiredIsJustified(before: Index, row: Index, policy: Policy, latest: nat, unindexed: Option<int>, now: int)
    requires row == before || Flipped(before, row, now)
    requires DecideTrigger(unindexed, latest, row.lastSeenVersion, row.lastOptimizedAt, now, policy).reason != NoReason
    ensures Justified(before, policy, latest, unindexed, now,
                      DecideTrigger(unindexed, latest, row.lastSeenVersion, row.lastOptimizedAt, now, policy)
                      .reason.Tag())
  {
    ReasonIsFirstCrossed(unindexed, latest, row.lastSeenVersion, row.lastOptimizedAt, now, policy);
    TagsDiffer(DecideTrigger(unindexed, latest, row.lastSeenVersion, row.lastOptimizedAt, now, policy).reason);
  }

  lemma TaskAsksForIt(f: Fleet, sofar: Fleet, policies: map<nat, Policy>, c: Candidate, world: World, reason: string)
    requires WatchedPair(f, policies, c) && c.index in sofar.indexes && sofar.datasets == f.datasets
    requires sofar.indexes[c.index] == f.indexes[c.index]
             || Flipped(f.indexes[c.index], sofar.indexes[c.index], world.now)
    requires world.lance(c).Live?
    requires Justified(f.indexes[c.index], policies[c.policy], world.lance(c).latest, world.lance(c).unindexed,
                       world.now, reason)
    ensures QueuedFor(f, policies, c, world, WatchTask(sofar, c.index, world.lance(c).latest, reason, world.now))
  {
    KeySpelled(c.index, world.lance(c).latest, reason);
  }

  /** One row, on rows that earlier emissions of the pass may have flipped. */
  lemma RowTouches(f: Fleet, sofar: Fleet, policies: map<nat, Policy>, c: Candidate, world: World)
    requires WatchedPair(f, policies, c) && c.index in sofar.indexes && sofar.datasets == f.datasets
    requires sofar.indexes[c.index] == f.indexes[c.index]
             || Flipped(f.indexes[c.index], sofar.indexes[c.index], world.now)
    ensures Readable(sofar, policies, c)
    ensures var after := WatchRow(sofar, policies, c, world.lance(c), world.newId(c), world.now).fleet;
            && after.indexes.Keys == sofar.indexes.Keys
            && (forall id | id in sofar.indexes && id != c.index :: after.indexes[id] == sofar.indexes[id])
            && (after.indexes[c.index] == sofar.indexes[c.index]
                || Flipped(f.indexes[c.index], after.indexes[c.index], world.now))
            && (after.db.tasks == sofar.db.tasks
                || (world.newId(c) in after.db.tasks
                    && after.db.tasks == sofar.db.tasks[world.newId(c) := after.db.tasks[world.newId(c)]]
                    && QueuedFor(f, policies, c, world, after.db.tasks[world.newId(c)])))
  {
    if world.lance(c).Live? {
      var row, latest, unindexed := sofar.indexes[c.index], world.lance(c).latest, world.lance(c).unindexed;
      var reason := DecideTrigger(unindexed, latest, row.lastSeenVersion, row.lastOptimizedAt, world.now,
                                  policies[c.policy]).reason;
      if reason != NoReason {
        FiredIsJustified(f.indexes[c.index], row, policies[c.policy], latest, unindexed, world.now);
        TaskAsksForIt(f, sofar, policies, c, world, reason.Tag());
      }
    }
  }

  /** Of the index rows, only READY ones of an opted-in dataset have changed, by the flip. */
  predicate RowsTouched(f: Fleet, policies: map<nat, Policy>, now: int, after: map<nat, Index>) {
    && f.indexes.Keys == after.Keys
    && forall id | id in after && after[id] != f.indexes[id] ::
         && Flipped(f.indexes[id], after[id], now)
         && f.indexes[id].status == READY && OptedIn(policies, f.indexes[id].datasetUuid)
  }

  /** Every task that is new, or not what it was, asks for an optimize of one of the pairs. */
  predicate TasksTouched(f: Fleet, policies: map<nat, Policy>, rows: seq<Candidate>, world: World,
                         after: map<string, Task>) {
    forall t | t in after && !(t in f.db.tasks && f.db.tasks[t] == after[t]) ::
      exists c | c in rows :: t == world.newId(c) && QueuedFor(f, policies, c, world, after[t])
  }

  lemma TasksTouchedMore(f: Fleet, policies: map<nat, Policy>, rows: seq<Candidate>, world: World,
                         tasks: map<string, Task>, c: Candidate, task: Task)
    requires TasksTouched(f, policies, rows, world, tasks)
    ensures TasksTouched(f, policies, rows + [c], world, tasks)
    ensures QueuedFor(f, policies, c, world, task) ==>
              TasksTouched(f, policies, rows + [c], world, tasks[world.newId(c) := task])
  {
    assert c in rows + [c] && forall d | d in rows :: d in rows + [c];
  }

  /** A pass changes an index row, and adds a task for it, only for a READY index whose dataset has a policy that
      is enabled and opted in; the change is the flip, and the task says so. */
  lemma {:induction false} PassTouches(f: Fleet, policies: map<nat, Policy>, rows: seq<Candidate>, world: World)
    requires forall c | c in rows :: WatchedPair(f, policies, c)
    ensures forall c | c in rows :: Readable(f, policies, c)
    ensures RowsTouched(f, policies, world.now, RunPass(f, policies, rows, world).fleet.indexes)
    ensures TasksTouched(f, policies, rows, world, RunPass(f, policies, rows, world).fleet.db.tasks)
  {
    forall c | c in rows ensures Readable(f, policies, c) {
      assert WatchedPair(f, policies, c);
    }
    if rows != [] {
      var front, c := rows[..|rows| - 1], rows[|rows| - 1];
      assert c in rows && rows == front + [c];
      PassTouches(f, policies, front, world);
      var sofar, after := RunPass(f, policies, front, world).fleet, RunPass(f, policies, rows, world).fleet;
      assert WatchedPair(f, policies, c);
      RowTouches(f, sofar, policies, c, world);
      var id := world.newId(c);
      var task := if id in after.db.tasks then after.db.tasks[id] else WatchTask(f, c.index, 0, "", 0);
      TasksTouchedMore(f, policies, front, world, sofar.db.tasks, c, task);
    }
  }

  /** `rows` lists the candidates, each once. */
  ghost predicate Lists(rows: seq<Candidate>, candidates: set<Candidate>) {
    && (forall i, j | 0 <= i < j < |rows| :: rows[i] != rows[j])
    && (forall c :: c in rows <==> c in candidates)
  }

  lemma ListsMore(rows: seq<Candidate>, candidates: set<Candidate>, c: Candidate)
    requires Lists(rows, candidates) && c !in candidates
    ensures Lists(rows + [c], candidates + {c})
  {
  }

  lemma {:induction false} ListsSize(rows: seq<Candidate>, candidates: set<Candidate>)
    requires Lists(rows, candidates)
    ensures |rows| == |candidates|
  {
    if rows != [] {
      var front, c := rows[..|rows| - 1], rows[|rows| - 1];
      assert rows == front + [c];
      ListsSize(front, candidates - {c});
    }
  }

  /** The columns' word for a pass: which rows may change, which tasks come, and how many pairs are scanned. */
  lemma PassByColumns(f: Fleet, policies: map<nat, Policy>, rows: seq<Candidate>, world: World)
    requires Lists(rows, Candidates(f, policies))
    ensures forall c | c in rows :: WatchedPair(f, policies, c)
    ensures RunPass(f, policies, rows, world).report.scanned
            == |set i, p | i in f.indexes && p in policies && WatchedPair(f, policies, Candidate(i, p)) ::
                  Candidate(i, p)|
  {
    forall c ensures c in Candidates(f, policies) <==> WatchedPair(f, policies, c) {
      CandidateIff(f, policies, c);
    }
    assert Candidates(f, policies)
           == set i, p | i in f.indexes && p in policies && WatchedPair(f, policies, Candidate(i, p)) ::
                Candidate(i, p);
    ListsSize(rows, Candidates(f, policies));
    CountersAddUp(f, policies, rows, world);
  }

  /** run_watch_pass; the candidates may come in any order. */
  method RunWatchPass(session: Session, world: World) returns (report: Report, ghost rows: seq<Candidate>)
    modifies session`indexes, session`tasks
    ensures Lists(rows, Candidates(old(session.Committed()), session.policies))
    ensures Pass(session.Committed(), report) == RunPass(old(session.Committed()), session.policies, rows, world)
    ensures RowsTouched(old(session.Committed()), session.policies, world.now, session.indexes)
    ensures TasksTouched(old(session.Committed()), session.policies, rows, world, session.tasks)
    ensures report.scanned == |set i, p | i in old(session.indexes) && p in session.policies &&
                                          WatchedPair(old(session.Committed()), session.policies, Candidate(i, p)) ::
                                 Candidate(i, p)|
  {
    ghost var before := session.Committed();
    var candidates := Candidates(session.Committed(), session.policies);
    var todo := candidates;
    report, rows := EMPTY_REPORT, [];
    while todo != {}
      invariant todo <= candidates
      invariant Lists(rows, candidates - todo)
      invariant Pass(session.Committed(), report) == RunPass(before, session.policies, rows, world)
    {
      var c :| c in todo;
      assert candidates - (todo - {c}) == candidates - todo + {c};
      ListsMore(rows, candidates - todo, c);
      todo := todo - {c};
      report := WatchOne(session, c, world, report);
      assert (rows + [c])[..|rows|] == rows;
      rows := rows + [c];
    }
    assert candidates - todo == candidates;
    PassByColumns(before, session.policies, rows, world);
    PassTouches(before, session.policies, rows, world);
  }

  method TryEmitOptimizeTask(session: Session, id: nat, version: nat, reason: string, uuid: string, now: int)
    returns (emitted: bool)
    requires id in session.indexes && session.indexes[id].datasetUuid in session.datasets
    modifies session`indexes, session`tasks
    ensures session.Committed() == WatchEmit(old(session.Committed()), id, version, reason, uuid, now)
    ensures emitted <==> Holders(old(session.tasks), Some(Keys.WatcherKey(id, version, reason))) == {}
  {
    var key := Keys.WatcherKey(id, version, reason);
    if Holders(session.tasks, Some(key)) != {} {
      return false;
    }
    ghost var before := session.Committed();
    var task := WatchTask(session.Committed(), id, version, reason, now);
    session.indexes := session.indexes[id := session.indexes[id].(status := OPTIMIZING, lastOptimizedAt := Some(now))];
    session.tasks := session.tasks[uuid := task];
    emitted := true;
  }

  // ---- What a pass guarantees ----

  predicate AddsUp(r: Report) {
    && r.scanned == r.enqueued + r.noDataset + r.below + r.openFailed + r.duplicates
    && |r.emittedKeys| == r.enqueued
  }

  lemma TallyAddsUp(r: Report, o: RowOutcome)
    requires AddsUp(r)
    ensures AddsUp(Tally(r, o)) && Tally(r, o).scanned == r.scanned + 1
  {
  }

  /** Every scanned row is counted in exactly one of the five counters. */
  lemma {:induction false} CountersAddUp(f: Fleet, policies: map<nat, Policy>, rows: seq<Candidate>, world: World)
    requires forall c | c in rows :: Readable(f, policies, c)
    ensures RunPass(f, policies, rows, world).report.scanned == |rows|
    ensures AddsUp(RunPass(f, policies, rows, world).report)
  {
    if rows != [] {
      var front, c := rows[..|rows| - 1], rows[|rows| - 1];
      assert c in rows;
      CountersAddUp(f, policies, front, world);
      var sofar := RunPass(f, policies, front, world);
      TallyAddsUp(sofar.report, WatchRow(sofar.fleet, policies, c, world.lance(c), world.newId(c), world.now));
    }
  }

  /** Some threshold of the policy is crossed. */
  predicate Fires(row: Index, policy: Policy, latest: nat, unindexed: Option<int>, now: int) {
    || RowsCrossed(policy, unindexed) || DriftCrossed(policy, latest, row.lastSeenVersion)
    || StaleCrossed(policy, row.lastOptimizedAt, now)
  }

  /** Which counter a row goes to: an index that cannot be opened, one that is not there, one on which nothing
      fires, one whose key a task holds already, and one that is emitted under a key nobody holds. */
  lemma RowCounted(f: Fleet, policies: map<nat, Policy>, c: Candidate, stats: Stats, uuid: string, now: int, r: Report)
    requires Readable(f, policies, c)
    ensures var o := WatchRow(f, policies, c, stats, uuid, now);
            var fires :=
              stats.Live? && Fires(f.indexes[c.index], policies[c.policy], stats.latest, stats.unindexed, now);
            var held := exists t | t in f.db.tasks :: f.db.tasks[t].idempotencyKey == Some(o.key);
            var counted := r.(scanned := r.scanned + 1);
            && (stats.Unreadable? ==> Tally(r, o) == counted.(openFailed := r.openFailed + 1))
            && (stats.Missing? ==> Tally(r, o) == counted.(noDataset := r.noDataset + 1))
            && (stats.Live? && !fires ==> Tally(r, o) == counted.(below := r.below + 1))
            && (fires && held ==> Tally(r, o) == counted.(duplicates := r.duplicates + 1))
            && (fires && !held ==>
                  && Tally(r, o) == counted.(enqueued := r.enqueued + 1, emittedKeys := r.emittedKeys + [o.key])
                  && uuid in o.fleet.db.tasks && o.fleet.db.tasks[uuid].idempotencyKey == Some(o.key)
                  && Flipped(f.indexes[c.index], o.fleet.indexes[c.index], now))
            && (!fires || held ==> o.fleet == f)
  {
    if stats.Live? {
      var row := f.indexes[c.index];
      ReasonIsFirstCrossed(stats.unindexed, stats.latest, row.lastSeenVersion, row.lastOptimizedAt, now,
                           policies[c.policy]);
      var key := Some(WatchRow(f, policies, c, stats, uuid, now).key);
      assert forall t | t in f.db.tasks && f.db.tasks[t].idempotencyKey == key :: t in Holders(f.db.tasks, key);
    }
  }

  /** Over a pass, whatever the order of the rows: the unreadable and the missing indexes are counted as such, and
      the queue has grown by the number reported as enqueued. */
  lemma {:induction false} CountersByKind(f: Fleet, policies: map<nat, Policy>, rows: seq<Candidate>, world: World,
                                          candidates: set<Candidate>)
    requires Lists(rows, candidates) && (forall c | c in rows :: Readable(f, policies, c)) && FreshIds(f, rows, world)
    ensures var pass := RunPass(f, policies, rows, world);
            && pass.report.openFailed == |Unopened(candidates, world)|
            && pass.report.noDataset == |NotThere(candidates, world)|
            && |pass.fleet.db.tasks| == |f.db.tasks| + pass.report.enqueued
  {
    if rows == [] {
      assert Unopened(candidates, world) == NotThere(candidates, world) == {};
    } else {
      var front, c := rows[..|rows| - 1], rows[|rows| - 1];
      assert rows == front + [c] && c in rows;
      FreshFront(f, rows, world);
      CountersByKind(f, policies, front, world, candidates - {c});
      PassGrows(f, policies, front, world);
      var sofar := RunPass(f, policies, front, world);
      RowCounted(sofar.fleet, policies, c, world.lance(c), world.newId(c), world.now, sofar.report);
      RowEmits(sofar.fleet, policies, c, world);
      OneMoreUnopened(candidates, c, world);
      OneMoreNotThere(candidates, c, world);
    }
  }

  function Unopened(candidates: set<Candidate>, world: World): set<Candidate> {
    set c | c in candidates && world.lance(c).Unreadable?
  }

  function NotThere(candidates: set<Candidate>, world: World): set<Candidate> {
    set c | c in candidates && world.lance(c).Missing?
  }

  lemma OneMoreUnopened(candidates: set<Candidate>, c: Candidate, world: World)
    requires c in candidates
    ensures |Unopened(candidates, world)|
            == |Unopened(candidates - {c}, world)| + if world.lance(c).Unreadable? then 1 else 0
  {
    if world.lance(c).Unreadable? {
      assert Unopened(candidates, world) == Unopened(candidates - {c}, world) + {c};
    } else {
      assert Unopened(candidates, world) == Unopened(candidates - {c}, world);
    }
  }

  lemma OneMoreNotThere(candidates: set<Candidate>, c: Candidate, world: World)
    requires c in candidates
    ensures |NotThere(candidates, world)|
            == |NotThere(candidates - {c}, world)| + if world.lance(c).Missing? then 1 else 0
  {
    if world.lance(c).Missing? {
      assert NotThere(candidates, world) == NotThere(candidates - {c}, world) + {c};
    } else {
      assert NotThere(candidates, world) == NotThere(candidates - {c}, world);
    }
  }

  /** Nothing is emitted for the candidate in this state. */
  predicate Quiet(f: Fleet, policies: map<nat, Policy>, c: Candidate, world: World)
    requires Readable(f, policies, c)
  {
    WatchRow(f, policies, c, world.lance(c), world.newId(c), world.now).result != Enqueued
  }

  /** The ids handed out in a pass are new ones, each used once. */
  predicate FreshIds(f: Fleet, rows: seq<Candidate>, world: World) {
    && (forall c | c in rows :: world.newId(c) !in f.db.tasks)
    && (forall i, j | 0 <= i < j < |rows| :: world.newId(rows[i]) != world.newId(rows[j]))
  }

  /** A row either leaves everything as it was or flips its own index and adds one task. */
  predicate Emits(f: Fleet, after: Fleet, c: Candidate, uuid: string)
    requires c.index in f.indexes
  {
    || after == f
    || (&& c.index in after.indexes && after.indexes[c.index].status == OPTIMIZING
        && after.indexes == f.indexes[c.index := after.indexes[c.index]] && uuid in after.db.tasks
        && after.db.tasks == f.db.tasks[uuid := after.db.tasks[uuid]] && after.datasets == f.datasets)
  }

  lemma RowEmits(f: Fleet, policies: map<nat, Policy>, c: Candidate, world: World)
    requires Readable(f, policies, c)
    ensures var o := WatchRow(f, policies, c, world.lance(c), world.newId(c), world.now);
            && c.index in o.fleet.indexes
            && Emits(f, o.fleet, c, world.newId(c))
            && (o.result == Enqueued ==> o.fleet.indexes[c.index].status == OPTIMIZING)
            && (o.result != Enqueued ==> o.fleet == f)
  {
  }

  /** More tasks on an unchanged index row never make a quiet candidate emit. */
  lemma QuietStays(f: Fleet, after: Fleet, policies: map<nat, Policy>, c: Candidate, world: World)
    requires Readable(f, policies, c) && Readable(after, policies, c) && Quiet(f, policies, c, world)
    requires after.indexes[c.index] == f.indexes[c.index]
    requires forall t | t in f.db.tasks :: t in after.db.tasks && after.db.tasks[t] == f.db.tasks[t]
    ensures Quiet(after, policies, c, world)
  {
    if world.lance(c).Live? {
      var row := f.indexes[c.index];
      var latest := world.lance(c).latest;
      var reason := DecideTrigger(world.lance(c).unindexed, latest, row.lastSeenVersion, row.lastOptimizedAt,
                                  world.now, policies[c.policy]).reason;
      var key := Some(Keys.WatcherKey(c.index, latest, reason.Tag()));
      if reason != NoReason {
        var t :| t in Holders(f.db.tasks, key);
        assert t in Holders(after.db.tasks, key);
      }
    }
  }

  /** `after` keeps every task of `f` and has only new ones from `rows` besides. */
  predicate TasksGrow(f: Fleet, after: Fleet, rows: seq<Candidate>, world: World) {
    && (forall t | t in f.db.tasks :: t in after.db.tasks && after.db.tasks[t] == f.db.tasks[t])
    && (forall t | t in after.db.tasks && t !in f.db.tasks :: exists c | c in rows :: world.newId(c) == t)
  }

  lemma FreshFront(f: Fleet, rows: seq<Candidate>, world: World)
    requires rows != [] && FreshIds(f, rows, world)
    ensures FreshIds(f, rows[..|rows| - 1], world)
    ensures forall c | c in rows[..|rows| - 1] :: world.newId(c) != world.newId(rows[|rows| - 1])
  {
    var front, last := rows[..|rows| - 1], rows[|rows| - 1];
    forall i, j | 0 <= i < j < |front| ensures world.newId(front[i]) != world.newId(front[j]) {
      assert front[i] == rows[i] && front[j] == rows[j];
    }
    forall c | c in front ensures world.newId(c) != world.newId(last) {
      var i :| 0 <= i < |front| && front[i] == c;
      assert rows[i] == c;
    }
  }

  /** After a pass every index is as before or OPTIMIZING, and tasks are only added. */
  lemma {:induction false} PassGrows(f: Fleet, policies: map<nat, Policy>, rows: seq<Candidate>, world: World)
    requires forall c | c in rows :: Readable(f, policies, c)
    requires FreshIds(f, rows, world)
    ensures var after := RunPass(f, policies, rows, world).fleet;
            && TasksGrow(f, after, rows, world)
            && forall id | id in f.indexes ::
                 after.indexes[id] == f.indexes[id] || after.indexes[id].status == OPTIMIZING
  {
    if rows != [] {
      var front, last := rows[..|rows| - 1], rows[|rows| - 1];
      assert last in rows && rows == front + [last];
      FreshFront(f, rows, world);
      PassGrows(f, policies, front, world);
      var mid := RunPass(f, policies, front, world).fleet;
      RowEmits(mid, policies, last, world);
      GrowsMore(f, mid, RunPass(f, policies, rows, world).fleet, front, last, world);
    }
  }

  lemma GrowsMore(f: Fleet, mid: Fleet, after: Fleet, front: seq<Candidate>, last: Candidate, world: World)
    requires TasksGrow(f, mid, front, world) && (forall c | c in front :: world.newId(c) != world.newId(last))
    requires world.newId(last) !in f.db.tasks
    requires last.index in mid.indexes && Emits(mid, after, last, world.newId(last))
    ensures TasksGrow(f, after, front + [last], world)
  {
    assert last in front + [last] && forall c | c in front :: c in front + [last];
  }

  /** One more row keeps a quiet candidate quiet, unless it touches the candidate's index. */
  lemma RowLeavesQuiet(f: Fleet, policies: map<nat, Policy>, last: Candidate, world: World, c: Candidate)
    requires Readable(f, policies, c) && Readable(f, policies, last)
    requires c == last || Quiet(f, policies, c, world)
    requires world.newId(last) !in f.db.tasks
    ensures var after := WatchRow(f, policies, last, world.lance(last), world.newId(last), world.now).fleet;
            after.indexes[c.index] == f.indexes[c.index] && f.indexes[c.index].status == READY ==>
              Readable(after, policies, c) && Quiet(after, policies, c, world)
  {
    RowEmits(f, policies, last, world);
    var after := WatchRow(f, policies, last, world.lance(last), world.newId(last), world.now).fleet;
    if c != last && after.indexes[c.index] == f.indexes[c.index] {
      QuietStays(f, after, policies, c, world);
    }
  }

  /** Candidates whose index a pass has left alone are quiet after it. */
  lemma {:induction false} PassLeavesQuiet(f: Fleet, policies: map<nat, Policy>, rows: seq<Candidate>, world: World,
                                           c: Candidate)
    requires forall d | d in rows :: Readable(f, policies, d)
    requires FreshIds(f, rows, world)
    requires c in rows && Readable(f, policies, c) && f.indexes[c.index].status == READY
    requires RunPass(f, policies, rows, world).fleet.indexes[c.index] == f.indexes[c.index]
    ensures Readable(RunPass(f, policies, rows, world).fleet, policies, c)
    ensures Quiet(RunPass(f, policies, rows, world).fleet, policies, c, world)
  {
    var front, last := rows[..|rows| - 1], rows[|rows| - 1];
    assert last in rows && rows == front + [last];
    FreshFront(f, rows, world);
    LeftAloneBefore(f, policies, rows, world, c.index);
    if c != last {
      PassLeavesQuiet(f, policies, front, world, c);
    }
    RowLeavesQuiet(RunPass(f, policies, front, world).fleet, policies, last, world, c);
  }

  /** An index left READY by a pass was left alone by its every row, and the last row's id is still new. */
  lemma LeftAloneBefore(f: Fleet, policies: map<nat, Policy>, rows: seq<Candidate>, world: World, id: nat)
    requires forall d | d in rows :: Readable(f, policies, d)
    requires FreshIds(f, rows, world) && rows != [] && id in f.indexes && f.indexes[id].status == READY
    requires RunPass(f, policies, rows, world).fleet.indexes[id] == f.indexes[id]
    ensures var sofar := RunPass(f, policies, rows[..|rows| - 1], world).fleet;
            && sofar.indexes[id] == f.indexes[id]
            && world.newId(rows[|rows| - 1]) !in sofar.db.tasks
            && Readable(sofar, policies, rows[|rows| - 1])
  {
    var front, last := rows[..|rows| - 1], rows[|rows| - 1];
    assert last in rows && rows == front + [last];
    FreshFront(f, rows, world);
    PassGrows(f, policies, front, world);
    var sofar := RunPass(f, policies, front, world).fleet;
    RowEmits(sofar, policies, last, world);
    NotTouched(f, sofar, RunPass(f, policies, rows, world).fleet, last, world.newId(last), id);
  }

  /** A row that ends READY as it was has not been OPTIMIZING in between. */
  lemma NotTouched(f: Fleet, sofar: Fleet, after: Fleet, last: Candidate, uuid: string, id: nat)
    requires id in f.indexes && id in sofar.indexes && id in after.indexes && f.indexes[id].status == READY
    requires after.indexes[id] == f.indexes[id] && last.index in sofar.indexes && Emits(sofar, after, last, uuid)
    requires sofar.indexes[id] == f.indexes[id] || sofar.indexes[id].status == OPTIMIZING
    ensures sofar.indexes[id] == f.indexes[id]
  {
  }

  lemma {:induction false} QuietPassDoesNothing(f: Fleet, policies: map<nat, Policy>, rows: seq<Candidate>,
                                                world: World)
    requires forall c | c in rows :: Readable(f, policies, c) && Quiet(f, policies, c, world)
    ensures RunPass(f, policies, rows, world).fleet == f
    ensures RunPass(f, policies, rows, world).report.enqueued == 0
  {
    if rows != [] {
      QuietPassDoesNothing(f, policies, rows[..|rows| - 1], world);
      RowEmits(f, policies, rows[|rows| - 1], world);
    }
  }

  /** A second pass on unchanged lance state and clock emits nothing and changes nothing, in whatever order
      the rows come and however many policies watch a dataset. */
  lemma SecondPassEmitsNothing(f: Fleet, policies: map<nat, Policy>, rows: seq<Candidate>, world: World,
                               rows': seq<Candidate>, world': World)
    requires forall c :: c in rows <==> c in Candidates(f, policies)
    requires FreshIds(f, rows, world)
    requires world'.now == world.now && world'.lance == world.lance
    requires forall c :: c in rows' <==> c in Candidates(RunPass(f, policies, rows, world).fleet, policies)
    ensures var after := RunPass(f, policies, rows, world).fleet;
            && (forall c | c in rows' :: Readable(after, policies, c))
            && RunPass(after, policies, rows', world').fleet == after
            && RunPass(after, policies, rows', world').report.enqueued == 0
  {
    PassGrows(f, policies, rows, world);
    var after := RunPass(f, policies, rows, world).fleet;
    forall c | c in rows' ensures Readable(after, policies, c) && Quiet(after, policies, c, world') {
      assert c in Candidates(after, policies);
      assert c in Candidates(f, policies);
      PassLeavesQuiet(f, policies, rows, world, c);
    }
    QuietPassDoesNothing(after, policies, rows', world');
  }
}
