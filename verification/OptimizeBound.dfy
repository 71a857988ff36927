/** The bounds on the watcher's emissions are exact: n appends can lead to n + 1 emissions, and an optimize task
    that the watcher did not add can lead to any number of them.  So the loop does not feed itself if and only
    if there is no such task. */
module OptimizeBound {
  import opened Database
  import opened Dispatch
  import opened IndexLifecycle
  import opened IndexInvariants
  import opened IndexStranding
  import opened IndexWatcher
  import opened OptimizeLoop
  import opened OptimizeOnce
  import Keys

  /** A policy that watches the version alone, with threshold one. */
  const BY_VERSION := Policy("d", "p", None, false, "", true, None, Some(1), None, true)

  /** The worker of these runs, while it holds `inFlight` tasks. */
  function WorkerWith(inFlight: nat): Worker {
    Worker("", "l", 1, inFlight, ALIVE, 0)
  }

  // ---- Free names and keys ----

  function TaskName(version: nat): string {
    "t" + Keys.Dec(version)
  }

  function DriftKey(id: nat, version: nat): string {
    Keys.WatcherKey(id, version, VersionDrift.Tag())
  }

  /** No task has the name or the key of an emission at `version`. */
  predicate Free(tasks: map<string, Task>, id: nat, version: nat) {
    TaskName(version) !in tasks && Holders(tasks, Some(DriftKey(id, version))) == {}
  }

  lemma {:induction false} Longest(names: set<string>) returns (n: nat)
    ensures n > 0 && forall x | x in names :: |x| <= n
    decreases names
  {
    if names == {} {
      n := 1;
    } else {
      var x :| x in names;
      n := Longest(names - {x});
      if |x| > n {
        n := |x|;
      }
    }
  }

  /** From some version on all are free: their names and keys are longer than any in the table. */
  lemma FreeFrom(tasks: map<string, Task>, id: nat, version: nat) returns (from: nat)
    ensures from > version && forall v: nat | v >= from :: Free(tasks, id, v)
  {
    var keys := set t | t in tasks && tasks[t].idempotencyKey.Some? :: tasks[t].idempotencyKey.value;
    var n := Longest(tasks.Keys + keys);
    from := version + Keys.Pow10(n) + 1;
    forall v: nat | v >= from ensures Free(tasks, id, v) {
      Keys.DecLength(v, n);
      assert |TaskName(v)| > n && |DriftKey(id, v)| > n;
      forall t | t in tasks ensures tasks[t].idempotencyKey != Some(DriftKey(id, v)) {
        assert tasks[t].idempotencyKey.Some? ==> tasks[t].idempotencyKey.value in keys;
      }
    }
  }

  lemma BumpToFree(tasks: map<string, Task>, id: nat, version: nat) returns (bump: nat)
    ensures bump > 0 && Free(tasks, id, version + bump) && Free(tasks, id, version + bump + 1)
  {
    var from := FreeFrom(tasks, id, version);
    bump := from - version;
  }

  lemma FreeWith(tasks: map<string, Task>, more: map<string, Task>, id: nat, version: nat)
    requires Free(tasks, id, version) && more.Keys == tasks.Keys
    requires forall t | t in tasks :: more[t].idempotencyKey == tasks[t].idempotencyKey
    ensures Free(more, id, version)
  {
    forall t | t in more ensures t !in Holders(more, Some(DriftKey(id, version))) {
      assert t !in Holders(tasks, Some(DriftKey(id, version)));
    }
  }

  /** The end of a run changes no name and no key. */
  lemma FreeAfterEnd(s: Site, next: Site, name: string, version: nat)
    requires OnlyTask(s, next, name) && name in s.fleet.db.tasks && Free(s.fleet.db.tasks, s.id, version)
    requires next.fleet.db.tasks[name].idempotencyKey == s.fleet.db.tasks[name].idempotencyKey
    ensures Free(next.fleet.db.tasks, s.id, version)
  {
    FreeWith(s.fleet.db.tasks, next.fleet.db.tasks, s.id, version);
  }

  // ---- The moves, one by one ----

  /** A task of the dataset that a claim may take. */
  predicate Waits(s: Site, name: string)
    requires s.id in s.fleet.indexes
  {
    && name in s.fleet.db.tasks && OptimizesIt(s, s.fleet.db.tasks[name])
    && Dispatchable(s.fleet.db.tasks[name], None)
  }

  /** The watched row is in the given status, its dataset registered, and the worker holds `inFlight` tasks. */
  ghost predicate Open(s: Site, status: IndexStatus, inFlight: nat) {
    && s.id in s.fleet.indexes && NamesUnique(s.fleet.indexes)
    && s.fleet.indexes[s.id].status == status && s.fleet.indexes[s.id].datasetUuid in s.fleet.datasets
    && "w" in s.fleet.db.workers && s.fleet.db.workers["w"] == WorkerWith(inFlight)
  }

  /** The tables differ in one task only; the worker has another count, and the watched row has seen `seen`. */
  ghost predicate OnlyTask(a: Site, b: Site, name: string) {
    && a.id == b.id && a.id in a.fleet.indexes && b.id in b.fleet.indexes
    && b.fleet.indexes[b.id].datasetUuid == a.fleet.indexes[a.id].datasetUuid
    && name in b.fleet.db.tasks && b.fleet.db.tasks.Keys == a.fleet.db.tasks.Keys + {name}
    && forall t | t in a.fleet.db.tasks && t != name :: b.fleet.db.tasks[t] == a.fleet.db.tasks[t]
  }

  function Look(name: string): Move {
    Move.Watch(false, BY_VERSION, name, 0)
  }

  /** The watcher emits on an index behind its version. */
  lemma LookStep(s: Site, inFlight: nat, name: string)
    requires Open(s, READY, inFlight) && Seen(s) < s.version && name !in s.fleet.db.tasks
    requires Holders(s.fleet.db.tasks, Some(DriftKey(s.id, s.version))) == {}
    ensures CanMove(s, Look(name)) && EmitsForDrift(s, Look(name))
    ensures var next := Moved(s, Look(name));
            && next == s.(fleet := next.fleet) && Open(next, OPTIMIZING, inFlight) && OnlyTask(s, next, name)
            && Waits(next, name) && Seen(next) == Seen(s)
  {
    assert ReasonOf(s, Look(name)) == VersionDrift;
  }

  /** The claim of `name`, while all other rows of the queue are held by other transactions. */
  function ClaimOf(s: Site, name: string): Event {
    ClaimCall("w", "l", None, s.fleet.db.tasks.Keys - {name}, Some(name), 0)
  }

  lemma BeginStep(s: Site, status: IndexStatus, name: string)
    requires Open(s, status, 0) && Waits(s, name) && s.runs == map[]
    ensures CanMove(s, Begin(0, ClaimOf(s, name)))
    ensures var next := Moved(s, Begin(0, ClaimOf(s, name)));
            && next == s.(fleet := next.fleet, runs := map[0 := LiveRun(name, "w", None)])
            && Open(next, status, 1) && OnlyTask(s, next, name) && Owns(next.fleet.db, "w", name)
            && next.fleet.indexes == s.fleet.indexes && OptimizesIt(next, next.fleet.db.tasks[name])
            && next.fleet.db.tasks[name].idempotencyKey == s.fleet.db.tasks[name].idempotencyKey
  {
  }

  lemma CommitStep(s: Site, status: IndexStatus, name: string, bump: nat)
    requires Open(s, status, 1) && s.runs == map[0 := LiveRun(name, "w", None)] && bump > 0
    requires Owns(s.fleet.db, "w", name) && OptimizesIt(s, s.fleet.db.tasks[name])
    ensures CanMove(s, Move.Commit(0, bump)) && !Reexecutes(s, Move.Commit(0, bump))
    ensures var next := Moved(s, Move.Commit(0, bump));
            && next == s.(version := s.version + bump, unindexed := 0, runs := next.runs)
            && Running(next, status, name, s.version + bump) && Seen(next) == Seen(s)
  {
    assert Committed(s) == {};
  }

  /** The finalization promotes the OPTIMIZING row with the version the run saw. */
  lemma EndStep(s: Site, name: string, seen: nat)
    requires Open(s, OPTIMIZING, 1) && s.runs == map[0 := LiveRun(name, "w", Some(seen))]
    requires Owns(s.fleet.db, "w", name) && OptimizesIt(s, s.fleet.db.tasks[name])
    ensures CanMove(s, End(0, "", 0))
    ensures var next := Moved(s, End(0, "", 0));
            && next == s.(fleet := next.fleet, runs := map[]) && Open(next, READY, 0) && OnlyTask(s, next, name)
            && Seen(next) == seen
            && forall v: nat | Free(s.fleet.db.tasks, s.id, v) :: Free(next.fleet.db.tasks, s.id, v)
  {
    FinalizeKeepsNames(s.fleet, "w", name, Ran(Some(seen), ""), 0);
    EndedRow(s, name, seen);
    EndedTables(s, name, seen);
    var next := Moved(s, End(0, "", 0));
    forall v: nat | Free(s.fleet.db.tasks, s.id, v) ensures Free(next.fleet.db.tasks, s.id, v) {
      FreeAfterEnd(s, next, name, v);
    }
  }

  lemma EndedRow(s: Site, name: string, seen: nat)
    requires Open(s, OPTIMIZING, 1) && Owns(s.fleet.db, "w", name) && OptimizesIt(s, s.fleet.db.tasks[name])
    ensures var after := Finalize(s.fleet, "w", name, Ran(Some(seen), ""), 0).fleet;
            && after.indexes == PromoteAll(s.fleet.indexes, s.fleet.indexes[s.id].datasetUuid, Some(seen), 0)
            && s.id in after.indexes && after.indexes[s.id] == Promoted(s.fleet.indexes[s.id], Some(seen), 0)
  {
  }

  lemma EndedTables(s: Site, name: string, seen: nat)
    requires Open(s, OPTIMIZING, 1) && Owns(s.fleet.db, "w", name) && OptimizesIt(s, s.fleet.db.tasks[name])
    ensures var after := Finalize(s.fleet, "w", name, Ran(Some(seen), ""), 0).fleet;
            && after.db == Complete(s.fleet.db, "w", name, Some(""), 0).db && after.datasets == s.fleet.datasets
            && after.db.workers == s.fleet.db.workers["w" := WorkerWith(0)]
  {
  }

  // ---- Runs put together ----

  /** A run with nobody interfering: only the watcher adds optimize tasks, and no task is taken from a run. */
  ghost predicate Proper(start: Site, ms: seq<Move>) {
    Runs(start, ms) && AllWatcherOnly(start, ms) && AllUndisturbed(start, ms)
  }

  /** What such a run has counted so far. */
  ghost predicate Counts(start: Site, ms: seq<Move>, emissions: nat, appends: nat) {
    && Proper(start, ms)
    && DriftEmissions(start, ms) == emissions && Appends(ms) == appends && Reexecutions(start, ms) == 0
  }

  lemma NothingYet(start: Site)
    ensures Counts(start, [], 0, 0) && After(start, []) == start
  {
  }

  lemma AddMove(start: Site, ms: seq<Move>, s: Site, m: Move, emissions: nat, appends: nat) returns (longer: seq<Move>)
    requires Counts(start, ms, emissions, appends) && After(start, ms) == s && CanMove(s, m)
    requires WatcherOnly(s, m) && Undisturbed(s, m) && !Reexecutes(s, m)
    ensures Counts(start, longer, emissions + One(EmitsForDrift(s, m)), appends + One(m.Append?))
    ensures After(start, longer) == Moved(s, m)
  {
    longer := ms + [m];
    assert longer[..|longer| - 1] == ms && longer[|longer| - 1] == m;
  }

  /** A move of the worker changes no count. */
  lemma AddWork(start: Site, ms: seq<Move>, s: Site, m: Move, next: Site, emissions: nat, appends: nat)
    returns (longer: seq<Move>)
    requires Counts(start, ms, emissions, appends) && After(start, ms) == s && CanMove(s, m) && Moved(s, m) == next
    requires m.Begin? || m.End? || (m.Commit? && !Reexecutes(s, m))
    ensures Counts(start, longer, emissions, appends) && After(start, longer) == next
  {
    longer := AddMove(start, ms, s, m, emissions, appends);
  }

  /** A call on the queue that adds no task, while no run is under way. */
  lemma AddCall(start: Site, ms: seq<Move>, s: Site, call: Event, emissions: nat, appends: nat)
    returns (longer: seq<Move>)
    requires Counts(start, ms, emissions, appends) && After(start, ms) == s && s.runs == map[]
    requires s.id in s.fleet.indexes && NamesUnique(s.fleet.indexes) && Enabled(s.fleet.db, call)
    requires (call.RegisterCall? || call.RetryCall?)
    ensures Counts(start, longer, emissions, appends)
    ensures After(start, longer) == s.(fleet := s.fleet.(db := Next(s.fleet.db, call)))
  {
    longer := AddMove(start, ms, s, Elsewhere(Protocol(call)), emissions, appends);
  }

  /** The worker's one run of `name` has committed, at the current version. */
  ghost predicate Running(s: Site, status: IndexStatus, name: string, seen: nat) {
    && Open(s, status, 1) && s.runs == map[0 := LiveRun(name, "w", Some(seen))]
    && Owns(s.fleet.db, "w", name) && OptimizesIt(s, s.fleet.db.tasks[name])
  }

  lemma LookMove(start: Site, ms: seq<Move>, s: Site, inFlight: nat, name: string, emissions: nat, appends: nat)
    returns (longer: seq<Move>, next: Site)
    requires Counts(start, ms, emissions, appends) && After(start, ms) == s
    requires Open(s, READY, inFlight) && Seen(s) < s.version && name !in s.fleet.db.tasks
    requires Holders(s.fleet.db.tasks, Some(DriftKey(s.id, s.version))) == {}
    ensures Counts(start, longer, emissions + 1, appends) && After(start, longer) == next
    ensures next == s.(fleet := next.fleet) && Open(next, OPTIMIZING, inFlight) && OnlyTask(s, next, name)
    ensures Waits(next, name)
  {
    LookStep(s, inFlight, name);
    next := Moved(s, Look(name));
    longer := AddMove(start, ms, s, Look(name), emissions, appends);
  }

  lemma BeginMove(start: Site, ms: seq<Move>, s: Site, status: IndexStatus, name: string, emissions: nat, appends: nat)
    returns (longer: seq<Move>, next: Site)
    requires Counts(start, ms, emissions, appends) && After(start, ms) == s
    requires Open(s, status, 0) && Waits(s, name) && s.runs == map[]
    ensures Counts(start, longer, emissions, appends) && After(start, longer) == next
    ensures next == s.(fleet := next.fleet, runs := map[0 := LiveRun(name, "w", None)]) && Open(next, status, 1)
    ensures Owns(next.fleet.db, "w", name) && OptimizesIt(next, next.fleet.db.tasks[name]) && Seen(next) == Seen(s)
  {
    BeginStep(s, status, name);
    next := Moved(s, Begin(0, ClaimOf(s, name)));
    longer := AddWork(start, ms, s, Begin(0, ClaimOf(s, name)), next, emissions, appends);
  }

  /** The run commits, and makes a version whose key is free, like the next one. */
  lemma CommitMove(start: Site, ms: seq<Move>, s: Site, status: IndexStatus, name: string, emissions: nat, appends: nat)
    returns (longer: seq<Move>, next: Site)
    requires Counts(start, ms, emissions, appends) && After(start, ms) == s
    requires Open(s, status, 1) && s.runs == map[0 := LiveRun(name, "w", None)]
    requires Owns(s.fleet.db, "w", name) && OptimizesIt(s, s.fleet.db.tasks[name])
    ensures Counts(start, longer, emissions, appends) && After(start, longer) == next
    ensures next.id == s.id && next.fleet == s.fleet && next.version > s.version
    ensures Running(next, status, name, next.version)
    ensures Free(next.fleet.db.tasks, s.id, next.version) && Free(next.fleet.db.tasks, s.id, next.version + 1)
  {
    var bump := BumpToFree(s.fleet.db.tasks, s.id, s.version);
    longer, next := CommitBy(start, ms, s, status, name, bump, emissions, appends);
  }

  lemma CommitBy(start: Site, ms: seq<Move>, s: Site, status: IndexStatus, name: string, bump: nat, emissions: nat,
                 appends: nat)
    returns (longer: seq<Move>, next: Site)
    requires Counts(start, ms, emissions, appends) && After(start, ms) == s && bump > 0
    requires Open(s, status, 1) && s.runs == map[0 := LiveRun(name, "w", None)]
    requires Owns(s.fleet.db, "w", name) && OptimizesIt(s, s.fleet.db.tasks[name])
    ensures Counts(start, longer, emissions, appends) && After(start, longer) == next
    ensures next == s.(version := s.version + bump, unindexed := 0, runs := next.runs)
    ensures Running(next, status, name, s.version + bump) && Seen(next) == Seen(s)
  {
    CommitStep(s, status, name, bump);
    next := Moved(s, Move.Commit(0, bump));
    longer := AddWork(start, ms, s, Move.Commit(0, bump), next, emissions, appends);
  }

  lemma EndMove(start: Site, ms: seq<Move>, s: Site, name: string, seen: nat, emissions: nat, appends: nat)
    returns (longer: seq<Move>, next: Site)
    requires Counts(start, ms, emissions, appends) && After(start, ms) == s && Running(s, OPTIMIZING, name, seen)
    ensures Counts(start, longer, emissions, appends) && After(start, longer) == next
    ensures next == s.(fleet := next.fleet, runs := map[]) && Open(next, READY, 0) && OnlyTask(s, next, name)
    ensures Seen(next) == seen
    ensures forall v: nat | Free(s.fleet.db.tasks, s.id, v) :: Free(next.fleet.db.tasks, s.id, v)
  {
    EndStep(s, name, seen);
    next := Moved(s, End(0, "", 0));
    longer := AddWork(start, ms, s, End(0, "", 0), next, emissions, appends);
  }

  lemma AppendMove(start: Site, ms: seq<Move>, s: Site, emissions: nat, appends: nat)
    returns (longer: seq<Move>, next: Site)
    requires Counts(start, ms, emissions, appends) && After(start, ms) == s
    requires s.id in s.fleet.indexes && NamesUnique(s.fleet.indexes)
    ensures Counts(start, longer, emissions, appends + 1) && After(start, longer) == next
    ensures next == s.(version := s.version + 1, unindexed := s.unindexed + 1)
  {
    next := Moved(s, Move.Append(1));
    longer := AddMove(start, ms, s, Move.Append(1), emissions, appends);
  }

  // ---- Where runs start ----

  /** A moment at which the index is READY and nothing runs on its dataset. */
  ghost predicate Quiescent(s: Site) {
    && Startable(s) && NamesUnique(s.fleet.indexes) && s.runs == map[]
    && s.fleet.indexes[s.id].status == READY && s.fleet.indexes[s.id].datasetUuid in s.fleet.datasets
    && forall t | t in s.fleet.db.tasks && OptimizesIt(s, s.fleet.db.tasks[t]) :: s.fleet.db.tasks[t].status != RUNNING
  }

  /** The worker registers; nothing else changes. */
  lemma Registered(start: Site) returns (ms: seq<Move>, s: Site)
    requires Quiescent(start)
    ensures Counts(start, ms, 0, 0) && After(start, ms) == s && Open(s, READY, 0)
    ensures s == start.(fleet := s.fleet) && s.fleet.indexes == start.fleet.indexes
            && s.fleet.db.tasks == start.fleet.db.tasks
  {
    NothingYet(start);
    var call := RegisterCall("w", "", 1, "l", 0);
    ms := AddCall(start, [], start, call, 0, 0);
    s := After(start, ms);
  }

  // ---- Appends: the bound is reached ----

  /** A newer version to catch up with, whose key is free. */
  ghost predicate Behind(s: Site) {
    s.id in s.fleet.indexes && Seen(s) < s.version && Holders(s.fleet.db.tasks, Some(DriftKey(s.id, s.version))) == {}
  }

  lemma LookFirst(start: Site, ms: seq<Move>, s: Site, n: nat) returns (longer: seq<Move>, next: Site, name: string)
    requires Counts(start, ms, n, n) && After(start, ms) == s && Open(s, READY, 0) && Behind(s)
    ensures Counts(start, longer, n + 1, n) && After(start, longer) == next
    ensures next == s.(fleet := next.fleet) && Open(next, OPTIMIZING, 0) && Waits(next, name)
  {
    var from := FreeFrom(s.fleet.db.tasks, s.id, 0);
    assert Free(s.fleet.db.tasks, s.id, from);
    name := TaskName(from);
    longer, next := LookMove(start, ms, s, 0, name, n, n);
  }

  /** The worker takes the emitted task, commits and promotes the row. */
  lemma WorkOff(start: Site, ms: seq<Move>, s: Site, name: string, emissions: nat, appends: nat)
    returns (longer: seq<Move>, next: Site)
    requires Counts(start, ms, emissions, appends) && After(start, ms) == s
    requires Open(s, OPTIMIZING, 0) && Waits(s, name) && s.runs == map[]
    ensures Counts(start, longer, emissions, appends) && After(start, longer) == next
    ensures Open(next, READY, 0) && next.runs == map[] && next.id == s.id && Seen(next) == next.version
    ensures Free(next.fleet.db.tasks, next.id, next.version + 1)
  {
    longer, next := BeginMove(start, ms, s, OPTIMIZING, name, emissions, appends);
    longer, next := CommitMove(start, longer, next, OPTIMIZING, name, emissions, appends);
    longer, next := EndMove(start, longer, next, name, next.version, emissions, appends);
  }

  /** The watcher emits, the worker works it off, and the user writes again. */
  lemma Round(start: Site, ms: seq<Move>, s: Site, n: nat) returns (longer: seq<Move>, next: Site)
    requires Counts(start, ms, n, n) && After(start, ms) == s && Open(s, READY, 0) && Behind(s) && s.runs == map[]
    ensures Counts(start, longer, n + 1, n + 1) && After(start, longer) == next
    ensures Open(next, READY, 0) && Behind(next) && next.runs == map[]
  {
    var name;
    longer, next, name := LookFirst(start, ms, s, n);
    longer, next := WorkOff(start, longer, next, name, n + 1, n);
    longer, next := AppendMove(start, longer, next, n + 1, n);
  }

  lemma {:induction false} Rounds(start: Site, n: nat) returns (ms: seq<Move>, s: Site)
    requires Quiescent(start) && Behind(start)
    ensures Counts(start, ms, n, n) && After(start, ms) == s
    ensures Open(s, READY, 0) && Behind(s) && s.runs == map[]
  {
    if n == 0 {
      ms, s := Registered(start);
    } else {
      ms, s := Rounds(start, n - 1);
      ms, s := Round(start, ms, s, n - 1);
    }
  }

  /** From any such start that has a version to catch up with, n appends can lead to n + 1 emissions with only the
      watcher adding tasks and every task executed once: the bound of OnceExecutedLoop is exact. */
  lemma BoundIsReached(start: Site, n: nat) returns (ms: seq<Move>)
    requires Quiescent(start) && Behind(start)
    ensures Proper(start, ms) && Appends(ms) == n && DriftEmissions(start, ms) == n + 1
  {
    var s, name;
    ms, s := Rounds(start, n);
    ms, s, name := LookFirst(start, ms, s, n);
  }

  // ---- One task of somebody else: no bound ----

  /** The worker takes the waiting task and commits, the watcher sees the new version and emits, and the worker's
      finalization promotes the row: caught up, with the new task waiting. */
  lemma Cycle(start: Site, ms: seq<Move>, s: Site, name: string, n: nat)
    returns (longer: seq<Move>, next: Site, left: string)
    requires Counts(start, ms, n, 0) && After(start, ms) == s && Open(s, READY, 0) && s.runs == map[]
             && Seen(s) <= s.version
    requires Waits(s, name)
    ensures Counts(start, longer, n + 1, 0) && After(start, longer) == next
    ensures Open(next, READY, 0) && next.runs == map[] && Seen(next) <= next.version && Waits(next, left)
  {
    longer, next := BeginMove(start, ms, s, READY, name, n, 0);
    longer, next := CommitMove(start, longer, next, READY, name, n, 0);
    var committed := next;
    left := TaskName(committed.version);
    longer, next := LookMove(start, longer, committed, 1, left, n, 0);
    var looked := next;
    longer, next := EndMove(start, longer, looked, name, committed.version, n + 1, 0);
    assert next.fleet.db.tasks[left] == looked.fleet.db.tasks[left];
  }

  /** A task that can run, but is not running, waits for a claim now or after its retry. */
  lemma WaitsAfterRetry(start: Site, name: string) returns (ms: seq<Move>, s: Site)
    requires Quiescent(start) && name in Unfinished(start)
    ensures Counts(start, ms, 0, 0) && After(start, ms) == s
    ensures Open(s, READY, 0) && s.runs == map[] && Seen(s) <= s.version && Waits(s, name)
  {
    ms, s := Registered(start);
    if s.fleet.db.tasks[name].status == FAILED {
      var call := RetryCall(Principal("", true), name);
      ms := AddCall(start, ms, s, call, 0, 0);
      s := After(start, ms);
    }
  }

  lemma {:induction false} Cycles(start: Site, name: string, n: nat) returns (ms: seq<Move>, s: Site, left: string)
    requires Quiescent(start) && name in Unfinished(start)
    ensures Counts(start, ms, n, 0) && After(start, ms) == s
    ensures Open(s, READY, 0) && s.runs == map[] && Seen(s) <= s.version && Waits(s, left)
  {
    if n == 0 {
      ms, s := WaitsAfterRetry(start, name);
      left := name;
    } else {
      ms, s, left := Cycles(start, name, n - 1);
      ms, s, left := Cycle(start, ms, s, left, n - 1);
    }
  }

  /** Wherever the index is READY while an optimize task of its dataset can still run, the loop can feed itself
      for good: any number of emissions, without an append, without a repeated execution, and with nobody else
      adding a task or taking one from a run. */
  lemma ForeignTaskFeedsLoop(start: Site, name: string, n: nat) returns (ms: seq<Move>)
    requires Quiescent(start) && name in Unfinished(start)
    ensures Proper(start, ms) && Appends(ms) == 0 && Reexecutions(start, ms) == 0 && DriftEmissions(start, ms) == n
  {
    var s, left;
    ms, s, left := Cycles(start, name, n);
  }

  // ---- When the loop does not feed itself ----

  /** The promise, for one run. */
  ghost predicate Bounded(start: Site, ms: seq<Move>) {
    Runs(start, ms) && DriftEmissions(start, ms) <= 1 + Appends(ms)
  }

  /** From a moment at which the index is READY and nothing runs on its dataset, all runs with nobody interfering
      keep the promise if and only if no optimize task of the dataset can still run then. */
  lemma NoSelfTriggeringIff(start: Site)
    requires Quiescent(start)
    ensures (forall ms | Proper(start, ms) :: Bounded(start, ms)) <==> Unfinished(start) == {}
  {
    if Unfinished(start) == {} {
      forall ms | Proper(start, ms) ensures Bounded(start, ms) {
        OnceExecutedLoop(start, ms);
      }
    } else {
      var name :| name in Unfinished(start);
      var ms := ForeignTaskFeedsLoop(start, name, 2);
      assert Proper(start, ms) && !Bounded(start, ms);
    }
  }

  /** Such a moment: an index one version behind, while an optimize task that a user submitted without a key waits. */
  const BESIDE_FOREIGN := Site(
    1, Fleet(Db(map[], map["f" := Task(INDEX_OPTIMIZE, "d", "a", PENDING, 5, 0, 3, None, None, map[],
                                       None, None, None, None, None, 0)]),
             map[1 := Index("d", "i", "c", "IVF_PQ", READY, 0, None, None, None)],
             map["d" := Dataset("a", "c", "s", "t", "u", None, false)]), 1, 0, map[])

  lemma BesideForeign()
    ensures Quiescent(BESIDE_FOREIGN) && Unfinished(BESIDE_FOREIGN) == {"f"}
  {
    assert Seen(BESIDE_FOREIGN) == 0;
  }
}
