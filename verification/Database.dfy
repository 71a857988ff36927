/** The tables of lcp.db.models that the services below read and write, and the session
    through which a service call sees and changes the committed rows. */
module Database {

  datatype Option<+T> = None | Some(value: T)

  datatype TaskStatus = PENDING | QUEUED | RUNNING | SUCCEEDED | FAILED | CANCELLED

  datatype WorkerStatus = ALIVE | DRAINING | DEAD

  datatype IndexStatus = BUILDING | READY | OPTIMIZING | MERGING | INDEX_FAILED | DROPPED

  /** One entry of a JSON parameter dictionary. */
  datatype Param = Text(text: string) | Number(number: int)

  /** A row of `task`; the table is keyed by task_uuid. */
  datatype Task = Task(
    taskType: string,
    datasetUuid: string,
    tenantId: string,
    status: TaskStatus,
    priority: int,
    attempt: int,
    maxAttempts: int,
    workerId: Option<string>,
    idempotencyKey: Option<string>,
    params: map<string, Param>,
    result: Option<string>,
    errorCode: Option<string>,
    errorMessage: Option<string>,
    startedAt: Option<int>,
    finishedAt: Option<int>,
    createdAt: int)

  /** A row of `worker_registry`; the table is keyed by worker_id. */
  datatype Worker = Worker(
    workerType: string,
    leaseId: string,
    capacity: int,
    inFlight: int,
    status: WorkerStatus,
    lastHeartbeatAt: int)

  /** A row of `vector_index`; the table is keyed by its numeric id. */
  datatype Index = Index(
    datasetUuid: string,
    indexName: string,
    columnName: string,
    indexType: string,
    status: IndexStatus,
    deltaCount: int,
    lastOptimizedAt: Option<int>,
    lastSeenVersion: Option<int>,
    errorMessage: Option<string>)

  /** A row of `dataset`; the table is keyed by dataset_uuid. */
  datatype Dataset = Dataset(
    tenantId: string,
    catalog: string,
    dbSchema: string,
    tableName: string,
    storageUri: string,
    description: Option<string>,
    deleted: bool)

  /** A row of `lifecycle_policy`; the table is keyed by its numeric id. */
  datatype Policy = Policy(
    datasetUuid: string,
    policyName: string,
    ttlDays: Option<int>,
    hasCompactionThreshold: bool,
    indexOptimizeCron: string,              // empty when not set
    watchEnabled: bool,
    minUnindexedRows: Option<int>,
    minVersionDrift: Option<int>,
    staleMinutes: Option<int>,
    enabled: bool)

  /** A row of `vectorization_rule`; the table is keyed by its numeric id. */
  datatype Rule = Rule(datasetUuid: string, targetColumn: string, modelName: string, enabled: bool)

  /** The principal bound to a call: one tenant, or the system. */
  datatype Principal = Principal(tenantId: string, isSystem: bool) {
    /** What the row-level filter lets this principal see. */
    predicate Sees(tenant: string) {
      isSystem || tenant == tenantId
    }
  }

  /** The two tables of the dispatch protocol. */
  datatype Db = Db(workers: map<string, Worker>, tasks: map<string, Task>)

  /** The dispatch tables together with the index rows and the datasets. */
  datatype Fleet = Fleet(db: Db, indexes: map<nat, Index>, datasets: map<string, Dataset>)

  /** A database session: every service call reads and reassigns these tables, and what is
      stored here is what the call committed. */
  class Session {
    var workers: map<string, Worker>
    var tasks: map<string, Task>
    var indexes: map<nat, Index>
    var datasets: map<string, Dataset>
    var policies: map<nat, Policy>
    var rules: map<nat, Rule>
    var lastRunAt: map<nat, int>            // the last_run_at column of lifecycle_policy

    constructor ()
      ensures Committed() == Fleet(Db(map[], map[]), map[], map[])
    {
      workers, tasks, indexes, datasets := map[], map[], map[], map[];
      policies, rules, lastRunAt := map[], map[], map[];
    }

    function Rows(): Db
      reads this
    {
      Db(workers, tasks)
    }

    function Committed(): Fleet
      reads this
    {
      Fleet(Rows(), indexes, datasets)
    }
  }
}
