/**
 * The import protocol as a state machine: any number of executions, client transitions and job
 * creations over one database, interleaved at their transaction boundaries.
 */
module ImportProtocol {
  import opened Wrappers
  import opened Batching
  import opened Entities
  import opened ImportJobs

  /**
   * One call of `execute`, by where it stands. While Locked or FailLocked it holds the lock on the
   * job's row; while Importing its inserts are visible to itself only.
   */
  datatype Execution =
    | Locked(job: Id, loaded: Job, mapping: Mapping, file: Id)
    | Importing(job: Id, loaded: Job, mapping: Mapping, file: Id, handed: nat)
    | Failing(job: Id, error: ExecuteError)
    | FailLocked(job: Id, loaded: Job, error: ExecuteError)
    | Ended(job: Id, result: Result<nat, ExecuteError>)
    | Crashed(job: Id)

  /** One call of `transition` between its read, which takes no lock, and its write. */
  datatype Edit = Edit(job: Id, loaded: Job, request: Request, at: Time)

  datatype State = State(db: Database, executions: map<Id, Execution>, edits: map<Id, Edit>, clock: Time)

  datatype Step =
    | Tick(elapsed: nat)
    | CreateJob(id: Id, datasource: Id, organization: Id, key: string, total: nat)
    | PrepareJob(id: Id, datasource: Id, file: Id, organization: Id, mapping: Mapping, key: string)
    | ReadForTransition(q: Id, id: Id, organization: Id, request: Request)
    | WriteTransition(q: Id)
    | LockForExecution(p: Id, id: Id, organization: Id, datasource: Id)
    | CommitClaim(p: Id)
    | InsertBatch(p: Id)
    | RaiseImportError(p: Id)
    | RaiseFault(p: Id, error: ExecuteError)
    | CommitCompletion(p: Id, refreshed: bool)
    | LockForFailure(p: Id)
    | CommitFailure(p: Id)
    | FailFailureHandler(p: Id)
    | Crash(p: Id)

  // ---------- Steps ----------

  predicate HoldsLock(e: Execution, job: Id) {
    (e.Locked? || e.FailLocked?) && e.job == job
  }

  predicate RowFree(st: State, job: Id) {
    forall p :: p in st.executions ==> !HoldsLock(st.executions[p], job)
  }

  function WithJob(db: Database, id: Id, job: Job): Database {
    db.(jobs := db.jobs[id := job])
  }

  function ScanOf(l: Pipeline, st: State, e: Execution): Scan
    requires e.Importing? && e.file in st.db.files
  {
    l.scan(OwnerOf(e.job, e.loaded), e.mapping, st.db.files[e.file].events)
  }

  function SetExecution(st: State, p: Id, e: Execution): State {
    st.(executions := st.executions[p := e])
  }

  /** All batches of the file have been handed over and none is left in memory. */
  predicate AllHanded(l: Pipeline, st: State, e: Execution)
    requires e.Importing? && e.file in st.db.files
  {
    e.handed == |Handed(l.batchSize, ScanOf(l, st, e))|
  }

  function DoReadForTransition(st: State, q: Id, id: Id, organization: Id, request: Request): State {
    if q in st.edits || id !in st.db.jobs || st.db.jobs[id].organization != organization then st
    else
      match CheckRequest(request)
      case None => st
      case Some(r) =>
        if Transition(st.db.jobs[id], r, st.clock).Err? then st
        else st.(edits := st.edits[q := Edit(id, st.db.jobs[id], r, st.clock)])
  }

  /** The row that the commit of `transition` would leave. */
  function WrittenJob(st: State, q: Id): Job
    requires q in st.edits && st.edits[q].job in st.db.jobs
    requires Transition(st.edits[q].loaded, st.edits[q].request, st.edits[q].at).Ok?
  {
    var e := st.edits[q];
    Flush(e.loaded, Transition(e.loaded, e.request, e.at).value, st.db.jobs[e.job])
  }

  /** The UPDATE can be made: its row is there and free. */
  predicate Writable(st: State, q: Id) {
    && q in st.edits && st.edits[q].job in st.db.jobs && RowFree(st, st.edits[q].job)
    && Transition(st.edits[q].loaded, st.edits[q].request, st.edits[q].at).Ok?
  }

  /**
   * The commit of `transition`: an UPDATE of the changed columns, without looking at the row again. The
   * database refuses it when the counters would no longer fit.
   */
  function DoWriteTransition(st: State, q: Id): State {
    if !Writable(st, q) then st
    else if !CountsFit(WrittenJob(st, q)) then st.(edits := st.edits - {q})
    else st.(db := WithJob(st.db, st.edits[q].job, WrittenJob(st, q)), edits := st.edits - {q})
  }

  function DoLockForExecution(l: Pipeline, st: State, p: Id, id: Id, organization: Id, datasource: Id): State {
    if p in st.executions || !RowFree(st, id) then st
    else
      match ClaimChecks(l, st.db, id, organization, datasource)
      case Err(e) => SetExecution(st, p, Ended(id, Err(e)))
      case Ok((mapping, file)) => SetExecution(st, p, Locked(id, st.db.jobs[id], mapping, file))
  }

  function DoCommitClaim(st: State, p: Id): State {
    if p !in st.executions || !st.executions[p].Locked? || st.executions[p].job !in st.db.jobs then st
    else
      var e := st.executions[p];
      var claimed := ClaimedJob(e.loaded, st.clock);
      SetExecution(st.(db := WithJob(st.db, e.job, Flush(e.loaded, claimed, st.db.jobs[e.job]))), p,
                   Importing(e.job, claimed, e.mapping, e.file, 0))
  }

  predicate IsImporting(st: State, p: Id) {
    p in st.executions && st.executions[p].Importing? && st.executions[p].file in st.db.files
    && st.executions[p].job in st.db.jobs
  }

  function AfterInsert(st: State, p: Id): State
    requires IsImporting(st, p)
  {
    SetExecution(st, p, st.executions[p].(handed := st.executions[p].handed + 1))
  }

  function DoInsertBatch(l: Pipeline, st: State, p: Id): State {
    if !IsImporting(st, p) || AllHanded(l, st, st.executions[p]) then st else AfterInsert(st, p)
  }

  /** The loop meets the file's first error, after every full batch before it. */
  function DoRaiseImportError(l: Pipeline, st: State, p: Id): State {
    if !IsImporting(st, p) || !AllHanded(l, st, st.executions[p]) then st
    else
      var e := st.executions[p];
      match ScanOf(l, st, e).outcome
      case Ok(_) => st
      case Err(error) => SetExecution(st, p, Failing(e.job, ImportStopped(error)))
  }

  /** A database error or any other exception before the completion commit. */
  function DoRaiseFault(st: State, p: Id, error: ExecuteError): State {
    if !IsImporting(st, p) || !(error.PersistenceFailed? || error.Unexpected?) then st
    else SetExecution(st, p, Failing(st.executions[p].job, error))
  }

  /** All records together with the job's final columns, without looking at the stored status. */
  function AfterCompletion(st: State, p: Id, rows: seq<Insert>, items: nat, refreshed: bool): State
    requires IsImporting(st, p)
  {
    var e := st.executions[p];
    var stored := Flush(e.loaded, CompletedJob(e.loaded, items, st.clock), st.db.jobs[e.job]);
    SetExecution(st.(db := WithJob(st.db, e.job, stored).(records := st.db.records + rows)), p,
                 if refreshed then Ended(e.job, Ok(items)) else Failing(e.job, PersistenceFailed))
  }

  /** The completion commit. The refresh after it may still raise. */
  function DoCommitCompletion(l: Pipeline, st: State, p: Id, refreshed: bool): State {
    if !IsImporting(st, p) || !AllHanded(l, st, st.executions[p]) || !RowFree(st, st.executions[p].job) then st
    else
      var scan := ScanOf(l, st, st.executions[p]);
      match scan.outcome
      case Err(_) => st
      case Ok(items) => AfterCompletion(st, p, Flatten(Handed(l.batchSize, scan)), items, refreshed)
  }

  function DoLockForFailure(st: State, p: Id): State {
    if p !in st.executions || !st.executions[p].Failing? || !RowFree(st, st.executions[p].job) then st
    else
      var e := st.executions[p];
      if e.job !in st.db.jobs || !st.db.jobs[e.job].status.Running? then SetExecution(st, p, Ended(e.job, Err(e.error)))
      else SetExecution(st, p, FailLocked(e.job, st.db.jobs[e.job], e.error))
  }

  function DoCommitFailure(st: State, p: Id): State {
    if p !in st.executions || !st.executions[p].FailLocked? || st.executions[p].job !in st.db.jobs then st
    else
      var e := st.executions[p];
      var stored := Flush(e.loaded, FailedJob(e.loaded, st.clock), st.db.jobs[e.job]);
      var db := WithJob(st.db, e.job, stored).(issues := st.db.issues + IssueRows(e.job, IssuesIn(e.error)));
      SetExecution(st.(db := db), p, Ended(e.job, Err(e.error)))
  }

  /** Whatever goes wrong inside the handler is swallowed after a rollback. */
  function DoFailFailureHandler(st: State, p: Id): State {
    if p !in st.executions || !(st.executions[p].Failing? || st.executions[p].FailLocked?) then st
    else SetExecution(st, p, Ended(st.executions[p].job, Err(st.executions[p].error)))
  }

  function AddJob(st: State, id: Id, job: Result<Job, CreateError>): State {
    match job
    case Err(_) => st
    case Ok(j) => st.(db := WithJob(st.db, id, j))
  }

  /** A step that is not possible in a state leaves the state alone. */
  function Next(l: Pipeline, st: State, step: Step): State {
    match step
    case Tick(elapsed) => st.(clock := st.clock + elapsed)
    case CreateJob(id, datasource, organization, key, total) =>
      AddJob(st, id, Create(st.db, id, datasource, organization, key, total))
    case PrepareJob(id, datasource, file, organization, mapping, key) =>
      AddJob(st, id, Prepare(l, st.db, id, datasource, file, organization, mapping, key))
    case ReadForTransition(q, id, organization, request) => DoReadForTransition(st, q, id, organization, request)
    case WriteTransition(q) => DoWriteTransition(st, q)
    case LockForExecution(p, id, organization, datasource) => DoLockForExecution(l, st, p, id, organization, datasource)
    case CommitClaim(p) => DoCommitClaim(st, p)
    case InsertBatch(p) => DoInsertBatch(l, st, p)
    case RaiseImportError(p) => DoRaiseImportError(l, st, p)
    case RaiseFault(p, error) => DoRaiseFault(st, p, error)
    case CommitCompletion(p, refreshed) => DoCommitCompletion(l, st, p, refreshed)
    case LockForFailure(p) => DoLockForFailure(st, p)
    case CommitFailure(p) => DoCommitFailure(st, p)
    case FailFailureHandler(p) => DoFailFailureHandler(st, p)
    case Crash(p) => if p in st.executions then SetExecution(st, p, Crashed(st.executions[p].job)) else st
  }

  function Run(l: Pipeline, st: State, steps: seq<Step>): State {
    if steps == [] then st
    else
      var n := |steps| - 1;
      Next(l, Run(l, st, steps[..n]), steps[n])
  }
}
