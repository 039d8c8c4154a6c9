/** What every interleaving of the import protocol keeps, whatever fails and whatever clients request. */
module ImportSafety {
  import opened Wrappers
  import opened Batching
  import opened Entities
  import opened ImportJobs
  import opened ImportProtocol
  import PyText

  // ---------- The invariant ----------

  ghost predicate NoRecords(db: Database, id: Id) {
    forall i :: 0 <= i < |db.records| ==> db.records[i].owner.job != id
  }

  ghost predicate NoIssues(db: Database, id: Id) {
    forall i :: 0 <= i < |db.issues| ==> db.issues[i].job != id
  }

  /** A job made by `prepare` points at a file of its own datasource and holds an accepted mapping. */
  ghost predicate Executable(l: Pipeline, db: Database, job: Job) {
    && job.uploadedFile.Some? && job.uploadedFile.value in db.files
    && db.files[job.uploadedFile.value].organization == job.organization
    && db.files[job.uploadedFile.value].datasource == job.datasource
    && l.read(job.configuration).Some?
  }

  /** The job's records are none, or exactly the image of every data row of its file, in order. */
  ghost predicate AllOrNothing(l: Pipeline, db: Database, id: Id)
    requires id in db.jobs
  {
    || NoRecords(db, id)
    || (Executable(l, db, db.jobs[id])
        && JobScan(l, db.files, id, db.jobs[id]).outcome.Ok?
        && RecordsOf(db.records, id) == JobScan(l, db.files, id, db.jobs[id]).accepted)
  }

  ghost predicate InScope(db: Database, job: Job) {
    job.datasource in db.datasources && db.datasources[job.datasource] == Datasource(job.organization, job.research)
  }

  ghost predicate JobInv(l: Pipeline, db: Database, id: Id)
    requires id in db.jobs
  {
    var job := db.jobs[id];
    && InScope(db, job)
    && (job.uploadedFile.Some? ==> Executable(l, db, job) && job.total == job.processed && job.failed == 0)
    && (job.status.Pending? ==> NoRecords(db, id) && NoIssues(db, id) && (job.uploadedFile.Some? ==> job.total == 0))
    && AllOrNothing(l, db, id)
  }

  ghost predicate KeysUnique(db: Database) {
    forall i, j :: i in db.jobs && j in db.jobs && i != j ==> !SameKey(db.jobs[i], db.jobs[j])
  }

  predicate SameKey(a: Job, b: Job) {
    a.organization == b.organization && a.datasource == b.datasource && a.key == b.key
  }

  /** The unique keys (job, row) and (job, row, order), and the scope of every record. */
  ghost predicate TablesInv(db: Database) {
    && (forall i :: 0 <= i < |db.records| ==>
          db.records[i].owner.job in db.jobs
          && db.records[i].owner == OwnerOf(db.records[i].owner.job, db.jobs[db.records[i].owner.job]))
    && (forall i, j :: 0 <= i < j < |db.records| && db.records[i].owner.job == db.records[j].owner.job ==>
          db.records[i].rowNumber < db.records[j].rowNumber)
    && (forall i, j :: 0 <= i < j < |db.issues| && db.issues[i].job == db.issues[j].job ==>
          db.issues[i].order < db.issues[j].order)
    && (forall i :: 0 <= i < |db.issues| ==> db.issues[i].job in db.jobs)
  }

  /** A call of `execute` that has committed its claim and is not over. */
  ghost predicate Claimed(e: Execution) {
    e.Importing? || e.Failing? || e.FailLocked?
  }

  ghost predicate ExecutionInv(l: Pipeline, db: Database, e: Execution) {
    match e
    case Locked(id, loaded, mapping, file) =>
      && id in db.jobs && db.jobs[id] == loaded && loaded.status.Pending?
      && loaded.uploadedFile == Some(file) && l.read(loaded.configuration) == Some(mapping)
    case Importing(id, loaded, mapping, file, handed) =>
      && id in db.jobs && SameIdentity(loaded, db.jobs[id]) && !db.jobs[id].status.Pending?
      && loaded.uploadedFile == Some(file) && l.read(loaded.configuration) == Some(mapping)
      && loaded.total == 0 && loaded.processed == 0 && loaded.failed == 0 && loaded.status.Running?
      && loaded.error == None && loaded.completedAt == None
      && db.jobs[id].total == 0
      && NoRecords(db, id) && NoIssues(db, id)
    case Failing(id, _) => id in db.jobs && !db.jobs[id].status.Pending? && NoIssues(db, id)
    case FailLocked(id, loaded, _) => id in db.jobs && db.jobs[id] == loaded && loaded.status.Running? && NoIssues(db, id)
    case _ => true
  }

  /** At most one call has claimed a job, and at most one holds its lock. */
  ghost predicate ExecutionsDisjoint(executions: map<Id, Execution>) {
    forall p, q :: p in executions && q in executions && p != q && executions[p].job == executions[q].job ==>
      !(Claimed(executions[p]) && Claimed(executions[q]))
      && !(HoldsLock(executions[p], executions[p].job) && HoldsLock(executions[q], executions[q].job))
  }

  ghost predicate EditInv(db: Database, e: Edit, clock: Time) {
    && e.job in db.jobs && SameIdentity(e.loaded, db.jobs[e.job])
    && Transition(e.loaded, e.request, e.at).Ok? && e.at <= clock
    && CheckRequest(e.request) == Some(e.request)
    && (e.loaded.uploadedFile.Some? ==> e.loaded.total == e.loaded.processed && e.loaded.failed == 0)
  }

  ghost predicate FilesNumbered(db: Database) {
    forall f :: f in db.files ==> Numbered(db.files[f].events)
  }

  ghost predicate Inv(l: Pipeline, st: State) {
    && Sound(l)
    && FilesNumbered(st.db)
    && (forall id :: id in st.db.jobs ==> JobInv(l, st.db, id))
    && KeysUnique(st.db)
    && TablesInv(st.db)
    && (forall p :: p in st.executions ==> ExecutionInv(l, st.db, st.executions[p]))
    && ExecutionsDisjoint(st.executions)
    && (forall q :: q in st.edits ==> EditInv(st.db, st.edits[q], st.clock))
  }

  /** A database with datasources and files, and no jobs yet. */
  ghost predicate Initial(st: State) {
    && FilesNumbered(st.db)
    && st.db.jobs == map[] && st.db.records == [] && st.db.issues == []
    && st.executions == map[] && st.edits == map[]
  }

  // ---------- What the changes of one row keep ----------

  /** A prepared job's counters are out of reach of `transition`: its edits never change them. */
  lemma TransitionKeepsCounters(job: Job, r: Request, now: Time)
    requires Transition(job, r, now).Ok?
    ensures SameIdentity(job, Transition(job, r, now).value) && Transition(job, r, now).value.total == job.total
    ensures job.total == job.processed && job.failed == 0 ==>
              Transition(job, r, now).value.processed == job.processed && Transition(job, r, now).value.failed == 0
    ensures !Transition(job, r, now).value.status.Pending?
    ensures Transition(job, r, now).value.status != job.status
  {
  }

  lemma CheckRequestStable(r: Request)
    requires CheckRequest(r).Some?
    ensures CheckRequest(CheckRequest(r).value) == CheckRequest(r)
  {
    if r.error.Some? { PyText.StripTrims(r.error.value); }
  }

  // ---------- Changes the steps are made of ----------

  lemma RemoveExecution(l: Pipeline, st: State, p: Id)
    requires Inv(l, st)
    ensures Inv(l, st.(executions := st.executions - {p}))
  {
  }

  /** Nobody else has claimed the job of this execution, or holds the lock it holds. */
  ghost predicate Alone(st: State, p: Id, e: Execution) {
    forall q :: q in st.executions && q != p && st.executions[q].job == e.job ==>
      !(Claimed(st.executions[q]) && Claimed(e))
      && !(HoldsLock(st.executions[q], e.job) && HoldsLock(e, e.job))
  }

  lemma PutExecution(l: Pipeline, st: State, p: Id, e: Execution)
    requires Inv(l, st) && ExecutionInv(l, st.db, e) && Alone(st, p, e)
    ensures Inv(l, SetExecution(st, p, e))
  {
  }

  /** Replacing a row whose lock is free by one with the same identity. */
  lemma ReplaceRow(l: Pipeline, st: State, id: Id, job: Job)
    requires Inv(l, st) && id in st.db.jobs && RowFree(st, id)
    requires SameIdentity(job, st.db.jobs[id]) && !job.status.Pending?
    requires job.uploadedFile.Some? ==> job.total == job.processed && job.failed == 0
    requires job.total == st.db.jobs[id].total
             || forall p :: p in st.executions && st.executions[p].job == id ==> !st.executions[p].Importing?
    ensures Inv(l, st.(db := WithJob(st.db, id, job)))
  {
    var db := WithJob(st.db, id, job);
    forall k | k in db.jobs ensures JobInv(l, db, k) {
      assert JobInv(l, st.db, k);
    }
    forall p | p in st.executions ensures ExecutionInv(l, db, st.executions[p]) {
      assert ExecutionInv(l, st.db, st.executions[p]);
      assert !HoldsLock(st.executions[p], id);
    }
    forall q | q in st.edits ensures EditInv(db, st.edits[q], st.clock) {
      assert EditInv(st.db, st.edits[q], st.clock);
    }
  }

  /** Adding all records of a job that has none, when no claim on it is open. */
  lemma AddRecords(l: Pipeline, st: State, id: Id, added: seq<Insert>)
    requires Inv(l, st) && id in st.db.jobs && NoRecords(st.db, id) && !st.db.jobs[id].status.Pending?
    requires Executable(l, st.db, st.db.jobs[id])
    requires JobScan(l, st.db.files, id, st.db.jobs[id]).outcome.Ok?
    requires added == JobScan(l, st.db.files, id, st.db.jobs[id]).accepted
    requires forall p :: p in st.executions && st.executions[p].job == id ==> !Claimed(st.executions[p])
    ensures Inv(l, st.(db := st.db.(records := st.db.records + added)))
  {
    var db := st.db.(records := st.db.records + added);
    JobScanInOrder(l, st.db, id);
    NewRecords(st.db, added, id);
    AppendRecordRows(st.db, db, added, id);
    forall k | k in db.jobs ensures JobInv(l, db, k) {
      RecordRowsOfOthers(l, st.db, db, added, id, k);
    }
    forall p | p in st.executions ensures ExecutionInv(l, db, st.executions[p]) {
      ExecutionKeptByRecords(l, st.db, db, added, id, st.executions[p]);
    }
    forall q | q in st.edits ensures EditInv(db, st.edits[q], st.clock) {
      assert EditInv(st.db, st.edits[q], st.clock);
    }
  }

  lemma NewRecords(db: Database, added: seq<Insert>, id: Id)
    requires NoRecords(db, id) && forall i :: 0 <= i < |added| ==> added[i].owner.job == id
    ensures RecordsOf(db.records + added, id) == added
  {
    RecordsAdded(db.records, added, id, id);
    RecordsOfOthers(db.records, id);
  }

  lemma JobScanInOrder(l: Pipeline, db: Database, id: Id)
    requires Sound(l) && FilesNumbered(db) && id in db.jobs && Executable(l, db, db.jobs[id])
    ensures var accepted := JobScan(l, db.files, id, db.jobs[id]).accepted;
            && (forall i, j :: 0 <= i < j < |accepted| ==> accepted[i].rowNumber < accepted[j].rowNumber)
            && (forall i :: 0 <= i < |accepted| ==> accepted[i].owner == OwnerOf(id, db.jobs[id]))
  {
    var job := db.jobs[id];
    assert Ordered(JobScan(l, db.files, id, job), OwnerOf(id, job), db.files[job.uploadedFile.value].events);
  }

  lemma ExecutionKeptByRecords(l: Pipeline, before: Database, after: Database, added: seq<Insert>, id: Id, e: Execution)
    requires after == before.(records := before.records + added)
    requires forall i :: 0 <= i < |added| ==> added[i].owner.job == id
    requires ExecutionInv(l, before, e) && (e.job == id ==> !Claimed(e))
    ensures ExecutionInv(l, after, e)
  {
    if e.Importing? { OthersStayEmpty(before, after, added, id, e.job); }
  }

  lemma RecordRowsOfOthers(l: Pipeline, before: Database, after: Database, added: seq<Insert>, id: Id, k: Id)
    requires after == before.(records := before.records + added)
    requires id in before.jobs && k in before.jobs && JobInv(l, before, k)
    requires forall i :: 0 <= i < |added| ==> added[i].owner.job == id
    requires k == id ==>
               && !before.jobs[id].status.Pending? && Executable(l, before, before.jobs[id])
               && JobScan(l, before.files, id, before.jobs[id]).outcome.Ok?
               && RecordsOf(after.records, id) == JobScan(l, before.files, id, before.jobs[id]).accepted
    ensures JobInv(l, after, k)
  {
    RecordsAdded(before.records, added, id, k);
    if k != id { OthersStayEmpty(before, after, added, id, k); }
  }

  lemma AppendRecordRows(before: Database, after: Database, added: seq<Insert>, id: Id)
    requires TablesInv(before) && after == before.(records := before.records + added)
    requires id in before.jobs && NoRecords(before, id)
    requires forall i :: 0 <= i < |added| ==> added[i].owner == OwnerOf(id, before.jobs[id])
    requires forall i, j :: 0 <= i < j < |added| ==> added[i].rowNumber < added[j].rowNumber
    ensures TablesInv(after)
  {
    forall i, j | 0 <= i < j < |after.records| && after.records[i].owner.job == after.records[j].owner.job
      ensures after.records[i].rowNumber < after.records[j].rowNumber
    {
      var n := |before.records|;
      if j < n {
        assert after.records[i] == before.records[i] && after.records[j] == before.records[j];
      } else {
        assert after.records[j] == added[j - n];
        if i >= n { assert after.records[i] == added[i - n]; }
      }
    }
  }

  lemma OthersStayEmpty(before: Database, after: Database, added: seq<Insert>, id: Id, other: Id)
    requires after.records == before.records + added && other != id
    requires forall i :: 0 <= i < |added| ==> added[i].owner.job == id
    ensures NoRecords(before, other) ==> NoRecords(after, other)
  {
  }

  /** Adding the numbered issues of a job that has none, when no claim on it is open. */
  lemma AddIssues(l: Pipeline, st: State, id: Id, issues: seq<Issue>)
    requires Inv(l, st) && id in st.db.jobs && NoIssues(st.db, id) && !st.db.jobs[id].status.Pending?
    requires forall p :: p in st.executions && st.executions[p].job == id ==> !Claimed(st.executions[p])
    ensures Inv(l, st.(db := st.db.(issues := st.db.issues + IssueRows(id, issues))))
  {
    var added := IssueRows(id, issues);
    var db := st.db.(issues := st.db.issues + added);
    forall k | k in db.jobs ensures JobInv(l, db, k) {
      assert JobInv(l, st.db, k);
    }
    forall p | p in st.executions ensures ExecutionInv(l, db, st.executions[p]) {
      assert ExecutionInv(l, st.db, st.executions[p]);
    }
    forall q | q in st.edits ensures EditInv(db, st.edits[q], st.clock) {
      assert EditInv(st.db, st.edits[q], st.clock);
    }
    AppendIssueRows(st.db, db, issues, id);
  }

  lemma AppendIssueRows(before: Database, after: Database, issues: seq<Issue>, id: Id)
    requires TablesInv(before) && after == before.(issues := before.issues + IssueRows(id, issues))
    requires id in before.jobs && NoIssues(before, id)
    ensures TablesInv(after)
  {
    forall i, j | 0 <= i < j < |after.issues| && after.issues[i].job == after.issues[j].job
      ensures after.issues[i].order < after.issues[j].order
    {
      var n := |before.issues|;
      if j < n {
        assert after.issues[i] == before.issues[i] && after.issues[j] == before.issues[j];
      } else {
        assert after.issues[j] == IssueRow(id, j - n, issues[j - n]);
        if i >= n { assert after.issues[i] == IssueRow(id, i - n, issues[i - n]); }
      }
    }
  }

  // ---------- Every step keeps the invariant ----------

  lemma AddJobKeeps(l: Pipeline, st: State, id: Id, job: Job)
    requires Inv(l, st) && id !in st.db.jobs
    requires InScope(st.db, job) && job.status.Pending?
    requires job.uploadedFile.Some? ==> Executable(l, st.db, job) && job.total == job.processed == job.failed == 0
    requires !KeyTaken(st.db, job.organization, job.datasource, job.key)
    ensures Inv(l, st.(db := WithJob(st.db, id, job)))
  {
    var db := WithJob(st.db, id, job);
    forall k | k in db.jobs ensures JobInv(l, db, k) {
      if k != id { assert JobInv(l, st.db, k); }
    }
    forall p | p in st.executions ensures ExecutionInv(l, db, st.executions[p]) {
      assert ExecutionInv(l, st.db, st.executions[p]);
    }
    forall q | q in st.edits ensures EditInv(db, st.edits[q], st.clock) {
      assert EditInv(st.db, st.edits[q], st.clock);
    }
  }

  lemma CreateKeeps(l: Pipeline, st: State, id: Id, datasource: Id, organization: Id, key: string, total: nat)
    requires Inv(l, st)
    ensures Inv(l, Next(l, st, CreateJob(id, datasource, organization, key, total)))
  {
    var r := Create(st.db, id, datasource, organization, key, total);
    if r.Ok? { AddJobKeeps(l, st, id, r.value); }
  }

  lemma PrepareKeeps(l: Pipeline, st: State, id: Id, datasource: Id, file: Id, organization: Id,
                     mapping: Mapping, key: string)
    requires Inv(l, st)
    ensures Inv(l, Next(l, st, PrepareJob(id, datasource, file, organization, mapping, key)))
  {
    var r := Prepare(l, st.db, id, datasource, file, organization, mapping, key);
    if r.Ok? {
      AddJobKeeps(l, st, id, r.value);
    }
  }

  lemma ReadForTransitionKeeps(l: Pipeline, st: State, q: Id, id: Id, organization: Id, request: Request)
    requires Inv(l, st)
    ensures Inv(l, DoReadForTransition(st, q, id, organization, request))
  {
    if CheckRequest(request).Some? { CheckRequestStable(request); }
  }

  lemma WriteTransitionKeeps(l: Pipeline, st: State, q: Id)
    requires Inv(l, st)
    ensures Inv(l, DoWriteTransition(st, q))
  {
    if q in st.edits && RowFree(st, st.edits[q].job) {
      var e := st.edits[q];
      assert EditInv(st.db, e, st.clock);
      TransitionKeepsCounters(e.loaded, e.request, e.at);
      var edited := Transition(e.loaded, e.request, e.at).value;
      assert JobInv(l, st.db, e.job);
      ReplaceRow(l, st, e.job, Flush(e.loaded, edited, st.db.jobs[e.job]));
    }
  }

  lemma LockForExecutionKeeps(l: Pipeline, st: State, p: Id, id: Id, organization: Id, datasource: Id)
    requires Inv(l, st)
    ensures Inv(l, DoLockForExecution(l, st, p, id, organization, datasource))
  {
    if p !in st.executions && RowFree(st, id) {
      match ClaimChecks(l, st.db, id, organization, datasource)
      case Err(e) => PutExecution(l, st, p, Ended(id, Err(e)));
      case Ok((mapping, file)) =>
        ClaimChecksPass(l, st.db, id, organization, datasource);
        PutExecution(l, st, p, Locked(id, st.db.jobs[id], mapping, file));
    }
  }

  lemma ClaimChecksPass(l: Pipeline, db: Database, id: Id, organization: Id, datasource: Id)
    requires ClaimChecks(l, db, id, organization, datasource).Ok?
    ensures id in db.jobs
    ensures var (mapping, file) := ClaimChecks(l, db, id, organization, datasource).value;
            ExecutionInv(l, db, Locked(id, db.jobs[id], mapping, file))
  {
  }

  /** Taking an execution out while its step is under way. */
  function Without(st: State, p: Id): State {
    st.(executions := st.executions - {p})
  }

  lemma WithoutHolder(l: Pipeline, st: State, p: Id)
    requires Inv(l, st) && p in st.executions
    ensures Inv(l, Without(st, p))
    ensures HoldsLock(st.executions[p], st.executions[p].job) ==> RowFree(Without(st, p), st.executions[p].job)
    ensures Claimed(st.executions[p]) ==>
              forall q :: q in Without(st, p).executions && st.executions[q].job == st.executions[p].job ==>
                !Claimed(st.executions[q])
  {
    RemoveExecution(l, st, p);
  }

  lemma PutBack(st: State, p: Id, db: Database, e: Execution)
    ensures SetExecution(Without(st, p).(db := db), p, e) == SetExecution(st.(db := db), p, e)
  {
    assert (st.executions - {p})[p := e] == st.executions[p := e];
  }

  lemma CommitClaimKeeps(l: Pipeline, st: State, p: Id)
    requires Inv(l, st)
    ensures Inv(l, DoCommitClaim(st, p))
  {
    if p in st.executions && st.executions[p].Locked? {
      var e := st.executions[p];
      assert ExecutionInv(l, st.db, e);
      WithoutHolder(l, st, p);
      var claimed := ClaimedJob(e.loaded, st.clock);
      ClaimRow(l, Without(st, p), p, e, claimed);
      PutBack(st, p, WithJob(st.db, e.job, Flush(e.loaded, claimed, st.db.jobs[e.job])),
              Importing(e.job, claimed, e.mapping, e.file, 0));
    }
  }

  lemma PendingIsUnclaimed(l: Pipeline, st: State, id: Id)
    requires Inv(l, st) && id in st.db.jobs && st.db.jobs[id].status.Pending?
    ensures forall q :: q in st.executions && st.executions[q].job == id ==> !Claimed(st.executions[q])
  {
    forall q | q in st.executions && st.executions[q].job == id ensures !Claimed(st.executions[q]) {
      assert ExecutionInv(l, st.db, st.executions[q]);
    }
  }

  lemma ClaimRow(l: Pipeline, st: State, p: Id, e: Execution, claimed: Job)
    requires Inv(l, st) && p !in st.executions && e.Locked? && ExecutionInv(l, st.db, e) && RowFree(st, e.job)
    requires claimed == ClaimedJob(e.loaded, st.clock)
    ensures Inv(l, SetExecution(st.(db := WithJob(st.db, e.job, Flush(e.loaded, claimed, st.db.jobs[e.job]))), p,
                                Importing(e.job, claimed, e.mapping, e.file, 0)))
  {
    PendingIsUnclaimed(l, st, e.job);
    FlushLoaded(e.loaded, claimed);
    assert JobInv(l, st.db, e.job);
    ReplaceRow(l, st, e.job, claimed);
    PutExecution(l, st.(db := WithJob(st.db, e.job, claimed)), p, Importing(e.job, claimed, e.mapping, e.file, 0));
  }

  /** When the stored row is the loaded one, the UPDATE stores the edited row. */
  lemma FlushLoaded(loaded: Job, edited: Job)
    requires SameIdentity(loaded, edited)
    ensures Flush(loaded, edited, loaded) == edited
  {
  }

  lemma InsertBatchKeeps(l: Pipeline, st: State, p: Id)
    requires Inv(l, st)
    ensures Inv(l, DoInsertBatch(l, st, p))
  {
  }

  lemma RaiseKeeps(l: Pipeline, st: State, p: Id, error: ExecuteError)
    requires Inv(l, st)
    ensures Inv(l, DoRaiseImportError(l, st, p))
    ensures Inv(l, DoRaiseFault(st, p, error))
  {
    if IsImporting(st, p) {
      var e := st.executions[p];
      assert ExecutionInv(l, st.db, e);
      PutExecution(l, st, p, Failing(e.job, error));
      if ScanOf(l, st, e).outcome.Err? {
        PutExecution(l, st, p, Failing(e.job, ImportStopped(ScanOf(l, st, e).outcome.error)));
      }
    }
  }

  lemma CommitCompletionKeeps(l: Pipeline, st: State, p: Id, refreshed: bool)
    requires Inv(l, st)
    ensures Inv(l, DoCommitCompletion(l, st, p, refreshed))
  {
    if DoCommitCompletion(l, st, p, refreshed) != st {
      var e := st.executions[p];
      var scan := ScanOf(l, st, e);
      CompletionParts(l, st, p);
      WithoutHolder(l, st, p);
      var stored := Flush(e.loaded, CompletedJob(e.loaded, scan.outcome.value, st.clock), st.db.jobs[e.job]);
      var next := if refreshed then Ended(e.job, Ok(scan.outcome.value)) else Failing(e.job, PersistenceFailed);
      CompleteRow(l, Without(st, p), p, e.job, stored, scan.accepted, next);
      PutBack(st, p, WithJob(st.db, e.job, stored).(records := st.db.records + scan.accepted), next);
    }
  }

  lemma CompleteRow(l: Pipeline, st: State, p: Id, id: Id, job: Job, added: seq<Insert>, next: Execution)
    requires Inv(l, st) && id in st.db.jobs && RowFree(st, id) && NoRecords(st.db, id) && NoIssues(st.db, id)
    requires forall q :: q in st.executions && st.executions[q].job == id ==> !Claimed(st.executions[q])
    requires SameIdentity(job, st.db.jobs[id]) && job.status.Completed? && job.total == job.processed && job.failed == 0
    requires Executable(l, st.db, st.db.jobs[id]) && JobScan(l, st.db.files, id, st.db.jobs[id]).outcome.Ok?
    requires added == JobScan(l, st.db.files, id, st.db.jobs[id]).accepted
    requires p !in st.executions && next.job == id && (next.Ended? || next.Failing?)
    ensures Inv(l, SetExecution(st.(db := WithJob(st.db, id, job).(records := st.db.records + added)), p, next))
  {
    ReplaceRow(l, st, id, job);
    var replaced := st.(db := WithJob(st.db, id, job));
    AddRecords(l, replaced, id, added);
    PutExecution(l, replaced.(db := replaced.db.(records := st.db.records + added)), p, next);
  }

  /** What a completion commit writes: the image of the whole file, and its length in both counters. */
  lemma CompletionParts(l: Pipeline, st: State, p: Id)
    requires Inv(l, st) && IsImporting(st, p) && ScanOf(l, st, st.executions[p]).outcome.Ok?
    ensures var e, scan := st.executions[p], ScanOf(l, st, st.executions[p]);
            var stored := Flush(e.loaded, CompletedJob(e.loaded, scan.outcome.value, st.clock), st.db.jobs[e.job]);
            && SameIdentity(stored, st.db.jobs[e.job])
            && stored.status.Completed? && stored.total == stored.processed == |scan.accepted| && stored.failed == 0
            && Executable(l, st.db, st.db.jobs[e.job])
            && scan == JobScan(l, st.db.files, e.job, st.db.jobs[e.job])
            && Flatten(Handed(l.batchSize, scan)) == scan.accepted
            && NoRecords(st.db, e.job) && NoIssues(st.db, e.job)
  {
    var e := st.executions[p];
    assert ExecutionInv(l, st.db, e);
    assert JobInv(l, st.db, e.job);
    var scan := ScanOf(l, st, e);
    BatchesConcatenate(scan.accepted, l.batchSize);
    assert Ordered(scan, OwnerOf(e.job, e.loaded), st.db.files[e.file].events);
  }

  lemma LockForFailureKeeps(l: Pipeline, st: State, p: Id)
    requires Inv(l, st)
    ensures Inv(l, DoLockForFailure(st, p))
    ensures Inv(l, DoFailFailureHandler(st, p))
  {
    if p in st.executions && (st.executions[p].Failing? || st.executions[p].FailLocked?) {
      var e := st.executions[p];
      assert ExecutionInv(l, st.db, e);
      PutExecution(l, st, p, Ended(e.job, Err(e.error)));
      if RowFree(st, e.job) && st.db.jobs[e.job].status.Running? {
        PutExecution(l, st, p, FailLocked(e.job, st.db.jobs[e.job], e.error));
      }
    }
  }

  lemma CommitFailureKeeps(l: Pipeline, st: State, p: Id)
    requires Inv(l, st)
    ensures Inv(l, DoCommitFailure(st, p))
  {
    if p in st.executions && st.executions[p].FailLocked? {
      var e := st.executions[p];
      assert ExecutionInv(l, st.db, e);
      WithoutHolder(l, st, p);
      FailRow(l, Without(st, p), p, e);
      PutBack(st, p, WithJob(st.db, e.job, Flush(e.loaded, FailedJob(e.loaded, st.clock), st.db.jobs[e.job]))
                       .(issues := st.db.issues + IssueRows(e.job, IssuesIn(e.error))), Ended(e.job, Err(e.error)));
    }
  }

  lemma FailRow(l: Pipeline, st: State, p: Id, e: Execution)
    requires Inv(l, st) && p !in st.executions && e.FailLocked? && ExecutionInv(l, st.db, e) && RowFree(st, e.job)
    requires forall q :: q in st.executions && st.executions[q].job == e.job ==> !Claimed(st.executions[q])
    ensures Inv(l, SetExecution(
                     st.(db := WithJob(st.db, e.job, Flush(e.loaded, FailedJob(e.loaded, st.clock), st.db.jobs[e.job]))
                               .(issues := st.db.issues + IssueRows(e.job, IssuesIn(e.error)))),
                     p, Ended(e.job, Err(e.error))))
  {
    assert JobInv(l, st.db, e.job);
    var failed := FailedJob(e.loaded, st.clock);
    assert Flush(e.loaded, failed, st.db.jobs[e.job]) == failed;
    ReplaceRow(l, st, e.job, failed);
    var replaced := st.(db := WithJob(st.db, e.job, failed));
    AddIssues(l, replaced, e.job, IssuesIn(e.error));
    PutExecution(l, replaced.(db := replaced.db.(issues := st.db.issues + IssueRows(e.job, IssuesIn(e.error)))), p,
                 Ended(e.job, Err(e.error)));
  }

  /** The steps outside `execute` keep the invariant. */
  lemma ClientStepKeeps(l: Pipeline, st: State, step: Step)
    requires Inv(l, st)
    requires step.Tick? || step.CreateJob? || step.PrepareJob? || step.ReadForTransition? || step.WriteTransition?
    ensures Inv(l, Next(l, st, step))
  {
    match step
    case Tick(elapsed) =>
    case CreateJob(id, datasource, organization, key, total) =>
      CreateKeeps(l, st, id, datasource, organization, key, total);
    case PrepareJob(id, datasource, file, organization, mapping, key) =>
      PrepareKeeps(l, st, id, datasource, file, organization, mapping, key);
    case ReadForTransition(q, id, organization, request) =>
      ReadForTransitionKeeps(l, st, q, id, organization, request);
    case WriteTransition(q) => WriteTransitionKeeps(l, st, q);
  }

  lemma CrashKeeps(l: Pipeline, st: State, p: Id)
    requires Inv(l, st)
    ensures Inv(l, Next(l, st, Crash(p)))
  {
    if p in st.executions { PutExecution(l, st, p, Crashed(st.executions[p].job)); }
  }

  /** Every step of every interleaving keeps the invariant. */
  lemma StepKeeps(l: Pipeline, st: State, step: Step)
    requires Inv(l, st)
    ensures Inv(l, Next(l, st, step))
  {
    match step
    case LockForExecution(_, _, _, _) | CommitClaim(_) | InsertBatch(_) | RaiseImportError(_) | RaiseFault(_, _) =>
      ImportStepKeeps(l, st, step);
    case CommitCompletion(_, _) | LockForFailure(_) | CommitFailure(_) | FailFailureHandler(_) | Crash(_) =>
      EndStepKeeps(l, st, step);
    case _ => ClientStepKeeps(l, st, step);
  }

  /** The steps of a call up to the end of its loop. */
  lemma ImportStepKeeps(l: Pipeline, st: State, step: Step)
    requires Inv(l, st)
    requires step.LockForExecution? || step.CommitClaim? || step.InsertBatch? || step.RaiseImportError? || step.RaiseFault?
    ensures Inv(l, Next(l, st, step))
  {
    match step
    case LockForExecution(p, id, organization, datasource) =>
      LockForExecutionKeeps(l, st, p, id, organization, datasource);
    case CommitClaim(p) => CommitClaimKeeps(l, st, p);
    case InsertBatch(p) => InsertBatchKeeps(l, st, p);
    case RaiseImportError(p) => RaiseKeeps(l, st, p, Unexpected);
    case RaiseFault(p, error) => RaiseKeeps(l, st, p, error);
  }

  /** The steps that end a call. */
  lemma EndStepKeeps(l: Pipeline, st: State, step: Step)
    requires Inv(l, st)
    requires step.CommitCompletion? || step.LockForFailure? || step.CommitFailure? || step.FailFailureHandler? || step.Crash?
    ensures Inv(l, Next(l, st, step))
  {
    match step
    case CommitCompletion(p, refreshed) => CommitCompletionKeeps(l, st, p, refreshed);
    case LockForFailure(p) => LockForFailureKeeps(l, st, p);
    case CommitFailure(p) => CommitFailureKeeps(l, st, p);
    case FailFailureHandler(p) => LockForFailureKeeps(l, st, p);
    case Crash(p) => CrashKeeps(l, st, p);
  }

  /** ... and so does every run. */
  lemma {:induction false} RunKeeps(l: Pipeline, st: State, steps: seq<Step>)
    requires Inv(l, st)
    ensures Inv(l, Run(l, st, steps))
  {
    if steps != [] {
      RunKeeps(l, st, steps[..|steps| - 1]);
      StepKeeps(l, Run(l, st, steps[..|steps| - 1]), steps[|steps| - 1]);
    }
  }
}
