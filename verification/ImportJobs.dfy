/** Import jobs, the tables around them, and the row changes of every operation on them. */
module ImportJobs {
  import opened Wrappers
  import opened PyText
  import opened Entities
  import opened Batching

  type Time = int

  datatype Status = Pending | Running | Completed | Failed | Cancelled

  datatype Job = Job(
    organization: Id,
    research: Id,
    datasource: Id,
    uploadedFile: Option<Id>,
    configuration: Json,
    key: string,
    status: Status,
    total: nat,
    processed: nat,
    failed: nat,
    error: Option<string>,
    startedAt: Option<Time>,
    completedAt: Option<Time>)

  datatype Datasource = Datasource(organization: Id, research: Id)

  datatype FileStatus = FilePending | FileReady | FileFailed | FileDeleted

  /** An uploaded file; `csv` says whether its name and content type are those of a CSV file. */
  datatype UploadedFile = UploadedFile(
    organization: Id, datasource: Id, status: FileStatus, csv: bool, events: seq<Event>)

  /** A stored issue: its key is (job, row number, order). */
  datatype IssueRow = IssueRow(job: Id, order: nat, issue: Issue)

  datatype Database = Database(
    datasources: map<Id, Datasource>,
    files: map<Id, UploadedFile>,
    jobs: map<Id, Job>,
    records: seq<Insert>,
    issues: seq<IssueRow>)

  function OwnerOf(id: Id, job: Job): Owner {
    Owner(job.organization, job.research, job.datasource, id)
  }

  // ---------- The import pipeline ----------

  /**
   * What an import does, as the protocol sees it: how a requested mapping becomes a configuration, how
   * a configuration becomes a mapping again, and what a file amounts to for a job.
   */
  datatype Pipeline = Pipeline(
    batchSize: Size,
    accept: Mapping -> Option<Json>,
    read: Json -> Option<Mapping>,
    scan: (Owner, Mapping, seq<Event>) -> Scan)

  /** What the protocol relies on; the pipeline of the service meets it. */
  ghost predicate Sound(l: Pipeline) {
    && (forall m :: l.accept(m).Some? ==> l.read(l.accept(m).value).Some?)
    && (forall o, m, es :: Ordered(l.scan(o, m, es), o, es))
  }

  /** Rows in file order, all of one owner, and counted when the scan succeeds. */
  ghost predicate Ordered(scan: Scan, owner: Owner, es: seq<Event>) {
    && (Numbered(es) ==>
          forall i, j :: 0 <= i < j < |scan.accepted| ==> scan.accepted[i].rowNumber < scan.accepted[j].rowNumber)
    && (forall i :: 0 <= i < |scan.accepted| ==> scan.accepted[i].owner == owner)
    && (scan.outcome.Ok? ==> scan.outcome.value == |scan.accepted|)
  }

  /** The batches handed to the database before an import ends. */
  function Handed(size: Size, scan: Scan): seq<seq<Insert>> {
    if scan.outcome.Ok? then AllBatches(scan.accepted, size) else FullBatches(scan.accepted, size)
  }

  // ---------- The unit of work ----------

  /** An UPDATE names only the columns whose value differs from the one that was loaded. */
  function Column<T(==)>(loaded: T, edited: T, stored: T): T {
    if edited == loaded then stored else edited
  }

  function Flush(loaded: Job, edited: Job, stored: Job): Job {
    stored.(
      status := Column(loaded.status, edited.status, stored.status),
      total := Column(loaded.total, edited.total, stored.total),
      processed := Column(loaded.processed, edited.processed, stored.processed),
      failed := Column(loaded.failed, edited.failed, stored.failed),
      error := Column(loaded.error, edited.error, stored.error),
      startedAt := Column(loaded.startedAt, edited.startedAt, stored.startedAt),
      completedAt := Column(loaded.completedAt, edited.completedAt, stored.completedAt))
  }

  /** The CHECK constraint on the counters of a stored job. */
  predicate CountsFit(job: Job) {
    job.processed + job.failed <= job.total
  }

  /** Nothing an operation on an existing job may change. */
  predicate SameIdentity(a: Job, b: Job) {
    && a.organization == b.organization && a.research == b.research && a.datasource == b.datasource
    && a.uploadedFile == b.uploadedFile && a.configuration == b.configuration && a.key == b.key
  }

  // ---------- Creating jobs ----------

  datatype CreateError = DatasourceNotFound | UploadedFileNotFound | MappingRejected | IdempotencyConflict | IntegrityError

  predicate KeyTaken(db: Database, organization: Id, datasource: Id, key: string) {
    exists id :: id in db.jobs && db.jobs[id].organization == organization
                 && db.jobs[id].datasource == datasource && db.jobs[id].key == key
  }

  predicate DatasourceFound(db: Database, datasource: Id, organization: Id) {
    datasource in db.datasources && db.datasources[datasource].organization == organization
  }

  function NewJob(db: Database, datasource: Id, file: Option<Id>, configuration: Json, key: string, total: nat): Job
    requires datasource in db.datasources
  {
    var d := db.datasources[datasource];
    Job(d.organization, d.research, datasource, file, configuration, key, Pending, total, 0, 0, None, None, None)
  }

  /** The job `ImportJobService.create` adds. */
  function Create(db: Database, id: Id, datasource: Id, organization: Id, key: string, total: nat): Result<Job, CreateError> {
    if !DatasourceFound(db, datasource, organization) then Err(DatasourceNotFound)
    else if KeyTaken(db, organization, datasource, key) then Err(IdempotencyConflict)
    else if id in db.jobs then Err(IntegrityError)
    else Ok(NewJob(db, datasource, None, JsonObject(map[]), key, total))
  }

  /** The job `MappingPreparationService.prepare` adds. */
  function Prepare(l: Pipeline, db: Database, id: Id, datasource: Id, file: Id, organization: Id, mapping: Mapping, key: string)
    : Result<Job, CreateError>
  {
    if !DatasourceFound(db, datasource, organization) then Err(DatasourceNotFound)
    else if file !in db.files || db.files[file].organization != organization then Err(UploadedFileNotFound)
    else if db.files[file].datasource != datasource then Err(DatasourceNotFound)
    else
      match l.accept(mapping)
      case None => Err(MappingRejected)
      case Some(configuration) =>
        if KeyTaken(db, organization, datasource, key) then Err(IdempotencyConflict)
        else if id in db.jobs then Err(IntegrityError)
        else Ok(NewJob(db, datasource, Some(file), configuration, key, 0))
  }

  // ---------- Transitions requested by clients ----------

  datatype Request = Request(status: Status, processed: Option<nat>, failed: Option<nat>, error: Option<string>)

  datatype TransitionError = InvalidTransition | InvalidCounters

  /** The schema's validators: the message is stripped, refused on completion, required on failure. */
  function CheckRequest(r: Request): Option<Request> {
    var error := if r.error.Some? then Some(Strip(r.error.value)) else None;
    if r.status.Completed? && error.Some? then None
    else if r.status.Failed? && (error.None? || error.value == "") then None
    else Some(r.(error := error))
  }

  predicate Allowed(from: Status, to: Status) {
    match from
    case Pending => to.Running? || to.Cancelled?
    case Running => to.Completed? || to.Failed? || to.Cancelled?
    case _ => false
  }

  /** The edited row of `ImportJobService.transition`, computed from the row it loaded. */
  function Transition(job: Job, r: Request, now: Time): Result<Job, TransitionError> {
    if !Allowed(job.status, r.status) then Err(InvalidTransition)
    else
      var processed := if r.processed.Some? then r.processed.value else job.processed;
      var failed := if r.failed.Some? then r.failed.value else job.failed;
      if processed < job.processed || failed < job.failed then Err(InvalidCounters)
      else if processed + failed > job.total then Err(InvalidCounters)
      else if r.status.Completed? && processed + failed != job.total then Err(InvalidCounters)
      else
        var edited := job.(status := r.status, processed := processed, failed := failed);
        match r.status
        case Running => Ok(edited.(startedAt := Some(now), completedAt := None))
        case Completed => Ok(edited.(completedAt := Some(now), error := None))
        case Failed => Ok(edited.(completedAt := Some(now), error := r.error))
        case _ => Ok(edited.(completedAt := Some(now)))
  }

  // ---------- Executing a job ----------

  datatype ExecuteError =
    | JobNotFound
    | NotExecutable
    | InvalidConfiguration
    | NoDatasource
    | NoUploadedFile
    | FileNotProcessable
    | UnsupportedFile
    | ImportStopped(error: ImportError)
    | PersistenceFailed
    | Unexpected

  const FAILURE_MESSAGE := "CSV import execution failed."

  predicate Addressed(db: Database, id: Id, organization: Id, datasource: Id) {
    id in db.jobs && db.jobs[id].organization == organization && db.jobs[id].datasource == datasource
  }

  /** Why a file cannot be imported, if it cannot. */
  function FileProblem(db: Database, organization: Id, datasource: Id, file: Id): Option<ExecuteError> {
    if file !in db.files || db.files[file].organization != organization then Some(NoUploadedFile)
    else if db.files[file].datasource != datasource then Some(NoDatasource)
    else if db.files[file].status.FileFailed? || db.files[file].status.FileDeleted? then Some(FileNotProcessable)
    else if !db.files[file].csv then Some(UnsupportedFile)
    else None
  }

  /** The checks `execute` makes while it holds the row; on success, the mapping and the file to import. */
  function ClaimChecks(l: Pipeline, db: Database, id: Id, organization: Id, datasource: Id): Result<(Mapping, Id), ExecuteError> {
    if !Addressed(db, id, organization, datasource) then Err(JobNotFound)
    else
      var job := db.jobs[id];
      if !job.status.Pending? then Err(NotExecutable)
      else if job.uploadedFile.None? then Err(InvalidConfiguration)
      else if !DatasourceFound(db, datasource, organization) then Err(NoDatasource)
      else
        match l.read(job.configuration)
        case None => Err(InvalidConfiguration)
        case Some(mapping) =>
          var problem := FileProblem(db, organization, datasource, job.uploadedFile.value);
          if problem.Some? then Err(problem.value) else Ok((mapping, job.uploadedFile.value))
  }

  function ClaimedJob(job: Job, now: Time): Job {
    job.(status := Running, startedAt := Some(now), completedAt := None, error := None)
  }

  function CompletedJob(job: Job, items: nat, now: Time): Job {
    job.(status := Completed, total := items, processed := items, failed := 0, completedAt := Some(now), error := None)
  }

  function FailedJob(job: Job, now: Time): Job {
    job.(status := Failed, total := 0, processed := 0, failed := 0, completedAt := Some(now), error := Some(FAILURE_MESSAGE))
  }

  /** `insert_many` numbers the issues in their order. */
  function IssueRows(job: Id, issues: seq<Issue>): seq<IssueRow> {
    seq(|issues|, i requires 0 <= i < |issues| => IssueRow(job, i, issues[i]))
  }

  /** The issues that go with an error into the failure transaction. */
  function IssuesIn(e: ExecuteError): seq<Issue> {
    if e.ImportStopped? && e.error.InvalidRecord? then e.error.issues else []
  }

  // ---------- Statuses, requests and columns, one by one ----------

  /** The documented edges between statuses. */
  lemma AllowedExactly(from: Status, to: Status)
    ensures Allowed(from, to) <==>
            (from, to) in {(Pending, Running), (Pending, Cancelled), (Running, Completed), (Running, Failed), (Running, Cancelled)}
  {
  }

  /** A completion with a message, or a failure without one that says something. */
  ghost predicate RequestRefused(r: Request) {
    (r.status == Completed && r.error.Some?) || (r.status == Failed && (r.error.None? || AllSpace(r.error.value)))
  }

  /** What the schema makes of a request: status and counters as they are, and the message stripped. */
  lemma RequestExactly(r: Request)
    ensures CheckRequest(r) == None <==> RequestRefused(r)
    ensures CheckRequest(r).Some? ==>
              var q := CheckRequest(r).value;
              && q.status == r.status && q.processed == r.processed && q.failed == r.failed
              && q.error == if r.error.Some? then Some(Strip(r.error.value)) else None
  {
    if r.error.Some? { StripExactly(r.error.value); }
  }

  /** The row a request makes of the one that was loaded, column by column. */
  ghost predicate EditedBy(loaded: Job, r: Request, now: Time, edited: Job) {
    && SameIdentity(loaded, edited) && edited.total == loaded.total
    && edited.status == r.status
    && edited.processed == Asked(r.processed, loaded.processed) && edited.failed == Asked(r.failed, loaded.failed)
    && edited.startedAt == (if r.status == Running then Some(now) else loaded.startedAt)
    && edited.completedAt == (if r.status == Running then None else Some(now))
    && (r.status == Failed ==> r.error.Some? && edited.error == Some(Strip(r.error.value)))
    && (r.status == Completed ==> edited.error == None)
    && (r.status != Failed && r.status != Completed ==> edited.error == loaded.error)
  }

  /** The counters asked for do not decrease, fit the total, and are complete on completion. */
  predicate CountersAccepted(loaded: Job, r: Request) {
    var processed, failed := Asked(r.processed, loaded.processed), Asked(r.failed, loaded.failed);
    && loaded.processed <= processed && loaded.failed <= failed && processed + failed <= loaded.total
    && (r.status == Completed ==> processed + failed == loaded.total)
  }

  /** From the raw request to the edited row. */
  lemma RequestTakesEffect(loaded: Job, r: Request, now: Time)
    requires !RequestRefused(r)
    ensures CheckRequest(r).Some?
    ensures var t := Transition(loaded, CheckRequest(r).value, now);
            && (t == Err(InvalidTransition) <==> !Allowed(loaded.status, r.status))
            && (t == Err(InvalidCounters) <==> Allowed(loaded.status, r.status) && !CountersAccepted(loaded, r))
            && (t.Ok? ==> EditedBy(loaded, r, now, t.value))
  {
    RequestExactly(r);
    TransitionExactly(loaded, CheckRequest(r).value, now);
  }

  /** A column that was assigned has its new value; any other keeps what is stored. */
  ghost predicate Merged(loaded: Job, edited: Job, stored: Job, after: Job) {
    && SameIdentity(stored, after)
    && after.status == (if edited.status != loaded.status then edited.status else stored.status)
    && after.total == (if edited.total != loaded.total then edited.total else stored.total)
    && after.processed == (if edited.processed != loaded.processed then edited.processed else stored.processed)
    && after.failed == (if edited.failed != loaded.failed then edited.failed else stored.failed)
    && after.error == (if edited.error != loaded.error then edited.error else stored.error)
    && after.startedAt == (if edited.startedAt != loaded.startedAt then edited.startedAt else stored.startedAt)
    && after.completedAt == (if edited.completedAt != loaded.completedAt then edited.completedAt else stored.completedAt)
  }

  /** An UPDATE merges the assigned columns into the stored row. */
  lemma FlushExactly(loaded: Job, edited: Job, stored: Job, after: Job)
    ensures after == Flush(loaded, edited, stored) <==> Merged(loaded, edited, stored, after)
  {
  }

  /** The columns that the claim, the completion and the failure of `execute` assign. */
  lemma AssignedColumnsExactly(job: Job, items: nat, now: Time)
    ensures var claimed := ClaimedJob(job, now);
            && SameIdentity(job, claimed) && claimed.status == Running
            && claimed.total == job.total && claimed.processed == job.processed && claimed.failed == job.failed
            && claimed.startedAt == Some(now) && claimed.completedAt == None && claimed.error == None
    ensures var completed := CompletedJob(job, items, now);
            && SameIdentity(job, completed) && completed.status == Completed
            && completed.total == items && completed.processed == items && completed.failed == 0
            && completed.startedAt == job.startedAt && completed.completedAt == Some(now) && completed.error == None
    ensures var failed := FailedJob(job, now);
            && SameIdentity(job, failed) && failed.status == Failed
            && failed.total == 0 && failed.processed == 0 && failed.failed == 0
            && failed.startedAt == job.startedAt && failed.completedAt == Some(now)
            && failed.error == Some("CSV import execution failed.")
  {
  }

  // ---------- Stored issues ----------

  /** The rows are these issues, in their order, numbered from 0. */
  ghost predicate Numbers(rows: seq<IssueRow>, job: Id, issues: seq<Issue>) {
    |rows| == |issues| && forall i :: 0 <= i < |rows| ==> rows[i].job == job && rows[i].order == i && rows[i].issue == issues[i]
  }

  /** The rows that go with an error: those of an invalid row, and none behind any other error. */
  ghost predicate Shows(rows: seq<IssueRow>, job: Id, e: ExecuteError) {
    match e
    case ImportStopped(InvalidRecord(issues)) => Numbers(rows, job, issues)
    case _ => rows == []
  }

  /** What the failure transaction inserts shows its error. */
  lemma InsertedIssuesShow(job: Id, e: ExecuteError)
    ensures Shows(IssueRows(job, IssuesIn(e)), job, e)
  {
  }

  // ---------- Exactly when an operation is refused ----------

  /** No job of the scope has this key. */
  predicate KeyIsNew(db: Database, organization: Id, datasource: Id, key: string) {
    forall id :: id in db.jobs && db.jobs[id].organization == organization && db.jobs[id].datasource == datasource ==>
      db.jobs[id].key != key
  }

  /**
   * A job is created exactly in a known scope under a new key and a new id, and is refused with the
   * error of the first of these that fails. It is pending, without a file, in the scope of its
   * datasource, and none of its items is processed.
   */
  lemma CreateExactly(db: Database, id: Id, datasource: Id, organization: Id, key: string, total: nat)
    ensures var r, found := Create(db, id, datasource, organization, key, total), datasource in db.datasources && db.datasources[datasource].organization == organization;
            && (r == Err(DatasourceNotFound) <==> !found)
            && (r == Err(IdempotencyConflict) <==> found && !KeyIsNew(db, organization, datasource, key))
            && (r == Err(IntegrityError) <==> found && KeyIsNew(db, organization, datasource, key) && id in db.jobs)
            && (r.Ok? <==> found && KeyIsNew(db, organization, datasource, key) && id !in db.jobs)
            && (r.Ok? ==>
                 && r.value.status.Pending? && r.value.uploadedFile == None && r.value.key == key
                 && db.datasources[datasource] == Datasource(r.value.organization, r.value.research)
                 && r.value.datasource == datasource && r.value.organization == organization
                 && r.value.configuration == JsonObject(map[]) && r.value.error == None
                 && r.value.startedAt == None && r.value.completedAt == None
                 && r.value.total == total && r.value.processed == r.value.failed == 0)
  {
  }

  /**
   * A job is prepared exactly for a file of the datasource, with an acceptable mapping and a new key and
   * id, and is refused with the error of the first of these that fails. It is pending, with zero
   * counters, points at the file and carries the accepted mapping.
   */
  lemma PrepareExactly(l: Pipeline, db: Database, id: Id, datasource: Id, file: Id, organization: Id, mapping: Mapping, key: string)
    ensures var r := Prepare(l, db, id, datasource, file, organization, mapping, key);
            var scope := datasource in db.datasources && db.datasources[datasource].organization == organization;
            var found := file in db.files && db.files[file].organization == organization;
            var own := found && db.files[file].datasource == datasource;
            var accepted, new_ := l.accept(mapping).Some?, KeyIsNew(db, organization, datasource, key);
            && (r == Err(DatasourceNotFound) <==> !scope || (found && !own))
            && (r == Err(UploadedFileNotFound) <==> scope && !found)
            && (r == Err(MappingRejected) <==> scope && own && !accepted)
            && (r == Err(IdempotencyConflict) <==> scope && own && accepted && !new_)
            && (r == Err(IntegrityError) <==> scope && own && accepted && new_ && id in db.jobs)
            && (r.Ok? <==> scope && own && accepted && new_ && id !in db.jobs)
            && (r.Ok? ==>
                 && r.value.status.Pending? && r.value.uploadedFile == Some(file) && r.value.key == key
                 && Some(r.value.configuration) == l.accept(mapping)
                 && db.datasources[datasource] == Datasource(r.value.organization, r.value.research)
                 && r.value.datasource == datasource && r.value.organization == organization
                 && r.value.error == None && r.value.startedAt == None && r.value.completedAt == None
                 && r.value.total == r.value.processed == r.value.failed == 0)
  {
  }

  /** The counters a request asks for. */
  function Asked(counter: Option<nat>, current: nat): nat {
    if counter.Some? then counter.value else current
  }

  /**
   * A transition is accepted exactly along the graph, with counters that do not decrease, fit the total
   * and are complete on completion. The accepted row keeps its identity and total, has the asked status
   * and counters, starts when it becomes RUNNING, and ends when it becomes terminal.
   */
  lemma TransitionExactly(job: Job, r: Request, now: Time)
    ensures var t := Transition(job, r, now);
            var processed, failed := Asked(r.processed, job.processed), Asked(r.failed, job.failed);
            && (t == Err(InvalidTransition) <==> !Allowed(job.status, r.status))
            && (t.Ok? <==>
                 && Allowed(job.status, r.status)
                 && job.processed <= processed && job.failed <= failed && processed + failed <= job.total
                 && (r.status.Completed? ==> processed + failed == job.total))
            && (t.Ok? ==>
                 && SameIdentity(job, t.value) && CountsFit(t.value)
                 && t.value.status == r.status && t.value.total == job.total
                 && t.value.processed == processed && t.value.failed == failed
                 && t.value.startedAt == (if r.status.Running? then Some(now) else job.startedAt)
                 && t.value.completedAt == (if r.status.Running? then None else Some(now))
                 && t.value.error == (if r.status.Failed? then r.error else if r.status.Completed? then None else job.error))
  {
  }

  /**
   * A claim passes exactly for a pending job of the scope with a readable mapping and a usable CSV file
   * of its datasource; it yields that mapping and file, and otherwise the error of the first check that
   * fails.
   */
  lemma ClaimChecksExactly(l: Pipeline, db: Database, id: Id, organization: Id, datasource: Id)
    ensures var r := ClaimChecks(l, db, id, organization, datasource);
            var addressed := id in db.jobs && db.jobs[id].organization == organization && db.jobs[id].datasource == datasource;
            && (r == Err(JobNotFound) <==> !addressed)
            && (addressed ==> (r == Err(NotExecutable) <==> !db.jobs[id].status.Pending?))
    ensures Addressed(db, id, organization, datasource) && db.jobs[id].status.Pending? ==>
              var r, job := ClaimChecks(l, db, id, organization, datasource), db.jobs[id];
              var scope := datasource in db.datasources && db.datasources[datasource].organization == organization;
              var file, read := job.uploadedFile, l.read(job.configuration);
              var found := file.Some? && file.value in db.files && db.files[file.value].organization == organization;
              var own := found && db.files[file.value].datasource == datasource;
              var usable := own && !db.files[file.value].status.FileFailed? && !db.files[file.value].status.FileDeleted?;
              && (r == Err(InvalidConfiguration) <==> file.None? || (scope && read.None?))
              && (r == Err(NoDatasource) <==> file.Some? && (!scope || (read.Some? && found && !own)))
              && (r == Err(NoUploadedFile) <==> file.Some? && scope && read.Some? && !found)
              && (r == Err(FileNotProcessable) <==> scope && read.Some? && own && !usable)
              && (r == Err(UnsupportedFile) <==> scope && read.Some? && usable && !db.files[file.value].csv)
              && (r.Ok? <==> scope && read.Some? && usable && db.files[file.value].csv)
              && (r.Ok? ==> r.value == (read.value, file.value))
  {
  }

  /** Two sets of assignments to one loaded row that share no column. */
  predicate Apart(loaded: Job, a: Job, b: Job) {
    && (a.status == loaded.status || b.status == loaded.status)
    && (a.total == loaded.total || b.total == loaded.total)
    && (a.processed == loaded.processed || b.processed == loaded.processed)
    && (a.failed == loaded.failed || b.failed == loaded.failed)
    && (a.error == loaded.error || b.error == loaded.error)
    && (a.startedAt == loaded.startedAt || b.startedAt == loaded.startedAt)
    && (a.completedAt == loaded.completedAt || b.completedAt == loaded.completedAt)
  }

  /**
   * The commits of two sessions that assigned different columns of a row commute; a commit that is
   * repeated changes nothing more; and one over the row it loaded stores what was assigned.
   */
  lemma FlushesCommute(loaded: Job, a: Job, b: Job, stored: Job)
    ensures Apart(loaded, a, b) ==> Flush(loaded, a, Flush(loaded, b, stored)) == Flush(loaded, b, Flush(loaded, a, stored))
    ensures Flush(loaded, a, Flush(loaded, a, stored)) == Flush(loaded, a, stored)
    ensures SameIdentity(loaded, a) ==> Flush(loaded, a, loaded) == a
  {
  }

  // ---------- Queries ----------

  function RecordsOf(records: seq<Insert>, job: Id): seq<Insert> {
    if records == [] then []
    else
      var n := |records| - 1;
      RecordsOf(records[..n], job) + if records[n].owner.job == job then [records[n]] else []
  }

  function IssuesOf(issues: seq<IssueRow>, job: Id): seq<IssueRow> {
    if issues == [] then []
    else
      var n := |issues| - 1;
      IssuesOf(issues[..n], job) + if issues[n].job == job then [issues[n]] else []
  }

  /** What importing a job's file amounts to. */
  function JobScan(l: Pipeline, files: map<Id, UploadedFile>, id: Id, job: Job): Scan
    requires job.uploadedFile.Some? && job.uploadedFile.value in files && l.read(job.configuration).Some?
  {
    l.scan(OwnerOf(id, job), l.read(job.configuration).value, files[job.uploadedFile.value].events)
  }

  // ---------- Facts about the tables ----------

  lemma {:induction false} RecordsOfConcat(a: seq<Insert>, b: seq<Insert>, job: Id)
    ensures RecordsOf(a + b, job) == RecordsOf(a, job) + RecordsOf(b, job)
  {
    if b == [] {
      assert a + b == a;
    } else {
      var n := |b| - 1;
      assert (a + b)[..|a| + n] == a + b[..n];
      RecordsOfConcat(a, b[..n], job);
    }
  }

  lemma {:induction false} RecordsOfOthers(records: seq<Insert>, job: Id)
    ensures RecordsOf(records, job) == [] <==> forall i :: 0 <= i < |records| ==> records[i].owner.job != job
  {
    if records != [] {
      RecordsOfOthers(records[..|records| - 1], job);
    }
  }

  lemma {:induction false} RecordsOfOwn(records: seq<Insert>, job: Id)
    requires forall i :: 0 <= i < |records| ==> records[i].owner.job == job
    ensures RecordsOf(records, job) == records
  {
    if records != [] {
      RecordsOfOwn(records[..|records| - 1], job);
    }
  }

  lemma {:induction false} IssuesOfConcat(a: seq<IssueRow>, b: seq<IssueRow>, job: Id)
    ensures IssuesOf(a + b, job) == IssuesOf(a, job) + IssuesOf(b, job)
  {
    if b == [] {
      assert a + b == a;
    } else {
      var n := |b| - 1;
      assert (a + b)[..|a| + n] == a + b[..n];
      IssuesOfConcat(a, b[..n], job);
    }
  }

  lemma {:induction false} IssuesOfOthers(issues: seq<IssueRow>, job: Id)
    ensures IssuesOf(issues, job) == [] <==> forall i :: 0 <= i < |issues| ==> issues[i].job != job
  {
    if issues != [] {
      IssuesOfOthers(issues[..|issues| - 1], job);
    }
  }

  lemma {:induction false} IssuesOfOwn(issues: seq<IssueRow>, job: Id)
    requires forall i :: 0 <= i < |issues| ==> issues[i].job == job
    ensures IssuesOf(issues, job) == issues
  {
    if issues != [] {
      IssuesOfOwn(issues[..|issues| - 1], job);
    }
  }

  /** Adding one job's records leaves every other job's records alone. */
  lemma RecordsAdded(records: seq<Insert>, added: seq<Insert>, owner: Id, job: Id)
    requires forall i :: 0 <= i < |added| ==> added[i].owner.job == owner
    ensures RecordsOf(records + added, job) == RecordsOf(records, job) + if job == owner then added else []
  {
    RecordsOfConcat(records, added, job);
    if job == owner { RecordsOfOwn(added, job); } else { RecordsOfOthers(added, job); }
  }

  lemma IssuesAdded(issues: seq<IssueRow>, added: seq<IssueRow>, owner: Id, job: Id)
    requires forall i :: 0 <= i < |added| ==> added[i].job == owner
    ensures IssuesOf(issues + added, job) == IssuesOf(issues, job) + if job == owner then added else []
  {
    IssuesOfConcat(issues, added, job);
    if job == owner { IssuesOfOwn(added, job); } else { IssuesOfOthers(added, job); }
  }
}
