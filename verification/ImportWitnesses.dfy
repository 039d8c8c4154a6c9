/** Concrete runs that show why the guarantees need their hypotheses. */
module ImportWitnesses {
  import opened Wrappers
  import opened PyText
  import opened Batching
  import opened Entities
  import opened CsvImport
  import opened ImportJobs
  import opened ImportProtocol
  import opened ImportSafety
  import opened ImportGuarantees
  import opened ImportPipeline
  import CsvMapping
  import Rows = RowValidation

  const MAPPING: Mapping := map["content" := "text"]
  const FILE: seq<Event> := [Row(["text"], 1), Row(["hello"], 2)]

  function SmallSettings(parsers: Rows.Parsers): Settings {
    Settings(10, 5, 2, parsers, bytes => "")
  }

  lemma {:induction false} MappingIsAccepted()
    ensures AcceptMapping(MAPPING) == Some(CsvMapping.MappingConfiguration(MAPPING))
    ensures CsvMapping.GetMapping(CsvMapping.MappingConfiguration(MAPPING)) == Some(MAPPING)
  {
    StripTrims("text");
    CsvMapping.ValidationIdempotent(MAPPING);
    CsvMapping.MappingRoundTrip(MAPPING);
  }

  lemma FileHasTwoItems()
    ensures Items(FILE) == FILE
  {
    StripTrims("text");
    StripTrims("hello");
    assert FILE[1..] == [FILE[1]] && FILE[1..][1..] == [];
    assert !Blank(["text"]) by { assert Strip(["text"][0]) == "text"; }
    assert !Blank(["hello"]) by { assert Strip(["hello"][0]) == "hello"; }
  }

  lemma HeaderIsAccepted(s: Settings)
    requires s.maxColumns == 5
    ensures CheckHeader(s, ["text"], MAPPING) == Ok(["text"])
  {
    StripTrims("text");
    assert StripAll(["text"]) == ["text"];
    HeaderCharacterised(s, ["text"], MAPPING);
    assert forall f :: f in MAPPING ==> MAPPING[f] == ["text"][0];
  }

  /** The file holds one importable row. */
  lemma FileIsImported(parsers: Rows.Parsers, owner: Owner)
    ensures var scan := ScanFile(SmallSettings(parsers), owner, MAPPING, FILE);
            scan.outcome == Ok(1) && |scan.accepted| == 1
  {
    var s := SmallSettings(parsers);
    FileHasTwoItems();
    HeaderIsAccepted(s);
    RowIsImported(s, ["text"]);
    var data := Items(FILE)[1..];
    assert data == [FILE[1]];
    FirstProblemIs(ProblemOf(s, ["text"], MAPPING), data, 1);
    SuccessfulImport(s, owner, MAPPING, FILE);
  }

  lemma RowIsImported(s: Settings, header: seq<string>)
    requires header == ["text"] && s.maxRows == 10
    ensures Problem(s, header, MAPPING, FILE[1], 0) == None
  {
    var values := RowValues(header, ["hello"]);
    assert "text" in values && values["text"] == "hello";
    StripTrims("hello");
    var row := Rows.SourceRow(2, values);
    Rows.ValidationCharacterised(s.parsers, MAPPING, row);
    assert forall f :: f in CsvMapping.CANONICAL_FIELDS ==> Rows.Acceptable(s.parsers, f, Rows.SourceText(MAPPING, row, f));
  }

  // ---------- Runs ----------

  /** Pipeline, mapping, its stored form, and file of a run. */
  datatype Scene = Scene(pipeline: Pipeline, mapping: Mapping, configuration: Json, events: seq<Event>)

  /** The scan of the file for job 7. */
  function Scanned(c: Scene): Scan {
    c.pipeline.scan(Owner(1, 1, 1, 7), c.mapping, c.events)
  }

  /** An acceptable mapping and a file whose import stores one record in one batch. */
  ghost predicate OneRow(c: Scene) {
    && c.pipeline.accept(c.mapping) == Some(c.configuration) && c.pipeline.read(c.configuration) == Some(c.mapping)
    && Numbered(c.events)
    && Scanned(c).outcome == Ok(1) && |Scanned(c).accepted| == 1
    && |Handed(c.pipeline.batchSize, Scanned(c))| == 1
    && Flatten(Handed(c.pipeline.batchSize, Scanned(c))) == Scanned(c).accepted
    && RecordsOf(Scanned(c).accepted, 7) == Scanned(c).accepted
  }

  function SmallScene(parsers: Rows.Parsers): Scene {
    Scene(PipelineOf(SmallSettings(parsers)), MAPPING, CsvMapping.MappingConfiguration(MAPPING), FILE)
  }

  lemma FileHasOneRow(parsers: Rows.Parsers)
    ensures OneRow(SmallScene(parsers))
  {
    var s, owner := SmallSettings(parsers), Owner(1, 1, 1, 7);
    var scan := ScanFile(s, owner, MAPPING, FILE);
    MappingIsAccepted();
    FileIsImported(parsers, owner);
    AcceptedOwner(s, owner, MAPPING, FILE);
    OneBatch(scan);
    assert Scanned(SmallScene(parsers)) == scan;
  }

  lemma OneBatch(scan: Scan)
    requires scan.outcome.Ok? && |scan.accepted| == 1 && scan.accepted[0].owner.job == 7
    ensures |Handed(2, scan)| == 1 && Flatten(Handed(2, scan)) == scan.accepted && RecordsOf(scan.accepted, 7) == scan.accepted
  {
    BatchCount(scan.accepted, 2);
    BatchesConcatenate(scan.accepted, 2);
    RecordsOfOwn(scan.accepted, 7);
  }

  /** The state with one datasource, one file and no or one job. */
  function Holding(c: Scene, jobs: map<Id, Job>, records: seq<Insert>,
                   executions: map<Id, Execution>, edits: map<Id, Edit>): State {
    State(Database(map[1 := Datasource(1, 1)], map[1 := UploadedFile(1, 1, FileReady, true, c.events)], jobs, records, []),
          executions, edits, 0)
  }

  function Start(c: Scene): State {
    Holding(c, map[], [], map[], map[])
  }

  function PrepareStep(c: Scene): Step {
    PrepareJob(7, 1, 1, 1, c.mapping, "key")
  }

  const CANCEL := Request(Cancelled, None, None, None)
  const START := Request(ImportJobs.Running, None, None, None)

  /** The job as it is stored after it was prepared, after the claim, and after the completion commit. */
  function Prepared(c: Scene): Job {
    Job(1, 1, 1, Some(1), c.configuration, "key", Pending, 0, 0, 0, None, None, None)
  }

  function RunningJob(c: Scene): Job {
    ClaimedJob(Prepared(c), 0)
  }

  function WorkOn(c: Scene, handed: nat): Execution {
    Importing(7, RunningJob(c), c.mapping, 1, handed)
  }

  lemma JobIsPrepared(c: Scene)
    requires OneRow(c)
    ensures Next(c.pipeline, Start(c), PrepareStep(c)) == Holding(c, map[7 := Prepared(c)], [], map[], map[])
  {
    assert Prepare(c.pipeline, Start(c).db, 7, 1, 1, 1, c.mapping, "key") == Ok(Prepared(c));
  }

  lemma ChecksPass(db: Database, c: Scene)
    requires OneRow(c)
    requires db == Holding(c, map[7 := Prepared(c)], [], map[], map[]).db
    ensures ClaimChecks(c.pipeline, db, 7, 1, 1) == Ok((c.mapping, 1))
  {
  }

  lemma LockStep(l: Pipeline, st: State, p: Id, id: Id, organization: Id, datasource: Id, mapping: Mapping, file: Id)
    requires p !in st.executions && RowFree(st, id) && id in st.db.jobs
    requires ClaimChecks(l, st.db, id, organization, datasource) == Ok((mapping, file))
    ensures Next(l, st, LockForExecution(p, id, organization, datasource))
            == SetExecution(st, p, Locked(id, st.db.jobs[id], mapping, file))
  {
  }

  lemma RowIsLocked(c: Scene, edits: map<Id, Edit>)
    requires OneRow(c)
    ensures Next(c.pipeline, Holding(c, map[7 := Prepared(c)], [], map[], edits), LockForExecution(5, 7, 1, 1))
            == Holding(c, map[7 := Prepared(c)], [], map[5 := Locked(7, Prepared(c), c.mapping, 1)], edits)
  {
    var st := Holding(c, map[7 := Prepared(c)], [], map[], edits);
    ChecksPass(st.db, c);
    LockStep(c.pipeline, st, 5, 7, 1, 1, c.mapping, 1);
    assert st.executions[5 := Locked(7, Prepared(c), c.mapping, 1)] == map[5 := Locked(7, Prepared(c), c.mapping, 1)];
  }

  lemma ClaimIsCommitted(c: Scene, edits: map<Id, Edit>)
    ensures Next(c.pipeline, Holding(c, map[7 := Prepared(c)], [], map[5 := Locked(7, Prepared(c), c.mapping, 1)], edits), CommitClaim(5))
            == Working(c, RunningJob(c), 0, edits)
  {
    FlushLoaded(Prepared(c), RunningJob(c));
    assert map[7 := Prepared(c)][7 := RunningJob(c)] == map[7 := RunningJob(c)];
    assert map[5 := Locked(7, Prepared(c), c.mapping, 1)][5 := WorkOn(c, 0)] == map[5 := WorkOn(c, 0)];
  }

  /** The state in which the call works on the file. */
  function Working(c: Scene, job: Job, handed: nat, edits: map<Id, Edit>): State {
    Holding(c, map[7 := job], [], map[5 := WorkOn(c, handed)], edits)
  }

  lemma WorkingOnFile(c: Scene, job: Job, handed: nat, edits: map<Id, Edit>)
    requires OneRow(c)
    ensures var st := Working(c, job, handed, edits);
            && IsImporting(st, 5) && st.executions[5] == WorkOn(c, handed) && RowFree(st, 7)
            && ScanOf(c.pipeline, st, WorkOn(c, handed)) == Scanned(c)
            && (AllHanded(c.pipeline, st, WorkOn(c, handed)) <==> handed == 1)
  {
  }

  lemma InsertStep(l: Pipeline, st: State, p: Id)
    requires IsImporting(st, p)
    ensures !AllHanded(l, st, st.executions[p]) ==> DoInsertBatch(l, st, p) == AfterInsert(st, p)
  {
  }

  lemma BatchIsInserted(c: Scene, job: Job, edits: map<Id, Edit>)
    requires OneRow(c)
    ensures DoInsertBatch(c.pipeline, Working(c, job, 0, edits), 5) == AfterInsert(Working(c, job, 0, edits), 5)
  {
    WorkingOnFile(c, job, 0, edits);
    InsertStep(c.pipeline, Working(c, job, 0, edits), 5);
  }

  lemma InsertEffect(c: Scene, job: Job, edits: map<Id, Edit>)
    ensures AfterInsert(Working(c, job, 0, edits), 5) == Working(c, job, 1, edits)
  {
    assert map[5 := WorkOn(c, 0)][5 := WorkOn(c, 1)] == map[5 := WorkOn(c, 1)];
  }

  lemma CompletionStep(l: Pipeline, st: State, p: Id, refreshed: bool)
    requires IsImporting(st, p)
    ensures var scan := ScanOf(l, st, st.executions[p]);
            AllHanded(l, st, st.executions[p]) && RowFree(st, st.executions[p].job) && scan.outcome.Ok? ==>
              DoCommitCompletion(l, st, p, refreshed)
              == AfterCompletion(st, p, Flatten(Handed(l.batchSize, scan)), scan.outcome.value, refreshed)
  {
  }

  lemma ImportIsCompleted(c: Scene, job: Job, edits: map<Id, Edit>, refreshed: bool)
    requires OneRow(c)
    ensures DoCommitCompletion(c.pipeline, Working(c, job, 1, edits), 5, refreshed)
            == AfterCompletion(Working(c, job, 1, edits), 5, Scanned(c).accepted, 1, refreshed)
  {
    WorkingOnFile(c, job, 1, edits);
    CompletionStep(c.pipeline, Working(c, job, 1, edits), 5, refreshed);
  }

  /** The state after the completion commit. */
  function Done(c: Scene, job: Job, rows: seq<Insert>, refreshed: bool, edits: map<Id, Edit>): State {
    Holding(c, map[7 := Flush(RunningJob(c), CompletedJob(RunningJob(c), 1, 0), job)], rows,
            map[5 := if refreshed then Ended(7, Ok(1)) else Failing(7, PersistenceFailed)], edits)
  }

  lemma CompletionEffect(c: Scene, job: Job, rows: seq<Insert>, refreshed: bool, edits: map<Id, Edit>)
    ensures AfterCompletion(Working(c, job, 1, edits), 5, rows, 1, refreshed) == Done(c, job, rows, refreshed, edits)
  {
    var next := if refreshed then Ended(7, Ok(1)) else Failing(7, PersistenceFailed);
    assert map[5 := WorkOn(c, 1)][5 := next] == map[5 := next];
    var stored := Flush(RunningJob(c), CompletedJob(RunningJob(c), 1, 0), job);
    assert map[7 := job][7 := stored] == map[7 := stored];
    assert [] + rows == rows;
  }

  lemma TransitionIsWritten(l: Pipeline, st: State, id: Id, loaded: Job, r: Request, stored: Job, edited: Job)
    requires st.db.jobs == map[id := stored] && st.edits == map[9 := Edit(id, loaded, r, 0)] && RowFree(st, id)
    requires Transition(loaded, r, 0) == Ok(edited) && CountsFit(Flush(loaded, edited, stored))
    ensures Next(l, st, WriteTransition(9))
            == st.(db := st.db.(jobs := map[id := Flush(loaded, edited, stored)]), edits := map[])
  {
    assert map[id := stored][id := Flush(loaded, edited, stored)] == map[id := Flush(loaded, edited, stored)];
    assert st.edits - {9} == map[];
  }

  // ---------- A request between claim and completion ----------

  function InterruptRun(c: Scene, r: Request): seq<Step> {
    [PrepareStep(c), LockForExecution(5, 7, 1, 1), CommitClaim(5), ReadForTransition(9, 7, 1, r),
     WriteTransition(9), InsertBatch(5), CommitCompletion(5, true)]
  }

  predicate Interrupts(c: Scene, r: Request) {
    CheckRequest(r) == Some(r) && Transition(RunningJob(c), r, 0).Ok?
  }

  function InterruptedJob(c: Scene, r: Request): Job
    requires Interrupts(c, r)
  {
    Transition(RunningJob(c), r, 0).value
  }

  function InterruptState(c: Scene, r: Request, rows: seq<Insert>, k: nat): State
    requires Interrupts(c, r)
  {
    match k
    case 0 => Start(c)
    case 1 => Holding(c, map[7 := Prepared(c)], [], map[], map[])
    case 2 => Holding(c, map[7 := Prepared(c)], [], map[5 := Locked(7, Prepared(c), c.mapping, 1)], map[])
    case 3 => Working(c, RunningJob(c), 0, map[])
    case 4 => Working(c, RunningJob(c), 0, map[9 := Edit(7, RunningJob(c), r, 0)])
    case 5 => Working(c, InterruptedJob(c, r), 0, map[])
    case 6 => Working(c, InterruptedJob(c, r), 1, map[])
    case _ => Done(c, InterruptedJob(c, r), rows, true, map[])
  }

  lemma InterruptStep(c: Scene, r: Request, k: nat)
    requires OneRow(c) && Interrupts(c, r) && k < 7
    ensures Next(c.pipeline, InterruptState(c, r, Scanned(c).accepted, k), InterruptRun(c, r)[k]) == InterruptState(c, r, Scanned(c).accepted, k + 1)
  {
    match k
    case 0 => JobIsPrepared(c);
    case 1 => RowIsLocked(c, map[]);
    case 2 => ClaimIsCommitted(c, map[]);
    case 3 => RequestIsRead(c, r);
    case 4 => RequestIsWritten(c, r);
    case 5 => WorkStep(c, InterruptedJob(c, r), map[]);
    case _ => DoneStep(c, InterruptedJob(c, r), true, map[]);
  }

  lemma WorkStep(c: Scene, job: Job, edits: map<Id, Edit>)
    requires OneRow(c)
    ensures Next(c.pipeline, Working(c, job, 0, edits), InsertBatch(5)) == Working(c, job, 1, edits)
  {
    NextWorks(c.pipeline, Working(c, job, 0, edits), 5, false);
    BatchIsInserted(c, job, edits);
    InsertEffect(c, job, edits);
  }

  lemma DoneStep(c: Scene, job: Job, refreshed: bool, edits: map<Id, Edit>)
    requires OneRow(c)
    ensures Next(c.pipeline, Working(c, job, 1, edits), CommitCompletion(5, refreshed))
            == Done(c, job, Scanned(c).accepted, refreshed, edits)
  {
    NextWorks(c.pipeline, Working(c, job, 1, edits), 5, refreshed);
    ImportIsCompleted(c, job, edits, refreshed);
    CompletionEffect(c, job, Scanned(c).accepted, refreshed, edits);
  }

  lemma NextWorks(l: Pipeline, st: State, p: Id, refreshed: bool)
    ensures Next(l, st, InsertBatch(p)) == DoInsertBatch(l, st, p)
    ensures Next(l, st, CommitCompletion(p, refreshed)) == DoCommitCompletion(l, st, p, refreshed)
  {
  }

  lemma RequestIsWritten(c: Scene, r: Request)
    requires Interrupts(c, r)
    ensures Next(c.pipeline, Working(c, RunningJob(c), 0, map[9 := Edit(7, RunningJob(c), r, 0)]), WriteTransition(9))
            == Working(c, InterruptedJob(c, r), 0, map[])
  {
    FlushLoaded(RunningJob(c), InterruptedJob(c, r));
    TransitionIsWritten(c.pipeline, Working(c, RunningJob(c), 0, map[9 := Edit(7, RunningJob(c), r, 0)]),
                        7, RunningJob(c), r, RunningJob(c), InterruptedJob(c, r));
  }

  lemma RequestIsRead(c: Scene, r: Request)
    requires Interrupts(c, r)
    ensures Next(c.pipeline, Working(c, RunningJob(c), 0, map[]), ReadForTransition(9, 7, 1, r))
            == Working(c, RunningJob(c), 0, map[9 := Edit(7, RunningJob(c), r, 0)])
  {
  }

  lemma {:induction false} InterruptPrefix(c: Scene, r: Request, k: nat)
    requires OneRow(c) && Interrupts(c, r) && k <= 7
    ensures Run(c.pipeline, Start(c), InterruptRun(c, r)[..k]) == InterruptState(c, r, Scanned(c).accepted, k)
  {
    if k > 0 {
      InterruptPrefix(c, r, k - 1);
      InterruptStep(c, r, k - 1);
      assert InterruptRun(c, r)[..k][..k - 1] == InterruptRun(c, r)[..k - 1];
    }
  }

  /** What is stored when the request has been written, and at the end. */
  lemma InterruptEnds(c: Scene, r: Request)
    requires OneRow(c) && Interrupts(c, r)
    ensures Run(c.pipeline, Start(c), InterruptRun(c, r)[..5]).db.jobs == map[7 := InterruptedJob(c, r)]
    ensures Run(c.pipeline, Start(c), InterruptRun(c, r)).db.jobs
            == map[7 := Flush(RunningJob(c), CompletedJob(RunningJob(c), 1, 0), InterruptedJob(c, r))]
    ensures Initial(Start(c))
  {
    InterruptPrefix(c, r, 5);
    InterruptPrefix(c, r, 7);
    assert InterruptRun(c, r)[..7] == InterruptRun(c, r);
  }

  /** The run takes the job from CANCELLED to COMPLETED. */
  ghost predicate LosesCancellation(c: Scene) {
    var cancelled, end := Run(c.pipeline, Start(c), InterruptRun(c, CANCEL)[..5]), Run(c.pipeline, Start(c), InterruptRun(c, CANCEL));
    && Initial(Start(c))
    && 7 in cancelled.db.jobs && cancelled.db.jobs[7].status.Cancelled?
    && 7 in end.db.jobs && end.db.jobs[7].status.Completed?
  }

  /** A cancellation that lands between the claim and the completion commit is lost. */
  lemma CancellationCanBeLost(parsers: Rows.Parsers)
    ensures LosesCancellation(SmallScene(parsers))
  {
    FileHasOneRow(parsers);
    CancellationIsLost(SmallScene(parsers));
  }

  lemma CancellationIsLost(c: Scene)
    requires OneRow(c)
    ensures LosesCancellation(c)
  {
    InterruptEnds(c, CANCEL);
  }

  const COMPLETE := Request(Completed, None, None, None)
  const FAIL := Request(Failed, None, None, Some("x"))

  /** The run keeps along the graph, but changes a job that is COMPLETED. */
  ghost predicate RewritesCompleted(c: Scene) {
    var done, end := Run(c.pipeline, Start(c), InterruptRun(c, COMPLETE)[..5]), Run(c.pipeline, Start(c), InterruptRun(c, COMPLETE));
    && Initial(Start(c))
    && 7 in done.db.jobs && done.db.jobs[7].status.Completed? && done.db.jobs[7].total == 0
    && 7 in end.db.jobs && end.db.jobs[7].status.Completed? && end.db.jobs[7].total == 1
  }

  /** A client may complete a job whose import is under way; the completion commit then rewrites the terminal row. */
  lemma TerminalRowCanChange(parsers: Rows.Parsers)
    ensures RewritesCompleted(SmallScene(parsers))
  {
    FileHasOneRow(parsers);
    CompletedIsRewritten(SmallScene(parsers));
  }

  lemma CompletedIsRewritten(c: Scene)
    requires OneRow(c)
    ensures RewritesCompleted(c)
  {
    InterruptEnds(c, COMPLETE);
  }

  /** The run ends with a COMPLETED job that carries an error message. */
  ghost predicate KeepsMessage(c: Scene) {
    var end := Run(c.pipeline, Start(c), InterruptRun(c, FAIL));
    Initial(Start(c)) && 7 in end.db.jobs && end.db.jobs[7].status.Completed? && end.db.jobs[7].error == Some("x")
  }

  /** The message of a failure that a client reports during the import survives the completion commit. */
  lemma MessageCanSurvive(parsers: Rows.Parsers)
    ensures KeepsMessage(SmallScene(parsers))
  {
    FileHasOneRow(parsers);
    MessageSurvives(SmallScene(parsers));
  }

  lemma MessageSurvives(c: Scene)
    requires OneRow(c)
    ensures KeepsMessage(c)
  {
    StripTrims("x");
    InterruptEnds(c, FAIL);
  }

  // ---------- A cancellation before the start ----------

  const LATE_CANCEL: seq<Step> :=
    [CreateJob(7, 1, 1, "key", 0), ReadForTransition(9, 7, 1, CANCEL), Tick(5), ReadForTransition(8, 7, 1, START),
     WriteTransition(8), WriteTransition(9)]

  function CreatedJob(): Job {
    Job(1, 1, 1, None, JsonObject(map[]), "key", Pending, 0, 0, 0, None, None, None)
  }

  function LateState(c: Scene, k: nat): State {
    var created, started := CreatedJob(), CreatedJob().(status := ImportJobs.Running, startedAt := Some(5));
    var cancel, start := Edit(7, created, CANCEL, 0), Edit(7, created, START, 5);
    match k
    case 0 => Start(c)
    case 1 => Holding(c, map[7 := created], [], map[], map[])
    case 2 => Holding(c, map[7 := created], [], map[], map[9 := cancel])
    case 3 => Holding(c, map[7 := created], [], map[], map[9 := cancel]).(clock := 5)
    case 4 => Holding(c, map[7 := created], [], map[], map[9 := cancel, 8 := start]).(clock := 5)
    case 5 => Holding(c, map[7 := started], [], map[], map[9 := cancel]).(clock := 5)
    case _ => Holding(c, map[7 := started.(status := Cancelled, completedAt := Some(0))], [], map[], map[]).(clock := 5)
  }

  lemma LateStep(c: Scene, k: nat)
    requires k < 6
    ensures Next(c.pipeline, LateState(c, k), LATE_CANCEL[k]) == LateState(c, k + 1)
  {
    match k
    case 4 =>
      assert LateState(c, 4).edits - {8} == LateState(c, 5).edits;
      assert LateState(c, 4).db.jobs[7 := LateState(c, 5).db.jobs[7]] == LateState(c, 5).db.jobs;
    case 5 =>
      assert LateState(c, 5).edits - {9} == map[];
      assert LateState(c, 5).db.jobs[7 := LateState(c, 6).db.jobs[7]] == LateState(c, 6).db.jobs;
    case _ =>
  }

  lemma {:induction false} LatePrefix(c: Scene, k: nat)
    requires k <= 6
    ensures Run(c.pipeline, Start(c), LATE_CANCEL[..k]) == LateState(c, k)
  {
    if k > 0 {
      LatePrefix(c, k - 1);
      LateStep(c, k - 1);
      assert LATE_CANCEL[..k][..k - 1] == LATE_CANCEL[..k - 1];
    }
  }

  /** A cancellation that was read before a start request and is written after it ends the job before its start. */
  lemma JobCanEndBeforeItsStart(c: Scene)
    ensures var end := Run(c.pipeline, Start(c), LATE_CANCEL);
            && (Numbered(c.events) ==> Initial(Start(c)))
            && 7 in end.db.jobs && end.db.jobs[7].status.Cancelled?
            && end.db.jobs[7].startedAt == Some(5) && end.db.jobs[7].completedAt == Some(0)
  {
    LatePrefix(c, 6);
    assert LATE_CANCEL[..6] == LATE_CANCEL;
  }

  // ---------- Lost counters ----------

  function RestartRun(c: Scene): seq<Step> {
    [PrepareStep(c), ReadForTransition(9, 7, 1, START), LockForExecution(5, 7, 1, 1), CommitClaim(5),
     InsertBatch(5), CommitCompletion(5, false), WriteTransition(9), LockForFailure(5), CommitFailure(5)]
  }

  function StartEdits(c: Scene): map<Id, Edit> {
    map[9 := Edit(7, Prepared(c), START, 0)]
  }

  /** The job a stale start request has made RUNNING again. */
  function Restarted(c: Scene): Job {
    CompletedJob(RunningJob(c), 1, 0).(status := ImportJobs.Running)
  }

  function RestartState(c: Scene, rows: seq<Insert>, k: nat): State {
    match k
    case 0 => Start(c)
    case 1 => Holding(c, map[7 := Prepared(c)], [], map[], map[])
    case 2 => Holding(c, map[7 := Prepared(c)], [], map[], StartEdits(c))
    case 3 => Holding(c, map[7 := Prepared(c)], [], map[5 := Locked(7, Prepared(c), c.mapping, 1)], StartEdits(c))
    case 4 => Working(c, RunningJob(c), 0, StartEdits(c))
    case 5 => Working(c, RunningJob(c), 1, StartEdits(c))
    case 6 => Done(c, RunningJob(c), rows, false, StartEdits(c))
    case 7 => Holding(c, map[7 := Restarted(c)], rows, map[5 := Failing(7, PersistenceFailed)], map[])
    case 8 => Holding(c, map[7 := Restarted(c)], rows, map[5 := FailLocked(7, Restarted(c), PersistenceFailed)], map[])
    case _ => Holding(c, map[7 := FailedJob(Restarted(c), 0)], rows, map[5 := Ended(7, Err(PersistenceFailed))], map[])
  }

  lemma RestartStep(c: Scene, k: nat)
    requires OneRow(c) && k < 9
    ensures Next(c.pipeline, RestartState(c, Scanned(c).accepted, k), RestartRun(c)[k]) == RestartState(c, Scanned(c).accepted, k + 1)
  {
    match k
    case 0 => JobIsPrepared(c);
    case 1 => StartIsRead(c);
    case 2 => RowIsLocked(c, StartEdits(c));
    case 3 => ClaimIsCommitted(c, StartEdits(c));
    case 4 => WorkStep(c, RunningJob(c), StartEdits(c));
    case 5 => DoneStep(c, RunningJob(c), false, StartEdits(c));
    case 6 => StartIsWritten(c, Scanned(c).accepted);
    case _ => FailureIsStored(c, Scanned(c).accepted, Restarted(c));
  }

  lemma StartIsRead(c: Scene)
    ensures Next(c.pipeline, Holding(c, map[7 := Prepared(c)], [], map[], map[]), ReadForTransition(9, 7, 1, START))
            == Holding(c, map[7 := Prepared(c)], [], map[], StartEdits(c))
  {
  }

  lemma StartIsWritten(c: Scene, rows: seq<Insert>)
    ensures Next(c.pipeline, RestartState(c, rows, 6), WriteTransition(9)) == RestartState(c, rows, 7)
  {
    var completed := CompletedJob(RunningJob(c), 1, 0);
    FlushLoaded(RunningJob(c), completed);
    assert RestartState(c, rows, 6) == Holding(c, map[7 := completed], rows, map[5 := Failing(7, PersistenceFailed)], StartEdits(c));
    TransitionIsWritten(c.pipeline, RestartState(c, rows, 6), 7, Prepared(c), START, completed, RunningJob(c));
  }

  lemma FailureIsStored(c: Scene, rows: seq<Insert>, job: Job)
    requires job.status.Running?
    ensures var failing, locked := map[5 := Failing(7, PersistenceFailed)], map[5 := FailLocked(7, job, PersistenceFailed)];
            && Next(c.pipeline, Holding(c, map[7 := job], rows, failing, map[]), LockForFailure(5))
               == Holding(c, map[7 := job], rows, locked, map[])
            && Next(c.pipeline, Holding(c, map[7 := job], rows, locked, map[]), CommitFailure(5))
               == Holding(c, map[7 := FailedJob(job, 0)], rows, map[5 := Ended(7, Err(PersistenceFailed))], map[])
  {
    var locked, ended := FailLocked(7, job, PersistenceFailed), Ended(7, Err(PersistenceFailed));
    assert map[5 := Failing(7, PersistenceFailed)][5 := locked] == map[5 := locked];
    assert map[5 := locked][5 := ended] == map[5 := ended];
    FlushLoaded(job, FailedJob(job, 0));
    assert map[7 := job][7 := FailedJob(job, 0)] == map[7 := FailedJob(job, 0)];
  }

  lemma {:induction false} RestartPrefix(c: Scene, k: nat)
    requires OneRow(c) && k <= 9
    ensures Run(c.pipeline, Start(c), RestartRun(c)[..k]) == RestartState(c, Scanned(c).accepted, k)
  {
    if k > 0 {
      RestartPrefix(c, k - 1);
      RestartStep(c, k - 1);
      assert RestartRun(c)[..k][..k - 1] == RestartRun(c)[..k - 1];
    }
  }

  /** The run has one resurrecting write and ends with a record and a total of 0. */
  ghost predicate LosesCounters(c: Scene) {
    var completed, end := Run(c.pipeline, Start(c), RestartRun(c)[..6]), Run(c.pipeline, Start(c), RestartRun(c));
    && Initial(Start(c))
    && Resurrects(completed, RestartRun(c)[6])
    && 7 in end.db.jobs && end.db.jobs[7].total == 0 && |RecordsOf(end.db.records, 7)| == 1
  }

  lemma CountersAreLost(c: Scene)
    requires OneRow(c)
    ensures LosesCounters(c)
  {
    RestartPrefix(c, 6);
    RestartPrefix(c, 9);
    assert RestartRun(c)[..9] == RestartRun(c);
  }

  /**
   * A start request that was read before the claim and is written after the completion commit makes the
   * job RUNNING again; if the refresh after that commit raises, the failure handler then resets the
   * counters of a job that has a record.
   */
  lemma CountersCanBeLost(parsers: Rows.Parsers)
    ensures LosesCounters(SmallScene(parsers))
  {
    FileHasOneRow(parsers);
    CountersAreLost(SmallScene(parsers));
  }
}
