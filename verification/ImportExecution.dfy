/** `execute` as the sequence of statements it is, over a database that other calls change in between. */
module ImportExecution {
  import opened Wrappers
  import opened Batching
  import opened Entities
  import opened ImportJobs
  import opened ImportProtocol
  import opened ImportSafety
  import opened ImportGuarantees
  import CsvImport
  import ImportLoop

  // ---------- Steps of others ----------

  function Caller(step: Step): Option<Id> {
    match step
    case LockForExecution(p, _, _, _) => Some(p)
    case CommitClaim(p) => Some(p)
    case InsertBatch(p) => Some(p)
    case RaiseImportError(p) => Some(p)
    case RaiseFault(p, _) => Some(p)
    case CommitCompletion(p, _) => Some(p)
    case LockForFailure(p) => Some(p)
    case CommitFailure(p) => Some(p)
    case FailFailureHandler(p) => Some(p)
    case Crash(p) => Some(p)
    case _ => None
  }

  ghost predicate NotBy(p: Id, steps: seq<Step>) {
    forall k :: 0 <= k < |steps| ==> Caller(steps[k]) != Some(p)
  }

  lemma StepOfAnother(l: Pipeline, st: State, step: Step, p: Id)
    requires Caller(step) != Some(p)
    ensures Next(l, st, step).db.files == st.db.files
    ensures p in Next(l, st, step).executions <==> p in st.executions
    ensures p in st.executions ==> Next(l, st, step).executions[p] == st.executions[p]
  {
  }

  /** While other calls take steps, this one stays where it is and its file stays. */
  lemma {:induction false} RunOfOthers(l: Pipeline, st: State, steps: seq<Step>, p: Id)
    requires NotBy(p, steps)
    ensures Run(l, st, steps).db.files == st.db.files
    ensures p in Run(l, st, steps).executions <==> p in st.executions
    ensures p in st.executions ==> Run(l, st, steps).executions[p] == st.executions[p]
  {
    if steps != [] {
      var n := |steps| - 1;
      RunOfOthers(l, st, steps[..n], p);
      StepOfAnother(l, Run(l, st, steps[..n]), steps[n], p);
    }
  }

  /** No run removes a job or changes what it was created with. */
  lemma {:induction false} RunKeepsIdentity(l: Pipeline, st: State, steps: seq<Step>, id: Id)
    requires Inv(l, st) && id in st.db.jobs
    ensures id in Run(l, st, steps).db.jobs && SameIdentity(st.db.jobs[id], Run(l, st, steps).db.jobs[id])
  {
    if steps != [] {
      var n := |steps| - 1;
      RunKeepsIdentity(l, st, steps[..n], id);
      RunKeeps(l, st, steps[..n]);
      PendingNeverReturns(l, Run(l, st, steps[..n]), steps[n], id);
    }
  }

  lemma {:induction false} RunConcat(l: Pipeline, st: State, a: seq<Step>, b: seq<Step>)
    ensures Run(l, st, a + b) == Run(l, Run(l, st, a), b)
  {
    if b == [] {
      assert a + b == a;
    } else {
      var n := |b| - 1;
      assert (a + b)[..|a| + n] == a + b[..n];
      RunConcat(l, st, a, b[..n]);
    }
  }

  lemma RunMore(l: Pipeline, st: State, steps: seq<Step>, step: Step)
    ensures Run(l, st, steps + [step]) == Next(l, Run(l, st, steps), step)
  {
    assert (steps + [step])[..|steps|] == steps;
  }

  /** Handing over one more batch. */
  lemma InsertOne(l: Pipeline, st: State, p: Id)
    requires Inv(l, st) && IsImporting(st, p)
    requires st.executions[p].handed < |Handed(l.batchSize, ScanOf(l, st, st.executions[p]))|
    ensures var sent := SetExecution(st, p, st.executions[p].(handed := st.executions[p].handed + 1));
            DoInsertBatch(l, st, p) == sent && Inv(l, sent)
  {
    InsertBatchKeeps(l, st, p);
    InsertIs(l, st, p);
  }

  lemma InsertIs(l: Pipeline, st: State, p: Id)
    requires IsImporting(st, p)
    requires st.executions[p].handed < |Handed(l.batchSize, ScanOf(l, st, st.executions[p]))|
    ensures DoInsertBatch(l, st, p) == SetExecution(st, p, st.executions[p].(handed := st.executions[p].handed + 1))
  {
  }

  /** The same, with steps of others behind it. */
  lemma BatchSent(l: Pipeline, st: State, p: Id, others: seq<Step>)
    requires Inv(l, st) && NotBy(p, others) && IsImporting(st, p)
    requires st.executions[p].handed < |Handed(l.batchSize, ScanOf(l, st, st.executions[p]))|
    ensures var sent := SetExecution(st, p, st.executions[p].(handed := st.executions[p].handed + 1));
            var after := Run(l, sent, others);
            && DoInsertBatch(l, st, p) == sent
            && Inv(l, after) && IsImporting(after, p) && after.executions[p] == sent.executions[p]
            && after.db.files == st.db.files
  {
    InsertOne(l, st, p);
    AfterOthers(l, DoInsertBatch(l, st, p), others, p);
  }

  lemma NextOfInsert(l: Pipeline, st: State, p: Id)
    ensures Next(l, st, InsertBatch(p)) == DoInsertBatch(l, st, p)
  {
  }

  /** No call holds the row of a job that this call has claimed; a refused call lets go of it within its lock step. */
  lemma ClaimedRowIsFree(l: Pipeline, st: State, p: Id)
    requires Inv(l, st) && p in st.executions && (st.executions[p].Importing? || st.executions[p].Failing?)
    ensures RowFree(st, st.executions[p].job)
  {
    forall q | q in st.executions ensures !HoldsLock(st.executions[q], st.executions[p].job) {
      assert ExecutionInv(l, st.db, st.executions[q]);
      assert ExecutionInv(l, st.db, st.executions[p]);
    }
  }

  // ---------- The database and the objects mapped to its rows ----------

  /** A loaded row: the columns as they were loaded, and as they have been assigned since. */
  class JobRow {
    const id: Id
    var loaded: Job
    var status: Status
    var totalItems: nat
    var processedItems: nat
    var failedItems: nat
    var errorMessage: Option<string>
    var startedAt: Option<Time>
    var completedAt: Option<Time>

    constructor (id: Id, stored: Job)
      ensures this.id == id && loaded == stored && Value() == stored
    {
      this.id, loaded := id, stored;
      status, totalItems, processedItems, failedItems := stored.status, stored.total, stored.processed, stored.failed;
      errorMessage, startedAt, completedAt := stored.error, stored.startedAt, stored.completedAt;
    }

    function Value(): Job
      reads this
    {
      loaded.(status := status, total := totalItems, processed := processedItems, failed := failedItems,
              error := errorMessage, startedAt := startedAt, completedAt := completedAt)
    }
  }

  /** The shared world: the committed tables, and where every call stands. */
  class Server {
    const l: Pipeline
    var st: State

    constructor (l: Pipeline, st: State)
      ensures this.l == l && this.st == st
    {
      this.l, this.st := l, st;
    }

    /** The steps of other calls that fall between two transactions of one call. */
    method Meanwhile(steps: seq<Step>)
      modifies this
      ensures st == Run(l, old(st), steps)
    {
      st := Run(l, st, steps);
    }

    method Move(p: Id, e: Execution)
      modifies this
      ensures st == SetExecution(old(st), p, e)
    {
      st := st.(executions := st.executions[p := e]);
    }

    method Add(id: Id, job: Job)
      modifies this
      ensures st == old(st).(db := WithJob(old(st).db, id, job))
    {
      st := st.(db := st.db.(jobs := st.db.jobs[id := job]));
    }

    /** A call of `transition` has read its row; nothing is locked. */
    method Hold(q: Id, e: Edit)
      modifies this
      ensures st == old(st).(edits := old(st).edits[q := e])
    {
      st := st.(edits := st.edits[q := e]);
    }

    method Release(q: Id)
      modifies this
      ensures st == old(st).(edits := old(st).edits - {q})
    {
      st := st.(edits := st.edits - {q});
    }

    /** The same for a row alone; the database refuses counters that do not fit. */
    method CommitUpdate(row: JobRow) returns (ok: bool)
      requires row.id in st.db.jobs
      modifies this, row`loaded
      ensures var stored := Flush(old(row.loaded), old(row.Value()), old(st).db.jobs[row.id]);
              && ok == CountsFit(stored)
              && st == if ok then old(st).(db := WithJob(old(st).db, row.id, stored)) else old(st)
    {
      ok := CountsFit(Flush(row.loaded, row.Value(), st.db.jobs[row.id]));
      if ok { Commit(row, [], []); }
    }

    /** Commits the assigned columns of a row together with everything inserted since the transaction began. */
    method Commit(row: JobRow, records: seq<Insert>, issues: seq<IssueRow>)
      requires row.id in st.db.jobs
      modifies this, row`loaded
      ensures row.Value() == old(row.Value()) && row.loaded == row.Value()
      ensures st == old(st).(db := WithJob(old(st).db, row.id, Flush(old(row.loaded), old(row.Value()), old(st).db.jobs[row.id]))
                                     .(records := old(st).db.records + records, issues := old(st).db.issues + issues))
    {
      var db := WithJob(st.db, row.id, Flush(row.loaded, row.Value(), st.db.jobs[row.id]));
      st := st.(db := db.(records := st.db.records + records, issues := st.db.issues + issues));
      row.loaded := row.Value();
    }
  }

  // ---------- What one call meets ----------

  datatype HandlerFault = HandlerSucceeds | FailsBeforeLock | FailsBeforeCommit

  /**
   * The steps other calls take in the gaps of this call: while it holds the row for its claim, before
   * its first batch, after every batch, behind its loop, before its failure handler and inside that.
   * And what its own statements run into: whether the file opens, which batch is refused, whether the
   * completion commit and the refresh behind it succeed, and where the failure handler itself fails.
   */
  datatype Circumstances = Circumstances(
    duringClaim: seq<Step>,
    afterClaim: seq<Step>,
    afterBatch: nat -> seq<Step>,
    afterLoop: seq<Step>,
    beforeFailure: seq<Step>,
    beforeFailureCommit: seq<Step>,
    opens: bool,
    batchFaults: nat -> bool,
    commits: bool,
    refreshes: bool,
    handler: HandlerFault)
  {
    ghost predicate Apart(p: Id) {
      && NotBy(p, duringClaim) && ApartInTry(p) && NotBy(p, beforeFailure) && NotBy(p, beforeFailureCommit)
    }

    ghost predicate ApartInTry(p: Id) {
      NotBy(p, afterClaim) && NotBy(p, afterLoop) && forall k :: NotBy(p, afterBatch(k))
    }

    function Gaps(n: nat): seq<Step> {
      if n == 0 then [] else Gaps(n - 1) + afterBatch(n - 1)
    }

    /** The steps of others while the try block sends n batches. */
    function InTry(n: nat): seq<Step> {
      afterClaim + Gaps(n) + afterLoop
    }
  }

  /** The steps of a trace that belong to other calls. */
  function OthersIn(p: Id, trace: seq<Step>): seq<Step> {
    if trace == [] then []
    else if Caller(trace[0]) == Some(p) then OthersIn(p, trace[1..])
    else [trace[0]] + OthersIn(p, trace[1..])
  }

  lemma {:induction false} OthersInConcat(p: Id, a: seq<Step>, b: seq<Step>)
    ensures OthersIn(p, a + b) == OthersIn(p, a) + OthersIn(p, b)
  {
    if a == [] {
      assert a + b == b;
    } else {
      assert (a + b)[1..] == a[1..] + b;
      OthersInConcat(p, a[1..], b);
    }
  }

  lemma {:induction false} OthersInOthers(p: Id, steps: seq<Step>)
    requires NotBy(p, steps)
    ensures OthersIn(p, steps) == steps
  {
    if steps != [] { OthersInOthers(p, steps[1..]); }
  }

  lemma {:induction false} OthersInOwn(p: Id, steps: seq<Step>)
    requires forall k :: 0 <= k < |steps| ==> Caller(steps[k]) == Some(p)
    ensures OthersIn(p, steps) == []
  {
    if steps != [] { OthersInOwn(p, steps[1..]); }
  }

  /** The pipeline behind the protocol is the import of CSV files with these settings. */
  ghost predicate Agrees(l: Pipeline, s: CsvImport.Settings) {
    && l.batchSize == s.batchSize
    && forall o, m, es {:trigger CsvImport.ScanFile(s, o, m, es)} :: CsvImport.ScanFile(s, o, m, es) == l.scan(o, m, es)
  }

  /** The step by which an error ends the import. */
  function RaiseStep(p: Id, error: ExecuteError): Step {
    if error.ImportStopped? then RaiseImportError(p) else RaiseFault(p, error)
  }

  /** How many batches the database takes. */
  function SentCount(l: Pipeline, scan: Scan, c: Circumstances): (n: nat)
    ensures n <= |Handed(l.batchSize, scan)|
  {
    if c.opens then ImportLoop.FirstFault(c.batchFaults, |Handed(l.batchSize, scan)|) else 0
  }

  /** How the loop over a file ends: without a file, at the first refused batch, or as the file does. */
  function LoopResult(l: Pipeline, scan: Scan, c: Circumstances): Result<nat, ExecuteError> {
    if !c.opens then Err(Unexpected)
    else if SentCount(l, scan, c) < |Handed(l.batchSize, scan)| then Err(PersistenceFailed)
    else
      match scan.outcome
      case Ok(items) => Ok(items)
      case Err(e) => Err(ImportStopped(e))
  }

  function CompletionResult(items: nat, c: Circumstances): Result<nat, ExecuteError> {
    if c.commits && c.refreshes then Ok(items) else Err(PersistenceFailed)
  }

  /** What the try block returns or raises. */
  function TryResult(l: Pipeline, scan: Scan, c: Circumstances): Result<nat, ExecuteError> {
    match LoopResult(l, scan, c)
    case Ok(items) => CompletionResult(items, c)
    case Err(e) => Err(e)
  }

  /** Where the loop left the call: as many batches sent as the database takes, and the result that goes with them. */
  ghost predicate LoopEnded(l: Pipeline, st: State, p: Id, calls: seq<seq<Insert>>, r: Result<nat, ExecuteError>, c: Circumstances)
    requires IsImporting(st, p)
  {
    var scan := ScanOf(l, st, st.executions[p]);
    && st.executions[p].handed == |calls|
    && calls == Handed(l.batchSize, scan)[..SentCount(l, scan, c)]
    && r == LoopResult(l, scan, c)
  }

  /** The call is over with the returned count, or has to record its failure. */
  function AfterTry(id: Id, r: Result<nat, ExecuteError>): Execution {
    match r
    case Ok(items) => Ended(id, Ok(items))
    case Err(error) => Failing(id, error)
  }

  /** What the loop reported is what the machine allows after the batches that were sent. */
  lemma LoopErrorIsAStep(l: Pipeline, st: State, p: Id, calls: seq<seq<Insert>>, error: ExecuteError, c: Circumstances)
    requires IsImporting(st, p) && LoopEnded(l, st, p, calls, Err(error), c)
    ensures Next(l, st, RaiseStep(p, error)) == SetExecution(st, p, Failing(st.executions[p].job, error))
  {
  }

  function CompletionStep(p: Id, c: Circumstances): Step {
    if c.commits then CommitCompletion(p, c.refreshes) else RaiseFault(p, PersistenceFailed)
  }

  /** The state behind the last statements of the try block. */
  function Completing(st: State, p: Id, rows: seq<Insert>, items: nat, c: Circumstances): State
    requires IsImporting(st, p)
  {
    if c.commits then AfterCompletion(st, p, rows, items, c.refreshes)
    else SetExecution(st, p, Failing(st.executions[p].job, PersistenceFailed))
  }

  lemma NextOfCompletion(l: Pipeline, st: State, p: Id, c: Circumstances)
    ensures Next(l, st, CompletionStep(p, c))
            == if c.commits then DoCommitCompletion(l, st, p, c.refreshes) else DoRaiseFault(st, p, PersistenceFailed)
  {
  }

  /** A completed loop leaves the machine ready for the commit of exactly the rows that were sent. */
  lemma CompletionIsAStep(l: Pipeline, st: State, p: Id, calls: seq<seq<Insert>>, items: nat, c: Circumstances)
    requires Inv(l, st) && IsImporting(st, p) && LoopEnded(l, st, p, calls, Ok(items), c)
    ensures (if c.commits then DoCommitCompletion(l, st, p, c.refreshes) else DoRaiseFault(st, p, PersistenceFailed))
            == Completing(st, p, Flatten(calls), items, c)
  {
    if c.commits { CommitIsAStep(l, st, p, calls, items, c); }
  }

  lemma CommitIsAStep(l: Pipeline, st: State, p: Id, calls: seq<seq<Insert>>, items: nat, c: Circumstances)
    requires Inv(l, st) && IsImporting(st, p) && LoopEnded(l, st, p, calls, Ok(items), c)
    ensures DoCommitCompletion(l, st, p, c.refreshes) == AfterCompletion(st, p, Flatten(calls), items, c.refreshes)
  {
    ClaimedRowIsFree(l, st, p);
    assert calls == Handed(l.batchSize, ScanOf(l, st, st.executions[p]));
  }

  lemma CompletingEnds(st: State, p: Id, rows: seq<Insert>, items: nat, c: Circumstances)
    requires IsImporting(st, p)
    ensures Completing(st, p, rows, items, c).executions
            == st.executions[p := AfterTry(st.executions[p].job, CompletionResult(items, c))]
  {
  }

  /** The job is COMPLETED with this count. */
  predicate CompletedWith(db: Database, id: Id, items: nat) {
    && id in db.jobs && db.jobs[id].status == Completed
    && db.jobs[id].total == db.jobs[id].processed == items && db.jobs[id].failed == 0
  }

  lemma CompletionIsStored(l: Pipeline, st: State, p: Id, calls: seq<seq<Insert>>, items: nat, c: Circumstances)
    requires Inv(l, st) && IsImporting(st, p) && LoopEnded(l, st, p, calls, Ok(items), c) && c.commits
    ensures var db := Completing(st, p, Flatten(calls), items, c).db;
            Stored(l, db, st.executions[p].job, items) && CompletedWith(db, st.executions[p].job, items)
  {
    CommitIsAStep(l, st, p, calls, items, c.(refreshes := true));
    CompletingEnds(st, p, Flatten(calls), items, c.(refreshes := true));
    CompletionStores(l, st, p);
    CompletionParts(l, st, p);
  }

  /** Either way, what follows the loop is one step of the call. */
  lemma FinishIsAStep(l: Pipeline, st: State, p: Id, calls: seq<seq<Insert>>, outcome: Result<nat, ExecuteError>, c: Circumstances)
    returns (step: Step)
    requires Inv(l, st) && IsImporting(st, p) && LoopEnded(l, st, p, calls, outcome, c)
    ensures Caller(step) == Some(p)
    ensures outcome.Err? ==> Next(l, st, step) == SetExecution(st, p, AfterTry(st.executions[p].job, outcome))
    ensures outcome.Ok? ==>
              && Next(l, st, step) == Completing(st, p, Flatten(calls), outcome.value, c)
              && Next(l, st, step).executions
                 == st.executions[p := AfterTry(st.executions[p].job, CompletionResult(outcome.value, c))]
  {
    if outcome.Err? {
      LoopErrorIsAStep(l, st, p, calls, outcome.error, c);
      step := RaiseStep(p, outcome.error);
    } else {
      CompletionIsAStep(l, st, p, calls, outcome.value, c);
      NextOfCompletion(l, st, p, c);
      CompletingEnds(st, p, Flatten(calls), outcome.value, c);
      step := CompletionStep(p, c);
    }
  }

  /** The failure handler has not ended the call. */
  predicate AtFailure(e: Execution, id: Id, error: ExecuteError) {
    (e.Failing? || e.FailLocked?) && e.job == id && e.error == error
  }

  lemma LockIsAStep(l: Pipeline, st: State, p: Id)
    requires Inv(l, st)
    ensures DoLockForFailure(st, p) == Run(l, st, [LockForFailure(p)]) && Inv(l, DoLockForFailure(st, p))
    ensures OthersIn(p, [LockForFailure(p)]) == []
  {
    RunMore(l, st, [], LockForFailure(p));
    assert [] + [LockForFailure(p)] == [LockForFailure(p)];
    LockForFailureKeeps(l, st, p);
    OthersInOwn(p, [LockForFailure(p)]);
  }

  lemma FailureIsAStep(l: Pipeline, start: State, p: Id, trace: seq<Step>)
    ensures DoCommitFailure(Run(l, start, trace), p) == Run(l, start, trace + [CommitFailure(p)])
    ensures OthersIn(p, trace + [CommitFailure(p)]) == OthersIn(p, trace)
  {
    OneStepMore(l, start, p, trace, CommitFailure(p));
  }

  lemma HeldRow(l: Pipeline, st: State, steps: seq<Step>, p: Id)
    requires Inv(l, st) && NotBy(p, steps) && p in st.executions && st.executions[p].FailLocked?
    ensures var after := Run(l, st, steps);
            && Inv(l, after) && p in after.executions && after.executions[p] == st.executions[p]
            && st.executions[p].job in after.db.jobs
  {
    RunKeeps(l, st, steps);
    RunOfOthers(l, st, steps, p);
    assert ExecutionInv(l, Run(l, st, steps).db, st.executions[p]);
  }

  /** While the failure transaction holds the row, other calls leave it as it was loaded. */
  lemma AfterOthersUnderLock(l: Pipeline, start: State, st: State, steps: seq<Step>, p: Id)
    requires Inv(l, st) && NotBy(p, steps) && p in st.executions && st.executions[p].FailLocked?
    requires st == Run(l, start, [LockForFailure(p)])
    ensures var after := Run(l, st, steps);
            && after == Run(l, start, [LockForFailure(p)] + steps)
            && p in after.executions && after.executions[p] == st.executions[p] && st.executions[p].job in after.db.jobs
            && Inv(l, after)
    ensures OthersIn(p, [LockForFailure(p)] + steps) == steps
  {
    RunKeeps(l, st, steps);
    RunConcat(l, start, [LockForFailure(p)], steps);
    assert ExecutionInv(l, st.db, st.executions[p]);
    RunOfOthers(l, st, steps, p);
    RunKeepsIdentity(l, st, steps, st.executions[p].job);
    OthersInConcat(p, [LockForFailure(p)], steps);
    OthersInOwn(p, [LockForFailure(p)]);
    OthersInOthers(p, steps);
  }

  function ClaimSteps(p: Id, id: Id, organization: Id, datasource: Id, others: seq<Step>): seq<Step> {
    [LockForExecution(p, id, organization, datasource)] + others + [CommitClaim(p)]
  }

  lemma LockIsFirst(l: Pipeline, st: State, p: Id, id: Id, organization: Id, datasource: Id)
    requires Inv(l, st)
    ensures var locked := DoLockForExecution(l, st, p, id, organization, datasource);
            locked == Run(l, st, [LockForExecution(p, id, organization, datasource)]) && Inv(l, locked)
    ensures OthersIn(p, [LockForExecution(p, id, organization, datasource)]) == []
  {
    var lock := LockForExecution(p, id, organization, datasource);
    RunMore(l, st, [], lock);
    assert [] + [lock] == [lock];
    LockForExecutionKeeps(l, st, p, id, organization, datasource);
    OthersInOwn(p, [lock]);
  }

  /** While the claim holds the row, other calls leave it as it was loaded. */
  lemma AfterOthersUnderClaim(l: Pipeline, st: State, steps: seq<Step>, p: Id)
    requires Inv(l, st) && NotBy(p, steps) && p in st.executions && st.executions[p].Locked?
    ensures var after := Run(l, st, steps);
            && Inv(l, after) && p in after.executions && after.executions[p] == st.executions[p]
            && st.executions[p].job in after.db.jobs && st.executions[p].job in st.db.jobs
            && after.db.jobs[st.executions[p].job] == st.db.jobs[st.executions[p].job] == st.executions[p].loaded
  {
    RunKeeps(l, st, steps);
    RunOfOthers(l, st, steps, p);
    assert ExecutionInv(l, st.db, st.executions[p]);
    assert ExecutionInv(l, Run(l, st, steps).db, st.executions[p]);
  }

  lemma ClaimIsSteps(l: Pipeline, st: State, p: Id, id: Id, organization: Id, datasource: Id, others: seq<Step>)
    requires Inv(l, st) && NotBy(p, others)
    ensures var locked := DoLockForExecution(l, st, p, id, organization, datasource);
            var claimed := DoCommitClaim(Run(l, locked, others), p);
            claimed == Run(l, st, ClaimSteps(p, id, organization, datasource, others)) && Inv(l, claimed)
    ensures OthersIn(p, ClaimSteps(p, id, organization, datasource, others)) == others
  {
    var lock := [LockForExecution(p, id, organization, datasource)];
    LockIsFirst(l, st, p, id, organization, datasource);
    RunConcat(l, st, lock, others);
    OneStepMore(l, st, p, lock + others, CommitClaim(p));
    RunKeeps(l, st, ClaimSteps(p, id, organization, datasource, others));
    OthersInConcat(p, lock, others);
    OthersInOthers(p, others);
  }

  lemma StillAddressed(l: Pipeline, st: State, steps: seq<Step>, id: Id, organization: Id, datasource: Id)
    requires Inv(l, st) && Addressed(st.db, id, organization, datasource)
    ensures Inv(l, Run(l, st, steps)) && Addressed(Run(l, st, steps).db, id, organization, datasource)
  {
    RunKeeps(l, st, steps);
    RunKeepsIdentity(l, st, steps, id);
  }

  lemma AfterOthersBeforeFailure(l: Pipeline, st: State, steps: seq<Step>, p: Id, organization: Id, datasource: Id)
    requires Inv(l, st) && NotBy(p, steps) && p in st.executions
    requires Addressed(st.db, st.executions[p].job, organization, datasource)
    ensures var after := Run(l, st, steps);
            && Inv(l, after) && p in after.executions && after.executions[p] == st.executions[p]
            && Addressed(after.db, st.executions[p].job, organization, datasource)
    ensures OthersIn(p, steps) == steps
  {
    StillAddressed(l, st, steps, st.executions[p].job, organization, datasource);
    RunOfOthers(l, st, steps, p);
    OthersInOthers(p, steps);
  }

  lemma OthersOfCall(p: Id, claim: seq<Step>, imported: seq<Step>, failed: seq<Step>)
    ensures OthersIn(p, claim + imported + failed) == OthersIn(p, claim) + OthersIn(p, imported) + OthersIn(p, failed)
  {
    OthersInConcat(p, claim + imported, failed);
    OthersInConcat(p, claim, imported);
  }

  /** After steps of other calls, an importing call can go on where it was, with the same file in front of it. */
  lemma AfterOthers(l: Pipeline, st: State, steps: seq<Step>, p: Id)
    requires Inv(l, st) && NotBy(p, steps) && p in st.executions && st.executions[p].Importing?
    ensures var after := Run(l, st, steps);
            && Inv(l, after) && IsImporting(st, p) && IsImporting(after, p)
            && after.executions[p] == st.executions[p] && after.db.files == st.db.files
  {
    RunKeeps(l, st, steps);
    RunOfOthers(l, st, steps, p);
    ImportingHasFile(l, st, p);
  }

  lemma ImportingHasFile(l: Pipeline, st: State, p: Id)
    requires Inv(l, st) && p in st.executions && st.executions[p].Importing?
    ensures IsImporting(st, p)
  {
    assert ExecutionInv(l, st.db, st.executions[p]);
    assert JobInv(l, st.db, st.executions[p].job);
  }

  lemma RunThree(l: Pipeline, st: State, a: seq<Step>, b: seq<Step>, c: seq<Step>)
    ensures Run(l, st, a + b + c) == Run(l, Run(l, Run(l, st, a), b), c)
  {
    RunConcat(l, st, a + b, c);
    RunConcat(l, st, a, b);
  }

  lemma OthersInMore(p: Id, trace: seq<Step>, own: Step)
    requires Caller(own) == Some(p)
    ensures OthersIn(p, trace + [own]) == OthersIn(p, trace)
  {
    OthersInConcat(p, trace, [own]);
    OthersInOwn(p, [own]);
  }

  lemma OneStepMore(l: Pipeline, st: State, p: Id, trace: seq<Step>, own: Step)
    requires Caller(own) == Some(p)
    ensures Run(l, st, trace + [own]) == Next(l, Run(l, st, trace), own)
    ensures OthersIn(p, trace + [own]) == OthersIn(p, trace)
  {
    RunMore(l, st, trace, own);
    OthersInMore(p, trace, own);
  }

  /** n batches, each followed by the steps of others in its gap. */
  function SendTrace(p: Id, gap: nat -> seq<Step>, n: nat): seq<Step> {
    if n == 0 then [] else SendTrace(p, gap, n - 1) + [InsertBatch(p)] + gap(n - 1)
  }

  lemma {:induction false} OthersOfSending(p: Id, c: Circumstances, n: nat)
    requires c.ApartInTry(p)
    ensures OthersIn(p, SendTrace(p, c.afterBatch, n)) == c.Gaps(n)
  {
    if n > 0 {
      OthersOfSending(p, c, n - 1);
      OthersInMore(p, SendTrace(p, c.afterBatch, n - 1), InsertBatch(p));
      OthersInConcat(p, SendTrace(p, c.afterBatch, n - 1) + [InsertBatch(p)], c.afterBatch(n - 1));
      OthersInOthers(p, c.afterBatch(n - 1));
    }
  }

  /** The call has handed over k batches and has its file in front of it. */
  ghost predicate Sending(l: Pipeline, st: State, p: Id, e: Execution, files: map<Id, UploadedFile>, k: nat) {
    && Inv(l, st) && IsImporting(st, p) && e.Importing? && e.file in files
    && st.executions[p] == e.(handed := k) && st.db.files == files
  }

  function ScanIn(l: Pipeline, e: Execution, files: map<Id, UploadedFile>): Scan
    requires e.Importing? && e.file in files
  {
    l.scan(OwnerOf(e.job, e.loaded), e.mapping, files[e.file].events)
  }

  lemma SendingNext(l: Pipeline, st: State, p: Id, e: Execution, files: map<Id, UploadedFile>, k: nat, others: seq<Step>)
    requires Sending(l, st, p, e, files, k) && NotBy(p, others) && k < |Handed(l.batchSize, ScanIn(l, e, files))|
    ensures DoInsertBatch(l, st, p) == SetExecution(st, p, e.(handed := k + 1))
    ensures Sending(l, Run(l, DoInsertBatch(l, st, p), others), p, e, files, k + 1)
  {
    BatchSent(l, st, p, others);
  }

  lemma {:induction false} SendingHolds(l: Pipeline, st: State, p: Id, e: Execution, files: map<Id, UploadedFile>, c: Circumstances, n: nat)
    requires Sending(l, st, p, e, files, 0) && c.ApartInTry(p) && n <= |Handed(l.batchSize, ScanIn(l, e, files))|
    ensures Sending(l, Run(l, st, SendTrace(p, c.afterBatch, n)), p, e, files, n)
  {
    if n > 0 {
      var m := n - 1;
      SendingHolds(l, st, p, e, files, c, m);
      SendingGoesOn(l, st, Run(l, st, SendTrace(p, c.afterBatch, m)), p, e, files, c, m);
    }
  }

  lemma SendingGoesOn(l: Pipeline, st: State, before: State, p: Id, e: Execution, files: map<Id, UploadedFile>, c: Circumstances, k: nat)
    requires before == Run(l, st, SendTrace(p, c.afterBatch, k)) && Sending(l, before, p, e, files, k)
    requires c.ApartInTry(p) && k < |Handed(l.batchSize, ScanIn(l, e, files))|
    ensures Sending(l, Run(l, st, SendTrace(p, c.afterBatch, k + 1)), p, e, files, k + 1)
  {
    SendingNext(l, before, p, e, files, k, c.afterBatch(k));
    RunOneSent(l, st, p, c.afterBatch, k);
  }

  lemma RunOneSent(l: Pipeline, st: State, p: Id, gap: nat -> seq<Step>, n: nat)
    ensures Run(l, st, SendTrace(p, gap, n + 1))
            == Run(l, DoInsertBatch(l, Run(l, st, SendTrace(p, gap, n)), p), gap(n))
  {
    NextOfInsert(l, Run(l, st, SendTrace(p, gap, n)), p);
    RunConcat(l, st, SendTrace(p, gap, n) + [InsertBatch(p)], gap(n));
    RunMore(l, st, SendTrace(p, gap, n), InsertBatch(p));
  }

  /** Moving the call on by one batch is the machine's step. */
  lemma SendOneMore(l: Pipeline, st: State, p: Id, e: Execution, files: map<Id, UploadedFile>, c: Circumstances, k: nat)
    requires Sending(l, st, p, e, files, 0) && c.ApartInTry(p) && k < |Handed(l.batchSize, ScanIn(l, e, files))|
    ensures Run(l, SetExecution(Run(l, st, SendTrace(p, c.afterBatch, k)), p, e.(handed := k + 1)), c.afterBatch(k))
            == Run(l, st, SendTrace(p, c.afterBatch, k + 1))
  {
    SendingHolds(l, st, p, e, files, c, k);
    SendingNext(l, Run(l, st, SendTrace(p, c.afterBatch, k)), p, e, files, k, c.afterBatch(k));
    RunOneSent(l, st, p, c.afterBatch, k);
  }

  lemma OthersOfTry(p: Id, c: Circumstances, n: nat)
    requires c.ApartInTry(p)
    ensures OthersIn(p, c.afterClaim + SendTrace(p, c.afterBatch, n) + c.afterLoop) == c.InTry(n)
  {
    OthersOfCall(p, c.afterClaim, SendTrace(p, c.afterBatch, n), c.afterLoop);
    OthersInOthers(p, c.afterClaim);
    OthersOfSending(p, c, n);
    OthersInOthers(p, c.afterLoop);
  }

  // ---------- The failure handler ----------

  /** The job is FAILED, with zero counters and exactly the issues of this error. */
  ghost predicate FailedWith(db: Database, id: Id, error: ExecuteError) {
    && id in db.jobs && db.jobs[id].status == Failed && db.jobs[id].error == Some("CSV import execution failed.")
    && db.jobs[id].total == db.jobs[id].processed == db.jobs[id].failed == 0
    && Shows(IssuesOf(db.issues, id), id, error)
  }

  lemma FailureIsStored(l: Pipeline, st: State, p: Id)
    requires Inv(l, st) && p in st.executions && st.executions[p].FailLocked?
    ensures FailedWith(DoCommitFailure(st, p).db, st.executions[p].job, st.executions[p].error)
  {
    FailureParts(l, st, p);
    FailureShowsIssues(l, st, p);
    AssignedColumnsExactly(st.db.jobs[st.executions[p].job], 0, st.clock);
  }

  /** Whether the handler gets through: it succeeds, or there is nothing for it to fail at. */
  predicate HandlerEnds(db: Database, id: Id, c: Circumstances)
    requires id in db.jobs
  {
    c.handler == HandlerSucceeds || (c.handler == FailsBeforeCommit && db.jobs[id].status != Running)
  }

  /** The state behind the failure transaction, from the one in which it begins. */
  function Handled(l: Pipeline, st: State, p: Id, id: Id, c: Circumstances): State
    requires id in st.db.jobs
  {
    if c.handler == FailsBeforeLock then st
    else if st.db.jobs[id].status != Running then DoLockForFailure(st, p)
    else
      var held := Run(l, DoLockForFailure(st, p), c.beforeFailureCommit);
      if c.handler == FailsBeforeCommit then held else DoCommitFailure(held, p)
  }

  class CsvImportExecutionService {
    const server: Server
    const loop: ImportLoop.CsvImportLoop

    constructor (server: Server, loop: ImportLoop.CsvImportLoop)
      ensures this.server == server && this.loop == loop
    {
      this.server, this.loop := server, loop;
    }

    /** The file a claimed job imports. */
    method GetProcessableFile(organization: Id, datasource: Id, file: Id) returns (error: Option<ExecuteError>)
      ensures error == FileProblem(server.st.db, organization, datasource, file)
    {
      var files := server.st.db.files;
      if file !in files || files[file].organization != organization {
        return Some(NoUploadedFile);
      }
      if files[file].datasource != datasource {
        return Some(NoDatasource);
      }
      if files[file].status == FileFailed || files[file].status == FileDeleted {
        return Some(FileNotProcessable);
      }
      if !files[file].csv {
        return Some(UnsupportedFile);
      }
      return None;
    }

    /** Every check `execute` makes on the locked row, in their order. */
    method CheckClaim(id: Id, organization: Id, datasource: Id) returns (r: Result<(JobRow, Mapping, Id), ExecuteError>)
      ensures match ClaimChecks(server.l, server.st.db, id, organization, datasource)
              case Err(e) => r == Err(e)
              case Ok((mapping, file)) =>
                && r.Ok? && r.value.1 == mapping && r.value.2 == file
                && fresh(r.value.0) && r.value.0.id == id
                && id in server.st.db.jobs && r.value.0.loaded == r.value.0.Value() == server.st.db.jobs[id]
    {
      if !Addressed(server.st.db, id, organization, datasource) {
        return Err(JobNotFound);
      }
      var job := new JobRow(id, server.st.db.jobs[id]);
      if job.status != Pending {
        return Err(NotExecutable);
      }
      if job.loaded.uploadedFile == None {
        return Err(InvalidConfiguration);
      }
      if !DatasourceFound(server.st.db, datasource, organization) {
        return Err(NoDatasource);
      }
      var mapping := server.l.read(job.loaded.configuration);
      if mapping == None {
        return Err(InvalidConfiguration);
      }
      var file := job.loaded.uploadedFile.value;
      var error := GetProcessableFile(organization, datasource, file);
      if error != None {
        return Err(error.value);
      }
      return Ok((job, mapping.value, file));
    }

    /** The first transaction: every check under the row's lock, then PENDING becomes RUNNING. */
    method Claim(p: Id, id: Id, organization: Id, datasource: Id, c: Circumstances)
      returns (r: Result<(JobRow, Mapping, Id), ExecuteError>)
      requires Inv(server.l, server.st) && NotBy(p, c.duringClaim)
      requires p !in server.st.executions && RowFree(server.st, id)
      modifies server
      ensures var locked := DoLockForExecution(server.l, old(server.st), p, id, organization, datasource);
              match ClaimChecks(server.l, old(server.st.db), id, organization, datasource)
              case Err(e) =>
                r == Err(e) && server.st == locked && p in locked.executions && locked.executions[p] == Ended(id, Err(e))
              case Ok((mapping, file)) =>
                && r.Ok? && r.value.1 == mapping && r.value.2 == file
                && server.st == DoCommitClaim(Run(server.l, locked, c.duringClaim), p) && p in server.st.executions
                && server.st.executions[p] == Importing(id, r.value.0.loaded, mapping, file, 0)
                && SameIdentity(r.value.0.loaded, old(server.st).db.jobs[id])
      ensures r.Ok? ==> fresh(r.value.0) && r.value.0.id == id && r.value.0.Value() == r.value.0.loaded
    {
      LockIsFirst(server.l, server.st, p, id, organization, datasource);
      r := CheckClaim(id, organization, datasource);
      if r.Err? {
        server.Move(p, Ended(id, Err(r.error)));
        return;
      }
      var (job, mapping, file) := r.value;
      server.Move(p, Locked(id, job.loaded, mapping, file));
      AfterOthersUnderClaim(server.l, server.st, c.duringClaim, p);
      server.Meanwhile(c.duringClaim);
      StoreClaim(p, job, mapping, file);
    }

    /** PENDING becomes RUNNING, and the lock is released. */
    method StoreClaim(p: Id, job: JobRow, mapping: Mapping, file: Id)
      requires p in server.st.executions && server.st.executions[p] == Locked(job.id, job.loaded, mapping, file)
      requires job.Value() == job.loaded && job.id in server.st.db.jobs
      modifies server, job
      ensures server.st == DoCommitClaim(old(server.st), p) && p in server.st.executions
      ensures server.st.executions[p] == Importing(job.id, job.loaded, mapping, file, 0)
      ensures job.Value() == job.loaded && SameIdentity(job.loaded, old(job.loaded))
    {
      job.status := Running;
      job.startedAt := Some(server.st.clock);
      job.completedAt := None;
      job.errorMessage := None;
      server.Commit(job, [], []);
      server.Move(p, Importing(job.id, job.loaded, mapping, file, 0));
    }

    /** Reads the file and hands its rows over; nothing of it is visible to others yet. */
    method Persist(job: JobRow, mapping: Mapping, file: Id, c: Circumstances)
      returns (r: Result<nat, ExecuteError>, calls: seq<seq<Insert>>)
      requires Agrees(server.l, loop.settings) && file in server.st.db.files
      ensures var scan := server.l.scan(OwnerOf(job.id, job.loaded), mapping, server.st.db.files[file].events);
              && calls == Handed(server.l.batchSize, scan)[..SentCount(server.l, scan, c)]
              && r == LoopResult(server.l, scan, c)
    {
      if !c.opens {
        return Err(Unexpected), [];
      }
      var writer := new ImportLoop.RecordWriter(c.batchFaults);
      r := loop.PersistRecords(OwnerOf(job.id, job.loaded), mapping, server.st.db.files[file].events, writer);
      calls := writer.calls;
    }

    /** The last statements of the try block: the final columns, the commit, and the refresh behind it. */
    method Complete(p: Id, job: JobRow, items: nat, calls: seq<seq<Insert>>, c: Circumstances)
      returns (r: Result<nat, ExecuteError>)
      requires IsImporting(server.st, p)
      requires server.st.executions[p].job == job.id && server.st.executions[p].loaded == job.loaded == job.Value()
      modifies server, job
      ensures server.st == Completing(old(server.st), p, Flatten(calls), items, c) && r == CompletionResult(items, c)
    {
      job.status := Completed;
      job.totalItems := items;
      job.processedItems := items;
      job.failedItems := 0;
      job.completedAt := Some(server.st.clock);
      job.errorMessage := None;
      if !c.commits {
        server.Move(p, Failing(job.id, PersistenceFailed));
        return Err(PersistenceFailed);
      }
      server.Commit(job, Flatten(calls), []);
      if !c.refreshes {
        server.Move(p, Failing(job.id, PersistenceFailed));
        return Err(PersistenceFailed);
      }
      server.Move(p, Ended(job.id, Ok(items)));
      return Ok(items);
    }

    /** The batches reach the database one by one, with other calls at work between them. */
    method HandOver(p: Id, job: JobRow, mapping: Mapping, file: Id, n: nat, c: Circumstances)
      requires Sending(server.l, server.st, p, Importing(job.id, job.loaded, mapping, file, 0), server.st.db.files, 0)
      requires c.ApartInTry(p)
      requires var e := Importing(job.id, job.loaded, mapping, file, 0);
               n <= |Handed(server.l.batchSize, ScanIn(server.l, e, server.st.db.files))|
      modifies server
      ensures server.st == Run(server.l, old(server.st), SendTrace(p, c.afterBatch, n))
    {
      ghost var start, e := server.st, Importing(job.id, job.loaded, mapping, file, 0);
      for k := 0 to n
        invariant server.st == Run(server.l, start, SendTrace(p, c.afterBatch, k))
      {
        SendOneMore(server.l, start, p, e, start.db.files, c, k);
        server.Move(p, Importing(job.id, job.loaded, mapping, file, k + 1));
        server.Meanwhile(c.afterBatch(k));
      }
    }

    /** The loop: how far it got, with other calls at work before, between and after its batches. */
    method SendRows(p: Id, job: JobRow, mapping: Mapping, file: Id, c: Circumstances)
      returns (r: Result<nat, ExecuteError>, calls: seq<seq<Insert>>, ghost trace: seq<Step>)
      requires Inv(server.l, server.st) && Agrees(server.l, loop.settings) && c.ApartInTry(p)
      requires IsImporting(server.st, p) && server.st.executions[p] == Importing(job.id, job.loaded, mapping, file, 0)
      modifies server
      ensures server.st == Run(server.l, old(server.st), trace) && OthersIn(p, trace) == c.InTry(|calls|)
      ensures Inv(server.l, server.st) && IsImporting(server.st, p)
      ensures ScanOf(server.l, server.st, server.st.executions[p]) == ScanOf(server.l, old(server.st), old(server.st).executions[p])
      ensures server.st.executions[p] == Importing(job.id, job.loaded, mapping, file, |calls|)
      ensures LoopEnded(server.l, server.st, p, calls, r, c)
    {
      ghost var start := server.st;
      AfterOthers(server.l, start, c.afterClaim, p);
      server.Meanwhile(c.afterClaim);
      r, calls := Persist(job, mapping, file, c);
      SendingHolds(server.l, server.st, p, Importing(job.id, job.loaded, mapping, file, 0), server.st.db.files, c, |calls|);
      HandOver(p, job, mapping, file, |calls|, c);
      AfterOthers(server.l, server.st, c.afterLoop, p);
      server.Meanwhile(c.afterLoop);
      trace := c.afterClaim + SendTrace(p, c.afterBatch, |calls|) + c.afterLoop;
      RunThree(server.l, start, c.afterClaim, SendTrace(p, c.afterBatch, |calls|), c.afterLoop);
      OthersOfTry(p, c, |calls|);
    }

    /** What follows the loop: its error is raised, or the job is completed. */
    method Finish(p: Id, job: JobRow, outcome: Result<nat, ExecuteError>, calls: seq<seq<Insert>>, c: Circumstances)
      returns (r: Result<nat, ExecuteError>)
      requires IsImporting(server.st, p)
      requires server.st.executions[p].job == job.id && server.st.executions[p].loaded == job.loaded == job.Value()
      modifies server, job
      ensures outcome.Err? ==> r == outcome && server.st == SetExecution(old(server.st), p, Failing(job.id, outcome.error))
      ensures outcome.Ok? ==>
                && r == CompletionResult(outcome.value, c)
                && server.st == Completing(old(server.st), p, Flatten(calls), outcome.value, c)
    {
      if outcome.Err? {
        server.Move(p, Failing(job.id, outcome.error));
        return outcome;
      }
      r := Complete(p, job, outcome.value, calls, c);
    }

    /** The try block: rows, final columns, commit. What it returns or raises is determined by the file and the faults. */
    method Import(p: Id, job: JobRow, mapping: Mapping, file: Id, c: Circumstances)
      returns (r: Result<nat, ExecuteError>, ghost trace: seq<Step>)
      requires Inv(server.l, server.st) && Agrees(server.l, loop.settings) && c.ApartInTry(p)
      requires IsImporting(server.st, p) && server.st.executions[p] == Importing(job.id, job.loaded, mapping, file, 0)
      requires job.Value() == job.loaded
      modifies server, job
      ensures var scan := ScanOf(server.l, old(server.st), old(server.st).executions[p]);
              r == TryResult(server.l, scan, c) && OthersIn(p, trace) == c.InTry(SentCount(server.l, scan, c))
      ensures server.st == Run(server.l, old(server.st), trace)
      ensures p in server.st.executions && server.st.executions[p] == AfterTry(job.id, r)
      ensures r.Ok? ==> Stored(server.l, server.st.db, job.id, r.value) && CompletedWith(server.st.db, job.id, r.value)
    {
      ghost var start := server.st;
      var outcome, calls, before := SendRows(p, job, mapping, file, c);
      ghost var step := FinishIsAStep(server.l, server.st, p, calls, outcome, c);
      if outcome.Ok? && c.commits { CompletionIsStored(server.l, server.st, p, calls, outcome.value, c); }
      r := Finish(p, job, outcome, calls, c);
      trace := before + [step];
      OneStepMore(server.l, start, p, before, step);
    }

    /** Reads the row again under its lock; there is nothing to do unless it is RUNNING. */
    method LockAfterFailure(p: Id, id: Id, organization: Id, datasource: Id, error: ExecuteError) returns (job: JobRow?)
      requires p in server.st.executions && server.st.executions[p] == Failing(id, error) && RowFree(server.st, id)
      requires Addressed(server.st.db, id, organization, datasource)
      modifies server
      ensures server.st == DoLockForFailure(old(server.st), p) && p in server.st.executions
      ensures job == null ==> server.st.executions[p] == Ended(id, Err(error))
      ensures job != null ==>
                && fresh(job) && job.id == id && job.Value() == job.loaded
                && server.st.executions[p] == FailLocked(id, job.loaded, error)
    {
      job := new JobRow(id, server.st.db.jobs[id]);
      if job.status != Running {
        server.Move(p, Ended(id, Err(error)));
        return null;
      }
      server.Move(p, FailLocked(id, job.loaded, error));
    }

    /** FAILED, zero counters and the numbered issues become visible together. */
    method StoreFailure(p: Id, job: JobRow, error: ExecuteError)
      requires p in server.st.executions && server.st.executions[p] == FailLocked(job.id, job.loaded, error)
      requires job.Value() == job.loaded && job.id in server.st.db.jobs
      modifies server, job
      ensures server.st == DoCommitFailure(old(server.st), p) && p in server.st.executions
      ensures server.st.executions[p] == Ended(job.id, Err(error))
    {
      job.status := Failed;
      job.totalItems := 0;
      job.processedItems := 0;
      job.failedItems := 0;
      job.completedAt := Some(server.st.clock);
      job.errorMessage := Some(FAILURE_MESSAGE);
      server.Commit(job, [], IssueRows(job.id, IssuesIn(error)));
      server.Move(p, Ended(job.id, Err(error)));
    }

    /** The failure transaction; false stands for an exception inside it. */
    method MarkFailed(p: Id, id: Id, organization: Id, datasource: Id, error: ExecuteError, c: Circumstances)
      returns (ok: bool, ghost trace: seq<Step>)
      requires Inv(server.l, server.st) && NotBy(p, c.beforeFailureCommit)
      requires p in server.st.executions && server.st.executions[p] == Failing(id, error)
      requires Addressed(server.st.db, id, organization, datasource)
      modifies server
      ensures server.st == Run(server.l, old(server.st), trace) == Handled(server.l, old(server.st), p, id, c)
      ensures OthersIn(p, trace) == [] || OthersIn(p, trace) == c.beforeFailureCommit
      ensures p in server.st.executions && ok == HandlerEnds(old(server.st.db), id, c)
      ensures if ok then server.st.executions[p] == Ended(id, Err(error)) else AtFailure(server.st.executions[p], id, error)
      ensures c.handler == HandlerSucceeds && old(server.st.db).jobs[id].status == Running ==> FailedWith(server.st.db, id, error)
      ensures c.handler == FailsBeforeLock || old(server.st.db).jobs[id].status != Running ==> server.st.db == old(server.st.db)
    {
      trace := [];
      if c.handler == FailsBeforeLock {
        return false, trace;
      }
      ghost var start := server.st;
      ClaimedRowIsFree(server.l, start, p);
      var job := LockAfterFailure(p, id, organization, datasource, error);
      trace := [LockForFailure(p)];
      LockIsAStep(server.l, start, p);
      if job == null {
        return true, trace;
      }
      AfterOthersUnderLock(server.l, start, server.st, c.beforeFailureCommit, p);
      ok := RecordFailure(p, job, error, c);
      trace := trace + c.beforeFailureCommit;
      if ok {
        FailureIsAStep(server.l, start, p, trace);
        trace := trace + [CommitFailure(p)];
      }
    }

    /** The rest of the failure transaction, under the lock of a row that is RUNNING. */
    method RecordFailure(p: Id, job: JobRow, error: ExecuteError, c: Circumstances) returns (ok: bool)
      requires Inv(server.l, server.st) && NotBy(p, c.beforeFailureCommit)
      requires p in server.st.executions && server.st.executions[p] == FailLocked(job.id, job.loaded, error)
      requires job.Value() == job.loaded
      modifies server, job
      ensures var held := Run(server.l, old(server.st), c.beforeFailureCommit);
              && server.st == (if ok then DoCommitFailure(held, p) else held)
              && ok == (c.handler != FailsBeforeCommit) && p in server.st.executions
              && server.st.executions[p] == if ok then Ended(job.id, Err(error)) else FailLocked(job.id, old(job.loaded), error)
      ensures ok ==> FailedWith(server.st.db, job.id, error)
    {
      HeldRow(server.l, server.st, c.beforeFailureCommit, p);
      server.Meanwhile(c.beforeFailureCommit);
      if c.handler == FailsBeforeCommit {
        return false;
      }
      FailureIsStored(server.l, server.st, p);
      StoreFailure(p, job, error);
      return true;
    }

    /** Whatever happens inside the failure transaction, the call ends with the error it started from. */
    method MarkFailedWithoutMaskingError(p: Id, id: Id, organization: Id, datasource: Id, error: ExecuteError, c: Circumstances)
      returns (ghost trace: seq<Step>)
      requires Inv(server.l, server.st) && NotBy(p, c.beforeFailureCommit)
      requires p in server.st.executions && server.st.executions[p] == Failing(id, error)
      requires Addressed(server.st.db, id, organization, datasource)
      modifies server
      ensures server.st == Run(server.l, old(server.st), trace)
      ensures OthersIn(p, trace) == [] || OthersIn(p, trace) == c.beforeFailureCommit
      ensures p in server.st.executions && server.st.executions[p] == Ended(id, Err(error))
      ensures server.st.db == Handled(server.l, old(server.st), p, id, c).db
      ensures c.handler == HandlerSucceeds && old(server.st.db).jobs[id].status == Running ==> FailedWith(server.st.db, id, error)
    {
      ghost var start := server.st;
      var ok;
      ok, trace := MarkFailed(p, id, organization, datasource, error, c);
      if !ok {
        trace := Suppress(p, id, error, start, trace);
      }
    }

    /** An exception of the failure transaction is suppressed, and the original error raised. */
    method Suppress(p: Id, id: Id, error: ExecuteError, ghost start: State, ghost tried: seq<Step>) returns (ghost trace: seq<Step>)
      requires server.st == Run(server.l, start, tried)
      requires p in server.st.executions && AtFailure(server.st.executions[p], id, error)
      modifies server
      ensures server.st == Run(server.l, start, trace) && server.st.db == old(server.st.db)
      ensures OthersIn(p, trace) == OthersIn(p, tried)
      ensures p in server.st.executions && server.st.executions[p] == Ended(id, Err(error))
    {
      server.Move(p, Ended(id, Err(error)));
      OneStepMore(server.l, start, p, tried, FailFailureHandler(p));
      trace := tried + [FailFailureHandler(p)];
    }

    /**
     * One call of `execute`, whatever the other calls do in its gaps and wherever it is interrupted by a
     * fault. It goes through steps of the protocol, in between exactly the steps of the others. What it
     * returns or raises is determined by the checks, the file and the faults. A returned count is stored.
     * Behind an error, `handling` is the point of the trace where the failure handler begins: the job is
     * FAILED with the issues of the error if the handler finds it RUNNING and succeeds.
     */
    method Execute(p: Id, id: Id, organization: Id, datasource: Id, c: Circumstances)
      returns (r: Result<nat, ExecuteError>, ghost trace: seq<Step>, ghost handling: nat)
      requires Inv(server.l, server.st) && Agrees(server.l, loop.settings) && c.Apart(p)
      requires p !in server.st.executions && RowFree(server.st, id)
      modifies server
      ensures r == CallResult(server.l, old(server.st.db), id, organization, datasource, c)
      ensures server.st == Run(server.l, old(server.st), trace)
      ensures p in server.st.executions && server.st.executions[p] == Ended(id, r)
      ensures r.Ok? ==> Stored(server.l, server.st.db, id, r.value) && CompletedWith(server.st.db, id, r.value)
      ensures r.Ok? ==> OthersIn(p, trace) == OthersOfTryBlock(server.l, old(server.st.db), id, organization, datasource, c)
      ensures r.Err? && ClaimChecks(server.l, old(server.st.db), id, organization, datasource).Err? ==>
                trace == [LockForExecution(p, id, organization, datasource)] && server.st.db == old(server.st.db)
      ensures r.Err? && ClaimChecks(server.l, old(server.st.db), id, organization, datasource).Ok? ==>
                && handling <= |trace|
                && OthersIn(p, trace[..handling])
                   == OthersOfTryBlock(server.l, old(server.st.db), id, organization, datasource, c) + c.beforeFailure
                && (OthersIn(p, trace[handling..]) == [] || OthersIn(p, trace[handling..]) == c.beforeFailureCommit)
                && AfterError(server.l, Run(server.l, old(server.st), trace[..handling]), server.st, p, id, r.error, c)
    {
      ghost var start := server.st;
      handling := 0;
      LockIsFirst(server.l, start, p, id, organization, datasource);
      ClaimIsSteps(server.l, start, p, id, organization, datasource, c.duringClaim);
      var claimed := Claim(p, id, organization, datasource, c);
      if claimed.Err? {
        return Err(claimed.error), [LockForExecution(p, id, organization, datasource)], 0;
      }
      var (job, mapping, file) := claimed.value;
      ghost var claim := ClaimSteps(p, id, organization, datasource, c.duringClaim);
      ClaimedScan(server.l, start, claim, p, id, organization, datasource, job.loaded);
      ghost var imported;
      r, imported := Import(p, job, mapping, file, c);
      trace := claim + imported;
      RunConcat(server.l, start, claim, imported);
      OthersInConcat(p, claim, imported);
      if r.Err? {
        ghost var raised := server.st;
        StillAddressed(server.l, start, trace, id, organization, datasource);
        AfterOthersBeforeFailure(server.l, raised, c.beforeFailure, p, organization, datasource);
        server.Meanwhile(c.beforeFailure);
        ghost var handled := MarkFailedWithoutMaskingError(p, id, organization, datasource, r.error, c);
        handling := |trace + c.beforeFailure|;
        HandlerBegins(server.l, start, trace, c.beforeFailure, handled, p);
        trace := trace + c.beforeFailure + handled;
      }
    }
  }

  /** What importing the file of a claimable job amounts to. */
  function CallScan(l: Pipeline, db: Database, id: Id, organization: Id, datasource: Id): Scan
    requires ClaimChecks(l, db, id, organization, datasource).Ok?
  {
    var (mapping, file) := ClaimChecks(l, db, id, organization, datasource).value;
    l.scan(OwnerOf(id, db.jobs[id]), mapping, db.files[file].events)
  }

  /** What a call returns or raises: the first check that fails, or what the try block comes to. */
  function CallResult(l: Pipeline, db: Database, id: Id, organization: Id, datasource: Id, c: Circumstances)
    : Result<nat, ExecuteError>
  {
    match ClaimChecks(l, db, id, organization, datasource)
    case Err(e) => Err(e)
    case Ok(_) => TryResult(l, CallScan(l, db, id, organization, datasource), c)
  }

  /** The steps of others from the lock to the end of the try block. */
  function OthersOfTryBlock(l: Pipeline, db: Database, id: Id, organization: Id, datasource: Id, c: Circumstances): seq<Step> {
    if ClaimChecks(l, db, id, organization, datasource).Err? then []
    else c.duringClaim + c.InTry(SentCount(l, CallScan(l, db, id, organization, datasource), c))
  }

  /** How a call ends behind an error, from the state in which its failure handler begins. */
  ghost predicate AfterError(l: Pipeline, before: State, after: State, p: Id, id: Id, error: ExecuteError, c: Circumstances) {
    && p in before.executions && before.executions[p] == Failing(id, error) && id in before.db.jobs
    && after.db == Handled(l, before, p, id, c).db
    && (c.handler == HandlerSucceeds && before.db.jobs[id].status == Running ==> FailedWith(after.db, id, error))
  }

  /** The scan behind the claim is the one of the row that was checked. */
  lemma ClaimedScan(l: Pipeline, st: State, claim: seq<Step>, p: Id, id: Id, organization: Id, datasource: Id, loaded: Job)
    requires Inv(l, st) && ClaimChecks(l, st.db, id, organization, datasource).Ok? && p in Run(l, st, claim).executions
    requires var (mapping, file) := ClaimChecks(l, st.db, id, organization, datasource).value;
             Run(l, st, claim).executions[p] == Importing(id, loaded, mapping, file, 0)
    requires SameIdentity(loaded, st.db.jobs[id])
    ensures var claimed := Run(l, st, claim);
            && Inv(l, claimed) && IsImporting(claimed, p) && Addressed(st.db, id, organization, datasource)
            && ScanOf(l, claimed, claimed.executions[p]) == CallScan(l, st.db, id, organization, datasource)
  {
    RunKeeps(l, st, claim);
    RunKeepsFiles(l, st, claim);
    ImportingHasFile(l, Run(l, st, claim), p);
  }

  lemma {:induction false} RunKeepsFiles(l: Pipeline, st: State, steps: seq<Step>)
    ensures Run(l, st, steps).db.files == st.db.files
  {
    if steps != [] {
      RunKeepsFiles(l, st, steps[..|steps| - 1]);
      FilesStay(l, Run(l, st, steps[..|steps| - 1]), steps[|steps| - 1]);
    }
  }

  lemma HandlerBegins(l: Pipeline, start: State, tried: seq<Step>, others: seq<Step>, handled: seq<Step>, p: Id)
    requires OthersIn(p, others) == others
    ensures var trace, h := tried + others + handled, |tried + others|;
            && Run(l, start, trace) == Run(l, Run(l, Run(l, start, tried), others), handled)
            && Run(l, start, trace[..h]) == Run(l, Run(l, start, tried), others)
            && OthersIn(p, trace[..h]) == OthersIn(p, tried) + others && trace[h..] == handled
  {
    assert (tried + others + handled)[..|tried + others|] == tried + others;
    RunThree(l, start, tried, others, handled);
    RunConcat(l, start, tried, others);
    OthersInConcat(p, tried, others);
  }

  /**
   * Without faults of its own, whatever other calls do, a call returns a count exactly when the checks
   * pass and the file imports without an error; the count is then the number of its data rows.
   */
  lemma FaultFreeCallExactly(l: Pipeline, db: Database, id: Id, organization: Id, datasource: Id, c: Circumstances)
    requires Sound(l) && c.opens && (forall k :: !c.batchFaults(k)) && c.commits && c.refreshes
    ensures var r := CallResult(l, db, id, organization, datasource, c);
            var checks := ClaimChecks(l, db, id, organization, datasource);
            && (r.Ok? <==> checks.Ok? && CallScan(l, db, id, organization, datasource).outcome.Ok?)
            && (r.Ok? ==> r.value == |CallScan(l, db, id, organization, datasource).accepted|)
            && (checks.Ok? && r.Err? ==> r.error == ImportStopped(CallScan(l, db, id, organization, datasource).outcome.error))
  {
  }

  /** One of the first n batches is refused. */
  ghost predicate Refused(c: Circumstances, n: nat) {
    exists k: nat :: k < n && c.batchFaults(k)
  }

  /** The batches of a scan: all its rows behind its end, and only full batches behind its first error. */
  lemma HandedCount(size: Batching.Size, scan: Scan)
    ensures |Handed(size, scan)| == if scan.outcome.Ok? then (|scan.accepted| + size - 1) / size else |scan.accepted| / size
  {
    Batching.BatchCount(scan.accepted, size);
    Batching.FullBatchesLaw(scan.accepted, size);
  }

  /**
   * Which result a call has whose checks pass: an unexpected error exactly when the file does not open; a
   * database error exactly when one of the batches is refused, or the completion commit or the refresh
   * of a good file fails; the file's error when nothing else stops it; and else the file's count.
   */
  lemma CallExactly(l: Pipeline, db: Database, id: Id, organization: Id, datasource: Id, c: Circumstances)
    requires ClaimChecks(l, db, id, organization, datasource).Ok?
    ensures var r, scan := CallResult(l, db, id, organization, datasource, c), CallScan(l, db, id, organization, datasource);
            var rows := |scan.accepted|;
            var refused := Refused(c, if scan.outcome.Ok? then (rows + l.batchSize - 1) / l.batchSize else rows / l.batchSize);
            && (r == Err(Unexpected) <==> !c.opens)
            && (r == Err(PersistenceFailed) <==> c.opens && (refused || (scan.outcome.Ok? && !(c.commits && c.refreshes))))
            && (forall e :: r == Err(ImportStopped(e)) <==> c.opens && !refused && scan.outcome == Err(e))
            && (forall n :: r == Ok(n) <==> c.opens && !refused && scan.outcome == Ok(n) && c.commits && c.refreshes)
  {
    HandedCount(l.batchSize, CallScan(l, db, id, organization, datasource));
  }
}
