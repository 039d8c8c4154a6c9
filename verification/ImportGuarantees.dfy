/** What the import protocol guarantees over whole runs. */
module ImportGuarantees {
  import opened Wrappers
  import opened Batching
  import opened Entities
  import opened ImportJobs
  import opened ImportProtocol
  import opened ImportSafety

  lemma Reachable(l: Pipeline, st: State, steps: seq<Step>)
    requires Sound(l) && Initial(st)
    ensures Inv(l, Run(l, st, steps))
  {
    RunKeeps(l, st, steps);
  }

  // ---------- How one step changes one row ----------

  /** The five ways a stored job can go through a step. */
  ghost predicate RowChange(l: Pipeline, st: State, step: Step, before: Job, after: Job, id: Id) {
    match step
    case WriteTransition(q) =>
      after == before
      || (&& q in st.edits && st.edits[q].job == id
          && EditInv(st.db, st.edits[q], st.clock)
          && after == Flush(st.edits[q].loaded, Transition(st.edits[q].loaded, st.edits[q].request, st.edits[q].at).value, before))
    case CommitClaim(p) =>
      if Claims(st, step, id) then before.status.Pending? && after == ClaimedJob(before, st.clock) else after == before
    case CommitCompletion(p, _) =>
      after == before
      || (&& IsImporting(st, p) && st.executions[p].job == id && ScanOf(l, st, st.executions[p]).outcome.Ok?
          && after == Flush(st.executions[p].loaded,
                            CompletedJob(st.executions[p].loaded, ScanOf(l, st, st.executions[p]).outcome.value, st.clock), before))
    case CommitFailure(p) =>
      after == before
      || (&& p in st.executions && st.executions[p].FailLocked? && st.executions[p].job == id
          && before.status.Running? && after == FailedJob(before, st.clock))
    case _ => after == before
  }

  lemma StepChangesRow(l: Pipeline, st: State, step: Step, id: Id)
    requires Inv(l, st) && id in st.db.jobs
    ensures id in Next(l, st, step).db.jobs
    ensures RowChange(l, st, step, st.db.jobs[id], Next(l, st, step).db.jobs[id], id)
  {
    match step {
      case WriteTransition(q) => WriteChangesRow(l, st, q, id);
      case CommitClaim(p) => ClaimChangesRow(l, st, p, id);
      case CommitFailure(p) => FailureChangesRow(l, st, p, id);
      case CommitCompletion(p, refreshed) => CompletionChangesRow(l, st, p, refreshed, id);
      case _ => OtherStepsKeepRows(l, st, step, id);
    }
  }

  lemma WriteChangesRow(l: Pipeline, st: State, q: Id, id: Id)
    requires Inv(l, st) && id in st.db.jobs
    ensures id in DoWriteTransition(st, q).db.jobs
    ensures RowChange(l, st, WriteTransition(q), st.db.jobs[id], DoWriteTransition(st, q).db.jobs[id], id)
  {
    if q in st.edits { assert EditInv(st.db, st.edits[q], st.clock); }
  }

  lemma ClaimChangesRow(l: Pipeline, st: State, p: Id, id: Id)
    requires Inv(l, st) && id in st.db.jobs
    ensures id in DoCommitClaim(st, p).db.jobs
    ensures RowChange(l, st, CommitClaim(p), st.db.jobs[id], DoCommitClaim(st, p).db.jobs[id], id)
  {
    if p in st.executions && st.executions[p].Locked? {
      assert ExecutionInv(l, st.db, st.executions[p]);
      FlushLoaded(st.executions[p].loaded, ClaimedJob(st.executions[p].loaded, st.clock));
    }
  }

  lemma FailureChangesRow(l: Pipeline, st: State, p: Id, id: Id)
    requires Inv(l, st) && id in st.db.jobs
    ensures id in DoCommitFailure(st, p).db.jobs
    ensures RowChange(l, st, CommitFailure(p), st.db.jobs[id], DoCommitFailure(st, p).db.jobs[id], id)
  {
    if p in st.executions && st.executions[p].FailLocked? { FailureParts(l, st, p); }
  }

  lemma CompletionChangesRow(l: Pipeline, st: State, p: Id, refreshed: bool, id: Id)
    requires Inv(l, st) && id in st.db.jobs
    ensures id in DoCommitCompletion(l, st, p, refreshed).db.jobs
    ensures RowChange(l, st, CommitCompletion(p, refreshed), st.db.jobs[id],
                      DoCommitCompletion(l, st, p, refreshed).db.jobs[id], id)
  {
  }

  lemma OtherStepsKeepRows(l: Pipeline, st: State, step: Step, id: Id)
    requires Inv(l, st) && id in st.db.jobs
    requires !step.WriteTransition? && !step.CommitClaim? && !step.CommitFailure? && !step.CommitCompletion?
    ensures id in Next(l, st, step).db.jobs && Next(l, st, step).db.jobs[id] == st.db.jobs[id]
  {
  }

  /** The step commits a claim of this job. */
  predicate Claims(st: State, step: Step, id: Id) {
    step.CommitClaim? && step.p in st.executions && st.executions[step.p].Locked? && st.executions[step.p].job == id
  }

  lemma FailureParts(l: Pipeline, st: State, p: Id)
    requires Inv(l, st) && p in st.executions && st.executions[p].FailLocked?
    ensures var e := st.executions[p];
            && e.job in st.db.jobs && st.db.jobs[e.job].status.Running?
            && Flush(e.loaded, FailedJob(e.loaded, st.clock), st.db.jobs[e.job]) == FailedJob(st.db.jobs[e.job], st.clock)
            && DoCommitFailure(st, p).db == WithJob(st.db, e.job, FailedJob(st.db.jobs[e.job], st.clock))
                                            .(issues := st.db.issues + IssueRows(e.job, IssuesIn(e.error)))
  {
    assert ExecutionInv(l, st.db, st.executions[p]);
    FlushLoaded(st.executions[p].loaded, FailedJob(st.executions[p].loaded, st.clock));
  }

  // ---------- Records: all or nothing, and only at the completion commit ----------

  /** A completion commit of this job takes effect at this step. */
  ghost predicate Completes(l: Pipeline, st: State, step: Step, id: Id) {
    && step.CommitCompletion? && IsImporting(st, step.p) && st.executions[step.p].job == id
    && Next(l, st, step).db.records != st.db.records
  }

  /** A job's records are written by one step only, all at once, together with its final row. */
  lemma RecordsAppearAtOnce(l: Pipeline, st: State, step: Step, id: Id)
    requires Inv(l, st)
    ensures var after := Next(l, st, step);
            RecordsOf(after.db.records, id) != RecordsOf(st.db.records, id) ==>
              && Completes(l, st, step, id)
              && RecordsOf(st.db.records, id) == []
              && id in st.db.jobs && Executable(l, st.db, st.db.jobs[id])
              && RecordsOf(after.db.records, id) == JobScan(l, st.db.files, id, st.db.jobs[id]).accepted
              && after.db.jobs[id].status.Completed?
              && after.db.jobs[id].total == after.db.jobs[id].processed == |RecordsOf(after.db.records, id)|
  {
    OnlyCompletionStoresRecords(l, st, step);
    if step.CommitCompletion? && Next(l, st, step) != st { CompletionAppears(l, st, step.p, step.refreshed, id); }
  }

  lemma OnlyCompletionStoresRecords(l: Pipeline, st: State, step: Step)
    ensures Next(l, st, step).db.records != st.db.records ==>
              step.CommitCompletion? && IsImporting(st, step.p) && Next(l, st, step) != st
  {
  }

  lemma CompletionAppears(l: Pipeline, st: State, p: Id, refreshed: bool, id: Id)
    requires Inv(l, st) && DoCommitCompletion(l, st, p, refreshed) != st
    ensures var after, e := DoCommitCompletion(l, st, p, refreshed), st.executions[p];
            RecordsOf(after.db.records, id) != RecordsOf(st.db.records, id) ==>
              && e.job == id && id in st.db.jobs && id in after.db.jobs
              && RecordsOf(st.db.records, id) == [] && after.db.records != st.db.records
              && Executable(l, st.db, st.db.jobs[id])
              && RecordsOf(after.db.records, id) == JobScan(l, st.db.files, id, st.db.jobs[id]).accepted
              && after.db.jobs[id].status.Completed?
              && after.db.jobs[id].total == after.db.jobs[id].processed == |RecordsOf(after.db.records, id)|
  {
    CompletionParts(l, st, p);
    var e := st.executions[p];
    var accepted := ScanOf(l, st, e).accepted;
    JobScanInOrder(l, st.db, e.job);
    RecordsAdded(st.db.records, accepted, e.job, id);
    RecordsOfOthers(st.db.records, e.job);
  }

  /**
   * Under any interleaving, fault or crash, a job's committed records are none or exactly the
   * validated image of every data row of its file in order; and they are there only if a completion
   * commit of the job is among the steps.
   */
  lemma {:induction false} RecordsAllOrNothing(l: Pipeline, st: State, steps: seq<Step>, id: Id)
    requires Sound(l) && Initial(st) && id in Run(l, st, steps).db.jobs
    ensures var end := Run(l, st, steps);
            && (RecordsOf(end.db.records, id) != [] ==>
                 && Executable(l, end.db, end.db.jobs[id])
                 && JobScan(l, end.db.files, id, end.db.jobs[id]).outcome.Ok?
                 && RecordsOf(end.db.records, id) == JobScan(l, end.db.files, id, end.db.jobs[id]).accepted)
    ensures RecordsOf(Run(l, st, steps).db.records, id) != [] ==>
              exists k :: 0 <= k < |steps| && Completes(l, Run(l, st, steps[..k]), steps[k], id)
  {
    Reachable(l, st, steps);
    RecordsOfOthers(Run(l, st, steps).db.records, id);
    assert JobInv(l, Run(l, st, steps).db, id);
    NoRecordsWithoutCompletion(l, st, steps, id);
  }

  lemma {:induction false} NoRecordsWithoutCompletion(l: Pipeline, st: State, steps: seq<Step>, id: Id)
    requires Sound(l) && Initial(st)
    ensures RecordsOf(Run(l, st, steps).db.records, id) != [] ==>
              exists k :: 0 <= k < |steps| && Completes(l, Run(l, st, steps[..k]), steps[k], id)
  {
    if steps != [] {
      var n := |steps| - 1;
      var before := Run(l, st, steps[..n]);
      Reachable(l, st, steps[..n]);
      NoRecordsWithoutCompletion(l, st, steps[..n], id);
      RecordsAppearAtOnce(l, before, steps[n], id);
      if RecordsOf(before.db.records, id) != [] {
        var k :| 0 <= k < n && Completes(l, Run(l, st, steps[..n][..k]), steps[..n][k], id);
        assert steps[..n][..k] == steps[..k];
      }
    }
  }

  // ---------- What a returned count means ----------

  /** The job's file imports without an error, and its stored records are this many, namely that import. */
  ghost predicate Stored(l: Pipeline, db: Database, id: Id, items: nat) {
    && id in db.jobs && Executable(l, db, db.jobs[id])
    && JobScan(l, db.files, id, db.jobs[id]).outcome == Ok(items)
    && RecordsOf(db.records, id) == JobScan(l, db.files, id, db.jobs[id]).accepted
    && |RecordsOf(db.records, id)| == items
  }

  /** In every reachable state, a call that returned a count has all records of its file stored, for good. */
  lemma {:induction false} ReturnedMeansStored(l: Pipeline, st: State, steps: seq<Step>, p: Id)
    requires Sound(l) && Initial(st)
    requires p in Run(l, st, steps).executions
    requires Run(l, st, steps).executions[p].Ended? && Run(l, st, steps).executions[p].result.Ok?
    ensures var e := Run(l, st, steps).executions[p]; Stored(l, Run(l, st, steps).db, e.job, e.result.value)
  {
    var n := |steps| - 1;
    var before := Run(l, st, steps[..n]);
    var e := Run(l, st, steps).executions[p];
    Reachable(l, st, steps[..n]);
    if p in before.executions && before.executions[p] == e {
      ReturnedMeansStored(l, st, steps[..n], p);
      StoredStays(l, before, steps[n], e.job, e.result.value);
    } else {
      OnlyCompletionReturns(l, before, steps[n], p);
      CompletionStores(l, before, steps[n].p);
    }
  }

  lemma OnlyCompletionReturns(l: Pipeline, st: State, step: Step, p: Id)
    requires p in Next(l, st, step).executions && Next(l, st, step).executions[p].Ended?
    requires Next(l, st, step).executions[p].result.Ok?
    requires p in st.executions ==> st.executions[p] != Next(l, st, step).executions[p]
    ensures step == CommitCompletion(p, true) && Next(l, st, step) != st
  {
  }

  lemma CompletionStores(l: Pipeline, st: State, p: Id)
    requires Inv(l, st) && DoCommitCompletion(l, st, p, true) != st
    ensures Stored(l, DoCommitCompletion(l, st, p, true).db, st.executions[p].job, ScanOf(l, st, st.executions[p]).outcome.value)
  {
    CompletionParts(l, st, p);
    var e := st.executions[p];
    JobScanInOrder(l, st.db, e.job);
    NewRecords(st.db, ScanOf(l, st, e).accepted, e.job);
  }

  lemma StoredStays(l: Pipeline, st: State, step: Step, id: Id, items: nat)
    requires Inv(l, st) && Stored(l, st.db, id, items)
    ensures Stored(l, Next(l, st, step).db, id, items)
  {
    PendingNeverReturns(l, st, step, id);
    RecordsAppearAtOnce(l, st, step, id);
    FilesStay(l, st, step);
    SameScan(l, st.db, Next(l, st, step).db, id);
  }

  lemma FilesStay(l: Pipeline, st: State, step: Step)
    ensures Next(l, st, step).db.files == st.db.files
  {
  }

  lemma SameScan(l: Pipeline, before: Database, after: Database, id: Id)
    requires id in before.jobs && id in after.jobs && SameIdentity(before.jobs[id], after.jobs[id])
    requires before.files == after.files && Executable(l, before, before.jobs[id])
    ensures Executable(l, after, after.jobs[id])
    ensures JobScan(l, after.files, id, after.jobs[id]) == JobScan(l, before.files, id, before.jobs[id])
  {
  }

  // ---------- Claims: at most one ----------

  function ClaimCount(l: Pipeline, st: State, steps: seq<Step>, id: Id): nat {
    if steps == [] then 0
    else
      var n := |steps| - 1;
      ClaimCount(l, st, steps[..n], id) + if Claims(Run(l, st, steps[..n]), steps[n], id) then 1 else 0
  }

  /** No step makes a job pending again, or changes what it was created with. */
  lemma PendingNeverReturns(l: Pipeline, st: State, step: Step, id: Id)
    requires Inv(l, st) && id in st.db.jobs
    ensures id in Next(l, st, step).db.jobs
    ensures !st.db.jobs[id].status.Pending? ==> !Next(l, st, step).db.jobs[id].status.Pending?
    ensures SameIdentity(st.db.jobs[id], Next(l, st, step).db.jobs[id])
    ensures Claims(st, step, id) ==> st.db.jobs[id].status.Pending? && Next(l, st, step).db.jobs[id].status.Running?
  {
    StepChangesRow(l, st, step, id);
    if step.WriteTransition? && step.q in st.edits {
      TransitionKeepsCounters(st.edits[step.q].loaded, st.edits[step.q].request, st.edits[step.q].at);
    }
  }

  /** Over a whole run at most one call of `execute` claims a job. */
  lemma {:induction false} ClaimedAtMostOnce(l: Pipeline, st: State, steps: seq<Step>, id: Id)
    requires Sound(l) && Initial(st)
    ensures ClaimCount(l, st, steps, id) <= 1
    ensures ClaimCount(l, st, steps, id) == 1 ==>
              id in Run(l, st, steps).db.jobs && !Run(l, st, steps).db.jobs[id].status.Pending?
  {
    if steps != [] {
      var n := |steps| - 1;
      ClaimedAtMostOnce(l, st, steps[..n], id);
      Reachable(l, st, steps[..n]);
      OneMoreStep(l, Run(l, st, steps[..n]), steps[n], id);
    }
  }

  lemma OneMoreStep(l: Pipeline, st: State, step: Step, id: Id)
    requires Inv(l, st)
    ensures Claims(st, step, id) ==>
              && id in st.db.jobs && st.db.jobs[id].status.Pending?
              && id in Next(l, st, step).db.jobs && !Next(l, st, step).db.jobs[id].status.Pending?
    ensures id in st.db.jobs && !st.db.jobs[id].status.Pending? ==>
              id in Next(l, st, step).db.jobs && !Next(l, st, step).db.jobs[id].status.Pending?
  {
    if Claims(st, step, id) { assert ExecutionInv(l, st.db, st.executions[step.p]); }
    if id in st.db.jobs { PendingNeverReturns(l, st, step, id); }
  }

  // ---------- Unique keys ----------

  /** The rows handed over before the next batch. */
  function Earlier(l: Pipeline, st: State, p: Id): seq<Insert>
    requires IsImporting(st, p) && st.executions[p].handed <= |Handed(l.batchSize, ScanOf(l, st, st.executions[p]))|
  {
    Flatten(Handed(l.batchSize, ScanOf(l, st, st.executions[p]))[..st.executions[p].handed])
  }

  /** The key (job, row) of every row of the next batch is new among the committed rows and the call's own. */
  lemma InsertNeverViolatesKey(l: Pipeline, st: State, p: Id)
    requires Inv(l, st) && IsImporting(st, p)
    requires st.executions[p].handed < |Handed(l.batchSize, ScanOf(l, st, st.executions[p]))|
    ensures var rows := st.db.records + Earlier(l, st, p) + Handed(l.batchSize, ScanOf(l, st, st.executions[p]))[st.executions[p].handed];
            forall i, j :: 0 <= i < j < |rows| && rows[i].owner.job == rows[j].owner.job ==>
              rows[i].rowNumber < rows[j].rowNumber
  {
    var e := st.executions[p];
    var handed := Handed(l.batchSize, ScanOf(l, st, e));
    OneMoreBatch(handed, e.handed);
    HandedIsPrefix(l, ScanOf(l, st, e), e.handed + 1);
    SentRowsAreNew(l, st, p, Flatten(handed[..e.handed + 1]));
    assert st.db.records + Earlier(l, st, p) + handed[e.handed] == st.db.records + Flatten(handed[..e.handed + 1]);
  }

  lemma SentRowsAreNew(l: Pipeline, st: State, p: Id, sent: seq<Insert>)
    requires Inv(l, st) && IsImporting(st, p) && sent <= ScanOf(l, st, st.executions[p]).accepted
    ensures var rows := st.db.records + sent;
            forall i, j :: 0 <= i < j < |rows| && rows[i].owner.job == rows[j].owner.job ==>
              rows[i].rowNumber < rows[j].rowNumber
  {
    var e := st.executions[p];
    assert ExecutionInv(l, st.db, e);
    assert JobInv(l, st.db, e.job);
    JobScanInOrder(l, st.db, e.job);
    AppendRecordRows(st.db, st.db.(records := st.db.records + sent), sent, e.job);
  }

  /** What has been handed over is a prefix of the accepted rows. */
  lemma HandedIsPrefix(l: Pipeline, scan: Scan, n: nat)
    requires n <= |Handed(l.batchSize, scan)|
    ensures Flatten(Handed(l.batchSize, scan)[..n]) <= scan.accepted
  {
    var h := Handed(l.batchSize, scan);
    assert h == h[..n] + h[n..];
    FlattenConcat(h[..n], h[n..]);
    if scan.outcome.Ok? {
      BatchesConcatenate(scan.accepted, l.batchSize);
    } else {
      FullBatchesLaw(scan.accepted, l.batchSize);
    }
  }

  /** In every reachable state the unique constraints of the three tables hold. */
  lemma UniqueKeysHold(l: Pipeline, st: State, steps: seq<Step>)
    requires Sound(l) && Initial(st)
    ensures var db := Run(l, st, steps).db;
            && (forall i, j :: i in db.jobs && j in db.jobs && i != j ==> !SameKey(db.jobs[i], db.jobs[j]))
            && (forall i, j :: 0 <= i < j < |db.records| ==>
                 (db.records[i].owner.job, db.records[i].rowNumber) != (db.records[j].owner.job, db.records[j].rowNumber))
            && (forall i, j :: 0 <= i < j < |db.issues| ==>
                 (db.issues[i].job, db.issues[i].issue.row, db.issues[i].order)
                 != (db.issues[j].job, db.issues[j].issue.row, db.issues[j].order))
  {
    Reachable(l, st, steps);
  }

  /** Every job and every record carries the organization, research and datasource it was created from. */
  lemma ScopeHolds(l: Pipeline, st: State, steps: seq<Step>)
    requires Sound(l) && Initial(st)
    ensures var db := Run(l, st, steps).db;
            && (forall id :: id in db.jobs ==>
                 && db.jobs[id].datasource in db.datasources
                 && db.jobs[id].organization == db.datasources[db.jobs[id].datasource].organization
                 && db.jobs[id].research == db.datasources[db.jobs[id].datasource].research)
            && (forall i :: 0 <= i < |db.records| ==>
                 && db.records[i].owner.datasource in db.datasources
                 && db.records[i].owner.organization == db.datasources[db.records[i].owner.datasource].organization
                 && db.records[i].owner.research == db.datasources[db.records[i].owner.datasource].research)
  {
    Reachable(l, st, steps);
    var db := Run(l, st, steps).db;
    assert forall id :: id in db.jobs ==> JobInv(l, db, id);
  }

  // ---------- Failure handling ----------

  /**
   * Only the handler's commit stores issues; it changes a job that is stored as running, and shows the
   * job's issues, numbered from 0, together with the status FAILED and nothing else.
   */
  lemma IssuesOnlyWithFailure(l: Pipeline, st: State, step: Step)
    requires Inv(l, st)
    ensures var after := Next(l, st, step);
            after.db.issues != st.db.issues ==>
              && step.CommitFailure? && step.p in st.executions && st.executions[step.p].FailLocked?
              && var e := st.executions[step.p];
                 && e.job in st.db.jobs
                 && st.db.jobs[e.job].status.Running? && after.db.jobs[e.job].status.Failed?
                 && IssuesOf(st.db.issues, e.job) == []
                 && Shows(IssuesOf(after.db.issues, e.job), e.job, e.error)
                 && after.db.records == st.db.records
                 && forall id :: id in st.db.jobs && id != e.job ==>
                      id in after.db.jobs && after.db.jobs[id] == st.db.jobs[id]
                      && IssuesOf(after.db.issues, id) == IssuesOf(st.db.issues, id)
  {
    OnlyFailureStoresIssues(l, st, step);
    if step.CommitFailure? && step.p in st.executions && st.executions[step.p].FailLocked? {
      FailureShowsIssues(l, st, step.p);
    }
  }

  lemma OnlyFailureStoresIssues(l: Pipeline, st: State, step: Step)
    ensures Next(l, st, step).db.issues != st.db.issues ==>
              step.CommitFailure? && step.p in st.executions && st.executions[step.p].FailLocked?
  {
  }

  lemma FailureShowsIssues(l: Pipeline, st: State, p: Id)
    requires Inv(l, st) && p in st.executions && st.executions[p].FailLocked?
    ensures var e, after := st.executions[p], DoCommitFailure(st, p);
            && e.job in st.db.jobs && e.job in after.db.jobs
            && st.db.jobs[e.job].status.Running? && after.db.jobs[e.job].status.Failed?
            && IssuesOf(st.db.issues, e.job) == []
            && Shows(IssuesOf(after.db.issues, e.job), e.job, e.error)
            && after.db.records == st.db.records
            && forall id :: id in st.db.jobs && id != e.job ==>
                 id in after.db.jobs && after.db.jobs[id] == st.db.jobs[id]
                 && IssuesOf(after.db.issues, id) == IssuesOf(st.db.issues, id)
  {
    FailureParts(l, st, p);
    FailureAddsIssues(l, st, p);
    forall id | id in st.db.jobs && id != st.executions[p].job
      ensures IssuesOf(DoCommitFailure(st, p).db.issues, id) == IssuesOf(st.db.issues, id)
    {
      OthersKeepIssues(l, st, p, id);
    }
  }

  /** The handler's commit leaves the job with the issues of its error, where it had none. */
  lemma FailureAddsIssues(l: Pipeline, st: State, p: Id)
    requires Inv(l, st) && p in st.executions && st.executions[p].FailLocked?
    ensures var e := st.executions[p];
            IssuesOf(st.db.issues, e.job) == [] && Shows(IssuesOf(DoCommitFailure(st, p).db.issues, e.job), e.job, e.error)
  {
    var e := st.executions[p];
    assert ExecutionInv(l, st.db, e);
    FailureParts(l, st, p);
    IssuesOfOthers(st.db.issues, e.job);
    InsertedIssuesShow(e.job, e.error);
    IssuesAdded(st.db.issues, IssueRows(e.job, IssuesIn(e.error)), e.job, e.job);
  }

  lemma OthersKeepIssues(l: Pipeline, st: State, p: Id, id: Id)
    requires Inv(l, st) && p in st.executions && st.executions[p].FailLocked? && st.executions[p].job != id
    ensures IssuesOf(DoCommitFailure(st, p).db.issues, id) == IssuesOf(st.db.issues, id)
  {
    var e := st.executions[p];
    FailureParts(l, st, p);
    IssuesAdded(st.db.issues, IssueRows(e.job, IssuesIn(e.error)), e.job, id);
  }

  /** A call that has met an error ends with that error, whatever its failure handler meets and others do. */
  ghost predicate Reporting(st: State, p: Id, error: ExecuteError) {
    p in st.executions &&
    match st.executions[p]
    case Failing(_, e) => e == error
    case FailLocked(_, _, e) => e == error
    case Ended(_, r) => r == Err(error)
    case Crashed(_) => true
    case _ => false
  }

  lemma {:induction false} OriginalErrorSurfaces(l: Pipeline, st: State, steps: seq<Step>, p: Id, error: ExecuteError)
    requires Reporting(st, p, error)
    ensures Reporting(Run(l, st, steps), p, error)
  {
    if steps != [] {
      var n := |steps| - 1;
      OriginalErrorSurfaces(l, st, steps[..n], p, error);
      StepKeepsReporting(l, Run(l, st, steps[..n]), steps[n], p, error);
    }
  }

  lemma StepKeepsReporting(l: Pipeline, st: State, step: Step, p: Id, error: ExecuteError)
    requires Reporting(st, p, error)
    ensures Reporting(Next(l, st, step), p, error)
  {
    match step
    case CommitCompletion(q, refreshed) =>
      assert q != p ==> p in DoCommitCompletion(l, st, q, refreshed).executions
                        && DoCommitCompletion(l, st, q, refreshed).executions[p] == st.executions[p];
    case Tick(_) | CreateJob(_, _, _, _, _) | PrepareJob(_, _, _, _, _, _) | ReadForTransition(_, _, _, _) | WriteTransition(_) =>
      ClientStepsLeaveCalls(l, st, step);
    case _ =>
  }

  lemma ClientStepsLeaveCalls(l: Pipeline, st: State, step: Step)
    requires step.Tick? || step.CreateJob? || step.PrepareJob? || step.ReadForTransition? || step.WriteTransition?
    ensures Next(l, st, step).executions == st.executions
  {
  }

  /** A failing handler leaves the database as it was. */
  lemma FailedHandlerChangesNothing(l: Pipeline, st: State, p: Id)
    ensures Next(l, st, FailFailureHandler(p)).db == st.db
    ensures Next(l, st, LockForFailure(p)).db == st.db
    ensures p in st.executions && (st.executions[p].Failing? || st.executions[p].FailLocked?) ==>
              Next(l, st, FailFailureHandler(p)).executions[p] == Ended(st.executions[p].job, Err(st.executions[p].error))
  {
  }

  // ---------- Counters ----------

  /** A write that makes a job running again after it has left PENDING: the one its stale read allowed. */
  ghost predicate Resurrects(st: State, step: Step) {
    && step.WriteTransition? && step.q in st.edits
    && st.edits[step.q].request.status.Running?
    && st.edits[step.q].job in st.db.jobs && !st.db.jobs[st.edits[step.q].job].status.Pending?
  }

  ghost predicate NoResurrection(l: Pipeline, st: State, steps: seq<Step>) {
    forall k :: 0 <= k < |steps| ==> !Resurrects(Run(l, st, steps[..k]), steps[k])
  }

  /** The counters of a prepared job are the number of its records, and a running one has none. */
  ghost predicate Counted(db: Database, id: Id)
    requires id in db.jobs
  {
    var job := db.jobs[id];
    job.uploadedFile.Some? ==>
      && job.total == job.processed == |RecordsOf(db.records, id)| && job.failed == 0
      && (job.status.Running? ==> RecordsOf(db.records, id) == [])
  }

  lemma StepKeepsCounted(l: Pipeline, st: State, step: Step, id: Id)
    requires Inv(l, st) && id in Next(l, st, step).db.jobs && !Resurrects(st, step)
    requires id in st.db.jobs ==> Counted(st.db, id)
    ensures Counted(Next(l, st, step).db, id)
  {
    StepKeeps(l, st, step);
    assert JobInv(l, Next(l, st, step).db, id);
    RecordsOfOthers(Next(l, st, step).db.records, id);
    if id in st.db.jobs {
      RecordsAppearAtOnce(l, st, step, id);
      PendingNeverReturns(l, st, step, id);
      if RecordsOf(Next(l, st, step).db.records, id) == RecordsOf(st.db.records, id) {
        StepChangesRow(l, st, step, id);
        assert JobInv(l, st.db, id);
        RecordsOfOthers(st.db.records, id);
        if step.CommitCompletion? {
          if Next(l, st, step) != st { CompletionCounts(l, st, step.p, step.refreshed, id); }
        } else if st.db.jobs[id].uploadedFile.Some? {
          RowKeepsCounted(l, st, step, st.db.jobs[id], Next(l, st, step).db.jobs[id], id);
        }
      }
    } else {
      NewRowIsPending(l, st, step, id);
    }
  }

  lemma NewRowIsPending(l: Pipeline, st: State, step: Step, id: Id)
    requires Inv(l, st) && id !in st.db.jobs && id in Next(l, st, step).db.jobs
    ensures Next(l, st, step).db.jobs[id].status.Pending?
  {
    if step.CommitCompletion? && Next(l, st, step) != st { CompletionParts(l, st, step.p); }
  }

  lemma RowKeepsCounted(l: Pipeline, st: State, step: Step, before: Job, after: Job, id: Id)
    requires RowChange(l, st, step, before, after, id) && !step.CommitCompletion? && !Resurrects(st, step)
    requires id in st.db.jobs && st.db.jobs[id] == before
    requires before.status.Running? ==> before.total == 0
    ensures after.total == before.total
    ensures after.status.Running? ==> before.status.Running? || before.status.Pending?
  {
    if step.WriteTransition? && after != before {
      var e := st.edits[step.q];
      TransitionKeepsCounters(e.loaded, e.request, e.at);
    }
  }

  lemma CompletionCounts(l: Pipeline, st: State, p: Id, refreshed: bool, id: Id)
    requires Inv(l, st) && id in st.db.jobs && DoCommitCompletion(l, st, p, refreshed) != st
    ensures var after := DoCommitCompletion(l, st, p, refreshed);
            if id == st.executions[p].job then
              after.db.jobs[id].status.Completed? && after.db.jobs[id].total == |RecordsOf(after.db.records, id)|
            else
              after.db.jobs[id] == st.db.jobs[id] && RecordsOf(after.db.records, id) == RecordsOf(st.db.records, id)
  {
    CompletionParts(l, st, p);
    var e := st.executions[p];
    var accepted := ScanOf(l, st, e).accepted;
    JobScanInOrder(l, st.db, e.job);
    RecordsAdded(st.db.records, accepted, e.job, id);
    RecordsOfOthers(st.db.records, e.job);
  }

  /**
   * In every run without a resurrecting write, every prepared job always has as many total and
   * processed items as it has committed records, and no failed items.
   */
  lemma {:induction false} CountersMatchRecords(l: Pipeline, st: State, steps: seq<Step>, id: Id)
    requires Sound(l) && Initial(st) && NoResurrection(l, st, steps) && id in Run(l, st, steps).db.jobs
    ensures Counted(Run(l, st, steps).db, id)
  {
    var n := |steps| - 1;
    var before := Run(l, st, steps[..n]);
    Reachable(l, st, steps[..n]);
    assert forall k :: 0 <= k < n ==> steps[..n][..k] == steps[..k];
    if id in before.db.jobs { CountersMatchRecords(l, st, steps[..n], id); }
    assert !Resurrects(before, steps[n]);
    StepKeepsCounted(l, before, steps[n], id);
  }

  /** Every write of a transition finds the row as its read left it, as if the two were one step. */
  ghost predicate FreshWrites(l: Pipeline, st: State, steps: seq<Step>) {
    forall k :: 0 <= k < |steps| ==> FreshWrite(Run(l, st, steps[..k]), steps[k])
  }

  ghost predicate FreshWrite(st: State, step: Step) {
    step.WriteTransition? && step.q in st.edits && st.edits[step.q].job in st.db.jobs ==>
      st.db.jobs[st.edits[step.q].job] == st.edits[step.q].loaded
  }

  /** With transitions that take effect at once, the counters always match, whatever else is interleaved. */
  lemma CountersMatchWithAtomicTransitions(l: Pipeline, st: State, steps: seq<Step>, id: Id)
    requires Sound(l) && Initial(st) && FreshWrites(l, st, steps) && id in Run(l, st, steps).db.jobs
    ensures Counted(Run(l, st, steps).db, id)
  {
    forall k | 0 <= k < |steps| ensures !Resurrects(Run(l, st, steps[..k]), steps[k]) {
      Reachable(l, st, steps[..k]);
      FreshWriteNeverResurrects(l, Run(l, st, steps[..k]), steps[k]);
    }
    CountersMatchRecords(l, st, steps, id);
  }

  lemma FreshWriteNeverResurrects(l: Pipeline, st: State, step: Step)
    requires Inv(l, st) && FreshWrite(st, step)
    ensures !Resurrects(st, step)
  {
    if step.WriteTransition? && step.q in st.edits { assert EditInv(st.db, st.edits[step.q], st.clock); }
  }

  /** The failure commit keeps the count of a prepared job exactly when the job has no records. */
  lemma FailureKeepsCountExactly(l: Pipeline, st: State, p: Id)
    requires Inv(l, st) && p in st.executions && st.executions[p].FailLocked?
    requires st.executions[p].job in st.db.jobs && st.db.jobs[st.executions[p].job].uploadedFile.Some?
    ensures Counted(DoCommitFailure(st, p).db, st.executions[p].job) <==> RecordsOf(st.db.records, st.executions[p].job) == []
  {
    FailureParts(l, st, p);
  }

  /** The counters of a prepared job are the number of its records. */
  ghost predicate CountsMatch(db: Database, id: Id)
    requires id in db.jobs
  {
    var job := db.jobs[id];
    job.uploadedFile.Some? ==> job.total == job.processed == |RecordsOf(db.records, id)| && job.failed == 0
  }

  /** The failure handler commits over a prepared job that has records. */
  predicate ResetsStored(st: State, step: Step, id: Id) {
    && step.CommitFailure? && step.p in st.executions && st.executions[step.p].FailLocked? && st.executions[step.p].job == id
    && id in st.db.jobs && st.db.jobs[id].uploadedFile.Some? && RecordsOf(st.db.records, id) != []
  }

  /** A step keeps a job's counters right exactly when it is not such a commit. */
  lemma CountsKeptExactly(l: Pipeline, st: State, step: Step, id: Id)
    requires Inv(l, st) && id in Next(l, st, step).db.jobs && (id in st.db.jobs ==> CountsMatch(st.db, id))
    ensures CountsMatch(Next(l, st, step).db, id) <==> !ResetsStored(st, step, id)
  {
    if id !in st.db.jobs {
      NewRowCounts(l, st, step, id);
    } else {
      PendingNeverReturns(l, st, step, id);
      OnlyCompletionStoresRecords(l, st, step);
      StepChangesRow(l, st, step, id);
      if step.CommitCompletion? {
        if Next(l, st, step) != st { CompletionCountsMatch(l, st, step.p, step.refreshed, id); }
      } else {
        RowKeepsCounters(l, st, step, st.db.jobs[id], Next(l, st, step).db.jobs[id], id);
      }
    }
  }

  lemma NewRowCounts(l: Pipeline, st: State, step: Step, id: Id)
    requires Inv(l, st) && id !in st.db.jobs && id in Next(l, st, step).db.jobs
    ensures CountsMatch(Next(l, st, step).db, id)
  {
    NewRowIsPending(l, st, step, id);
    StepKeeps(l, st, step);
    assert JobInv(l, Next(l, st, step).db, id);
    RecordsOfOthers(Next(l, st, step).db.records, id);
  }

  lemma CompletionCountsMatch(l: Pipeline, st: State, p: Id, refreshed: bool, id: Id)
    requires Inv(l, st) && id in st.db.jobs && CountsMatch(st.db, id) && DoCommitCompletion(l, st, p, refreshed) != st
    ensures id in DoCommitCompletion(l, st, p, refreshed).db.jobs
    ensures CountsMatch(DoCommitCompletion(l, st, p, refreshed).db, id)
  {
    CompletionParts(l, st, p);
    CompletionCounts(l, st, p, refreshed, id);
  }

  /** Outside completion, only the failure handler touches the counters of a prepared job. */
  lemma RowKeepsCounters(l: Pipeline, st: State, step: Step, before: Job, after: Job, id: Id)
    requires Inv(l, st) && id in st.db.jobs && st.db.jobs[id] == before && before.uploadedFile == after.uploadedFile
    requires RowChange(l, st, step, before, after, id) && !step.CommitCompletion?
    requires id in Next(l, st, step).db.jobs && Next(l, st, step).db.jobs[id] == after
    ensures before.uploadedFile.Some? ==>
              if step.CommitFailure? && step.p in st.executions && st.executions[step.p].FailLocked? && st.executions[step.p].job == id
              then after.total == after.processed == after.failed == 0
              else after.total == before.total && after.processed == before.processed && after.failed == before.failed
  {
    if step.CommitFailure? && step.p in st.executions && st.executions[step.p].FailLocked? {
      FailureParts(l, st, step.p);
    } else if step.WriteTransition? && after != before {
      var e := st.edits[step.q];
      TransitionKeepsCounters(e.loaded, e.request, e.at);
    }
  }

  ghost predicate CountedThroughout(l: Pipeline, st: State, steps: seq<Step>, id: Id) {
    forall k :: 0 <= k <= |steps| ==> CountedAt(l, st, steps[..k], id)
  }

  ghost predicate NeverReset(l: Pipeline, st: State, steps: seq<Step>, id: Id) {
    forall k :: 0 <= k < |steps| ==> !ResetsStored(Run(l, st, steps[..k]), steps[k], id)
  }

  /** The counters of a job are right all through a run exactly when no failure handler resets them over records. */
  lemma CountsMatchExactly(l: Pipeline, st: State, steps: seq<Step>, id: Id)
    requires Sound(l) && Initial(st)
    ensures CountedThroughout(l, st, steps, id) <==> NeverReset(l, st, steps, id)
  {
    if NeverReset(l, st, steps, id) {
      forall k | 0 <= k <= |steps| ensures CountedAt(l, st, steps[..k], id) {
        assert forall m :: 0 <= m < k ==> steps[..k][..m] == steps[..m];
        NeverResetCounts(l, st, steps[..k], id);
      }
    }
    if CountedThroughout(l, st, steps, id) {
      forall k | 0 <= k < |steps| ensures !ResetsStored(Run(l, st, steps[..k]), steps[k], id) {
        assert CountedAt(l, st, steps[..k], id) && CountedAt(l, st, steps[..k + 1], id);
        CountedIsNotReset(l, st, steps, k, id);
      }
    }
  }

  lemma CountedIsNotReset(l: Pipeline, st: State, steps: seq<Step>, k: nat, id: Id)
    requires Sound(l) && Initial(st) && k < |steps|
    requires CountedAt(l, st, steps[..k], id) && CountedAt(l, st, steps[..k + 1], id)
    ensures !ResetsStored(Run(l, st, steps[..k]), steps[k], id)
  {
    assert steps[..k + 1][..k] == steps[..k];
    OneStepCounts(l, st, steps[..k + 1], id);
  }

  lemma {:induction false} NeverResetCounts(l: Pipeline, st: State, steps: seq<Step>, id: Id)
    requires Sound(l) && Initial(st) && NeverReset(l, st, steps, id)
    ensures CountedAt(l, st, steps, id)
  {
    if steps != [] {
      var n := |steps| - 1;
      assert forall m :: 0 <= m < n ==> steps[..n][..m] == steps[..m];
      NeverResetCounts(l, st, steps[..n], id);
      OneStepCounts(l, st, steps, id);
    }
  }

  ghost predicate CountedAt(l: Pipeline, st: State, steps: seq<Step>, id: Id) {
    id in Run(l, st, steps).db.jobs ==> CountsMatch(Run(l, st, steps).db, id)
  }

  lemma OneStepCounts(l: Pipeline, st: State, steps: seq<Step>, id: Id)
    requires Sound(l) && Initial(st) && steps != []
    ensures var n := |steps| - 1;
            CountedAt(l, st, steps[..n], id) ==>
              (CountedAt(l, st, steps, id) <==> !ResetsStored(Run(l, st, steps[..n]), steps[n], id))
  {
    var n := |steps| - 1;
    Reachable(l, st, steps[..n]);
    if CountedAt(l, st, steps[..n], id) && id in Run(l, st, steps).db.jobs {
      CountsKeptExactly(l, Run(l, st, steps[..n]), steps[n], id);
    } else if id in Run(l, st, steps[..n]).db.jobs {
      PendingNeverReturns(l, Run(l, st, steps[..n]), steps[n], id);
    }
  }

  // ---------- The CHECK on the counters ----------

  /**
   * The counters of every stored job fit its total, in every reachable state: the claim, completion and
   * failure commits never run into the CHECK that refuses some writes of `transition`.
   */
  lemma {:induction false} CountersFitTotal(l: Pipeline, st: State, steps: seq<Step>, id: Id)
    requires Sound(l) && Initial(st) && id in Run(l, st, steps).db.jobs
    ensures CountsFit(Run(l, st, steps).db.jobs[id])
  {
    var n := |steps| - 1;
    var before := Run(l, st, steps[..n]);
    Reachable(l, st, steps[..n]);
    if id in before.db.jobs {
      CountersFitTotal(l, st, steps[..n], id);
      StepKeepsFit(l, before, steps[n], id);
    } else {
      NewRowFits(l, before, steps[n], id);
    }
  }

  lemma StepKeepsFit(l: Pipeline, st: State, step: Step, id: Id)
    requires Inv(l, st) && id in st.db.jobs && CountsFit(st.db.jobs[id])
    ensures id in Next(l, st, step).db.jobs && CountsFit(Next(l, st, step).db.jobs[id])
  {
    match step
    case WriteTransition(q) => WriteKeepsFit(st, q, id);
    case CommitCompletion(p, refreshed) => CompletionKeepsFit(l, st, p, refreshed, id);
    case _ => OtherStepsKeepFit(l, st, step, id);
  }

  lemma WriteKeepsFit(st: State, q: Id, id: Id)
    requires id in st.db.jobs && CountsFit(st.db.jobs[id])
    ensures id in DoWriteTransition(st, q).db.jobs && CountsFit(DoWriteTransition(st, q).db.jobs[id])
  {
  }

  lemma CompletionKeepsFit(l: Pipeline, st: State, p: Id, refreshed: bool, id: Id)
    requires Inv(l, st) && id in st.db.jobs && CountsFit(st.db.jobs[id])
    ensures id in DoCommitCompletion(l, st, p, refreshed).db.jobs
    ensures CountsFit(DoCommitCompletion(l, st, p, refreshed).db.jobs[id])
  {
    if DoCommitCompletion(l, st, p, refreshed) != st { CompletionParts(l, st, p); }
  }

  lemma OtherStepsKeepFit(l: Pipeline, st: State, step: Step, id: Id)
    requires Inv(l, st) && id in st.db.jobs && CountsFit(st.db.jobs[id])
    requires !step.WriteTransition? && !step.CommitCompletion?
    ensures id in Next(l, st, step).db.jobs && CountsFit(Next(l, st, step).db.jobs[id])
  {
    StepChangesRow(l, st, step, id);
  }

  lemma NewRowFits(l: Pipeline, st: State, step: Step, id: Id)
    requires Inv(l, st) && id !in st.db.jobs && id in Next(l, st, step).db.jobs
    ensures CountsFit(Next(l, st, step).db.jobs[id])
  {
    if step.CommitCompletion? && Next(l, st, step) != st { CompletionParts(l, st, step.p); }
  }
}
