/** The issues a failed job shows are those of its file. */
module ImportIssues {
  import opened Wrappers
  import opened Entities
  import opened ImportJobs
  import opened ImportProtocol
  import opened ImportSafety
  import opened ImportGuarantees

  /** Importing the job's file stops with this error. */
  ghost predicate StopsWith(l: Pipeline, db: Database, id: Id, e: ImportError) {
    && id in db.jobs && Executable(l, db, db.jobs[id])
    && JobScan(l, db.files, id, db.jobs[id]).outcome == Err(e)
  }

  /** An error of the loop on its way into the failure transaction is that of the job's file. */
  ghost predicate ErrorInv(l: Pipeline, db: Database, e: Execution) {
    (e.Failing? || e.FailLocked?) && e.error.ImportStopped? ==> StopsWith(l, db, e.job, e.error.error)
  }

  /** No issues, or exactly those of the first row that stops the import, numbered in their order. */
  ghost predicate IssuesMatch(l: Pipeline, db: Database, id: Id) {
    || IssuesOf(db.issues, id) == []
    || (exists issues: seq<Issue> ::
          StopsWith(l, db, id, InvalidRecord(issues)) && Numbers(IssuesOf(db.issues, id), id, issues))
  }

  ghost predicate IssuesInv(l: Pipeline, st: State) {
    && Inv(l, st)
    && (forall p :: p in st.executions ==> ErrorInv(l, st.db, st.executions[p]))
    && (forall id :: id in st.db.jobs ==> IssuesMatch(l, st.db, id))
  }

  /** Where an error in the failure handler comes from. */
  lemma ErrorOrigin(l: Pipeline, st: State, step: Step, p: Id)
    requires p in Next(l, st, step).executions
    requires Next(l, st, step).executions[p].Failing? || Next(l, st, step).executions[p].FailLocked?
    requires Next(l, st, step).executions[p].error.ImportStopped?
    ensures p in st.executions && st.executions[p].job == Next(l, st, step).executions[p].job
    ensures var e := Next(l, st, step).executions[p].error;
            || ((st.executions[p].Failing? || st.executions[p].FailLocked?) && st.executions[p].error == e)
            || (IsImporting(st, p) && ScanOf(l, st, st.executions[p]).outcome == Err(e.error))
  {
  }

  lemma ImportingStops(l: Pipeline, st: State, p: Id, e: ImportError)
    requires Inv(l, st) && IsImporting(st, p) && ScanOf(l, st, st.executions[p]).outcome == Err(e)
    ensures StopsWith(l, st.db, st.executions[p].job, e)
  {
    assert ExecutionInv(l, st.db, st.executions[p]);
    assert JobInv(l, st.db, st.executions[p].job);
  }

  lemma StopsStays(l: Pipeline, st: State, step: Step, id: Id, e: ImportError)
    requires Inv(l, st) && StopsWith(l, st.db, id, e)
    ensures StopsWith(l, Next(l, st, step).db, id, e)
  {
    PendingNeverReturns(l, st, step, id);
    FilesStay(l, st, step);
    SameScan(l, st.db, Next(l, st, step).db, id);
  }

  lemma ErrorInvKept(l: Pipeline, st: State, step: Step, p: Id)
    requires IssuesInv(l, st) && p in Next(l, st, step).executions
    ensures ErrorInv(l, Next(l, st, step).db, Next(l, st, step).executions[p])
  {
    var e := Next(l, st, step).executions[p];
    if (e.Failing? || e.FailLocked?) && e.error.ImportStopped? {
      ErrorOrigin(l, st, step, p);
      if IsImporting(st, p) && ScanOf(l, st, st.executions[p]).outcome == Err(e.error.error) {
        ImportingStops(l, st, p, e.error.error);
      } else {
        assert ErrorInv(l, st.db, st.executions[p]);
      }
      StopsStays(l, st, step, e.job, e.error.error);
    }
  }

  lemma IssuesMatchKept(l: Pipeline, st: State, step: Step, id: Id)
    requires IssuesInv(l, st) && id in st.db.jobs
    ensures IssuesMatch(l, Next(l, st, step).db, id)
  {
    IssuesOnlyWithFailure(l, st, step);
    if IssuesOf(Next(l, st, step).db.issues, id) != IssuesOf(st.db.issues, id) {
      var e := st.executions[step.p];
      assert ErrorInv(l, st.db, e);
      if e.error.ImportStopped? && e.error.error.InvalidRecord? {
        StopsStays(l, st, step, id, e.error.error);
      }
    } else if IssuesOf(st.db.issues, id) != [] {
      var issues: seq<Issue> :|
        StopsWith(l, st.db, id, InvalidRecord(issues)) && Numbers(IssuesOf(st.db.issues, id), id, issues);
      StopsStays(l, st, step, id, InvalidRecord(issues));
    }
  }

  lemma NewJobHasNoIssues(l: Pipeline, st: State, step: Step, id: Id)
    requires Inv(l, st) && id !in st.db.jobs && id in Next(l, st, step).db.jobs
    ensures IssuesMatch(l, Next(l, st, step).db, id)
  {
    NewRowIsPending(l, st, step, id);
    StepKeeps(l, st, step);
    assert JobInv(l, Next(l, st, step).db, id);
    IssuesOfOthers(Next(l, st, step).db.issues, id);
  }

  lemma StepKeepsIssues(l: Pipeline, st: State, step: Step)
    requires IssuesInv(l, st)
    ensures IssuesInv(l, Next(l, st, step))
  {
    StepKeeps(l, st, step);
    forall p | p in Next(l, st, step).executions ensures ErrorInv(l, Next(l, st, step).db, Next(l, st, step).executions[p]) {
      ErrorInvKept(l, st, step, p);
    }
    forall id | id in Next(l, st, step).db.jobs ensures IssuesMatch(l, Next(l, st, step).db, id) {
      if id in st.db.jobs { IssuesMatchKept(l, st, step, id); } else { NewJobHasNoIssues(l, st, step, id); }
    }
  }

  /** In every reachable state the issues of a job are none, or those its file's import stops with, in order. */
  lemma {:induction false} StoredIssuesAreTheFiles(l: Pipeline, st: State, steps: seq<Step>)
    requires Sound(l) && Initial(st)
    ensures IssuesInv(l, Run(l, st, steps))
  {
    if steps == [] {
      Reachable(l, st, []);
    } else {
      StoredIssuesAreTheFiles(l, st, steps[..|steps| - 1]);
      StepKeepsIssues(l, Run(l, st, steps[..|steps| - 1]), steps[|steps| - 1]);
    }
  }

  // ---------- Exactly which issues a job shows ----------

  /** The failure handler of a call commits for this job. */
  predicate CommitsFailure(st: State, step: Step, id: Id) {
    step.CommitFailure? && step.p in st.executions && st.executions[step.p].FailLocked? && st.executions[step.p].job == id
  }

  /** No call can still fail for this job. */
  ghost predicate Settled(st: State, id: Id) {
    && id in st.db.jobs && !st.db.jobs[id].status.Pending?
    && forall q :: q in st.executions && st.executions[q].job == id ==> !Claimed(st.executions[q])
  }

  /** A call that has claimed its job had claimed it before, or held its row for the claim. */
  lemma ClaimedOrigin(l: Pipeline, st: State, step: Step, q: Id)
    requires q in Next(l, st, step).executions && Claimed(Next(l, st, step).executions[q])
    ensures q in st.executions && st.executions[q].job == Next(l, st, step).executions[q].job
    ensures Claimed(st.executions[q]) || st.executions[q].Locked?
  {
  }

  lemma SettledStays(l: Pipeline, st: State, step: Step, id: Id)
    requires Inv(l, st) && Settled(st, id)
    ensures Settled(Next(l, st, step), id) && !CommitsFailure(st, step, id)
    ensures IssuesOf(Next(l, st, step).db.issues, id) == IssuesOf(st.db.issues, id)
  {
    PendingNeverReturns(l, st, step, id);
    IssuesOnlyWithFailure(l, st, step);
    forall q | q in Next(l, st, step).executions && Next(l, st, step).executions[q].job == id
      ensures !Claimed(Next(l, st, step).executions[q])
    {
      if Claimed(Next(l, st, step).executions[q]) {
        ClaimedOrigin(l, st, step, q);
        LockedIsPending(l, st, q);
      }
    }
  }

  lemma LockedIsPending(l: Pipeline, st: State, q: Id)
    requires Inv(l, st) && q in st.executions && st.executions[q].Locked?
    ensures st.executions[q].job in st.db.jobs && st.db.jobs[st.executions[q].job].status.Pending?
  {
    assert ExecutionInv(l, st.db, st.executions[q]);
  }

  lemma FailureSettles(l: Pipeline, st: State, step: Step, id: Id)
    requires Inv(l, st) && CommitsFailure(st, step, id)
    ensures Settled(Next(l, st, step), id)
    ensures Shows(IssuesOf(Next(l, st, step).db.issues, id), id, st.executions[step.p].error)
  {
    FailureShowsIssues(l, st, step.p);
    CommitFailureIs(l, st, step);
    var after := DoCommitFailure(st, step.p);
    forall q | q in after.executions && after.executions[q].job == id ensures !Claimed(after.executions[q]) {
      if q != step.p { assert after.executions[q] == st.executions[q]; }
    }
  }

  lemma CommitFailureIs(l: Pipeline, st: State, step: Step)
    requires step.CommitFailure?
    ensures Next(l, st, step) == DoCommitFailure(st, step.p)
  {
  }

  /** The job's issues are those of this error, for good. */
  ghost predicate Reported(st: State, id: Id, e: ExecuteError) {
    Settled(st, id) && Shows(IssuesOf(st.db.issues, id), id, e)
  }

  lemma FailureReports(l: Pipeline, st: State, step: Step, after: State, id: Id)
    requires Inv(l, st) && after == Next(l, st, step) && CommitsFailure(st, step, id)
    ensures Reported(after, id, st.executions[step.p].error)
  {
    FailureSettles(l, st, step, id);
  }

  lemma ReportedStays(l: Pipeline, st: State, step: Step, after: State, id: Id, e: ExecuteError)
    requires Inv(l, st) && after == Next(l, st, step) && Reported(st, id, e)
    ensures Reported(after, id, e)
  {
    SettledStays(l, st, step, id);
  }

  lemma LastStep(l: Pipeline, st: State, steps: seq<Step>, n: nat)
    requires |steps| == n + 1
    ensures Run(l, st, steps) == Next(l, Run(l, st, steps[..n]), steps[n])
  {
  }

  /** After the failure commit for a job its issues are those of that error, for good. */
  lemma {:induction false} IssuesAfterFailure(l: Pipeline, st: State, steps: seq<Step>, k: nat, id: Id, e: ExecuteError)
    requires Sound(l) && Initial(st) && k < |steps| && CommitsFailure(Run(l, st, steps[..k]), steps[k], id)
    requires e == Run(l, st, steps[..k]).executions[steps[k].p].error
    ensures Reported(Run(l, st, steps), id, e)
  {
    var n := |steps| - 1;
    Reachable(l, st, steps[..n]);
    LastStep(l, st, steps, n);
    if k == n {
      FailureReports(l, Run(l, st, steps[..n]), steps[n], Run(l, st, steps), id);
    } else {
      assert steps[..n][..k] == steps[..k] && steps[..n][k] == steps[k];
      IssuesAfterFailure(l, st, steps[..n], k, id, e);
      ReportedStays(l, Run(l, st, steps[..n]), steps[n], Run(l, st, steps), id, e);
    }
  }

  /** Without a failure commit for a job there are none. */
  lemma {:induction false} NoIssuesWithoutFailure(l: Pipeline, st: State, steps: seq<Step>, id: Id)
    requires Sound(l) && Initial(st)
    requires forall k :: 0 <= k < |steps| ==> !CommitsFailure(Run(l, st, steps[..k]), steps[k], id)
    ensures IssuesOf(Run(l, st, steps).db.issues, id) == []
  {
    if steps != [] {
      var n := |steps| - 1;
      Reachable(l, st, steps[..n]);
      assert forall k :: 0 <= k < n ==> steps[..n][..k] == steps[..k] && steps[..n][k] == steps[k];
      NoIssuesWithoutFailure(l, st, steps[..n], id);
      LastStep(l, st, steps, n);
      OtherIssuesStay(l, Run(l, st, steps[..n]), steps[n], Run(l, st, steps), id);
    }
  }

  lemma OtherIssuesStay(l: Pipeline, st: State, step: Step, after: State, id: Id)
    requires Inv(l, st) && after == Next(l, st, step) && !CommitsFailure(st, step, id)
    ensures IssuesOf(after.db.issues, id) == IssuesOf(st.db.issues, id)
  {
    OnlyFailureStoresIssues(l, st, step);
    if step.CommitFailure? && step.p in st.executions && st.executions[step.p].FailLocked? {
      OthersKeepIssues(l, st, step.p, id);
      CommitFailureIs(l, st, step);
    }
  }

  /**
   * Which issues a job shows, in every reachable state: none without a failure commit for it; behind one
   * whose call was stopped by an invalid row, all issues of that row, numbered from 0 in their order,
   * and that row is the one at which importing the file stops; behind one with any other error, none.
   */
  lemma IssuesExactly(l: Pipeline, st: State, steps: seq<Step>, id: Id)
    requires Sound(l) && Initial(st)
    ensures (forall k :: 0 <= k < |steps| ==> !CommitsFailure(Run(l, st, steps[..k]), steps[k], id)) ==>
              IssuesOf(Run(l, st, steps).db.issues, id) == []
    ensures forall k :: 0 <= k < |steps| && CommitsFailure(Run(l, st, steps[..k]), steps[k], id) ==>
              var e := Run(l, st, steps[..k]).executions[steps[k].p].error;
              && Shows(IssuesOf(Run(l, st, steps).db.issues, id), id, e)
              && (e.ImportStopped? ==> StopsWith(l, Run(l, st, steps[..k]).db, id, e.error))
  {
    if forall k :: 0 <= k < |steps| ==> !CommitsFailure(Run(l, st, steps[..k]), steps[k], id) {
      NoIssuesWithoutFailure(l, st, steps, id);
    }
    forall k | 0 <= k < |steps| && CommitsFailure(Run(l, st, steps[..k]), steps[k], id)
      ensures var e := Run(l, st, steps[..k]).executions[steps[k].p].error;
              && Shows(IssuesOf(Run(l, st, steps).db.issues, id), id, e)
              && (e.ImportStopped? ==> StopsWith(l, Run(l, st, steps[..k]).db, id, e.error))
    {
      IssuesAfterFailure(l, st, steps, k, id, Run(l, st, steps[..k]).executions[steps[k].p].error);
      StoredIssuesAreTheFiles(l, st, steps[..k]);
      assert ErrorInv(l, Run(l, st, steps[..k]).db, Run(l, st, steps[..k]).executions[steps[k].p]);
    }
  }
}
