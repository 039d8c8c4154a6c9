/** The lifecycle of a job over runs in which transitions act on the row they have read. */
module ImportLifecycle {
  import opened Wrappers
  import opened Entities
  import opened ImportJobs
  import opened ImportProtocol
  import opened ImportSafety
  import opened ImportGuarantees

  /**
   * A transition's write finds the row it has read, and no call of `execute` is between its claim and
   * its completion commit on that job. Nothing in the code enforces this: `transition` takes no lock,
   * and the completion commit does not read the status again.
   */
  ghost predicate Orderly(st: State, step: Step) {
    step.WriteTransition? && step.q in st.edits && st.edits[step.q].job in st.db.jobs ==>
      && st.db.jobs[st.edits[step.q].job] == st.edits[step.q].loaded
      && forall p :: p in st.executions && st.executions[p].job == st.edits[step.q].job ==> !st.executions[p].Importing?
  }

  ghost predicate OrderlyRun(l: Pipeline, st: State, steps: seq<Step>) {
    forall k :: 0 <= k < |steps| ==> Orderly(Run(l, st, steps[..k]), steps[k])
  }

  predicate Terminal(status: Status) {
    status.Completed? || status.Failed? || status.Cancelled?
  }

  predicate Between(earlier: Option<Time>, later: Option<Time>) {
    earlier.Some? && later.Some? ==> earlier.value <= later.value
  }

  /** Time stamps and message of a job, by its status. */
  ghost predicate Stamped(job: Job, clock: Time) {
    && (job.status.Pending? ==> job.startedAt == None)
    && (job.status.Running? || job.status.Completed? || job.status.Failed? ==> job.startedAt.Some?)
    && (job.completedAt.Some? <==> Terminal(job.status))
    && (job.error.Some? <==> job.status.Failed?)
    && (job.error.Some? ==> job.error.value != "")
    && Between(job.startedAt, Some(clock)) && Between(job.completedAt, Some(clock))
    && Between(job.startedAt, job.completedAt)
  }

  ghost predicate LifecycleInv(l: Pipeline, st: State) {
    && Inv(l, st)
    && (forall id :: id in st.db.jobs ==> Stamped(st.db.jobs[id], st.clock))
    && (forall p :: p in st.executions && st.executions[p].Importing? ==>
          st.executions[p].job in st.db.jobs && st.db.jobs[st.executions[p].job] == st.executions[p].loaded)
    && (forall q :: q in st.edits ==> Stamped(st.edits[q].loaded, st.edits[q].at))
    && (forall id :: id in st.db.jobs && !NoIssues(st.db, id) ==> st.db.jobs[id].status.Failed?)
  }

  /** A status stays or follows the documented graph, and a terminal row is never touched again. */
  ghost predicate FollowsGraph(before: Job, after: Job) {
    && (after.status == before.status || Allowed(before.status, after.status))
    && (Terminal(before.status) ==> after == before)
  }

  // ---------- One row through one orderly step ----------

  lemma RowFollowsGraph(l: Pipeline, st: State, step: Step, before: Job, after: Job, id: Id)
    requires LifecycleInv(l, st) && Orderly(st, step)
    requires id in st.db.jobs && st.db.jobs[id] == before && RowChange(l, st, step, before, after, id)
    ensures FollowsGraph(before, after)
    ensures Stamped(after, st.clock)
  {
    if after != before {
      match step
      case WriteTransition(q) => WriteFollowsGraph(l, st, q, before, after, id);
      case CommitCompletion(p, refreshed) =>
        assert st.executions[p].loaded == before && ExecutionInv(l, st.db, st.executions[p]);
        CompletionFollowsGraph(before, ScanOf(l, st, st.executions[p]).outcome.value, st.clock, after);
      case _ =>
    }
  }

  lemma WriteFollowsGraph(l: Pipeline, st: State, q: Id, before: Job, after: Job, id: Id)
    requires LifecycleInv(l, st) && Orderly(st, WriteTransition(q))
    requires id in st.db.jobs && st.db.jobs[id] == before && after != before
    requires RowChange(l, st, WriteTransition(q), before, after, id)
    ensures FollowsGraph(before, after) && Stamped(after, st.clock)
  {
    var e := st.edits[q];
    RequestFollowsGraph(e.loaded, e.request, e.at, st.clock, after);
  }

  lemma RequestFollowsGraph(job: Job, r: Request, at: Time, clock: Time, after: Job)
    requires Transition(job, r, at).Ok? && CheckRequest(r) == Some(r) && Stamped(job, at) && at <= clock
    requires after == Flush(job, Transition(job, r, at).value, job)
    ensures FollowsGraph(job, after) && Stamped(after, clock)
  {
    TransitionStamps(job, r, at, clock);
    FlushLoaded(job, Transition(job, r, at).value);
  }

  lemma CompletionFollowsGraph(before: Job, items: nat, clock: Time, after: Job)
    requires before.status.Running? && Stamped(before, clock)
    requires after == Flush(before, CompletedJob(before, items, clock), before)
    ensures FollowsGraph(before, after) && Stamped(after, clock)
  {
  }

  lemma TransitionStamps(job: Job, r: Request, at: Time, clock: Time)
    requires Transition(job, r, at).Ok? && CheckRequest(r) == Some(r) && Stamped(job, at) && at <= clock
    ensures Stamped(Transition(job, r, at).value, clock)
    ensures Allowed(job.status, Transition(job, r, at).value.status)
  {
  }

  lemma NewRowIsStamped(l: Pipeline, st: State, step: Step, id: Id)
    requires Inv(l, st) && id !in st.db.jobs && id in Next(l, st, step).db.jobs
    ensures Stamped(Next(l, st, step).db.jobs[id], st.clock)
    ensures Next(l, st, step).db.jobs[id].status.Pending?
  {
    if step.CommitCompletion? && Next(l, st, step) != st { CompletionParts(l, st, step.p); }
  }

  // ---------- The whole state through one orderly step ----------

  lemma ImportingKeepsRow(l: Pipeline, st: State, step: Step, p: Id)
    requires LifecycleInv(l, st) && Orderly(st, step)
    requires p in Next(l, st, step).executions && Next(l, st, step).executions[p].Importing?
    ensures var after := Next(l, st, step);
            after.executions[p].job in after.db.jobs && after.db.jobs[after.executions[p].job] == after.executions[p].loaded
  {
    var after := Next(l, st, step);
    StepKeeps(l, st, step);
    assert ExecutionInv(l, after.db, after.executions[p]);
    var id := after.executions[p].job;
    if step == CommitClaim(p) {
      ClaimChangesRow(l, st, p, id);
    } else {
      ImportingWasImporting(l, st, step, p);
      StepChangesRow(l, st, step, id);
      assert ExecutionInv(l, st.db, st.executions[p]);
      OthersLeaveImportingRow(l, st, step, p, st.db.jobs[id], after.db.jobs[id]);
    }
  }

  lemma ImportingWasImporting(l: Pipeline, st: State, step: Step, p: Id)
    requires p in Next(l, st, step).executions && Next(l, st, step).executions[p].Importing? && step != CommitClaim(p)
    ensures p in st.executions && st.executions[p].Importing?
    ensures st.executions[p].job == Next(l, st, step).executions[p].job
    ensures st.executions[p].loaded == Next(l, st, step).executions[p].loaded
    ensures !step.CommitCompletion? || step.p != p || Next(l, st, step) == st
  {
    match step
    case CreateJob(id, datasource, organization, key, total) => assert Next(l, st, step).executions == st.executions;
    case PrepareJob(id, datasource, file, organization, mapping, key) =>
      assert Next(l, st, step).executions == st.executions;
    case ReadForTransition(q, id, organization, request) =>
      assert DoReadForTransition(st, q, id, organization, request).executions == st.executions;
    case WriteTransition(q) => assert DoWriteTransition(st, q).executions == st.executions;
    case CommitCompletion(q, refreshed) =>
      assert DoCommitCompletion(l, st, q, refreshed) != st ==>
               !DoCommitCompletion(l, st, q, refreshed).executions[q].Importing?;
    case _ =>
  }

  /** Only the call itself changes the row it has claimed. */
  lemma OthersLeaveImportingRow(l: Pipeline, st: State, step: Step, p: Id, before: Job, after: Job)
    requires LifecycleInv(l, st) && Orderly(st, step)
    requires p in st.executions && st.executions[p].Importing? && st.executions[p].job in st.db.jobs
    requires before == st.db.jobs[st.executions[p].job] && RowChange(l, st, step, before, after, st.executions[p].job)
    requires step != CommitClaim(p)
    requires step.CommitCompletion? && step.p == p ==> after == before
    ensures after == before
  {
    assert ExecutionInv(l, st.db, st.executions[p]);
  }

  lemma IssuesNeedFailure(l: Pipeline, st: State, step: Step, id: Id)
    requires LifecycleInv(l, st) && Orderly(st, step)
    requires id in Next(l, st, step).db.jobs && !NoIssues(Next(l, st, step).db, id)
    ensures Next(l, st, step).db.jobs[id].status.Failed?
  {
    if id in st.db.jobs {
      IssuesOnlyWithFailure(l, st, step);
      IssuesOfOthers(st.db.issues, id);
      IssuesOfOthers(Next(l, st, step).db.issues, id);
      StepChangesRow(l, st, step, id);
      RowFollowsGraph(l, st, step, st.db.jobs[id], Next(l, st, step).db.jobs[id], id);
    } else {
      NewRowHasNoIssues(l, st, step, id);
    }
  }

  lemma NewRowHasNoIssues(l: Pipeline, st: State, step: Step, id: Id)
    requires Inv(l, st) && id !in st.db.jobs && id in Next(l, st, step).db.jobs
    ensures NoIssues(Next(l, st, step).db, id)
  {
    StepKeeps(l, st, step);
    NewRowIsStamped(l, st, step, id);
    assert JobInv(l, Next(l, st, step).db, id);
  }

  lemma EditsStamped(l: Pipeline, st: State, step: Step, q: Id)
    requires LifecycleInv(l, st) && q in Next(l, st, step).edits
    ensures Stamped(Next(l, st, step).edits[q].loaded, Next(l, st, step).edits[q].at)
  {
    if step.ReadForTransition? {
      ReadStamped(l, st, step.q, step.id, step.organization, step.request, q);
    } else {
      OtherStepsOnlyDropEdits(l, st, step, q);
    }
  }

  lemma ReadStamped(l: Pipeline, st: State, r: Id, id: Id, organization: Id, request: Request, q: Id)
    requires LifecycleInv(l, st) && q in DoReadForTransition(st, r, id, organization, request).edits
    ensures var e := DoReadForTransition(st, r, id, organization, request).edits[q]; Stamped(e.loaded, e.at)
  {
  }

  lemma OtherStepsOnlyDropEdits(l: Pipeline, st: State, step: Step, q: Id)
    requires !step.ReadForTransition? && q in Next(l, st, step).edits
    ensures q in st.edits && Next(l, st, step).edits[q] == st.edits[q]
  {
  }

  lemma ClockNeverGoesBack(l: Pipeline, st: State, step: Step)
    ensures st.clock <= Next(l, st, step).clock
    ensures Next(l, st, step).clock != st.clock ==> step.Tick?
  {
  }

  lemma StepKeepsLifecycle(l: Pipeline, st: State, step: Step)
    requires LifecycleInv(l, st) && Orderly(st, step)
    ensures LifecycleInv(l, Next(l, st, step))
    ensures forall id :: id in st.db.jobs ==>
              id in Next(l, st, step).db.jobs && FollowsGraph(st.db.jobs[id], Next(l, st, step).db.jobs[id])
  {
    var after := Next(l, st, step);
    StepKeeps(l, st, step);
    ClockNeverGoesBack(l, st, step);
    forall id | id in after.db.jobs
      ensures Stamped(after.db.jobs[id], after.clock)
      ensures id in st.db.jobs ==> FollowsGraph(st.db.jobs[id], after.db.jobs[id])
    {
      if id in st.db.jobs {
        StepChangesRow(l, st, step, id);
        RowFollowsGraph(l, st, step, st.db.jobs[id], after.db.jobs[id], id);
      } else {
        NewRowIsStamped(l, st, step, id);
      }
    }
    forall id | id in st.db.jobs ensures id in after.db.jobs { StepChangesRow(l, st, step, id); }
    forall p | p in after.executions && after.executions[p].Importing?
      ensures after.executions[p].job in after.db.jobs && after.db.jobs[after.executions[p].job] == after.executions[p].loaded
    {
      ImportingKeepsRow(l, st, step, p);
    }
    forall q | q in after.edits ensures Stamped(after.edits[q].loaded, after.edits[q].at) {
      EditsStamped(l, st, step, q);
    }
    forall id | id in after.db.jobs && !NoIssues(after.db, id) ensures after.db.jobs[id].status.Failed? {
      IssuesNeedFailure(l, st, step, id);
    }
  }

  // ---------- Whole runs ----------

  lemma {:induction false} OrderlyRunKeepsLifecycle(l: Pipeline, st: State, steps: seq<Step>)
    requires Sound(l) && Initial(st) && OrderlyRun(l, st, steps)
    ensures LifecycleInv(l, Run(l, st, steps))
  {
    if steps != [] {
      var n := |steps| - 1;
      assert forall k :: 0 <= k < n ==> steps[..n][..k] == steps[..k];
      OrderlyRunKeepsLifecycle(l, st, steps[..n]);
      assert Orderly(Run(l, st, steps[..n]), steps[n]);
      StepKeepsLifecycle(l, Run(l, st, steps[..n]), steps[n]);
    }
  }

  /** In an orderly run every step moves every job along the documented graph, and stamps say what happened. */
  lemma LifecycleHolds(l: Pipeline, st: State, steps: seq<Step>, k: nat, id: Id)
    requires Sound(l) && Initial(st) && OrderlyRun(l, st, steps) && k < |steps|
    requires id in Run(l, st, steps[..k]).db.jobs
    ensures id in Run(l, st, steps[..k + 1]).db.jobs
    ensures FollowsGraph(Run(l, st, steps[..k]).db.jobs[id], Run(l, st, steps[..k + 1]).db.jobs[id])
    ensures Stamped(Run(l, st, steps[..k + 1]).db.jobs[id], Run(l, st, steps[..k + 1]).clock)
    ensures !NoIssues(Run(l, st, steps[..k + 1]).db, id) ==> Run(l, st, steps[..k + 1]).db.jobs[id].status.Failed?
  {
    assert forall m :: 0 <= m < k ==> steps[..k][..m] == steps[..m];
    OrderlyRunKeepsLifecycle(l, st, steps[..k]);
    assert Orderly(Run(l, st, steps[..k]), steps[k]);
    StepKeepsLifecycle(l, Run(l, st, steps[..k]), steps[k]);
    assert steps[..k + 1][..k] == steps[..k];
  }

  /** Terminal states are absorbing: from then on the row stays as it is. */
  lemma {:induction false} TerminalIsAbsorbing(l: Pipeline, st: State, steps: seq<Step>, k: nat, id: Id)
    requires Sound(l) && Initial(st) && OrderlyRun(l, st, steps) && k <= |steps|
    requires id in Run(l, st, steps[..k]).db.jobs && Terminal(Run(l, st, steps[..k]).db.jobs[id].status)
    ensures id in Run(l, st, steps).db.jobs
    ensures Run(l, st, steps).db.jobs[id] == Run(l, st, steps[..k]).db.jobs[id]
  {
    if k == |steps| {
      assert steps[..k] == steps;
    } else {
      var n := |steps| - 1;
      assert forall m :: 0 <= m <= n ==> steps[..n][..m] == steps[..m];
      TerminalIsAbsorbing(l, st, steps[..n], k, id);
      LifecycleHolds(l, st, steps, n, id);
      assert steps[..n + 1] == steps;
    }
  }
}
