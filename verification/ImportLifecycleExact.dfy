/** Exactly which steps break the lifecycle, in any reachable state and over any run. */
module ImportLifecycleExact {
  import opened Wrappers
  import opened Entities
  import opened ImportJobs
  import opened ImportProtocol
  import opened ImportSafety
  import opened ImportGuarantees
  import opened ImportLifecycle

  // ---------- The graph ----------

  /**
   * A completion commit makes the job COMPLETED whatever is stored, so it follows an edge of the graph
   * exactly when the stored status is still RUNNING.
   */
  lemma CompletionFollowsGraphExactly(l: Pipeline, st: State, p: Id, refreshed: bool)
    requires Inv(l, st) && DoCommitCompletion(l, st, p, refreshed) != st
    ensures var id := st.executions[p].job;
            && DoCommitCompletion(l, st, p, refreshed).db.jobs[id].status.Completed?
            && (Allowed(st.db.jobs[id].status, DoCommitCompletion(l, st, p, refreshed).db.jobs[id].status)
                <==> st.db.jobs[id].status.Running?)
  {
    CompletionParts(l, st, p);
  }

  /** The completion commit of a call of `execute` takes effect on this job. */
  predicate CompletesJob(l: Pipeline, st: State, step: Step, id: Id) {
    && step.CommitCompletion? && DoCommitCompletion(l, st, step.p, step.refreshed) != st
    && step.p in st.executions && st.executions[step.p].job == id
  }

  /** The write of a requested transition takes effect on this job. */
  predicate WritesJob(st: State, step: Step, id: Id) {
    && step.WriteTransition? && Writable(st, step.q) && st.edits[step.q].job == id
    && CountsFit(WrittenJob(st, step.q))
  }

  /** A write over a status other than the one its check was made on, from which the graph has no such edge. */
  predicate Jumps(l: Pipeline, st: State, step: Step, id: Id)
    requires id in st.db.jobs
  {
    var stored := st.db.jobs[id].status;
    || (CompletesJob(l, st, step, id) && !stored.Running? && !stored.Completed?)
    || (WritesJob(st, step, id) && st.edits[step.q].request.status != stored && !Allowed(stored, st.edits[step.q].request.status))
  }

  /** The job's status stays, or goes along the graph. */
  ghost predicate AlongGraph(before: Database, after: Database, id: Id) {
    && id in before.jobs && id in after.jobs
    && (after.jobs[id].status == before.jobs[id].status || Allowed(before.jobs[id].status, after.jobs[id].status))
  }

  /** In any state, a step moves a job along the graph exactly when it is not such a write. */
  lemma GraphFollowedExactly(l: Pipeline, st: State, step: Step, id: Id)
    requires Inv(l, st) && id in st.db.jobs
    ensures AlongGraph(st.db, Next(l, st, step).db, id) <==> !Jumps(l, st, step, id)
  {
    if step.WriteTransition? {
      WriteSetsStatus(l, st, step.q, id);
      NextOfWrites(l, st, step);
    } else if step.CommitCompletion? {
      CompletionSetsStatus(l, st, step.p, step.refreshed, id);
      NextOfWrites(l, st, step);
    } else {
      OtherStepsFollowGraph(l, st, step, id);
    }
  }

  lemma NextOfWrites(l: Pipeline, st: State, step: Step)
    ensures step.WriteTransition? ==> Next(l, st, step) == DoWriteTransition(st, step.q)
    ensures step.CommitCompletion? ==> Next(l, st, step) == DoCommitCompletion(l, st, step.p, step.refreshed)
  {
  }

  lemma OtherStepsFollowGraph(l: Pipeline, st: State, step: Step, id: Id)
    requires Inv(l, st) && id in st.db.jobs && !step.WriteTransition? && !step.CommitCompletion?
    ensures AlongGraph(st.db, Next(l, st, step).db, id)
  {
    StepChangesRow(l, st, step, id);
  }

  lemma WriteSetsStatus(l: Pipeline, st: State, q: Id, id: Id)
    requires Inv(l, st) && id in st.db.jobs
    ensures id in DoWriteTransition(st, q).db.jobs
    ensures DoWriteTransition(st, q).db.jobs[id].status
            == if WritesJob(st, WriteTransition(q), id) then st.edits[q].request.status else st.db.jobs[id].status
  {
    if q in st.edits {
      assert EditInv(st.db, st.edits[q], st.clock);
      TransitionSetsStatus(st.edits[q].loaded, st.edits[q].request, st.edits[q].at);
    }
  }

  lemma TransitionSetsStatus(job: Job, r: Request, at: Time)
    requires Transition(job, r, at).Ok?
    ensures Transition(job, r, at).value.status == r.status != job.status
  {
  }

  lemma CompletionSetsStatus(l: Pipeline, st: State, p: Id, refreshed: bool, id: Id)
    requires Inv(l, st) && id in st.db.jobs
    ensures id in DoCommitCompletion(l, st, p, refreshed).db.jobs
    ensures DoCommitCompletion(l, st, p, refreshed).db.jobs[id].status
            == if CompletesJob(l, st, CommitCompletion(p, refreshed), id) then Completed else st.db.jobs[id].status
  {
    if DoCommitCompletion(l, st, p, refreshed) != st { CompletionParts(l, st, p); }
  }

  ghost predicate NoJumps(l: Pipeline, st: State, steps: seq<Step>, id: Id) {
    forall k :: 0 <= k < |steps| && id in Run(l, st, steps[..k]).db.jobs ==> !Jumps(l, Run(l, st, steps[..k]), steps[k], id)
  }

  /** How often the stored status of a job changes in a run. */
  function StatusChanges(l: Pipeline, st: State, steps: seq<Step>, id: Id): nat {
    if steps == [] then 0
    else
      var n := |steps| - 1;
      var before, after := Run(l, st, steps[..n]), Run(l, st, steps);
      StatusChanges(l, st, steps[..n], id)
      + if id in before.db.jobs && id in after.db.jobs && before.db.jobs[id].status != after.db.jobs[id].status then 1 else 0
  }

  function Progress(status: Status): nat {
    if status.Pending? then 0 else if status.Running? then 1 else 2
  }

  /** A job whose status never jumps changes it at most twice. */
  lemma {:induction false} AtMostTwoChanges(l: Pipeline, st: State, steps: seq<Step>, id: Id)
    requires Sound(l) && Initial(st) && NoJumps(l, st, steps, id)
    ensures StatusChanges(l, st, steps, id) <= 2
    ensures id in Run(l, st, steps).db.jobs ==>
              StatusChanges(l, st, steps, id) <= Progress(Run(l, st, steps).db.jobs[id].status)
    ensures id !in Run(l, st, steps).db.jobs ==> StatusChanges(l, st, steps, id) == 0
  {
    if steps != [] {
      var n := |steps| - 1;
      assert forall k :: 0 <= k < n ==> steps[..n][..k] == steps[..k];
      AtMostTwoChanges(l, st, steps[..n], id);
      Reachable(l, st, steps[..n]);
      if id in Run(l, st, steps[..n]).db.jobs {
        GraphFollowedExactly(l, Run(l, st, steps[..n]), steps[n], id);
      }
    }
  }

  // ---------- Terminal rows ----------

  /** The items of the completion commit of this call. */
  function CompletedItems(l: Pipeline, st: State, p: Id): nat {
    if IsImporting(st, p) && ScanOf(l, st, st.executions[p]).outcome.Ok? then ScanOf(l, st, st.executions[p]).outcome.value else 0
  }

  /** Every column a terminal request changes already holds its new value. */
  predicate SameOutcome(e: Edit, stored: Job) {
    && e.request.status == stored.status
    && (e.loaded.completedAt == Some(e.at) || stored.completedAt == Some(e.at))
    && (e.request.status.Failed? ==> e.loaded.error == e.request.error || stored.error == e.request.error)
    && (e.request.status.Completed? ==> e.loaded.error == None || stored.error == None)
    && (e.request.processed.Some? ==> e.request.processed.value == e.loaded.processed || e.request.processed.value == stored.processed)
    && (e.request.failed.Some? ==> e.request.failed.value == e.loaded.failed || e.request.failed.value == stored.failed)
  }

  /**
   * A commit over a terminal row: a completion, unless the row is COMPLETED at this very moment and the
   * file is empty of data, or a transition, unless it repeats what is stored.
   */
  predicate Overwrites(l: Pipeline, st: State, step: Step, id: Id)
    requires id in st.db.jobs
  {
    var stored := st.db.jobs[id];
    || (CompletesJob(l, st, step, id)
        && !(stored.status.Completed? && stored.completedAt == Some(st.clock) && CompletedItems(l, st, step.p) == 0))
    || (WritesJob(st, step, id) && !SameOutcome(st.edits[step.q], stored))
  }

  /** In any reachable state, a step leaves a terminal row as it is exactly when it is not such a commit. */
  lemma TerminalKeptExactly(l: Pipeline, st: State, step: Step, id: Id)
    requires Inv(l, st) && id in st.db.jobs && Terminal(st.db.jobs[id].status)
    ensures id in Next(l, st, step).db.jobs
    ensures Next(l, st, step).db.jobs[id] == st.db.jobs[id] <==> !Overwrites(l, st, step, id)
  {
    if step.WriteTransition? {
      TerminalWrite(l, st, step.q, id);
      NextOfWrites(l, st, step);
    } else if step.CommitCompletion? {
      TerminalCompletion(l, st, step.p, step.refreshed, id);
      NextOfWrites(l, st, step);
    } else {
      OtherStepsKeepTerminal(l, st, step, id);
    }
  }

  lemma OtherStepsKeepTerminal(l: Pipeline, st: State, step: Step, id: Id)
    requires Inv(l, st) && id in st.db.jobs && Terminal(st.db.jobs[id].status)
    requires !step.WriteTransition? && !step.CommitCompletion?
    ensures id in Next(l, st, step).db.jobs && Next(l, st, step).db.jobs[id] == st.db.jobs[id]
  {
    StepChangesRow(l, st, step, id);
  }

  lemma TerminalWrite(l: Pipeline, st: State, q: Id, id: Id)
    requires Inv(l, st) && id in st.db.jobs && Terminal(st.db.jobs[id].status)
    ensures id in DoWriteTransition(st, q).db.jobs
    ensures DoWriteTransition(st, q).db.jobs[id] == st.db.jobs[id] <==> !Overwrites(l, st, WriteTransition(q), id)
  {
    if WritesJob(st, WriteTransition(q), id) {
      assert EditInv(st.db, st.edits[q], st.clock);
      UnchangedByWrite(st.edits[q], st.db.jobs[id]);
    }
  }

  lemma UnchangedByWrite(e: Edit, stored: Job)
    requires Transition(e.loaded, e.request, e.at).Ok? && SameIdentity(e.loaded, stored) && Terminal(stored.status)
    ensures Flush(e.loaded, Transition(e.loaded, e.request, e.at).value, stored) == stored <==> SameOutcome(e, stored)
  {
    TransitionSetsStatus(e.loaded, e.request, e.at);
  }

  lemma TerminalCompletion(l: Pipeline, st: State, p: Id, refreshed: bool, id: Id)
    requires Inv(l, st) && id in st.db.jobs && Terminal(st.db.jobs[id].status)
    ensures id in DoCommitCompletion(l, st, p, refreshed).db.jobs
    ensures DoCommitCompletion(l, st, p, refreshed).db.jobs[id] == st.db.jobs[id]
            <==> !Overwrites(l, st, CommitCompletion(p, refreshed), id)
  {
    if CompletesJob(l, st, CommitCompletion(p, refreshed), id) {
      CompletionParts(l, st, p);
      assert ExecutionInv(l, st.db, st.executions[p]);
      assert JobInv(l, st.db, id);
      UnchangedByCompletion(st.executions[p].loaded, CompletedItems(l, st, p), st.clock, st.db.jobs[id]);
    }
  }

  lemma UnchangedByCompletion(loaded: Job, items: nat, clock: Time, stored: Job)
    requires loaded.status.Running? && loaded.completedAt == None && loaded.error == None
    requires loaded.total == loaded.processed == loaded.failed == 0
    requires stored.total == stored.processed == 0
    ensures Flush(loaded, CompletedJob(loaded, items, clock), stored) == stored
            <==> stored.status.Completed? && stored.completedAt == Some(clock) && items == 0
  {
  }

  // ---------- Messages ----------

  predicate MessageFits(job: Job) {
    job.error.Some? <==> job.status.Failed?
  }

  /** The job's row has a message exactly when it is FAILED, and so had every row a pending transition has read of it. */
  ghost predicate MessagesFit(st: State, id: Id) {
    && (id in st.db.jobs ==> MessageFits(st.db.jobs[id]))
    && (forall q :: q in st.edits && st.edits[q].job == id ==> MessageFits(st.edits[q].loaded))
  }

  /** A commit that takes a FAILED row to another status. */
  predicate Unfails(l: Pipeline, st: State, step: Step, id: Id) {
    && id in st.db.jobs && st.db.jobs[id].status.Failed?
    && (CompletesJob(l, st, step, id) || (WritesJob(st, step, id) && !st.edits[step.q].request.status.Failed?))
  }

  /** A step keeps messages and statuses together exactly when it is not such a commit. */
  lemma MessagesKeptExactly(l: Pipeline, st: State, step: Step, id: Id)
    requires Inv(l, st) && MessagesFit(st, id)
    ensures MessagesFit(Next(l, st, step), id) <==> !Unfails(l, st, step, id)
  {
    MessagesRead(l, st, step, id);
    if id in st.db.jobs {
      RowMessageKept(l, st, step, id);
    } else if id in Next(l, st, step).db.jobs {
      NewRowIsStamped(l, st, step, id);
    }
  }

  /** The rows that pending transitions have read keep their messages. */
  lemma MessagesRead(l: Pipeline, st: State, step: Step, id: Id)
    requires MessagesFit(st, id)
    ensures forall q :: q in Next(l, st, step).edits && Next(l, st, step).edits[q].job == id ==>
              MessageFits(Next(l, st, step).edits[q].loaded)
  {
    forall q | q in Next(l, st, step).edits && Next(l, st, step).edits[q].job == id
      ensures MessageFits(Next(l, st, step).edits[q].loaded)
    {
      EditOrigin(l, st, step, q);
    }
  }

  /** A pending transition was pending before, or has just read the stored row. */
  lemma EditOrigin(l: Pipeline, st: State, step: Step, q: Id)
    requires q in Next(l, st, step).edits
    ensures var e := Next(l, st, step).edits[q];
            || (q in st.edits && st.edits[q] == e)
            || (e.job in st.db.jobs && e.loaded == st.db.jobs[e.job] && e.at == st.clock)
  {
    if step.ReadForTransition? {
      ReadOrigin(st, step.q, step.id, step.organization, step.request, q);
    } else {
      OtherStepsOnlyDropEdits(l, st, step, q);
    }
  }

  lemma ReadOrigin(st: State, r: Id, id: Id, organization: Id, request: Request, q: Id)
    requires q in DoReadForTransition(st, r, id, organization, request).edits
    ensures var e := DoReadForTransition(st, r, id, organization, request).edits[q];
            || (q in st.edits && st.edits[q] == e)
            || (e.job in st.db.jobs && e.loaded == st.db.jobs[e.job] && e.at == st.clock)
  {
  }

  lemma RowMessageKept(l: Pipeline, st: State, step: Step, id: Id)
    requires Inv(l, st) && MessagesFit(st, id) && id in st.db.jobs
    ensures id in Next(l, st, step).db.jobs
    ensures MessageFits(Next(l, st, step).db.jobs[id]) <==> !Unfails(l, st, step, id)
  {
    if step.WriteTransition? {
      WrittenMessage(l, st, step.q, id);
      NextOfWrites(l, st, step);
    } else if step.CommitCompletion? {
      CompletedMessage(l, st, step.p, step.refreshed, id);
      NextOfWrites(l, st, step);
    } else {
      OtherStepsKeepMessage(l, st, step, id);
    }
  }

  lemma WrittenMessage(l: Pipeline, st: State, q: Id, id: Id)
    requires Inv(l, st) && MessagesFit(st, id) && id in st.db.jobs
    ensures id in DoWriteTransition(st, q).db.jobs
    ensures MessageFits(DoWriteTransition(st, q).db.jobs[id]) <==> !Unfails(l, st, WriteTransition(q), id)
  {
    if WritesJob(st, WriteTransition(q), id) {
      assert EditInv(st.db, st.edits[q], st.clock);
      TransitionSetsStatus(st.edits[q].loaded, st.edits[q].request, st.edits[q].at);
    }
  }

  lemma CompletedMessage(l: Pipeline, st: State, p: Id, refreshed: bool, id: Id)
    requires Inv(l, st) && MessagesFit(st, id) && id in st.db.jobs
    ensures id in DoCommitCompletion(l, st, p, refreshed).db.jobs
    ensures MessageFits(DoCommitCompletion(l, st, p, refreshed).db.jobs[id])
            <==> !Unfails(l, st, CommitCompletion(p, refreshed), id)
  {
    if CompletesJob(l, st, CommitCompletion(p, refreshed), id) {
      CompletionParts(l, st, p);
      assert ExecutionInv(l, st.db, st.executions[p]);
    }
  }

  lemma OtherStepsKeepMessage(l: Pipeline, st: State, step: Step, id: Id)
    requires Inv(l, st) && MessagesFit(st, id) && id in st.db.jobs
    requires !step.WriteTransition? && !step.CommitCompletion?
    ensures id in Next(l, st, step).db.jobs && MessageFits(Next(l, st, step).db.jobs[id])
  {
    StepChangesRow(l, st, step, id);
  }

  // ---------- Time stamps ----------

  /** The job's row is stamped as its status says, and so was every row a pending transition has read of it. */
  ghost predicate StampsFit(st: State, id: Id) {
    && (id in st.db.jobs ==> Stamped(st.db.jobs[id], st.clock))
    && (forall q :: q in st.edits && st.edits[q].job == id ==> Stamped(st.edits[q].loaded, st.edits[q].at))
  }

  /**
   * A completion over a FAILED row or one never started; or a transition that starts a terminal row,
   * ends a FAILED one otherwise, completes or fails one never started, or ends one before its start.
   */
  predicate Misstamps(l: Pipeline, st: State, step: Step, id: Id)
    requires id in st.db.jobs
  {
    var stored := st.db.jobs[id];
    || (CompletesJob(l, st, step, id) && (stored.status.Failed? || stored.startedAt == None))
    || (WritesJob(st, step, id)
        && var e := st.edits[step.q];
           match e.request.status
           case Running => Terminal(stored.status)
           case Completed => stored.status.Failed? || stored.startedAt == None || e.at < stored.startedAt.value
           case Failed => stored.startedAt == None || e.at < stored.startedAt.value
           case _ => stored.status.Failed? || (stored.startedAt.Some? && e.at < stored.startedAt.value))
  }

  /** A step keeps the stamps as the statuses say exactly when it is no such commit. */
  lemma StampsKeptExactly(l: Pipeline, st: State, step: Step, id: Id)
    requires Inv(l, st) && StampsFit(st, id)
    ensures StampsFit(Next(l, st, step), id) <==> !(id in st.db.jobs && Misstamps(l, st, step, id))
  {
    StampsRead(l, st, step, id);
    ClockNeverGoesBack(l, st, step);
    if id in st.db.jobs {
      RowStampsKept(l, st, step, id);
    } else if id in Next(l, st, step).db.jobs {
      NewRowIsStamped(l, st, step, id);
    }
  }

  lemma StampsRead(l: Pipeline, st: State, step: Step, id: Id)
    requires StampsFit(st, id)
    ensures forall q :: q in Next(l, st, step).edits && Next(l, st, step).edits[q].job == id ==>
              Stamped(Next(l, st, step).edits[q].loaded, Next(l, st, step).edits[q].at)
  {
    forall q | q in Next(l, st, step).edits && Next(l, st, step).edits[q].job == id
      ensures Stamped(Next(l, st, step).edits[q].loaded, Next(l, st, step).edits[q].at)
    {
      EditOrigin(l, st, step, q);
    }
  }

  lemma RowStampsKept(l: Pipeline, st: State, step: Step, id: Id)
    requires Inv(l, st) && StampsFit(st, id) && id in st.db.jobs
    ensures id in Next(l, st, step).db.jobs
    ensures Stamped(Next(l, st, step).db.jobs[id], Next(l, st, step).clock) <==> !Misstamps(l, st, step, id)
  {
    ClockNeverGoesBack(l, st, step);
    if step.WriteTransition? {
      WrittenStamps(l, st, step.q, id);
      NextOfWrites(l, st, step);
    } else if step.CommitCompletion? {
      CompletedStamps(l, st, step.p, step.refreshed, id);
      NextOfWrites(l, st, step);
    } else {
      OtherStepsKeepStamps(l, st, step, id);
    }
  }

  lemma WrittenStamps(l: Pipeline, st: State, q: Id, id: Id)
    requires Inv(l, st) && StampsFit(st, id) && id in st.db.jobs
    ensures id in DoWriteTransition(st, q).db.jobs
    ensures Stamped(DoWriteTransition(st, q).db.jobs[id], st.clock) <==> !Misstamps(l, st, WriteTransition(q), id)
  {
    if WritesJob(st, WriteTransition(q), id) {
      assert EditInv(st.db, st.edits[q], st.clock);
      StampsOfWrite(st.edits[q], st.db.jobs[id], st.clock);
    }
  }

  lemma StampsOfWrite(e: Edit, stored: Job, clock: Time)
    requires Transition(e.loaded, e.request, e.at).Ok? && CheckRequest(e.request) == Some(e.request)
    requires Stamped(e.loaded, e.at) && Stamped(stored, clock) && e.at <= clock
    ensures Stamped(Flush(e.loaded, Transition(e.loaded, e.request, e.at).value, stored), clock) <==>
            match e.request.status
            case Running => !Terminal(stored.status)
            case Completed => !stored.status.Failed? && stored.startedAt.Some? && stored.startedAt.value <= e.at
            case Failed => stored.startedAt.Some? && stored.startedAt.value <= e.at
            case _ => !stored.status.Failed? && (stored.startedAt.Some? ==> stored.startedAt.value <= e.at)
  {
    TransitionSetsStatus(e.loaded, e.request, e.at);
  }

  lemma CompletedStamps(l: Pipeline, st: State, p: Id, refreshed: bool, id: Id)
    requires Inv(l, st) && StampsFit(st, id) && id in st.db.jobs
    ensures id in DoCommitCompletion(l, st, p, refreshed).db.jobs
    ensures Stamped(DoCommitCompletion(l, st, p, refreshed).db.jobs[id], st.clock)
            <==> !Misstamps(l, st, CommitCompletion(p, refreshed), id)
  {
    if CompletesJob(l, st, CommitCompletion(p, refreshed), id) {
      CompletionParts(l, st, p);
      assert ExecutionInv(l, st.db, st.executions[p]);
    }
  }

  lemma OtherStepsKeepStamps(l: Pipeline, st: State, step: Step, id: Id)
    requires Inv(l, st) && StampsFit(st, id) && id in st.db.jobs
    requires !step.WriteTransition? && !step.CommitCompletion?
    ensures id in Next(l, st, step).db.jobs && Stamped(Next(l, st, step).db.jobs[id], Next(l, st, step).clock)
  {
    StepChangesRow(l, st, step, id);
    ClockNeverGoesBack(l, st, step);
  }

  // ---------- Whole runs ----------

  /** A step along the graph that leaves a terminal row alone and ends with fitting stamps. */
  ghost predicate LifecycleStep(before: State, after: State, id: Id) {
    && (id in before.db.jobs ==>
          && AlongGraph(before.db, after.db, id)
          && (Terminal(before.db.jobs[id].status) ==> after.db.jobs[id] == before.db.jobs[id]))
    && StampsFit(after, id)
  }

  /** A commit that jumps, overwrites a terminal row, or misstamps. */
  predicate Disorders(l: Pipeline, st: State, step: Step, id: Id) {
    id in st.db.jobs &&
    (|| Jumps(l, st, step, id)
     || (Terminal(st.db.jobs[id].status) && Overwrites(l, st, step, id))
     || Misstamps(l, st, step, id))
  }

  lemma LifecycleStepExactly(l: Pipeline, st: State, step: Step, id: Id)
    requires Inv(l, st) && StampsFit(st, id)
    ensures LifecycleStep(st, Next(l, st, step), id) <==> !Disorders(l, st, step, id)
  {
    StampsKeptExactly(l, st, step, id);
    if id in st.db.jobs {
      GraphFollowedExactly(l, st, step, id);
      if Terminal(st.db.jobs[id].status) { TerminalKeptExactly(l, st, step, id); }
    }
  }

  ghost predicate LifecycleThroughout(l: Pipeline, st: State, steps: seq<Step>, id: Id) {
    forall k :: 0 <= k < |steps| ==> LifecycleStep(Run(l, st, steps[..k]), Run(l, st, steps[..k + 1]), id)
  }

  ghost predicate NeverDisordered(l: Pipeline, st: State, steps: seq<Step>, id: Id) {
    forall k :: 0 <= k < |steps| ==> !Disorders(l, Run(l, st, steps[..k]), steps[k], id)
  }

  lemma StepOfRun(l: Pipeline, st: State, steps: seq<Step>, k: nat)
    requires k < |steps|
    ensures Run(l, st, steps[..k + 1]) == Next(l, Run(l, st, steps[..k]), steps[k])
  {
    assert steps[..k + 1][..k] == steps[..k];
  }

  /** The stamps fit as long as nothing was disordered. */
  lemma {:induction false} StampsFitSoFar(l: Pipeline, st: State, steps: seq<Step>, id: Id, k: nat)
    requires Sound(l) && Initial(st) && k <= |steps|
    requires forall m :: 0 <= m < k ==> !Disorders(l, Run(l, st, steps[..m]), steps[m], id)
    ensures StampsFit(Run(l, st, steps[..k]), id)
  {
    if k > 0 {
      StampsFitSoFar(l, st, steps, id, k - 1);
      Reachable(l, st, steps[..k - 1]);
      StepOfRun(l, st, steps, k - 1);
      LifecycleStepExactly(l, Run(l, st, steps[..k - 1]), steps[k - 1], id);
    }
  }

  lemma {:induction false} StampsFollow(l: Pipeline, st: State, steps: seq<Step>, id: Id, k: nat)
    requires Initial(st) && LifecycleThroughout(l, st, steps, id) && k <= |steps|
    ensures StampsFit(Run(l, st, steps[..k]), id)
  {
    if k > 0 {
      assert LifecycleStep(Run(l, st, steps[..k - 1]), Run(l, st, steps[..k - 1 + 1]), id);
    }
  }

  /**
   * The lifecycle of a job exactly: all through a run every step goes along the graph, leaves a terminal
   * row alone and keeps message and stamps as the status says, if and only if no step is one of the
   * disordered commits.
   */
  lemma LifecycleExactly(l: Pipeline, st: State, steps: seq<Step>, id: Id)
    requires Sound(l) && Initial(st)
    ensures LifecycleThroughout(l, st, steps, id) <==> NeverDisordered(l, st, steps, id)
  {
    if LifecycleThroughout(l, st, steps, id) {
      forall k | 0 <= k < |steps| ensures !Disorders(l, Run(l, st, steps[..k]), steps[k], id) {
        assert LifecycleStep(Run(l, st, steps[..k]), Run(l, st, steps[..k + 1]), id);
        StampsFollow(l, st, steps, id, k);
        StepOfRunExactly(l, st, steps, id, k);
      }
    }
    if NeverDisordered(l, st, steps, id) {
      forall k | 0 <= k < |steps| ensures LifecycleStep(Run(l, st, steps[..k]), Run(l, st, steps[..k + 1]), id) {
        StampsFitSoFar(l, st, steps, id, k);
        StepOfRunExactly(l, st, steps, id, k);
      }
    }
  }

  lemma StepOfRunExactly(l: Pipeline, st: State, steps: seq<Step>, id: Id, k: nat)
    requires Sound(l) && Initial(st) && k < |steps| && StampsFit(Run(l, st, steps[..k]), id)
    ensures LifecycleStep(Run(l, st, steps[..k]), Run(l, st, steps[..k + 1]), id)
            <==> !Disorders(l, Run(l, st, steps[..k]), steps[k], id)
  {
    Reachable(l, st, steps[..k]);
    StepOfRun(l, st, steps, k);
    LifecycleStepExactly(l, Run(l, st, steps[..k]), steps[k], id);
  }

  ghost predicate MessagesThroughout(l: Pipeline, st: State, steps: seq<Step>, id: Id) {
    forall k :: 0 <= k <= |steps| ==> MessagesFit(Run(l, st, steps[..k]), id)
  }

  ghost predicate NeverUnfailed(l: Pipeline, st: State, steps: seq<Step>, id: Id) {
    forall k :: 0 <= k < |steps| ==> !Unfails(l, Run(l, st, steps[..k]), steps[k], id)
  }

  lemma {:induction false} MessagesFitSoFar(l: Pipeline, st: State, steps: seq<Step>, id: Id, k: nat)
    requires Sound(l) && Initial(st) && k <= |steps| && NeverUnfailed(l, st, steps, id)
    ensures MessagesFit(Run(l, st, steps[..k]), id)
  {
    if k > 0 {
      MessagesFitSoFar(l, st, steps, id, k - 1);
      Reachable(l, st, steps[..k - 1]);
      StepOfRun(l, st, steps, k - 1);
      MessagesKeptExactly(l, Run(l, st, steps[..k - 1]), steps[k - 1], id);
    }
  }

  /** All through a run a job has a message exactly while it is FAILED, if and only if no commit takes it out of FAILED. */
  lemma MessagesExactly(l: Pipeline, st: State, steps: seq<Step>, id: Id)
    requires Sound(l) && Initial(st)
    ensures MessagesThroughout(l, st, steps, id) <==> NeverUnfailed(l, st, steps, id)
  {
    if NeverUnfailed(l, st, steps, id) {
      forall k | 0 <= k <= |steps| ensures MessagesFit(Run(l, st, steps[..k]), id) {
        MessagesFitSoFar(l, st, steps, id, k);
      }
    }
    if MessagesThroughout(l, st, steps, id) {
      forall k | 0 <= k < |steps| ensures !Unfails(l, Run(l, st, steps[..k]), steps[k], id) {
        assert MessagesFit(Run(l, st, steps[..k]), id) && MessagesFit(Run(l, st, steps[..k + 1]), id);
        Reachable(l, st, steps[..k]);
        StepOfRun(l, st, steps, k);
        MessagesKeptExactly(l, Run(l, st, steps[..k]), steps[k], id);
      }
    }
  }
}
