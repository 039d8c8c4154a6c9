/** The services that create import jobs and move them on request, statement by statement. */
module ImportJobServices {
  import opened Wrappers
  import opened Entities
  import opened ImportJobs
  import opened ImportProtocol
  import opened ImportSafety
  import opened ImportExecution

  /** The call of `transition` a step belongs to. */
  function Editor(step: Step): Option<Id> {
    match step
    case ReadForTransition(q, _, _, _) => Some(q)
    case WriteTransition(q) => Some(q)
    case _ => None
  }

  lemma EditStays(l: Pipeline, st: State, step: Step, q: Id)
    requires Editor(step) != Some(q) && q in st.edits
    ensures q in Next(l, st, step).edits && Next(l, st, step).edits[q] == st.edits[q]
  {
  }

  lemma {:induction false} EditStaysInRun(l: Pipeline, st: State, steps: seq<Step>, q: Id)
    requires q in st.edits && forall k :: 0 <= k < |steps| ==> Editor(steps[k]) != Some(q)
    ensures q in Run(l, st, steps).edits && Run(l, st, steps).edits[q] == st.edits[q]
  {
    if steps != [] {
      var n := |steps| - 1;
      EditStaysInRun(l, st, steps[..n], q);
      EditStays(l, Run(l, st, steps[..n]), steps[n], q);
    }
  }

  datatype TransitionFailure = RequestRejected | NoSuchJob | Refused(error: TransitionError) | CountersRefused

  /** Why a request does not get as far as its UPDATE, if it does not. */
  function TransitionProblem(st: State, id: Id, organization: Id, request: Request): Option<TransitionFailure> {
    if CheckRequest(request).None? then Some(RequestRejected)
    else if id !in st.db.jobs || st.db.jobs[id].organization != organization then Some(NoSuchJob)
    else
      match Transition(st.db.jobs[id], CheckRequest(request).value, st.clock)
      case Err(e) => Some(Refused(e))
      case Ok(_) => None
  }

  /** The state between the read and the write of an accepted request. */
  function Reading(st: State, q: Id, id: Id, request: Request): State
    requires id in st.db.jobs
  {
    st.(edits := st.edits[q := Edit(id, st.db.jobs[id], request, st.clock)])
  }

  /** What was loaded and assigned is what the edit stands for. */
  predicate Assigned(e: Edit, id: Id, loaded: Job, edited: Job) {
    e.job == id && e.loaded == loaded && Transition(loaded, e.request, e.at) == Ok(edited)
  }

  /** The request is well-formed, its job is found, and the job may move as it asks. */
  ghost predicate Accepts(st: State, id: Id, organization: Id, request: Request) {
    && !RequestRefused(request)
    && id in st.db.jobs && st.db.jobs[id].organization == organization
    && Allowed(st.db.jobs[id].status, request.status)
    && CountersAccepted(st.db.jobs[id], request)
  }

  /** Which requests fail before their UPDATE, and with what: the first of the four checks that does. */
  ghost predicate Rejects(st: State, id: Id, organization: Id, request: Request, e: TransitionFailure) {
    var found := id in st.db.jobs && st.db.jobs[id].organization == organization;
    match e
    case RequestRejected => RequestRefused(request)
    case NoSuchJob => !RequestRefused(request) && !found
    case Refused(InvalidTransition) =>
      !RequestRefused(request) && found && !Allowed(st.db.jobs[id].status, request.status)
    case Refused(InvalidCounters) =>
      && !RequestRefused(request) && found && Allowed(st.db.jobs[id].status, request.status)
      && !CountersAccepted(st.db.jobs[id], request)
    case CountersRefused => false
  }

  lemma TransitionProblemExactly(st: State, id: Id, organization: Id, request: Request, e: TransitionFailure)
    ensures TransitionProblem(st, id, organization, request) == Some(e) <==> Rejects(st, id, organization, request, e)
    ensures TransitionProblem(st, id, organization, request) == None <==> Accepts(st, id, organization, request)
  {
    RequestExactly(request);
    if !RequestRefused(request) && id in st.db.jobs { RequestTakesEffect(st.db.jobs[id], request, st.clock); }
  }

  /**
   * What the UPDATE of an accepted request leaves and answers: the columns the request assigns to the
   * row as it was read, merged into the row as it is stored by now; or nothing, if the counters of that
   * row would not fit.
   */
  ghost predicate Answers(read: State, written: State, db: Database, id: Id, request: Request, r: Result<Job, TransitionFailure>) {
    && id in read.db.jobs && id in written.db.jobs
    && exists edited, after ::
         && EditedBy(read.db.jobs[id], request, read.clock, edited)
         && Merged(read.db.jobs[id], edited, written.db.jobs[id], after)
         && if after.processed + after.failed <= after.total
            then r == Ok(after) && db == written.db.(jobs := written.db.jobs[id := after])
            else r == Err(CountersRefused) && db == written.db
  }

  lemma WriteAnswers(read: State, written: State, q: Id, id: Id, request: Request, r: Result<Job, TransitionFailure>)
    requires !RequestRefused(request) && CheckRequest(request).Some? && id in read.db.jobs
    requires Writable(written, q) && written.edits[q] == Edit(id, read.db.jobs[id], CheckRequest(request).value, read.clock)
    requires r == if CountsFit(WrittenJob(written, q)) then Ok(WrittenJob(written, q)) else Err(CountersRefused)
    ensures Answers(read, written, DoWriteTransition(written, q).db, id, request, r)
  {
    var loaded := read.db.jobs[id];
    var edited := ImportJobs.Transition(loaded, CheckRequest(request).value, read.clock).value;
    RequestTakesEffect(loaded, request, read.clock);
    FlushExactly(loaded, edited, written.db.jobs[id], WrittenJob(written, q));
    assert EditedBy(loaded, request, read.clock, edited) && Merged(loaded, edited, written.db.jobs[id], WrittenJob(written, q));
  }

  class ImportJobService {
    const server: Server

    constructor (server: Server)
      ensures this.server == server
    {
      this.server := server;
    }

    method Create(id: Id, datasource: Id, organization: Id, key: string, totalItems: nat) returns (r: Result<Id, CreateError>)
      modifies server
      ensures server.st == Next(server.l, old(server.st), CreateJob(id, datasource, organization, key, totalItems))
      ensures match ImportJobs.Create(old(server.st.db), id, datasource, organization, key, totalItems)
              case Ok(_) => r == Ok(id)
              case Err(e) => r == Err(e)
    {
      var db := server.st.db;
      if !DatasourceFound(db, datasource, organization) {
        return Err(DatasourceNotFound);
      }
      if KeyTaken(db, organization, datasource, key) {
        return Err(IdempotencyConflict);
      }
      if id in db.jobs {
        return Err(IntegrityError);
      }
      server.Add(id, Job(organization, db.datasources[datasource].research, datasource, None, JsonObject(map[]), key,
                         Pending, totalItems, 0, 0, None, None, None));
      return Ok(id);
    }

    /** Checks the request against the loaded row and assigns its columns; nothing is stored yet. */
    method Assign(item: JobRow, payload: Request) returns (error: Option<TransitionError>)
      requires item.Value() == item.loaded
      modifies item
      ensures item.loaded == old(item.loaded)
      ensures match ImportJobs.Transition(item.loaded, payload, server.st.clock)
              case Ok(edited) => error == None && item.Value() == edited
              case Err(e) => error == Some(e)
    {
      if !Allowed(item.status, payload.status) {
        return Some(InvalidTransition);
      }
      var processedItems := if payload.processed != None then payload.processed.value else item.processedItems;
      var failedItems := if payload.failed != None then payload.failed.value else item.failedItems;
      if processedItems < item.processedItems || failedItems < item.failedItems {
        return Some(InvalidCounters);
      }
      if processedItems + failedItems > item.totalItems {
        return Some(InvalidCounters);
      }
      if payload.status == Completed && processedItems + failedItems != item.totalItems {
        return Some(InvalidCounters);
      }
      item.status := payload.status;
      item.processedItems := processedItems;
      item.failedItems := failedItems;
      if item.status == Running {
        item.startedAt := Some(server.st.clock);
        item.completedAt := None;
      } else if item.status == Completed {
        item.completedAt := Some(server.st.clock);
        item.errorMessage := None;
      } else if item.status == Failed {
        item.completedAt := Some(server.st.clock);
        item.errorMessage := payload.error;
      } else {
        item.completedAt := Some(server.st.clock);
      }
      return None;
    }

    /** The read and every check, without a lock; the row object holds the assigned columns. */
    method Load(q: Id, id: Id, organization: Id, request: Request) returns (r: Result<JobRow, TransitionFailure>)
      requires q !in server.st.edits
      modifies server
      ensures server.st == DoReadForTransition(old(server.st), q, id, organization, request)
      ensures match TransitionProblem(old(server.st), id, organization, request)
              case Some(e) => r == Err(e) && server.st == old(server.st)
              case None =>
                && r.Ok? && fresh(r.value) && r.value.id == id && q in server.st.edits
                && Assigned(server.st.edits[q], id, r.value.loaded, r.value.Value())
                && server.st == Reading(old(server.st), q, id, CheckRequest(request).value)
    {
      var payload := CheckRequest(request);
      if payload == None {
        return Err(RequestRejected);
      }
      if id !in server.st.db.jobs || server.st.db.jobs[id].organization != organization {
        return Err(NoSuchJob);
      }
      var item := new JobRow(id, server.st.db.jobs[id]);
      var error := Assign(item, payload.value);
      if error != None {
        return Err(Refused(error.value));
      }
      server.Hold(q, Edit(id, item.loaded, payload.value, server.st.clock));
      return Ok(item);
    }

    /** The commit: an UPDATE of the assigned columns, without looking at the row again, and the row read back. */
    method Store(q: Id, item: JobRow) returns (r: Result<Job, TransitionFailure>)
      requires q in server.st.edits && Assigned(server.st.edits[q], item.id, item.loaded, item.Value())
      requires item.id in server.st.db.jobs && RowFree(server.st, item.id)
      modifies server, item`loaded
      ensures server.st == DoWriteTransition(old(server.st), q)
      ensures r == if CountsFit(WrittenJob(old(server.st), q)) then Ok(WrittenJob(old(server.st), q)) else Err(CountersRefused)
      ensures r.Ok? ==> item.id in server.st.db.jobs && server.st.db.jobs[item.id] == r.value
    {
      var ok := server.CommitUpdate(item);
      server.Release(q);
      if !ok {
        return Err(CountersRefused);
      }
      return Ok(server.st.db.jobs[item.id]);
    }

    /**
     * A requested transition: the read, steps of other calls, and the UPDATE once the row is free. It is
     * the two steps of the protocol around the steps of the others. It fails with the first check that
     * does, or when the database refuses the counters; otherwise it returns the row as it is stored.
     */
    method Transition(q: Id, id: Id, organization: Id, request: Request, meanwhile: seq<Step>)
      returns (r: Result<Job, TransitionFailure>)
      requires Inv(server.l, server.st) && q !in server.st.edits
      requires forall k :: 0 <= k < |meanwhile| ==> Editor(meanwhile[k]) != Some(q)
      requires id in server.st.db.jobs && CheckRequest(request).Some? ==>
                 RowFree(Run(server.l, Reading(server.st, q, id, CheckRequest(request).value), meanwhile), id)
      modifies server
      ensures match TransitionProblem(old(server.st), id, organization, request)
              case Some(e) => r == Err(e) && server.st == old(server.st)
              case None =>
                var written := Run(server.l, DoReadForTransition(old(server.st), q, id, organization, request), meanwhile);
                && server.st == DoWriteTransition(written, q)
                && Writable(written, q) && written.edits[q].job == id
                && (r.Ok? <==> CountsFit(WrittenJob(written, q)))
                && (r.Ok? ==> id in server.st.db.jobs && r.value == server.st.db.jobs[id] == WrittenJob(written, q))
                && (r.Err? ==> r.error == CountersRefused && server.st.db == written.db)
      ensures forall e: TransitionFailure ::
                (r == Err(e) && e != CountersRefused <==> Rejects(old(server.st), id, organization, request, e))
      ensures r.Ok? || r == Err(CountersRefused) <==> Accepts(old(server.st), id, organization, request)
      ensures Accepts(old(server.st), id, organization, request) ==>
                var written := Run(server.l, DoReadForTransition(old(server.st), q, id, organization, request), meanwhile);
                Answers(old(server.st), written, server.st.db, id, request, r)
    {
      forall e: TransitionFailure
        ensures TransitionProblem(server.st, id, organization, request) == Some(e)
                <==> Rejects(server.st, id, organization, request, e)
      {
        TransitionProblemExactly(server.st, id, organization, request, e);
      }
      TransitionProblemExactly(server.st, id, organization, request, RequestRejected);
      ReadForTransitionKeeps(server.l, server.st, q, id, organization, request);
      var loaded := Load(q, id, organization, request);
      if loaded.Err? {
        return Err(loaded.error);
      }
      RunKeepsIdentity(server.l, server.st, meanwhile, id);
      EditStaysInRun(server.l, server.st, meanwhile, q);
      server.Meanwhile(meanwhile);
      ghost var written := server.st;
      r := Store(q, loaded.value);
      RequestExactly(request);
      WriteAnswers(old(server.st), written, q, id, request, r);
    }
  }

  class MappingPreparationService {
    const server: Server

    constructor (server: Server)
      ensures this.server == server
    {
      this.server := server;
    }

    method Prepare(id: Id, datasource: Id, file: Id, organization: Id, mapping: Mapping, key: string) returns (r: Result<Id, CreateError>)
      modifies server
      ensures server.st == Next(server.l, old(server.st), PrepareJob(id, datasource, file, organization, mapping, key))
      ensures match ImportJobs.Prepare(server.l, old(server.st.db), id, datasource, file, organization, mapping, key)
              case Ok(_) => r == Ok(id)
              case Err(e) => r == Err(e)
    {
      var db := server.st.db;
      if !DatasourceFound(db, datasource, organization) {
        return Err(DatasourceNotFound);
      }
      if file !in db.files || db.files[file].organization != organization {
        return Err(UploadedFileNotFound);
      }
      if db.files[file].datasource != datasource {
        return Err(DatasourceNotFound);
      }
      var configuration := server.l.accept(mapping);
      if configuration == None {
        return Err(MappingRejected);
      }
      if KeyTaken(db, organization, datasource, key) {
        return Err(IdempotencyConflict);
      }
      if id in db.jobs {
        return Err(IntegrityError);
      }
      server.Add(id, Job(organization, db.datasources[datasource].research, datasource, Some(file), configuration.value, key,
                         Pending, 0, 0, 0, None, None, None));
      return Ok(id);
    }
  }
}
