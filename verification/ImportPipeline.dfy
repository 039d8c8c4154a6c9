/** The pipeline of the service, put behind the protocol. */
module ImportPipeline {
  import opened Wrappers
  import opened Entities
  import opened CsvImport
  import opened ImportJobs
  import opened ImportProtocol
  import opened ImportSafety
  import opened ImportGuarantees
  import CsvSummary
  import ImportExecution
  import ReadSide
  import CsvMapping
  import PyText
  import Rows = RowValidation

  function AcceptMapping(m: Mapping): Option<Json> {
    match CsvMapping.ValidateCsvMapping(m)
    case Ok(accepted) => Some(CsvMapping.MappingConfiguration(accepted))
    case Err(_) => None
  }

  function PipelineOf(s: Settings): Pipeline {
    Pipeline(s.batchSize, m => AcceptMapping(m), c => CsvMapping.GetMapping(c), (o, m, es) => ScanFile(s, o, m, es))
  }

  /** What the protocol relies on, the service's mapping validation and import loop provide. */
  lemma PipelineIsSound(s: Settings)
    ensures Sound(PipelineOf(s))
  {
    var l := PipelineOf(s);
    forall m | l.accept(m).Some? ensures l.read(l.accept(m).value).Some? {
      CsvMapping.MappingRoundTrip(m);
    }
    forall o, m, es ensures Ordered(l.scan(o, m, es), o, es) {
      ScanIsOrdered(s, o, m, es);
    }
  }

  /** The call of `execute` runs this pipeline. */
  lemma PipelineAgrees(s: Settings)
    ensures ImportExecution.Agrees(PipelineOf(s), s)
  {
  }

  /** The issues an import stops with are all of one row. */
  lemma ErrorsAreOfOneRow(s: Settings)
    ensures ReadSide.OneRowErrors(PipelineOf(s))
  {
    var l := PipelineOf(s);
    forall o, m, es | l.scan(o, m, es).outcome.Err? && l.scan(o, m, es).outcome.error.InvalidRecord?
      ensures ReadSide.OneRow(l.scan(o, m, es).outcome.error.issues)
    {
      ErrorIsOfOneRow(s, o, m, es);
    }
  }

  lemma ErrorIsOfOneRow(s: Settings, o: Owner, m: Mapping, es: seq<Event>)
    requires ScanFile(s, o, m, es).outcome.Err? && ScanFile(s, o, m, es).outcome.error.InvalidRecord?
    ensures ReadSide.OneRow(ScanFile(s, o, m, es).outcome.error.issues)
  {
    var header, data := CheckHeader(s, Items(es)[0].fields, m).value, Items(es)[1..];
    ScanStops(s, o, header, m, data);
    ProblemIsOfOneRow(s, header, m, data[|ScanFile(s, o, m, es).accepted|], |ScanFile(s, o, m, es).accepted|);
  }

  lemma ProblemIsOfOneRow(s: Settings, header: seq<string>, m: Mapping, item: Event, index: nat)
    requires Problem(s, header, m, item, index).Some? && Problem(s, header, m, item, index).value.InvalidRecord?
    ensures ReadSide.OneRow(Problem(s, header, m, item, index).value.issues)
  {
    if |item.fields| == |header| {
      Rows.IssueCodes(s.parsers, m, Rows.SourceRow(item.line, RowValues(header, item.fields)));
    }
  }

  lemma ScanIsOrdered(s: Settings, o: Owner, m: Mapping, es: seq<Event>)
    ensures Ordered(ScanFile(s, o, m, es), o, es)
  {
    if Numbered(es) { AcceptedInFileOrder(s, o, m, es); }
    AcceptedOwner(s, o, m, es);
    if ScanFile(s, o, m, es).outcome.Ok? { SuccessfulImport(s, o, m, es); }
  }

  /** A prepared job carries the accepted mapping and its file. */
  lemma PreparedJob(l: Pipeline, db: Database, id: Id, datasource: Id, file: Id, organization: Id, mapping: Mapping, key: string)
    requires Prepare(l, db, id, datasource, file, organization, mapping, key).Ok?
    ensures var job := Prepare(l, db, id, datasource, file, organization, mapping, key).value;
            l.accept(mapping) == Some(job.configuration) && job.uploadedFile == Some(file)
  {
  }

  lemma AcceptedMappingIsReadBack(mapping: Mapping)
    requires AcceptMapping(mapping).Some?
    ensures CsvMapping.ValidateCsvMapping(mapping).Ok?
    ensures CsvMapping.GetMapping(AcceptMapping(mapping).value) == Some(CsvMapping.ValidateCsvMapping(mapping).value)
  {
    CsvMapping.MappingRoundTrip(mapping);
  }

  /** `execute` never finds the configuration of a prepared job invalid, and reads the accepted mapping back. */
  lemma PreparedJobIsConfigured(s: Settings, db: Database, id: Id, datasource: Id, file: Id, organization: Id,
                                mapping: Mapping, key: string)
    requires Prepare(PipelineOf(s), db, id, datasource, file, organization, mapping, key).Ok?
    ensures var job := Prepare(PipelineOf(s), db, id, datasource, file, organization, mapping, key).value;
            && CsvMapping.ValidateCsvMapping(mapping).Ok?
            && CsvMapping.GetMapping(job.configuration) == Some(CsvMapping.ValidateCsvMapping(mapping).value)
            && job.uploadedFile == Some(file)
  {
    PreparedJob(PipelineOf(s), db, id, datasource, file, organization, mapping, key);
    AcceptedMappingIsReadBack(mapping);
  }

  /** The service prepares a job for exactly the acceptable mappings, and stores their columns stripped. */
  lemma ServicePreparesExactly(s: Settings, db: Database, id: Id, datasource: Id, file: Id, organization: Id,
                               mapping: Mapping, key: string)
    ensures var r := Prepare(PipelineOf(s), db, id, datasource, file, organization, mapping, key);
            var scope := datasource in db.datasources && db.datasources[datasource].organization == organization;
            var own := file in db.files && db.files[file].organization == organization && db.files[file].datasource == datasource;
            var new_ := KeyIsNew(db, organization, datasource, key);
            && (r == Err(MappingRejected) <==> scope && own && !CsvMapping.Acceptable(mapping))
            && (r.Ok? <==> scope && own && CsvMapping.Acceptable(mapping) && new_ && id !in db.jobs)
            && (r.Ok? ==>
                 && CsvMapping.GetMapping(r.value.configuration).Some?
                 && var read := CsvMapping.GetMapping(r.value.configuration).value;
                    read.Keys == mapping.Keys && forall f :: f in mapping ==> read[f] == PyText.Strip(mapping[f]))
  {
    PrepareExactly(PipelineOf(s), db, id, datasource, file, organization, mapping, key);
    CsvMapping.ValidationCharacterised(mapping);
    if Prepare(PipelineOf(s), db, id, datasource, file, organization, mapping, key).Ok? {
      PreparedJobIsConfigured(s, db, id, datasource, file, organization, mapping, key);
    }
  }

  /** In no reachable state does `execute` reject a prepared job for its configuration. */
  lemma PreparedJobNeverMisconfigured(l: Pipeline, st: State, steps: seq<Step>, id: Id, organization: Id, datasource: Id)
    requires Sound(l) && Initial(st)
    requires id in Run(l, st, steps).db.jobs && Run(l, st, steps).db.jobs[id].uploadedFile.Some?
    ensures ClaimChecks(l, Run(l, st, steps).db, id, organization, datasource) != Err(InvalidConfiguration)
  {
    Reachable(l, st, steps);
    assert JobInv(l, Run(l, st, steps).db, id);
  }

  /** A record for every row with some text behind the header, in file order, each the stored image of its row. */
  ghost predicate ImagesOfRows(s: Settings, owner: Owner, mapping: Mapping, es: seq<Event>, records: seq<Insert>) {
    && HeaderAccepted(s, mapping, es)
    && |records| + 1 == |Positions(es)|
    && forall k :: 0 <= k < |records| ==>
         StoredImage(s, owner, HeaderOf(s, mapping, es), mapping, EventAt(es, k + 1), records[k])
  }

  lemma SuccessfulImages(s: Settings, owner: Owner, mapping: Mapping, es: seq<Event>)
    requires ScanFile(s, owner, mapping, es).outcome.Ok?
    ensures ImagesOfRows(s, owner, mapping, es, ScanFile(s, owner, mapping, es).accepted)
  {
    FileExactly(s, owner, mapping, es);
    FileSucceedsExactly(s, owner, mapping, es);
    forall k | 0 <= k < |ScanFile(s, owner, mapping, es).accepted|
      ensures StoredImage(s, owner, HeaderOf(s, mapping, es), mapping, EventAt(es, k + 1), ScanFile(s, owner, mapping, es).accepted[k])
    {
      AcceptedExactly(s, owner, mapping, es, k);
    }
  }

  /**
   * All or nothing, for the service: in every interleaving with any faults, a job has no records, or one
   * for every data row of its uploaded file that has some text, in file order, with the line number, the
   * fingerprint and the field values of its row.
   */
  lemma ServiceStoresAllOrNothing(s: Settings, st: State, steps: seq<Step>, id: Id)
    requires Initial(st) && id in Run(PipelineOf(s), st, steps).db.jobs
    ensures var db := Run(PipelineOf(s), st, steps).db;
            RecordsOf(db.records, id) != [] ==>
              && Executable(PipelineOf(s), db, db.jobs[id])
              && ImagesOfRows(s, OwnerOf(id, db.jobs[id]), CsvMapping.GetMapping(db.jobs[id].configuration).value,
                              db.files[db.jobs[id].uploadedFile.value].events, RecordsOf(db.records, id))
  {
    var l := PipelineOf(s);
    PipelineIsSound(s);
    RecordsAllOrNothing(l, st, steps, id);
    var db := Run(l, st, steps).db;
    if RecordsOf(db.records, id) != [] {
      SuccessfulImages(s, OwnerOf(id, db.jobs[id]), l.read(db.jobs[id].configuration).value,
                       db.files[db.jobs[id].uploadedFile.value].events);
    }
  }

  /** In every reachable state two stored rows share their hash exactly when the rows of their files are equal. */
  lemma StoredHashesIdentifyRows(s: Settings, st: State, steps: seq<Step>, id: Id, other: Id, i: nat, j: nat)
    requires Initial(st) && forall a, b :: s.digest(a) == s.digest(b) ==> a == b
    requires id in Run(PipelineOf(s), st, steps).db.jobs && i < |RecordsOf(Run(PipelineOf(s), st, steps).db.records, id)|
    requires other in Run(PipelineOf(s), st, steps).db.jobs && j < |RecordsOf(Run(PipelineOf(s), st, steps).db.records, other)|
    ensures var db := Run(PipelineOf(s), st, steps).db;
            && HasRow(db, id, i) && HasRow(db, other, j)
            && (RecordsOf(db.records, id)[i].rowHash == RecordsOf(db.records, other)[j].rowHash <==>
                RawRow(db, id, i) == RawRow(db, other, j))
  {
    ServiceStoresAllOrNothing(s, st, steps, id);
    ServiceStoresAllOrNothing(s, st, steps, other);
    var db := Run(PipelineOf(s), st, steps).db;
    HashesOfImages(s, OwnerOf(id, db.jobs[id]), OwnerOf(other, db.jobs[other]),
                   CsvMapping.GetMapping(db.jobs[id].configuration).value, CsvMapping.GetMapping(db.jobs[other].configuration).value,
                   db.files[db.jobs[id].uploadedFile.value].events, db.files[db.jobs[other].uploadedFile.value].events,
                   RecordsOf(db.records, id), RecordsOf(db.records, other), i, j);
  }

  /** The file of the job has a data row with this index. */
  ghost predicate HasRow(db: Database, id: Id, i: nat) {
    && id in db.jobs && db.jobs[id].uploadedFile.Some? && db.jobs[id].uploadedFile.value in db.files
    && i + 1 < |Positions(db.files[db.jobs[id].uploadedFile.value].events)|
    && EventAt(db.files[db.jobs[id].uploadedFile.value].events, i + 1).Row?
  }

  ghost function RawRow(db: Database, id: Id, i: nat): seq<string>
    requires HasRow(db, id, i)
  {
    EventAt(db.files[db.jobs[id].uploadedFile.value].events, i + 1).fields
  }

  lemma HashesOfImages(s: Settings, a: Owner, b: Owner, mapping: Mapping, mapping': Mapping, es: seq<Event>, es': seq<Event>,
                       records: seq<Insert>, records': seq<Insert>, i: nat, j: nat)
    requires forall a, b :: s.digest(a) == s.digest(b) ==> a == b
    requires ImagesOfRows(s, a, mapping, es, records) && i < |records|
    requires ImagesOfRows(s, b, mapping', es', records') && j < |records'|
    ensures EventAt(es, i + 1).Row? && EventAt(es', j + 1).Row?
    ensures records[i].rowHash == records'[j].rowHash <==> EventAt(es, i + 1).fields == EventAt(es', j + 1).fields
  {
    StoredHashesExactly(s, a, b, HeaderOf(s, mapping, es), HeaderOf(s, mapping', es'), mapping, mapping',
                        EventAt(es, i + 1), EventAt(es', j + 1), records[i], records'[j]);
  }

  /**
   * Without faults of its own, a call of the service returns a count exactly when the checks pass, the
   * header of the file suits the mapping and its rows are not too many and all importable; the count is
   * that of the rows with some text behind the header, which is also that of the summary.
   */
  lemma ServiceCallSucceedsExactly(s: Settings, db: Database, id: Id, organization: Id, datasource: Id,
                                   c: ImportExecution.Circumstances)
    requires c.opens && (forall k :: !c.batchFaults(k)) && c.commits && c.refreshes
    requires ClaimChecks(PipelineOf(s), db, id, organization, datasource).Ok?
    ensures var r := ImportExecution.CallResult(PipelineOf(s), db, id, organization, datasource, c);
            var (mapping, file) := ClaimChecks(PipelineOf(s), db, id, organization, datasource).value;
            var es := db.files[file].events;
            && (r.Ok? <==>
                 && HeaderAccepted(s, mapping, es) && |Positions(es)| - 1 <= s.maxRows
                 && forall k :: 0 < k < |Positions(es)| ==> Importable(s, HeaderOf(s, mapping, es), mapping, EventAt(es, k)))
            && (r.Ok? ==>
                 && r.value == |Positions(es)| - 1
                 && CsvSummary.SummaryOf(s.maxRows, s.maxColumns, es).Ok?
                 && r.value == CsvSummary.SummaryOf(s.maxRows, s.maxColumns, es).value.rowCount)
  {
    PipelineIsSound(s);
    ImportExecution.FaultFreeCallExactly(PipelineOf(s), db, id, organization, datasource, c);
    var (mapping, file) := ClaimChecks(PipelineOf(s), db, id, organization, datasource).value;
    FileImportsExactly(s, OwnerOf(id, db.jobs[id]), mapping, db.files[file].events);
  }

  lemma FileImportsExactly(s: Settings, owner: Owner, mapping: Mapping, es: seq<Event>)
    ensures var scan := ScanFile(s, owner, mapping, es);
            && (scan.outcome.Ok? <==>
                 && HeaderAccepted(s, mapping, es) && |Positions(es)| - 1 <= s.maxRows
                 && forall k :: 0 < k < |Positions(es)| ==> Importable(s, HeaderOf(s, mapping, es), mapping, EventAt(es, k)))
            && (scan.outcome.Ok? ==>
                 && scan.outcome.value == |scan.accepted| == |Positions(es)| - 1
                 && CsvSummary.SummaryOf(s.maxRows, s.maxColumns, es).Ok?
                 && scan.outcome.value == CsvSummary.SummaryOf(s.maxRows, s.maxColumns, es).value.rowCount)
  {
    FileSucceedsExactly(s, owner, mapping, es);
    FileExactly(s, owner, mapping, es);
    if ScanFile(s, owner, mapping, es).outcome.Ok? {
      CsvSummary.ImportAcceptsExactly(s, owner, mapping, es);
      CsvSummary.AcceptedImportIsSummarised(s, owner, mapping, es);
    }
  }
}
