/** The upload route, statement by statement: store, register, and delete again on failure. */
module UploadRoute {
  import opened Wrappers
  import opened Batching
  import opened RowFingerprint
  import opened PyText
  import opened Storage
  import opened Uploads

  // ---------- Reading the request body ----------

  /** The generator of chunks: reads of one size until a read returns nothing. */
  method UploadChunks(content: seq<Byte>, chunkSize: Size) returns (chunks: seq<seq<Byte>>)
    ensures chunks == AllBatches(content, chunkSize)
    ensures Flatten(chunks) == content && forall c :: c in chunks ==> c != []
  {
    chunks := [];
    var position := 0;
    while position < |content|
      invariant position <= |content|
      invariant chunks + AllBatches(content[position..], chunkSize) == AllBatches(content, chunkSize)
    {
      var end := if position + chunkSize <= |content| then position + chunkSize else |content|;
      var rest := content[position..];
      var chunk := content[position..end];
      NextChunk(rest, chunkSize);
      assert rest[..|chunk|] == chunk && rest[|chunk|..] == content[end..];
      chunks := chunks + [chunk];
      position := end;
    }
    assert AllBatches(content[position..], chunkSize) == [];
    BatchesConcatenate(content, chunkSize);
    BatchSizes(content, chunkSize);
  }

  /** The first read takes the first batch. */
  lemma NextChunk(rest: seq<Byte>, size: Size)
    requires rest != []
    ensures var n := if size <= |rest| then size else |rest|;
            AllBatches(rest, size) == [rest[..n]] + AllBatches(rest[n..], size)
  {
    if |rest| < size {
      assert rest[..|rest|] == rest && rest[|rest|..] == [];
    }
  }

  function AsData(chunks: seq<seq<Byte>>): seq<Chunk> {
    seq(|chunks|, i requires 0 <= i < |chunks| => Data(chunks[i]))
  }

  lemma {:induction false} ContentOfData(chunks: seq<seq<Byte>>)
    ensures Content(AsData(chunks)) == Flatten(chunks) && AllData(AsData(chunks))
  {
    if chunks != [] {
      ContentOfData(chunks[1..]);
      assert AsData(chunks)[1..] == AsData(chunks[1..]);
    }
  }

  /**
   * An undisturbed upload of one byte up to the limit is stored byte for byte, for any size of the
   * reads; an empty or larger one is refused.
   */
  lemma UploadIsStoredWhole(max: nat, hexdigest: seq<Byte> -> string, files: Files, filename: string, contentType: string,
                            uuid: string, content: seq<Byte>, chunkSize: Size)
    requires ValidateUpload(filename, contentType).Ok? && uuid + ValidateUpload(filename, contentType).value !in files
    ensures var name := uuid + ValidateUpload(filename, contentType).value;
            var (after, r) := Saved(max, hexdigest, files, filename, contentType, uuid, AsData(AllBatches(content, chunkSize)), true, true);
            && (r.Ok? <==> 0 < |content| <= max)
            && (r.Ok? ==> after == files[name := content] && r.value.checksum == hexdigest(content) && r.value.sizeBytes == |content|)
            && (r.Err? ==> after == files)
  {
    var chunks := AsData(AllBatches(content, chunkSize));
    BatchesConcatenate(content, chunkSize);
    ContentOfData(AllBatches(content, chunkSize));
    SaveSucceedsExactly(max, hexdigest, files, filename, contentType, uuid, chunks, true, true);
    if Saved(max, hexdigest, files, filename, contentType, uuid, chunks, true, true).1.Err? {
      FailedSaveExactly(max, hexdigest, files, filename, contentType, uuid, chunks, true, true);
      DataIsNeverInterrupted(max, chunks, []);
    }
  }

  lemma {:induction false} DataIsNeverInterrupted(max: nat, chunks: seq<Chunk>, sofar: seq<Byte>)
    requires AllData(chunks)
    ensures Receive(max, chunks, sofar).error != Some(Uncaught)
  {
    if chunks != [] {
      DataIsNeverInterrupted(max, chunks[1..], sofar + chunks[0].bytes);
    }
  }

  // ---------- The route ----------

  class UploadedFileService {
    var rows: map<Id, FileRow>
    const datasources: map<Id, Id>

    constructor (datasources: map<Id, Id>)
      ensures rows == map[] && this.datasources == datasources
    {
      rows := map[];
      this.datasources := datasources;
    }

    /** Adds the row of a stored file whose checksum is new, commits, and reads the row back. */
    method Create(c: Call, id: Id, fault: CreateFault) returns (r: Result<Id, UploadError>)
      requires c.Holding?
      modifies this
      ensures match CreateProblem(old(rows), datasources, c, id, fault)
              case Some(e) => r == Err(e) && rows == old(rows)
              case None =>
                && rows == old(rows)[id := RowOf(c)]
                && r == if fault == AfterCommit then Err(DatabaseError) else Ok(id)
    {
      if !ValidPayload(c.filename, c.contentType, c.file) {
        return Err(InvalidPayload);
      }
      if c.datasource !in datasources || datasources[c.datasource] != c.organization {
        return Err(DatasourceMissing);
      }
      if exists i :: i in rows && SameChecksum(rows[i], c.organization, c.datasource, c.file.checksum) {
        return Err(ChecksumConflict);
      }
      if id in rows || fault == BeforeCommit {
        return Err(DatabaseError);
      }
      rows := rows[id := RowOf(c)];
      return if fault == AfterCommit then Err(DatabaseError) else Ok(id);
    }
  }

  class UploadFileRoute {
    const storage: LocalFileStorage
    const service: UploadedFileService

    constructor (storage: LocalFileStorage, service: UploadedFileService)
      ensures this.storage == storage && this.service == service
    {
      this.storage, this.service := storage, service;
    }

    method Save(rq: SaveRequest) returns (r: Result<StoredFile, SaveError>)
      modifies storage
      ensures (storage.files, r) == StoreOf(storage.maxSizeBytes, storage.hexdigest).save(old(storage.files), rq)
    {
      r := storage.Save(rq.filename, rq.contentType, rq.uuid, rq.chunks, rq.opens, rq.closes);
    }

    /** One call of the route is the three steps of an upload, one after the other. */
    method UploadFile(u: Id, id: Id, datasource: Id, organization: Id, rq: SaveRequest, fault: CreateFault, deletes: bool)
      returns (r: Result<Id, UploadError>)
      modifies storage, service
      ensures var start := State(old(storage.files), old(service.rows), service.datasources, map[]);
              var end := ThreeSteps(StoreOf(storage.maxSizeBytes, storage.hexdigest), start, u, organization, datasource, rq, id,
                                    fault, deletes);
              storage.files == end.files && service.rows == end.rows && u in end.calls && end.calls[u] == Over(r)
      ensures r.Ok? ==>
                && r.value == id && id !in old(service.rows) && id in service.rows
                && service.rows == old(service.rows)[id := service.rows[id]]
                && Uploaded(storage.hexdigest, old(storage.files), storage.files, organization, datasource, rq, service.rows[id])
      ensures r.Err? && fault != AfterCommit ==> service.rows == old(service.rows)
    {
      UploadSteps(StoreOf(storage.maxSizeBytes, storage.hexdigest), State(storage.files, service.rows, service.datasources, map[]),
                  u, organization, datasource, rq, id, fault, deletes);
      var stored := Save(rq);
      if stored.Err? {
        return Err(SaveFailed(stored.error));
      }
      RowOfUpload(storage.maxSizeBytes, storage.hexdigest, old(storage.files), organization, datasource, rq);
      r := service.Create(Holding(organization, datasource, rq.filename, rq.contentType, stored.value), id, fault);
      if r.Err? && deletes {
        var deleted := storage.Delete(stored.value.storagePath);
      }
    }
  }

  /**
   * A registered upload: its file holds the bytes of the request under a new name, and its row has the
   * scope of the call, the stripped name and type of the request, and the name, size and checksum of the file.
   */
  ghost predicate Uploaded(hexdigest: seq<Byte> -> string, before: Files, after: Files, organization: Id, datasource: Id,
                           rq: SaveRequest, row: FileRow) {
    && row.organization == organization && row.datasource == datasource
    && row.originalFilename == Strip(rq.filename) && row.contentType == Strip(rq.contentType)
    && row.sizeBytes == |Content(rq.chunks)| && row.checksum == hexdigest(Content(rq.chunks))
    && ValidateUpload(rq.filename, rq.contentType).Ok?
    && row.storagePath == rq.uuid + ValidateUpload(rq.filename, rq.contentType).value
    && row.storagePath !in before && after == before[row.storagePath := Content(rq.chunks)]
  }

  /** The row that is made of a request that was saved. */
  lemma RowOfUpload(max: nat, hexdigest: seq<Byte> -> string, files: Files, organization: Id, datasource: Id, rq: SaveRequest)
    requires StoreOf(max, hexdigest).save(files, rq).1.Ok?
    ensures var (after, r) := StoreOf(max, hexdigest).save(files, rq);
            Uploaded(hexdigest, files, after, organization, datasource, rq,
                     RowOf(Holding(organization, datasource, rq.filename, rq.contentType, r.value)))
  {
    SaveSucceedsExactly(max, hexdigest, files, rq.filename, rq.contentType, rq.uuid, rq.chunks, rq.opens, rq.closes);
    SuccessfulSave(max, hexdigest, files, rq);
    StripTrims(StoreOf(max, hexdigest).save(files, rq).1.value.storagePath);
  }

  function ThreeSteps(s: Store, st: State, u: Id, organization: Id, datasource: Id, rq: SaveRequest, id: Id,
                      fault: CreateFault, deletes: bool): State
  {
    DoCompensate(DoRegister(DoSave(s, st, u, organization, datasource, rq), u, id, fault), u, deletes)
  }

  /** The three steps of one call, by what the save and the registration come to. */
  lemma UploadSteps(s: Store, st: State, u: Id, organization: Id, datasource: Id, rq: SaveRequest, id: Id,
                    fault: CreateFault, deletes: bool)
    requires u !in st.calls
    ensures var end := ThreeSteps(s, st, u, organization, datasource, rq, id, fault, deletes);
            var (files, saved) := s.save(st.files, rq);
            && u in end.calls
            && (saved.Err? ==> end.files == files && end.rows == st.rows && end.calls[u] == Over(Err(SaveFailed(saved.error))))
            && (saved.Ok? ==>
                 var c := Holding(organization, datasource, rq.filename, rq.contentType, saved.value);
                 match CreateProblem(st.rows, st.datasources, c, id, fault)
                 case Some(e) =>
                   && end.rows == st.rows && end.calls[u] == Over(Err(e))
                   && end.files == if deletes then files - {saved.value.storagePath} else files
                 case None =>
                   && end.rows == st.rows[id := RowOf(c)]
                   && end.calls[u] == Over(if fault == AfterCommit then Err(DatabaseError) else Ok(id))
                   && end.files == if fault == AfterCommit && deletes then files - {saved.value.storagePath} else files)
  {
    var (files, saved) := s.save(st.files, rq);
    if saved.Ok? {
      var c := Holding(organization, datasource, rq.filename, rq.contentType, saved.value);
      RegistrationSteps(SetCall(st.(files := files), u, c), u, id, fault, deletes);
    }
  }

  /** The two steps behind a successful save. */
  lemma RegistrationSteps(st: State, u: Id, id: Id, fault: CreateFault, deletes: bool)
    requires u in st.calls && st.calls[u].Holding?
    ensures var end := DoCompensate(DoRegister(st, u, id, fault), u, deletes);
            var c := st.calls[u];
            && u in end.calls
            && match CreateProblem(st.rows, st.datasources, c, id, fault)
               case Some(e) =>
                 && end.rows == st.rows && end.calls[u] == Over(Err(e))
                 && end.files == if deletes then st.files - {c.file.storagePath} else st.files
               case None =>
                 && end.rows == st.rows[id := RowOf(c)]
                 && end.calls[u] == Over(if fault == AfterCommit then Err(DatabaseError) else Ok(id))
                 && end.files == if fault == AfterCommit && deletes then st.files - {c.file.storagePath} else st.files
  {
  }
}
