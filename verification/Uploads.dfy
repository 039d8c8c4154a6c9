/** Uploads: a file is stored, then registered, and deleted again when registering it fails. */
module Uploads {
  import opened Wrappers
  import opened PyText
  import opened RowFingerprint
  import opened Storage

  type Id = nat

  predicate IsHex(c: char) {
    '0' <= c <= '9' || 'a' <= c <= 'f'
  }

  /** uuid4().hex */
  type Uuid = s: string | |s| == 32 && forall i :: 0 <= i < |s| ==> IsHex(s[i]) witness seq(32, _ => '0')

  // ---------- The store, as uploads see it ----------

  datatype SaveRequest = SaveRequest(
    filename: string, contentType: string, uuid: Uuid, chunks: seq<Chunk>, opens: bool, closes: bool)

  /** The name a request is stored under, when it is valid; and what storing it does. */
  datatype Store = Store(
    hexdigest: seq<Byte> -> string,
    nameOf: SaveRequest -> Option<string>,
    save: (Files, SaveRequest) -> (Files, Result<StoredFile, SaveError>))

  /** One save, by its result. */
  ghost predicate SaveEffect(s: Store, files: Files, rq: SaveRequest, after: Files, r: Result<StoredFile, SaveError>) {
    match r
    case Ok(file) =>
      && s.nameOf(rq) == Some(file.storagePath) && Trimmed(file.storagePath) && file.storagePath !in files
      && file.storagePath in after && after - {file.storagePath} == files
      && |after[file.storagePath]| == file.sizeBytes > 0 && s.hexdigest(after[file.storagePath]) == file.checksum
    case Err(e) =>
      match s.nameOf(rq)
      case None => after == files
      case Some(name) =>
        if e == Uncaught then name !in files && name in after && after - {name} == files else after == files - {name}
  }

  ghost predicate Sound(s: Store) {
    forall files, rq :: SaveEffect(s, files, rq, s.save(files, rq).0, s.save(files, rq).1)
  }

  // ---------- Registered files ----------

  datatype FileRow = FileRow(
    organization: Id, datasource: Id, originalFilename: string, contentType: string,
    storagePath: string, sizeBytes: nat, checksum: string)

  datatype UploadError = SaveFailed(error: SaveError) | InvalidPayload | DatasourceMissing | ChecksumConflict | DatabaseError

  predicate TextFits(s: string, limit: nat) {
    1 <= |s| <= limit && Strip(s) != ""
  }

  predicate ValidPayload(filename: string, contentType: string, file: StoredFile) {
    && TextFits(filename, 255) && TextFits(file.storedFilename, 255) && TextFits(file.storagePath, 1024)
    && TextFits(contentType, 255) && file.sizeBytes > 0
    && |file.checksum| == 64 && forall i :: 0 <= i < |file.checksum| ==> IsHex(file.checksum[i])
  }

  predicate SameChecksum(row: FileRow, organization: Id, datasource: Id, checksum: string) {
    row.organization == organization && row.datasource == datasource && row.checksum == checksum
  }

  /** Where a call of the route stands: the file is stored; the registration has failed; or the call is over. */
  datatype Call =
    | Holding(organization: Id, datasource: Id, filename: string, contentType: string, file: StoredFile)
    | Compensating(path: string, error: UploadError)
    | Over(result: Result<Id, UploadError>)
    | Gone

  datatype State = State(files: Files, rows: map<Id, FileRow>, datasources: map<Id, Id>, calls: map<Id, Call>)

  /** What the database does to a registration: nothing wrong, an error before its commit, or one behind it. */
  datatype CreateFault = NoFault | BeforeCommit | AfterCommit

  datatype Step =
    | SaveUpload(u: Id, organization: Id, datasource: Id, request: SaveRequest)
    | Register(u: Id, id: Id, fault: CreateFault)
    | Compensate(u: Id, deletes: bool)
    | Interrupt(u: Id)

  function SetCall(st: State, u: Id, c: Call): State {
    st.(calls := st.calls[u := c])
  }

  function DoSave(s: Store, st: State, u: Id, organization: Id, datasource: Id, rq: SaveRequest): State {
    if u in st.calls then st
    else
      var (files, r) := s.save(st.files, rq);
      match r
      case Ok(file) =>
        SetCall(st.(files := files), u, Holding(organization, datasource, rq.filename, rq.contentType, file))
      case Err(e) => SetCall(st.(files := files), u, Over(Err(SaveFailed(e))))
  }

  function RowOf(c: Call): FileRow
    requires c.Holding?
  {
    FileRow(c.organization, c.datasource, Strip(c.filename), Strip(c.contentType),
            Strip(c.file.storagePath), c.file.sizeBytes, c.file.checksum)
  }

  /** Why `create` refuses a registration, if it does. */
  function CreateProblem(rows: map<Id, FileRow>, datasources: map<Id, Id>, c: Call, id: Id, fault: CreateFault): Option<UploadError>
    requires c.Holding?
  {
    if !ValidPayload(c.filename, c.contentType, c.file) then Some(InvalidPayload)
    else if c.datasource !in datasources || datasources[c.datasource] != c.organization then Some(DatasourceMissing)
    else if exists i :: i in rows && SameChecksum(rows[i], c.organization, c.datasource, c.file.checksum) then
      Some(ChecksumConflict)
    else if id in rows || fault == BeforeCommit then Some(DatabaseError)
    else None
  }

  /** Some text of at most this length. */
  ghost predicate SaysSomething(s: string, limit: nat) {
    |s| <= limit && !AllSpace(s)
  }

  /** What the schema of a registration asks of its columns. */
  ghost predicate PayloadAccepted(c: Call)
    requires c.Holding?
  {
    && SaysSomething(c.filename, 255) && SaysSomething(c.contentType, 255)
    && SaysSomething(c.file.storedFilename, 255) && SaysSomething(c.file.storagePath, 1024)
    && c.file.sizeBytes > 0 && |c.file.checksum| == 64
    && forall i :: 0 <= i < 64 ==> '0' <= c.file.checksum[i] <= '9' || 'a' <= c.file.checksum[i] <= 'f'
  }

  lemma PayloadExactly(c: Call)
    requires c.Holding?
    ensures ValidPayload(c.filename, c.contentType, c.file) <==> PayloadAccepted(c)
  {
    StripExactly(c.filename);
    StripExactly(c.contentType);
    StripExactly(c.file.storedFilename);
    StripExactly(c.file.storagePath);
  }

  /**
   * A waiting upload is registered exactly with a valid payload, in a known scope, with a checksum that
   * is new there, under a new id and without a database error; otherwise it is refused with the first
   * of these that fails. The row has the scope of the call, its stripped names, and the path, size and
   * checksum of the stored file.
   */
  lemma RegisteredExactly(rows: map<Id, FileRow>, datasources: map<Id, Id>, c: Call, id: Id, fault: CreateFault)
    requires c.Holding?
    ensures var e := CreateProblem(rows, datasources, c, id, fault);
            var valid := PayloadAccepted(c);
            var scope := c.datasource in datasources && datasources[c.datasource] == c.organization;
            var new_ := forall i :: i in rows && rows[i].organization == c.organization && rows[i].datasource == c.datasource ==>
                          rows[i].checksum != c.file.checksum;
            && (e == Some(InvalidPayload) <==> !valid)
            && (e == Some(DatasourceMissing) <==> valid && !scope)
            && (e == Some(ChecksumConflict) <==> valid && scope && !new_)
            && (e == Some(DatabaseError) <==> valid && scope && new_ && (id in rows || fault == BeforeCommit))
            && (e == None <==> valid && scope && new_ && id !in rows && fault != BeforeCommit)
    ensures var row := RowOf(c);
            && row.organization == c.organization && row.datasource == c.datasource
            && row.originalFilename == Strip(c.filename) && row.contentType == Strip(c.contentType)
            && row.storagePath == Strip(c.file.storagePath)
            && row.sizeBytes == c.file.sizeBytes && row.checksum == c.file.checksum
  {
    PayloadExactly(c);
  }

  function DoRegister(st: State, u: Id, id: Id, fault: CreateFault): State {
    if u !in st.calls || !st.calls[u].Holding? then st
    else
      var c := st.calls[u];
      match CreateProblem(st.rows, st.datasources, c, id, fault)
      case Some(e) => SetCall(st, u, Compensating(c.file.storagePath, e))
      case None =>
        SetCall(st.(rows := st.rows[id := RowOf(c)]), u,
                if fault == AfterCommit then Compensating(c.file.storagePath, DatabaseError) else Over(Ok(id)))
  }

  /** The deletion; whether it succeeds or not, the error of the registration is raised. */
  function DoCompensate(st: State, u: Id, deletes: bool): State {
    if u !in st.calls || !st.calls[u].Compensating? then st
    else
      var c := st.calls[u];
      SetCall(if deletes then st.(files := st.files - {c.path}) else st, u, Over(Err(c.error)))
  }

  function Next(s: Store, st: State, step: Step): State {
    match step
    case SaveUpload(u, organization, datasource, request) => DoSave(s, st, u, organization, datasource, request)
    case Register(u, id, fault) => DoRegister(st, u, id, fault)
    case Compensate(u, deletes) => DoCompensate(st, u, deletes)
    case Interrupt(u) => if u in st.calls then SetCall(st, u, Gone) else st
  }

  function Run(s: Store, st: State, steps: seq<Step>): State {
    if steps == [] then st
    else
      var n := |steps| - 1;
      Next(s, Run(s, st, steps[..n]), steps[n])
  }

  // ---------- Rows and their files ----------

  predicate Pending(c: Call) {
    c.Holding? || c.Compensating?
  }

  function PathOf(c: Call): string
    requires Pending(c)
  {
    if c.Holding? then c.file.storagePath else c.path
  }

  /** The row's file exists and has the row's size and checksum. */
  ghost predicate Pointed(s: Store, files: Files, row: FileRow) {
    && row.storagePath in files
    && |files[row.storagePath]| == row.sizeBytes > 0
    && s.hexdigest(files[row.storagePath]) == row.checksum
  }

  ghost predicate AllPointed(s: Store, st: State) {
    forall id :: id in st.rows ==> Pointed(s, st.files, st.rows[id])
  }

  /** A stored file that waits for its registration is there, as it was stored. */
  ghost predicate Held(s: Store, files: Files, c: Call) {
    c.Holding? ==> RowOf(c).storagePath == c.file.storagePath && Pointed(s, files, RowOf(c))
  }

  ghost predicate AllHeld(s: Store, st: State) {
    forall u :: u in st.calls ==> Held(s, st.files, st.calls[u])
  }

  predicate Referenced(st: State, path: string) {
    exists id :: id in st.rows && st.rows[id].storagePath == path
  }

  /** A row points to this name, or an upload waits for its registration under it. */
  predicate InUse(st: State, name: string) {
    Referenced(st, name) || exists u :: u in st.calls && st.calls[u].Holding? && st.calls[u].file.storagePath == name
  }

  /** Every row has its file, and so has every upload that waits for its registration. */
  ghost predicate Intact(s: Store, st: State) {
    AllPointed(s, st) && AllHeld(s, st)
  }

  /**
   * The step deletes a file that is in use: a save under its name, which cannot be opened and is then
   * removed, or the deletion of a compensation.
   */
  ghost predicate LosesFile(s: Store, st: State, step: Step) {
    match step
    case SaveUpload(u, _, _, rq) => u !in st.calls && s.nameOf(rq).Some? && InUse(st, s.nameOf(rq).value)
    case Compensate(u, deletes) => u in st.calls && st.calls[u].Compensating? && deletes && InUse(st, st.calls[u].path)
    case _ => false
  }

  /** A step leaves every row and every waiting upload its file exactly when it is not such a deletion. */
  lemma IntactKeptExactly(s: Store, st: State, step: Step)
    requires Sound(s) && Intact(s, st)
    ensures Intact(s, Next(s, st, step)) <==> !LosesFile(s, st, step)
  {
    match step
    case SaveUpload(u, organization, datasource, rq) => SaveKeepsIntact(s, st, u, organization, datasource, rq);
    case Register(u, id, fault) => RegisterKeepsIntact(s, st, u, id, fault);
    case Compensate(u, deletes) => CompensateKeepsIntact(s, st, u, deletes);
    case Interrupt(u) =>
  }

  lemma SaveKeepsIntact(s: Store, st: State, u: Id, organization: Id, datasource: Id, rq: SaveRequest)
    requires Sound(s) && Intact(s, st)
    ensures Intact(s, DoSave(s, st, u, organization, datasource, rq))
            <==> !LosesFile(s, st, SaveUpload(u, organization, datasource, rq))
  {
    var (files, r) := s.save(st.files, rq);
    assert SaveEffect(s, st.files, rq, files, r);
    if u !in st.calls && s.nameOf(rq).Some? {
      var name := s.nameOf(rq).value;
      OtherFiles(st.files, files, name);
      if InUse(st, name) {
        UsedNameIsStored(s, st, name);
        assert name !in files;
        LostWithout(s, st, DoSave(s, st, u, organization, datasource, rq), name);
      } else {
        if r.Ok? { PyText.StripTrims(r.value.storagePath); }
        StillIntact(s, st, files, name);
      }
    }
  }

  /** A name in use is the name of a stored file. */
  lemma UsedNameIsStored(s: Store, st: State, name: string)
    requires Intact(s, st) && InUse(st, name)
    ensures name in st.files
  {
    if Referenced(st, name) {
      var id :| id in st.rows && st.rows[id].storagePath == name;
      assert Pointed(s, st.files, st.rows[id]);
    } else {
      var u :| u in st.calls && st.calls[u].Holding? && st.calls[u].file.storagePath == name;
      assert Held(s, st.files, st.calls[u]);
    }
  }

  /** Without a file whose name was in use, the state is no longer intact. */
  lemma LostWithout(s: Store, st: State, after: State, name: string)
    requires InUse(st, name) && name !in after.files && after.rows == st.rows
    requires forall u :: u in st.calls && st.calls[u].Holding? ==> u in after.calls && after.calls[u] == st.calls[u]
    ensures !Intact(s, after)
  {
    if Referenced(st, name) {
      var id :| id in st.rows && st.rows[id].storagePath == name;
      assert !Pointed(s, after.files, after.rows[id]);
    } else {
      var u :| u in st.calls && st.calls[u].Holding? && st.calls[u].file.storagePath == name;
      assert !Held(s, after.files, after.calls[u]);
    }
  }

  /** Changing a file that is not in use leaves the others as they are. */
  lemma StillIntact(s: Store, st: State, files: Files, name: string)
    requires Intact(s, st) && !InUse(st, name)
    requires forall n :: n != name ==> (n in st.files <==> n in files) && (n in st.files ==> st.files[n] == files[n])
    ensures Intact(s, st.(files := files))
  {
    forall id | id in st.rows ensures Pointed(s, files, st.rows[id]) { assert Pointed(s, st.files, st.rows[id]); }
    forall u | u in st.calls ensures Held(s, files, st.calls[u]) { assert Held(s, st.files, st.calls[u]); }
  }

  lemma RegisterKeepsIntact(s: Store, st: State, u: Id, id: Id, fault: CreateFault)
    requires Intact(s, st)
    ensures Intact(s, DoRegister(st, u, id, fault))
  {
    if u in st.calls { assert Held(s, st.files, st.calls[u]); }
  }

  lemma CompensateKeepsIntact(s: Store, st: State, u: Id, deletes: bool)
    requires Intact(s, st)
    ensures Intact(s, DoCompensate(st, u, deletes)) <==> !LosesFile(s, st, Compensate(u, deletes))
  {
    if u in st.calls && st.calls[u].Compensating? && deletes {
      var path := st.calls[u].path;
      if InUse(st, path) {
        LostWithout(s, st, DoCompensate(st, u, deletes), path);
      } else {
        StillIntact(s, st, st.files - {path}, path);
      }
    }
  }

  lemma OtherFiles(files: Files, after: Files, name: string)
    requires after - {name} == files - {name}
    ensures forall n :: n != name ==> (n in files <==> n in after) && (n in files ==> files[n] == after[n])
  {
    forall n | n != name ensures (n in files <==> n in after) && (n in files ==> files[n] == after[n]) {
      assert n in files <==> n in files - {name};
      assert n in after <==> n in after - {name};
      if n in files { assert (files - {name})[n] == files[n] && (after - {name})[n] == after[n]; }
    }
  }

  ghost predicate IntactThroughout(s: Store, st: State, steps: seq<Step>) {
    forall k :: 0 <= k <= |steps| ==> Intact(s, Run(s, st, steps[..k]))
  }

  ghost predicate NeverLoses(s: Store, st: State, steps: seq<Step>) {
    forall k :: 0 <= k < |steps| ==> !LosesFile(s, Run(s, st, steps[..k]), steps[k])
  }

  lemma StepOfRun(s: Store, st: State, steps: seq<Step>, k: nat)
    requires k < |steps|
    ensures Run(s, st, steps[..k + 1]) == Next(s, Run(s, st, steps[..k]), steps[k])
  {
    assert steps[..k + 1][..k] == steps[..k];
  }

  lemma {:induction false} IntactSoFar(s: Store, st: State, steps: seq<Step>, k: nat)
    requires Sound(s) && Initial(st) && k <= |steps| && NeverLoses(s, st, steps)
    ensures Intact(s, Run(s, st, steps[..k]))
  {
    if k > 0 {
      IntactSoFar(s, st, steps, k - 1);
      StepOfRun(s, st, steps, k - 1);
      IntactKeptExactly(s, Run(s, st, steps[..k - 1]), steps[k - 1]);
    }
  }

  /**
   * All through a run, from the empty directory on, every row and every waiting upload has its file, if
   * and only if no step deletes a file that is in use.
   */
  lemma FilesKeptExactly(s: Store, st: State, steps: seq<Step>)
    requires Sound(s) && Initial(st)
    ensures IntactThroughout(s, st, steps) <==> NeverLoses(s, st, steps)
  {
    if NeverLoses(s, st, steps) {
      forall k | 0 <= k <= |steps| ensures Intact(s, Run(s, st, steps[..k])) { IntactSoFar(s, st, steps, k); }
    }
    if IntactThroughout(s, st, steps) {
      forall k | 0 <= k < |steps| ensures !LosesFile(s, Run(s, st, steps[..k]), steps[k]) {
        assert Intact(s, Run(s, st, steps[..k])) && Intact(s, Run(s, st, steps[..k + 1]));
        StepOfRun(s, st, steps, k);
        IntactKeptExactly(s, Run(s, st, steps[..k]), steps[k]);
      }
    }
  }

  // ---------- Whole runs ----------

  /** The files of pending calls are there, and nobody else's. */
  ghost predicate PendingApart(st: State) {
    && (forall u :: u in st.calls && Pending(st.calls[u]) ==>
          PathOf(st.calls[u]) in st.files && !Referenced(st, PathOf(st.calls[u])))
    && (forall u, v :: u in st.calls && v in st.calls && u != v && Pending(st.calls[u]) && Pending(st.calls[v]) ==>
          PathOf(st.calls[u]) != PathOf(st.calls[v]))
  }

  ghost predicate RowsApart(st: State) {
    forall i, j :: i in st.rows && j in st.rows && i != j ==>
      && st.rows[i].storagePath != st.rows[j].storagePath
      && !SameChecksum(st.rows[i], st.rows[j].organization, st.rows[j].datasource, st.rows[j].checksum)
  }

  ghost predicate Inv(s: Store, st: State) {
    AllPointed(s, st) && AllHeld(s, st) && PendingApart(st) && RowsApart(st)
  }

  /** Random names are new, and a registration that raises has not been committed. */
  ghost predicate Safe(s: Store, st: State, step: Step) {
    match step
    case SaveUpload(_, _, _, rq) => s.nameOf(rq).Some? ==> s.nameOf(rq).value !in st.files
    case Register(_, _, fault) => fault != AfterCommit
    case _ => true
  }

  lemma SaveKeepsApart(s: Store, st: State, u: Id, organization: Id, datasource: Id, rq: SaveRequest)
    requires Sound(s) && AllPointed(s, st) && PendingApart(st) && Safe(s, st, SaveUpload(u, organization, datasource, rq))
    ensures PendingApart(DoSave(s, st, u, organization, datasource, rq))
  {
    var (files, r) := s.save(st.files, rq);
    assert SaveEffect(s, st.files, rq, files, r);
    if s.nameOf(rq).Some? { OtherFiles(st.files, files, s.nameOf(rq).value); }
    assert forall id :: id in st.rows ==> st.rows[id].storagePath in st.files;
  }

  lemma SaveKeeps(s: Store, st: State, u: Id, organization: Id, datasource: Id, rq: SaveRequest)
    requires Sound(s) && Inv(s, st) && Safe(s, st, SaveUpload(u, organization, datasource, rq))
    ensures Inv(s, DoSave(s, st, u, organization, datasource, rq))
  {
    if s.nameOf(rq).Some? && InUse(st, s.nameOf(rq).value) { UsedNameIsStored(s, st, s.nameOf(rq).value); }
    SaveKeepsIntact(s, st, u, organization, datasource, rq);
    SaveKeepsApart(s, st, u, organization, datasource, rq);
  }

  lemma RegisterKeepsApart(s: Store, st: State, u: Id, id: Id, fault: CreateFault)
    requires AllHeld(s, st) && PendingApart(st) && RowsApart(st) && fault != AfterCommit
    ensures PendingApart(DoRegister(st, u, id, fault)) && RowsApart(DoRegister(st, u, id, fault))
  {
    if u in st.calls && st.calls[u].Holding? {
      assert Held(s, st.files, st.calls[u]);
    }
  }

  lemma RegisterKeeps(s: Store, st: State, u: Id, id: Id, fault: CreateFault)
    requires Inv(s, st) && fault != AfterCommit
    ensures Inv(s, DoRegister(st, u, id, fault))
  {
    RegisterKeepsApart(s, st, u, id, fault);
  }

  lemma CompensateKeeps(s: Store, st: State, u: Id, deletes: bool)
    requires Inv(s, st)
    ensures Inv(s, DoCompensate(st, u, deletes))
  {
    CompensateKeepsIntact(s, st, u, deletes);
  }

  lemma StepKeeps(s: Store, st: State, step: Step)
    requires Sound(s) && Inv(s, st) && Safe(s, st, step)
    ensures Inv(s, Next(s, st, step))
  {
    match step
    case SaveUpload(u, organization, datasource, rq) => SaveKeeps(s, st, u, organization, datasource, rq);
    case Register(u, id, fault) => RegisterKeeps(s, st, u, id, fault);
    case Compensate(u, deletes) => CompensateKeeps(s, st, u, deletes);
    case Interrupt(u) =>
  }

  /** No rows, no files, no calls yet. */
  ghost predicate Initial(st: State) {
    st.files == map[] && st.rows == map[] && st.calls == map[]
  }

  ghost predicate SafeRun(s: Store, st: State, steps: seq<Step>) {
    forall k :: 0 <= k < |steps| ==> Safe(s, Run(s, st, steps[..k]), steps[k])
  }

  lemma {:induction false} RunKeeps(s: Store, st: State, steps: seq<Step>)
    requires Sound(s) && Initial(st) && SafeRun(s, st, steps)
    ensures Inv(s, Run(s, st, steps))
  {
    if steps != [] {
      var n := |steps| - 1;
      assert forall k :: 0 <= k < n ==> steps[..n][..k] == steps[..k];
      RunKeeps(s, st, steps[..n]);
      assert Safe(s, Run(s, st, steps[..n]), steps[n]);
      StepKeeps(s, Run(s, st, steps[..n]), steps[n]);
    }
  }

  /**
   * Whatever else goes wrong, failing saves, refused or failing registrations, failing deletions or
   * interrupted calls: every row points to a file of its own with its size and checksum, and no
   * datasource has two rows with one checksum.
   */
  lemma RowsHaveTheirFiles(s: Store, st: State, steps: seq<Step>)
    requires Sound(s) && Initial(st) && SafeRun(s, st, steps)
    ensures var end := Run(s, st, steps);
            && (forall id :: id in end.rows ==> Pointed(s, end.files, end.rows[id]))
            && (forall i, j :: i in end.rows && j in end.rows && i != j ==>
                 && end.rows[i].storagePath != end.rows[j].storagePath
                 && (end.rows[i].organization, end.rows[i].datasource, end.rows[i].checksum)
                    != (end.rows[j].organization, end.rows[j].datasource, end.rows[j].checksum))
  {
    RunKeeps(s, st, steps);
  }

  // ---------- One file for one row ----------

  /** A safe step in which no call is cut short, no exception escapes the save, and deletions succeed. */
  ghost predicate Clean(s: Store, st: State, step: Step) {
    && Safe(s, st, step)
    && match step
       case SaveUpload(_, _, _, rq) => s.save(st.files, rq).1 != Err(Uncaught)
       case Compensate(_, deletes) => deletes
       case Interrupt(_) => false
       case _ => true
  }

  ghost predicate CleanRun(s: Store, st: State, steps: seq<Step>) {
    forall k :: 0 <= k < |steps| ==> Clean(s, Run(s, st, steps[..k]), steps[k])
  }

  predicate Awaited(st: State, path: string) {
    exists u :: u in st.calls && Pending(st.calls[u]) && PathOf(st.calls[u]) == path
  }

  /** Every stored file is that of a row or of a call at work. */
  ghost predicate Accounted(st: State) {
    forall name :: name in st.files ==> Referenced(st, name) || Awaited(st, name)
  }

  lemma CleanStepAccounts(s: Store, st: State, step: Step)
    requires Sound(s) && Inv(s, st) && Accounted(st) && Clean(s, st, step)
    ensures Accounted(Next(s, st, step))
  {
    match step
    case SaveUpload(u, organization, datasource, rq) => SaveAccounts(s, st, u, organization, datasource, rq);
    case Register(u, id, fault) => RegisterAccounts(s, st, u, id, fault);
    case Compensate(u, deletes) => CompensateAccounts(st, u);
  }

  lemma SaveAccounts(s: Store, st: State, u: Id, organization: Id, datasource: Id, rq: SaveRequest)
    requires Sound(s) && Accounted(st) && Clean(s, st, SaveUpload(u, organization, datasource, rq))
    ensures Accounted(DoSave(s, st, u, organization, datasource, rq))
  {
    var after := DoSave(s, st, u, organization, datasource, rq);
    var (files, r) := s.save(st.files, rq);
    assert SaveEffect(s, st.files, rq, files, r);
    if u !in st.calls {
      forall name | name in after.files ensures Referenced(after, name) || Awaited(after, name) {
        if name in st.files {
          StillReferenced(st, after, u, name);
        } else {
          OtherFiles(st.files, files, s.nameOf(rq).value);
          assert PathOf(after.calls[u]) == name;
        }
      }
    }
  }

  /** Steps of a call that was not pending keep what the others account for. */
  lemma StillReferenced(st: State, after: State, u: Id, name: string)
    requires after.rows == st.rows && u !in st.calls && u in after.calls && after.calls == st.calls[u := after.calls[u]]
    ensures Referenced(st, name) ==> Referenced(after, name)
    ensures Awaited(st, name) ==> Awaited(after, name)
  {
    if Awaited(st, name) {
      var v :| v in st.calls && Pending(st.calls[v]) && PathOf(st.calls[v]) == name;
      assert after.calls[v] == st.calls[v];
    }
  }

  lemma RegisterAccounts(s: Store, st: State, u: Id, id: Id, fault: CreateFault)
    requires Inv(s, st) && Accounted(st) && fault != AfterCommit
    ensures Accounted(DoRegister(st, u, id, fault))
  {
    var after := DoRegister(st, u, id, fault);
    forall name | name in after.files ensures Referenced(after, name) || Awaited(after, name) {
      if Referenced(st, name) {
        var i :| i in st.rows && st.rows[i].storagePath == name;
        assert i in after.rows && after.rows[i] == st.rows[i];
      } else {
        RegisterAwaits(s, st, u, id, fault, name);
      }
    }
  }

  lemma RegisterAwaits(s: Store, st: State, u: Id, id: Id, fault: CreateFault, name: string)
    requires Inv(s, st) && Awaited(st, name) && fault != AfterCommit
    ensures var after := DoRegister(st, u, id, fault); Referenced(after, name) || Awaited(after, name)
  {
    var after := DoRegister(st, u, id, fault);
    var v :| v in st.calls && Pending(st.calls[v]) && PathOf(st.calls[v]) == name;
    if v != u {
      assert after.calls[v] == st.calls[v];
    } else if st.calls[u].Holding? {
      assert Held(s, st.files, st.calls[u]);
      if CreateProblem(st.rows, st.datasources, st.calls[u], id, fault).None? {
        assert after.rows[id].storagePath == name;
      } else {
        assert PathOf(after.calls[u]) == name;
      }
    }
  }

  lemma CompensateAccounts(st: State, u: Id)
    requires Accounted(st)
    ensures Accounted(DoCompensate(st, u, true))
  {
    var after := DoCompensate(st, u, true);
    if u in st.calls && st.calls[u].Compensating? {
      forall name | name in after.files ensures Referenced(after, name) || Awaited(after, name) {
        if !Referenced(st, name) {
          var v :| v in st.calls && Pending(st.calls[v]) && PathOf(st.calls[v]) == name;
          assert after.calls[v] == st.calls[v];
        } else {
          var i :| i in st.rows && st.rows[i].storagePath == name;
          assert i in after.rows;
        }
      }
    }
  }

  lemma {:induction false} CleanRunAccounts(s: Store, st: State, steps: seq<Step>)
    requires Sound(s) && Initial(st) && CleanRun(s, st, steps)
    ensures Inv(s, Run(s, st, steps)) && Accounted(Run(s, st, steps))
  {
    if steps != [] {
      var n := |steps| - 1;
      assert forall k :: 0 <= k < n ==> steps[..n][..k] == steps[..k];
      CleanRunAccounts(s, st, steps[..n]);
      assert Clean(s, Run(s, st, steps[..n]), steps[n]);
      StepKeeps(s, Run(s, st, steps[..n]), steps[n]);
      CleanStepAccounts(s, Run(s, st, steps[..n]), steps[n]);
    }
  }

  /**
   * After a clean run in which every call is over, stored files and rows correspond one to one: each
   * file has exactly one row, and each row its own file.
   */
  lemma FilesAndRowsCorrespond(s: Store, st: State, steps: seq<Step>)
    requires Sound(s) && Initial(st) && CleanRun(s, st, steps)
    requires forall u :: u in Run(s, st, steps).calls ==> !Pending(Run(s, st, steps).calls[u])
    ensures var end := Run(s, st, steps);
            && (forall name :: name in end.files <==> Referenced(end, name))
            && (forall i, j :: i in end.rows && j in end.rows && i != j ==> end.rows[i].storagePath != end.rows[j].storagePath)
  {
    CleanRunAccounts(s, st, steps);
    var end := Run(s, st, steps);
    forall name ensures name in end.files <==> Referenced(end, name) {
      if Referenced(end, name) {
        var i :| i in end.rows && end.rows[i].storagePath == name;
        assert Pointed(s, end.files, end.rows[i]);
      }
    }
  }

  // ---------- Where the compensation goes wrong ----------

  /**
   * When the commit of a registration went through but `create` raises behind it, the deletion that
   * follows takes the file away from a row that stays: for every upload that gets that far.
   */
  lemma RefreshFailureLosesFile(s: Store, st: State, u: Id, id: Id)
    requires Inv(s, st) && u in st.calls && st.calls[u].Holding?
    requires CreateProblem(st.rows, st.datasources, st.calls[u], id, AfterCommit).None?
    ensures var end := Run(s, st, [Register(u, id, AfterCommit), Compensate(u, true)]);
            && id in end.rows && end.rows[id].storagePath !in end.files
            && u in end.calls && end.calls[u] == Over(Err(DatabaseError))
  {
    var steps := [Register(u, id, AfterCommit), Compensate(u, true)];
    assert steps[..1] == [Register(u, id, AfterCommit)] && steps[..1][..0] == [];
    assert Run(s, st, steps[..1][..0]) == st;
    assert Run(s, st, steps[..1]) == DoRegister(st, u, id, AfterCommit);
    assert Held(s, st.files, st.calls[u]);
  }

  // ---------- The store of the service ----------

  function NameOf(rq: SaveRequest): Option<string> {
    match ValidateUpload(rq.filename, rq.contentType)
    case Ok(extension) => Some(rq.uuid + extension)
    case Err(_) => None
  }

  function SaveIn(max: nat, hexdigest: seq<Byte> -> string, files: Files, rq: SaveRequest): (Files, Result<StoredFile, SaveError>) {
    Saved(max, hexdigest, files, rq.filename, rq.contentType, rq.uuid, rq.chunks, rq.opens, rq.closes)
  }

  function StoreOf(max: nat, hexdigest: seq<Byte> -> string): Store {
    Store(hexdigest, rq => NameOf(rq), (files, rq) => SaveIn(max, hexdigest, files, rq))
  }

  /** What uploads rely on, the local file storage provides, whatever chunks it is given. */
  lemma LocalStoreIsSound(max: nat, hexdigest: seq<Byte> -> string)
    ensures Sound(StoreOf(max, hexdigest))
  {
    var s := StoreOf(max, hexdigest);
    forall files, rq ensures SaveEffect(s, files, rq, s.save(files, rq).0, s.save(files, rq).1) {
      LocalSave(max, hexdigest, files, rq);
    }
  }

  lemma LocalSave(max: nat, hexdigest: seq<Byte> -> string, files: Files, rq: SaveRequest)
    ensures SaveEffect(StoreOf(max, hexdigest), files, rq, SaveIn(max, hexdigest, files, rq).0, SaveIn(max, hexdigest, files, rq).1)
  {
    match SaveIn(max, hexdigest, files, rq).1
    case Ok(file) => SuccessfulSave(max, hexdigest, files, rq);
    case Err(e) => FailedSave(max, hexdigest, files, rq);
  }

  lemma SuccessfulSave(max: nat, hexdigest: seq<Byte> -> string, files: Files, rq: SaveRequest)
    requires SaveIn(max, hexdigest, files, rq).1.Ok?
    ensures var (after, r) := SaveIn(max, hexdigest, files, rq);
            && NameOf(rq) == Some(r.value.storagePath) && Trimmed(r.value.storagePath) && r.value.storagePath !in files
            && r.value.storagePath in after && after - {r.value.storagePath} == files
            && |after[r.value.storagePath]| == r.value.sizeBytes > 0
            && hexdigest(after[r.value.storagePath]) == r.value.checksum
  {
    SaveSucceedsExactly(max, hexdigest, files, rq.filename, rq.contentType, rq.uuid, rq.chunks, rq.opens, rq.closes);
    NameIsTrimmed(rq);
    RemovingNew(files, NameOf(rq).value, Content(rq.chunks));
  }

  lemma FailedSave(max: nat, hexdigest: seq<Byte> -> string, files: Files, rq: SaveRequest)
    requires SaveIn(max, hexdigest, files, rq).1.Err?
    ensures var (after, r) := SaveIn(max, hexdigest, files, rq);
            match NameOf(rq)
            case None => after == files
            case Some(name) =>
              if r.error == Uncaught then name !in files && name in after && after - {name} == files else after == files - {name}
  {
    FailedSaveExactly(max, hexdigest, files, rq.filename, rq.contentType, rq.uuid, rq.chunks, rq.opens, rq.closes);
    if NameOf(rq).Some? { RemovingNew(files, NameOf(rq).value, []); }
  }

  lemma NameIsTrimmed(rq: SaveRequest)
    requires NameOf(rq).Some?
    ensures Trimmed(NameOf(rq).value)
  {
    var extension := ValidateUpload(rq.filename, rq.contentType).value;
    ExtensionEnds(rq.filename, rq.contentType);
    var name := rq.uuid + extension;
    assert name[0] == rq.uuid[0] && IsHex(rq.uuid[0]);
    assert name[|name| - 1] == extension[|extension| - 1];
  }
}
