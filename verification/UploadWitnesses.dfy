/** Concrete runs of uploads in which a row ends up without its file. */
module UploadWitnesses {
  import opened Wrappers
  import opened PyText
  import opened RowFingerprint
  import opened Storage
  import opened Uploads

  /** Whenever its name is free the upload is stored, and its payload is accepted. */
  ghost predicate Usable(s: Store, rq: SaveRequest) {
    && Sound(s) && s.nameOf(rq).Some?
    && forall files :: s.nameOf(rq).value !in files ==>
         s.save(files, rq).1.Ok? && ValidPayload(rq.filename, rq.contentType, s.save(files, rq).1.value)
  }

  /** An empty directory, an empty table, and one datasource. */
  function Begin(): State {
    State(map[], map[], map[1 := 1], map[])
  }

  function SaveStep(u: Id, rq: SaveRequest): Step {
    SaveUpload(u, 1, 1, rq)
  }

  ghost predicate Dangling(st: State, id: Id) {
    id in st.rows && st.rows[id].storagePath !in st.files
  }

  /** The call waits for the registration of a payload that will be accepted. */
  ghost predicate Waiting(st: State, u: Id, name: string) {
    && u in st.calls && st.calls[u].Holding? && st.calls[u].organization == 1 && st.calls[u].datasource == 1
    && ValidPayload(st.calls[u].filename, st.calls[u].contentType, st.calls[u].file)
    && st.calls[u].file.storagePath == name == Strip(name)
  }

  /** A save under a free name. */
  lemma Saves(s: Store, rq: SaveRequest, st: State, u: Id)
    requires Usable(s, rq) && u !in st.calls && s.nameOf(rq).value !in st.files
    ensures var name, after := s.nameOf(rq).value, Next(s, st, SaveStep(u, rq));
            && name in after.files && Waiting(after, u, name)
            && after == st.(files := after.files, calls := st.calls[u := after.calls[u]])
  {
    var (files, r) := s.save(st.files, rq);
    assert SaveEffect(s, st.files, rq, files, r);
    StripTrims(r.value.storagePath);
  }

  /** A save under a taken name removes the file that has it. */
  lemma TakenNameIsRemoved(s: Store, rq: SaveRequest, st: State, u: Id)
    requires Usable(s, rq) && u !in st.calls && s.nameOf(rq).value in st.files
    ensures var name, after := s.nameOf(rq).value, Next(s, st, SaveStep(u, rq));
            && name !in after.files && u in after.calls && after.calls[u].Over?
            && after == st.(files := after.files, calls := st.calls[u := after.calls[u]])
  {
    var (files, r) := s.save(st.files, rq);
    assert SaveEffect(s, st.files, rq, files, r);
  }

  /** A registration into an empty table. */
  lemma Registers(s: Store, st: State, u: Id, id: Id, fault: CreateFault, name: string)
    requires Waiting(st, u, name) && st.rows == map[] && st.datasources == map[1 := 1]
    ensures var after := Next(s, st, Register(u, id, fault));
            && after.files == st.files && after.datasources == st.datasources && u in after.calls
            && after.calls == st.calls[u := after.calls[u]]
            && (fault != NoFault ==> after.calls[u] == Compensating(name, DatabaseError))
            && (fault == BeforeCommit ==> after.rows == map[])
            && (fault != BeforeCommit ==> id in after.rows && after.rows[id].storagePath == name)
  {
    assert CreateProblem(st.rows, st.datasources, st.calls[u], id, fault).Some? <==> fault == BeforeCommit;
  }

  lemma RunThree(s: Store, st: State, a: Step, b: Step, c: Step)
    ensures Run(s, st, [a, b, c]) == Next(s, Next(s, Next(s, st, a), b), c)
  {
    assert [a, b, c][..2] == [a, b] && [a, b][..1] == [a] && [a][..0] == [];
    assert Run(s, st, [a]) == Next(s, st, a);
    assert Run(s, st, [a, b]) == Next(s, Run(s, st, [a]), b);
  }

  lemma {:induction false} RunConcat(s: Store, st: State, a: seq<Step>, b: seq<Step>)
    ensures Run(s, st, a + b) == Run(s, Run(s, st, a), b)
  {
    if b == [] {
      assert a + b == a;
    } else {
      var n := |b| - 1;
      assert (a + b)[..|a| + n] == a + b[..n];
      RunConcat(s, st, a, b[..n]);
    }
  }

  /** A later upload draws the name of a registered file. */
  lemma RowLosesFileToSave(s: Store, rq: SaveRequest)
    requires Usable(s, rq)
    ensures Initial(Begin()) && Dangling(Run(s, Begin(), [SaveStep(1, rq), Register(1, 5, NoFault), SaveStep(2, rq)]), 5)
  {
    var name := s.nameOf(rq).value;
    var saved := Next(s, Begin(), SaveStep(1, rq));
    Saves(s, rq, Begin(), 1);
    Registers(s, saved, 1, 5, NoFault, name);
    var registered := Next(s, saved, Register(1, 5, NoFault));
    TakenNameIsRemoved(s, rq, registered, 2);
    RunThree(s, Begin(), SaveStep(1, rq), Register(1, 5, NoFault), SaveStep(2, rq));
  }

  /** A later upload draws the name of a file that is about to be registered. */
  lemma WaitingUploadLosesFile(s: Store, rq: SaveRequest)
    requires Usable(s, rq)
    ensures Initial(Begin()) && Dangling(Run(s, Begin(), [SaveStep(1, rq), SaveStep(2, rq), Register(1, 5, NoFault)]), 5)
  {
    var name := s.nameOf(rq).value;
    var saved := Next(s, Begin(), SaveStep(1, rq));
    Saves(s, rq, Begin(), 1);
    var removed := Next(s, saved, SaveStep(2, rq));
    TakenNameIsRemoved(s, rq, saved, 2);
    assert removed.calls[1] == saved.calls[1];
    Registers(s, removed, 1, 5, NoFault, name);
    RunThree(s, Begin(), SaveStep(1, rq), SaveStep(2, rq), Register(1, 5, NoFault));
  }

  /** The registration raises behind its commit, and the compensation succeeds. */
  lemma RowLosesFileToCompensation(s: Store, rq: SaveRequest)
    requires Usable(s, rq)
    ensures Initial(Begin()) && Dangling(Run(s, Begin(), [SaveStep(1, rq), Register(1, 5, AfterCommit), Compensate(1, true)]), 5)
  {
    var name := s.nameOf(rq).value;
    Saves(s, rq, Begin(), 1);
    Registers(s, Next(s, Begin(), SaveStep(1, rq)), 1, 5, AfterCommit, name);
    RunThree(s, Begin(), SaveStep(1, rq), Register(1, 5, AfterCommit), Compensate(1, true));
  }

  /**
   * While a failed registration waits for its compensation, a second upload that draws its name removes
   * the file and a third one stores its own there; the compensation then deletes that.
   */
  lemma WaitingUploadLosesFileToCompensation(s: Store, rq: SaveRequest)
    requires Usable(s, rq)
    ensures Initial(Begin())
    ensures Dangling(Run(s, Begin(), [SaveStep(1, rq), Register(1, 5, BeforeCommit), SaveStep(2, rq)]
                                     + [SaveStep(3, rq), Compensate(1, true), Register(3, 6, NoFault)]), 6)
  {
    var name := s.nameOf(rq).value;
    var saved := Next(s, Begin(), SaveStep(1, rq));
    Saves(s, rq, Begin(), 1);
    var failed := Next(s, saved, Register(1, 5, BeforeCommit));
    Registers(s, saved, 1, 5, BeforeCommit, name);
    var removed := Next(s, failed, SaveStep(2, rq));
    TakenNameIsRemoved(s, rq, failed, 2);
    assert removed.calls[1] == Compensating(name, DatabaseError);
    RunThree(s, Begin(), SaveStep(1, rq), Register(1, 5, BeforeCommit), SaveStep(2, rq));
    DeletedByAnother(s, rq, removed, name);
    RunConcat(s, Begin(), [SaveStep(1, rq), Register(1, 5, BeforeCommit), SaveStep(2, rq)],
              [SaveStep(3, rq), Compensate(1, true), Register(3, 6, NoFault)]);
  }

  lemma DeletedByAnother(s: Store, rq: SaveRequest, st: State, name: string)
    requires Usable(s, rq) && name == s.nameOf(rq).value && name !in st.files
    requires st.rows == map[] && st.datasources == map[1 := 1] && 3 !in st.calls
    requires 1 in st.calls && st.calls[1] == Compensating(name, DatabaseError)
    ensures Dangling(Run(s, st, [SaveStep(3, rq), Compensate(1, true), Register(3, 6, NoFault)]), 6)
  {
    var saved := Next(s, st, SaveStep(3, rq));
    Saves(s, rq, st, 3);
    assert saved.calls[1] == st.calls[1];
    var deleted := Next(s, saved, Compensate(1, true));
    assert deleted.calls[3] == saved.calls[3];
    Registers(s, deleted, 3, 6, NoFault, name);
    RunThree(s, st, SaveStep(3, rq), Compensate(1, true), Register(3, 6, NoFault));
  }

  // ---------- A store and an upload that are usable ----------

  function ZeroDigest(): seq<Byte> -> string {
    (bytes: seq<Byte>) => seq(64, _ => '0')
  }

  function ZeroName(): Uuid {
    seq(32, _ => '0')
  }

  function SmallUpload(): SaveRequest {
    SaveRequest("a.csv", "text/csv", ZeroName(), [Data([0])], true, true)
  }

  lemma SuffixOfCsv()
    ensures Suffix("a.csv") == CSV
  {
    var name := "a.csv";
    assert name[..4] == "a.cs" && name[..4][..3] == "a.c" && name[..4][..3][..2] == "a.";
    assert LastDot("a.") == Some(1) && LastDot("a.c") == Some(1) && LastDot("a.cs") == Some(1);
    assert LastDot(name) == Some(1);
  }

  lemma SmallUploadIsValid()
    ensures ValidateUpload("a.csv", "text/csv") == Ok(CSV)
  {
    SuffixOfCsv();
    assert Strip("a.csv") == "a.csv" by { StripTrims("a.csv"); }
    assert LowerAll(CSV) == CSV;
    assert ContentTypes(CSV) == {"text/csv", "application/csv", "application/octet-stream"};
  }

  lemma SmallUploadIsStored(max: nat, files: Files)
    requires max >= 1 && NameOf(SmallUpload()).Some? && NameOf(SmallUpload()).value !in files
    ensures SaveIn(max, ZeroDigest(), files, SmallUpload()).1.Ok?
    ensures var file := SaveIn(max, ZeroDigest(), files, SmallUpload()).1.value;
            && file.storedFilename == file.storagePath == NameOf(SmallUpload()).value
            && file.sizeBytes == 1 && file.checksum == seq(64, _ => '0')
  {
    var rq := SmallUpload();
    assert Content(rq.chunks) == [0] by { assert rq.chunks[1..] == []; }
    SaveSucceedsExactly(max, ZeroDigest(), files, rq.filename, rq.contentType, rq.uuid, rq.chunks, true, true);
  }

  lemma SmallPayloadIsValid(file: StoredFile)
    requires file.storedFilename == file.storagePath && 1 <= |file.storagePath| <= 255 && Trimmed(file.storagePath)
    requires file.sizeBytes == 1 && file.checksum == seq(64, _ => '0')
    ensures ValidPayload("a.csv", "text/csv", file)
  {
    StripTrims(file.storagePath);
    StripTrims("a.csv");
    StripTrims("text/csv");
  }

  /** The local storage with any limit, and a file of one byte. */
  lemma SmallUploadIsUsable(max: nat)
    requires max >= 1
    ensures Usable(StoreOf(max, ZeroDigest()), SmallUpload())
  {
    LocalStoreIsSound(max, ZeroDigest());
    SmallUploadIsValid();
    var s, rq := StoreOf(max, ZeroDigest()), SmallUpload();
    forall files | s.nameOf(rq).value !in files
      ensures s.save(files, rq).1.Ok? && ValidPayload(rq.filename, rq.contentType, s.save(files, rq).1.value)
    {
      SmallUploadIsStored(max, files);
      NameIsTrimmed(rq);
      SmallPayloadIsValid(s.save(files, rq).1.value);
    }
  }
}
