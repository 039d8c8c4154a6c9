/** The local file store of uploads: a directory as a map from names to contents. */
module Storage {
  import opened Wrappers
  import opened PyText
  import opened RowFingerprint

  type Files = map<string, seq<Byte>>

  /**
   * What the iterator of chunks does next: yield bytes, yield bytes the disk refuses to write, yield
   * something else, fail with an OSError, or fail with any other exception.
   */
  datatype Chunk = Data(bytes: seq<Byte>) | Refused(bytes: seq<Byte>) | NotBytes | ReadFails | Interrupted

  datatype SaveError =
    | UnsafeStoragePath
    | UnsupportedFileExtension
    | UnsupportedContentType
    | ContentTypeMismatch
    | EmptyUpload
    | UploadTooLarge
    | StorageWrite
    | Uncaught

  datatype StoredFile = StoredFile(storedFilename: string, storagePath: string, sizeBytes: nat, checksum: string)

  // ---------- Names and content types ----------

  function Lower(c: char): char {
    if 'A' <= c <= 'Z' then (c as int + 32) as char else c
  }

  function LowerAll(s: string): string {
    seq(|s|, i requires 0 <= i < |s| => Lower(s[i]))
  }

  /** The position of the last dot, if there is one. */
  function LastDot(name: string): (i: Option<nat>)
    ensures i.Some? ==> i.value < |name| && name[i.value] == '.' && '.' !in name[i.value + 1..]
    ensures i.None? ==> '.' !in name
  {
    if name == [] then None
    else if name[|name| - 1] == '.' then Some(|name| - 1)
    else
      assert name == name[..|name| - 1] + [name[|name| - 1]];
      LastDot(name[..|name| - 1])
  }

  /** The suffix of a file name: from its last dot on, unless the dot is its first or last character. */
  function Suffix(name: string): string {
    var dot := LastDot(name);
    if dot.None? || dot.value == 0 || dot.value == |name| - 1 then "" else name[dot.value..]
  }

  const CSV := ".csv"
  const XLSX := ".xlsx"

  function ContentTypes(extension: string): set<string> {
    if extension == CSV then {"text/csv", "application/csv", "application/octet-stream"}
    else if extension == XLSX then
      {"application/vnd.ms-excel", "application/vnd.openxmlformats-officedocument.spreadsheetml.sheet", "application/octet-stream"}
    else {}
  }

  function ValidateUpload(filename: string, contentType: string): Result<string, SaveError> {
    if Strip(filename) == "" || '/' in filename || '\\' in filename then Err(UnsafeStoragePath)
    else
      var extension := LowerAll(Suffix(Strip(filename)));
      if extension != CSV && extension != XLSX then Err(UnsupportedFileExtension)
      else if contentType !in ContentTypes(CSV) + ContentTypes(XLSX) then Err(UnsupportedContentType)
      else if contentType !in ContentTypes(extension) then Err(ContentTypeMismatch)
      else Ok(extension)
  }

  lemma ExtensionEnds(filename: string, contentType: string)
    requires ValidateUpload(filename, contentType).Ok?
    ensures var extension := ValidateUpload(filename, contentType).value; extension != "" && !IsSpace(extension[|extension| - 1])
  {
    assert CSV[|CSV| - 1] == 'v' && XLSX[|XLSX| - 1] == 'x';
  }

  // ---------- Which uploads are accepted ----------

  /** The same letter up to its case, or the same character. */
  predicate SameLetter(c: char, lower: char) {
    c == lower || ('A' <= c <= 'Z' && c as int + 32 == lower as int)
  }

  /** There is something before this ending, in either case. */
  ghost predicate EndsIn(name: string, ending: string) {
    |ending| < |name| && forall i :: 0 <= i < |ending| ==> SameLetter(name[|name| - |ending| + i], ending[i])
  }

  /** A file type is recognised by the end of the name. */
  lemma SuffixExactly(name: string, ending: string)
    requires ending == ".csv" || ending == ".xlsx"
    ensures LowerAll(Suffix(name)) == ending <==> EndsIn(name, ending)
  {
    if LowerAll(Suffix(name)) == ending {
      forall i | 0 <= i < |ending| ensures SameLetter(name[|name| - |ending| + i], ending[i]) {
        assert LowerAll(Suffix(name))[i] == Lower(Suffix(name)[i]);
      }
    }
    if EndsIn(name, ending) { EndingIsSuffix(name, ending); }
  }

  lemma EndingIsSuffix(name: string, ending: string)
    requires (ending == ".csv" || ending == ".xlsx") && EndsIn(name, ending)
    ensures LowerAll(Suffix(name)) == ending
  {
    var d := |name| - |ending|;
    assert ending[0] == '.' && forall i :: 0 < i < |ending| ==> ending[i] != '.';
    forall i | 0 <= i < |ending| ensures Lower(name[d + i]) == ending[i] && (name[d + i] == '.' <==> ending[i] == '.') {
      assert SameLetter(name[d + i], ending[i]);
    }
    assert name[d + 0] == '.';
    forall i | d < i < |name| ensures name[i] != '.' { assert ending[i - d] != '.' && name[i] == name[d + (i - d)]; }
    LastDotIs(name, d);
  }

  lemma LastDotIs(name: string, d: nat)
    requires d < |name| && name[d] == '.' && forall i :: d < i < |name| ==> name[i] != '.'
    ensures LastDot(name) == Some(d)
  {
    var dot := LastDot(name);
    assert dot.Some? && dot.value <= d;
    assert forall i :: dot.value < i < |name| ==> name[i] == name[dot.value + 1..][i - dot.value - 1];
  }

  /** Some text, and no path separator. */
  ghost predicate SafeName(filename: string) {
    !AllSpace(filename) && forall i :: 0 <= i < |filename| ==> filename[i] != '/' && filename[i] != '\\'
  }

  /** The content types of one of the two file types. */
  predicate TypeOf(ending: string, contentType: string) {
    || contentType == "application/octet-stream"
    || (ending == ".csv" && (contentType == "text/csv" || contentType == "application/csv"))
    || (ending == ".xlsx" && (contentType == "application/vnd.ms-excel"
                              || contentType == "application/vnd.openxmlformats-officedocument.spreadsheetml.sheet"))
  }

  lemma TypesExactly(ending: string, contentType: string)
    requires ending == ".csv" || ending == ".xlsx"
    ensures contentType in ContentTypes(ending) <==> TypeOf(ending, contentType)
  {
  }

  /**
   * Which uploads are accepted, and as which type: a name with some text and no path separator that ends
   * in .csv or .xlsx behind something else, in either case, and a content type of that ending. A refused
   * one gets the error of the first of these that fails.
   */
  lemma UploadAcceptedExactly(filename: string, contentType: string)
    ensures var r := ValidateUpload(filename, contentType);
            var csv, xlsx := EndsIn(Strip(filename), ".csv"), EndsIn(Strip(filename), ".xlsx");
            var csvType, xlsxType := TypeOf(".csv", contentType), TypeOf(".xlsx", contentType);
            && (r == Ok(".csv") <==> SafeName(filename) && csv && csvType)
            && (r == Ok(".xlsx") <==> SafeName(filename) && xlsx && xlsxType)
            && (r == Err(UnsafeStoragePath) <==> !SafeName(filename))
            && (r == Err(UnsupportedFileExtension) <==> SafeName(filename) && !csv && !xlsx)
            && (r == Err(UnsupportedContentType) <==> SafeName(filename) && (csv || xlsx) && !csvType && !xlsxType)
            && (r == Err(ContentTypeMismatch) <==>
                SafeName(filename) && ((csv && xlsxType && !csvType) || (xlsx && csvType && !xlsxType)))
            && (r.Ok? ==> r.value == ".csv" || r.value == ".xlsx")
  {
    StripExactly(filename);
    SuffixExactly(Strip(filename), ".csv");
    SuffixExactly(Strip(filename), ".xlsx");
    TypesExactly(".csv", contentType);
    TypesExactly(".xlsx", contentType);
    assert CSV[1] != XLSX[1];
  }

  // ---------- What saving an upload does ----------

  /** The file's content when the loop over the chunks ends, and the error that ended it. */
  datatype Received = Received(content: seq<Byte>, error: Option<SaveError>)

  function Receive(max: nat, chunks: seq<Chunk>, sofar: seq<Byte>): Received {
    if chunks == [] then Received(sofar, None)
    else
      match chunks[0]
      case Data(bytes) =>
        if |sofar| + |bytes| > max then Received(sofar, Some(UploadTooLarge)) else Receive(max, chunks[1..], sofar + bytes)
      case Refused(bytes) =>
        Received(sofar, Some(if |sofar| + |bytes| > max then UploadTooLarge else StorageWrite))
      case NotBytes => Received(sofar, Some(StorageWrite))
      case ReadFails => Received(sofar, Some(StorageWrite))
      case Interrupted => Received(sofar, Some(Uncaught))
  }

  /** How the try block ends: closing a file may fail too, and then hides any other error. */
  function Ending(received: Received, closes: bool): Option<SaveError> {
    if !closes then Some(StorageWrite)
    else if received.error.Some? then received.error
    else if received.content == [] then Some(EmptyUpload)
    else None
  }

  /** The directory behind a save: only an uncaught exception leaves a partial file. */
  function FilesAfter(files: Files, name: string, received: Received, ending: Option<SaveError>): Files {
    if ending.None? || ending.value.Uncaught? then files[name := received.content] else files - {name}
  }

  class Sha256 {
    var fed: seq<Byte>

    constructor ()
      ensures fed == []
    {
      fed := [];
    }

    method Update(bytes: seq<Byte>)
      modifies this
      ensures fed == old(fed) + bytes
    {
      fed := fed + bytes;
    }
  }

  class LocalFileStorage {
    var files: Files
    const maxSizeBytes: nat
    const hexdigest: seq<Byte> -> string
    /** The most bytes a file has held at any moment. */
    ghost var largest: nat

    constructor (maxSizeBytes: nat, hexdigest: seq<Byte> -> string)
      ensures files == map[] && largest == 0 && this.maxSizeBytes == maxSizeBytes && this.hexdigest == hexdigest
    {
      files, largest := map[], 0;
      this.maxSizeBytes, this.hexdigest := maxSizeBytes, hexdigest;
    }

    method Write(name: string, bytes: seq<Byte>)
      requires name in files
      modifies this
      ensures files == old(files)[name := old(files)[name] + bytes]
      ensures largest == if old(largest) < |files[name]| then |files[name]| else old(largest)
    {
      files := files[name := files[name] + bytes];
      largest := if largest < |files[name]| then |files[name]| else largest;
    }

    /** The loop over the chunks. Whatever they are, no file grows beyond the limit. */
    method ReceiveChunks(name: string, chunks: seq<Chunk>, digest: Sha256) returns (sizeBytes: nat, error: Option<SaveError>)
      requires name in files && files[name] == [] && digest.fed == []
      modifies this, digest
      ensures name in files && files == old(files)[name := files[name]]
      ensures Received(files[name], error) == Receive(maxSizeBytes, chunks, [])
      ensures error == None ==> sizeBytes == |files[name]| && digest.fed == files[name]
      ensures largest <= old(largest) || largest <= maxSizeBytes
    {
      sizeBytes := 0;
      var i := 0;
      while i < |chunks|
        invariant i <= |chunks|
        invariant name in files && files == old(files)[name := files[name]]
        invariant Receive(maxSizeBytes, chunks, []) == Receive(maxSizeBytes, chunks[i..], files[name])
        invariant sizeBytes == |files[name]| && digest.fed == files[name]
        invariant largest <= old(largest) || largest <= maxSizeBytes
      {
        var chunk := chunks[i];
        assert chunks[i..][0] == chunk && chunks[i..][1..] == chunks[i + 1..];
        i := i + 1;
        if chunk.ReadFails? {
          return sizeBytes, Some(StorageWrite);
        }
        if chunk.Interrupted? {
          return sizeBytes, Some(Uncaught);
        }
        if chunk.NotBytes? {
          return sizeBytes, Some(StorageWrite);
        }
        sizeBytes := sizeBytes + |chunk.bytes|;
        if sizeBytes > maxSizeBytes {
          return sizeBytes, Some(UploadTooLarge);
        }
        digest.Update(chunk.bytes);
        if chunk.Refused? {
          return sizeBytes, Some(StorageWrite);
        }
        Write(name, chunk.bytes);
      }
      return sizeBytes, None;
    }

    /** Writes a new file; a name that is taken cannot be opened. */
    method Store(target: string, chunks: seq<Chunk>, opens: bool, closes: bool) returns (r: Result<StoredFile, SaveError>)
      modifies this
      ensures (files, r) == Stored(maxSizeBytes, hexdigest, old(files), target, chunks, opens, closes)
      ensures largest <= old(largest) || largest <= maxSizeBytes
    {
      if target in files || !opens {
        files := files - {target};
        return Err(StorageWrite);
      }
      files := files[target := []];
      var digest := new Sha256();
      var sizeBytes, error := ReceiveChunks(target, chunks, digest);
      assert files == old(files)[target := files[target]];
      if !closes {
        error := Some(StorageWrite);
      } else if error == None && sizeBytes == 0 {
        error := Some(EmptyUpload);
      }
      if error == None {
        return Ok(StoredFile(target, target, sizeBytes, hexdigest(digest.fed)));
      }
      if error != Some(Uncaught) {
        RemovingNew(old(files), target, files[target]);
        files := files - {target};
      }
      return Err(error.value);
    }

    /** Stores an upload under a random name; `opens` and `closes` say whether the system lets the file be created and closed. */
    method Save(filename: string, contentType: string, uuid: string, chunks: seq<Chunk>, opens: bool, closes: bool)
      returns (r: Result<StoredFile, SaveError>)
      modifies this
      ensures (files, r) == Saved(maxSizeBytes, hexdigest, old(files), filename, contentType, uuid, chunks, opens, closes)
      ensures largest <= old(largest) || largest <= maxSizeBytes
    {
      var extension := ValidateUpload(filename, contentType);
      if extension.Err? {
        return Err(extension.error);
      }
      r := Store(uuid + extension.value, chunks, opens, closes);
    }

    method Open(path: string) returns (r: Option<seq<Byte>>)
      ensures r == Opened(files, path)
    {
      if path !in files {
        return None;
      }
      return Some(files[path]);
    }

    /** Removes a file; false stands for StoredFileNotFoundError. */
    method Delete(path: string) returns (ok: bool)
      modifies this`files
      ensures files == old(files) - {path} && ok == (path in old(files))
    {
      if path !in files {
        return false;
      }
      files := files - {path};
      return true;
    }
  }

  /** What opening a path reads; None stands for StoredFileNotFoundError. */
  function Opened(files: Files, path: string): Option<seq<Byte>> {
    if path in files then Some(files[path]) else None
  }

  lemma RemovingNew(files: Files, name: string, content: seq<Byte>)
    ensures files[name := content] - {name} == files - {name}
    ensures name !in files ==> files - {name} == files
    ensures name in files ==> files - {name} != files
  {
  }

  /** The directory and the result of writing a new file. */
  function Stored(max: nat, hexdigest: seq<Byte> -> string, files: Files, name: string, chunks: seq<Chunk>, opens: bool, closes: bool)
    : (Files, Result<StoredFile, SaveError>)
  {
    if name in files || !opens then (files - {name}, Err(StorageWrite))
    else
      var received := Receive(max, chunks, []);
      var ending := Ending(received, closes);
      (FilesAfter(files, name, received, ending),
       if ending.Some? then Err(ending.value)
       else Ok(StoredFile(name, name, |received.content|, hexdigest(received.content))))
  }

  /** The directory and the result of a save. */
  function Saved(max: nat, hexdigest: seq<Byte> -> string, files: Files, filename: string, contentType: string,
                 uuid: string, chunks: seq<Chunk>, opens: bool, closes: bool): (Files, Result<StoredFile, SaveError>)
  {
    match ValidateUpload(filename, contentType)
    case Err(e) => (files, Err(e))
    case Ok(extension) => Stored(max, hexdigest, files, uuid + extension, chunks, opens, closes)
  }

  // ---------- Properties ----------

  /** The bytes of chunks, one after the other. */
  function Content(chunks: seq<Chunk>): seq<Byte> {
    if chunks == [] then []
    else (if chunks[0].Data? || chunks[0].Refused? then chunks[0].bytes else []) + Content(chunks[1..])
  }

  ghost predicate AllData(chunks: seq<Chunk>) {
    forall i :: 0 <= i < |chunks| ==> chunks[i].Data?
  }

  /** The loop gets through exactly when all chunks are data and fit, and then the file is all of them. */
  lemma {:induction false} ReceivesExactly(max: nat, chunks: seq<Chunk>, sofar: seq<Byte>)
    requires |sofar| <= max
    ensures Receive(max, chunks, sofar).error == None <==> AllData(chunks) && |sofar| + |Content(chunks)| <= max
    ensures Receive(max, chunks, sofar).error == None ==> Receive(max, chunks, sofar).content == sofar + Content(chunks)
    ensures |Receive(max, chunks, sofar).content| <= max
    ensures Receive(max, chunks, sofar).content <= sofar + Content(chunks)
  {
    if chunks != [] && chunks[0].Data? && |sofar| + |chunks[0].bytes| <= max {
      ReceivesExactly(max, chunks[1..], sofar + chunks[0].bytes);
      assert sofar + Content(chunks) == sofar + chunks[0].bytes + Content(chunks[1..]);
      if AllData(chunks[1..]) { AllDataOfTail(chunks); }
    }
  }

  lemma AllDataOfTail(chunks: seq<Chunk>)
    requires chunks != [] && chunks[0].Data? && AllData(chunks[1..])
    ensures AllData(chunks)
  {
    forall i | 0 <= i < |chunks| ensures chunks[i].Data? {
      if i > 0 { assert chunks[1..][i - 1] == chunks[i]; }
    }
  }

  /** Too large is reported exactly when the first chunk that is not simply written carries the bytes over the limit. */
  lemma {:induction false} TooLargeExactly(max: nat, chunks: seq<Chunk>, sofar: seq<Byte>, k: nat)
    requires |sofar| <= max && k < |chunks| && AllData(chunks[..k]) && |sofar| + |Content(chunks[..k])| <= max
    requires chunks[k].Data? ==> |sofar| + |Content(chunks[..k])| + |chunks[k].bytes| > max
    ensures Receive(max, chunks, sofar).error == Some(UploadTooLarge) <==>
            (chunks[k].Data? || chunks[k].Refused?) && |sofar| + |Content(chunks[..k])| + |chunks[k].bytes| > max
    ensures Receive(max, chunks, sofar).error == Some(Uncaught) <==> chunks[k].Interrupted?
    ensures Receive(max, chunks, sofar).error in {Some(UploadTooLarge), Some(Uncaught), Some(StorageWrite)}
  {
    if k > 0 {
      assert chunks[..k][0] == chunks[0] && chunks[..k][1..] == chunks[1..][..k - 1];
      var tail := chunks[1..][..k - 1];
      forall i | 0 <= i < |tail| ensures tail[i].Data? { assert tail[i] == chunks[..k][i + 1]; }
      TooLargeExactly(max, chunks[1..], sofar + chunks[0].bytes, k - 1);
    }
  }

  /**
   * A save succeeds exactly when the upload is valid, its name is new, the system cooperates, and the
   * chunks are between one byte and the limit; the stored file is then the chunks in order, and the
   * returned size and checksum are those of the whole content.
   */
  lemma SaveSucceedsExactly(max: nat, hexdigest: seq<Byte> -> string, files: Files, filename: string, contentType: string,
                            uuid: string, chunks: seq<Chunk>, opens: bool, closes: bool)
    ensures var (after, r) := Saved(max, hexdigest, files, filename, contentType, uuid, chunks, opens, closes);
            var valid := ValidateUpload(filename, contentType);
            && (r.Ok? <==> valid.Ok? && uuid + valid.value !in files && opens && closes
                           && AllData(chunks) && 0 < |Content(chunks)| <= max)
            && (r.Ok? ==>
                 && r.value == StoredFile(uuid + valid.value, uuid + valid.value, |Content(chunks)|, hexdigest(Content(chunks)))
                 && after == files[uuid + valid.value := Content(chunks)])
  {
    ReceivesExactly(max, chunks, []);
    assert [] + Content(chunks) == Content(chunks);
  }

  /** The first chunk that is not simply written: the bytes before it fit, and it is no data or carries them over the limit. */
  ghost predicate StopsAt(max: nat, chunks: seq<Chunk>, k: nat) {
    && k < |chunks| && AllData(chunks[..k]) && |Content(chunks[..k])| <= max
    && (chunks[k].Data? ==> |Content(chunks[..k])| + |chunks[k].bytes| > max)
  }

  /** The chunks that end the loop are the only reason why it does not get through. */
  lemma {:induction false} StopExists(max: nat, chunks: seq<Chunk>, n: nat) returns (k: nat)
    requires n <= |chunks| && !(AllData(chunks[..n]) && |Content(chunks[..n])| <= max)
    ensures StopsAt(max, chunks, k)
  {
    var m := n - 1;
    assert n > 0;
    if AllData(chunks[..m]) && |Content(chunks[..m])| <= max {
      if chunks[m].Data? { ContentOfNext(chunks, m); }
      assert chunks[..n] == chunks[..m] + [chunks[m]];
      return m;
    }
    k := StopExists(max, chunks, m);
  }

  lemma {:induction false} ContentOfConcat(a: seq<Chunk>, b: seq<Chunk>)
    ensures Content(a + b) == Content(a) + Content(b)
  {
    if a == [] {
      assert a + b == b;
    } else {
      assert (a + b)[1..] == a[1..] + b;
      ContentOfConcat(a[1..], b);
    }
  }

  lemma ContentOfNext(chunks: seq<Chunk>, m: nat)
    requires m < |chunks| && chunks[m].Data?
    ensures Content(chunks[..m + 1]) == Content(chunks[..m]) + chunks[m].bytes
  {
    assert chunks[..m + 1] == chunks[..m] + [chunks[m]];
    ContentOfConcat(chunks[..m], [chunks[m]]);
    assert [chunks[m]][1..] == [];
  }

  /**
   * Which error a valid upload fails with. A taken name and a file that cannot be created or closed are
   * write errors; else the first chunk that is not simply written decides; and an upload of data that
   * fits fails exactly when it is empty.
   */
  lemma SaveErrorsExactly(max: nat, hexdigest: seq<Byte> -> string, files: Files, filename: string, contentType: string,
                          uuid: string, chunks: seq<Chunk>, opens: bool, closes: bool)
    requires ValidateUpload(filename, contentType).Ok?
    ensures var r := Saved(max, hexdigest, files, filename, contentType, uuid, chunks, opens, closes).1;
            var written := uuid + ValidateUpload(filename, contentType).value !in files && opens && closes;
            && (!written ==> r == Err(StorageWrite))
            && (written && (forall k: nat :: !StopsAt(max, chunks, k)) ==>
                 (r.Err? <==> Content(chunks) == []) && (r.Err? ==> r.error == EmptyUpload))
            && (forall k: nat :: written && StopsAt(max, chunks, k) ==>
                 var bytes := chunks[k].Data? || chunks[k].Refused?;
                 r == Err(if chunks[k].Interrupted? then Uncaught
                          else if bytes && |Content(chunks[..k])| + |chunks[k].bytes| > max then UploadTooLarge
                          else StorageWrite))
  {
    ReceivesExactly(max, chunks, []);
    forall k: nat | StopsAt(max, chunks, k)
      ensures Receive(max, chunks, []).error
              == Some(if chunks[k].Interrupted? then Uncaught
                      else if (chunks[k].Data? || chunks[k].Refused?) && |Content(chunks[..k])| + |chunks[k].bytes| > max then UploadTooLarge
                      else StorageWrite)
    {
      TooLargeExactly(max, chunks, [], k);
    }
    if forall k: nat :: !StopsAt(max, chunks, k) {
      assert chunks[..|chunks|] == chunks;
      if !(AllData(chunks) && |Content(chunks)| <= max) { var k := StopExists(max, chunks, |chunks|); }
    }
  }

  /**
   * A save that fails with one of its own errors leaves the directory as it was exactly when its name
   * was not taken: opening a taken name fails, and the handler then removes the file that had it.
   */
  lemma FailedSaveExactly(max: nat, hexdigest: seq<Byte> -> string, files: Files, filename: string, contentType: string,
                          uuid: string, chunks: seq<Chunk>, opens: bool, closes: bool)
    requires Saved(max, hexdigest, files, filename, contentType, uuid, chunks, opens, closes).1.Err?
    ensures var (after, r) := Saved(max, hexdigest, files, filename, contentType, uuid, chunks, opens, closes);
            var valid := ValidateUpload(filename, contentType);
            && (valid.Err? ==> after == files)
            && (valid.Ok? && r.error != Uncaught ==> (after == files <==> uuid + valid.value !in files))
            && (valid.Ok? && r.error == Uncaught ==>
                 && uuid + valid.value !in files && after - {uuid + valid.value} == files
                 && uuid + valid.value in after && after[uuid + valid.value] <= Content(chunks))
  {
    ReceivesExactly(max, chunks, []);
    assert [] + Content(chunks) == Content(chunks);
    var valid := ValidateUpload(filename, contentType);
    if valid.Ok? {
      RemovingNew(files, uuid + valid.value, Receive(max, chunks, []).content);
    }
  }

  /**
   * Opening the returned path reads the upload back, every other path reads what it read before, and
   * deleting it restores the directory.
   */
  lemma SavedFileOpens(max: nat, hexdigest: seq<Byte> -> string, files: Files, filename: string, contentType: string,
                       uuid: string, chunks: seq<Chunk>, opens: bool, closes: bool)
    requires Saved(max, hexdigest, files, filename, contentType, uuid, chunks, opens, closes).1.Ok?
    ensures var (after, r) := Saved(max, hexdigest, files, filename, contentType, uuid, chunks, opens, closes);
            var path := r.value.storagePath;
            && Opened(files, path) == None && Opened(after, path) == Some(Content(chunks))
            && (forall other :: other != path ==> Opened(after, other) == Opened(files, other))
            && after - {path} == files
  {
    SaveSucceedsExactly(max, hexdigest, files, filename, contentType, uuid, chunks, opens, closes);
    RemovingNew(files, uuid + ValidateUpload(filename, contentType).value, Content(chunks));
  }
}
