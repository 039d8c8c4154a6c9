# CSV import pipeline: a verified model

This project models the part of the backend that turns an uploaded CSV file into imported
records, and proves what it keeps under interleavings, faults and crashes. `dafny verify
dfyconfig.toml` checks the whole project.

The pipeline has five parts.

- **Import protocol** (`ImportJobs`, `ImportProtocol`, `ImportSafety`, `ImportGuarantees`,
  `ImportLifecycle`, `ImportLifecycleExact`, `ImportIssues`). A state machine over the tables: any number of calls of
  `execute`, `transition`, `create` and `prepare`, interleaved at their transaction boundaries,
  with refused batches, database errors, a refresh that fails behind its commit, a failure handler
  that fails itself, and crashes at every point. A `transition` is split into its read, which takes
  no lock, and its write, which updates only the columns it changed, as the unit of work does.
  `ImportExecution` and `ImportJobServices` write the operations out statement by statement, over a
  row object whose columns are assigned and a server that others change in the gaps, and prove that
  each is a run of the machine; so everything proved of the machine holds of them.
- **Streaming loop** (`CsvImport`, `ImportLoop`, `Batching`, `CsvSummary`). A declarative account of
  a file (drop blank rows, the first row is the header, every later row must be importable, the first
  problem decides), the one-pass loops of the import and of the summary, which refine it, and the
  agreement between the two.
- **Validators** (`CsvMapping`, `RowValidation`, `RowFingerprint`). The mapping, the rows, and the text
  that is hashed for a row.
- **Storage and uploads** (`Storage`, `Uploads`, `UploadRoute`). The chunk loop with its limit, digest
  and cleanup; the upload route as a state machine over a directory and a table, and as statements.
- **Read side** (`ReadSide`). Filter, order, offset and limit over a table without an order of its own.

`ImportPipeline` puts the parts together: the machine is stated over any pipeline that is `Sound`
(accepted mappings can be read back; accepted rows are in file order, of one owner, and counted),
and the service's pipeline is proved to be. `Uploads.Sound` does the same for the file store.

Three promises turn out not to hold as they stand. Each is kept as the code has it, with the exact
condition under which it does hold and a run or a family of runs in which it does not.

- The completion commit does not look at the stored status, and `transition` writes what it checked
  against a row it read before. So a cancellation between claim and completion is overwritten, a job that
  a client has completed is rewritten, a message can stay on a COMPLETED job, and a job can end before its
  start (`ImportWitnesses`). Which steps leave the graph, change a terminal row, or leave a message or a
  stamp that does not fit is stated exactly, for a step and over runs (`ImportLifecycleExact`). All of it
  holds in `Orderly` runs (`ImportLifecycle.LifecycleHolds`).
- The counters of a prepared job match its records all through a run exactly when no failure handler
  commits over a job that has records (`ImportGuarantees.CountsMatchExactly`). With transitions that take
  effect at once that never happens (`ImportGuarantees.CountersMatchWithAtomicTransitions`); with a stale
  write and a refresh error it does (`ImportWitnesses.CountersCanBeLost`). That records are all or
  nothing needs no hypothesis.
- Every row of `uploaded_files`, and every upload that waits for its row, keeps its file all through a run
  exactly when no step deletes a file in use: a save under its name, which cannot be opened and is then
  removed, or a compensation, of a row committed after all or of a name that another upload has taken
  since (`Uploads.FilesKeptExactly`; runs in `UploadWitnesses`).

The repository's own README (lines 81-82) says that uploads and CSV parsing are not implemented; the
code implements both, and the model follows the code.

The CSV reader is a sequence of events, a row with its line number or a fault. Line numbers strictly
increase. Number and date parsing, the hash function, clocks, random names and every fault are
parameters.

## Model

| member | source | states |
|---|---|---|
| `CsvMapping.ValidationCharacterised` | backend/app/services/csv_mapping_validation.py:22-32 | A mapping is accepted exactly when its fields are canonical, `content` is among them, every column says something and the stripped columns are pairwise different; it has the same fields, with stripped columns |
| `CsvMapping.MappingErrorsExactly` | backend/app/services/csv_mapping_validation.py:23-31 | A refused mapping gets the error of the first of the four checks that fails |
| `CsvMapping.ValidationIdempotent` | backend/app/services/csv_mapping_validation.py:22-32 | An accepted mapping, which is injective and has `content`, is accepted again and unchanged |
| `CsvMapping.MappingRoundTrip` | backend/app/services/csv_import_execution.py:232-251 | The configuration stored for an accepted mapping is read back as that mapping, without a configuration error |
| `CsvMapping.GetMappingExactly` | backend/app/services/csv_import_execution.py:232-251 | A configuration is readable exactly when it is an object whose `mapping` is an object of texts that form an acceptable mapping; read is that mapping with stripped columns |
| `RowFingerprint.SerializeRoundTrip` | backend/app/services/csv_import_execution.py:253-256 | The compact JSON text of a row decodes to the same row (RFC 8259, sections 5 and 7) |
| `RowFingerprint.Utf8Injective` | backend/app/services/csv_import_execution.py:256 | UTF-8 encoding loses nothing |
| `RowFingerprint.HashInputInjective` | backend/app/services/csv_import_execution.py:253-256 | Two raw rows have the same hash input exactly when they are equal |
| `RowFingerprint.SerializeExactly` | backend/app/services/csv_import_execution.py:253-256 | The hashed text is brackets around the quoted elements with single commas between them, and nothing else |
| `RowFingerprint.EscapeExactly` | backend/app/services/csv_import_execution.py:255 | Every character stands for itself but quotation mark, backslash and control characters; which escape each of these has |
| `RowFingerprint.EncodeCharExactly` | backend/app/services/csv_import_execution.py:256 | The bytes of a character, as section 3 of RFC 3629 lays them out |
| `RowValidation.ImportRowValidator.Validate` | backend/app/services/import_row_validation.py:76-136 | The loop over the definitions, with its dictionary and its issue list, computes the declarative result: a record, or the issues of all failing fields |
| `RowValidation.IssuesInOrder` | backend/app/services/import_row_validation.py:79-123 | Issues come in definition order, exactly one for each failing field |
| `RowValidation.ValidationCharacterised` | backend/app/services/import_row_validation.py:76-136 | A row yields a record exactly when every mapped column is there and every canonical field meets its own rule: presence and length of the content, lengths of the names, the set of sentiments, a readable count that is not negative, a text that stands for a time |
| `RowValidation.RecordCharacterised` | backend/app/services/import_row_validation.py:127-136 | Every stored value is what the stripped text of the column mapped to its field stands for, or absent with it |
| `RowValidation.FieldCharacterised` | backend/app/services/import_row_validation.py:138-185 | One field passes its converter exactly when its text is acceptable |
| `RowValidation.TimeExactly` | backend/app/services/import_row_validation.py:155-168 | A text is read as a time exactly when it has the shape of a date and that date has a midnight, or it has another shape, contains a T, and is a time with an offset once every Z is +00:00; the time is that one |
| `RowValidation.IssueCodeExactly` | backend/app/services/import_row_validation.py:81-185 | Which code goes with which failure of which field |
| `RowValidation.DefinitionsExactly` | backend/app/services/import_row_validation.py:65-74 | The fields in the order of their checks; only the content is required |
| `RowValidation.FieldIssue` | backend/app/services/import_row_validation.py:81-119 | An issue names its field, its row and its column, and reports a missing column exactly when the mapped column is not there |
| `RowValidation.IssueCodes` | backend/app/services/import_row_validation.py:79-123 | All issues of a row carry its number; none reports a missing column when the mapped columns exist, and none uses the code of a wrong width |
| `RowValidation.ContentIsText` | backend/app/services/import_row_validation.py:124-126 | The runtime error behind the loop is unreachable |
| `Batching.AppendOne` | backend/app/services/csv_import_execution.py:187-190 | One more row either waits in the batch or completes it, and never overfills it |
| `Batching.FullBatchesLaw` | backend/app/services/csv_import_execution.py:187-190 | Full batches have exactly the batch size, the rest has n mod size rows, and together they are the rows in order |
| `Batching.BatchesConcatenate` | backend/app/services/csv_import_execution.py:187-195 | The batches of a finished file, concatenated, are its rows in order |
| `Batching.BatchSizes` | backend/app/services/csv_import_execution.py:187-195 | Every batch but the last is full, and none is empty |
| `Batching.BatchCount` | backend/app/services/csv_import_execution.py:187-195 | There are ceil(n / size) batches |
| `Batching.HandedOver` | backend/app/services/csv_import_execution.py:187-190 | After k rows exactly k - k mod size have been handed over |
| `CsvImport.HeaderCharacterised` | backend/app/services/csv_import_execution.py:198-208 | A header is accepted exactly when it is within the limit, non-blank, free of duplicates and has every mapped column; it is then the stripped row |
| `CsvImport.HeaderErrorsExactly` | backend/app/services/csv_import_execution.py:198-208 | A refused header gets the error of the first of the four checks that fails; an accepted one is the stripped row |
| `CsvImport.BlankExactly` | backend/app/services/csv_import_execution.py:158-159 | A row is skipped exactly when every character of every field is white space |
| `CsvImport.ItemsExactly` | backend/app/services/csv_import_execution.py:157-159 | What is imported are exactly the faults and the rows with some text: each of them, no other, in file order |
| `CsvImport.ProblemExactly` | backend/app/services/csv_import_execution.py:160-186 | Why a data row stops the import: the first of width, row limit and validation that fails, with the line of that row on every issue |
| `CsvImport.ImportableExactly` | backend/app/services/csv_import_execution.py:173-186 | A data row is importable exactly when the stripped cell under the column of every canonical field is acceptable |
| `CsvImport.PipelineWellFormed` | backend/app/services/csv_import_execution.py:160-188 | With an accepted header and mapping, every lookup is in range, each field reads one column, different fields read different columns, and no column is reported missing |
| `CsvImport.ScanStops` | backend/app/services/csv_import_execution.py:157-196 | Where the data rows stop: everything before is importable and mapped in order, the error is that of the first row with a problem |
| `CsvImport.SuccessfulImport` | backend/app/services/csv_import_execution.py:146-196 | A successful import has one accepted row for every item behind the header, in order, within the row limit, and no other (items: `ItemsExactly`; accepted rows: `AcceptedExactly`) |
| `CsvImport.AcceptedExactly` | backend/app/services/csv_import_execution.py:187-230 | Every accepted row has the scope of its job, the line of its data row, the digest of the JSON text of exactly its raw fields, and the values its cells stand for |
| `CsvImport.FileExactly` | backend/app/services/csv_import_execution.py:146-208 | How the import of a file ends, on its events: nothing to import, a fault or a refused header first; then the first data row with a problem decides, and without one the rows are counted |
| `CsvImport.FileSucceedsExactly` | backend/app/services/csv_import_execution.py:146-208 | A file is imported exactly when its header is accepted, its rows are not too many and all of them importable |
| `CsvImport.StoredHashesExactly` | backend/app/services/csv_import_execution.py:253-256 | With a digest without collisions, two stored rows share their hash exactly when their raw rows are equal |
| `CsvImport.FirstErrorReported` | backend/app/services/csv_import_execution.py:163-186 | The scan fails after n rows exactly when row n is the first with a problem |
| `CsvImport.AcceptedInFileOrder` | backend/app/services/csv_import_execution.py:187 | Rows of a file with increasing line numbers are accepted with increasing row numbers |
| `CsvImport.AcceptedFitsTable` | backend/app/models/imported_record.py:22-56 | With digests of 64 digits, no row the import hands over is refused by a CHECK constraint or a column length |
| `CsvImport.ItemsNumbered` | backend/app/services/csv_import_execution.py:157-159 | Dropping blank rows keeps file order and line numbers |
| `ImportLoop.CsvImportLoop.CheckRow` | backend/app/services/csv_import_execution.py:164-187 | The checks of one data row in their order: width, row limit, validity; and the row made of it, with the scope of the job, the line of the row and the digest of the JSON text of its raw fields |
| `ImportLoop.CsvImportLoop.ImportRow` | backend/app/services/csv_import_execution.py:164-190 | A good row joins the batch, which is handed over exactly when it is full |
| `ImportLoop.CsvImportLoop.PersistRecords` | backend/app/services/csv_import_execution.py:146-196 | The one-pass loop refines the declarative account: the same batches up to the first refused one, the same count, the same first error |
| `ImportLoop.RowStep` | backend/app/services/csv_import_execution.py:164-190 | One iteration of the loop keeps its relation to the declarative account, or ends in accordance with it |
| `CsvSummary.CsvProcessingService.ReadSummary` | backend/app/services/csv_processing.py:45-68 | The second loop over a file computes its declarative summary, which `SummaryExactly` spells out |
| `CsvSummary.SummaryExactly` | backend/app/services/csv_processing.py:45-68 | On the events of the file: a summary counts the rows with some text behind the header, exactly when they all have its width and are not too many; what an empty file, a fault and a wide header come to |
| `CsvSummary.SummaryErrorExactly` | backend/app/services/csv_processing.py:55-64 | The first row of another width, or one too many, decides which error the summary gives |
| `CsvSummary.AcceptedImportIsSummarised` | backend/app/services/csv_processing.py:45-68 | A file the import accepts is summarised with the same row count and the same header up to stripping |
| `CsvSummary.SharedErrorsAgree` | backend/app/services/csv_processing.py:31-68 | When the import stops for emptiness, an unreadable line, the column limit, the row limit or a wrong width, the summary stops with the corresponding error |
| `CsvSummary.ImportAcceptsExactly` | backend/app/services/csv_import_execution.py:146-208 | The import accepts a file exactly when the summary does, the header suits the mapping and every row validates |
| `ImportSafety.StepKeeps` | backend/app/services/csv_import_execution.py:71-144 | Every step of every interleaving keeps the protocol invariant |
| `ImportSafety.CompletionParts` | backend/app/services/csv_import_execution.py:103-112 | A completion commit stores the image of the whole file and its length in both counters |
| `ImportSafety.TransitionKeepsCounters` | backend/app/services/import_job.py:108-125 | A requested transition never changes the counters of a prepared job and never makes a job pending |
| `ImportGuarantees.RecordsAppearAtOnce` | backend/app/services/csv_import_execution.py:103-114 | A job's records are written by its completion commit only, all at once, with COMPLETED and matching counters |
| `ImportGuarantees.RecordsAllOrNothing` | backend/app/services/csv_import_execution.py:103-144 | In every reachable state a job has no records, or the validated image of every data row of its file in order, and then a completion commit is among the steps |
| `ImportGuarantees.ReturnedMeansStored` | backend/app/services/csv_import_execution.py:103-114 | When a call has returned a count, the records of its file are stored, exactly that many, and stay |
| `ImportGuarantees.ClaimedAtMostOnce` | backend/app/services/csv_import_execution.py:74-101 | In every run at most one call of `execute` claims a job |
| `ImportGuarantees.PendingNeverReturns` | backend/app/services/import_job.py:98-107 | No step makes a job pending again, removes it, or changes the scope, file, configuration and key it was created with |
| `ImportGuarantees.StepChangesRow` | backend/app/services/csv_import_execution.py:97-112 | The only ways in which a step can change a stored job |
| `ImportGuarantees.InsertNeverViolatesKey` | backend/app/models/imported_record.py:49-56 | At every batch, the rows sent have (job, row) keys that are new among committed and own rows |
| `ImportGuarantees.HandedIsPrefix` | backend/app/services/csv_import_execution.py:188-195 | What a call has sent so far is a prefix of the rows of its file |
| `ImportGuarantees.UniqueKeysHold` | backend/app/models/import_job.py:37-42 | In every reachable state: one job per (organization, datasource, key), one record per (job, row), one issue per (job, row, order) |
| `ImportGuarantees.ScopeHolds` | backend/app/models/import_job.py:43-48 | In every reachable state the scope of every job and record is that of the datasource it was created from |
| `ImportGuarantees.IssuesOnlyWithFailure` | backend/app/services/csv_import_execution.py:258-279 | Issues become visible only in the commit that makes a running job FAILED: behind an invalid row, exactly its issues, numbered from 0 in their order, and behind any other error none; nothing else changes with them |
| `ImportGuarantees.OriginalErrorSurfaces` | backend/app/services/csv_import_execution.py:281-291 | A call that has met an error ends with that error, in every continuation |
| `ImportGuarantees.CountersMatchRecords` | backend/app/services/csv_import_execution.py:103-112 | In every run without a resurrecting write, a prepared job always has total = processed = number of its records, and none failed |
| `ImportGuarantees.CountersMatchWithAtomicTransitions` | backend/app/services/import_job.py:94-139 | The same for every run in which transitions take effect at once |
| `ImportGuarantees.CountsMatchExactly` | backend/app/services/csv_import_execution.py:265-279 | Without any hypothesis: the counters of a prepared job are right all through a run exactly when no failure handler commits over a job that has records |
| `ImportGuarantees.CountsKeptExactly` | backend/app/services/csv_import_execution.py:270-279 | The same for one step in any reachable state |
| `ImportGuarantees.FailureKeepsCountExactly` | backend/app/services/csv_import_execution.py:270-279 | The failure commit keeps the count exactly when the job has no records |
| `ImportGuarantees.CountersFitTotal` | backend/app/models/import_job.py:49-54 | In every reachable state processed and failed items of every job fit its total; only a write of `transition` can run into that CHECK |
| `ImportIssues.StoredIssuesAreTheFiles` | backend/app/services/csv_import_execution.py:123-128 | In every reachable state the issues of a job are all issues of the row its file's import stops at, numbered in order, or none; `IssuesExactly` says when |
| `ImportIssues.IssuesExactly` | backend/app/services/csv_import_execution.py:119-128 | In every reachable state: without a failure commit a job has no issues; behind one for an invalid row it has exactly all issues of that row, numbered from 0, and it is the row at which its file stops; behind one for another error it has none |
| `ImportLifecycle.LifecycleHolds` | backend/app/services/import_job.py:94-139 | In an orderly run every step moves a job along the documented graph; message and time stamps are set exactly as the status requires; issues only with FAILED |
| `ImportLifecycleExact.AtMostTwoChanges` | backend/app/services/import_job.py:98-107 | A job whose status never jumps changes it at most twice |
| `ImportLifecycle.TerminalIsAbsorbing` | backend/app/services/import_job.py:98-107 | In an orderly run a terminal row never changes again |
| `ImportLifecycleExact.GraphFollowedExactly` | backend/app/services/import_job.py:94-139 | In any reachable state, a step moves a job along the graph exactly when it is neither a completion over PENDING, FAILED or CANCELLED nor a write over a status from which the request is not allowed |
| `ImportLifecycleExact.TerminalKeptExactly` | backend/app/services/csv_import_execution.py:106-112 | In any reachable state, a step leaves a terminal row as it is exactly when it is no completion over it and no transition over it, unless these repeat what is stored |
| `ImportLifecycleExact.MessagesKeptExactly` | backend/app/services/import_job.py:126-136 | A step keeps a message exactly on FAILED rows if and only if it is no commit that takes a FAILED row to another status |
| `ImportLifecycleExact.StampsKeptExactly` | backend/app/services/import_job.py:126-136 | Exactly which commits leave time stamps or a message that do not fit the status |
| `ImportLifecycleExact.LifecycleExactly` | backend/app/services/import_job.py:94-139 | All through a run every step goes along the graph, leaves terminal rows alone and keeps message and stamps, if and only if no step is one of these commits |
| `ImportLifecycleExact.MessagesExactly` | backend/app/services/import_job.py:126-136 | All through a run a job has a message exactly while it is FAILED, if and only if no commit takes it out of FAILED |
| `ImportLifecycleExact.CompletionFollowsGraphExactly` | backend/app/services/csv_import_execution.py:106-112 | A completion commit follows an edge of the graph exactly when the stored status is still RUNNING |
| `ImportLifecycle.TransitionStamps` | backend/app/schemas/import_job.py:47-58 | A validated request leaves message and stamps as its status requires |
| `ImportWitnesses.CancellationCanBeLost` | backend/app/services/csv_import_execution.py:106-112 | A run in which a cancellation between claim and completion is overwritten by COMPLETED |
| `ImportWitnesses.CountersCanBeLost` | backend/app/services/import_job.py:97-138 | A run in which a stale start request lets the failure handler reset the counters of a job that has a record |
| `ImportWitnesses.TerminalRowCanChange` | backend/app/services/csv_import_execution.py:106-112 | A run in which the completion commit rewrites a job that a client has completed |
| `ImportWitnesses.MessageCanSurvive` | backend/app/services/csv_import_execution.py:106-112 | A run that ends with a COMPLETED job that carries an error message |
| `ImportWitnesses.JobCanEndBeforeItsStart` | backend/app/services/import_job.py:97-138 | A run in which a stale cancellation leaves a job that ended before it started |
| `ImportPipeline.PipelineIsSound` | backend/app/services/csv_import_execution.py:146-251 | The service's mapping validation and import loop provide what the protocol proofs rely on |
| `ImportPipeline.ScanIsOrdered` | backend/app/services/csv_import_execution.py:146-230 | For the service as it is: the rows of an import carry the scope of their job, increasing row numbers for a numbered file, and are as many as counted |
| `ImportPipeline.ServiceCallSucceedsExactly` | backend/app/services/csv_import_execution.py:71-114 | Without faults of its own, `execute` returns a count for a claimable job exactly when the header of the file suits the mapping and its rows are not too many and all importable; the count is that of the rows with some text behind the header, and that of the summary |
| `ImportPipeline.PreparedJobIsConfigured` | backend/app/services/mapping_preparation.py:45-64 | A prepared job stores the accepted mapping, and `execute` reads exactly it back |
| `ImportPipeline.ServicePreparesExactly` | backend/app/services/mapping_preparation.py:28-67 | For the service as it is: a job is prepared exactly for the acceptable mappings, in a known scope, for a file of it, under a new key and id; the mapping read back from it has the same fields with stripped columns |
| `ImportPipeline.PreparedJobNeverMisconfigured` | backend/app/services/csv_import_execution.py:82-95 | In no reachable state does `execute` reject a prepared job for its configuration |
| `ImportPipeline.ServiceStoresAllOrNothing` | backend/app/services/csv_import_execution.py:71-144 | For the service as it is: a job's stored records are none, or one for every row with some text behind the header of its file, in file order, each with the scope of the job and the line, the fingerprint of the raw fields and the field values of its row |
| `ImportPipeline.StoredHashesIdentifyRows` | backend/app/services/csv_import_execution.py:253-256 | In every reachable state, with a digest without collisions, two stored rows share their hash exactly when the rows of their files are equal |
| `ImportPipeline.ErrorsAreOfOneRow` | backend/app/services/csv_import_execution.py:164-186 | All issues an import stops with are of one row |
| `ImportJobs.FlushesCommute` | backend/app/db/session.py:46-54 | Commits of two sessions that assigned different columns of a row commute; one over the row it loaded stores what was assigned |
| `ImportJobs.FlushExactly` | backend/app/db/session.py:46-54 | A commit stores the columns that were assigned another value and leaves every other column as it is stored |
| `ImportJobs.AssignedColumnsExactly` | backend/app/services/csv_import_execution.py:97-112 | The columns that the claim, the completion and the failure of `execute` assign, and with what |
| `ImportJobs.ClaimChecksExactly` | backend/app/services/csv_import_execution.py:74-96 | A claim passes exactly for a pending job of the scope with a readable mapping and a usable CSV file of its datasource, and yields these; and which error it gets otherwise |
| `ImportExecution.CsvImportExecutionService.Claim` | backend/app/services/csv_import_execution.py:74-101 | The first transaction is the lock and claim steps of the protocol, with steps of others while the row is held, or ends the call with the error of the check that failed |
| `ImportExecution.CsvImportExecutionService.SendRows` | backend/app/services/csv_import_execution.py:103-105 | The loop sends exactly the batches the database takes, with steps of others before, between and after them, and ends as the file and the faults determine |
| `ImportExecution.CsvImportExecutionService.Complete` | backend/app/services/csv_import_execution.py:106-114 | Final columns, commit and refresh: the completion step, or a fault |
| `ImportExecution.CsvImportExecutionService.Import` | backend/app/services/csv_import_execution.py:103-144 | The try block is steps of the protocol; its result is determined by the file and the faults, and a returned count is stored with the job COMPLETED |
| `ImportExecution.CsvImportExecutionService.MarkFailed` | backend/app/services/csv_import_execution.py:258-279 | When the failure transaction gets through and when it raises; it makes a RUNNING job FAILED with its message and zero counters, with all issues of an invalid row numbered in order and none behind any other error, and changes nothing otherwise |
| `ImportExecution.CsvImportExecutionService.MarkFailedWithoutMaskingError` | backend/app/services/csv_import_execution.py:281-291 | The handler ends the call with the original error, wherever it fails itself |
| `ImportExecution.CsvImportExecutionService.Execute` | backend/app/services/csv_import_execution.py:71-144 | One call, in any circumstances, is a run of the protocol whose foreign steps are those of the other calls in order; its result is determined by the checks, the file and the faults; a returned count is stored; behind an error the job is FAILED with the issues if the handler finds it RUNNING and succeeds |
| `ImportExecution.FaultFreeCallExactly` | backend/app/services/csv_import_execution.py:71-144 | Without faults of its own, a call returns the number of data rows exactly when the checks pass and the file imports without an error, and otherwise that error |
| `ImportExecution.CallExactly` | backend/app/services/csv_import_execution.py:103-144 | For any faults: when a call that has claimed its job raises an unexpected error, a database error, or the error of its file, and when it returns which count |
| `ImportExecution.RunKeepsIdentity` | backend/app/models/import_job.py:34-61 | No run removes a job or changes what it was created with |
| `ImportJobs.CreateExactly` | backend/app/services/import_job.py:66-92 | Exactly when `create` adds a job and with which error it is refused; the new job is pending, in the scope of its datasource, with nothing processed |
| `ImportJobs.TransitionExactly` | backend/app/services/import_job.py:94-136 | A transition is accepted exactly along the graph with counters that do not decrease, fit the total and are complete on completion; what the accepted row is |
| `ImportJobs.AllowedExactly` | backend/app/services/import_job.py:98-107 | The five edges of the status graph |
| `ImportJobs.RequestExactly` | backend/app/schemas/import_job.py:41-58 | A request is refused exactly when it completes with a message or fails without one that says something; otherwise status and counters stay as they are and the message is stripped |
| `ImportJobs.RequestTakesEffect` | backend/app/services/import_job.py:98-136 | From the raw request to the assigned row, column by column, and the error of a request that may not take effect |
| `ImportJobServices.ImportJobService.Transition` | backend/app/services/import_job.py:94-139 | `transition` is an unlocked read step, steps of others, and a write step; for the raw request, exactly when it is rejected and with which of the four errors; otherwise the columns it assigns to the row as read are merged into the row as stored by then, which is returned, unless the CHECK on the counters refuses it |
| `ImportJobs.PrepareExactly` | backend/app/services/mapping_preparation.py:28-67 | Exactly when `prepare` adds a job and with which error it is refused; the new job is pending with zero counters, points at its file and carries the accepted mapping |
| `ReadSide.OrderBySorts` | backend/app/repositories/imported_record.py:46-52 | The ordered query returns the selected rows, each as often as stored, never descending |
| `ReadSide.RecordsInFileOrder` | backend/app/repositories/imported_record.py:39-53 | Whatever order and ids the table has, a job's records are selected in file order |
| `ReadSide.IssuesInValidatorOrder` | backend/app/repositories/import_validation_issue.py:38-56 | A job's issues are selected in the order in which the validator found them |
| `ReadSide.PagesArePrefix` | backend/app/repositories/imported_record.py:46-53 | n consecutive pages are the first n * limit rows |
| `ReadSide.RecordPagesReproduceFile` | backend/app/services/imported_record.py:21-45 | In every reachable state, a page of any offset and size is that slice of the job's records in file order, with their number; consecutive pages that cover it are all of them, each once; the listing is refused exactly out of scope |
| `ReadSide.IssuePagesReproduceReport` | backend/app/services/import_validation_issue.py:26-50 | The same for issues, in validator order |
| `Storage.LocalFileStorage.ReceiveChunks` | backend/app/storage/local.py:48-55 | The chunk loop: content, size and digest grow together, the first bad chunk ends it, and no file ever exceeds the limit |
| `Storage.LocalFileStorage.Store` | backend/app/storage/local.py:46-62 | Writing a new file and every way it can end, with the directory behind it |
| `Storage.LocalFileStorage.Save` | backend/app/storage/local.py:35-62 | `save` as a whole, at no time with more than the limit on disk |
| `Storage.SavedFileOpens` | backend/app/storage/local.py:35-74 | Opening the path a save returned reads the upload back, other paths read as before, and deleting it restores the directory |
| `Storage.LocalFileStorage.Delete` | backend/app/storage/local.py:70-74 | Deletion removes exactly the named file, or reports it missing |
| `Storage.SaveSucceedsExactly` | backend/app/storage/local.py:35-62 | `save` succeeds exactly when the upload is valid (`UploadAcceptedExactly`), its name new, the system willing and the chunks 1 to max bytes; the file is then their concatenation, with its size and digest |
| `Storage.UploadAcceptedExactly` | backend/app/storage/local.py:85-97 | Which names and content types are accepted and with which extension, and the error of the first check that fails |
| `Storage.SaveErrorsExactly` | backend/app/storage/local.py:46-61 | Which error a valid upload fails with: a write error for a name or file that cannot be used, else what the first bad chunk is, else emptiness |
| `Storage.FailedSaveExactly` | backend/app/storage/local.py:56-61 | A failed `save` leaves the directory as it was exactly when its name was not taken; only an uncaught exception leaves a partial file, a prefix of the upload |
| `Storage.TooLargeExactly` | backend/app/storage/local.py:48-53 | Which chunk ends the loop, and when the error is the size limit |
| `Storage.ReceivesExactly` | backend/app/storage/local.py:48-55 | The loop gets through exactly when all chunks are bytes and fit |
| `UploadRoute.UploadChunks` | backend/app/api/routes/datasources.py:31-33 | The reads of the request body are non-empty and concatenate to it |
| `UploadRoute.UploadIsStoredWhole` | backend/app/storage/local.py:35-62 | An undisturbed upload is stored byte for byte exactly when it has 1 to max bytes, for any read size |
| `Uploads.RegisteredExactly` | backend/app/services/uploaded_file.py:39-58 | Exactly when `create` registers an upload, and with which error it is refused; the row has the scope of the call, the stripped name and content type, and the path, size and checksum of the file |
| `UploadRoute.UploadFileRoute.UploadFile` | backend/app/api/routes/datasources.py:92-120 | One call of the route is a save, a registration and a compensation; when it succeeds, the file holds the bytes of the request under a new name and the new row has its scope, name, type, path, size and checksum |
| `Uploads.IntactKeptExactly` | backend/app/api/routes/datasources.py:99-117 | A step leaves every row and every waiting upload its file exactly when it deletes no file in use: neither by a save under its name nor by a compensation |
| `Uploads.FilesKeptExactly` | backend/app/api/routes/datasources.py:99-117 | All through a run from the empty directory on, every row and every waiting upload has its file if and only if no step deletes a file in use |
| `Uploads.RowsHaveTheirFiles` | backend/app/api/routes/datasources.py:99-117 | In every interleaving with new names and no error behind a commit, every row points to a file of its own with its size and checksum, and checksums are unique per datasource |
| `Uploads.FilesAndRowsCorrespond` | backend/app/api/routes/datasources.py:99-120 | If moreover deletions succeed and nothing is cut short, files and rows correspond one to one when all calls are over |
| `Uploads.RefreshFailureLosesFile` | backend/app/services/uploaded_file.py:56-58 | Whenever `create` raises behind its commit and the deletion succeeds, a row without a file remains |
| `UploadWitnesses.RowLosesFileToSave` | backend/app/storage/local.py:43-61 | A run in which a later save draws the name of a registered file and removes it |
| `UploadWitnesses.WaitingUploadLosesFile` | backend/app/storage/local.py:43-61 | A run in which a later save removes a file that is then registered |
| `UploadWitnesses.RowLosesFileToCompensation` | backend/app/api/routes/datasources.py:114-117 | A run in which the compensation removes the file of a committed row |
| `UploadWitnesses.WaitingUploadLosesFileToCompensation` | backend/app/api/routes/datasources.py:114-117 | A run in which the compensation removes the file another upload has stored under the name |
| `UploadWitnesses.SmallUploadIsUsable` | backend/app/storage/local.py:35-62 | These runs exist for the local storage with any positive limit |
| `Uploads.LocalStoreIsSound` | backend/app/storage/local.py:35-62 | The local storage provides what the upload proofs rely on, whatever chunks it is given |

## Left out

- ImportGuarantees.CountersMatchRecords: needs the absence of resurrecting writes, since without it the claim is false (ImportWitnesses.CountersCanBeLost); ImportGuarantees.CountsMatchExactly has no hypothesis.
- ImportLifecycle.LifecycleHolds: needs orderly runs; ImportLifecycleExact.LifecycleExactly says of every run whether the graph, terminal rows, messages and stamps hold.
- ImportLifecycle.TerminalIsAbsorbing: likewise; ImportLifecycleExact.TerminalKeptExactly says of every step whether it changes a terminal row.
- Uploads.RowsHaveTheirFiles: needs new names and registrations that raise only before their commit; Uploads.FilesKeptExactly says of every run whether all files are kept.
- ImportJobServices.ImportJobService.Transition: the wait for a row lock is a hypothesis on the steps of the others; deadlock, lock timeouts and a refresh that raises behind the commit are not modelled.
- ImportExecution.ClaimedRowIsFree: a refused call of `execute` holds the row until its rollback, while the machine ends it within its lock step; that completion or failure may wait for it is not modelled, and changes no table.
- ImportExecution.CsvImportExecutionService.Execute: an exception before or at the claim's own commit is not one of its circumstances; the machine covers it as a crash while the row is locked.
- ImportExecution.CsvImportExecutionService.MarkFailed: the model does not distinguish which statement of the handler raises behind the lock.
- RowValidation.ValidationCharacterised: `int()`, `date.fromisoformat` and `datetime.fromisoformat` are parameters; a conversion to UTC that overflows at the ends of the year range raises something other than ValueError and is not modelled.
- RowValidation.ValidRecordFitsTable: no upper bound of BIGINT is enforced by the code, so none is claimed for the engagement count.
- RowFingerprint.HashInputInjective: SHA-256 is an arbitrary function of the bytes; lone surrogates, which UTF-8 decoding never produces, are not characters of the model.
- Storage.LocalFileStorage.Save: path resolution, symbolic links, a failing mkdir and a failing unlink are not modelled.
- ReadSide.RecordPagesReproduceFile: the pages are read from one unchanging state of the table.
- ImportJobServices.ImportJobService.Create: the key check and the insert are one step; in the database the unique constraint decides between two creators that both passed the check.
- UploadRoute.UploadedFileService.Create: likewise for the checksum check and the insert.
- The CSV byte parser, byte order marks and decoding: library code behind the event sequence.
- Uploads of different files by the import machine: its files are fixed, and neither their status changes nor the deletion of datasources with everything below them is a step.
- Column lengths of keys and messages, indexes, migrations, and the tables of organizations, companies, members and researches.
- Routing, status codes, dependency injection, settings, logging and health checks: no property beyond plumbing.
- The status graph of uploaded files by itself, and listings without pages: they would add easy members only.
