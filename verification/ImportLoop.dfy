/** The streaming loop that reads the file once and hands its rows over in batches. */
module ImportLoop {
  import opened Wrappers
  import opened Batching
  import opened Entities
  import opened CsvImport
  import opened ImportJobs
  import Rows = RowValidation
  import RowFingerprint

  /** The first insert_batch call that raises, if one of the first n does. */
  function FirstFault(faults: nat -> bool, n: nat): (f: nat)
    ensures f <= n
    ensures forall k: nat :: k < f ==> !faults(k)
    ensures f < n ==> faults(f)
  {
    if n == 0 then 0
    else if FirstFault(faults, n - 1) < n - 1 then FirstFault(faults, n - 1)
    else if faults(n - 1) then n - 1
    else n
  }

  /** The table side of one open transaction: the argument of every insert_batch call so far. */
  class RecordWriter {
    var calls: seq<seq<Insert>>
    const faults: nat -> bool

    constructor (faults: nat -> bool)
      ensures calls == [] && this.faults == faults
    {
      calls := [];
      this.faults := faults;
    }

    /** Sends a non-empty batch; false stands for SQLAlchemyError. */
    method InsertBatch(records: seq<Insert>) returns (ok: bool)
      modifies this
      ensures records == [] ==> ok && calls == old(calls)
      ensures records != [] ==> ok == !faults(|old(calls)|) && calls == old(calls) + if ok then [records] else []
    {
      ok := true;
      if records == [] {
        return;
      }
      if faults(|calls|) {
        return false;
      }
      calls := calls + [records];
    }
  }

  /**
   * The import of a file when the database may refuse a batch: all batches of the scan up to the first
   * refused one have been sent, and the end is the refusal, or else the end of the scan.
   */
  ghost predicate Imported(size: Size, scan: Scan, faults: nat -> bool, calls: seq<seq<Insert>>, r: Result<nat, ExecuteError>) {
    var handed := Handed(size, scan);
    var sent := FirstFault(faults, |handed|);
    && calls == handed[..sent]
    && r == if sent < |handed| then Err(PersistenceFailed)
            else if scan.outcome.Ok? then Ok(scan.outcome.value)
            else Err(ImportStopped(scan.outcome.error))
  }

  class CsvImportLoop {
    const settings: Settings

    constructor (settings: Settings)
      ensures this.settings == settings
    {
      this.settings := settings;
    }

    /** The checks on one data row, in their order, and the row's image; `before` counts the rows accepted so far. */
    method CheckRow(validator: Rows.ImportRowValidator, owner: Owner, header: seq<string>, item: Event, before: nat)
      returns (r: Result<Insert, ImportError>)
      requires item.Row? && validator.parsers == settings.parsers
      ensures r.Err? ==> Problem(settings, header, validator.mapping, item, before) == Some(r.error)
      ensures r.Ok? ==>
                && Problem(settings, header, validator.mapping, item, before) == None
                && Importable(settings, header, validator.mapping, item)
                && r.value == ToInsert(settings, owner, header, validator.mapping, item)
      ensures r.Ok? ==>
                && r.value.owner == owner && r.value.rowNumber == item.line
                && r.value.rowHash == settings.digest(RowFingerprint.Utf8(RowFingerprint.Serialize(item.fields)))
    {
      if |item.fields| != |header| {
        return Err(InvalidRecord([WidthIssue(item.line)]));
      }
      var totalItems := before + 1;
      if totalItems > settings.maxRows {
        return Err(RowLimitExceeded);
      }
      var result := validator.Validate(Rows.SourceRow(item.line, RowValues(header, item.fields)));
      if result.Invalid? {
        return Err(InvalidRecord(result.issues));
      }
      return Ok(Insert(owner, item.line, settings.digest(RowFingerprint.HashInput(item.fields)), result.record));
    }

    /** One data row: checked, appended to the batch, and the batch handed over when it is full. */
    method ImportRow(validator: Rows.ImportRowValidator, owner: Owner, header: seq<string>, item: Event, before: nat,
                     batch: seq<Insert>, writer: RecordWriter)
      returns (r: Result<seq<Insert>, ExecuteError>)
      requires item.Row? && validator.parsers == settings.parsers && |batch| < settings.batchSize
      modifies writer
      ensures var problem := Problem(settings, header, validator.mapping, item, before);
              && (problem.Some? ==> r == Err(ImportStopped(problem.value)) && writer.calls == old(writer.calls))
              && (problem.None? ==>
                   && Importable(settings, header, validator.mapping, item)
                   && var filled := batch + [ToInsert(settings, owner, header, validator.mapping, item)];
                      if |filled| < settings.batchSize then r == Ok(filled) && writer.calls == old(writer.calls)
                      else if writer.faults(|old(writer.calls)|) then r == Err(PersistenceFailed) && writer.calls == old(writer.calls)
                      else r == Ok([]) && writer.calls == old(writer.calls) + [filled])
    {
      var checked := CheckRow(validator, owner, header, item, before);
      if checked.Err? {
        return Err(ImportStopped(checked.error));
      }
      var filled := batch + [checked.value];
      if |filled| == settings.batchSize {
        var ok := writer.InsertBatch(filled);
        if !ok {
          return Err(PersistenceFailed);
        }
        filled := [];
      }
      return Ok(filled);
    }

    /** The loop has read a header and these data items, and stands before event i. */
    ghost predicate Underway(owner: Owner, mapping: Mapping, reader: seq<Event>, i: nat, header: seq<string>, data: seq<Event>,
                             batch: seq<Insert>, writer: RecordWriter)
      reads writer
    {
      Importing(settings, owner, mapping, reader, i, header, data, writer.calls, batch, writer.faults)
    }

    /** The next row of the file: the loop goes on behind it, or the import ends as the account of the file says. */
    method ImportNext(validator: Rows.ImportRowValidator, owner: Owner, reader: seq<Event>, i: nat, header: seq<string>,
                      ghost data: seq<Event>, before: nat, batch: seq<Insert>, writer: RecordWriter)
      returns (r: Result<seq<Insert>, ExecuteError>)
      requires i < |reader| && reader[i].Row? && !Blank(reader[i].fields) && before == |data|
      requires validator.parsers == settings.parsers
      requires Underway(owner, validator.mapping, reader, i, header, data, batch, writer)
      modifies writer
      ensures r.Ok? ==> Underway(owner, validator.mapping, reader, i + 1, header, data + [reader[i]], r.value, writer)
      ensures r.Err? ==>
                Imported(settings.batchSize, ScanFile(settings, owner, validator.mapping, reader), writer.faults, writer.calls, Err(r.error))
    {
      RowStep(settings, owner, validator.mapping, reader, i, header, data, writer.calls, batch, writer.faults);
      r := ImportRow(validator, owner, header, reader[i], before, batch, writer);
    }

    /** The first row with some text: a header that is accepted, or the end of the import. */
    method ValidateHeader(owner: Owner, mapping: Mapping, reader: seq<Event>, i: nat, writer: RecordWriter)
      returns (r: Result<seq<string>, ExecuteError>)
      requires i < |reader| && reader[i].Row? && !Blank(reader[i].fields) && Items(reader[..i]) == [] && writer.calls == []
      ensures r.Ok? ==> Underway(owner, mapping, reader, i + 1, r.value, [], [], writer)
      ensures r.Err? ==> Imported(settings.batchSize, ScanFile(settings, owner, mapping, reader), writer.faults, writer.calls, Err(r.error))
    {
      StopsBeforeData(settings, owner, mapping, reader, i, writer.faults);
      var header := CheckHeader(settings, reader[i].fields, mapping);
      if header.Err? {
        return Err(ImportStopped(header.error));
      }
      NothingAccepted(settings, owner, mapping, reader, i + 1, header.value);
      return Ok(header.value);
    }

    /** The end of the file: what waits is handed over. */
    method SendRest(owner: Owner, mapping: Mapping, ghost reader: seq<Event>, ghost header: seq<string>, ghost data: seq<Event>,
                    batch: seq<Insert>, totalItems: nat, writer: RecordWriter)
      returns (r: Result<nat, ExecuteError>)
      requires Underway(owner, mapping, reader, |reader|, header, data, batch, writer) && totalItems == |data|
      modifies writer
      ensures Imported(settings.batchSize, ScanFile(settings, owner, mapping, reader), writer.faults, writer.calls, r)
    {
      LoopEnds(settings, owner, mapping, reader, header, data, writer.calls, batch, writer.faults);
      var ok := writer.InsertBatch(batch);
      return if ok then Ok(totalItems) else Err(PersistenceFailed);
    }

    /**
     * One pass over the reader. It hands over exactly the batches of the declarative account, up to the
     * first refused one, and ends as that account says: same rows, same count, same first error.
     */
    method PersistRecords(owner: Owner, mapping: Mapping, reader: seq<Event>, writer: RecordWriter)
      returns (r: Result<nat, ExecuteError>)
      requires writer.calls == []
      modifies writer
      ensures Imported(settings.batchSize, ScanFile(settings, owner, mapping, reader), writer.faults, writer.calls, r)
    {
      var header: Option<seq<string>> := None;
      var totalItems := 0;
      var batch: seq<Insert> := [];
      var validator := new Rows.ImportRowValidator(mapping, settings.parsers);
      ghost var data: seq<Event> := [];
      var i := 0;
      while i < |reader|
        invariant i <= |reader|
        invariant validator.mapping == mapping && validator.parsers == settings.parsers
        invariant header == None ==> Items(reader[..i]) == [] && totalItems == 0 && batch == [] && data == [] && writer.calls == []
        invariant header.Some? ==> totalItems == |data| && Underway(owner, mapping, reader, i, header.value, data, batch, writer)
      {
        var event := reader[i];
        i := i + 1;
        if event.Fault? {
          if header.Some? {
            LoopStops(settings, owner, mapping, reader, i - 1, header.value, data, writer.calls, batch, writer.faults);
          } else {
            StopsBeforeData(settings, owner, mapping, reader, i - 1, writer.faults);
          }
          return Err(ImportStopped(Unreadable));
        }
        if Blank(event.fields) {
          if header.Some? { ReadBlank(settings, mapping, reader, i - 1, header.value, data); } else { NextEvent(reader, i - 1); }
          continue;
        }
        if header == None {
          var validated := ValidateHeader(owner, mapping, reader, i - 1, writer);
          if validated.Err? {
            return Err(validated.error);
          }
          header := Some(validated.value);
          continue;
        }
        var imported := ImportNext(validator, owner, reader, i - 1, header.value, data, totalItems, batch, writer);
        if imported.Err? {
          return Err(imported.error);
        }
        totalItems := totalItems + 1;
        data := data + [event];
        batch := imported.value;
      }
      assert reader[..i] == reader;
      if header == None {
        NothingSent(settings.batchSize, ScanFile(settings, owner, mapping, reader), writer.faults);
        return Err(ImportStopped(EmptyCsvFile));
      }
      r := SendRest(owner, mapping, reader, header.value, data, batch, totalItems, writer);
    }
  }

  /** The first i events are an accepted header and these data items, blank rows aside. */
  ghost predicate Read(s: Settings, mapping: Mapping, es: seq<Event>, i: nat, header: seq<string>, data: seq<Event>) {
    && i <= |es| && |Items(es[..i])| == 1 + |data|
    && Items(es[..i])[1..] == data
    && Items(es[..i])[0].Row? && CheckHeader(s, Items(es[..i])[0].fields, mapping) == Ok(header)
  }

  /** The loop's state after some data rows: all of them importable, the full batches sent, the rest waiting. */
  ghost predicate Accepting(s: Settings, owner: Owner, header: seq<string>, mapping: Mapping, data: seq<Event>,
                            calls: seq<seq<Insert>>, batch: seq<Insert>) {
    && (forall k :: 0 <= k < |data| ==> Problem(s, header, mapping, data[k], k) == None)
    && (forall k :: 0 <= k < |data| ==> Importable(s, header, mapping, data[k]))
    && calls == FullBatches(Image(s, owner, header, mapping, data), s.batchSize)
    && batch == Rest(Image(s, owner, header, mapping, data), s.batchSize)
  }

  /** Where the loop stands behind the header: what it has read, accepted and sent, without a refusal so far. */
  ghost predicate Importing(s: Settings, owner: Owner, mapping: Mapping, es: seq<Event>, i: nat, header: seq<string>,
                            data: seq<Event>, calls: seq<seq<Insert>>, batch: seq<Insert>, faults: nat -> bool) {
    && Read(s, mapping, es, i, header, data)
    && Accepting(s, owner, header, mapping, data, calls, batch)
    && NoFault(faults, |calls|)
  }

  /** One row more: the import stops at it, or the database refuses the batch it fills, or the loop goes on. */
  lemma RowStep(s: Settings, owner: Owner, mapping: Mapping, es: seq<Event>, i: nat, header: seq<string>,
                data: seq<Event>, calls: seq<seq<Insert>>, batch: seq<Insert>, faults: nat -> bool)
    requires i < |es| && Importing(s, owner, mapping, es, i, header, data, calls, batch, faults)
    requires es[i].Row? && NewItem(es[i]) == [es[i]]
    ensures |batch| < s.batchSize
    ensures var problem, scan := Problem(s, header, mapping, es[i], |data|), ScanFile(s, owner, mapping, es);
            && (problem.Some? ==> Imported(s.batchSize, scan, faults, calls, Err(ImportStopped(problem.value))))
            && (problem.None? && Importable(s, header, mapping, es[i]) ==>
                 var filled := batch + [ToInsert(s, owner, header, mapping, es[i])];
                 if |filled| < s.batchSize then
                   Importing(s, owner, mapping, es, i + 1, header, data + [es[i]], calls, filled, faults)
                 else if faults(|calls|) then Imported(s.batchSize, scan, faults, calls, Err(PersistenceFailed))
                 else Importing(s, owner, mapping, es, i + 1, header, data + [es[i]], calls + [filled], [], faults))
  {
    BatchNeverFull(s, owner, header, mapping, data, calls, batch);
    if Problem(s, header, mapping, es[i], |data|).Some? {
      LoopStops(s, owner, mapping, es, i, header, data, calls, batch, faults);
    } else if Importable(s, header, mapping, es[i]) {
      var insert := ToInsert(s, owner, header, mapping, es[i]);
      ReadOne(s, mapping, es, i, header, data);
      AcceptOne(s, owner, header, mapping, data, es[i], calls, batch, insert);
      if |batch| + 1 == s.batchSize {
        LoopRefused(s, owner, mapping, es, i + 1, header, data + [es[i]], calls, batch + [insert], faults);
      }
    }
  }

  lemma BatchNeverFull(s: Settings, owner: Owner, header: seq<string>, mapping: Mapping, data: seq<Event>,
                       calls: seq<seq<Insert>>, batch: seq<Insert>)
    requires Accepting(s, owner, header, mapping, data, calls, batch)
    ensures |batch| < s.batchSize
  {
    FullBatchesLaw(Image(s, owner, header, mapping, data), s.batchSize);
  }

  lemma NothingSent(size: Size, scan: Scan, faults: nat -> bool)
    requires scan.accepted == [] && scan.outcome.Err?
    ensures Imported(size, scan, faults, [], Err(ImportStopped(scan.outcome.error)))
  {
  }

  /** The first item of the file: a fault or a header that is refused ends the import before any row. */
  lemma StopsBeforeData(s: Settings, owner: Owner, mapping: Mapping, es: seq<Event>, i: nat, faults: nat -> bool)
    requires i < |es| && Items(es[..i]) == [] && NewItem(es[i]) == [es[i]]
    ensures es[i].Fault? ==> Imported(s.batchSize, ScanFile(s, owner, mapping, es), faults, [], Err(ImportStopped(Unreadable)))
    ensures es[i].Row? && CheckHeader(s, es[i].fields, mapping).Err? ==>
              Imported(s.batchSize, ScanFile(s, owner, mapping, es), faults, [],
                       Err(ImportStopped(CheckHeader(s, es[i].fields, mapping).error)))
    ensures Items(es[..i + 1]) == [es[i]]
  {
    NextEvent(es, i);
    assert Items(es)[0] == es[i];
    if es[i].Fault? || CheckHeader(s, es[i].fields, mapping).Err? {
      NothingSent(s.batchSize, ScanFile(s, owner, mapping, es), faults);
    }
  }

  lemma ReadOne(s: Settings, mapping: Mapping, es: seq<Event>, i: nat, header: seq<string>, data: seq<Event>)
    requires i < |es| && Read(s, mapping, es, i, header, data) && NewItem(es[i]) == [es[i]]
    ensures Read(s, mapping, es, i + 1, header, data + [es[i]])
  {
    NextEvent(es, i);
  }

  lemma ReadBlank(s: Settings, mapping: Mapping, es: seq<Event>, i: nat, header: seq<string>, data: seq<Event>)
    requires i < |es| && Read(s, mapping, es, i, header, data) && NewItem(es[i]) == []
    ensures Read(s, mapping, es, i + 1, header, data)
  {
    NextEvent(es, i);
  }

  lemma AcceptOne(s: Settings, owner: Owner, header: seq<string>, mapping: Mapping, data: seq<Event>, item: Event,
                  calls: seq<seq<Insert>>, batch: seq<Insert>, insert: Insert)
    requires Accepting(s, owner, header, mapping, data, calls, batch)
    requires Problem(s, header, mapping, item, |data|) == None
    requires Importable(s, header, mapping, item) && insert == ToInsert(s, owner, header, mapping, item)
    ensures |batch| < s.batchSize
    ensures |batch| + 1 < s.batchSize ==> Accepting(s, owner, header, mapping, data + [item], calls, batch + [insert])
    ensures |batch| + 1 == s.batchSize ==>
              Accepting(s, owner, header, mapping, data + [item], calls + [batch + [insert]], [])
  {
    ImageOfMore(s, owner, header, mapping, data, item);
    AppendOne(Image(s, owner, header, mapping, data), insert, s.batchSize);
  }

  lemma ImageOfMore(s: Settings, owner: Owner, header: seq<string>, mapping: Mapping, data: seq<Event>, item: Event)
    requires forall k :: 0 <= k < |data| ==> Importable(s, header, mapping, data[k])
    requires Importable(s, header, mapping, item)
    ensures forall k :: 0 <= k < |data + [item]| ==> Importable(s, header, mapping, (data + [item])[k])
    ensures Image(s, owner, header, mapping, data + [item])
            == Image(s, owner, header, mapping, data) + [ToInsert(s, owner, header, mapping, item)]
  {
  }

  ghost predicate NoFault(faults: nat -> bool, n: nat) {
    forall k: nat :: k < n ==> !faults(k)
  }

  lemma NothingAccepted(s: Settings, owner: Owner, mapping: Mapping, es: seq<Event>, i: nat, header: seq<string>)
    requires 0 < i <= |es| && Items(es[..i]) == [es[i - 1]] && es[i - 1].Row?
    requires CheckHeader(s, es[i - 1].fields, mapping) == Ok(header)
    ensures Read(s, mapping, es, i, header, []) && Accepting(s, owner, header, mapping, [], [], [])
  {
    assert Image(s, owner, header, mapping, []) == [];
  }

  /** The scan of data rows that are fine, followed by nothing or by one that is not. */
  lemma ScanRejects(s: Settings, owner: Owner, header: seq<string>, mapping: Mapping, data: seq<Event>, rest: seq<Event>)
    requires forall k :: 0 <= k < |data| ==> Problem(s, header, mapping, data[k], k) == None
    requires forall k :: 0 <= k < |data| ==> Importable(s, header, mapping, data[k])
    requires rest != [] ==> Problem(s, header, mapping, rest[0], |data|).Some?
    ensures ScanData(s, owner, header, mapping, data + rest)
            == Scan(Image(s, owner, header, mapping, data),
                    if rest == [] then Ok(|data|) else Err(Problem(s, header, mapping, rest[0], |data|).value))
  {
    FirstProblemIs(ProblemOf(s, header, mapping), data + rest, |data|);
    assert (data + rest)[..|data|] == data;
  }

  lemma ScanOfItems(s: Settings, owner: Owner, mapping: Mapping, es: seq<Event>, i: nat, header: seq<string>,
                    data: seq<Event>, rest: seq<Event>)
    requires Read(s, mapping, es, i, header, data) && Items(es) == Items(es[..i]) + rest
    ensures ScanFile(s, owner, mapping, es) == ScanData(s, owner, header, mapping, data + rest)
  {
    assert Items(es)[1..] == data + rest;
    assert Items(es)[0] == Items(es[..i])[0];
  }

  /** When the next item has a problem, the loop has sent all it should and reports that problem. */
  lemma LoopStops(s: Settings, owner: Owner, mapping: Mapping, es: seq<Event>, i: nat, header: seq<string>,
                  data: seq<Event>, calls: seq<seq<Insert>>, batch: seq<Insert>, faults: nat -> bool)
    requires i < |es| && Read(s, mapping, es, i, header, data) && Accepting(s, owner, header, mapping, data, calls, batch)
    requires NoFault(faults, |calls|) && NewItem(es[i]) == [es[i]] && Problem(s, header, mapping, es[i], |data|).Some?
    ensures Imported(s.batchSize, ScanFile(s, owner, mapping, es), faults, calls,
                     Err(ImportStopped(Problem(s, header, mapping, es[i], |data|).value)))
  {
    NextEvent(es, i);
    var rest := [es[i]] + Items(es[i + 1..]);
    assert Items(es) == Items(es[..i]) + rest;
    ScanOfItems(s, owner, mapping, es, i, header, data, rest);
    ScanRejects(s, owner, header, mapping, data, rest);
  }

  /** When the file has ended, one last batch remains unless none is waiting. */
  lemma LoopEnds(s: Settings, owner: Owner, mapping: Mapping, es: seq<Event>, header: seq<string>,
                 data: seq<Event>, calls: seq<seq<Insert>>, batch: seq<Insert>, faults: nat -> bool)
    requires Read(s, mapping, es, |es|, header, data) && Accepting(s, owner, header, mapping, data, calls, batch)
    requires NoFault(faults, |calls|)
    ensures var scan := ScanFile(s, owner, mapping, es);
            && (batch == [] ==> Imported(s.batchSize, scan, faults, calls, Ok(|data|)))
            && (batch != [] && !faults(|calls|) ==> Imported(s.batchSize, scan, faults, calls + [batch], Ok(|data|)))
            && (batch != [] && faults(|calls|) ==> Imported(s.batchSize, scan, faults, calls, Err(PersistenceFailed)))
  {
    assert es[..|es|] == es;
    assert data + [] == data;
    ScanOfItems(s, owner, mapping, es, |es|, header, data, []);
    ScanRejects(s, owner, header, mapping, data, []);
    EndOfBatches(s.batchSize, Scan(Image(s, owner, header, mapping, data), Ok(|data|)), calls, batch, faults);
  }

  lemma EndOfBatches(size: Size, scan: Scan, calls: seq<seq<Insert>>, batch: seq<Insert>, faults: nat -> bool)
    requires scan.outcome.Ok? && calls == FullBatches(scan.accepted, size) && batch == Rest(scan.accepted, size)
    requires NoFault(faults, |calls|)
    ensures batch == [] ==> Imported(size, scan, faults, calls, Ok(scan.outcome.value))
    ensures batch != [] && !faults(|calls|) ==> Imported(size, scan, faults, calls + [batch], Ok(scan.outcome.value))
    ensures batch != [] && faults(|calls|) ==> Imported(size, scan, faults, calls, Err(PersistenceFailed))
  {
  }

  /** A batch just filled: when it is refused, it is the first refused batch of the whole file. */
  lemma LoopRefused(s: Settings, owner: Owner, mapping: Mapping, es: seq<Event>, i: nat, header: seq<string>,
                    data: seq<Event>, calls: seq<seq<Insert>>, batch: seq<Insert>, faults: nat -> bool)
    requires Read(s, mapping, es, i, header, data) && Accepting(s, owner, header, mapping, data, calls + [batch], [])
    requires NoFault(faults, |calls|)
    ensures faults(|calls|) ==> Imported(s.batchSize, ScanFile(s, owner, mapping, es), faults, calls, Err(PersistenceFailed))
    ensures !faults(|calls|) ==> NoFault(faults, |calls + [batch]|)
  {
    if faults(|calls|) {
      assert es == es[..i] + es[i..];
      ItemsConcat(es[..i], es[i..]);
      ScanOfItems(s, owner, mapping, es, i, header, data, Items(es[i..]));
      SentIsPrefix(s, owner, header, mapping, data, Items(es[i..]));
      RefusedBatch(s.batchSize, ScanData(s, owner, header, mapping, data + Items(es[i..])), calls, batch, faults);
    }
  }

  lemma RefusedBatch(size: Size, scan: Scan, calls: seq<seq<Insert>>, batch: seq<Insert>, faults: nat -> bool)
    requires calls + [batch] <= FullBatches(scan.accepted, size) && NoFault(faults, |calls|) && faults(|calls|)
    ensures Imported(size, scan, faults, calls, Err(PersistenceFailed))
  {
    var handed := Handed(size, scan);
    assert FullBatches(scan.accepted, size) <= handed;
    assert FirstFault(faults, |handed|) == |calls|;
  }

  lemma BatchesOfPrefix(image: seq<Insert>, accepted: seq<Insert>, size: Size)
    requires image <= accepted
    ensures FullBatches(image, size) <= FullBatches(accepted, size)
  {
    assert accepted == image + accepted[|image|..];
    FullBatchesStay(image, accepted[|image|..], size);
  }

  /** The batches that are full after some rows are sent whatever follows. */
  lemma SentIsPrefix(s: Settings, owner: Owner, header: seq<string>, mapping: Mapping, data: seq<Event>, rest: seq<Event>)
    requires forall k :: 0 <= k < |data| ==> Problem(s, header, mapping, data[k], k) == None
    requires forall k :: 0 <= k < |data| ==> Importable(s, header, mapping, data[k])
    ensures FullBatches(Image(s, owner, header, mapping, data), s.batchSize)
            <= FullBatches(ScanData(s, owner, header, mapping, data + rest).accepted, s.batchSize)
  {
    AcceptedExtends(s, owner, header, mapping, data, rest);
    BatchesOfPrefix(Image(s, owner, header, mapping, data), ScanData(s, owner, header, mapping, data + rest).accepted, s.batchSize);
  }

  lemma AcceptedExtends(s: Settings, owner: Owner, header: seq<string>, mapping: Mapping, data: seq<Event>, rest: seq<Event>)
    requires forall k :: 0 <= k < |data| ==> Problem(s, header, mapping, data[k], k) == None
    requires forall k :: 0 <= k < |data| ==> Importable(s, header, mapping, data[k])
    ensures Image(s, owner, header, mapping, data) <= ScanData(s, owner, header, mapping, data + rest).accepted
  {
    ScanStops(s, owner, header, mapping, data + rest);
    assert forall k :: 0 <= k < |data| ==> (data + rest)[k] == data[k];
  }
}
