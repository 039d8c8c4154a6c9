/** The CSV summary: an independent pass over the file that must agree with the import. */
module CsvSummary {
  import opened Wrappers
  import opened PyText
  import opened Entities
  import opened CsvImport
  import Rows = RowValidation

  datatype SummaryError = EmptyFile | MalformedCsv | ColumnLimit | RowLimit

  datatype Summary = Summary(rowCount: nat, columnNames: seq<string>)

  function SummaryProblem(maxRows: nat, width: nat, item: Event, index: nat): Option<SummaryError> {
    if item.Fault? || |item.fields| != width then Some(MalformedCsv)
    else if index + 1 > maxRows then Some(RowLimit)
    else None
  }

  function SummaryProblemOf(maxRows: nat, width: nat): (Event, nat) -> Option<SummaryError> {
    (item: Event, index: nat) => SummaryProblem(maxRows, width, item, index)
  }

  function SummaryOf(maxRows: nat, maxColumns: nat, es: seq<Event>): Result<Summary, SummaryError> {
    var items := Items(es);
    if items == [] then Err(EmptyFile)
    else if items[0].Fault? then Err(MalformedCsv)
    else if |items[0].fields| > maxColumns then Err(ColumnLimit)
    else
      var header, data := items[0].fields, items[1..];
      var n := FirstProblem(SummaryProblemOf(maxRows, |header|), data, 0);
      if n == |data| then Ok(Summary(n, header)) else Err(SummaryProblem(maxRows, |header|, data[n], n).value)
  }

  class CsvProcessingService {
    const maxRows: nat
    const maxColumns: nat

    constructor (maxRows: nat, maxColumns: nat)
      ensures this.maxRows == maxRows && this.maxColumns == maxColumns
    {
      this.maxRows := maxRows;
      this.maxColumns := maxColumns;
    }

    /** One pass that keeps a header and a row count; reader errors surface as MalformedCsv. */
    method ReadSummary(reader: seq<Event>) returns (r: Result<Summary, SummaryError>)
      ensures r == SummaryOf(maxRows, maxColumns, reader)
    {
      var header: Option<seq<string>> := None;
      var rowCount := 0;
      ghost var first, data: seq<Event> := Fault, [];
      var i := 0;
      while i < |reader|
        invariant i <= |reader|
        invariant header == None ==> Items(reader[..i]) == [] && data == [] && rowCount == 0
        invariant header.Some? ==>
                    && Items(reader[..i]) == [first] + data
                    && first.Row? && first.fields == header.value && |header.value| <= maxColumns
                    && rowCount == |data|
                    && forall k :: 0 <= k < |data| ==> SummaryProblem(maxRows, |header.value|, data[k], k) == None
      {
        var event := reader[i];
        NextEvent(reader, i);
        ghost var rest := Items(reader[i + 1..]);
        i := i + 1;
        if event.Fault? {
          if header.Some? { SummaryStops(maxRows, maxColumns, reader, first, data, [event] + rest); }
          return Err(MalformedCsv);
        }
        if Blank(event.fields) {
          continue;
        }
        if header == None {
          header := Some(event.fields);
          if |event.fields| > maxColumns {
            return Err(ColumnLimit);
          }
          first := event;
          assert [first] + data == [event];
          continue;
        }
        if |event.fields| != |header.value| {
          SummaryStops(maxRows, maxColumns, reader, first, data, [event] + rest);
          return Err(MalformedCsv);
        }
        rowCount := rowCount + 1;
        if rowCount > maxRows {
          SummaryStops(maxRows, maxColumns, reader, first, data, [event] + rest);
          return Err(RowLimit);
        }
        assert [first] + (data + [event]) == [first] + data + [event];
        data := data + [event];
      }
      assert reader[..i] == reader;
      if header == None {
        return Err(EmptyFile);
      }
      SummaryStops(maxRows, maxColumns, reader, first, data, []);
      return Ok(Summary(rowCount, header.value));
    }
  }

  /** The summary is decided by the first item that has a problem, or by there being none. */
  lemma SummaryStops(maxRows: nat, maxColumns: nat, es: seq<Event>, first: Event, data: seq<Event>, rest: seq<Event>)
    requires Items(es) == [first] + data + rest && first.Row? && |first.fields| <= maxColumns
    requires forall k :: 0 <= k < |data| ==> SummaryProblem(maxRows, |first.fields|, data[k], k) == None
    requires rest != [] ==> SummaryProblem(maxRows, |first.fields|, rest[0], |data|).Some?
    ensures SummaryOf(maxRows, maxColumns, es) ==
            if rest == [] then Ok(Summary(|data|, first.fields))
            else Err(SummaryProblem(maxRows, |first.fields|, rest[0], |data|).value)
  {
    assert Items(es)[1..] == data + rest;
    FirstProblemIs(SummaryProblemOf(maxRows, |first.fields|), data + rest, |data|);
  }

  lemma SummaryStopsAt(maxRows: nat, maxColumns: nat, es: seq<Event>, data: seq<Event>, n: nat)
    requires Items(es) != [] && Items(es)[0].Row? && |Items(es)[0].fields| <= maxColumns
    requires data == Items(es)[1..] && n < |data|
    requires forall k :: 0 <= k < n ==> SummaryProblem(maxRows, |Items(es)[0].fields|, data[k], k) == None
    requires SummaryProblem(maxRows, |Items(es)[0].fields|, data[n], n).Some?
    ensures SummaryOf(maxRows, maxColumns, es) == Err(SummaryProblem(maxRows, |Items(es)[0].fields|, data[n], n).value)
  {
    FirstProblemIs(SummaryProblemOf(maxRows, |Items(es)[0].fields|), data, n);
  }

  // ---------- Agreement with the import ----------

  /** The summary's word for an import error that both passes can meet. */
  function SharedError(e: ImportError): Option<SummaryError> {
    match e
    case EmptyCsvFile => Some(EmptyFile)
    case Unreadable => Some(MalformedCsv)
    case ColumnLimitExceeded => Some(ColumnLimit)
    case RowLimitExceeded => Some(RowLimit)
    case InvalidRecord(issues) => if |issues| == 1 && issues[0].code == "row_width" then Some(MalformedCsv) else None
    case _ => None
  }

  /** The position both passes look for: the first item that is unreadable, too wide or narrow, or over the limit. */
  lemma StructuralProblem(s: Settings, header: seq<string>, mapping: Mapping, item: Event, index: nat)
    ensures SummaryProblem(s.maxRows, |header|, item, index).Some? ==> Problem(s, header, mapping, item, index).Some?
    ensures Problem(s, header, mapping, item, index).Some?
            && SharedError(Problem(s, header, mapping, item, index).value).Some? ==>
              SummaryProblem(s.maxRows, |header|, item, index) == SharedError(Problem(s, header, mapping, item, index).value)
    ensures Problem(s, header, mapping, item, index).Some?
            && SharedError(Problem(s, header, mapping, item, index).value) == None ==>
              && item.Row? && |item.fields| == |header| && ValidatedRow(s, header, mapping, item).Invalid?
              && SummaryProblem(s.maxRows, |header|, item, index) == None
  {
    var p := Problem(s, header, mapping, item, index);
    if p.Some? && p.value.InvalidRecord? && |item.fields| == |header| {
      NotWidth(s, header, mapping, item);
    }
  }

  /** Row validation never uses the code reserved for a wrong width. */
  lemma NotWidth(s: Settings, header: seq<string>, mapping: Mapping, item: Event)
    requires item.Row? && |item.fields| == |header| && ValidatedRow(s, header, mapping, item).Invalid?
    ensures forall k :: 0 <= k < |ValidatedRow(s, header, mapping, item).issues| ==>
              ValidatedRow(s, header, mapping, item).issues[k].code != "row_width"
  {
    var row := Rows.SourceRow(item.line, RowValues(header, item.fields));
    Rows.IssueCodes(s.parsers, mapping, row);
  }

  /** Whatever the import accepts, the summary accepts, with the same row count and the same header up to stripping. */
  lemma AcceptedImportIsSummarised(s: Settings, owner: Owner, mapping: Mapping, es: seq<Event>)
    requires ScanFile(s, owner, mapping, es).outcome.Ok?
    ensures var summary := SummaryOf(s.maxRows, s.maxColumns, es);
            && summary.Ok?
            && summary.value.rowCount == ScanFile(s, owner, mapping, es).outcome.value
            && CheckHeader(s, summary.value.columnNames, mapping).Ok?
            && |CheckHeader(s, summary.value.columnNames, mapping).value| == |summary.value.columnNames|
            && forall i :: 0 <= i < |summary.value.columnNames| ==>
                 CheckHeader(s, summary.value.columnNames, mapping).value[i] == Strip(summary.value.columnNames[i])
  {
    SuccessfulImport(s, owner, mapping, es);
    var items := Items(es);
    HeaderErrorsExactly(s, items[0].fields, mapping);
    var header, data := CheckHeader(s, items[0].fields, mapping).value, items[1..];
    NoSummaryProblem(s, owner, header, mapping, data);
    SummaryStops(s.maxRows, s.maxColumns, es, items[0], data, []);
  }

  lemma NoSummaryProblem(s: Settings, owner: Owner, header: seq<string>, mapping: Mapping, data: seq<Event>)
    requires ScanData(s, owner, header, mapping, data).outcome.Ok?
    ensures forall k :: 0 <= k < |data| ==> SummaryProblem(s.maxRows, |header|, data[k], k) == None
  {
    ScanStops(s, owner, header, mapping, data);
    forall k | 0 <= k < |data| ensures SummaryProblem(s.maxRows, |header|, data[k], k) == None {
      StructuralProblem(s, header, mapping, data[k], k);
    }
  }

  /** An import that stops for a reason the summary also checks makes the summary stop for that reason. */
  lemma SharedErrorsAgree(s: Settings, owner: Owner, mapping: Mapping, es: seq<Event>)
    requires ScanFile(s, owner, mapping, es).outcome.Err?
    requires SharedError(ScanFile(s, owner, mapping, es).outcome.error).Some?
    ensures SummaryOf(s.maxRows, s.maxColumns, es) == Err(SharedError(ScanFile(s, owner, mapping, es).outcome.error).value)
  {
    var items := Items(es);
    if items != [] && items[0].Row? {
      HeaderCharacterised(s, items[0].fields, mapping);
      if CheckHeader(s, items[0].fields, mapping).Ok? {
        DataErrorsAgree(s, owner, mapping, es, CheckHeader(s, items[0].fields, mapping).value);
      }
    }
  }

  lemma DataErrorsAgree(s: Settings, owner: Owner, mapping: Mapping, es: seq<Event>, header: seq<string>)
    requires Items(es) != [] && Items(es)[0].Row? && |Items(es)[0].fields| == |header| <= s.maxColumns
    requires ScanData(s, owner, header, mapping, Items(es)[1..]).outcome.Err?
    requires SharedError(ScanData(s, owner, header, mapping, Items(es)[1..]).outcome.error).Some?
    ensures SummaryOf(s.maxRows, s.maxColumns, es)
            == Err(SharedError(ScanData(s, owner, header, mapping, Items(es)[1..]).outcome.error).value)
  {
    var data := Items(es)[1..];
    var n := |ScanData(s, owner, header, mapping, data).accepted|;
    ScanStops(s, owner, header, mapping, data);
    forall k | 0 <= k < n ensures SummaryProblem(s.maxRows, |header|, data[k], k) == None {
      StructuralProblem(s, header, mapping, data[k], k);
    }
    StructuralProblem(s, header, mapping, data[n], n);
    SummaryStopsAt(s.maxRows, s.maxColumns, es, data, n);
  }

  /** The import accepts a file exactly when the summary does, the header suits the mapping and every row validates. */
  lemma ImportAcceptsExactly(s: Settings, owner: Owner, mapping: Mapping, es: seq<Event>)
    ensures ScanFile(s, owner, mapping, es).outcome.Ok? <==>
            && SummaryOf(s.maxRows, s.maxColumns, es).Ok?
            && CheckHeader(s, Items(es)[0].fields, mapping).Ok?
            && AllImportable(s, CheckHeader(s, Items(es)[0].fields, mapping).value, mapping, Items(es)[1..])
  {
    if ScanFile(s, owner, mapping, es).outcome.Ok? {
      AcceptedImportIsSummarised(s, owner, mapping, es);
      SuccessfulImport(s, owner, mapping, es);
    } else if SharedError(ScanFile(s, owner, mapping, es).outcome.error).Some? {
      SharedErrorsAgree(s, owner, mapping, es);
    } else if CheckHeader(s, Items(es)[0].fields, mapping).Ok? {
      UnsharedError(s, owner, CheckHeader(s, Items(es)[0].fields, mapping).value, mapping, Items(es)[1..]);
    }
  }

  /** What only the import refuses is a row that does not validate. */
  lemma UnsharedError(s: Settings, owner: Owner, header: seq<string>, mapping: Mapping, data: seq<Event>)
    requires ScanData(s, owner, header, mapping, data).outcome.Err?
    requires SharedError(ScanData(s, owner, header, mapping, data).outcome.error) == None
    ensures !AllImportable(s, header, mapping, data)
  {
    ScanStops(s, owner, header, mapping, data);
    var n := |ScanData(s, owner, header, mapping, data).accepted|;
    StructuralProblem(s, header, mapping, data[n], n);
  }

  ghost predicate AllImportable(s: Settings, header: seq<string>, mapping: Mapping, data: seq<Event>) {
    forall k :: 0 <= k < |data| ==> Importable(s, header, mapping, data[k])
  }

  // ---------- The summary on the events of the file ----------

  /** The k-th event that counts is a row of this width. */
  ghost predicate HasWidth(es: seq<Event>, k: nat, width: nat)
    requires k < |Positions(es)|
  {
    EventAt(es, k).Row? && |EventAt(es, k).fields| == width
  }

  /**
   * How a summary ends, on the events of the file: nothing that counts, a fault, or a wide header come
   * first; it counts the rows behind the header when they all have its width and are not too many.
   */
  lemma SummaryExactly(maxRows: nat, maxColumns: nat, es: seq<Event>)
    ensures var r, total := SummaryOf(maxRows, maxColumns, es), |Positions(es)|;
            && (total == 0 ==> r == Err(EmptyFile))
            && (total > 0 && EventAt(es, 0).Fault? ==> r == Err(MalformedCsv))
            && (total > 0 && EventAt(es, 0).Row? && |EventAt(es, 0).fields| > maxColumns ==> r == Err(ColumnLimit))
            && (total > 0 && EventAt(es, 0).Row? && |EventAt(es, 0).fields| <= maxColumns ==>
                 var width := |EventAt(es, 0).fields|;
                 && (r.Ok? <==> total - 1 <= maxRows && forall k :: 0 < k < total ==> HasWidth(es, k, width))
                 && (r.Ok? ==> r.value.rowCount == total - 1 && r.value.columnNames == EventAt(es, 0).fields))
  {
    ItemsExactly(es);
    if Items(es) != [] && Items(es)[0].Row? && |Items(es)[0].fields| <= maxColumns {
      var width, data := |Items(es)[0].fields|, Items(es)[1..];
      var n := FirstProblem(SummaryProblemOf(maxRows, width), data, 0);
      forall k | 0 < k < |Positions(es)| ensures EventAt(es, k) == data[k - 1] { assert data[k - 1] == Items(es)[k]; }
      forall k | 0 <= k < n ensures SummaryProblem(maxRows, width, data[k], k) == None {
        assert SummaryProblemOf(maxRows, width)(data[k], k) == None;
      }
      if n < |data| {
        assert SummaryProblemOf(maxRows, width)(data[n], n).Some?;
        assert EventAt(es, n + 1) == data[n] && n + 1 < |Positions(es)|;
        assert !HasWidth(es, n + 1, width) || n + 1 > maxRows;
      } else {
        SummaryOfAll(maxRows, es, width, data);
      }
    }
  }

  lemma SummaryOfAll(maxRows: nat, es: seq<Event>, width: nat, data: seq<Event>)
    requires |Positions(es)| == 1 + |data| && forall k :: 0 < k < |Positions(es)| ==> EventAt(es, k) == data[k - 1]
    requires forall k :: 0 <= k < |data| ==> SummaryProblem(maxRows, width, data[k], k) == None
    ensures |data| <= maxRows && forall k :: 0 < k < |Positions(es)| ==> HasWidth(es, k, width)
  {
    if |data| > 0 { assert SummaryProblem(maxRows, width, data[|data| - 1], |data| - 1) == None; }
  }

  /** The first row behind the header that has another width, or is one too many, decides the error. */
  lemma SummaryErrorExactly(maxRows: nat, maxColumns: nat, es: seq<Event>, n: nat)
    requires 0 < n < |Positions(es)| && EventAt(es, 0).Row? && |EventAt(es, 0).fields| <= maxColumns
    requires n - 1 <= maxRows && forall k :: 0 < k < n ==> HasWidth(es, k, |EventAt(es, 0).fields|)
    ensures !HasWidth(es, n, |EventAt(es, 0).fields|) ==> SummaryOf(maxRows, maxColumns, es) == Err(MalformedCsv)
    ensures HasWidth(es, n, |EventAt(es, 0).fields|) && n > maxRows ==> SummaryOf(maxRows, maxColumns, es) == Err(RowLimit)
  {
    ItemsExactly(es);
    var data := Items(es)[1..];
    forall k | 0 < k < |Positions(es)| ensures EventAt(es, k) == data[k - 1] { assert data[k - 1] == Items(es)[k]; }
    var width := |EventAt(es, 0).fields|;
    forall k | 0 <= k < n - 1 ensures SummaryProblemOf(maxRows, width)(data[k], k) == None {
      assert HasWidth(es, k + 1, width);
    }
    if !HasWidth(es, n, width) || n > maxRows {
      FirstProblemIs(SummaryProblemOf(maxRows, width), data, n - 1);
    }
  }
}
