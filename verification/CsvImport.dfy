/** What importing a CSV file means: a declarative account of the streaming loop. */
module CsvImport {
  import opened Wrappers
  import opened PyText
  import opened Batching
  import opened Entities
  import CsvMapping
  import Rows = RowValidation
  import RowFingerprint

  datatype Settings = Settings(
    maxRows: nat,
    maxColumns: nat,
    batchSize: Size,
    parsers: Rows.Parsers,
    digest: seq<RowFingerprint.Byte> -> string)

  // ---------- Header ----------

  function ColumnSet(header: seq<string>): set<string> {
    set c | c in header
  }

  function StripAll(fields: seq<string>): seq<string> {
    seq(|fields|, i requires 0 <= i < |fields| => Strip(fields[i]))
  }

  function CheckHeader(s: Settings, fields: seq<string>, mapping: Mapping): Result<seq<string>, ImportError> {
    var header := StripAll(fields);
    if |header| > s.maxColumns then Err(ColumnLimitExceeded)
    else if "" in header then Err(BlankHeader)
    else if |ColumnSet(header)| != |header| then Err(DuplicateHeader)
    else if !(mapping.Values <= ColumnSet(header)) then Err(MissingMappedColumn)
    else Ok(header)
  }

  ghost predicate Distinct(header: seq<string>) {
    forall i, j :: 0 <= i < j < |header| ==> header[i] != header[j]
  }

  /** The position of every column, the last one winning. */
  function Indexes(header: seq<string>): (m: map<string, nat>)
    ensures forall c :: c in m <==> c in header
    ensures forall c :: c in m ==> m[c] < |header| && header[m[c]] == c
  {
    if header == [] then map[]
    else
      var n := |header| - 1;
      assert header == header[..n] + [header[n]];
      Indexes(header[..n])[header[n] := n]
  }

  function RowValues(header: seq<string>, fields: seq<string>): map<string, string>
    requires |fields| == |header|
  {
    var indexes := Indexes(header);
    map c | c in indexes :: fields[indexes[c]]
  }

  // ---------- Rows ----------

  predicate Blank(fields: seq<string>) {
    forall i :: 0 <= i < |fields| ==> Strip(fields[i]) == ""
  }

  /** The events without the blank rows. */
  function Items(es: seq<Event>): seq<Event> {
    if es == [] then []
    else if es[0].Row? && Blank(es[0].fields) then Items(es[1..])
    else [es[0]] + Items(es[1..])
  }

  function WidthIssue(line: int): Issue {
    Issue(line, "row", None, "row_width", Rows.MESSAGE)
  }

  function ValidatedRow(s: Settings, header: seq<string>, mapping: Mapping, item: Event): Rows.Validation
    requires item.Row? && |item.fields| == |header|
  {
    Rows.Validated(s.parsers, mapping, Rows.SourceRow(item.line, RowValues(header, item.fields)))
  }

  /** Why the import stops at the data item with this index, if it does. */
  function Problem(s: Settings, header: seq<string>, mapping: Mapping, item: Event, index: nat): Option<ImportError> {
    match item
    case Fault => Some(Unreadable)
    case Row(fields, line) =>
      if |fields| != |header| then Some(InvalidRecord([WidthIssue(line)]))
      else if index + 1 > s.maxRows then Some(RowLimitExceeded)
      else
        match ValidatedRow(s, header, mapping, item)
        case Invalid(issues) => Some(InvalidRecord(issues))
        case Valid(_) => None
  }

  /** The first item, from the given position on, that has a problem. */
  function FirstProblem<E>(problem: (Event, nat) -> Option<E>, data: seq<Event>, from: nat): (n: nat)
    requires from <= |data|
    ensures from <= n <= |data|
    ensures forall k :: from <= k < n ==> problem(data[k], k) == None
    ensures n < |data| ==> problem(data[n], n).Some?
    decreases |data| - from
  {
    if from == |data| || problem(data[from], from).Some? then from else FirstProblem(problem, data, from + 1)
  }

  lemma FirstProblemIs<E>(problem: (Event, nat) -> Option<E>, data: seq<Event>, n: nat)
    requires n <= |data|
    requires forall k :: 0 <= k < n ==> problem(data[k], k) == None
    requires n < |data| ==> problem(data[n], n).Some?
    ensures FirstProblem(problem, data, 0) == n
  {
  }

  predicate Importable(s: Settings, header: seq<string>, mapping: Mapping, item: Event) {
    item.Row? && |item.fields| == |header| && ValidatedRow(s, header, mapping, item).Valid?
  }

  function ToInsert(s: Settings, owner: Owner, header: seq<string>, mapping: Mapping, item: Event): Insert
    requires Importable(s, header, mapping, item)
  {
    Insert(owner, item.line, s.digest(RowFingerprint.HashInput(item.fields)), ValidatedRow(s, header, mapping, item).record)
  }

  /** The validated image of a list of data rows, in order. */
  function Image(s: Settings, owner: Owner, header: seq<string>, mapping: Mapping, data: seq<Event>): seq<Insert>
    requires forall k :: 0 <= k < |data| ==> Importable(s, header, mapping, data[k])
  {
    seq(|data|, k requires 0 <= k < |data| => ToInsert(s, owner, header, mapping, data[k]))
  }

  // ---------- The import of a whole file ----------

  function ProblemOf(s: Settings, header: seq<string>, mapping: Mapping): (Event, nat) -> Option<ImportError> {
    (item: Event, index: nat) => Problem(s, header, mapping, item, index)
  }

  function ScanData(s: Settings, owner: Owner, header: seq<string>, mapping: Mapping, data: seq<Event>): Scan {
    var n := FirstProblem(ProblemOf(s, header, mapping), data, 0);
    assert forall k :: 0 <= k < n ==> ProblemOf(s, header, mapping)(data[k], k) == None;
    assert forall k :: 0 <= k < n ==> Importable(s, header, mapping, data[k]);
    Scan(Image(s, owner, header, mapping, data[..n]),
         if n == |data| then Ok(n) else Err(Problem(s, header, mapping, data[n], n).value))
  }

  /** Drop blank rows; the first row is the header; every later row must be importable. */
  function ScanFile(s: Settings, owner: Owner, mapping: Mapping, es: seq<Event>): Scan {
    var items := Items(es);
    if items == [] then Scan([], Err(EmptyCsvFile))
    else if items[0].Fault? then Scan([], Err(Unreadable))
    else
      match CheckHeader(s, items[0].fields, mapping)
      case Err(e) => Scan([], Err(e))
      case Ok(header) => ScanData(s, owner, header, mapping, items[1..])
  }

  // ---------- Properties ----------

  lemma {:induction false} ItemsConcat(a: seq<Event>, b: seq<Event>)
    ensures Items(a + b) == Items(a) + Items(b)
  {
    if a == [] {
      assert a + b == b;
    } else {
      assert (a + b)[1..] == a[1..] + b;
      ItemsConcat(a[1..], b);
    }
  }

  /** How the next event extends the items read so far. */
  lemma NextEvent(es: seq<Event>, i: nat)
    requires i < |es|
    ensures Items(es[..i + 1]) == Items(es[..i]) + NewItem(es[i])
    ensures Items(es) == Items(es[..i]) + NewItem(es[i]) + Items(es[i + 1..])
  {
    OneItem(es[i]);
    assert es[..i + 1] == es[..i] + [es[i]];
    ItemsConcat(es[..i], [es[i]]);
    ItemsSplit(es, i + 1);
  }

  lemma OneItem(e: Event)
    ensures Items([e]) == NewItem(e)
  {
    assert [e][1..] == [];
  }

  lemma ItemsSplit(es: seq<Event>, i: nat)
    requires i <= |es|
    ensures Items(es) == Items(es[..i]) + Items(es[i..])
  {
    assert es == es[..i] + es[i..];
    ItemsConcat(es[..i], es[i..]);
  }

  function NewItem(e: Event): seq<Event> {
    if e.Row? && Blank(e.fields) then [] else [e]
  }

  /** The items are events of the file, in file order. */
  lemma {:induction false} ItemsNumbered(es: seq<Event>)
    requires Numbered(es)
    ensures Numbered(Items(es))
    ensures forall k :: 0 <= k < |Items(es)| ==> Items(es)[k] in es
    ensures forall k :: 0 <= k < |Items(es)| && Items(es)[k].Row? ==> !Blank(Items(es)[k].fields)
  {
    if es != [] {
      ItemsNumbered(es[1..]);
      var later := Items(es[1..]);
      forall k | 0 <= k < |later| ensures later[k] in es && (es[0].Row? && later[k].Row? ==> es[0].line < later[k].line) {
        AfterFirst(es, later[k]);
      }
    }
  }

  lemma AfterFirst(es: seq<Event>, e: Event)
    requires Numbered(es) && es != [] && e in es[1..]
    ensures e in es && (es[0].Row? && e.Row? ==> es[0].line < e.line)
  {
    var m :| 0 <= m < |es[1..]| && es[1..][m] == e;
    assert es[m + 1] == e;
  }

  lemma {:induction false} DistinctSize(header: seq<string>)
    ensures |ColumnSet(header)| <= |header|
    ensures |ColumnSet(header)| == |header| <==> Distinct(header)
  {
    if header != [] {
      var n := |header| - 1;
      var init := header[..n];
      DistinctSize(init);
      assert header == init + [header[n]];
      assert ColumnSet(header) == ColumnSet(init) + {header[n]};
      if header[n] in init {
        assert ColumnSet(header) == ColumnSet(init);
      }
    }
  }

  /** Exactly when a header is accepted. */
  lemma HeaderCharacterised(s: Settings, fields: seq<string>, mapping: Mapping)
    ensures var header := StripAll(fields);
            && (CheckHeader(s, fields, mapping).Ok? <==>
                && |fields| <= s.maxColumns
                && (forall i :: 0 <= i < |header| ==> header[i] != "")
                && Distinct(header)
                && (forall f :: f in mapping ==> mapping[f] in header))
            && (CheckHeader(s, fields, mapping).Ok? ==> CheckHeader(s, fields, mapping).value == header)
  {
    var header := StripAll(fields);
    DistinctSize(header);
    forall f | f in mapping ensures mapping.Values <= ColumnSet(header) ==> mapping[f] in header {
      assert mapping[f] in mapping.Values;
    }
  }

  /** The one column a mapped field is read from. */
  function ColumnOf(header: seq<string>, mapping: Mapping, field: string): nat
    requires field in mapping && mapping[field] in header
  {
    Indexes(header)[mapping[field]]
  }

  /**
   * With an accepted header and mapping every lookup of every data row is in range: each field is
   * read from one column of the row, different fields from different columns, and no issue ever
   * reports a missing column.
   */
  lemma PipelineWellFormed(s: Settings, fields: seq<string>, mapping: Mapping, item: Event)
    requires CsvMapping.Accepted(mapping)
    requires CheckHeader(s, fields, mapping).Ok?
    requires item.Row? && |item.fields| == |fields|
    ensures var header := CheckHeader(s, fields, mapping).value;
            && |header| == |fields|
            && (forall f :: f in mapping ==>
                 && mapping[f] in header
                 && ColumnOf(header, mapping, f) < |item.fields|
                 && mapping[f] in RowValues(header, item.fields)
                 && RowValues(header, item.fields)[mapping[f]] == item.fields[ColumnOf(header, mapping, f)]
                 && Strip(fields[ColumnOf(header, mapping, f)]) == mapping[f])
            && (forall f, g :: f in mapping && g in mapping && f != g ==>
                 ColumnOf(header, mapping, f) != ColumnOf(header, mapping, g))
            && (var r := ValidatedRow(s, header, mapping, item);
                r.Invalid? ==> forall i :: 0 <= i < |r.issues| ==> r.issues[i].code != "missing_source_column")
  {
    HeaderCharacterised(s, fields, mapping);
    var header := CheckHeader(s, fields, mapping).value;
    var values := RowValues(header, item.fields);
    assert forall f :: f in mapping ==> mapping[f] in values;
    if Rows.Validated(s.parsers, mapping, Rows.SourceRow(item.line, values)).Invalid? {
      Rows.IssueCodes(s.parsers, mapping, Rows.SourceRow(item.line, values));
    }
  }

  /** Where the scan of the data rows stops: everything before is importable and accepted in order. */
  lemma ScanStops(s: Settings, owner: Owner, header: seq<string>, mapping: Mapping, data: seq<Event>)
    ensures var scan := ScanData(s, owner, header, mapping, data);
            var n := |scan.accepted|;
            && n <= |data|
            && (forall k :: 0 <= k < n ==>
                 && Problem(s, header, mapping, data[k], k) == None
                 && Importable(s, header, mapping, data[k])
                 && scan.accepted[k] == ToInsert(s, owner, header, mapping, data[k]))
            && (scan.outcome.Ok? ==> scan.outcome.value == n == |data|)
            && (scan.outcome.Err? ==> n < |data| && Problem(s, header, mapping, data[n], n) == Some(scan.outcome.error))
  {
    var problem := ProblemOf(s, header, mapping);
    var n := FirstProblem(problem, data, 0);
    forall k | 0 <= k < n ensures Problem(s, header, mapping, data[k], k) == None { assert problem(data[k], k) == None; }
    if n < |data| { assert problem(data[n], n).Some?; }
  }

  /** The records of a numbered file carry strictly increasing row numbers. */
  lemma AcceptedInFileOrder(s: Settings, owner: Owner, mapping: Mapping, es: seq<Event>)
    requires Numbered(es)
    ensures var a := ScanFile(s, owner, mapping, es).accepted;
            forall i, j :: 0 <= i < j < |a| ==> a[i].rowNumber < a[j].rowNumber
  {
    ItemsNumbered(es);
    if |ScanFile(s, owner, mapping, es).accepted| > 0 {
      var header, data := CheckHeader(s, Items(es)[0].fields, mapping).value, Items(es)[1..];
      DataInFileOrder(s, owner, header, mapping, data);
    }
  }

  lemma DataInFileOrder(s: Settings, owner: Owner, header: seq<string>, mapping: Mapping, data: seq<Event>)
    requires Numbered(data)
    ensures var a := ScanData(s, owner, header, mapping, data).accepted;
            && (forall i, j :: 0 <= i < j < |a| ==> a[i].rowNumber < a[j].rowNumber)
            && (forall i :: 0 <= i < |a| ==> a[i].owner == owner)
  {
    ScanStops(s, owner, header, mapping, data);
    var a := ScanData(s, owner, header, mapping, data).accepted;
    forall i | 0 <= i < |a| ensures data[i].Row? && a[i].rowNumber == data[i].line && a[i].owner == owner {
      assert Importable(s, header, mapping, data[i]);
    }
  }

  /** Every CHECK constraint and every column length of imported_records. */
  ghost predicate FitsTable(row: Insert) {
    Rows.FitsTable(row.record) && row.rowNumber > 0 && |row.rowHash| == 64
  }

  /** No row the import hands over is refused by its table; a SHA-256 digest has 64 hexadecimal digits. */
  lemma AcceptedFitsTable(s: Settings, owner: Owner, mapping: Mapping, es: seq<Event>, k: nat)
    requires forall bytes :: |s.digest(bytes)| == 64
    requires k < |ScanFile(s, owner, mapping, es).accepted|
    ensures FitsTable(ScanFile(s, owner, mapping, es).accepted[k])
  {
    var header, data := CheckHeader(s, Items(es)[0].fields, mapping).value, Items(es)[1..];
    ScanStops(s, owner, header, mapping, data);
    Rows.ValidRecordFitsTable(s.parsers, mapping, Rows.SourceRow(data[k].line, RowValues(header, data[k].fields)));
  }

  lemma AcceptedOwner(s: Settings, owner: Owner, mapping: Mapping, es: seq<Event>)
    ensures var a := ScanFile(s, owner, mapping, es).accepted; forall i :: 0 <= i < |a| ==> a[i].owner == owner
  {
  }

  /** A successful import stores one validated record for every data row, in file order, and nothing else. */
  lemma SuccessfulImport(s: Settings, owner: Owner, mapping: Mapping, es: seq<Event>)
    requires ScanFile(s, owner, mapping, es).outcome.Ok?
    ensures var scan, items := ScanFile(s, owner, mapping, es), Items(es);
            && items != [] && items[0].Row? && CheckHeader(s, items[0].fields, mapping).Ok?
            && scan.outcome.value == |scan.accepted| == |items| - 1
            && |scan.accepted| <= s.maxRows
            && (var header, data := CheckHeader(s, items[0].fields, mapping).value, items[1..];
                forall k :: 0 <= k < |data| ==>
                  Importable(s, header, mapping, data[k]) && scan.accepted[k] == ToInsert(s, owner, header, mapping, data[k]))
  {
    var header, data := CheckHeader(s, Items(es)[0].fields, mapping).value, Items(es)[1..];
    ScanStops(s, owner, header, mapping, data);
    if |data| > 0 { assert Problem(s, header, mapping, data[|data| - 1], |data| - 1) == None; }
  }

  /** A failing import reports the problem of the first data row that has one; all rows before it were fine. */
  lemma FirstErrorReported(s: Settings, owner: Owner, header: seq<string>, mapping: Mapping, data: seq<Event>, n: nat)
    requires n < |data|
    ensures (forall k :: 0 <= k < n ==> Problem(s, header, mapping, data[k], k) == None)
            && Problem(s, header, mapping, data[n], n).Some?
            <==>
            ScanData(s, owner, header, mapping, data).outcome.Err? && |ScanData(s, owner, header, mapping, data).accepted| == n
  {
    ScanStops(s, owner, header, mapping, data);
    var m := |ScanData(s, owner, header, mapping, data).accepted|;
    if m < n { assert m < |data| && ScanData(s, owner, header, mapping, data).outcome.Err?; }
  }

  // ---------- The same on the events of the file ----------

  /** Some character of some field is no white space. */
  ghost predicate HasText(fields: seq<string>) {
    exists i, j :: 0 <= i < |fields| && 0 <= j < |fields[i]| && !IsSpace(fields[i][j])
  }

  /** A row is blank exactly when every character of every field is white space. */
  lemma BlankExactly(fields: seq<string>)
    ensures Blank(fields) <==> !HasText(fields)
  {
    forall i | 0 <= i < |fields| ensures Strip(fields[i]) == "" <==> AllSpace(fields[i]) { StripExactly(fields[i]); }
    if !Blank(fields) {
      var i :| 0 <= i < |fields| && Strip(fields[i]) != "";
      assert !AllSpace(fields[i]);
    }
    if HasText(fields) {
      var i, j :| 0 <= i < |fields| && 0 <= j < |fields[i]| && !IsSpace(fields[i][j]);
      assert !AllSpace(fields[i]);
    }
  }

  /** What counts: a fault, or a row with some text. */
  ghost predicate Counts(e: Event) {
    e.Fault? || HasText(e.fields)
  }

  /** The positions of the events that count, among the first n. */
  ghost function PositionsTo(es: seq<Event>, n: nat): (ps: seq<nat>)
    requires n <= |es|
    ensures forall k :: 0 <= k < |ps| ==> ps[k] < n
  {
    if n == 0 then [] else PositionsTo(es, n - 1) + if Counts(es[n - 1]) then [n - 1] else []
  }

  ghost function Positions(es: seq<Event>): seq<nat> {
    PositionsTo(es, |es|)
  }

  /** The k-th event that counts. */
  ghost function EventAt(es: seq<Event>, k: nat): Event
    requires k < |Positions(es)|
  {
    es[Positions(es)[k]]
  }

  /** Each event that counts has its position, no other has one, and they are in order. */
  lemma {:induction false} PositionsExactly(es: seq<Event>, n: nat)
    requires n <= |es|
    ensures var ps := PositionsTo(es, n);
            && (forall k :: 0 <= k < |ps| ==> ps[k] < n && Counts(es[ps[k]]))
            && (forall j, k :: 0 <= j < k < |ps| ==> ps[j] < ps[k])
            && (forall i: nat :: i < n && Counts(es[i]) ==> i in ps)
  {
    if n > 0 { PositionsExactly(es, n - 1); }
  }

  /** The items are exactly the events that count, in file order. */
  lemma ItemsExactly(es: seq<Event>)
    ensures |Items(es)| == |Positions(es)|
    ensures forall k :: 0 <= k < |Positions(es)| ==> Items(es)[k] == EventAt(es, k)
  {
    PositionsExactly(es, |es|);
    ItemsOfPrefix(es, |es|);
    assert es[..|es|] == es;
  }

  lemma {:induction false} ItemsOfPrefix(es: seq<Event>, n: nat)
    requires n <= |es|
    ensures var ps := PositionsTo(es, n);
            && |Items(es[..n])| == |ps|
            && forall k :: 0 <= k < |ps| ==> ps[k] < n && Items(es[..n])[k] == es[ps[k]]
  {
    if n == 0 {
      assert es[..n] == [];
    } else {
      var m := n - 1;
      ItemsOfPrefix(es, m);
      NextEvent(es, m);
      if es[m].Row? { BlankExactly(es[m].fields); }
    }
  }

  // ---------- Headers and rows ----------

  /** Which error a header is refused with: the first of the four checks that fails. */
  lemma HeaderErrorsExactly(s: Settings, fields: seq<string>, mapping: Mapping)
    ensures var r := CheckHeader(s, fields, mapping);
            var narrow := |fields| <= s.maxColumns;
            var blank := exists i :: 0 <= i < |fields| && AllSpace(fields[i]);
            var duplicate := exists i, j :: 0 <= i < j < |fields| && Strip(fields[i]) == Strip(fields[j]);
            && (r == Err(ColumnLimitExceeded) <==> !narrow)
            && (r == Err(BlankHeader) <==> narrow && blank)
            && (r == Err(DuplicateHeader) <==> narrow && !blank && duplicate)
            && (r == Err(MissingMappedColumn) <==>
                narrow && !blank && !duplicate && exists f :: f in mapping && forall i :: 0 <= i < |fields| ==> Strip(fields[i]) != mapping[f])
            && (r.Ok? ==> |r.value| == |fields| && forall i :: 0 <= i < |fields| ==> r.value[i] == Strip(fields[i]))
  {
    var header := StripAll(fields);
    assert |header| == |fields| && forall i :: 0 <= i < |fields| ==> header[i] == Strip(fields[i]);
    HeaderBlank(fields);
    HeaderDistinct(fields);
    HeaderColumns(fields, mapping);
  }

  lemma HeaderBlank(fields: seq<string>)
    ensures "" in StripAll(fields) <==> exists i :: 0 <= i < |fields| && AllSpace(fields[i])
  {
    var header := StripAll(fields);
    forall i | 0 <= i < |fields| ensures header[i] == "" <==> AllSpace(fields[i]) { StripExactly(fields[i]); }
    if "" in header {
      var i :| 0 <= i < |header| && header[i] == "";
      assert AllSpace(fields[i]);
    }
  }

  lemma HeaderDistinct(fields: seq<string>)
    ensures |ColumnSet(StripAll(fields))| != |StripAll(fields)|
            <==> exists i, j :: 0 <= i < j < |fields| && Strip(fields[i]) == Strip(fields[j])
  {
    var header := StripAll(fields);
    DistinctSize(header);
    if !Distinct(header) {
      var i, j :| 0 <= i < j < |header| && header[i] == header[j];
      assert Strip(fields[i]) == Strip(fields[j]);
    }
    if Distinct(header) {
      forall i, j | 0 <= i < j < |fields| ensures Strip(fields[i]) != Strip(fields[j]) { assert header[i] != header[j]; }
    }
  }

  lemma HeaderColumns(fields: seq<string>, mapping: Mapping)
    ensures !(mapping.Values <= ColumnSet(StripAll(fields)))
            <==> exists f :: f in mapping && forall i :: 0 <= i < |fields| ==> Strip(fields[i]) != mapping[f]
  {
    var header := StripAll(fields);
    if c :| c in mapping.Values && c !in ColumnSet(header) {
      var f :| f in mapping && mapping[f] == c;
      forall i | 0 <= i < |fields| ensures Strip(fields[i]) != mapping[f] { assert header[i] == Strip(fields[i]); }
    }
    forall f | f in mapping && forall i :: 0 <= i < |fields| ==> Strip(fields[i]) != mapping[f]
      ensures mapping[f] in mapping.Values && mapping[f] !in ColumnSet(header)
    {
    }
  }

  /** Why the import stops at a data item, if it does: the first check that fails, with the line of the item. */
  lemma ProblemExactly(s: Settings, header: seq<string>, mapping: Mapping, item: Event, index: nat)
    ensures var r := Problem(s, header, mapping, item, index);
            && (item.Fault? ==> r == Some(Unreadable))
            && (item.Row? && |item.fields| != |header| ==>
                 r == Some(InvalidRecord([Issue(item.line, "row", None, "row_width", "CSV import contains an invalid record.")])))
            && (item.Row? && |item.fields| == |header| && index >= s.maxRows ==> r == Some(RowLimitExceeded))
            && (item.Row? && |item.fields| == |header| && index < s.maxRows ==>
                 && (r == None <==> Importable(s, header, mapping, item))
                 && (r.Some? ==>
                      && r.value.InvalidRecord? && r.value.issues == ValidatedRow(s, header, mapping, item).issues
                      && r.value.issues != []
                      && forall i :: 0 <= i < |r.value.issues| ==> r.value.issues[i].row == item.line))
  {
    if item.Row? && |item.fields| == |header| && ValidatedRow(s, header, mapping, item).Invalid? {
      Rows.IssueCodes(s.parsers, mapping, Rows.SourceRow(item.line, RowValues(header, item.fields)));
    }
  }

  // ---------- Stored rows ----------

  /** The text of a mapped field: that of the cell under its column, stripped, or none if that is blank. */
  ghost predicate Cell(header: seq<string>, mapping: Mapping, fields: seq<string>, field: string, text: Option<string>)
    requires |fields| == |header|
  {
    && (field !in mapping ==> text == None)
    && (field in mapping ==>
         forall i :: 0 <= i < |header| && header[i] == mapping[field] ==>
           text == if AllSpace(fields[i]) then None else Some(Strip(fields[i])))
  }

  ghost predicate Cells(header: seq<string>, mapping: Mapping, fields: seq<string>, text: string -> Option<string>)
    requires |fields| == |header|
  {
    forall f :: Cell(header, mapping, fields, f, text(f))
  }

  /**
   * The stored row of a data row: the scope of its job, its line, the digest of the JSON text of its raw
   * fields, and a record of what the cells stand for.
   */
  ghost predicate StoredImage(s: Settings, owner: Owner, header: seq<string>, mapping: Mapping, item: Event, row: Insert) {
    && item.Row? && |item.fields| == |header|
    && row.owner == owner && row.rowNumber == item.line
    && row.rowHash == s.digest(RowFingerprint.Utf8(RowFingerprint.Serialize(item.fields)))
    && exists text: string -> Option<string> :: Cells(header, mapping, item.fields, text) && Rows.Reads(s.parsers, text, row.record)
  }

  /** In a header without duplicates every column has one position. */
  lemma IndexOfColumn(header: seq<string>, i: nat)
    requires Distinct(header) && i < |header|
    ensures header[i] in Indexes(header) && Indexes(header)[header[i]] == i
  {
    assert header[i] in Indexes(header);
  }

  /** What the loop makes of an importable row is its stored image. */
  lemma ImportedImage(s: Settings, owner: Owner, header: seq<string>, mapping: Mapping, item: Event)
    requires Distinct(header) && (forall f :: f in mapping ==> mapping[f] in header)
    requires Importable(s, header, mapping, item)
    ensures StoredImage(s, owner, header, mapping, item, ToInsert(s, owner, header, mapping, item))
  {
    var row := Rows.SourceRow(item.line, RowValues(header, item.fields));
    assert forall f :: f in mapping ==> mapping[f] in row.values;
    Rows.RecordCharacterised(s.parsers, mapping, row);
    CellTexts(header, mapping, item.fields, item.line);
  }

  lemma CellTexts(header: seq<string>, mapping: Mapping, fields: seq<string>, line: int)
    requires Distinct(header) && (forall f :: f in mapping ==> mapping[f] in header) && |fields| == |header|
    ensures forall f :: f in mapping ==> mapping[f] in RowValues(header, fields)
    ensures Cells(header, mapping, fields, Rows.TextsOf(mapping, Rows.SourceRow(line, RowValues(header, fields))))
  {
    var row := Rows.SourceRow(line, RowValues(header, fields));
    var text := Rows.TextsOf(mapping, row);
    forall f ensures Cell(header, mapping, fields, f, text(f)) {
      if f in mapping {
        forall i | 0 <= i < |header| && header[i] == mapping[f]
          ensures text(f) == if AllSpace(fields[i]) then None else Some(Strip(fields[i]))
        {
          IndexOfColumn(header, i);
          StripExactly(fields[i]);
        }
      }
    }
  }

  /** A data row is importable exactly when the text of every canonical field is acceptable. */
  lemma ImportableExactly(s: Settings, header: seq<string>, mapping: Mapping, item: Event, text: string -> Option<string>)
    requires Distinct(header) && (forall f :: f in mapping ==> mapping[f] in header)
    requires item.Row? && |item.fields| == |header| && Cells(header, mapping, item.fields, text)
    ensures Importable(s, header, mapping, item) <==>
            forall f :: f in CsvMapping.CANONICAL_FIELDS ==> Rows.Acceptable(s.parsers, f, text(f))
  {
    var row := Rows.SourceRow(item.line, RowValues(header, item.fields));
    Rows.ValidationCharacterised(s.parsers, mapping, row);
    CellTexts(header, mapping, item.fields, item.line);
    forall f ensures Rows.ColumnPresent(mapping, row, f) && text(f) == Rows.SourceText(mapping, row, f) {
      assert Cell(header, mapping, item.fields, f, text(f));
      assert Cell(header, mapping, item.fields, f, Rows.TextsOf(mapping, row)(f));
    }
  }

  /** With a digest without collisions, two stored rows share their hash exactly when their raw rows are equal. */
  lemma StoredHashesExactly(s: Settings, owner: Owner, other: Owner, header: seq<string>, header': seq<string>,
                            mapping: Mapping, mapping': Mapping, item: Event, item': Event, row: Insert, row': Insert)
    requires forall a, b :: s.digest(a) == s.digest(b) ==> a == b
    requires StoredImage(s, owner, header, mapping, item, row) && StoredImage(s, other, header', mapping', item', row')
    ensures row.rowHash == row'.rowHash <==> item.fields == item'.fields
  {
    RowFingerprint.HashInputInjective(item.fields, item'.fields);
  }

  // ---------- Files ----------

  /** The first event that counts is a header that is accepted. */
  ghost predicate HeaderAccepted(s: Settings, mapping: Mapping, es: seq<Event>) {
    Positions(es) != [] && EventAt(es, 0).Row? && CheckHeader(s, EventAt(es, 0).fields, mapping).Ok?
  }

  ghost function HeaderOf(s: Settings, mapping: Mapping, es: seq<Event>): seq<string>
    requires HeaderAccepted(s, mapping, es)
  {
    CheckHeader(s, EventAt(es, 0).fields, mapping).value
  }

  /** Each accepted row is the stored image of its data row, whatever comes behind it. */
  lemma AcceptedExactly(s: Settings, owner: Owner, mapping: Mapping, es: seq<Event>, k: nat)
    requires k < |ScanFile(s, owner, mapping, es).accepted|
    ensures k + 1 < |Positions(es)| && HeaderAccepted(s, mapping, es)
    ensures StoredImage(s, owner, HeaderOf(s, mapping, es), mapping, EventAt(es, k + 1), ScanFile(s, owner, mapping, es).accepted[k])
  {
    ItemsExactly(es);
    var header, data := CheckHeader(s, Items(es)[0].fields, mapping).value, Items(es)[1..];
    HeaderCharacterised(s, Items(es)[0].fields, mapping);
    ScanStops(s, owner, header, mapping, data);
    assert data[k] == EventAt(es, k + 1);
    ImportedImage(s, owner, header, mapping, data[k]);
  }

  /**
   * How the import of a file ends, on its events: nothing that counts, a fault or a refused header come
   * first; then the first data row with a problem decides, and without one the rows are counted.
   */
  lemma FileExactly(s: Settings, owner: Owner, mapping: Mapping, es: seq<Event>)
    ensures var scan, total := ScanFile(s, owner, mapping, es), |Positions(es)|;
            && (total == 0 ==> scan == Scan([], Err(EmptyCsvFile)))
            && (total > 0 && EventAt(es, 0).Fault? ==> scan == Scan([], Err(Unreadable)))
            && (total > 0 && EventAt(es, 0).Row? && CheckHeader(s, EventAt(es, 0).fields, mapping).Err? ==>
                 scan == Scan([], Err(CheckHeader(s, EventAt(es, 0).fields, mapping).error)))
            && (HeaderAccepted(s, mapping, es) ==>
                 var header, n := HeaderOf(s, mapping, es), |scan.accepted|;
                 && n < total
                 && (forall k :: 0 < k <= n ==> Problem(s, header, mapping, EventAt(es, k), k - 1) == None)
                 && (scan.outcome.Ok? <==> n + 1 == total)
                 && (scan.outcome.Ok? ==> scan.outcome.value == n)
                 && (scan.outcome.Err? ==> Problem(s, header, mapping, EventAt(es, n + 1), n) == Some(scan.outcome.error)))
  {
    ItemsExactly(es);
    if HeaderAccepted(s, mapping, es) {
      var header, data := HeaderOf(s, mapping, es), Items(es)[1..];
      ScanStops(s, owner, header, mapping, data);
      forall k | 0 < k < |Positions(es)| ensures EventAt(es, k) == data[k - 1] { assert data[k - 1] == Items(es)[k]; }
    }
  }

  /** A file is imported exactly when its header is accepted, its rows are not too many and all of them importable. */
  lemma FileSucceedsExactly(s: Settings, owner: Owner, mapping: Mapping, es: seq<Event>)
    ensures ScanFile(s, owner, mapping, es).outcome.Ok? <==>
              && HeaderAccepted(s, mapping, es) && |Positions(es)| - 1 <= s.maxRows
              && forall k :: 0 < k < |Positions(es)| ==> Importable(s, HeaderOf(s, mapping, es), mapping, EventAt(es, k))
  {
    FileExactly(s, owner, mapping, es);
    if HeaderAccepted(s, mapping, es) {
      var header, n := HeaderOf(s, mapping, es), |ScanFile(s, owner, mapping, es).accepted|;
      forall k | 0 < k < |Positions(es)|
        ensures Problem(s, header, mapping, EventAt(es, k), k - 1) == None
                <==> Importable(s, header, mapping, EventAt(es, k)) && k <= s.maxRows
      {
        ProblemExactly(s, header, mapping, EventAt(es, k), k - 1);
      }
      if n > 0 { assert Problem(s, header, mapping, EventAt(es, n), n - 1) == None; }
    }
  }
}
