/** Validation of one CSV row against the canonical fields. */
module RowValidation {
  import opened Wrappers
  import opened PyText
  import opened Batching
  import opened Entities
  import CsvMapping

  /** What datetime.fromisoformat returns: with or without an offset. */
  datatype ParsedTime = Naive | Aware(instant: Instant)

  /** The library parsers the converters call; None stands for ValueError. */
  datatype Parsers = Parsers(
    isDigit: char -> bool,
    midnightOf: string -> Option<Instant>,
    isoTime: string -> Option<ParsedTime>,
    integer: string -> Option<int>)

  datatype Value = Absent | Text(text: string) | Number(number: int) | Moment(moment: Instant)

  datatype Kind = ContentText | ShortText | DateTime | Engagement | Sentiment

  datatype Definition = Definition(field: string, required: bool, kind: Kind)

  const DEFINITIONS: seq<Definition> := [
    Definition("content", true, ContentText),
    Definition("published_at", false, DateTime),
    Definition("author", false, ShortText),
    Definition("engagement_count", false, Engagement),
    Definition("sentiment", false, Sentiment),
    Definition("source_name", false, ShortText)
  ]

  const SENTIMENTS: set<string> := {"positive", "negative", "neutral"}

  const MAX_CONTENT := 20000
  const MAX_SHORT_TEXT := 255
  const MESSAGE := "CSV import contains an invalid record."

  datatype SourceRow = SourceRow(number: int, values: map<string, string>)

  /** Either a record or a non-empty list of issues. */
  datatype Validation = Valid(record: Record) | Invalid(issues: seq<Issue>)

  // ---------- Converters ----------

  function OptionalValue(value: string): Option<string> {
    if Strip(value) == "" then None else Some(Strip(value))
  }

  /** The pattern ^\d{4}-\d{2}-\d{2}$. */
  predicate LooksLikeDate(p: Parsers, s: string) {
    && |s| == 10
    && s[4] == '-' && s[7] == '-'
    && forall i :: 0 <= i < 10 && i != 4 && i != 7 ==> p.isDigit(s[i])
  }

  function ReplaceZ(s: string): string {
    if s == [] then [] else (if s[0] == 'Z' then "+00:00" else [s[0]]) + ReplaceZ(s[1..])
  }

  function ConvertDateTime(p: Parsers, s: string): Option<Instant> {
    if LooksLikeDate(p, s) then p.midnightOf(s)
    else if 'T' !in s then None
    else
      match p.isoTime(ReplaceZ(s))
      case Some(Aware(t)) => Some(t)
      case _ => None
  }

  function ConvertEngagement(p: Parsers, s: string): Result<Value, string> {
    match p.integer(s)
    case None => Err("invalid_integer")
    case Some(n) => if n < 0 then Err("negative_integer") else Ok(Number(n))
  }

  /** Every converter passes a missing value through. */
  function Convert(p: Parsers, kind: Kind, value: Option<string>): Result<Value, string> {
    match value
    case None => Ok(Absent)
    case Some(s) =>
      match kind
      case ContentText => if |s| > MAX_CONTENT then Err("content_too_long") else Ok(Text(s))
      case ShortText => if |s| > MAX_SHORT_TEXT then Err("value_too_long") else Ok(Text(s))
      case DateTime =>
        (match ConvertDateTime(p, s)
         case Some(t) => Ok(Moment(t))
         case None => Err("invalid_datetime"))
      case Engagement => ConvertEngagement(p, s)
      case Sentiment => if s in SENTIMENTS then Ok(Text(s)) else Err("invalid_sentiment")
  }

  // ---------- Specification ----------

  /** The outcome for one field: its value, or the one issue it raises. */
  function FieldOutcome(p: Parsers, mapping: Mapping, row: SourceRow, d: Definition): Result<Value, Issue> {
    var column := if d.field in mapping then Some(mapping[d.field]) else None;
    if column.Some? && column.value !in row.values then
      Err(Issue(row.number, d.field, column, "missing_source_column", MESSAGE))
    else
      var raw := if column.Some? then OptionalValue(row.values[column.value]) else None;
      match Convert(p, d.kind, raw)
      case Err(code) => Err(Issue(row.number, d.field, column, code, MESSAGE))
      case Ok(v) =>
        if d.required && v == Absent then Err(Issue(row.number, d.field, column, "required", MESSAGE))
        else Ok(v)
  }

  /** The issues of the first n fields, in definition order. */
  function IssuesOf(p: Parsers, mapping: Mapping, row: SourceRow, n: nat): seq<Issue>
    requires n <= |DEFINITIONS|
  {
    if n == 0 then []
    else
      IssuesOf(p, mapping, row, n - 1)
      + match FieldOutcome(p, mapping, row, DEFINITIONS[n - 1])
        case Ok(_) => []
        case Err(issue) => [issue]
  }

  function TextOf(v: Value): Option<string> {
    if v.Text? then Some(v.text) else None
  }

  function NumberOf(v: Value): Option<int> {
    if v.Number? then Some(v.number) else None
  }

  function MomentOf(v: Value): Option<Instant> {
    if v.Moment? then Some(v.moment) else None
  }

  function FieldValue(p: Parsers, mapping: Mapping, row: SourceRow, i: nat): Value
    requires i < |DEFINITIONS|
  {
    match FieldOutcome(p, mapping, row, DEFINITIONS[i])
    case Ok(v) => v
    case Err(_) => Absent
  }

  const EMPTY := Record("", None, None, None, None, None)

  /** A record with the value of one more field. */
  function SetField(r: Record, field: string, v: Value): Record {
    if field == "content" then r.(content := if v.Text? then v.text else "")
    else if field == "published_at" then r.(publishedAt := MomentOf(v))
    else if field == "author" then r.(author := TextOf(v))
    else if field == "engagement_count" then r.(engagementCount := NumberOf(v))
    else if field == "sentiment" then r.(sentiment := TextOf(v))
    else r.(sourceName := TextOf(v))
  }

  /** The record made of the first n fields. */
  function RecordOf(p: Parsers, mapping: Mapping, row: SourceRow, n: nat): Record
    requires n <= |DEFINITIONS|
  {
    if n == 0 then EMPTY
    else SetField(RecordOf(p, mapping, row, n - 1), DEFINITIONS[n - 1].field, FieldValue(p, mapping, row, n - 1))
  }

  function Validated(p: Parsers, mapping: Mapping, row: SourceRow): Validation {
    var issues := IssuesOf(p, mapping, row, |DEFINITIONS|);
    if issues == [] then Valid(RecordOf(p, mapping, row, |DEFINITIONS|)) else Invalid(issues)
  }

  // ---------- The validating loop ----------

  class ImportRowValidator {
    const mapping: Mapping
    const parsers: Parsers

    constructor (mapping: Mapping, parsers: Parsers)
      ensures this.mapping == mapping && this.parsers == parsers
    {
      this.mapping := mapping;
      this.parsers := parsers;
    }

    /** One pass over the definitions, filling a dictionary of values and a list of issues. */
    method Validate(row: SourceRow) returns (r: Validation)
      ensures r == Validated(parsers, mapping, row)
    {
      var values: map<string, Value> := map[];
      var issues: seq<Issue> := [];
      var i := 0;
      while i < |DEFINITIONS|
        invariant i <= |DEFINITIONS|
        invariant issues == IssuesOf(parsers, mapping, row, i)
        invariant forall k :: 0 <= k < |DEFINITIONS| ==>
                    (DEFINITIONS[k].field in values <==>
                     k < i && FieldOutcome(parsers, mapping, row, DEFINITIONS[k]).Ok?)
        invariant forall k :: 0 <= k < i && DEFINITIONS[k].field in values ==>
                    values[DEFINITIONS[k].field] == FieldValue(parsers, mapping, row, k)
      {
        var d := DEFINITIONS[i];
        i := i + 1;
        var column := if d.field in mapping then Some(mapping[d.field]) else None;
        if column.Some? && column.value !in row.values {
          issues := issues + [Issue(row.number, d.field, column, "missing_source_column", MESSAGE)];
          continue;
        }
        var raw := if column.Some? then OptionalValue(row.values[column.value]) else None;
        var converted := Convert(parsers, d.kind, raw);
        if converted.Err? {
          issues := issues + [Issue(row.number, d.field, column, converted.error, MESSAGE)];
          continue;
        }
        if d.required && converted.value == Absent {
          issues := issues + [Issue(row.number, d.field, column, "required", MESSAGE)];
          continue;
        }
        values := values[d.field := converted.value];
      }
      if issues != [] {
        return Invalid(issues);
      }
      NoIssues(parsers, mapping, row, |DEFINITIONS|);
      forall k | 0 <= k < |DEFINITIONS|
        ensures DEFINITIONS[k].field in values && values[DEFINITIONS[k].field] == FieldValue(parsers, mapping, row, k)
      {
        assert FieldOutcome(parsers, mapping, row, DEFINITIONS[k]).Ok?;
      }
      var record := Assemble(row, values);
      return Valid(record);
    }

    /** The record behind the loop, field by field from the dictionary. */
    method Assemble(row: SourceRow, values: map<string, Value>) returns (record: Record)
      requires IssuesOf(parsers, mapping, row, |DEFINITIONS|) == []
      requires forall k :: 0 <= k < |DEFINITIONS| ==>
                 DEFINITIONS[k].field in values && values[DEFINITIONS[k].field] == FieldValue(parsers, mapping, row, k)
      ensures Valid(record) == Validated(parsers, mapping, row)
    {
      NoIssues(parsers, mapping, row, |DEFINITIONS|);
      ContentIsText(parsers, mapping, row);
      RecordFields(parsers, mapping, row);
      record := Record(
        values[DEFINITIONS[0].field].text,
        MomentOf(values[DEFINITIONS[1].field]),
        TextOf(values[DEFINITIONS[2].field]),
        NumberOf(values[DEFINITIONS[3].field]),
        TextOf(values[DEFINITIONS[4].field]),
        TextOf(values[DEFINITIONS[5].field]));
    }
  }

  // ---------- Properties ----------

  lemma RecordFields(p: Parsers, mapping: Mapping, row: SourceRow)
    ensures var v := (i: nat) requires i < |DEFINITIONS| => FieldValue(p, mapping, row, i);
            RecordOf(p, mapping, row, |DEFINITIONS|)
            == Record(if v(0).Text? then v(0).text else "", MomentOf(v(1)), TextOf(v(2)), NumberOf(v(3)), TextOf(v(4)), TextOf(v(5)))
  {
    var v := (i: nat) requires i < |DEFINITIONS| => FieldValue(p, mapping, row, i);
    var content := if v(0).Text? then v(0).text else "";
    assert RecordOf(p, mapping, row, 1) == EMPTY.(content := content);
    assert RecordOf(p, mapping, row, 2) == Record(content, MomentOf(v(1)), None, None, None, None);
    assert RecordOf(p, mapping, row, 3) == Record(content, MomentOf(v(1)), TextOf(v(2)), None, None, None);
    assert RecordOf(p, mapping, row, 4) == Record(content, MomentOf(v(1)), TextOf(v(2)), NumberOf(v(3)), None, None);
    assert RecordOf(p, mapping, row, 5) == Record(content, MomentOf(v(1)), TextOf(v(2)), NumberOf(v(3)), TextOf(v(4)), None);
  }

  lemma {:induction false} NoIssues(p: Parsers, mapping: Mapping, row: SourceRow, n: nat)
    requires n <= |DEFINITIONS|
    ensures IssuesOf(p, mapping, row, n) == [] <==>
            forall k :: 0 <= k < n ==> FieldOutcome(p, mapping, row, DEFINITIONS[k]).Ok?
  {
    if n > 0 {
      NoIssues(p, mapping, row, n - 1);
    }
  }

  /** The RuntimeError for a content that is no text is never raised. */
  lemma ContentIsText(p: Parsers, mapping: Mapping, row: SourceRow)
    requires FieldOutcome(p, mapping, row, DEFINITIONS[0]).Ok?
    ensures FieldValue(p, mapping, row, 0).Text?
  {
  }

  /** The positions of the fields among the first n that raise an issue. */
  function Failing(p: Parsers, mapping: Mapping, row: SourceRow, n: nat): seq<nat>
    requires n <= |DEFINITIONS|
  {
    if n == 0 then []
    else
      Failing(p, mapping, row, n - 1)
      + if FieldOutcome(p, mapping, row, DEFINITIONS[n - 1]).Err? then [n - 1] else []
  }

  /** Issues come in definition order, one for every failing field and none for any other. */
  lemma {:induction false} IssuesInOrder(p: Parsers, mapping: Mapping, row: SourceRow, n: nat)
    requires n <= |DEFINITIONS|
    ensures var issues, failing := IssuesOf(p, mapping, row, n), Failing(p, mapping, row, n);
            && |issues| == |failing|
            && (forall i :: 0 <= i < |failing| ==>
                 failing[i] < n && FieldOutcome(p, mapping, row, DEFINITIONS[failing[i]]) == Err(issues[i]))
            && (forall i, j :: 0 <= i < j < |failing| ==> failing[i] < failing[j])
            && (forall k: nat :: k < n && FieldOutcome(p, mapping, row, DEFINITIONS[k]).Err? ==> k in failing)
  {
    FailingFields(p, mapping, row, n);
    if n > 0 {
      var m := n - 1;
      IssuesInOrder(p, mapping, row, m);
      OneFieldMore(p, mapping, row, m);
    }
  }

  /** These are the numbers below n with this property, in order. */
  ghost predicate Lists(failing: seq<nat>, n: nat, fails: nat -> bool) {
    && (forall i :: 0 <= i < |failing| ==> failing[i] < n && fails(failing[i]))
    && (forall i, j :: 0 <= i < j < |failing| ==> failing[i] < failing[j])
    && (forall k: nat :: k < n && fails(k) ==> k in failing)
  }

  lemma ListsOneMore(failing: seq<nat>, m: nat, fails: nat -> bool)
    requires Lists(failing, m, fails)
    ensures Lists(failing + if fails(m) then [m] else [], m + 1, fails)
  {
    assert forall k :: k in failing + (if fails(m) then [m] else []) <==> k in failing || (fails(m) && k == m);
  }

  predicate Fails(p: Parsers, mapping: Mapping, row: SourceRow, k: nat) {
    k < |DEFINITIONS| && FieldOutcome(p, mapping, row, DEFINITIONS[k]).Err?
  }

  /** The positions of the failing fields, all of them and in order. */
  lemma {:induction false} FailingFields(p: Parsers, mapping: Mapping, row: SourceRow, n: nat)
    requires n <= |DEFINITIONS|
    ensures Lists(Failing(p, mapping, row, n), n, (k: nat) => Fails(p, mapping, row, k))
  {
    if n > 0 {
      var m := n - 1;
      FailingFields(p, mapping, row, m);
      ListsOneMore(Failing(p, mapping, row, m), m, (k: nat) => Fails(p, mapping, row, k));
      assert Failing(p, mapping, row, n)
             == Failing(p, mapping, row, m) + if Fails(p, mapping, row, m) then [m] else [];
    }
  }

  lemma OneFieldMore(p: Parsers, mapping: Mapping, row: SourceRow, m: nat)
    requires m < |DEFINITIONS|
    ensures match FieldOutcome(p, mapping, row, DEFINITIONS[m])
            case Ok(_) =>
              && IssuesOf(p, mapping, row, m + 1) == IssuesOf(p, mapping, row, m)
              && Failing(p, mapping, row, m + 1) == Failing(p, mapping, row, m)
            case Err(issue) =>
              && IssuesOf(p, mapping, row, m + 1) == IssuesOf(p, mapping, row, m) + [issue]
              && Failing(p, mapping, row, m + 1) == Failing(p, mapping, row, m) + [m]
  {
  }

  /** A field's issue names the field and the row, and one of the known codes. */
  lemma FieldIssue(p: Parsers, mapping: Mapping, row: SourceRow, d: Definition)
    requires FieldOutcome(p, mapping, row, d).Err?
    ensures var issue := FieldOutcome(p, mapping, row, d).error;
            && issue.field == d.field && issue.row == row.number
            && (issue.column.Some? <==> d.field in mapping) && (issue.column.Some? ==> issue.column.value == mapping[d.field])
            && (issue.code == "missing_source_column" <==> d.field in mapping && mapping[d.field] !in row.values)
            && issue.code != "row_width"
  {
  }

  /** The canonical fields in the order in which they are checked; only the content is required. */
  lemma DefinitionsExactly()
    ensures |DEFINITIONS| == 6
    ensures DEFINITIONS[0].field == "content" && DEFINITIONS[1].field == "published_at" && DEFINITIONS[2].field == "author"
    ensures DEFINITIONS[3].field == "engagement_count" && DEFINITIONS[4].field == "sentiment" && DEFINITIONS[5].field == "source_name"
    ensures forall k :: 0 <= k < 6 ==> (DEFINITIONS[k].required <==> k == 0)
  {
  }

  /** The text a field takes from the row: absent when unmapped or blank. */
  function SourceText(mapping: Mapping, row: SourceRow, field: string): Option<string>
    requires field in mapping ==> mapping[field] in row.values
  {
    if field in mapping && Strip(row.values[mapping[field]]) != "" then Some(Strip(row.values[mapping[field]])) else None
  }

  /** Four digits, a dash, two digits, a dash, two digits. */
  predicate DateShape(p: Parsers, s: string) {
    && |s| == 10
    && p.isDigit(s[0]) && p.isDigit(s[1]) && p.isDigit(s[2]) && p.isDigit(s[3])
    && s[4] == '-' && p.isDigit(s[5]) && p.isDigit(s[6])
    && s[7] == '-' && p.isDigit(s[8]) && p.isDigit(s[9])
  }

  /** The characters of a text, every Z as the offset it stands for. */
  function Offsets(s: string): seq<string> {
    seq(|s|, i requires 0 <= i < |s| => if s[i] == 'Z' then "+00:00" else [s[i]])
  }

  /** The point in time a text stands for: midnight of a date, or a time with an offset. */
  predicate TimeReads(p: Parsers, s: string, t: Instant) {
    if DateShape(p, s) then p.midnightOf(s) == Some(t)
    else 'T' in s && p.isoTime(Flatten(Offsets(s))) == Some(Aware(t))
  }

  lemma {:induction false} ReplaceZExactly(s: string)
    ensures ReplaceZ(s) == Flatten(Offsets(s))
  {
    if s != [] {
      ReplaceZExactly(s[1..]);
      assert Offsets(s) == [if s[0] == 'Z' then "+00:00" else [s[0]]] + Offsets(s[1..]);
    }
  }

  /** The converter accepts exactly the texts that stand for a point in time, and yields it. */
  lemma TimeExactly(p: Parsers, s: string, t: Instant)
    ensures ConvertDateTime(p, s) == Some(t) <==> TimeReads(p, s, t)
  {
    ReplaceZExactly(s);
    assert LooksLikeDate(p, s) <==> DateShape(p, s);
  }

  /** What the documentation of the table and the service ask of each field. */
  ghost predicate Acceptable(p: Parsers, field: string, text: Option<string>) {
    && (field == "content" ==> text.Some? && |text.value| <= 20000)
    && (field in {"author", "source_name"} && text.Some? ==> |text.value| <= 255)
    && (field == "sentiment" && text.Some? ==> text.value in {"positive", "negative", "neutral"})
    && (field == "engagement_count" && text.Some? ==> exists n :: 0 <= n && p.integer(text.value) == Some(n))
    && (field == "published_at" && text.Some? ==> exists t :: TimeReads(p, text.value, t))
  }

  /** The column mapped to a field is in the row, if one is mapped. */
  predicate ColumnPresent(mapping: Mapping, row: SourceRow, field: string) {
    field in mapping ==> mapping[field] in row.values
  }

  /** A row yields a record exactly when every mapped column is there and every field is acceptable. */
  lemma ValidationCharacterised(p: Parsers, mapping: Mapping, row: SourceRow)
    ensures Validated(p, mapping, row).Valid? <==>
            forall f :: f in CsvMapping.CANONICAL_FIELDS ==>
              ColumnPresent(mapping, row, f) && Acceptable(p, f, SourceText(mapping, row, f))
  {
    NoIssues(p, mapping, row, |DEFINITIONS|);
    forall k | 0 <= k < |DEFINITIONS|
      ensures FieldOutcome(p, mapping, row, DEFINITIONS[k]).Ok? <==>
              && ColumnPresent(mapping, row, DEFINITIONS[k].field)
              && Acceptable(p, DEFINITIONS[k].field, SourceText(mapping, row, DEFINITIONS[k].field))
    {
      if ColumnPresent(mapping, row, DEFINITIONS[k].field) { FieldCharacterised(p, mapping, row, k); }
    }
    assert forall f :: f in CsvMapping.CANONICAL_FIELDS ==> exists k :: 0 <= k < |DEFINITIONS| && DEFINITIONS[k].field == f by {
      AllFieldsDefined();
    }
    assert forall k :: 0 <= k < |DEFINITIONS| ==> DEFINITIONS[k].field in CsvMapping.CANONICAL_FIELDS;
  }

  /** Every field of a record is what the text of its own column stands for. */
  ghost predicate Reads(p: Parsers, text: string -> Option<string>, r: Record) {
    && text("content") == Some(r.content)
    && text("author") == r.author
    && text("sentiment") == r.sentiment
    && text("source_name") == r.sourceName
    && (text("published_at") == None <==> r.publishedAt == None)
    && (r.publishedAt.Some? ==> TimeReads(p, text("published_at").value, r.publishedAt.value))
    && (text("engagement_count") == None <==> r.engagementCount == None)
    && (r.engagementCount.Some? ==> p.integer(text("engagement_count").value) == r.engagementCount)
  }

  function TextsOf(mapping: Mapping, row: SourceRow): string -> Option<string>
    requires forall f :: f in mapping ==> mapping[f] in row.values
  {
    (field: string) => if field in mapping && mapping[field] in row.values then SourceText(mapping, row, field) else None
  }

  /** Each stored field is what the text of its own column stands for. */
  lemma RecordCharacterised(p: Parsers, mapping: Mapping, row: SourceRow)
    requires forall f :: f in mapping ==> mapping[f] in row.values
    requires Validated(p, mapping, row).Valid?
    ensures Reads(p, TextsOf(mapping, row), Validated(p, mapping, row).record)
  {
    RecordFields(p, mapping, row);
    NoIssues(p, mapping, row, |DEFINITIONS|);
    var text := TextsOf(mapping, row);
    forall f ensures text(f) == SourceText(mapping, row, f) { }
    ContentField(p, mapping, row);
    TextField(p, mapping, row, 2);
    TextField(p, mapping, row, 4);
    TextField(p, mapping, row, 5);
    PublishedAt(p, mapping, row);
    EngagementCount(p, mapping, row);
  }

  lemma ContentField(p: Parsers, mapping: Mapping, row: SourceRow)
    requires forall f :: f in mapping ==> mapping[f] in row.values
    requires FieldOutcome(p, mapping, row, DEFINITIONS[0]).Ok?
    ensures FieldValue(p, mapping, row, 0).Text? && SourceText(mapping, row, "content") == Some(FieldValue(p, mapping, row, 0).text)
  {
  }

  lemma TextField(p: Parsers, mapping: Mapping, row: SourceRow, k: nat)
    requires k == 2 || k == 4 || k == 5
    requires forall f :: f in mapping ==> mapping[f] in row.values
    requires FieldOutcome(p, mapping, row, DEFINITIONS[k]).Ok?
    ensures SourceText(mapping, row, DEFINITIONS[k].field) == TextOf(FieldValue(p, mapping, row, k))
  {
  }

  lemma PublishedAt(p: Parsers, mapping: Mapping, row: SourceRow)
    requires forall f :: f in mapping ==> mapping[f] in row.values
    requires FieldOutcome(p, mapping, row, DEFINITIONS[1]).Ok?
    ensures var text, v := SourceText(mapping, row, "published_at"), MomentOf(FieldValue(p, mapping, row, 1));
            && (text == None <==> v == None) && (v.Some? ==> TimeReads(p, text.value, v.value))
  {
    var text := SourceText(mapping, row, "published_at");
    if text.Some? && ConvertDateTime(p, text.value).Some? {
      TimeExactly(p, text.value, ConvertDateTime(p, text.value).value);
    }
  }

  lemma EngagementCount(p: Parsers, mapping: Mapping, row: SourceRow)
    requires forall f :: f in mapping ==> mapping[f] in row.values
    requires FieldOutcome(p, mapping, row, DEFINITIONS[3]).Ok?
    ensures var text, v := SourceText(mapping, row, "engagement_count"), NumberOf(FieldValue(p, mapping, row, 3));
            && (text == None <==> v == None) && (v.Some? ==> p.integer(text.value) == v)
  {
  }

  /**
   * Every issue of a row names the row and a field of its own; none has the code of a wrong width, and
   * none complains about a missing column when the mapped columns are there.
   */
  lemma IssueCodes(p: Parsers, mapping: Mapping, row: SourceRow)
    requires Validated(p, mapping, row).Invalid?
    ensures forall i :: 0 <= i < |Validated(p, mapping, row).issues| ==>
              var issue := Validated(p, mapping, row).issues[i];
              && issue.row == row.number
              && issue.code != "row_width"
              && ((forall f :: f in mapping ==> mapping[f] in row.values) ==> issue.code != "missing_source_column")
  {
    IssuesInOrder(p, mapping, row, |DEFINITIONS|);
    var failing := Failing(p, mapping, row, |DEFINITIONS|);
    forall i | 0 <= i < |failing| ensures FieldOutcome(p, mapping, row, DEFINITIONS[failing[i]]).Err? {
    }
    forall k: nat | k < |DEFINITIONS| && FieldOutcome(p, mapping, row, DEFINITIONS[k]).Err? {
      FieldIssue(p, mapping, row, DEFINITIONS[k]);
    }
  }

  lemma AllFieldsDefined()
    ensures CsvMapping.CANONICAL_FIELDS == set k | 0 <= k < |DEFINITIONS| :: DEFINITIONS[k].field
  {
    var fields := set k | 0 <= k < |DEFINITIONS| :: DEFINITIONS[k].field;
    assert DEFINITIONS[0].field in fields && DEFINITIONS[1].field in fields && DEFINITIONS[2].field in fields;
    assert DEFINITIONS[3].field in fields && DEFINITIONS[4].field in fields && DEFINITIONS[5].field in fields;
  }

  lemma FieldCharacterised(p: Parsers, mapping: Mapping, row: SourceRow, k: nat)
    requires k < |DEFINITIONS|
    requires DEFINITIONS[k].field in mapping ==> mapping[DEFINITIONS[k].field] in row.values
    ensures FieldOutcome(p, mapping, row, DEFINITIONS[k]).Ok? <==>
            Acceptable(p, DEFINITIONS[k].field, SourceText(mapping, row, DEFINITIONS[k].field))
  {
    var text := SourceText(mapping, row, DEFINITIONS[k].field);
    if text.Some? && DEFINITIONS[k].field == "published_at" {
      forall t ensures ConvertDateTime(p, text.value) == Some(t) <==> TimeReads(p, text.value, t) { TimeExactly(p, text.value, t); }
      assert ConvertDateTime(p, text.value).Some? ==> TimeReads(p, text.value, ConvertDateTime(p, text.value).value);
    }
    if text.Some? && DEFINITIONS[k].field == "engagement_count" {
      match p.integer(text.value)
      case Some(n) =>
      case None =>
    }
  }

  /** Which code goes with which failure of which field, for a column that is there. */
  lemma IssueCodeExactly(p: Parsers, mapping: Mapping, row: SourceRow, k: nat)
    requires k < |DEFINITIONS| && FieldOutcome(p, mapping, row, DEFINITIONS[k]).Err?
    ensures var field, issue := DEFINITIONS[k].field, FieldOutcome(p, mapping, row, DEFINITIONS[k]).error;
            && issue.message == "CSV import contains an invalid record."
            && (issue.code == "missing_source_column" <==> !ColumnPresent(mapping, row, field))
            && (ColumnPresent(mapping, row, field) ==>
                 var text := SourceText(mapping, row, field);
                 && (field == "content" ==> issue.code == (if text == None then "required" else "content_too_long"))
                 && (field == "author" || field == "source_name" ==> text.Some? && issue.code == "value_too_long")
                 && (field == "published_at" ==> text.Some? && issue.code == "invalid_datetime")
                 && (field == "sentiment" ==> text.Some? && issue.code == "invalid_sentiment")
                 && (field == "engagement_count" ==>
                      text.Some? && issue.code == (if p.integer(text.value) == None then "invalid_integer" else "negative_integer")))
  {
    FieldIssue(p, mapping, row, DEFINITIONS[k]);
    DefinitionsExactly();
  }

  /** The CHECK constraints and lengths of the columns of imported_records that hold a record. */
  ghost predicate FitsTable(r: Record) {
    && |SqlTrim(r.content)| > 0 && |r.content| <= 20000
    && (r.engagementCount.Some? ==> r.engagementCount.value >= 0)
    && (r.sentiment.Some? ==> r.sentiment.value in {"positive", "negative", "neutral"} && |r.sentiment.value| <= 16)
    && (r.author.Some? ==> |r.author.value| <= 255)
    && (r.sourceName.Some? ==> |r.sourceName.value| <= 255)
  }

  /** A validated record meets the constraints on its columns. */
  lemma ValidRecordFitsTable(p: Parsers, mapping: Mapping, row: SourceRow)
    requires Validated(p, mapping, row).Valid?
    ensures FitsTable(Validated(p, mapping, row).record)
  {
    RecordFields(p, mapping, row);
    NoIssues(p, mapping, row, |DEFINITIONS|);
    ContentFits(p, mapping, row);
    TextFits(p, mapping, row, 2);
    TextFits(p, mapping, row, 4);
    TextFits(p, mapping, row, 5);
    CountFits(p, mapping, row);
  }

  lemma ContentFits(p: Parsers, mapping: Mapping, row: SourceRow)
    requires FieldOutcome(p, mapping, row, DEFINITIONS[0]).Ok?
    ensures FieldValue(p, mapping, row, 0).Text?
    ensures |SqlTrim(FieldValue(p, mapping, row, 0).text)| > 0 && |FieldValue(p, mapping, row, 0).text| <= 20000
  {
    StripTrims(row.values[mapping["content"]]);
    TrimmedSurvivesSqlTrim(FieldValue(p, mapping, row, 0).text);
  }

  lemma TextFits(p: Parsers, mapping: Mapping, row: SourceRow, k: nat)
    requires (k == 2 || k == 4 || k == 5) && FieldOutcome(p, mapping, row, DEFINITIONS[k]).Ok?
    ensures var text := TextOf(FieldValue(p, mapping, row, k));
            text.Some? ==> if k == 4 then text.value in {"positive", "negative", "neutral"} else |text.value| <= 255
  {
  }

  lemma CountFits(p: Parsers, mapping: Mapping, row: SourceRow)
    requires FieldOutcome(p, mapping, row, DEFINITIONS[3]).Ok?
    ensures var n := NumberOf(FieldValue(p, mapping, row, 3)); n.Some? ==> n.value >= 0
  {
  }
}
