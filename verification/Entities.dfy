/** The values that travel through the import pipeline. */
module Entities {
  import opened Wrappers

  type Id = nat
  type LineNumber = n: int | 1 <= n witness 1

  /** A point in time, in microseconds UTC. */
  type Instant = int

  /** Canonical fields and the CSV columns they are read from. */
  type Mapping = map<string, string>

  /** Values of the JSON column that holds a job's configuration. */
  datatype Json =
    | JsonNull
    | JsonBool(b: bool)
    | JsonNumber(n: int)
    | JsonString(s: string)
    | JsonArray(items: seq<Json>)
    | JsonObject(members: map<string, Json>)

  /** What the CSV reader yields: a row with the number of its last line, or a parsing or decoding error. */
  datatype Event = Row(fields: seq<string>, line: LineNumber) | Fault

  /** Line numbers of a reader strictly increase. */
  ghost predicate Numbered(es: seq<Event>) {
    forall i, j :: 0 <= i < j < |es| && es[i].Row? && es[j].Row? ==> es[i].line < es[j].line
  }

  /** Something wrong with one field of one row. */
  datatype Issue = Issue(row: int, field: string, column: Option<string>, code: string, message: string)

  /** The normalised values of a row. */
  datatype Record = Record(
    content: string,
    publishedAt: Option<Instant>,
    author: Option<string>,
    engagementCount: Option<int>,
    sentiment: Option<string>,
    sourceName: Option<string>)

  /** The job a record belongs to, with the scope it was created in. */
  datatype Owner = Owner(organization: Id, research: Id, datasource: Id, job: Id)

  datatype Insert = Insert(owner: Owner, rowNumber: LineNumber, rowHash: string, record: Record)

  datatype ImportError =
    | EmptyCsvFile
    | Unreadable
    | ColumnLimitExceeded
    | BlankHeader
    | DuplicateHeader
    | MissingMappedColumn
    | RowLimitExceeded
    | InvalidRecord(issues: seq<Issue>)

  /** The rows accepted before an import ends, and how it ends: with their number or with an error. */
  datatype Scan = Scan(accepted: seq<Insert>, outcome: Result<nat, ImportError>)
}
