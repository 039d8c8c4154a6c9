/** Reading imported rows and issues back, page by page. */
module ReadSide {
  import opened Wrappers
  import opened Entities
  import opened ImportJobs
  import opened ImportProtocol
  import opened ImportSafety
  import opened ImportGuarantees
  import opened ImportIssues

  // ---------- ORDER BY, OFFSET and LIMIT ----------

  /** A row of a table: the tables keep no order of their own, and ids are random. */
  datatype StoredRow<T> = StoredRow(id: Id, value: T)

  /** The columns a query orders by, before the id. */
  type Key<!T> = T -> (int, int)

  predicate Below(a: (int, int), b: (int, int)) {
    a.0 < b.0 || (a.0 == b.0 && a.1 < b.1)
  }

  predicate Precedes<T>(key: Key<T>, a: StoredRow<T>, b: StoredRow<T>) {
    Below(key(a.value), key(b.value)) || (key(a.value) == key(b.value) && a.id <= b.id)
  }

  function Insertion<T>(key: Key<T>, x: StoredRow<T>, s: seq<StoredRow<T>>): seq<StoredRow<T>> {
    if s == [] || Precedes(key, x, s[0]) then [x] + s else [s[0]] + Insertion(key, x, s[1..])
  }

  function OrderBy<T>(key: Key<T>, s: seq<StoredRow<T>>): seq<StoredRow<T>> {
    if s == [] then [] else Insertion(key, s[0], OrderBy(key, s[1..]))
  }

  function Where<T>(keep: T -> bool, table: seq<StoredRow<T>>): seq<StoredRow<T>> {
    if table == [] then []
    else if keep(table[0].value) then [table[0]] + Where(keep, table[1..])
    else Where(keep, table[1..])
  }

  function Values<T>(rows: seq<StoredRow<T>>): (values: seq<T>)
    ensures |values| == |rows| && forall i :: 0 <= i < |rows| ==> values[i] == rows[i].value
  {
    seq(|rows|, i requires 0 <= i < |rows| => rows[i].value)
  }

  /** SELECT ... WHERE ... ORDER BY key, id. */
  function Query<T>(keep: T -> bool, key: Key<T>, table: seq<StoredRow<T>>): seq<T> {
    Values(OrderBy(key, Where(keep, table)))
  }

  /** OFFSET and LIMIT over a result in order. */
  function Page<T>(s: seq<T>, offset: nat, limit: nat): seq<T> {
    if offset >= |s| then [] else if offset + limit >= |s| then s[offset..] else s[offset..offset + limit]
  }

  /** The first n consecutive pages, one after the other. */
  function Pages<T>(s: seq<T>, limit: nat, n: nat): seq<T> {
    if n == 0 then [] else Pages(s, limit, n - 1) + Page(s, (n - 1) * limit, limit)
  }

  ghost predicate Ascending<T>(key: Key<T>, s: seq<T>) {
    forall i, j :: 0 <= i < j < |s| ==> Below(key(s[i]), key(s[j]))
  }

  ghost predicate NeverDescending<T>(key: Key<T>, s: seq<T>) {
    forall i, j :: 0 <= i < j < |s| ==> !Below(key(s[j]), key(s[i]))
  }

  lemma ValuesOfCons<T>(x: StoredRow<T>, s: seq<StoredRow<T>>)
    ensures Values([x] + s) == [x.value] + Values(s)
  {
  }

  lemma ValuesOfTail<T>(s: seq<StoredRow<T>>)
    requires s != []
    ensures Values(s) == [s[0].value] + Values(s[1..])
  {
  }

  lemma {:induction false} InsertionAdds<T>(key: Key<T>, x: StoredRow<T>, s: seq<StoredRow<T>>)
    ensures multiset(Values(Insertion(key, x, s))) == multiset(Values(s)) + multiset{x.value}
  {
    if s == [] || Precedes(key, x, s[0]) {
      ValuesOfCons(x, s);
    } else {
      ValuesOfTail(s);
      InsertionAdds(key, x, s[1..]);
      ValuesOfCons(s[0], Insertion(key, x, s[1..]));
    }
  }

  lemma {:induction false} InsertionSorts<T>(key: Key<T>, x: StoredRow<T>, s: seq<StoredRow<T>>)
    requires NeverDescending(key, Values(s))
    ensures NeverDescending(key, Values(Insertion(key, x, s)))
  {
    if s == [] {
      assert Insertion(key, x, s) == [x];
    } else if Precedes(key, x, s[0]) {
      HeadBelow(key, x.value, Values(s));
      ValuesOfCons(x, s);
    } else {
      TailSorted(key, s[0].value, Values(s[1..]));
      ValuesOfTail(s);
      InsertionSorts(key, x, s[1..]);
      InsertionAdds(key, x, s[1..]);
      HeadStays(key, s[0].value, x.value, Values(s[1..]), Values(Insertion(key, x, s[1..])));
      ValuesOfCons(s[0], Insertion(key, x, s[1..]));
    }
  }

  lemma HeadBelow<T>(key: Key<T>, x: T, s: seq<T>)
    requires s != [] && NeverDescending(key, s) && !Below(key(s[0]), key(x))
    ensures NeverDescending(key, [x] + s)
  {
  }

  lemma TailSorted<T>(key: Key<T>, head: T, s: seq<T>)
    ensures NeverDescending(key, [head] + s) ==> NeverDescending(key, s)
  {
    forall i, j | 0 <= i < j < |s| ensures NeverDescending(key, [head] + s) ==> !Below(key(s[j]), key(s[i])) {
      assert ([head] + s)[i + 1] == s[i] && ([head] + s)[j + 1] == s[j];
    }
  }

  lemma HeadStays<T>(key: Key<T>, head: T, x: T, s: seq<T>, t: seq<T>)
    requires NeverDescending(key, [head] + s) && NeverDescending(key, t) && !Below(key(x), key(head))
    requires multiset(t) == multiset(s) + multiset{x}
    ensures NeverDescending(key, [head] + t)
  {
    forall j | 0 <= j < |t| ensures !Below(key(t[j]), key(head)) {
      assert t[j] in multiset(s) + multiset{x};
      if t[j] in s {
        var i :| 0 <= i < |s| && s[i] == t[j];
        assert ([head] + s)[i + 1] == t[j] && ([head] + s)[0] == head;
      }
    }
  }

  lemma {:induction false} OrderBySorts<T>(key: Key<T>, s: seq<StoredRow<T>>)
    ensures NeverDescending(key, Values(OrderBy(key, s)))
    ensures multiset(Values(OrderBy(key, s))) == multiset(Values(s))
  {
    if s != [] {
      OrderBySorts(key, s[1..]);
      InsertionSorts(key, s[0], OrderBy(key, s[1..]));
      InsertionAdds(key, s[0], OrderBy(key, s[1..]));
      ValuesOfTail(s);
    }
  }

  /** There is only one way to sort rows whose keys are all different. */
  lemma {:induction false} SortedIsUnique<T>(key: Key<T>, s: seq<T>, t: seq<T>)
    requires NeverDescending(key, s) && Ascending(key, t) && multiset(s) == multiset(t)
    ensures s == t
  {
    assert |s| == |multiset(s)| == |t|;
    if s != [] {
      SameHead(key, s, t);
      TailElements(s);
      TailElements(t);
      SortedIsUnique(key, s[1..], t[1..]);
    }
  }

  lemma SameHead<T>(key: Key<T>, s: seq<T>, t: seq<T>)
    requires NeverDescending(key, s) && Ascending(key, t) && multiset(s) == multiset(t) && s != [] && t != []
    ensures s[0] == t[0]
  {
    assert s[0] in multiset(t) && t[0] in multiset(s);
    var i :| 0 <= i < |t| && t[i] == s[0];
    var j :| 0 <= j < |s| && s[j] == t[0];
  }

  lemma TailElements<T>(s: seq<T>)
    requires s != []
    ensures multiset(s[1..]) == multiset(s) - multiset{s[0]} && s == [s[0]] + s[1..]
  {
    assert s == [s[0]] + s[1..];
  }

  lemma {:induction false} WhereCounts<T>(keep: T -> bool, table: seq<StoredRow<T>>, x: T)
    ensures multiset(Values(Where(keep, table)))[x] == if keep(x) then multiset(Values(table))[x] else 0
  {
    if table != [] {
      WhereCounts(keep, table[1..], x);
      ValuesOfTail(table);
      if keep(table[0].value) {
        ValuesOfCons(table[0], Where(keep, table[1..]));
      }
    }
  }

  /** A query over keys without ties gives the rows it selects in their only order. */
  lemma QueryIs<T(!new)>(keep: T -> bool, key: Key<T>, table: seq<StoredRow<T>>, expected: seq<T>)
    requires Ascending(key, expected)
    requires forall x :: multiset(expected)[x] == if keep(x) then multiset(Values(table))[x] else 0
    ensures Query(keep, key, table) == expected
  {
    var selected := Where(keep, table);
    OrderBySorts(key, selected);
    forall x ensures multiset(Values(selected))[x] == multiset(expected)[x] { WhereCounts(keep, table, x); }
    assert multiset(Values(selected)) == multiset(expected);
    SortedIsUnique(key, Query(keep, key, table), expected);
  }

  /** n consecutive pages hold exactly the first n * limit rows. */
  lemma {:induction false} PagesArePrefix<T>(s: seq<T>, limit: nat, n: nat)
    ensures Pages(s, limit, n) == if n * limit >= |s| then s else s[..n * limit]
  {
    if n > 0 {
      PagesArePrefix(s, limit, n - 1);
      assert (n - 1) * limit + limit == n * limit;
    }
  }

  // ---------- The two listings ----------

  /** The rows of the two tables as they lie on disk: in any order, under any ids. */
  datatype Tables = Tables(records: seq<StoredRow<Insert>>, issues: seq<StoredRow<IssueRow>>)

  ghost predicate Stores(tables: Tables, db: Database) {
    && multiset(Values(tables.records)) == multiset(db.records)
    && multiset(Values(tables.issues)) == multiset(db.issues)
  }

  datatype ListPage<T> = ListPage(items: seq<T>, offset: nat, limit: nat, total: nat)

  datatype ListError = ImportJobNotFound

  function RecordKey(r: Insert): (int, int) {
    (r.rowNumber, 0)
  }

  function IssueKey(i: IssueRow): (int, int) {
    (i.issue.row, i.order)
  }

  function RecordsSelected(tables: Tables, job: Id): seq<Insert> {
    Query((r: Insert) => r.owner.job == job, RecordKey, tables.records)
  }

  function IssuesSelected(tables: Tables, job: Id): seq<IssueRow> {
    Query((i: IssueRow) => i.job == job, IssueKey, tables.issues)
  }

  function ListRecords(db: Database, tables: Tables, organization: Id, datasource: Id, job: Id, offset: nat, limit: nat)
    : Result<ListPage<Insert>, ListError>
  {
    if job !in db.jobs || db.jobs[job].organization != organization || db.jobs[job].datasource != datasource then
      Err(ImportJobNotFound)
    else
      Ok(ListPage(Page(RecordsSelected(tables, job), offset, limit), offset, limit,
                  |Where((r: Insert) => r.owner.job == job, tables.records)|))
  }

  function ListIssues(db: Database, tables: Tables, organization: Id, datasource: Id, job: Id, offset: nat, limit: nat)
    : Result<ListPage<IssueRow>, ListError>
  {
    if job !in db.jobs || db.jobs[job].organization != organization || db.jobs[job].datasource != datasource then
      Err(ImportJobNotFound)
    else
      Ok(ListPage(Page(IssuesSelected(tables, job), offset, limit), offset, limit,
                  |Where((i: IssueRow) => i.job == job, tables.issues)|))
  }

  /** The page echoes what was asked for, counts all rows, and shows those from the offset on, up to the limit. */
  ghost predicate IsSlice<T>(page: ListPage<T>, all: seq<T>, offset: nat, limit: nat) {
    && page.offset == offset && page.limit == limit && page.total == |all|
    && |page.items| == (if |all| <= offset then 0 else if |all| - offset < limit then |all| - offset else limit)
    && forall i :: 0 <= i < |page.items| ==> page.items[i] == all[offset + i]
  }

  lemma PageExactly<T>(s: seq<T>, offset: nat, limit: nat, total: nat)
    requires total == |s|
    ensures IsSlice(ListPage(Page(s, offset, limit), offset, limit, total), s, offset, limit)
  {
  }

  // ---------- What the listings show ----------

  lemma CountOfLast<T>(s: seq<T>, n: nat, x: T)
    requires |s| == n + 1
    ensures multiset(s)[x] == multiset(s[..n])[x] + if s[n] == x then 1 else 0
  {
    assert s == s[..n] + [s[n]];
  }

  lemma {:induction false} RecordsOfCounts(records: seq<Insert>, job: Id, x: Insert)
    ensures multiset(RecordsOf(records, job))[x] == if x.owner.job == job then multiset(records)[x] else 0
  {
    if records != [] {
      var n := |records| - 1;
      RecordsOfCounts(records[..n], job, x);
      CountOfLast(records, n, x);
    }
  }

  lemma {:induction false} IssuesOfCounts(issues: seq<IssueRow>, job: Id, x: IssueRow)
    ensures multiset(IssuesOf(issues, job))[x] == if x.job == job then multiset(issues)[x] else 0
  {
    if issues != [] {
      var n := |issues| - 1;
      IssuesOfCounts(issues[..n], job, x);
      CountOfLast(issues, n, x);
    }
  }

  lemma {:induction false} RecordsOfAscend(records: seq<Insert>, job: Id)
    requires forall i, j :: 0 <= i < j < |records| && records[i].owner.job == records[j].owner.job ==>
               records[i].rowNumber < records[j].rowNumber
    ensures Ascending(RecordKey, RecordsOf(records, job))
    ensures forall r :: r in RecordsOf(records, job) ==> r in records && r.owner.job == job
  {
    if records != [] {
      var n := |records| - 1;
      RecordsOfAscend(records[..n], job);
      forall r | r in RecordsOf(records[..n], job) ensures records[n].owner.job == job ==> r.rowNumber < records[n].rowNumber {
        assert r in records[..n];
      }
    }
  }

  /** Whatever order the table has on disk, the query gives a job's records in file order. */
  lemma RecordsInFileOrder(db: Database, tables: Tables, job: Id)
    requires TablesInv(db) && Stores(tables, db)
    ensures RecordsSelected(tables, job) == RecordsOf(db.records, job)
  {
    var expected := RecordsOf(db.records, job);
    RecordsOfAscend(db.records, job);
    forall x: Insert ensures multiset(expected)[x] == if x.owner.job == job then multiset(Values(tables.records))[x] else 0 {
      RecordsOfCounts(db.records, job, x);
    }
    QueryIs((r: Insert) => r.owner.job == job, RecordKey, tables.records, expected);
  }

  ghost predicate OneRow(issues: seq<Issue>) {
    forall i, j :: 0 <= i < j < |issues| ==> issues[i].row == issues[j].row
  }

  /** Every import stops at one row. */
  ghost predicate OneRowErrors(l: Pipeline) {
    forall o, m, es :: l.scan(o, m, es).outcome.Err? && l.scan(o, m, es).outcome.error.InvalidRecord? ==>
      OneRow(l.scan(o, m, es).outcome.error.issues)
  }

  /** The issues of a job are listed in the order in which the validator found them. */
  lemma IssuesInValidatorOrder(l: Pipeline, db: Database, tables: Tables, job: Id)
    requires OneRowErrors(l) && IssuesMatch(l, db, job) && Stores(tables, db)
    ensures IssuesSelected(tables, job) == IssuesOf(db.issues, job)
  {
    var expected := IssuesOf(db.issues, job);
    if expected != [] {
      var issues: seq<Issue> :| StopsWith(l, db, job, InvalidRecord(issues)) && Numbers(expected, job, issues);
      assert OneRow(issues);
    }
    forall x: IssueRow ensures multiset(expected)[x] == if x.job == job then multiset(Values(tables.issues))[x] else 0 {
      IssuesOfCounts(db.issues, job, x);
    }
    QueryIs((i: IssueRow) => i.job == job, IssueKey, tables.issues, expected);
  }

  /** The count and the selection are of the same rows. */
  lemma TotalIsSelected<T>(keep: T -> bool, key: Key<T>, table: seq<StoredRow<T>>)
    ensures |Where(keep, table)| == |Query(keep, key, table)|
  {
    OrderBySorts(key, Where(keep, table));
    assert |multiset(Query(keep, key, table))| == |multiset(Values(Where(keep, table)))|;
  }

  /** What a client has that asks for the first n pages of this size. */
  function RecordPages(db: Database, tables: Tables, organization: Id, datasource: Id, job: Id, limit: nat, n: nat): seq<Insert> {
    if n == 0 then []
    else
      RecordPages(db, tables, organization, datasource, job, limit, n - 1)
      + match ListRecords(db, tables, organization, datasource, job, (n - 1) * limit, limit)
        case Ok(page) => page.items
        case Err(_) => []
  }

  function IssuePages(db: Database, tables: Tables, organization: Id, datasource: Id, job: Id, limit: nat, n: nat): seq<IssueRow> {
    if n == 0 then []
    else
      IssuePages(db, tables, organization, datasource, job, limit, n - 1)
      + match ListIssues(db, tables, organization, datasource, job, (n - 1) * limit, limit)
        case Ok(page) => page.items
        case Err(_) => []
  }

  lemma {:induction false} RecordPagesArePages(db: Database, tables: Tables, organization: Id, datasource: Id, job: Id, limit: nat, n: nat)
    requires Addressed(db, job, organization, datasource)
    ensures RecordPages(db, tables, organization, datasource, job, limit, n) == Pages(RecordsSelected(tables, job), limit, n)
  {
    if n > 0 { RecordPagesArePages(db, tables, organization, datasource, job, limit, n - 1); }
  }

  lemma {:induction false} IssuePagesArePages(db: Database, tables: Tables, organization: Id, datasource: Id, job: Id, limit: nat, n: nat)
    requires Addressed(db, job, organization, datasource)
    ensures IssuePages(db, tables, organization, datasource, job, limit, n) == Pages(IssuesSelected(tables, job), limit, n)
  {
    if n > 0 { IssuePagesArePages(db, tables, organization, datasource, job, limit, n - 1); }
  }

  /**
   * In every reachable state, and for any offset, page size and layout of the table: a page shows its slice
   * of the job's records in file order, and their number; as soon as the pages read from the start cover
   * that number, they are all of them, each once; and only the scope of the job can ask.
   */
  lemma RecordPagesReproduceFile(l: Pipeline, st: State, steps: seq<Step>, tables: Tables,
                                 organization: Id, datasource: Id, job: Id, offset: nat, limit: nat, n: nat)
    requires Sound(l) && Initial(st) && Stores(tables, Run(l, st, steps).db)
    ensures var db := Run(l, st, steps).db;
            var page := ListRecords(db, tables, organization, datasource, job, offset, limit);
            && (page.Ok? <==> job in db.jobs && db.jobs[job].organization == organization && db.jobs[job].datasource == datasource)
            && (page.Ok? ==>
                 && IsSlice(page.value, RecordsOf(db.records, job), offset, limit)
                 && (n * limit >= page.value.total ==>
                      RecordPages(db, tables, organization, datasource, job, limit, n) == RecordsOf(db.records, job)))
  {
    Reachable(l, st, steps);
    var db := Run(l, st, steps).db;
    RecordsInFileOrder(db, tables, job);
    TotalIsSelected((r: Insert) => r.owner.job == job, RecordKey, tables.records);
    if Addressed(db, job, organization, datasource) {
      RecordPagesArePages(db, tables, organization, datasource, job, limit, n);
      PagesArePrefix(RecordsSelected(tables, job), limit, n);
      PageExactly(RecordsSelected(tables, job), offset, limit, |RecordsOf(db.records, job)|);
    }
  }

  /** The same for issues: they come in the order in which the validator found them. */
  lemma IssuePagesReproduceReport(l: Pipeline, st: State, steps: seq<Step>, tables: Tables,
                                  organization: Id, datasource: Id, job: Id, offset: nat, limit: nat, n: nat)
    requires Sound(l) && OneRowErrors(l) && Initial(st) && Stores(tables, Run(l, st, steps).db)
    ensures var db := Run(l, st, steps).db;
            var page := ListIssues(db, tables, organization, datasource, job, offset, limit);
            && (page.Ok? <==> job in db.jobs && db.jobs[job].organization == organization && db.jobs[job].datasource == datasource)
            && (page.Ok? ==>
                 && IsSlice(page.value, IssuesOf(db.issues, job), offset, limit)
                 && (n * limit >= page.value.total ==>
                      IssuePages(db, tables, organization, datasource, job, limit, n) == IssuesOf(db.issues, job)))
  {
    StoredIssuesAreTheFiles(l, st, steps);
    var db := Run(l, st, steps).db;
    if Addressed(db, job, organization, datasource) {
      IssuesInValidatorOrder(l, db, tables, job);
      TotalIsSelected((i: IssueRow) => i.job == job, IssueKey, tables.issues);
      IssuePagesArePages(db, tables, organization, datasource, job, limit, n);
      PagesArePrefix(IssuesSelected(tables, job), limit, n);
      PageExactly(IssuesSelected(tables, job), offset, limit, |IssuesOf(db.issues, job)|);
    }
  }
}
