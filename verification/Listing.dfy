// Filtered, sorted and paginated job lists (jobs/jobs.mapper.ts, jobs/jobs.service.ts,
// jobs/repositories/job.repository.ts).
module Listing {
  import opened Wrappers
  import opened Records
  import opened Lifecycle
  import opened FaultyRuns

  datatype Row = Row(id: JobId, job: Job)

  // ---------- Filters ----------

  // A where clause of the database: absent fields do not restrict.
  datatype Where = Where(
    status: Option<JobStatus>,
    jobType: Option<JobType>,
    priority: Option<JobPriority>,
    retryCountAbove: Option<int>)

  predicate Matches(clause: Where, job: Job) {
    && (clause.status.Some? ==> job.status == clause.status.value)
    && (clause.jobType.Some? ==> job.jobType == clause.jobType.value)
    && (clause.priority.Some? ==> job.priority == clause.priority.value)
    && (clause.retryCountAbove.Some? ==> job.retryCount > clause.retryCountAbove.value)
  }

  datatype Filters = Filters(status: Option<JobStatus>, jobType: Option<JobType>, priority: Option<JobPriority>)

  predicate Selects(filters: Filters, job: Job) {
    && filters.status in {None, Some(job.status)}
    && filters.jobType in {None, Some(job.jobType)}
    && filters.priority in {None, Some(job.priority)}
  }

  method BuildJobWhereInput(filters: Filters) returns (clause: Where)
    ensures forall job: Job :: Matches(clause, job) <==> Selects(filters, job)
  {
    clause := Where(None, None, None, None);
    if filters.status.Some? {
      clause := clause.(status := filters.status);
    }
    if filters.jobType.Some? {
      clause := clause.(jobType := filters.jobType);
    }
    if filters.priority.Some? {
      clause := clause.(priority := filters.priority);
    }
  }

  method BuildDeadLetterJobWhereInput(jobType: Option<JobType>, priority: Option<JobPriority>) returns (clause: Where)
    ensures forall job: Job ::
      Matches(clause, job) <==> IsDeadLetter(job) && Selects(Filters(None, jobType, priority), job)
  {
    clause := Where(Some(JobStatus.Failed), None, None, Some(0));
    if jobType.Some? {
      clause := clause.(jobType := jobType);
    }
    if priority.Some? {
      clause := clause.(priority := priority);
    }
  }

  function Filter(rows: seq<Row>, clause: Where): seq<Row> {
    if rows == [] then []
    else (if Matches(clause, rows[0].job) then [rows[0]] else []) + Filter(rows[1..], clause)
  }

  lemma {:induction false} FilterLast(rows: seq<Row>, row: Row, clause: Where)
    ensures Filter(rows + [row], clause) ==
      Filter(rows, clause) + if Matches(clause, row.job) then [row] else []
  {
    hide Matches;
    if rows == [] {
      assert [row][1..] == [];
    } else {
      assert (rows + [row])[1..] == rows[1..] + [row];
      FilterLast(rows[1..], row, clause);
    }
  }

  // Where the matching rows stand.
  function Places(rows: seq<Row>, clause: Where): set<int> {
    set i | 0 <= i < |rows| && Matches(clause, rows[i].job)
  }

  lemma PlacesLast(rows: seq<Row>, row: Row, clause: Where)
    ensures |Places(rows + [row], clause)| == |Places(rows, clause)| + if Matches(clause, row.job) then 1 else 0
  {
    hide Matches;
    assert Places(rows + [row], clause) ==
      Places(rows, clause) + if Matches(clause, row.job) then {|rows|} else {};
  }

  // Every row that the clause matches is kept, and each of them once.
  lemma {:induction false} FilterCounts(rows: seq<Row>, clause: Where)
    ensures |Filter(rows, clause)| == |Places(rows, clause)|
  {
    hide Matches;
    if rows == [] {
      assert Places(rows, clause) == {};
    } else {
      var n := |rows| - 1;
      var before, last := rows[..n], rows[n];
      assert rows == before + [last];
      FilterCounts(before, clause);
      FilterLast(before, last, clause);
      PlacesLast(before, last, clause);
      hide Filter;
      hide Places;
    }
  }

  lemma {:induction false} FilterKeeps(rows: seq<Row>, clause: Where, row: Row)
    ensures row in Filter(rows, clause) <==> row in rows && Matches(clause, row.job)
  {
    hide Matches;
    if rows != [] {
      FilterKeeps(rows[1..], clause, row);
    }
  }

  // ---------- Order ----------

  datatype SortField = CreatedAt | FailedAt
  datatype Order = Asc | Desc

  function SortKey(field: SortField, row: Row): Option<Time> {
    match field
    case CreatedAt => Some(row.job.createdAt)
    case FailedAt => row.job.failedAt
  }

  // The database sorts a missing value after all others.
  predicate KeyAtMost(a: Option<Time>, b: Option<Time>) {
    b.None? || (a.Some? && a.value <= b.value)
  }

  datatype Sorting = Sorting(field: SortField, order: Order)
  {
    predicate Before(a: Row, b: Row) {
      match order
      case Asc => KeyAtMost(SortKey(field, a), SortKey(field, b))
      case Desc => KeyAtMost(SortKey(field, b), SortKey(field, a))
    }

    predicate Tied(a: Row, b: Row) {
      SortKey(field, a) == SortKey(field, b)
    }
  }

  ghost predicate IsSorted(sorting: Sorting, list: seq<Row>) {
    forall i, j :: 0 <= i < j < |list| ==> sorting.Before(list[i], list[j])
  }

  // What a sorted query may return: ties may come in any order.
  ghost predicate IsListing(rows: seq<Row>, sorting: Sorting, list: seq<Row>) {
    multiset(list) == multiset(rows) && IsSorted(sorting, list)
  }

  function Insert(sorting: Sorting, row: Row, list: seq<Row>): seq<Row> {
    if list == [] || sorting.Before(row, list[0]) then [row] + list
    else [list[0]] + Insert(sorting, row, list[1..])
  }

  function Sort(sorting: Sorting, rows: seq<Row>): seq<Row> {
    if rows == [] then [] else Insert(sorting, rows[0], Sort(sorting, rows[1..]))
  }

  lemma {:induction false} InsertKeepsRows(sorting: Sorting, row: Row, list: seq<Row>)
    ensures multiset(Insert(sorting, row, list)) == multiset([row] + list)
  {
    if !(list == [] || sorting.Before(row, list[0])) {
      InsertKeepsRows(sorting, row, list[1..]);
      assert list == [list[0]] + list[1..];
    }
  }

  lemma SortedCons(sorting: Sorting, first: Row, rest: seq<Row>)
    requires IsSorted(sorting, rest)
    requires forall i :: 0 <= i < |rest| ==> sorting.Before(first, rest[i])
    ensures IsSorted(sorting, [first] + rest)
  {
  }

  lemma {:induction false} InsertLists(sorting: Sorting, row: Row, list: seq<Row>)
    requires IsSorted(sorting, list)
    ensures multiset(Insert(sorting, row, list)) == multiset([row] + list)
    ensures IsSorted(sorting, Insert(sorting, row, list))
  {
    InsertKeepsRows(sorting, row, list);
    if list == [] {
    } else if sorting.Before(row, list[0]) {
      forall i | 0 <= i < |list|
        ensures sorting.Before(row, list[i])
      {
        assert i > 0 ==> sorting.Before(list[0], list[i]);
      }
      SortedCons(sorting, row, list);
    } else {
      InsertLists(sorting, row, list[1..]);
      var rest := Insert(sorting, row, list[1..]);
      forall i | 0 <= i < |rest|
        ensures sorting.Before(list[0], rest[i])
      {
        assert rest[i] in multiset(rest);
        assert rest[i] in multiset([row] + list[1..]);
        assert rest[i] == row || rest[i] in list[1..];
      }
      SortedCons(sorting, list[0], rest);
    }
  }

  lemma {:induction false} SortLists(sorting: Sorting, rows: seq<Row>)
    ensures IsListing(rows, sorting, Sort(sorting, rows))
  {
    if rows != [] {
      SortLists(sorting, rows[1..]);
      InsertLists(sorting, rows[0], Sort(sorting, rows[1..]));
      assert rows == [rows[0]] + rows[1..];
    }
  }

  ghost predicate NoTies(sorting: Sorting, rows: seq<Row>) {
    forall a, b :: a in rows && b in rows && a != b ==> !sorting.Tied(a, b)
  }

  lemma SmallestFirst(sorting: Sorting, l: seq<Row>, row: Row)
    requires IsSorted(sorting, l) && row in l
    ensures sorting.Before(l[0], row)
  {
    var i :| 0 <= i < |l| && l[i] == row;
    assert i > 0 ==> sorting.Before(l[0], l[i]);
  }

  lemma {:induction false} SortedListsAgree(sorting: Sorting, l: seq<Row>, m: seq<Row>)
    requires multiset(l) == multiset(m) && IsSorted(sorting, l) && IsSorted(sorting, m) && NoTies(sorting, l)
    ensures l == m
  {
    assert |l| == |multiset(l)| == |multiset(m)| == |m|;
    if l != [] {
      FirstRowsAgree(sorting, l, m);
      RestsAgree(l, m);
      SortedListsAgree(sorting, l[1..], m[1..]);
    }
  }

  lemma FirstRowsAgree(sorting: Sorting, l: seq<Row>, m: seq<Row>)
    requires multiset(l) == multiset(m) && IsSorted(sorting, l) && IsSorted(sorting, m) && NoTies(sorting, l)
    requires l != [] && m != []
    ensures l[0] == m[0]
  {
    assert m[0] in multiset(l) && l[0] in multiset(m);
    SmallestFirst(sorting, l, m[0]);
    SmallestFirst(sorting, m, l[0]);
    assert sorting.Tied(l[0], m[0]);
  }

  lemma RestsAgree(l: seq<Row>, m: seq<Row>)
    requires multiset(l) == multiset(m) && l != [] && m != [] && l[0] == m[0]
    ensures multiset(l[1..]) == multiset(m[1..])
  {
    assert l == [l[0]] + l[1..] && m == [m[0]] + m[1..];
    assert multiset(l[1..]) == multiset(l) - multiset{l[0]};
    assert multiset(m[1..]) == multiset(m) - multiset{m[0]};
  }

  function Swap(l: seq<Row>, i: nat, j: nat): seq<Row>
    requires i < j < |l|
  {
    l[i := l[j]][j := l[i]]
  }

  lemma SwapTiesLists(sorting: Sorting, rows: seq<Row>, l: seq<Row>, i: nat, j: nat)
    requires IsListing(rows, sorting, l) && i < j < |l| && sorting.Tied(l[i], l[j])
    ensures IsListing(rows, sorting, Swap(l, i, j))
  {
    assert multiset(Swap(l, i, j)) == multiset(l);
    SwapTiesSorted(sorting, l, i, j);
    hide IsSorted;
  }

  lemma SwapTiesSorted(sorting: Sorting, l: seq<Row>, i: nat, j: nat)
    requires IsSorted(sorting, l) && i < j < |l| && sorting.Tied(l[i], l[j])
    ensures IsSorted(sorting, Swap(l, i, j))
  {
    var m := Swap(l, i, j);
    forall a, b | 0 <= a < b < |m|
      ensures sorting.Before(m[a], m[b])
    {
      assert sorting.Before(l[a], l[b]);
      assert sorting.Tied(m[a], l[a]) && sorting.Tied(m[b], l[b]);
    }
  }

  // ---------- Pages ----------

  function PageOf(list: seq<Row>, page: nat, pageSize: nat): seq<Row>
    requires page >= 1
  {
    SkipTake(list, (page - 1) * pageSize, pageSize)
  }

  // The rows that `skip` and `take` of a query select.
  function SkipTake(list: seq<Row>, skip: nat, take: nat): (r: seq<Row>)
    ensures skip + take <= |list| ==> |r| == take
    ensures skip < |list| <= skip + take ==> |r| == |list| - skip
    ensures skip >= |list| ==> r == []
    ensures forall i :: 0 <= i < |r| ==> r[i] == list[skip + i]
  {
    if skip >= |list| then []
    else if skip + take <= |list| then list[skip..skip + take]
    else list[skip..]
  }

  function TotalPages(total: nat, pageSize: nat): nat
    requires pageSize >= 1
  {
    if total == 0 then 0 else (total + pageSize - 1) / pageSize
  }

  // The items of the first `pages` pages, one after the other.
  function FirstPages(list: seq<Row>, pages: nat, pageSize: nat): seq<Row> {
    if pages == 0 then [] else FirstPages(list, pages - 1, pageSize) + PageOf(list, pages, pageSize)
  }

  lemma TotalPagesBounds(total: nat, pageSize: nat)
    requires pageSize >= 1
    ensures total <= TotalPages(total, pageSize) * pageSize
    ensures total > 0 ==> (TotalPages(total, pageSize) - 1) * pageSize < total
    ensures total == 0 ==> TotalPages(total, pageSize) == 0
  {
    if total > 0 {
      var t := total + pageSize - 1;
      assert t == pageSize * (t / pageSize) + t % pageSize;
    }
  }

  lemma Scaled(a: nat, b: nat, n: nat)
    requires a <= b
    ensures a * n <= b * n
  {
  }

  lemma {:induction false} FirstPagesArePrefix(list: seq<Row>, pages: nat, pageSize: nat)
    requires pageSize >= 1
    ensures FirstPages(list, pages, pageSize) == if pages * pageSize <= |list| then list[..pages * pageSize] else list
  {
    if pages > 0 {
      FirstPagesArePrefix(list, pages - 1, pageSize);
      assert pages * pageSize == (pages - 1) * pageSize + pageSize;
    }
  }

  // The pages 1..totalPages partition the list: one after the other they are the list, all but
  // the last are full, the last is not empty, and every later page is empty.
  lemma PagesPartition(list: seq<Row>, page: nat, pageSize: nat)
    requires pageSize >= 1 && page >= 1
    ensures var pages := TotalPages(|list|, pageSize);
      && FirstPages(list, pages, pageSize) == list
      && (page < pages ==> |PageOf(list, page, pageSize)| == pageSize)
      && (page == pages ==> 1 <= |PageOf(list, page, pageSize)| <= pageSize)
      && (page > pages ==> PageOf(list, page, pageSize) == [])
  {
    hide TotalPages;
    hide FirstPages;
    hide SkipTake;
    var pages := TotalPages(|list|, pageSize);
    TotalPagesBounds(|list|, pageSize);
    FirstPagesArePrefix(list, pages, pageSize);
    SkipBounds(|list|, page, pageSize);
  }

  // Where a page starts, relative to the end of the list.
  lemma SkipBounds(total: nat, page: nat, pageSize: nat)
    requires pageSize >= 1 && page >= 1
    ensures var pages := TotalPages(total, pageSize); var skip := (page - 1) * pageSize;
      && (page < pages ==> skip + pageSize <= total)
      && (page == pages ==> skip < total <= skip + pageSize)
      && (page > pages ==> skip >= total)
  {
    hide TotalPages;
    var pages := TotalPages(total, pageSize);
    TotalPagesBounds(total, pageSize);
    assert page * pageSize == (page - 1) * pageSize + pageSize;
    if page < pages {
      Scaled(page, pages - 1, pageSize);
    } else if page > pages {
      Scaled(pages, page - 1, pageSize);
    }
  }

  // ---------- The service ----------

  datatype Paginated = Paginated(items: seq<Row>, page: nat, pageSize: nat, total: nat, totalPages: nat)

  // A page of the given rows, as one query may answer it.
  ghost predicate IsPage(rows: seq<Row>, sorting: Sorting, page: nat, pageSize: nat, items: seq<Row>)
    requires page >= 1
  {
    exists list :: IsListing(rows, sorting, list) && items == PageOf(list, page, pageSize)
  }

  // The order of the items in terms of their columns. Rows without a failure time come last when
  // it ascends and first when it descends.
  predicate JobsInOrder(field: SortField, order: Order, a: Job, b: Job) {
    match field
    case CreatedAt =>
      (match order
       case Asc => a.createdAt <= b.createdAt
       case Desc => a.createdAt >= b.createdAt)
    case FailedAt =>
      (match order
       case Asc => b.failedAt.Some? ==> a.failedAt.Some? && a.failedAt.value <= b.failedAt.value
       case Desc => a.failedAt.Some? ==> b.failedAt.Some? && a.failedAt.value >= b.failedAt.value)
  }

  ghost predicate InOrder(field: SortField, order: Order, items: seq<Row>) {
    forall i, j :: 0 <= i < j < |items| ==> JobsInOrder(field, order, items[i].job, items[j].job)
  }

  lemma SortedIsInOrder(sorting: Sorting, list: seq<Row>)
    requires IsSorted(sorting, list)
    ensures InOrder(sorting.field, sorting.order, list)
  {
    forall i, j | 0 <= i < j < |list|
      ensures sorting.Before(list[i], list[j])
    {
    }
  }

  lemma PageIsInOrder(rows: seq<Row>, sorting: Sorting, page: nat, pageSize: nat, items: seq<Row>)
    requires page >= 1 && IsPage(rows, sorting, page, pageSize, items)
    ensures InOrder(sorting.field, sorting.order, items)
  {
    hide IsSorted;
    hide InOrder;
    hide SkipTake;
    var list :| IsListing(rows, sorting, list) && items == PageOf(list, page, pageSize);
    SliceIsSorted(sorting, list, (page - 1) * pageSize, pageSize);
    SortedIsInOrder(sorting, items);
  }

  lemma SliceIsSorted(sorting: Sorting, list: seq<Row>, skip: nat, take: nat)
    requires IsSorted(sorting, list)
    ensures IsSorted(sorting, SkipTake(list, skip, take))
  {
    var items := SkipTake(list, skip, take);
    hide SkipTake;
    forall i, j | 0 <= i < j < |items|
      ensures sorting.Before(items[i], items[j])
    {
      assert sorting.Before(list[skip + i], list[skip + j]);
    }
  }

  lemma PageHasRows(rows: seq<Row>, sorting: Sorting, page: nat, pageSize: nat, items: seq<Row>, row: Row)
    requires page >= 1 && IsPage(rows, sorting, page, pageSize, items) && row in items
    ensures row in rows
  {
    var list :| IsListing(rows, sorting, list) && items == PageOf(list, page, pageSize);
    assert row in list;
    assert row in multiset(list);
  }

  // How many items a page has, by the number of all items.
  lemma PageLength(rows: seq<Row>, sorting: Sorting, page: nat, pageSize: nat, items: seq<Row>)
    requires page >= 1 && IsPage(rows, sorting, page, pageSize, items)
    ensures var skip := (page - 1) * pageSize;
      |items| == if skip >= |rows| then 0 else if skip + pageSize <= |rows| then pageSize else |rows| - skip
  {
    var list :| IsListing(rows, sorting, list) && items == PageOf(list, page, pageSize);
    assert |list| == |multiset(list)| == |multiset(rows)| == |rows|;
  }

  // The rows a list is about: those the filters select, for dead letters only dead letters.
  function Chosen(rows: seq<Row>, filters: Filters, deadLetters: bool): seq<Row> {
    if rows == [] then []
    else
      var chosen := Selects(filters, rows[0].job) && (deadLetters ==> IsDeadLetter(rows[0].job));
      (if chosen then [rows[0]] else []) + Chosen(rows[1..], filters, deadLetters)
  }

  lemma {:induction false} FilterPicks(rows: seq<Row>, clause: Where, filters: Filters, deadLetters: bool)
    requires forall job: Job ::
      Matches(clause, job) <==> Selects(filters, job) && (deadLetters ==> IsDeadLetter(job))
    ensures Filter(rows, clause) == Chosen(rows, filters, deadLetters)
  {
    hide Matches;
    hide Selects;
    if rows != [] {
      FilterPicks(rows[1..], clause, filters, deadLetters);
    }
  }

  // The durations of the completed rows that have one.
  function Durations(rows: seq<Row>): seq<int> {
    if rows == [] then []
    else
      var job := rows[0].job;
      (if job.status.Completed? && job.processingTimeMs.Some? then [job.processingTimeMs.value] else [])
      + Durations(rows[1..])
  }

  function Sum(values: seq<int>): int {
    if values == [] then 0 else values[0] + Sum(values[1..])
  }

  lemma {:induction false} DurationsAre(rows: seq<Row>, duration: int)
    ensures duration in Durations(rows) <==>
      exists row :: row in rows && row.job.status == JobStatus.Completed && row.job.processingTimeMs == Some(duration)
  {
    if rows != [] {
      DurationsAre(rows[1..], duration);
      assert rows == [rows[0]] + rows[1..];
    }
  }

  lemma {:induction false} SumIsBetween(values: seq<int>, low: int, high: int)
    requires forall v :: v in values ==> low <= v <= high
    ensures low * |values| <= Sum(values) <= high * |values|
  {
    if values != [] {
      var rest := values[1..];
      forall v | v in rest
        ensures low <= v <= high
      {
        assert v in values;
      }
      SumIsBetween(rest, low, high);
      var n := |rest|;
      assert |values| == n + 1 && values[0] in values;
      assert low * (n + 1) == low * n + low;
      assert high * (n + 1) == high * n + high;
    }
  }

  class JobTable {
    var rows: seq<Row>

    constructor (rows: seq<Row>)
      ensures this.rows == rows
    {
      this.rows := rows;
    }

    // findMany with skip, take and orderBy.
    method FindMany(clause: Where, sorting: Sorting, page: nat, pageSize: nat) returns (items: seq<Row>)
      requires page >= 1
      ensures IsPage(Filter(rows, clause), sorting, page, pageSize, items)
      ensures InOrder(sorting.field, sorting.order, items)
    {
      var list := Sort(sorting, Filter(rows, clause));
      SortLists(sorting, Filter(rows, clause));
      items := PageOf(list, page, pageSize);
      PageIsInOrder(Filter(rows, clause), sorting, page, pageSize, items);
    }

    method Count(clause: Where) returns (total: nat)
      ensures total == |Filter(rows, clause)| == |Places(rows, clause)|
    {
      total := |Filter(rows, clause)|;
      FilterCounts(rows, clause);
    }

    method CountCompletedJobs() returns (total: nat)
      ensures total == |set i | 0 <= i < |rows| && rows[i].job.status == JobStatus.Completed|
    {
      var clause := Where(Some(JobStatus.Completed), None, None, None);
      total := Count(clause);
      assert Places(rows, clause) == set i | 0 <= i < |rows| && rows[i].job.status == JobStatus.Completed;
    }

    method CountFailedJobs() returns (total: nat)
      ensures total == |set i | 0 <= i < |rows| && rows[i].job.status == JobStatus.Failed|
    {
      var clause := Where(Some(JobStatus.Failed), None, None, None);
      total := Count(clause);
      assert Places(rows, clause) == set i | 0 <= i < |rows| && rows[i].job.status == JobStatus.Failed;
    }

    // The average over the completed rows that have a duration, if there are any.
    method AverageProcessingTimeMs() returns (average: Option<real>)
      ensures average.None? <==> Durations(rows) == []
      ensures average.Some? ==> average.value * |Durations(rows)| as real == Sum(Durations(rows)) as real
    {
      var durations := Durations(rows);
      average := if durations == [] then None else Some(Sum(durations) as real / |durations| as real);
    }

    method FindDeadLetterJobs(jobType: Option<JobType>, priority: Option<JobPriority>, sorting: Sorting,
                              page: nat, pageSize: nat) returns (items: seq<Row>)
      requires page >= 1
      ensures IsPage(Chosen(rows, Filters(None, jobType, priority), true), sorting, page, pageSize, items)
      ensures InOrder(sorting.field, sorting.order, items)
    {
      var clause := BuildDeadLetterJobWhereInput(jobType, priority);
      FilterPicks(rows, clause, Filters(None, jobType, priority), true);
      items := FindMany(clause, sorting, page, pageSize);
    }
  }

  // What a client asks for; the filters of dead letters have no status.
  datatype Query = Query(
    filters: Filters, page: Option<nat>, pageSize: Option<nat>, sortBy: Option<SortField>, order: Option<Order>)

  function Or<T>(given: Option<T>, default: T): (r: T)
    ensures given.Some? ==> r == given.value
    ensures given.None? ==> r == default
  {
    match given
    case Some(value) => value
    case None => default
  }

  // The number of a page's items and of all pages, by the number of all items.
  ghost predicate Counted(r: Paginated) {
    && (r.total == 0 ==> r.totalPages == 0)
    && (r.total > 0 ==> (r.totalPages - 1) * r.pageSize < r.total <= r.totalPages * r.pageSize)
    && r.page >= 1
    && var skip := (r.page - 1) * r.pageSize;
      |r.items| ==
        if skip >= r.total then 0 else if skip + r.pageSize <= r.total then r.pageSize else r.total - skip
  }

  // A page of the selected jobs, with the number of all selected jobs and of their pages. By
  // default it is the first page of twenty jobs, the newest first.
  method ListJobs(table: JobTable, query: Query) returns (r: Paginated)
    requires query.page.Some? ==> query.page.value >= 1
    requires query.pageSize.Some? ==> query.pageSize.value >= 1
    ensures r.page == (if query.page.Some? then query.page.value else 1)
    ensures r.pageSize == (if query.pageSize.Some? then query.pageSize.value else 20)
    ensures var sorting := Sorting(Or(query.sortBy, CreatedAt), Or(query.order, Desc));
      && r.page >= 1
      && IsPage(Chosen(table.rows, query.filters, false), sorting, r.page, r.pageSize, r.items)
      && InOrder(sorting.field, sorting.order, r.items)
    ensures query.sortBy.None? && query.order.None? ==>
      forall i, j :: 0 <= i < j < |r.items| ==> r.items[i].job.createdAt >= r.items[j].job.createdAt
    ensures forall item :: item in r.items ==>
      && item in table.rows
      && (query.filters.status.Some? ==> item.job.status == query.filters.status.value)
      && (query.filters.jobType.Some? ==> item.job.jobType == query.filters.jobType.value)
      && (query.filters.priority.Some? ==> item.job.priority == query.filters.priority.value)
    ensures r.total == |set i |
      && 0 <= i < |table.rows|
      && (query.filters.status.None? || table.rows[i].job.status == query.filters.status.value)
      && (query.filters.jobType.None? || table.rows[i].job.jobType == query.filters.jobType.value)
      && (query.filters.priority.None? || table.rows[i].job.priority == query.filters.priority.value)|
    ensures Counted(r) && r.totalPages == TotalPages(r.total, r.pageSize)
  {
    hide Matches;
    hide Selects;
    hide IsDeadLetter;
    hide Filter;
    hide Chosen;
    hide Places;
    hide IsPage;
    hide InOrder;
    hide Counted;
    hide TotalPages;
    var page, pageSize := Or(query.page, 1), Or(query.pageSize, 20);
    var sorting := Sorting(Or(query.sortBy, CreatedAt), Or(query.order, Desc));
    var clause := BuildJobWhereInput(query.filters);
    FilterPicks(table.rows, clause, query.filters, false);
    var items := table.FindMany(clause, sorting, page, pageSize);
    var total := table.Count(clause);
    r := Paginated(items, page, pageSize, total, TotalPages(total, pageSize));
    PageIsCounted(table.rows, clause, sorting, r);
    JobsAreSelected(table.rows, clause, query.filters, r.items);
    NewestFirst(r.items);
  }

  lemma NewestFirst(items: seq<Row>)
    ensures InOrder(CreatedAt, Desc, items) ==>
      forall i, j :: 0 <= i < j < |items| ==> items[i].job.createdAt >= items[j].job.createdAt
    ensures InOrder(FailedAt, Desc, items) ==>
      forall i, j :: 0 <= i < j < |items| && items[i].job.failedAt.Some? ==>
        items[j].job.failedAt.Some? && items[i].job.failedAt.value >= items[j].job.failedAt.value
  {
  }

  lemma JobsAreSelected(rows: seq<Row>, clause: Where, filters: Filters, items: seq<Row>)
    requires forall job: Job :: Matches(clause, job) <==> Selects(filters, job)
    requires forall item :: item in items ==> item in rows && Matches(clause, item.job)
    ensures Places(rows, clause) == set i |
      && 0 <= i < |rows|
      && (filters.status.None? || rows[i].job.status == filters.status.value)
      && (filters.jobType.None? || rows[i].job.jobType == filters.jobType.value)
      && (filters.priority.None? || rows[i].job.priority == filters.priority.value)
    ensures forall item :: item in items ==>
      && (filters.status.Some? ==> item.job.status == filters.status.value)
      && (filters.jobType.Some? ==> item.job.jobType == filters.jobType.value)
      && (filters.priority.Some? ==> item.job.priority == filters.priority.value)
  {
    hide Matches;
    SamePlaces(rows, clause, filters, false);
    forall item | item in items
      ensures Selects(filters, item.job)
    {
    }
  }

  lemma DeadLettersAreSelected(rows: seq<Row>, clause: Where, filters: Filters, items: seq<Row>)
    requires filters.status.None?
    requires forall job: Job :: Matches(clause, job) <==> IsDeadLetter(job) && Selects(filters, job)
    requires forall item :: item in items ==> item in rows && Matches(clause, item.job)
    ensures Places(rows, clause) == set i |
      && 0 <= i < |rows|
      && rows[i].job.status == JobStatus.Failed && rows[i].job.retryCount > 0
      && (filters.jobType.None? || rows[i].job.jobType == filters.jobType.value)
      && (filters.priority.None? || rows[i].job.priority == filters.priority.value)
    ensures forall item :: item in items ==>
      && item.job.status == JobStatus.Failed && item.job.retryCount > 0
      && (filters.jobType.Some? ==> item.job.jobType == filters.jobType.value)
      && (filters.priority.Some? ==> item.job.priority == filters.priority.value)
  {
    hide Matches;
    SamePlaces(rows, clause, filters, true);
    forall item | item in items
      ensures Selects(filters, item.job) && IsDeadLetter(item.job)
    {
    }
  }

  lemma SamePlaces(rows: seq<Row>, clause: Where, filters: Filters, deadLetters: bool)
    requires forall job: Job ::
      Matches(clause, job) <==> Selects(filters, job) && (deadLetters ==> IsDeadLetter(job))
    ensures Places(rows, clause) ==
      set i | 0 <= i < |rows| && Selects(filters, rows[i].job) && (deadLetters ==> IsDeadLetter(rows[i].job))
  {
    hide Matches;
    hide Selects;
  }

  lemma PageIsCounted(rows: seq<Row>, clause: Where, sorting: Sorting, r: Paginated)
    requires r.page >= 1 && r.pageSize >= 1
    requires IsPage(Filter(rows, clause), sorting, r.page, r.pageSize, r.items)
    requires r.total == |Filter(rows, clause)| && r.totalPages == TotalPages(r.total, r.pageSize)
    ensures Counted(r)
    ensures forall item :: item in r.items ==> item in rows && Matches(clause, item.job)
  {
    hide Matches;
    PageLength(Filter(rows, clause), sorting, r.page, r.pageSize, r.items);
    TotalPagesBounds(r.total, r.pageSize);
    hide TotalPages;
    forall item | item in r.items
      ensures item in rows && Matches(clause, item.job)
    {
      PageHasRows(Filter(rows, clause), sorting, r.page, r.pageSize, r.items, item);
      FilterKeeps(rows, clause, item);
    }
  }

  // The items and the total come from two filters that are built separately; they agree. By default
  // the latest failure comes first.
  method ListDeadLetterJobs(table: JobTable, query: Query) returns (r: Paginated)
    requires query.filters.status.None?
    requires query.page.Some? ==> query.page.value >= 1
    requires query.pageSize.Some? ==> query.pageSize.value >= 1
    ensures r.page == (if query.page.Some? then query.page.value else 1)
    ensures r.pageSize == (if query.pageSize.Some? then query.pageSize.value else 20)
    ensures var sorting := Sorting(Or(query.sortBy, FailedAt), Or(query.order, Desc));
      && r.page >= 1
      && IsPage(Chosen(table.rows, query.filters, true), sorting, r.page, r.pageSize, r.items)
      && InOrder(sorting.field, sorting.order, r.items)
    ensures query.sortBy.None? && query.order.None? ==>
      forall i, j :: 0 <= i < j < |r.items| && r.items[i].job.failedAt.Some? ==>
        r.items[j].job.failedAt.Some? && r.items[i].job.failedAt.value >= r.items[j].job.failedAt.value
    ensures forall item :: item in r.items ==>
      && item in table.rows
      && item.job.status == JobStatus.Failed && item.job.retryCount > 0
      && (query.filters.jobType.Some? ==> item.job.jobType == query.filters.jobType.value)
      && (query.filters.priority.Some? ==> item.job.priority == query.filters.priority.value)
    ensures r.total == |set i |
      && 0 <= i < |table.rows|
      && table.rows[i].job.status == JobStatus.Failed && table.rows[i].job.retryCount > 0
      && (query.filters.jobType.None? || table.rows[i].job.jobType == query.filters.jobType.value)
      && (query.filters.priority.None? || table.rows[i].job.priority == query.filters.priority.value)|
    ensures Counted(r) && r.totalPages == TotalPages(r.total, r.pageSize)
  {
    hide Matches;
    hide Selects;
    hide IsDeadLetter;
    hide Filter;
    hide Chosen;
    hide Places;
    hide IsPage;
    hide InOrder;
    hide Counted;
    hide TotalPages;
    var page, pageSize := Or(query.page, 1), Or(query.pageSize, 20);
    var sorting := Sorting(Or(query.sortBy, FailedAt), Or(query.order, Desc));
    var jobType, priority := query.filters.jobType, query.filters.priority;
    var clause := BuildDeadLetterJobWhereInput(jobType, priority);
    assert query.filters == Filters(None, jobType, priority);
    FilterPicks(table.rows, clause, query.filters, true);
    var items := table.FindDeadLetterJobs(jobType, priority, sorting, page, pageSize);
    var total := table.Count(clause);
    r := Paginated(items, page, pageSize, total, TotalPages(total, pageSize));
    PageIsCounted(table.rows, clause, sorting, r);
    DeadLettersAreSelected(table.rows, clause, query.filters, r.items);
    NewestFirst(r.items);
  }

  // Without ties, pages that are queried one by one, each sorted anew, together hold every
  // selected row exactly once, in order.
  lemma {:induction false} SeparateQueriesPartition(rows: seq<Row>, sorting: Sorting, pageSize: nat, list: seq<Row>,
                                                    pages: seq<seq<Row>>)
    requires pageSize >= 1 && NoTies(sorting, rows)
    requires IsListing(rows, sorting, list)
    requires forall p :: 0 <= p < |pages| ==> IsPage(rows, sorting, p + 1, pageSize, pages[p])
    ensures Concat(pages) == FirstPages(list, |pages|, pageSize)
  {
    hide IsPage;
    hide PageOf;
    hide IsListing;
    hide NoTies;
    if pages != [] {
      var n := |pages| - 1;
      SeparateQueriesPartition(rows, sorting, pageSize, list, pages[..n]);
      OnlyOneAnswer(rows, sorting, n + 1, pageSize, list, pages[n]);
    }
  }

  // Without ties a page query has only one possible answer.
  lemma OnlyOneAnswer(rows: seq<Row>, sorting: Sorting, page: nat, pageSize: nat,
                      list: seq<Row>, items: seq<Row>)
    requires page >= 1 && NoTies(sorting, rows)
    requires IsListing(rows, sorting, list) && IsPage(rows, sorting, page, pageSize, items)
    ensures items == PageOf(list, page, pageSize)
  {
    hide PageOf;
    var other :| IsListing(rows, sorting, other) && items == PageOf(other, page, pageSize);
    assert forall a :: a in list <==> a in multiset(list);
    assert forall a :: a in rows <==> a in multiset(rows);
    SortedListsAgree(sorting, list, other);
  }

  // The answers of separate queries for all pages of a listing.
  ghost predicate AreAllPages(rows: seq<Row>, sorting: Sorting, pageSize: nat, pages: seq<seq<Row>>)
    requires pageSize >= 1
  {
    && |pages| == TotalPages(|rows|, pageSize)
    && (forall p :: 0 <= p < |pages| ==> IsPage(rows, sorting, p + 1, pageSize, pages[p]))
  }

  // Querying page by page shows every selected row exactly once, whatever the page size.
  ghost predicate PagesAlwaysComplete(rows: seq<Row>, sorting: Sorting) {
    forall pageSize: nat, pages: seq<seq<Row>> ::
      pageSize >= 1 && AreAllPages(rows, sorting, pageSize, pages) ==>
        multiset(Concat(pages)) == multiset(rows)
  }

  lemma {:induction false} ConcatSingles(rows: seq<Row>, pages: seq<seq<Row>>)
    requires |pages| == |rows| && forall p :: 0 <= p < |rows| ==> pages[p] == [rows[p]]
    ensures Concat(pages) == rows
  {
    if rows != [] {
      var n := |rows| - 1;
      ConcatSingles(rows[..n], pages[..n]);
      assert rows == rows[..n] + [rows[n]];
    }
  }

  // Of two tied rows on different pages, one may show up twice and the other not at all.
  lemma TieLosesRow(rows: seq<Row>, sorting: Sorting, l: seq<Row>, i: nat, j: nat)
    requires IsListing(rows, sorting, l)
    requires i < j < |l| && l[i] != l[j] && sorting.Tied(l[i], l[j])
    ensures !PagesAlwaysComplete(rows, sorting)
  {
    hide IsListing;
    var shown := l[j := l[i]];
    var pages := seq(|l|, p requires 0 <= p < |l| => [shown[p]]);
    SameSize(rows, sorting, l);
    SwapTiesLists(sorting, rows, l, i, j);
    forall p | 0 <= p < |pages|
      ensures IsPage(rows, sorting, p + 1, 1, pages[p])
    {
      if p == j {
        SinglePage(Swap(l, i, j), p);
      } else {
        SinglePage(l, p);
      }
    }
    assert AreAllPages(rows, sorting, 1, pages);
    ConcatSingles(shown, pages);
    RowIsLost(rows, sorting, l, i, j);
  }

  lemma SameSize(rows: seq<Row>, sorting: Sorting, l: seq<Row>)
    requires IsListing(rows, sorting, l)
    ensures |l| == |rows|
  {
    assert |l| == |multiset(l)| == |multiset(rows)| == |rows|;
  }

  lemma SinglePage(l: seq<Row>, p: nat)
    requires p < |l|
    ensures PageOf(l, p + 1, 1) == [l[p]]
  {
  }

  lemma RowIsLost(rows: seq<Row>, sorting: Sorting, l: seq<Row>, i: nat, j: nat)
    requires IsListing(rows, sorting, l) && i < j < |l| && l[i] != l[j]
    ensures multiset(l[j := l[i]]) != multiset(rows)
  {
    var shown := l[j := l[i]];
    assert multiset(shown) == multiset(l) - multiset{l[j]} + multiset{l[i]};
    assert multiset(shown)[l[j]] < multiset(l)[l[j]];
  }

  // Paging through a list that is sorted anew for every page never loses or repeats a row
  // exactly when no two selected rows tie.
  lemma PagesCompleteIff(rows: seq<Row>, sorting: Sorting)
    ensures PagesAlwaysComplete(rows, sorting) <==> NoTies(sorting, rows)
  {
    var l := Sort(sorting, rows);
    SortLists(sorting, rows);
    assert |l| == |multiset(l)| == |multiset(rows)| == |rows|;
    if NoTies(sorting, rows) {
      forall pageSize: nat, pages: seq<seq<Row>> |
        pageSize >= 1 && AreAllPages(rows, sorting, pageSize, pages)
        ensures multiset(Concat(pages)) == multiset(rows)
      {
        SeparateQueriesPartition(rows, sorting, pageSize, l, pages);
        PagesPartition(l, 1, pageSize);
      }
    } else {
      var a, b :| a in rows && b in rows && a != b && sorting.Tied(a, b);
      assert a in multiset(rows) && b in multiset(rows);
      assert a in multiset(l) && b in multiset(l);
      var i :| 0 <= i < |l| && l[i] == a;
      var j :| 0 <= j < |l| && l[j] == b;
      if i < j {
        TieLosesRow(rows, sorting, l, i, j);
      } else {
        TieLosesRow(rows, sorting, l, j, i);
      }
    }
  }

  function Concat(pages: seq<seq<Row>>): seq<Row> {
    if pages == [] then [] else Concat(pages[..|pages| - 1]) + pages[|pages| - 1]
  }
}
