/**
  Pages of query results: the SQL orders the matching rows by position and limits them to one row
  more than a page, starting after a cursor or at an offset. A cursor is the position of the last
  row of the page before.
 */
module Paging {
  import opened Order
  import opened Sequences
  import opened Wrappers

  const DEFAULT_PAGE_SIZE := 50
  const MAX_PAGE_SIZE := 500

  /** A result row: its position and the other columns. */
  datatype Record<A> = Record(position: Position, columns: A)

  datatype Options = Options(page: int, pageSize: int, cursor: Option<Position>)

  datatype Page<A> = Page(records: seq<Record<A>>, hasMore: bool)

  function NormalizePage(page: int): (r: nat)
    ensures r >= 1 && (page >= 1 ==> r == page) && (page < 1 ==> r == 1)
  {
    if page <= 0 then 1 else page
  }

  function NormalizePageSize(pageSize: int): (r: nat)
    ensures 1 <= r <= 500
    ensures if pageSize <= 0 then r == 50 else r <= pageSize
    ensures 1 <= pageSize <= 500 ==> r == pageSize
    ensures pageSize > 500 ==> r == 500
  {
    if pageSize <= 0 then DEFAULT_PAGE_SIZE
    else if pageSize > MAX_PAGE_SIZE then MAX_PAGE_SIZE
    else pageSize
  }

  function OffsetOf(page: int, size: nat): nat {
    (NormalizePage(page) - 1) * size
  }

  predicate UsesCursorPagination(options: Options) {
    options.cursor.Some? || NormalizePage(options.page) <= 1
  }

  ghost predicate Sorted<A>(rows: seq<Record<A>>) {
    forall i, j :: 0 <= i < j < |rows| ==> Before(rows[i].position, rows[j].position)
  }

  /** No two rows of the table have the same position. */
  ghost predicate UniquePositions<A>(table: seq<Record<A>>) {
    forall i, j :: 0 <= i < j < |table| ==> table[i].position != table[j].position
  }

  /** ORDER BY: insertion of one row, and of all. */
  function InsertRow<A>(row: Record<A>, rows: seq<Record<A>>): seq<Record<A>> {
    if rows == [] || Before(row.position, rows[0].position) then [row] + rows
    else [rows[0]] + InsertRow(row, rows[1..])
  }

  function OrderBy<A>(rows: seq<Record<A>>): seq<Record<A>> {
    if rows == [] then [] else InsertRow(rows[0], OrderBy(rows[1..]))
  }

  /** The cursor's part of the condition: only rows behind it. */
  predicate AfterCursor(position: Position, cursor: Option<Position>) {
    cursor.None? || Before(cursor.value, position)
  }

  predicate Keeps<A>(filter: Record<A> -> bool, cursor: Option<Position>, r: Record<A>) {
    filter(r) && AfterCursor(r.position, cursor)
  }

  /** WHERE: the filter, and the condition that is appended to it for a cursor. */
  function Where<A>(rows: seq<Record<A>>, filter: Record<A> -> bool, cursor: Option<Position>): seq<Record<A>> {
    if rows == [] then []
    else (if Keeps(filter, cursor, rows[0]) then [rows[0]] else []) + Where(rows[1..], filter, cursor)
  }

  function Limit<A>(rows: seq<A>, limit: nat): seq<A> {
    if |rows| <= limit then rows else rows[..limit]
  }

  function Offset<A>(rows: seq<A>, offset: nat): seq<A> {
    if |rows| <= offset then [] else rows[offset..]
  }

  /** What the page statement selects. */
  function Select<A>(table: seq<Record<A>>, filter: Record<A> -> bool, options: Options): seq<Record<A>> {
    var size := NormalizePageSize(options.pageSize);
    var matching := OrderBy(Where(table, filter, options.cursor));
    if UsesCursorPagination(options) then Limit(matching, size + 1)
    else Limit(Offset(matching, OffsetOf(options.page, size)), size + 1)
  }

  function PageOf<A>(table: seq<Record<A>>, filter: Record<A> -> bool, options: Options): Page<A> {
    var selected := Select(table, filter, options);
    Page(Limit(selected, NormalizePageSize(options.pageSize)), |selected| > NormalizePageSize(options.pageSize))
  }

  lemma {:induction false} InsertKeepsOrder<A>(row: Record<A>, rows: seq<Record<A>>)
    requires Sorted(rows) && forall r <- rows :: r.position != row.position
    ensures Sorted(InsertRow(row, rows))
    ensures multiset(InsertRow(row, rows)) == multiset(rows) + multiset{row}
  {
    if rows == [] {
    } else if Before(row.position, rows[0].position) {
      forall j | 1 <= j < |rows|
        ensures Before(row.position, rows[j].position)
      {
        BeforeIsTransitive(row.position, rows[0].position, rows[j].position);
      }
    } else {
      InsertKeepsOrder(row, rows[1..]);
      assert rows == [rows[0]] + rows[1..];
      var inserted := InsertRow(row, rows[1..]);
      BeforeIsTotal(rows[0].position, row.position);
      assert rows[0] in rows;
      forall k | 0 <= k < |inserted|
        ensures Before(rows[0].position, inserted[k].position)
      {
        assert inserted[k] in multiset(inserted);
        if inserted[k] != row {
          assert inserted[k] in multiset(rows[1..]);
        }
      }
    }
  }

  lemma {:induction false} OrderBySorts<A>(rows: seq<Record<A>>)
    requires UniquePositions(rows)
    ensures Sorted(OrderBy(rows)) && multiset(OrderBy(rows)) == multiset(rows)
  {
    if rows != [] {
      OrderBySorts(rows[1..]);
      assert rows == [rows[0]] + rows[1..];
      forall r | r in OrderBy(rows[1..])
        ensures r.position != rows[0].position
      {
        assert r in multiset(OrderBy(rows[1..]));
        assert r in rows[1..];
      }
      InsertKeepsOrder(rows[0], OrderBy(rows[1..]));
    }
  }

  /** There is only one sorted arrangement of the same rows. */
  lemma {:induction false} SortedIsUnique<A>(a: seq<Record<A>>, b: seq<Record<A>>)
    requires Sorted(a) && Sorted(b) && multiset(a) == multiset(b)
    ensures a == b
  {
    if a == [] {
      assert |b| == |multiset(b)| == 0;
    } else {
      SameHead(a, b);
      SplitHead(a);
      SplitHead(b);
      SuffixIsSorted(a, 1);
      SuffixIsSorted(b, 1);
      SortedIsUnique(a[1..], b[1..]);
    }
  }

  lemma SplitHead<A>(rows: seq<Record<A>>)
    requires rows != []
    ensures rows == [rows[0]] + rows[1..]
    ensures multiset(rows[1..]) == multiset(rows) - multiset{rows[0]}
  {
  }

  lemma SameHead<A>(a: seq<Record<A>>, b: seq<Record<A>>)
    requires Sorted(a) && Sorted(b) && multiset(a) == multiset(b) && a != []
    ensures b != [] && a[0] == b[0]
  {
    assert a[0] in multiset(b);
    assert b[0] in multiset(a);
    HeadIsLeast(a, b[0]);
    HeadIsLeast(b, a[0]);
    BeforeIsTotal(a[0].position, b[0].position);
  }

  lemma HeadIsLeast<A>(rows: seq<Record<A>>, row: Record<A>)
    requires Sorted(rows) && row in rows
    ensures rows[0] == row || Before(rows[0].position, row.position)
  {
  }

  lemma {:induction false} WhereCounts<A>(
    rows: seq<Record<A>>, filter: Record<A> -> bool, cursor: Option<Position>, r: Record<A>)
    ensures multiset(Where(rows, filter, cursor))[r] == if Keeps(filter, cursor, r) then multiset(rows)[r] else 0
  {
    if rows != [] {
      WhereCounts(rows[1..], filter, cursor, r);
      assert rows == [rows[0]] + rows[1..];
    }
  }

  lemma {:induction false} WhereOfBoth<A>(
    a: seq<Record<A>>, b: seq<Record<A>>, filter: Record<A> -> bool, cursor: Option<Position>)
    ensures Where(a + b, filter, cursor) == Where(a, filter, cursor) + Where(b, filter, cursor)
  {
    if a == [] {
      assert a + b == b;
    } else {
      WhereOfBoth(a[1..], b, filter, cursor);
      assert (a + b)[1..] == a[1..] + b && (a + b)[0] == a[0];
      var head := if Keeps(filter, cursor, a[0]) then [a[0]] else [];
      Regroup(head, Where(a[1..], filter, cursor), Where(b, filter, cursor));
    }
  }

  lemma {:induction false} WhereOfNone<A>(rows: seq<Record<A>>, filter: Record<A> -> bool, cursor: Option<Position>)
    requires forall r <- rows :: !filter(r)
    ensures Where(rows, filter, cursor) == []
  {
    if rows != [] {
      WhereOfNone(rows[1..], filter, cursor);
    }
  }

  /** A condition that says the same of every row selects the same rows. */
  lemma {:induction false} SameWhere<A>(
    rows: seq<Record<A>>, condition: Record<A> -> bool, filter: Record<A> -> bool, cursor: Option<Position>)
    requires forall r <- rows :: condition(r) <==> Keeps(filter, cursor, r)
    ensures Where(rows, condition, None) == Where(rows, filter, cursor)
  {
    if rows != [] {
      SameWhere(rows[1..], condition, filter, cursor);
    }
  }

  lemma {:induction false} WhereKeepsUnique<A>(rows: seq<Record<A>>, filter: Record<A> -> bool, cursor: Option<Position>)
    requires UniquePositions(rows)
    ensures UniquePositions(Where(rows, filter, cursor))
  {
    if rows != [] {
      WhereKeepsUnique(rows[1..], filter, cursor);
      var kept := Where(rows[1..], filter, cursor);
      forall r | r in kept
        ensures r.position != rows[0].position
      {
        WhereCounts(rows[1..], filter, cursor, r);
        assert r in multiset(kept);
        assert r in rows[1..];
      }
    }
  }

  /** Behind the row at `i` lie exactly the rows with a greater position. */
  lemma SuffixCounts<A>(all: seq<Record<A>>, i: nat, r: Record<A>)
    requires Sorted(all) && i < |all|
    ensures multiset(all[i + 1..])[r] == if Before(all[i].position, r.position) then multiset(all)[r] else 0
  {
    var head, tail := all[..i + 1], all[i + 1..];
    assert all == head + tail;
    forall k | 0 <= k < |head|
      ensures !Before(all[i].position, head[k].position)
    {
      BeforeIsTotal(head[k].position, all[i].position);
    }
    forall k | 0 <= k < |tail|
      ensures Before(all[i].position, tail[k].position)
    {
      assert tail[k] == all[i + 1 + k];
    }
    if Before(all[i].position, r.position) {
      assert r !in head;
    } else {
      assert r !in tail;
    }
  }

  /** The rows behind a cursor, in order; with no cursor, the whole result. */
  function Result<A>(table: seq<Record<A>>, filter: Record<A> -> bool, cursor: Option<Position>): seq<Record<A>> {
    OrderBy(Where(table, filter, cursor))
  }

  lemma ResultIsSorted<A>(table: seq<Record<A>>, filter: Record<A> -> bool, cursor: Option<Position>)
    requires UniquePositions(table)
    ensures Sorted(Result(table, filter, cursor))
  {
    WhereKeepsUnique(table, filter, cursor);
    OrderBySorts(Where(table, filter, cursor));
  }

  /** The result holds every selected row as often as the table does, and no other row. */
  lemma ResultCounts<A>(table: seq<Record<A>>, filter: Record<A> -> bool, cursor: Option<Position>, r: Record<A>)
    requires UniquePositions(table)
    ensures multiset(Result(table, filter, cursor))[r] == if Keeps(filter, cursor, r) then multiset(table)[r] else 0
  {
    WhereKeepsUnique(table, filter, cursor);
    OrderBySorts(Where(table, filter, cursor));
    WhereCounts(table, filter, cursor, r);
  }

  /** The condition "after the cursor" cuts the ordered result exactly behind the cursor row. */
  lemma CursorCutsResult<A>(table: seq<Record<A>>, filter: Record<A> -> bool, i: nat)
    requires UniquePositions(table)
    requires i < |Result(table, filter, None)|
    ensures var all := Result(table, filter, None);
            Result(table, filter, Some(all[i].position)) == all[i + 1..]
  {
    var all := Result(table, filter, None);
    var rest := Result(table, filter, Some(all[i].position));
    ResultIsSorted(table, filter, None);
    ResultIsSorted(table, filter, Some(all[i].position));
    forall r: Record<A>
      ensures multiset(rest)[r] == multiset(all[i + 1..])[r]
    {
      ResultCounts(table, filter, None, r);
      ResultCounts(table, filter, Some(all[i].position), r);
      SuffixCounts(all, i, r);
    }
    SameCounts(rest, all[i + 1..]);
    SuffixIsSorted(all, i + 1);
    SortedIsUnique(rest, all[i + 1..]);
  }

  lemma SuffixIsSorted<A>(all: seq<Record<A>>, i: nat)
    requires Sorted(all) && i <= |all|
    ensures Sorted(all[i..])
  {
  }

  lemma SameCounts<A>(a: seq<Record<A>>, b: seq<Record<A>>)
    requires forall r: Record<A> :: multiset(a)[r] == multiset(b)[r]
    ensures multiset(a) == multiset(b)
  {
  }

  function Min(a: int, b: int): int {
    if a < b then a else b
  }

  /** The page that starts behind the first `done` rows of the whole result. */
  function Slice<A>(all: seq<Record<A>>, done: nat, size: nat): Page<A>
    requires done <= |all|
  {
    Page(all[done..Min(done + size, |all|)], done + size < |all|)
  }

  /** The cursor that a response hands out; it names the storage position of the last row. */
  function NextCursor<A>(page: Page<A>): Option<Position> {
    if page.hasMore && page.records != [] then Some(page.records[|page.records| - 1].position) else None
  }

  /** Without a cursor the first page is the first slice; the cursor of row `done - 1` gives the slice behind it. */
  lemma CursorPage<A>(table: seq<Record<A>>, filter: Record<A> -> bool, done: nat, page: int, pageSize: int)
    requires UniquePositions(table)
    requires done <= |Result(table, filter, None)| && (done == 0 ==> NormalizePage(page) == 1)
    ensures var all := Result(table, filter, None);
            var cursor := if done == 0 then None else Some(all[done - 1].position);
            PageOf(table, filter, Options(page, pageSize, cursor)) == Slice(all, done, NormalizePageSize(pageSize))
  {
    var all := Result(table, filter, None);
    if done == 0 {
      PageIsSlice(table, filter, Options(page, pageSize, None));
    } else {
      CursorCutsResult(table, filter, done - 1);
      PageIsSlice(table, filter, Options(page, pageSize, Some(all[done - 1].position)));
      SliceOfSuffix(all, done, NormalizePageSize(pageSize));
    }
  }

  lemma SliceOfSuffix<A>(all: seq<Record<A>>, done: nat, size: nat)
    requires done <= |all|
    ensures Slice(all[done..], 0, size) == Slice(all, done, size)
  {
  }

  /** The page at an offset is the slice there, so page numbers and cursors address the same pages. */
  lemma OffsetPage<A>(table: seq<Record<A>>, filter: Record<A> -> bool, page: int, pageSize: int)
    ensures var all := Result(table, filter, None);
            var size := NormalizePageSize(pageSize);
            PageOf(table, filter, Options(page, pageSize, None)) == Slice(all, Min(OffsetOf(page, size), |all|), size)
  {
  }

  /** Where the page starts in the rows it is taken from: a cursor has cut away all that comes before it. */
  function StartIn<A>(rows: seq<Record<A>>, options: Options): (start: nat)
    ensures start <= |rows|
  {
    if options.cursor.Some? then 0 else Min(OffsetOf(options.page, NormalizePageSize(options.pageSize)), |rows|)
  }

  /** One row more than a page is enough to know whether there are more rows than the page holds. */
  lemma LimitTellsMore<A>(rows: seq<A>, start: nat, size: nat)
    requires start <= |rows|
    ensures Limit(Limit(rows[start..], size + 1), size) == rows[start..Min(start + size, |rows|)]
    ensures |Limit(rows[start..], size + 1)| > size <==> start + size < |rows|
  {
  }

  /** The row at `i` of the whole result is where the cursor of the page points to. */
  ghost predicate PointsAt<A>(table: seq<Record<A>>, filter: Record<A> -> bool, cursor: Option<Position>, i: nat) {
    var all := Result(table, filter, None);
    i < |all| && cursor == Some(all[i].position)
  }

  /**
    Reads the selected rows, of which the last one only tells that there are more. The page is the
    slice of the result at the page's offset; with a cursor, the slice behind the row it points at.
   */
  method QueryPage<A>(table: seq<Record<A>>, filter: Record<A> -> bool, options: Options) returns (page: Page<A>)
    ensures var rows := Result(table, filter, options.cursor);
            page == Slice(rows, StartIn(rows, options), NormalizePageSize(options.pageSize))
    ensures UniquePositions(table) ==>
              forall i: nat :: PointsAt(table, filter, options.cursor, i) ==>
                page == Slice(Result(table, filter, None), i + 1, NormalizePageSize(options.pageSize))
  {
    var selected := Select(table, filter, options);
    var size := NormalizePageSize(options.pageSize);
    var records := [];
    for i := 0 to |selected|
      invariant records == selected[..i]
    {
      records := records + [selected[i]];
    }
    var hasMore := |records| > size;
    if hasMore {
      records := records[..size];
    }
    page := Page(records, hasMore);
    PageIsSlice(table, filter, options);
    PageBehindRow(table, filter, options);
  }

  lemma PageBehindRow<A>(table: seq<Record<A>>, filter: Record<A> -> bool, options: Options)
    ensures UniquePositions(table) ==>
              forall i: nat :: PointsAt(table, filter, options.cursor, i) ==>
                PageOf(table, filter, options) == Slice(Result(table, filter, None), i + 1, NormalizePageSize(options.pageSize))
  {
    if UniquePositions(table) {
      forall i: nat | PointsAt(table, filter, options.cursor, i)
        ensures PageOf(table, filter, options) == Slice(Result(table, filter, None), i + 1, NormalizePageSize(options.pageSize))
      {
        CursorPage(table, filter, i + 1, options.page, options.pageSize);
      }
    }
  }

  lemma PageIsSlice<A>(table: seq<Record<A>>, filter: Record<A> -> bool, options: Options)
    ensures var rows := Result(table, filter, options.cursor);
            PageOf(table, filter, options) == Slice(rows, StartIn(rows, options), NormalizePageSize(options.pageSize))
  {
    var rows := Result(table, filter, options.cursor);
    LimitTellsMore(rows, StartIn(rows, options), NormalizePageSize(options.pageSize));
    assert rows[0..] == rows;
  }

  /** Where the k-th page starts, counting from 0. */
  function StartOf(k: nat, size: nat): nat {
    if k == 0 then 0 else StartOf(k - 1, size) + size
  }

  lemma {:induction false} StartIsOffset(k: nat, size: nat)
    ensures StartOf(k, size) == OffsetOf(k + 1, size)
  {
    if k > 0 {
      StartIsOffset(k - 1, size);
      assert k * size == (k - 1) * size + size;
    }
  }

  /** The page at `k + 1` is the one that the cursor of the page at `k` leads to. */
  ghost predicate Linked<A>(table: seq<Record<A>>, filter: Record<A> -> bool, pageSize: int, pages: seq<Page<A>>, k: int) {
    0 <= k < |pages| - 1 ==>
      && pages[k].hasMore
      && pages[k + 1] == PageOf(table, filter, Options(1, pageSize, NextCursor(pages[k])))
  }

  /** `pages` begins with the first page, and goes on with the page of each response's cursor. */
  ghost predicate Follows<A>(table: seq<Record<A>>, filter: Record<A> -> bool, pageSize: int, pages: seq<Page<A>>) {
    && pages != []
    && pages[0] == PageOf(table, filter, Options(1, pageSize, None))
    && forall k :: Linked(table, filter, pageSize, pages, k)
  }

  function Concat<A>(pages: seq<Page<A>>): seq<Record<A>> {
    if pages == [] then [] else Concat(pages[..|pages| - 1]) + pages[|pages| - 1].records
  }

  ghost predicate IsSlice<A>(all: seq<Record<A>>, size: nat, pages: seq<Page<A>>, k: int) {
    0 <= k < |pages| ==> StartOf(k, size) <= |all| && pages[k] == Slice(all, StartOf(k, size), size)
  }

  ghost predicate AreSlices<A>(all: seq<Record<A>>, size: nat, pages: seq<Page<A>>, n: nat) {
    forall k :: 0 <= k < n ==> IsSlice(all, size, pages, k)
  }

  /** If the page at `k` is the slice it should be, so is the next one. */
  ghost predicate StepsOn<A>(all: seq<Record<A>>, size: nat, pages: seq<Page<A>>, k: nat) {
    k < |pages| - 1 && IsSlice(all, size, pages, k) ==> IsSlice(all, size, pages, k + 1)
  }

  lemma {:induction false} ChainOfSlices<A>(all: seq<Record<A>>, size: nat, pages: seq<Page<A>>, n: nat)
    requires n <= |pages| && IsSlice(all, size, pages, 0) && forall k: nat :: StepsOn(all, size, pages, k)
    ensures AreSlices(all, size, pages, n)
    decreases n
  {
    if n > 0 {
      ChainOfSlices(all, size, pages, n - 1);
      assert n > 1 ==> StepsOn(all, size, pages, n - 2);
    }
  }

  lemma FollowedStepsOn<A>(table: seq<Record<A>>, filter: Record<A> -> bool, pageSize: int, pages: seq<Page<A>>, k: nat)
    requires UniquePositions(table) && Follows(table, filter, pageSize, pages)
    ensures StepsOn(Result(table, filter, None), NormalizePageSize(pageSize), pages, k)
  {
    if k < |pages| - 1 && IsSlice(Result(table, filter, None), NormalizePageSize(pageSize), pages, k) {
      LinkedPage(table, filter, pageSize, pages, k + 1);
    }
  }

  lemma FollowedPage<A>(table: seq<Record<A>>, filter: Record<A> -> bool, pageSize: int, pages: seq<Page<A>>, k: nat)
    requires UniquePositions(table) && Follows(table, filter, pageSize, pages) && k < |pages|
    ensures IsSlice(Result(table, filter, None), NormalizePageSize(pageSize), pages, k)
  {
    FirstPage(table, filter, pageSize, pages);
    forall j: nat
      ensures StepsOn(Result(table, filter, None), NormalizePageSize(pageSize), pages, j)
    {
      FollowedStepsOn(table, filter, pageSize, pages, j);
    }
    ChainOfSlices(Result(table, filter, None), NormalizePageSize(pageSize), pages, |pages|);
  }

  lemma FirstPage<A>(table: seq<Record<A>>, filter: Record<A> -> bool, pageSize: int, pages: seq<Page<A>>)
    requires UniquePositions(table) && pages != [] && pages[0] == PageOf(table, filter, Options(1, pageSize, None))
    ensures IsSlice(Result(table, filter, None), NormalizePageSize(pageSize), pages, 0)
  {
    CursorPage(table, filter, 0, 1, pageSize);
  }

  lemma LinkedPage<A>(table: seq<Record<A>>, filter: Record<A> -> bool, pageSize: int, pages: seq<Page<A>>, k: nat)
    requires UniquePositions(table) && 0 < k < |pages| && Linked(table, filter, pageSize, pages, k - 1)
    requires IsSlice(Result(table, filter, None), NormalizePageSize(pageSize), pages, k - 1)
    ensures IsSlice(Result(table, filter, None), NormalizePageSize(pageSize), pages, k)
  {
    NextSlice(table, filter, StartOf(k - 1, NormalizePageSize(pageSize)), pageSize);
  }

  lemma NextSlice<A>(table: seq<Record<A>>, filter: Record<A> -> bool, done: nat, pageSize: int)
    requires UniquePositions(table)
    requires done + NormalizePageSize(pageSize) < |Result(table, filter, None)|
    ensures var all := Result(table, filter, None);
            var size := NormalizePageSize(pageSize);
            PageOf(table, filter, Options(1, pageSize, NextCursor(Slice(all, done, size)))) == Slice(all, done + size, size)
  {
    var all, size := Result(table, filter, None), NormalizePageSize(pageSize);
    var page := Slice(all, done, size);
    assert page.records == all[done..done + size] && page.hasMore;
    var cursor := Some(all[done + size - 1].position);
    assert NextCursor(page) == cursor;
    CursorPage(table, filter, done + size, 1, pageSize);
    assert PageOf(table, filter, Options(1, pageSize, cursor)) == Slice(all, done + size, size);
  }

  lemma {:induction false} ConcatOfSlices<A>(all: seq<Record<A>>, size: nat, pages: seq<Page<A>>)
    requires forall k :: IsSlice(all, size, pages, k)
    ensures Concat(pages) == all[..Min(StartOf(|pages|, size), |all|)]
  {
    if pages != [] {
      var n := |pages| - 1;
      var front := pages[..n];
      forall k
        ensures IsSlice(all, size, front, k)
      {
        assert IsSlice(all, size, pages, k);
      }
      ConcatOfSlices(all, size, front);
      assert IsSlice(all, size, pages, n);
      var start := StartOf(n, size);
      assert all[..Min(start + size, |all|)] == all[..start] + all[start..Min(start + size, |all|)];
    }
  }

  /**
    Following the cursors from the first page until there are no more pages returns every matching
    row exactly once, in order; there are as few pages as that takes, and at least one; and the k-th
    of them is the page with number k.
  */
  lemma FollowingCursorsIsComplete<A>(
    table: seq<Record<A>>, filter: Record<A> -> bool, pageSize: int, pages: seq<Page<A>>)
    requires UniquePositions(table)
    requires Follows(table, filter, pageSize, pages) && !pages[|pages| - 1].hasMore
    ensures Sorted(Concat(pages))
    ensures forall r :: multiset(Concat(pages))[r] == if filter(r) then multiset(table)[r] else 0
    ensures |pages| == 1 || OffsetOf(|pages|, NormalizePageSize(pageSize)) < |Concat(pages)|
    ensures |Concat(pages)| <= OffsetOf(|pages| + 1, NormalizePageSize(pageSize))
    ensures forall k :: 0 <= k < |pages| ==> pages[k] == PageOf(table, filter, Options(k + 1, pageSize, None))
  {
    var all := Result(table, filter, None);
    var size := NormalizePageSize(pageSize);
    forall k | 0 <= k < |pages|
      ensures IsSlice(all, size, pages, k)
      ensures pages[k] == PageOf(table, filter, Options(k + 1, pageSize, None))
    {
      FollowedPage(table, filter, pageSize, pages, k);
      OffsetPage(table, filter, k + 1, pageSize);
      StartIsOffset(k, size);
    }
    PagesCover(table, filter, pageSize, pages);
    ResultIsSorted(table, filter, None);
    forall r: Record<A>
      ensures multiset(all)[r] == if filter(r) then multiset(table)[r] else 0
    {
      ResultCounts(table, filter, None, r);
    }
  }

  lemma PagesCover<A>(table: seq<Record<A>>, filter: Record<A> -> bool, pageSize: int, pages: seq<Page<A>>)
    requires Follows(table, filter, pageSize, pages) && !pages[|pages| - 1].hasMore
    requires forall k | 0 <= k < |pages| :: IsSlice(Result(table, filter, None), NormalizePageSize(pageSize), pages, k)
    ensures Concat(pages) == Result(table, filter, None)
    ensures |pages| == 1 || OffsetOf(|pages|, NormalizePageSize(pageSize)) < |Concat(pages)|
    ensures |Concat(pages)| <= OffsetOf(|pages| + 1, NormalizePageSize(pageSize))
  {
    var all := Result(table, filter, None);
    var size := NormalizePageSize(pageSize);
    ConcatOfSlices(all, size, pages);
    var n := |pages| - 1;
    StartIsOffset(n, size);
    StartIsOffset(n + 1, size);
    assert IsSlice(all, size, pages, n);
    if n > 0 {
      assert IsSlice(all, size, pages, n - 1);
      assert Linked(table, filter, pageSize, pages, n - 1);
    }
    assert all[..|all|] == all;
  }

  /** Every page but the last one is full and says that there is more; the last one is not longer and says that there is none. */
  ghost predicate AreFullPages<A>(pages: seq<Page<A>>, size: nat) {
    forall k :: 0 <= k < |pages| ==>
      && (pages[k].hasMore <==> k < |pages| - 1)
      && (if k < |pages| - 1 then |pages[k].records| == size else |pages[k].records| <= size)
  }

  lemma FollowedPagesAreFull<A>(table: seq<Record<A>>, filter: Record<A> -> bool, pageSize: int, pages: seq<Page<A>>)
    requires UniquePositions(table)
    requires Follows(table, filter, pageSize, pages) && !pages[|pages| - 1].hasMore
    ensures AreFullPages(pages, NormalizePageSize(pageSize))
  {
    forall k | 0 <= k < |pages|
      ensures pages[k].hasMore <==> k < |pages| - 1
      ensures |pages[k].records| <= NormalizePageSize(pageSize)
      ensures k < |pages| - 1 ==> |pages[k].records| == NormalizePageSize(pageSize)
    {
      assert Linked(table, filter, pageSize, pages, k);
      FollowedPage(table, filter, pageSize, pages, k);
    }
  }

  /** The number of matching rows, which is counted by a statement of its own, is the number of rows on all pages. */
  lemma PagesHoldTheTotal<A>(
    table: seq<Record<A>>, filter: Record<A> -> bool, pageSize: int, pages: seq<Page<A>>)
    requires UniquePositions(table)
    requires Follows(table, filter, pageSize, pages) && !pages[|pages| - 1].hasMore
    ensures |Where(table, filter, None)| == |Concat(pages)|
  {
    FollowingCursorsIsComplete(table, filter, pageSize, pages);
    forall r: Record<A>
      ensures multiset(Where(table, filter, None))[r] == multiset(Concat(pages))[r]
    {
      WhereCounts(table, filter, None, r);
    }
    SameCounts(Where(table, filter, None), Concat(pages));
    SameLength(Where(table, filter, None), Concat(pages));
  }

  lemma SameLength<A>(a: seq<A>, b: seq<A>)
    requires multiset(a) == multiset(b)
    ensures |a| == |b|
  {
    assert |multiset(a)| == |a| && |multiset(b)| == |b|;
  }

  /** The page that the cursor of the last page leads to is the next one to follow. */
  lemma FollowsWith<A>(
    table: seq<Record<A>>, filter: Record<A> -> bool, pageSize: int, pages: seq<Page<A>>, next: Page<A>)
    requires Follows(table, filter, pageSize, pages) && pages[|pages| - 1].hasMore
    requires next == PageOf(table, filter, Options(1, pageSize, NextCursor(pages[|pages| - 1])))
    ensures Follows(table, filter, pageSize, pages + [next])
  {
    var more := pages + [next];
    forall k
      ensures Linked(table, filter, pageSize, more, k)
    {
      if 0 <= k < |pages| - 1 {
        assert Linked(table, filter, pageSize, pages, k);
        assert more[k] == pages[k] && more[k + 1] == pages[k + 1];
      }
    }
  }

  /** `a` is not behind `b`. */
  predicate UpTo(a: Position, b: Position) {
    a == b || Before(a, b)
  }

  /** Rows in order, of which several may have the same position. */
  ghost predicate Ordered<A>(rows: seq<Record<A>>) {
    forall i, j :: 0 <= i <= j < |rows| ==> UpTo(rows[i].position, rows[j].position)
  }

  lemma UpToIsTransitive(a: Position, b: Position, c: Position)
    requires UpTo(a, b) && UpTo(b, c)
    ensures UpTo(a, c)
  {
    if Before(a, b) && Before(b, c) {
      BeforeIsTransitive(a, b, c);
    }
  }

  lemma {:induction false} InsertKeepsOrdered<A>(row: Record<A>, rows: seq<Record<A>>)
    requires Ordered(rows)
    ensures Ordered(InsertRow(row, rows))
    ensures multiset(InsertRow(row, rows)) == multiset(rows) + multiset{row}
  {
    if rows != [] && Before(row.position, rows[0].position) {
      forall j | 0 <= j < |rows|
        ensures UpTo(row.position, rows[j].position)
      {
        UpToIsTransitive(row.position, rows[0].position, rows[j].position);
      }
    } else if rows != [] {
      InsertKeepsOrdered(row, rows[1..]);
      assert rows == [rows[0]] + rows[1..];
      var inserted := InsertRow(row, rows[1..]);
      BeforeIsTotal(rows[0].position, row.position);
      forall k | 0 <= k < |inserted|
        ensures UpTo(rows[0].position, inserted[k].position)
      {
        assert inserted[k] in multiset(inserted);
        assert inserted[k] != row ==> inserted[k] in multiset(rows[1..]);
      }
    }
  }

  lemma {:induction false} OrderByOrders<A>(rows: seq<Record<A>>)
    ensures Ordered(OrderBy(rows)) && multiset(OrderBy(rows)) == multiset(rows)
  {
    if rows != [] {
      OrderByOrders(rows[1..]);
      InsertKeepsOrdered(rows[0], OrderBy(rows[1..]));
      assert rows == [rows[0]] + rows[1..];
    }
  }

  /** The result of any table holds every selected row as often as the table does. */
  lemma ResultHolds<A>(table: seq<Record<A>>, filter: Record<A> -> bool, cursor: Option<Position>, r: Record<A>)
    ensures multiset(Result(table, filter, cursor))[r] == if Keeps(filter, cursor, r) then multiset(table)[r] else 0
    ensures r in Result(table, filter, cursor) ==> r in table && Keeps(filter, cursor, r)
  {
    OrderByOrders(Where(table, filter, cursor));
    WhereCounts(table, filter, cursor, r);
    assert r in Result(table, filter, cursor) ==> r in multiset(Result(table, filter, cursor));
  }

  /** The first page of some rows holds all of them, or those up to the row that the cursor names. */
  lemma FirstSlice<A>(rows: seq<Record<A>>, size: nat)
    requires size > 0
    ensures var page := Slice(rows, 0, size);
            if page.hasMore then size < |rows| && page.records == rows[..size] && NextCursor(page) == Some(rows[size - 1].position)
            else page.records == rows
  {
  }

  /** What a page of any table holds: the rows behind the cursor up to its last one. */
  lemma PageHolds<A>(table: seq<Record<A>>, filter: Record<A> -> bool, pageSize: int, cursor: Option<Position>, r: Record<A>)
    ensures var page := PageOf(table, filter, Options(1, pageSize, cursor));
            && (page.hasMore ==> NextCursor(page).Some? && AfterCursor(NextCursor(page).value, cursor))
            && (r in page.records ==> r in table && Keeps(filter, cursor, r))
            && (!page.hasMore ==> multiset(page.records)[r] == if Keeps(filter, cursor, r) then multiset(table)[r] else 0)
  {
    var rows, size := Result(table, filter, cursor), NormalizePageSize(pageSize);
    PageIsSlice(table, filter, Options(1, pageSize, cursor));
    FirstSlice(rows, size);
    ResultHolds(table, filter, cursor, r);
    if size < |rows| {
      assert rows[size - 1] in rows;
      ResultHolds(table, filter, cursor, rows[size - 1]);
    }
  }

  /** A row that is selected, and that no other selected row shares its position with. */
  ghost predicate IsAlone<A>(table: seq<Record<A>>, filter: Record<A> -> bool, r: Record<A>) {
    && filter(r) && multiset(table)[r] == 1
    && forall x :: x in table && filter(x) && x.position == r.position ==> x == r
  }

  lemma OnceBefore<A>(rows: seq<Record<A>>, r: Record<A>, size: nat)
    requires 0 < size <= |rows| && Ordered(rows) && multiset(rows)[r] == 1
    requires rows[size - 1].position == r.position ==> rows[size - 1] == r
    ensures multiset(rows[..size])[r] == if UpTo(r.position, rows[size - 1].position) then 1 else 0
  {
    var head, tail := rows[..size], rows[size..];
    assert rows == head + tail;
    var last := rows[size - 1];
    BeforeIsTotal(r.position, last.position);
    if r in head {
      assert UpTo(r.position, last.position);
    } else {
      assert r in multiset(rows) && r in tail && last in head;
      var k :| 0 <= k < |tail| && tail[k] == r;
      assert rows[size + k] == r;
    }
  }

  /** Of a page with more behind it, the last row tells whether a row that stands alone is on it. */
  lemma PageHoldsAlone<A>(table: seq<Record<A>>, filter: Record<A> -> bool, pageSize: int, cursor: Option<Position>, r: Record<A>)
    requires IsAlone(table, filter, r)
    ensures var page := PageOf(table, filter, Options(1, pageSize, cursor));
            page.hasMore ==>
              multiset(page.records)[r] == if AfterCursor(r.position, cursor) && UpTo(r.position, NextCursor(page).value) then 1 else 0
  {
    var rows, size := Result(table, filter, cursor), NormalizePageSize(pageSize);
    PageIsSlice(table, filter, Options(1, pageSize, cursor));
    FirstSlice(rows, size);
    OrderByOrders(Where(table, filter, cursor));
    ResultHolds(table, filter, cursor, r);
    PageHolds(table, filter, pageSize, cursor, r);
    if size < |rows| && AfterCursor(r.position, cursor) {
      assert rows[size - 1] in rows;
      ResultHolds(table, filter, cursor, rows[size - 1]);
      OnceBefore(rows, r, size);
    }
  }

  /** Where following stands after these pages. */
  function CursorAfter<A>(pages: seq<Page<A>>): Option<Position> {
    if pages == [] then None else NextCursor(pages[|pages| - 1])
  }

  lemma NextFollowed<A>(table: seq<Record<A>>, filter: Record<A> -> bool, pageSize: int, pages: seq<Page<A>>)
    requires Follows(table, filter, pageSize, pages)
    ensures var n := |pages| - 1;
            && (n > 0 ==> Follows(table, filter, pageSize, pages[..n]) && pages[n - 1].hasMore)
            && pages[n] == PageOf(table, filter, Options(1, pageSize, CursorAfter(pages[..n])))
  {
    var n := |pages| - 1;
    if n > 0 {
      assert Linked(table, filter, pageSize, pages, n - 1);
      forall k
        ensures Linked(table, filter, pageSize, pages[..n], k)
      {
        assert Linked(table, filter, pageSize, pages, k);
      }
    }
  }

  /** While following goes on, a row that stands alone has been on a page exactly if it is not behind the cursor. */
  lemma {:induction false} AloneSoFar<A>(
    table: seq<Record<A>>, filter: Record<A> -> bool, pageSize: int, pages: seq<Page<A>>, r: Record<A>)
    requires Follows(table, filter, pageSize, pages) && IsAlone(table, filter, r)
    ensures multiset(Concat(pages))[r] ==
            if pages[|pages| - 1].hasMore && AfterCursor(r.position, CursorAfter(pages)) then 0 else 1
    decreases |pages|
  {
    var n := |pages| - 1;
    var cursor := CursorAfter(pages[..n]);
    NextFollowed(table, filter, pageSize, pages);
    assert multiset(Concat(pages))[r] == multiset(Concat(pages[..n]))[r] + multiset(pages[n].records)[r];
    PageHolds(table, filter, pageSize, cursor, r);
    PageHoldsAlone(table, filter, pageSize, cursor, r);
    if n > 0 {
      AloneSoFar(table, filter, pageSize, pages[..n], r);
      PageHolds(table, filter, pageSize, CursorAfter(pages[..n - 1]), r);
      NextFollowed(table, filter, pageSize, pages[..n]);
    }
    assert multiset(Concat(pages[..n]))[r] == if AfterCursor(r.position, cursor) then 0 else 1;
    if pages[n].hasMore {
      BeforeIsTotal(r.position, NextCursor(pages[n]).value);
      if cursor.Some? {
        BeforeIsTotal(r.position, cursor.value);
        StaysBehind(r.position, cursor.value, NextCursor(pages[n]).value);
      }
    }
  }

  lemma StaysBehind(position: Position, cursor: Position, next: Position)
    requires Before(cursor, next)
    ensures !Before(cursor, position) ==> UpTo(position, next)
  {
    BeforeIsTotal(cursor, position);
    if Before(position, cursor) {
      BeforeIsTransitive(position, cursor, next);
    }
  }

  /**
    Following the cursors to the end returns every selected row that stands alone exactly once,
    whatever else the table holds, and only selected rows.
   */
  lemma AloneIsReturned<A>(table: seq<Record<A>>, filter: Record<A> -> bool, pageSize: int, pages: seq<Page<A>>)
    requires Follows(table, filter, pageSize, pages) && !pages[|pages| - 1].hasMore
    ensures forall r {:trigger IsAlone(table, filter, r)} :: IsAlone(table, filter, r) ==> multiset(Concat(pages))[r] == 1
    ensures forall r :: r in Concat(pages) ==> r in table && filter(r)
  {
    forall r | IsAlone(table, filter, r)
      ensures multiset(Concat(pages))[r] == 1
    {
      AloneSoFar(table, filter, pageSize, pages, r);
    }
    forall r | r in Concat(pages)
      ensures r in table && filter(r)
    {
      OnlySelected(table, filter, pageSize, pages, r);
    }
  }

  lemma {:induction false} OnlySelected<A>(
    table: seq<Record<A>>, filter: Record<A> -> bool, pageSize: int, pages: seq<Page<A>>, r: Record<A>)
    requires Follows(table, filter, pageSize, pages) && r in Concat(pages)
    ensures r in table && filter(r)
    decreases |pages|
  {
    var n := |pages| - 1;
    NextFollowed(table, filter, pageSize, pages);
    PageHolds(table, filter, pageSize, CursorAfter(pages[..n]), r);
    if r !in pages[n].records {
      OnlySelected(table, filter, pageSize, pages[..n], r);
    }
  }

  lemma {:induction false} FewerBehind<A>(
    rows: seq<Record<A>>, filter: Record<A> -> bool, cursor: Option<Position>, next: Position)
    requires AfterCursor(next, cursor)
    ensures |Where(rows, filter, Some(next))| <= |Where(rows, filter, cursor)|
    ensures (exists r <- rows :: filter(r) && r.position == next) ==>
              |Where(rows, filter, Some(next))| < |Where(rows, filter, cursor)|
  {
    if rows != [] {
      FewerBehind(rows[1..], filter, cursor, next);
      BeforeIsTotal(next, next);
      if cursor.Some? && Before(next, rows[0].position) {
        BeforeIsTransitive(cursor.value, next, rows[0].position);
      }
    }
  }

  /** Behind the cursor of a page there are fewer rows than behind the one before. */
  lemma FewerLeft<A>(table: seq<Record<A>>, filter: Record<A> -> bool, pageSize: int, cursor: Option<Position>)
    ensures var page := PageOf(table, filter, Options(1, pageSize, cursor));
            page.hasMore ==> |Where(table, filter, NextCursor(page))| < |Where(table, filter, cursor)|
  {
    var page := PageOf(table, filter, Options(1, pageSize, cursor));
    if page.hasMore {
      PageHolds(table, filter, pageSize, cursor, page.records[|page.records| - 1]);
      FewerBehind(table, filter, cursor, NextCursor(page).value);
    }
  }

  /** Following the cursors always comes to an end, whatever the table holds. */
  lemma {:induction false} FollowingEnds<A>(
    table: seq<Record<A>>, filter: Record<A> -> bool, pageSize: int, pages: seq<Page<A>>)
    returns (complete: seq<Page<A>>)
    requires Follows(table, filter, pageSize, pages)
    ensures Follows(table, filter, pageSize, complete) && !complete[|complete| - 1].hasMore
    ensures pages <= complete
    decreases |Where(table, filter, CursorAfter(pages))|, pages[|pages| - 1].hasMore
  {
    complete := pages;
    if pages[|pages| - 1].hasMore {
      var cursor := CursorAfter(pages);
      var next := PageOf(table, filter, Options(1, pageSize, cursor));
      FollowsWith(table, filter, pageSize, pages, next);
      FewerLeft(table, filter, pageSize, cursor);
      if next.hasMore {
        complete := FollowingEnds(table, filter, pageSize, pages + [next]);
      } else {
        complete := pages + [next];
      }
    }
  }

  /** Responses show the configured ID of a source instead of the ID its rows are stored under. */
  function Displayed<A>(page: Page<A>, display: string -> string): Page<A> {
    Page(seq(|page.records|, i requires 0 <= i < |page.records| =>
           page.records[i].(position := page.records[i].position.(source := display(page.records[i].position.source)))),
         page.hasMore)
  }

  lemma WhereOfTwo<A>(a: Record<A>, b: Record<A>, filter: Record<A> -> bool, cursor: Option<Position>)
    ensures Where([a, b], filter, cursor)
         == (if Keeps(filter, cursor, a) then [a] else []) + (if Keeps(filter, cursor, b) then [b] else [])
  {
    assert [a, b][1..] == [b] && [b][1..] == [];
    assert Where([b], filter, cursor) == (if Keeps(filter, cursor, b) then [b] else []) + [];
  }

  /** Whatever the table, the page behind the cursor `wrong` is the one behind the cursor `right` of the page before. */
  ghost predicate LeadsOn<A(!new)>(filter: Record<A> -> bool, right: Position, wrong: Position) {
    forall table: seq<Record<A>> ::
      UniquePositions(table) && NextCursor(PageOf(table, filter, Options(1, 1, None))) == Some(right) ==>
        PageOf(table, filter, Options(1, 1, Some(wrong))) == PageOf(table, filter, Options(1, 1, Some(right)))
  }

  /** With a displayed ID in the cursor the next page is right for every table exactly if the ID is the stored one. */
  lemma DisplayedCursorLeadsOnIffSame(position: Position, display: string -> string, filter: Record<()> -> bool)
    requires forall r: Record<()> :: filter(r)
    ensures LeadsOn(filter, position, position.(source := display(position.source))) <==> display(position.source) == position.source
  {
    var wrong := position.(source := display(position.source));
    if wrong != position {
      var first, second := Record(position, ()), Record(position.(offset := position.offset + 1), ());
      StringTrichotomy(position.source, position.source);
      StringTrichotomy(position.file, position.file);
      BeforeIsTotal(first.position, second.position);
      PagesOfTwo(first, second, filter, wrong);
      StringTrichotomy(position.source, wrong.source);
      assert UniquePositions([first, second]);
      assert NextCursor(PageOf([first, second], filter, Options(1, 1, None))) == Some(position);
      assert PageOf([first, second], filter, Options(1, 1, Some(wrong))) != PageOf([first, second], filter, Options(1, 1, Some(position)));
    } else {
      assert wrong == position;
    }
  }

  /** The first page of two rows in order, and the page behind any cursor. */
  lemma PagesOfTwo(first: Record<()>, second: Record<()>, filter: Record<()> -> bool, cursor: Position)
    requires filter(first) && filter(second) && Before(first.position, second.position)
    ensures PageOf([first, second], filter, Options(1, 1, None)) == Page([first], true)
    ensures PageOf([first, second], filter, Options(1, 1, Some(first.position))) == Page([second], false)
    ensures PageOf([first, second], filter, Options(1, 1, Some(cursor))) ==
      if Before(cursor, first.position) then Page([first], Before(cursor, second.position))
      else if Before(cursor, second.position) then Page([second], false)
      else Page([], false)
  {
    BeforeIsTotal(first.position, second.position);
    BeforeIsTotal(first.position, first.position);
    if Before(cursor, first.position) {
      BeforeIsTransitive(cursor, first.position, second.position);
    }
    WhereOfTwo(first, second, filter, None);
    WhereOfTwo(first, second, filter, Some(first.position));
    WhereOfTwo(first, second, filter, Some(cursor));
    assert [second][1..] == [] && [first, second][1..] == [second];
    assert OrderBy([second]) == [second] && OrderBy([first]) == [first];
    assert OrderBy([first, second]) == InsertRow(first, [second]) == [first] + [second];
    assert [first] + [second] == [first, second] && [first, second][..1] == [first];
    assert [first] + [] == [first] && [] + [second] == [second];
  }

  /** Why the cursor is taken before the IDs are replaced: taken afterwards, it can skip rows. */
  lemma CursorOfDisplayedPageSkips(first: Record<()>, second: Record<()>, filter: Record<()> -> bool, display: string -> string)
    requires first == Record(Position(1, "a", "f", 0), ()) && second == Record(Position(1, "a", "f", 1), ())
    requires filter(first) && filter(second) && display("a") == "z"
    ensures var page := PageOf([first, second], filter, Options(1, 1, None));
            && page == Page([first], true)
            && PageOf([first, second], filter, Options(1, 1, NextCursor(page))) == Page([second], false)
            && PageOf([first, second], filter, Options(1, 1, NextCursor(Displayed(page, display)))) == Page([], false)
  {
    var wrong := Position(1, "z", "f", 0);
    BeforeIsTotal(first.position, second.position);
    BeforeIsTotal(first.position, first.position);
    assert Before(first.position, second.position);
    assert StringLess("a", "z") && !StringLess("z", "a");
    assert !Before(wrong, first.position) && !Before(wrong, second.position);
    WhereOfTwo(first, second, filter, None);
    WhereOfTwo(first, second, filter, Some(first.position));
    WhereOfTwo(first, second, filter, Some(wrong));
    assert Where([first, second], filter, Some(first.position)) == [second];
    assert Where([first, second], filter, Some(wrong)) == [];
    assert [second][1..] == [] && [first, second][1..] == [second];
    assert OrderBy([second]) == [second];
    assert OrderBy([first, second]) == InsertRow(first, [second]) == [first] + [second];
    var page := PageOf([first, second], filter, Options(1, 1, None));
    assert page == Page([first], true);
    assert Displayed(page, display).records[0].position == wrong;
  }
}
