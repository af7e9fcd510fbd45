/**
 * The table view of src/components/WeatherTable.jsx: rows zipped from the
 * record's columns, and the pagination arithmetic over them.
 */
module WeatherTable {
  import opened Wrappers
  import opened Js
  import opened DataProcessing

  /** One table row: the date label and, per metric, the value at the row's index. */
  datatype Row = Row(date: string, cells: map<Metric, Option<real>>)

  const AllMetrics: set<Metric> :=
    {TemperatureMax, TemperatureMin, TemperatureMean, ApparentMax, ApparentMin, ApparentMean}

  /**
   * `weatherData[metric][index]`: the element when the column is an array long
   * enough, and `undefined` (`None`) otherwise.
   */
  function CellAt(columns: map<Metric, Column>, metric: Metric, index: nat): Option<real>
  {
    if metric in columns && columns[metric].Values? && index < |columns[metric].values|
    then Some(columns[metric].values[index])
    else None
  }

  /** The cells of row `index`, one per metric column. */
  function CellsAt(columns: map<Metric, Column>, index: nat): map<Metric, Option<real>>
  {
    map metric | metric in AllMetrics :: CellAt(columns, metric, index)
  }

  /** The `rows` memo: one row per date label, each holding that index of every metric column. */
  method BuildRows(record: WeatherRecord) returns (rows: seq<Row>)
    ensures |rows| == |record.time|
    ensures forall i :: 0 <= i < |rows| ==>
      && rows[i].date == record.time[i]
      && rows[i].cells.Keys == AllMetrics
      && forall metric :: metric in AllMetrics ==> rows[i].cells[metric] == CellAt(record.columns, metric, i)
  {
    rows := [];
    var index := 0;
    while index < |record.time|
      invariant 0 <= index <= |record.time|
      invariant |rows| == index
      invariant forall i :: 0 <= i < index ==>
        rows[i].date == record.time[i] && rows[i].cells == CellsAt(record.columns, i)
    {
      rows := rows + [Row(record.time[index], CellsAt(record.columns, index))];
      index := index + 1;
    }
  }

  /** The page sizes the selector offers. */
  const RowsPerPageOptions: set<int> := {10, 20, 50}

  /** The component's own state: the page shown (1-based) and the page size. */
  datatype TableState = TableState(currentPage: int, rowsPerPage: int)

  /** `useState(1)` and `useState(10)` */
  const InitialTable := TableState(1, 10)

  /** What every reachable table state satisfies: a page of at least 1 and an offered page size. */
  predicate ValidTable(t: TableState)
  {
    t.currentPage >= 1 && t.rowsPerPage in RowsPerPageOptions
  }

  /**
   * The table starts valid; with `GoToPage` and `ChangeRowsPerPage` keeping
   * `ValidTable`, every state the table reaches is valid.
   */
  lemma InitialTableValid()
    ensures ValidTable(InitialTable)
    ensures CurrentRows([0], InitialTable) == [0]
  {
  }

  /** `Math.ceil(totalRows / rowsPerPage)`: the fewest pages that hold every row, none of them empty. */
  function TotalPages(totalRows: nat, rowsPerPage: int): (pages: nat)
    requires rowsPerPage > 0
    ensures pages * rowsPerPage >= totalRows
    ensures pages == 0 <==> totalRows == 0
    ensures pages > 0 ==> (pages - 1) * rowsPerPage < totalRows
  {
    CeilDiv(totalRows, rowsPerPage)
  }

  /** `(currentPage - 1) * rowsPerPage`: the index of the first row of the current page. */
  function StartIndex(t: TableState): nat
    requires ValidTable(t)
  {
    (t.currentPage - 1) * t.rowsPerPage
  }

  /** The current page starts on a page boundary: a multiple of the page size with currentPage - 1 pages before it. */
  lemma StartIndexOnPageBoundary(t: TableState)
    requires ValidTable(t)
    ensures StartIndex(t) % t.rowsPerPage == 0 && StartIndex(t) / t.rowsPerPage == t.currentPage - 1
  {
  }

  /** `Math.min(startIndex + rowsPerPage, totalRows)`: one page further on, but never past the last row. */
  function EndIndex(t: TableState, totalRows: nat): (j: nat)
    requires ValidTable(t)
    ensures j <= totalRows && j <= StartIndex(t) + t.rowsPerPage
    ensures j == totalRows || j == StartIndex(t) + t.rowsPerPage
  {
    Min(StartIndex(t) + t.rowsPerPage, totalRows)
  }

  /** Where the current page starts relative to the row count, from the bounds of the ceiling division. */
  lemma PageBounds(t: TableState, totalRows: nat)
    requires ValidTable(t)
    ensures t.currentPage < TotalPages(totalRows, t.rowsPerPage) ==> StartIndex(t) + t.rowsPerPage < totalRows
    ensures t.currentPage == TotalPages(totalRows, t.rowsPerPage) ==>
      StartIndex(t) < totalRows <= StartIndex(t) + t.rowsPerPage
    ensures t.currentPage > TotalPages(totalRows, t.rowsPerPage) ==> StartIndex(t) >= totalRows
  {
  }

  /**
   * `rows.slice(startIndex, endIndex)`: the rows of the current page, at most
   * a page of consecutive rows from `startIndex` on: a full page when enough
   * rows follow, the remainder when fewer do, and none when `startIndex` is
   * at or past the end.
   */
  function CurrentRows<T>(rows: seq<T>, t: TableState): (r: seq<T>)
    requires ValidTable(t)
    ensures |r| <= t.rowsPerPage
    ensures forall i :: 0 <= i < |r| ==> StartIndex(t) + i < |rows| && r[i] == rows[StartIndex(t) + i]
    ensures StartIndex(t) + t.rowsPerPage <= |rows| ==> |r| == t.rowsPerPage
    ensures StartIndex(t) < |rows| < StartIndex(t) + t.rowsPerPage ==> |r| == |rows| - StartIndex(t)
    ensures StartIndex(t) >= |rows| ==> r == []
  {
    Slice(rows, StartIndex(t), EndIndex(t, |rows|))
  }

  /**
   * The same by page number: every page before the last is full, the last
   * holds the non-empty remainder, and a page past the last (left over from a
   * longer earlier result) is empty.
   */
  lemma PageSizes<T>(rows: seq<T>, t: TableState)
    requires ValidTable(t)
    ensures t.currentPage < TotalPages(|rows|, t.rowsPerPage) ==> |CurrentRows(rows, t)| == t.rowsPerPage
    ensures t.currentPage == TotalPages(|rows|, t.rowsPerPage) ==> 0 < |CurrentRows(rows, t)| == |rows| - StartIndex(t)
    ensures t.currentPage > TotalPages(|rows|, t.rowsPerPage) ==> CurrentRows(rows, t) == []
  {
    PageBounds(t, |rows|);
  }

  /** Pages 1 to k, shown one after the other. */
  function PagesUpTo<T>(rows: seq<T>, rowsPerPage: int, k: nat): seq<T>
    requires rowsPerPage in RowsPerPageOptions
  {
    if k == 0 then [] else PagesUpTo(rows, rowsPerPage, k - 1) + CurrentRows(rows, TableState(k, rowsPerPage))
  }

  /** The current page is the infix of the rows between the clamped start and the end index. */
  lemma CurrentRowsIsInfix<T>(rows: seq<T>, t: TableState)
    requires ValidTable(t)
    ensures Min(StartIndex(t), |rows|) <= EndIndex(t, |rows|)
    ensures CurrentRows(rows, t) == rows[Min(StartIndex(t), |rows|)..EndIndex(t, |rows|)]
  {
    var r := Slice(rows, StartIndex(t), EndIndex(t, |rows|));
    assert CurrentRows(rows, t) == r;
    var a := Min(StartIndex(t), |rows|);
    var b := EndIndex(t, |rows|);
    assert |r| == b - a;
    assert a < b ==> a == StartIndex(t);
  }

  /** Adding page k to the first k - 1 pages appends the rows between its start and end index. */
  lemma PagesStep<T>(rows: seq<T>, rowsPerPage: int, k: nat)
    requires rowsPerPage in RowsPerPageOptions
    requires k > 0
    ensures var t := TableState(k, rowsPerPage);
      PagesUpTo(rows, rowsPerPage, k)
        == PagesUpTo(rows, rowsPerPage, k - 1) + rows[Min(StartIndex(t), |rows|)..EndIndex(t, |rows|)]
  {
    CurrentRowsIsInfix(rows, TableState(k, rowsPerPage));
  }

  /** Page k starts at row (k - 1) * rowsPerPage and ends at row k * rowsPerPage, both clamped to the row count. */
  lemma PageIndices(rowsPerPage: int, k: nat, totalRows: nat)
    requires rowsPerPage in RowsPerPageOptions
    requires k > 0
    ensures var t := TableState(k, rowsPerPage);
      && Min(StartIndex(t), totalRows) == Min((k - 1) * rowsPerPage, totalRows)
      && EndIndex(t, totalRows) == Min(k * rowsPerPage, totalRows)
      && Min((k - 1) * rowsPerPage, totalRows) <= Min(k * rowsPerPage, totalRows)
  {
    assert (k - 1) * rowsPerPage + rowsPerPage == k * rowsPerPage;
  }

  /** A prefix of the rows followed by the next stretch of them is a longer prefix. */
  lemma PrefixThenInfix<T>(rows: seq<T>, front: seq<T>, a: nat, b: nat)
    requires a <= b <= |rows| && front == rows[..a]
    ensures front + rows[a..b] == rows[..b]
  {
  }

  /** The first k pages together are exactly the first k * rowsPerPage rows (or all of them). */
  lemma {:induction false} PagesUpToArePrefix<T>(rows: seq<T>, rowsPerPage: int, k: nat)
    requires rowsPerPage in RowsPerPageOptions
    ensures PagesUpTo(rows, rowsPerPage, k) == rows[..Min(k * rowsPerPage, |rows|)]
  {
    if k > 0 {
      var a := Min((k - 1) * rowsPerPage, |rows|);
      var b := Min(k * rowsPerPage, |rows|);
      PagesUpToArePrefix(rows, rowsPerPage, k - 1);
      PagesStep(rows, rowsPerPage, k);
      PageIndices(rowsPerPage, k, |rows|);
      PrefixThenInfix(rows, PagesUpTo(rows, rowsPerPage, k - 1), a, b);
    }
  }

  /** Pages 1 to totalPages, in order, are exactly the rows: no row is skipped or shown twice. */
  lemma PagesPartitionRows<T>(rows: seq<T>, rowsPerPage: int)
    requires rowsPerPage in RowsPerPageOptions
    ensures PagesUpTo(rows, rowsPerPage, TotalPages(|rows|, rowsPerPage)) == rows
  {
    var tp := TotalPages(|rows|, rowsPerPage);
    PagesUpToArePrefix(rows, rowsPerPage, tp);
    assert Min(tp * rowsPerPage, |rows|) == |rows|;
  }

  /**
   * `goToPage`: `Math.max(1, Math.min(page, totalPages))`. A target inside the
   * page range is taken as is; one outside is clamped to its nearer end; and
   * with no rows at all the page is 1.
   */
  function GoToPage(t: TableState, page: int, totalRows: nat): (r: TableState)
    requires ValidTable(t)
    ensures ValidTable(r) && r.rowsPerPage == t.rowsPerPage
    ensures TotalPages(totalRows, t.rowsPerPage) >= 1 ==> 1 <= r.currentPage <= TotalPages(totalRows, t.rowsPerPage)
    ensures totalRows == 0 ==> r.currentPage == 1
    ensures 1 <= page <= TotalPages(totalRows, t.rowsPerPage) ==> r.currentPage == page
    ensures page < 1 ==> r.currentPage == 1
    ensures page > TotalPages(totalRows, t.rowsPerPage) >= 1 ==> r.currentPage == TotalPages(totalRows, t.rowsPerPage)
  {
    t.(currentPage := Max(1, Min(page, TotalPages(totalRows, t.rowsPerPage))))
  }

  /** Going to a page twice lands where going once does, and the landing page is a fixed point. */
  lemma GoToPageIdempotent(t: TableState, page: int, totalRows: nat)
    requires ValidTable(t)
    ensures GoToPage(GoToPage(t, page, totalRows), page, totalRows) == GoToPage(t, page, totalRows)
    ensures var r := GoToPage(t, page, totalRows); GoToPage(r, r.currentPage, totalRows) == r
  {
  }

  /** `handleRowsPerPageChange`: the new size is taken and the page goes back to 1, which shows the first rows. */
  function ChangeRowsPerPage(t: TableState, rowsPerPage: int): (r: TableState)
    requires rowsPerPage in RowsPerPageOptions
    ensures ValidTable(r)
    ensures r.currentPage == 1 && r.rowsPerPage == rowsPerPage
  {
    TableState(1, rowsPerPage)
  }

  /** After a page-size change the table shows the first rows, as many as the new size allows. */
  lemma RowsPerPageChangeShowsFirstRows<T>(rows: seq<T>, t: TableState, rowsPerPage: int)
    requires rowsPerPage in RowsPerPageOptions
    ensures CurrentRows(rows, ChangeRowsPerPage(t, rowsPerPage)) == rows[..Min(rowsPerPage, |rows|)]
  {
  }

  /** `disabled={currentPage === 1}` on the first-page and previous-page buttons: the page shows the first row. */
  function BackDisabled(t: TableState): (r: bool)
    ensures ValidTable(t) ==> (r <==> StartIndex(t) == 0)
  {
    t.currentPage == 1
  }

  /**
   * `disabled={currentPage === totalPages}` on the next-page and last-page
   * buttons: on a page within range, the page shows the last row.
   */
  function ForwardDisabled(t: TableState, totalRows: nat): (r: bool)
    requires t.rowsPerPage > 0
    ensures ValidTable(t) && t.currentPage <= TotalPages(totalRows, t.rowsPerPage) ==>
      (r <==> totalRows > 0 && EndIndex(t, totalRows) == totalRows)
  {
    t.currentPage == TotalPages(totalRows, t.rowsPerPage)
  }

  /**
   * With at least one row, each button is disabled exactly when clicking it
   * would not move, also on a page left over past the last.
   */
  lemma ButtonsDisabledExactlyWhenStuck(t: TableState, totalRows: nat)
    requires ValidTable(t)
    requires totalRows > 0
    ensures BackDisabled(t) <==> GoToPage(t, 1, totalRows) == t
    ensures BackDisabled(t) <==> GoToPage(t, t.currentPage - 1, totalRows) == t
    ensures ForwardDisabled(t, totalRows) <==> GoToPage(t, t.currentPage + 1, totalRows) == t
    ensures ForwardDisabled(t, totalRows) <==> GoToPage(t, TotalPages(totalRows, t.rowsPerPage), totalRows) == t
  {
  }

  /** With no rows there are zero pages, so the forward buttons stay enabled and clicking them keeps page 1. */
  lemma EmptyTableForwardEnabled(t: TableState)
    requires ValidTable(t)
    ensures !ForwardDisabled(t, 0)
    ensures GoToPage(t, t.currentPage + 1, 0).currentPage == 1
  {
  }
}
