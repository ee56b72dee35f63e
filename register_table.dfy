/** The risk register table: filter, sort and pagination state, the list
    request it derives from that state, and how it takes in a response,
    including the client-side cell filter chosen on the matrix. */
module Register {
  import opened Scoring
  import opened Store
  import opened Validation
  import opened ListRoute
  import opened ExportRoute

  datatype FilterKey = BandFilter | SearchFilter

  function SortKeyName(k: SortKey): string
  {
    match k
    case BySeverity => "severity"
    case ByUpdatedAt => "updatedAt"
  }

  function DirectionName(d: Direction): string
  {
    match d
    case Asc => "asc"
    case Desc => "desc"
  }

  // ---------------------------------------------------------------------------
  // Sorting

  /** The sort after a click on the header of `column`: that column,
      ascending exactly when it was already the column and descending. */
  function NextSort(sortBy: SortKey, order: Direction, column: SortKey): (r: (SortKey, Direction))
    ensures r.0 == column
    ensures r.1 == Asc <==> sortBy == column && order == Desc
  {
    (column, if sortBy == column && order == Desc then Asc else Desc)
  }

  /** A new column always starts descending. */
  lemma OtherColumnDescends(sortBy: SortKey, order: Direction, column: SortKey)
    requires sortBy != column
    ensures NextSort(sortBy, order, column) == (column, Desc)
  {
  }

  /** Two clicks on the column already sorted on come back to the order
      it started from. */
  lemma SecondClickRestores(column: SortKey, order: Direction)
    ensures var once := NextSort(column, order, column);
      NextSort(once.0, once.1, column) == (column, order)
  {
  }

  /** The chevron beside a header: none unless the table is sorted on that
      column, and then the direction it is sorted in. */
  function SortIcon(sortBy: SortKey, order: Direction, column: SortKey): (i: Option<Direction>)
    ensures i.Some? <==> column == sortBy
    ensures i.Some? ==> i.value == order
  {
    if sortBy != column then None else Some(order)
  }

  /** After a click only the clicked header carries a chevron, and it
      points the way the new order runs. */
  lemma IconFollowsClick(sortBy: SortKey, order: Direction, column: SortKey, other: SortKey)
    ensures var next := NextSort(sortBy, order, column);
      SortIcon(next.0, next.1, other).Some? <==> other == column
    ensures var next := NextSort(sortBy, order, column);
      SortIcon(next.0, next.1, column) == Some(if sortBy == column && order == Desc then Asc else Desc)
  {
  }

  // ---------------------------------------------------------------------------
  // The request

  /** The query string the table sends: page, size and sort always; band
      and search only when not empty; with a cell filter, no page and a
      page size of 1000. */
  function RequestFor(band: string, search: string, sortBy: SortKey, order: Direction,
                      page: int, pageSize: int, cell: Option<(int, int)>): (q: RawQuery)
    ensures q.band == (if band == "" then None else Some(band))
    ensures q.search == (if search == "" then None else Some(search))
    ensures q.sortBy == Some(SortKeyName(sortBy)) && q.order == Some(DirectionName(order))
    ensures cell.Some? ==> q.page == Absent && q.pageSize == Finite(1000.0)
    ensures cell.None? ==> q.page == Finite(page as real) && q.pageSize == Finite(pageSize as real)
  {
    RawQuery(
      if band == "" then None else Some(band),
      if search == "" then None else Some(search),
      Some(SortKeyName(sortBy)),
      Some(DirectionName(order)),
      if cell.Some? then Absent else Finite(page as real),
      if cell.Some? then Finite(1000.0) else Finite(pageSize as real))
  }

  /** Any band the selector offers, any search, and a page of at least 1
      make a query the route accepts, and the route reads back the table's
      sort, band, search and page (page 1 and pages of 100 under a cell
      filter). */
  lemma RequestAccepted(band: string, search: string, sortBy: SortKey, order: Direction,
                        page: int, pageSize: int, cell: Option<(int, int)>)
    requires band == "" || band == "all" || ParseBand(band).Some?
    requires page >= 1 && 1 <= pageSize <= 100
    ensures var p := ParseQuery(RequestFor(band, search, sortBy, order, page, pageSize, cell));
      p.Valid?
      && p.value.sortBy == sortBy && p.value.order == order
      && p.value.band == (if band == "" || band == "all" then None else ParseBand(band))
      && SearchText(p.value) == search
      && p.value.page == (if cell.Some? then 1 else page)
      && p.value.pageSize == (if cell.Some? then 100 else pageSize)
  {
    var raw := RequestFor(band, search, sortBy, order, page, pageSize, cell);
    assert ParsePage(raw.page).Valid?;
    if cell.None? {
      assert Trunc(page as real) == page;
      assert ParsePage(raw.page) == Valid(page);
    }
  }

  // ---------------------------------------------------------------------------
  // Client-side pages

  /** `Math.ceil(n / size)`: unlike the route's count, 0 for no records. */
  function ClientTotalPages(n: nat, size: int): (t: nat)
    requires size >= 1
    ensures t == 0 <==> n == 0
    ensures n > 0 ==> (t - 1) * size < n <= t * size
  {
    (n + size - 1) / size
  }

  /** The client count agrees with the route's except for no records. */
  lemma ClientPagesAgree(n: nat, size: int)
    requires size >= 1
    ensures n > 0 ==> ClientTotalPages(n, size) == TotalPages(n, size)
    ensures n == 0 ==> ClientTotalPages(n, size) == 0 && TotalPages(n, size) == 1
  {
  }

  /** What a cell filter shows: the records rated at the cell, page `page`
      of them. */
  function CellPage(items: seq<Risk>, cell: (int, int), page: int, pageSize: int): (r: seq<Risk>)
    requires page >= 1 && pageSize >= 1
    ensures |r| <= pageSize
    ensures r != [] ==> Offset(page, pageSize) + |r| <= |RatedAt(items, cell.0, cell.1)|
    ensures forall k :: 0 <= k < |r| ==> r[k] == RatedAt(items, cell.0, cell.1)[Offset(page, pageSize) + k]
  {
    Window(RatedAt(items, cell.0, cell.1), Offset(page, pageSize), pageSize)
  }

  /** The cell filter keeps exactly the records rated at the cell, each as
      often as it arrived, in the order they arrived. */
  lemma CellFilterExact(items: seq<Risk>, cell: (int, int))
    ensures forall x :: multiset(RatedAt(items, cell.0, cell.1))[x]
                     == if x.likelihood == cell.0 && x.impact == cell.1 then multiset(items)[x] else 0
    ensures Subsequence(RatedAt(items, cell.0, cell.1), items)
  {
    KeepMultiset(items, (x: Risk) => x.likelihood == cell.0 && x.impact == cell.1);
    KeepSubsequence(items, (x: Risk) => x.likelihood == cell.0 && x.impact == cell.1);
  }

  // ---------------------------------------------------------------------------
  // Pagination controls

  datatype Controls =
    | Hidden
    | Shown(previousEnabled: bool, nextEnabled: bool, first: int, last: int, buttons: seq<int>)

  /** The controls drawn under the table for a pagination state and the
      number of rows listed: none on an empty page, whatever the page count,
      since the table then shows its "no records" message instead. */
  function ControlsFor(page: int, pageSize: int, total: int, totalPages: int, rows: nat): (c: Controls)
    ensures c.Shown? <==> rows > 0 && totalPages > 1
    ensures c.Shown? ==> (c.previousEnabled <==> page != 1) && (c.nextEnabled <==> page != totalPages)
    ensures c.Shown? ==> |c.buttons| == Min(5, totalPages)
                         && forall k :: 0 <= k < |c.buttons| ==> 1 <= c.buttons[k] <= totalPages
  {
    if rows == 0 || totalPages <= 1 then Hidden
    else Shown(page != 1, page != totalPages, (page - 1) * pageSize + 1, Min(page * pageSize, total),
               seq(Min(5, totalPages), k => k + 1))
  }

  /** The range "first to last" counts the records of the route's page:
      for any page up to the last one, it spans exactly the rows listed. */
  lemma RangeCountsRows(db: seq<Risk>, q: Query)
    requires ValidQuery(q)
    requires var resp := Respond(Up(db), Valid(q)); q.page <= resp.totalPages && resp.totalPages > 1
    ensures var resp := Respond(Up(db), Valid(q));
      var c := ControlsFor(resp.page, resp.pageSize, resp.total, resp.totalPages, |resp.items|);
      c.Shown? && c.last - c.first + 1 == |resp.items|
  {
    ListIsWindow(db, q);
    var resp := Respond(Up(db), Valid(q));
    var w := ListWhere(q.band, SearchText(q));
    FindManyAll(db, w, OrderByOf(q));
    CountIsFilterSize(db, w);
    RangeCountsWindow(FindMany(db, w, OrderByOf(q), None), q.page, q.pageSize);
  }

  /** The same, for a window over any sequence. */
  lemma RangeCountsWindow(all: seq<Risk>, page: int, size: int)
    requires page >= 1 && size >= 1 && |all| > 0
    requires page <= ClientTotalPages(|all|, size)
    ensures Min(page * size, |all|) - ((page - 1) * size + 1) + 1 == |Window(all, Offset(page, size), size)|
    ensures |Window(all, Offset(page, size), size)| > 0
  {
    var t := ClientTotalPages(|all|, size);
    assert (page - 1) * size <= (t - 1) * size by {
      MulMonotone(page - 1, t - 1, size);
    }
  }

  lemma MulMonotone(a: int, b: int, size: int)
    requires 0 <= a <= b && size >= 0
    ensures a * size <= b * size
  {
  }

  // ---------------------------------------------------------------------------
  // The component state

  class RegisterTable {
    var band: string
    var search: string
    var sortBy: SortKey
    var order: Direction
    var page: int
    var pageSize: int
    var total: int
    var totalPages: int
    var cell: Option<(int, int)>
    var risks: seq<Risk>
    var failed: bool

    /** The page is always at least 1 and the page size stays 20. */
    predicate Valid()
      reads this
    {
      page >= 1 && pageSize == 20
    }

    function Filters(): (string, string)
      reads this
    {
      (band, search)
    }

    function Pagination(): (int, int, int, int)
      reads this
    {
      (page, pageSize, total, totalPages)
    }

    /** Whether "Limpiar Filtros" is offered: a band or a search is set,
        or a matrix cell is selected. */
    predicate HasActiveFilters()
      reads this
    {
      band != "" || search != "" || cell.Some?
    }

    /** The request for the current state. */
    function Request(): RawQuery
      reads this
    {
      RequestFor(band, search, sortBy, order, page, pageSize, cell)
    }

    /** The controls under the table: none while the last answer failed
        (the table shows the error), otherwise those for the pagination
        state and the rows listed. */
    function Controls(): Controls
      reads this
      ensures Controls().Shown? <==> !failed && |risks| > 0 && totalPages > 1
    {
      if failed then Hidden else ControlsFor(page, pageSize, total, totalPages, |risks|)
    }

    /** No filters, severity descending, page 1 of 20 records, nothing
        loaded, and the cell filter the page passes in. */
    constructor (cell: Option<(int, int)>)
      ensures Valid()
      ensures Filters() == ("", "") && sortBy == BySeverity && order == Desc
      ensures Pagination() == (1, 20, 0, 0)
      ensures this.cell == cell && risks == [] && !failed
    {
      band := "";
      search := "";
      sortBy := BySeverity;
      order := Desc;
      page := 1;
      pageSize := 20;
      total := 0;
      totalPages := 0;
      this.cell := cell;
      risks := [];
      failed := false;
    }

    /** A click on a sortable header. */
    method HandleSort(column: SortKey)
      requires Valid()
      modifies this
      ensures Valid()
      ensures (sortBy, order) == NextSort(old(sortBy), old(order), column)
      ensures Filters() == old(Filters()) && Pagination() == old(Pagination())
      ensures cell == old(cell) && risks == old(risks) && failed == old(failed)
    {
      var next := NextSort(sortBy, order, column);
      sortBy := next.0;
      order := next.1;
    }

    /** Typing a search or picking a band; the filters then change, which
        sends the table back to page 1. */
    method HandleFilterChange(key: FilterKey, value: string)
      requires Valid()
      modifies this
      ensures Valid()
      ensures Filters() == if key == BandFilter then (value, old(search)) else (old(band), value)
      ensures Pagination() == (1, old(pageSize), old(total), old(totalPages))
      ensures (sortBy, order) == (old(sortBy), old(order)) && cell == old(cell) && risks == old(risks) && failed == old(failed)
    {
      if key == BandFilter {
        band := value;
      } else {
        search := value;
      }
      page := 1;
    }

    /** "Limpiar Filtros": both filters back to empty, and page 1. */
    method ClearFilters()
      requires Valid()
      modifies this
      ensures Valid()
      ensures Filters() == ("", "")
      ensures HasActiveFilters() <==> cell.Some?
      ensures Pagination() == (1, old(pageSize), old(total), old(totalPages))
      ensures (sortBy, order) == (old(sortBy), old(order)) && cell == old(cell) && risks == old(risks) && failed == old(failed)
    {
      band := "";
      search := "";
      page := 1;
    }

    /** The page passes in another matrix cell (or none), which sends the
        table back to page 1. */
    method SetCell(next: Option<(int, int)>)
      requires Valid()
      modifies this
      ensures Valid()
      ensures cell == next
      ensures Pagination() == (1, old(pageSize), old(total), old(totalPages))
      ensures Filters() == old(Filters()) && (sortBy, order) == (old(sortBy), old(order)) && risks == old(risks) && failed == old(failed)
    {
      cell := next;
      page := 1;
    }

    /** "Anterior": a click counts only when the control is shown and
        enabled. */
    method PreviousPage()
      requires Valid()
      modifies this
      ensures Valid()
      ensures page == if old(Controls()).Shown? && old(Controls()).previousEnabled then old(page) - 1 else old(page)
      ensures pageSize == old(pageSize) && total == old(total) && totalPages == old(totalPages)
      ensures Filters() == old(Filters()) && (sortBy, order) == (old(sortBy), old(order))
      ensures cell == old(cell) && risks == old(risks) && failed == old(failed)
    {
      var c := Controls();
      if c.Shown? && c.previousEnabled {
        page := page - 1;
      }
    }

    /** "Siguiente". */
    method NextPage()
      requires Valid()
      modifies this
      ensures Valid()
      ensures page == if old(Controls()).Shown? && old(Controls()).nextEnabled then old(page) + 1 else old(page)
      ensures pageSize == old(pageSize) && total == old(total) && totalPages == old(totalPages)
      ensures Filters() == old(Filters()) && (sortBy, order) == (old(sortBy), old(order))
      ensures cell == old(cell) && risks == old(risks) && failed == old(failed)
    {
      var c := Controls();
      if c.Shown? && c.nextEnabled {
        page := page + 1;
      }
    }

    /** One of the numbered buttons, which run from 1 to at most 5. */
    method GoToPage(n: int)
      requires Valid()
      modifies this
      ensures Valid()
      ensures var c := old(Controls());
        page == if c.Shown? && 1 <= n <= |c.buttons| then n else old(page)
      ensures pageSize == old(pageSize) && total == old(total) && totalPages == old(totalPages)
      ensures Filters() == old(Filters()) && (sortBy, order) == (old(sortBy), old(order))
      ensures cell == old(cell) && risks == old(risks) && failed == old(failed)
    {
      var c := Controls();
      if c.Shown? && 1 <= n <= |c.buttons| {
        assert c.buttons[n - 1] == n;
        page := n;
      }
    }

    /** Takes in the route's answer. Without a cell filter the rows and
        the counts are the route's. With one, the rows are the records at
        the cell among those returned, paged on the client, and the counts
        are theirs. Any other answer marks the table failed, so that it
        shows the error instead of rows and controls, and leaves the rest of
        the state as it is. */
    method Receive(resp: ListResponse)
      requires Valid()
      modifies this
      ensures Valid()
      ensures !resp.ListOk? ==> Pagination() == old(Pagination()) && risks == old(risks)
      ensures resp.ListOk? && cell.None? ==>
        total == resp.total && totalPages == resp.totalPages && risks == resp.items
      ensures resp.ListOk? && cell.Some? ==>
        var here := RatedAt(resp.items, cell.value.0, cell.value.1);
        total == |here| && totalPages == ClientTotalPages(|here|, pageSize)
        && risks == CellPage(resp.items, cell.value, page, pageSize)
      ensures page == old(page) && pageSize == old(pageSize)
      ensures Filters() == old(Filters()) && (sortBy, order) == (old(sortBy), old(order)) && cell == old(cell)
      ensures failed <==> !resp.ListOk?
    {
      failed := !resp.ListOk?;
      if resp.ListOk? {
        if cell.Some? {
          var here := RatedAt(resp.items, cell.value.0, cell.value.1);
          total := |here|;
          totalPages := ClientTotalPages(|here|, pageSize);
          risks := Window(here, Offset(page, pageSize), pageSize);
        } else {
          total := resp.total;
          totalPages := resp.totalPages;
          risks := resp.items;
        }
      }
    }
  }

  // ---------------------------------------------------------------------------
  // What a cell filter sees

  /** The records at a cell that a cell-filtered table can count: those
      among the first 100 the route returns for the table's filters. */
  function CellTotalAsWritten(db: seq<Risk>, band: string, search: string, sortBy: SortKey,
                              order: Direction, cell: (int, int)): (n: nat)
    requires band == "" || band == "all" || ParseBand(band).Some?
    ensures n <= 100
  {
    RequestAccepted(band, search, sortBy, order, 1, 20, Some(cell));
    var raw := RequestFor(band, search, sortBy, order, 1, 20, Some(cell));
    ListGetRespondsToParse(Up(db), raw);
    ListIsWindow(db, ParseQuery(raw).value);
    |RatedAt(ListGet(Up(db), raw).items, cell.0, cell.1)|
  }

  lemma KeepAll(s: seq<Risk>, p: Risk -> bool)
    requires forall k :: 0 <= k < |s| ==> p(s[k])
    ensures Keep(s, p) == s
  {
    if s != [] {
      KeepAll(s[1..], p);
      assert s == [s[0]] + s[1..];
    }
  }

  /** Selecting by `p` from a selection by `q` of `db` counts as many records
      as selecting by `r` from `db`, when `r` is `p` and `q`. */
  lemma SelectTwice(items: seq<Risk>, db: seq<Risk>, p: Risk -> bool, q: Risk -> bool, r: Risk -> bool)
    requires forall x :: multiset(items)[x] == if q(x) then multiset(db)[x] else 0
    requires forall x :: r(x) == (p(x) && q(x))
    ensures |Keep(items, p)| == |Keep(db, r)|
  {
    KeepMultiset(items, p);
    KeepMultiset(db, r);
    assert multiset(Keep(items, p)) == multiset(Keep(db, r));
    assert |Keep(items, p)| == |multiset(Keep(items, p))|;
    assert |Keep(db, r)| == |multiset(Keep(db, r))|;
  }

  /** With 101 stored records all rated at the cell and no other filter,
      the table counts at most 100 of them. */
  lemma CellFilterMissesRecords(db: seq<Risk>, cell: (int, int))
    requires |db| == 101
    requires forall k :: 0 <= k < |db| ==> db[k].likelihood == cell.0 && db[k].impact == cell.1
    ensures |RatedAt(db, cell.0, cell.1)| == 101
    ensures CellTotalAsWritten(db, "", "", BySeverity, Desc, cell) < |RatedAt(db, cell.0, cell.1)|
  {
    KeepAll(db, (x: Risk) => x.likelihood == cell.0 && x.impact == cell.1);
  }

  /** Counting the cell over the JSON export of the same filters instead,
      which has no cap: every stored record at the cell that meets the
      filters is counted. */
  function CellTotal(db: seq<Risk>, band: string, search: string, sortBy: SortKey,
                     order: Direction, cell: (int, int), iso: int -> string): (n: nat)
    requires band == "" || band == "all" || ParseBand(band).Some?
  {
    var req := ExportRequest(Some("json"), RequestFor(band, search, sortBy, order, 1, 20, Some(cell)));
    match Export(Up(db), req, iso)
    case ExportJson(items) => |RatedAt(items, cell.0, cell.1)|
    case _ => 0
  }

  lemma CellTotalCountsAll(db: seq<Risk>, band: string, search: string, sortBy: SortKey,
                           order: Direction, cell: (int, int), iso: int -> string)
    requires band == "" || band == "all" || ParseBand(band).Some?
    ensures var b := if band == "" || band == "all" then None else ParseBand(band);
      var here := (x: Risk) => x.likelihood == cell.0 && x.impact == cell.1 && BandOk(x, b) && SearchOk(x, search);
      CellTotal(db, band, search, sortBy, order, cell, iso) == |Keep(db, here)|
  {
    var raw := RequestFor(band, search, sortBy, order, 1, 20, Some(cell));
    var req := ExportRequest(Some("json"), raw);
    RequestAccepted(band, search, sortBy, order, 1, 20, Some(cell));
    assert ParseQuery(ExportQuery(raw)).Valid?;
    var q := ParseQuery(ExportQuery(raw)).value;
    var w := ListWhere(q.band, SearchText(q));
    ExportReturnsAllMatches(db, req, iso);
    FindManyAll(db, w, OrderByOf(q));
    var b := if band == "" || band == "all" then None else ParseBand(band);
    var here := (x: Risk) => x.likelihood == cell.0 && x.impact == cell.1 && BandOk(x, b) && SearchOk(x, search);
    forall x ensures here(x) == (x.likelihood == cell.0 && x.impact == cell.1 && Matches(x, w)) {
      WhereSemantics(q.band, SearchText(q), x);
    }
    SelectTwice(FindMany(db, w, OrderByOf(q), None), db,
                (x: Risk) => x.likelihood == cell.0 && x.impact == cell.1, (x: Risk) => Matches(x, w), here);
  }
}
