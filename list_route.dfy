/** `GET /api/risks` (validated query, filter, sort, page window and totals)
    and `POST /api/risks` (validated body, derived severity and band). */
module ListRoute {
  import opened Scoring
  import opened Text
  import opened Store
  import opened Validation

  // ---------------------------------------------------------------------------
  // Query parsing with the page-size retry

  /** Every issue is a page size above its maximum. */
  predicate OnlyPageSizeTooBig(issues: set<Issue>)
  {
    issues != {} && forall i :: i in issues ==> i == Issue(PageSize, TooBig)
  }

  /** Parse; when the only complaint is a page size that is too big, parse
      again with the page size set to 100. */
  function ParseWithRetry(raw: RawQuery): Outcome<Query>
  {
    var first := ParseQuery(raw);
    if first.Valid? then first
    else if OnlyPageSizeTooBig(first.issues) then ParseQuery(raw.(pageSize := Finite(100.0)))
    else first
  }

  /** The page size is clamped before it is checked, so the retry never
      fires and a query fails exactly when some issue is not a page-size
      issue. */
  lemma RetryNeverFires(raw: RawQuery)
    ensures ParseWithRetry(raw) == ParseQuery(raw)
    ensures ParseWithRetry(raw).Invalid? <==>
      exists i :: i in IssuesOf(ParseQuery(raw)) && i != Issue(PageSize, TooBig)
  {
    PageSizeNeverFails(raw, raw.pageSize);
    var o := ParseQuery(raw);
    if o.Invalid? {
      var i :| i in o.issues;
      assert i.field in Fields(o.issues);
      assert i != Issue(PageSize, TooBig);
    }
  }

  // ---------------------------------------------------------------------------
  // Safe paging

  /** `Math.max(1, page || 1)`. */
  function SafePage(page: int): (p: int)
    ensures p >= 1
    ensures page >= 1 ==> p == page
  {
    Max(1, if page == 0 then 1 else page)
  }

  /** `Math.min(Math.max(pageSize || 20, 1), 100)`. */
  function SafePageSize(pageSize: int): (s: int)
    ensures 1 <= s <= 100
    ensures 1 <= pageSize <= 100 ==> s == pageSize
  {
    Min(Max(if pageSize == 0 then 20 else pageSize, 1), 100)
  }

  /** The number of records the window skips, `(page - 1) * size`. */
  function Offset(page: int, size: int): (n: nat)
    requires page >= 1 && size >= 1
    ensures n == (page - 1) * size
  {
    var k: nat := page - 1;
    k * size
  }

  /** `Math.max(1, Math.ceil(total / size))`. */
  function TotalPages(total: nat, size: int): (t: int)
    requires size >= 1
    ensures t >= 1
    ensures total == 0 ==> t == 1
    ensures total > 0 ==> (t - 1) * size < total <= t * size
  {
    Max(1, (total + size - 1) / size)
  }

  // ---------------------------------------------------------------------------
  // Filter and order

  /** The band clause: an exact match on the stored band name. */
  predicate BandOk(r: Risk, band: Option<Band>)
  {
    band.None? || r.band == BandName(band.value)
  }

  /** The search clause: an empty search matches everything; otherwise the
      title or the (present) description contains it, ignoring case. */
  predicate SearchOk(r: Risk, search: string)
  {
    search == []
    || ContainsInsensitive(r.title, search)
    || (r.description.Some? && ContainsInsensitive(r.description.value, search))
  }

  /** The filter the route builds from a band and a search. */
  function ListWhere(band: Option<Band>, search: string): Where
  {
    Where(if band.Some? then Some(BandName(band.value)) else None,
          if search != [] then Some([TitleContains(search), DescriptionContains(search)]) else None)
  }

  /** The filter selects exactly the records meeting both clauses. */
  lemma WhereSemantics(band: Option<Band>, search: string, r: Risk)
    ensures Matches(r, ListWhere(band, search)) <==> BandOk(r, band) && SearchOk(r, search)
  {
    if search != [] {
      var cs := [TitleContains(search), DescriptionContains(search)];
      if SearchOk(r, search) {
        if ContainsInsensitive(r.title, search) {
          assert Holds(r, cs[0]);
        } else {
          assert Holds(r, cs[1]);
        }
      }
    }
  }

  /** Builds the filter clause by clause, starting from the empty filter. */
  method BuildWhere(band: Option<Band>, search: string) returns (w: Where)
    ensures w == ListWhere(band, search)
    ensures forall r :: Matches(r, w) <==> BandOk(r, band) && SearchOk(r, search)
  {
    w := Where(None, None);
    if band.Some? {
      w := w.(band := Some(BandName(band.value)));
    }
    if search != [] {
      w := w.(any := Some([TitleContains(search), DescriptionContains(search)]));
    }
    forall r ensures Matches(r, w) <==> BandOk(r, band) && SearchOk(r, search) {
      WhereSemantics(band, search, r);
    }
  }

  /** The search text after defaulting an absent one to "". */
  function SearchText(q: Query): string
  {
    if q.search.Some? then q.search.value else ""
  }

  /** `updatedAt` when asked for, `severity` otherwise, in the requested direction. */
  function OrderByOf(q: Query): (ob: OrderBy)
    ensures ob.By? && ob.dir == q.order
    ensures ob.key == ByUpdatedAt <==> q.sortBy == ByUpdatedAt
  {
    if q.sortBy == ByUpdatedAt then By(ByUpdatedAt, q.order) else By(BySeverity, q.order)
  }

  /** The sort key is `updatedAt` exactly when the query says so. */
  lemma SortKeyChoice(raw: RawQuery)
    requires ParseQuery(raw).Valid?
    ensures OrderByOf(ParseQuery(raw).value).key == ByUpdatedAt <==> raw.sortBy == Some("updatedAt")
    ensures raw.order == Some("asc") <==> OrderByOf(ParseQuery(raw).value).dir == Asc
  {
  }

  // ---------------------------------------------------------------------------
  // GET

  datatype ListResponse =
    | ListOk(items: seq<Risk>, total: nat, page: int, pageSize: int, totalPages: int)
    | ListBadRequest(issues: set<Issue>)
    | ListServerError

  function ListStatusCode(r: ListResponse): int
  {
    match r
    case ListOk(_, _, _, _, _) => 200
    case ListBadRequest(_) => 400
    case ListServerError => 500
  }

  /** The response of the list route, as a function of the database and the
      query string. */
  function ListGet(storage: Storage, raw: RawQuery): (r: ListResponse)
    ensures r == Respond(storage, ParseQuery(raw))
  {
    RetryNeverFires(raw);
    Respond(storage, ParseWithRetry(raw))
  }

  /** The response to an already parsed query: 400 with the parse's issues
      when it failed, 500 when the database fails on a parsed query, and
      otherwise a page of at most 100 stored records, counted over at
      least one page. */
  function Respond(storage: Storage, parsed: Outcome<Query>): (r: ListResponse)
    requires parsed.Valid? ==> parsed.value.page >= 1
    ensures r.ListBadRequest? <==> parsed.Invalid?
    ensures parsed.Invalid? ==> r.issues == parsed.issues
    ensures r.ListServerError? <==> parsed.Valid? && storage.Down?
    ensures r.ListOk? ==>
      r.page >= 1 && 1 <= r.pageSize <= 100 && |r.items| <= r.pageSize && r.totalPages >= 1
      && forall x :: x in r.items ==> x in storage.risks
  {
    match parsed
    case Invalid(issues) => ListBadRequest(issues)
    case Valid(q) =>
      if storage.Down? then ListServerError
      else
        var page := SafePage(q.page);
        var size := SafePageSize(q.pageSize);
        var w := ListWhere(q.band, SearchText(q));
        var total := Count(storage.risks, w);
        ListOk(FindMany(storage.risks, w, OrderByOf(q), Some((Offset(page, size), size))),
               total, page, size, TotalPages(total, size))
  }

  /** The route handler. */
  method Get(storage: Storage, raw: RawQuery) returns (resp: ListResponse)
    ensures resp == ListGet(storage, raw)
  {
    var parsed := ParseWithRetry(raw);
    if parsed.Invalid? {
      return ListBadRequest(parsed.issues);
    }
    var q := parsed.value;
    if storage.Down? {
      return ListServerError;
    }
    var page := SafePage(q.page);
    var size := SafePageSize(q.pageSize);
    var w := BuildWhere(q.band, SearchText(q));
    var ob := OrderByOf(q);
    var items := FindMany(storage.risks, w, ob, Some((Offset(page, size), size)));
    var total := Count(storage.risks, w);
    resp := ListOk(items, total, page, size, TotalPages(total, size));
  }

  /** A valid query is answered from its parse alone. */
  lemma ListGetRespondsToParse(storage: Storage, raw: RawQuery)
    ensures ListGet(storage, raw) == Respond(storage, ParseQuery(raw))
  {
    RetryNeverFires(raw);
  }

  /** A query that the schema could have produced. */
  predicate ValidQuery(q: Query)
  {
    q.page >= 1 && 1 <= q.pageSize <= 100
  }

  /** A successful list is the window [(p - 1) * s, p * s) of the
      filtered, ordered records; the total counts all of them. */
  lemma ListIsWindow(db: seq<Risk>, q: Query)
    requires ValidQuery(q)
    ensures var resp := Respond(Up(db), Valid(q)); var w := ListWhere(q.band, SearchText(q));
      resp.ListOk? && resp.page == q.page && resp.pageSize == q.pageSize
      && resp.items == Window(FindMany(db, w, OrderByOf(q), None), Offset(q.page, q.pageSize), q.pageSize)
      && |resp.items| <= resp.pageSize <= 100
      && resp.total == |FilterWhere(db, w)|
      && resp.totalPages == TotalPages(resp.total, resp.pageSize)
  {
    var w := ListWhere(q.band, SearchText(q));
    FindManyWindow(db, w, OrderByOf(q), Offset(q.page, q.pageSize), q.pageSize);
    CountIsFilterSize(db, w);
  }

  /** Every listed record is stored, meets the band and search clauses, and
      the list is ordered by the requested key. */
  lemma ListItemsQualify(db: seq<Risk>, q: Query)
    requires ValidQuery(q)
    ensures var items := Respond(Up(db), Valid(q)).items;
      (forall x :: x in items ==> x in db && BandOk(x, q.band) && SearchOk(x, SearchText(q)))
      && Sorted(items, OrderByOf(q).key, q.order)
  {
    var w := ListWhere(q.band, SearchText(q));
    var ob := OrderByOf(q);
    var all := FindMany(db, w, ob, None);
    ListIsWindow(db, q);
    var items := Respond(Up(db), Valid(q)).items;
    forall x | x in items ensures x in db && BandOk(x, q.band) && SearchOk(x, SearchText(q)) {
      var k :| 0 <= k < |items| && items[k] == x;
      assert x in all;
      assert x in multiset(all);
      assert x in FilterWhere(db, w);
      WhereSemantics(q.band, SearchText(q), x);
    }
    assert Sorted(all, ob.key, ob.dir);
  }

  /** With neither band nor search every record matches. */
  lemma NoFilterMatchesAll(r: Risk)
    ensures Matches(r, ListWhere(None, ""))
  {
  }

  /** Asking for "all" bands is the same request as not naming a band. */
  lemma AllIsNoBand(storage: Storage, raw: RawQuery)
    ensures ListGet(storage, raw.(band := Some("all"))) == ListGet(storage, raw.(band := None))
  {
    RetryNeverFires(raw.(band := Some("all")));
    RetryNeverFires(raw.(band := None));
    AllMeansNoBand(raw);
    assert ParseWithRetry(raw.(band := Some("all"))) == ParseWithRetry(raw.(band := None));
  }

  /** A client asking for 1000 records per page gets pages of 100. */
  lemma LargePagesCapped(db: seq<Risk>, raw: RawQuery)
    requires raw.pageSize == Finite(1000.0)
    requires ParseQuery(raw).Valid?
    ensures ListGet(Up(db), raw).pageSize == 100 && |ListGet(Up(db), raw).items| <= 100
  {
    ListGetRespondsToParse(Up(db), raw);
    ListIsWindow(db, ParseQuery(raw).value);
  }

  /** 400 exactly for a rejected query, 500 exactly when the database fails
      on a valid one. */
  lemma ListErrorMapping(storage: Storage, raw: RawQuery)
    ensures ListStatusCode(ListGet(storage, raw)) == 400 <==> ParseQuery(raw).Invalid?
    ensures ListStatusCode(ListGet(storage, raw)) == 500 <==> ParseQuery(raw).Valid? && storage.Down?
    ensures ListGet(storage, raw).ListBadRequest? ==> ListGet(storage, raw).issues == ParseQuery(raw).issues
  {
    RetryNeverFires(raw);
  }

  // ---------------------------------------------------------------------------
  // POST

  /** The request body: not JSON at all, or a parsed JSON value. */
  datatype PostBody = Malformed | Json(value: RawBody)

  /** The record data handed to the database. */
  datatype CreateData = CreateData(
    title: string,
    description: Option<string>,
    likelihood: int,
    impact: int,
    severity: int,
    band: Band)

  datatype PostResponse =
    | Created(data: CreateData)
    | InvalidJson
    | PostBadRequest(issues: set<Issue>)
    | PostServerError

  function PostStatusCode(r: PostResponse): int
  {
    match r
    case Created(_) => 201
    case InvalidJson => 400
    case PostBadRequest(_) => 400
    case PostServerError => 500
  }

  /** The create route: a record is created exactly for a JSON body the
      schema accepts on a working database, with the severity and band
      derived from its ratings. The validated status is not part of the
      data. */
  function Post(storage: Storage, body: PostBody): (r: PostResponse)
    ensures r.Created? <==> body.Json? && ParseCreate(body.value).Valid? && storage.Up?
    ensures body.Malformed? ==> r == InvalidJson
    ensures r.Created? ==>
      r.data.severity == r.data.likelihood * r.data.impact && 1 <= r.data.severity <= 25
      && r.data.band == ComputeBand(r.data.severity)
  {
    match body
    case Malformed => InvalidJson
    case Json(value) =>
      match ParseCreate(value)
      case Invalid(issues) => PostBadRequest(issues)
      case Valid(n) =>
        if storage.Down? then PostServerError
        else
          var severity := ComputeSeverity(n.likelihood, n.impact);
          Created(CreateData(n.title, n.description, n.likelihood, n.impact, severity, ComputeBand(severity)))
  }

  /** The stored data carries the caller's title, description, likelihood
      and impact, and a severity and band derived from them. */
  lemma PostDerivesScore(storage: Storage, raw: RawRisk)
    requires Post(storage, Json(Object(raw))).Created?
    ensures var d := Post(storage, Json(Object(raw))).data;
      d.title == raw.title.s
      && (d.description.Some? <==> raw.description.Text?)
      && (raw.description.Text? ==> d.description.value == raw.description.s)
      && d.likelihood as real == raw.likelihood.x && d.impact as real == raw.impact.x
      && d.severity == d.likelihood * d.impact && 1 <= d.severity <= 25
      && d.band == ComputeBand(d.severity)
  {
    CreateAcceptsExactly(Object(raw));
  }

  /** A caller-supplied severity or band has no effect. */
  lemma PostIgnoresCallerScore(storage: Storage, raw: RawRisk, severity: RawNumber, band: RawText)
    ensures Post(storage, Json(Object(raw))) == Post(storage, Json(Object(raw.(severity := severity, band := band))))
  {
    CreateIgnoresExtraKeys(raw, severity, band);
  }

  /** The status in the body is validated but never reaches the data: any two
      acceptable statuses create the same record. */
  lemma PostDropsStatus(storage: Storage, raw: RawRisk, s: Status)
    ensures Post(storage, Json(Object(raw))).Created? ==>
      Post(storage, Json(Object(raw.(status := Text(StatusName(s)))))) == Post(storage, Json(Object(raw)))
  {
    StatusNameRoundTrip(s);
    CreateAcceptsExactly(Object(raw));
    CreateAcceptsExactly(Object(raw.(status := Text(StatusName(s)))));
  }

  /** 400 for a body that is not JSON or breaks a rule, 500 when the
      database fails on a valid body, 201 otherwise. */
  lemma PostErrorMapping(storage: Storage, body: PostBody)
    ensures PostStatusCode(Post(storage, body)) == 400 <==> body.Malformed? || ParseCreate(body.value).Invalid?
    ensures PostStatusCode(Post(storage, body)) == 500 <==> body.Json? && ParseCreate(body.value).Valid? && storage.Down?
    ensures PostStatusCode(Post(storage, body)) == 201 <==> body.Json? && ParseCreate(body.value).Valid? && storage.Up?
  {
  }
}
