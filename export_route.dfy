/** `GET /api/risks/export`: the same filter and sort as the list route,
    without a window, rendered as JSON records or as comma-separated text. */
module ExportRoute {
  import opened Scoring
  import opened Text
  import opened Csv
  import opened Store
  import opened Validation
  import opened ListRoute

  datatype ExportRequest = ExportRequest(format: Option<string>, query: RawQuery)

  datatype ExportResponse =
    | ExportJson(items: seq<Risk>)
    | ExportCsv(text: string)
    | BadFormat
    | ExportBadRequest(issues: set<Issue>)
    | ExportServerError

  function ExportStatusCode(r: ExportResponse): int
  {
    match r
    case ExportJson(_) => 200
    case ExportCsv(_) => 200
    case BadFormat => 400
    case ExportBadRequest(_) => 400
    case ExportServerError => 500
  }

  /** `searchParams.get("format") || "json"`. */
  function FormatOf(f: Option<string>): (r: string)
    ensures f.None? || f == Some("") ==> r == "json"
    ensures f.Some? && f.value != "" ==> r == f.value
  {
    if f.None? || f.value == "" then "json" else f.value
  }

  /** The query as the export parses it: page 1, page size 1000. */
  function ExportQuery(raw: RawQuery): RawQuery
  {
    raw.(page := Finite(1.0), pageSize := Finite(1000.0))
  }

  /** The filter, clause by clause. The category, owner and status clauses of
      the source read keys the query schema strips, so they are never added. */
  method BuildExportWhere(q: Query) returns (w: Where)
    ensures w == ListWhere(q.band, SearchText(q))
  {
    w := Where(None, None);
    if q.band.Some? {
      w := w.(band := Some(BandName(q.band.value)));
    }
    var search := SearchText(q);
    if search != [] {
      w := w.(any := Some([TitleContains(search), DescriptionContains(search)]));
    }
  }

  /** The order, starting from the empty `orderBy`: the same key and
      direction the list route uses. */
  method BuildExportOrderBy(q: Query) returns (ob: OrderBy)
    ensures ob == OrderByOf(q)
  {
    ob := Unordered;
    if q.sortBy == BySeverity {
      ob := By(BySeverity, q.order);
    } else if q.sortBy == ByUpdatedAt {
      ob := By(ByUpdatedAt, q.order);
    }
  }

  // ---------------------------------------------------------------------------
  // CSV rendering

  function Headers(): (h: seq<string>)
    ensures |h| == 12
  {
    ["ID", "Título", "Descripción", "Categoría", "Propietario", "Probabilidad",
     "Impacto", "Gravedad", "Banda", "Estado", "Creado", "Actualizado"]
  }

  /** The Spanish label of a stored band; an unknown key renders as the text
      "undefined", as a missing table entry does inside a template. */
  function BandLabelOf(name: string): string
  {
    match ParseBand(name)
    case Some(b) => BandLabel(b)
    case None => "undefined"
  }

  function StatusLabelOf(name: string): string
  {
    match ParseStatus(name)
    case Some(s) => StatusLabel(s)
    case None => "undefined"
  }

  /** `risk.description || ""`. */
  function DescriptionText(r: Risk): string
  {
    if r.description.Some? then r.description.value else ""
  }

  /** One record's cells. Title and description are escaped; category,
      owner and the labels are only wrapped in quotes. */
  function CsvRow(r: Risk, iso: int -> string): (cells: seq<string>)
    ensures |cells| == 12
  {
    [r.id, Quote(r.title), Quote(DescriptionText(r)), Wrap(r.category), Wrap(r.owner),
     IntToString(r.likelihood), IntToString(r.impact), IntToString(r.severity),
     Wrap(BandLabelOf(r.band)), Wrap(StatusLabelOf(r.status)), iso(r.createdAt), iso(r.updatedAt)]
  }

  /** The values a reader should recover from one record's cells. */
  function CsvValues(r: Risk, iso: int -> string): seq<string>
  {
    [r.id, r.title, DescriptionText(r), r.category, r.owner,
     IntToString(r.likelihood), IntToString(r.impact), IntToString(r.severity),
     BandLabelOf(r.band), StatusLabelOf(r.status), iso(r.createdAt), iso(r.updatedAt)]
  }

  function CsvRows(risks: seq<Risk>, iso: int -> string): (rows: seq<seq<string>>)
    ensures |rows| == |risks|
    ensures forall k :: 0 <= k < |risks| ==> rows[k] == CsvRow(risks[k], iso)
  {
    if risks == [] then [] else [CsvRow(risks[0], iso)] + CsvRows(risks[1..], iso)
  }

  /** The values of each record, in order. */
  function ValueRows(risks: seq<Risk>, iso: int -> string): (rows: seq<seq<string>>)
    ensures |rows| == |risks|
    ensures forall k :: 0 <= k < |risks| ==> rows[k] == CsvValues(risks[k], iso)
  {
    if risks == [] then [] else [CsvValues(risks[0], iso)] + ValueRows(risks[1..], iso)
  }

  /** The header line, then one line per record in query order. Reading
      the text back gives the header and, for every record in order, its
      twelve values: title and description (a missing one as "")
      unescaped, the rest as written; this holds when each record's id,
      timestamps, category and owner need no escaping. */
  function CsvText(risks: seq<Risk>, iso: int -> string): (t: string)
    ensures (forall k :: 0 <= k < |risks| ==> CsvSafe(risks[k], iso)) ==>
      Parse(t) == Some([Headers()] + ValueRows(risks, iso))
  {
    RowsRoundTrip(risks, iso);
    Document([Headers()] + CsvRows(risks, iso))
  }

  /** The document has one line more than there are records, the header
      first, each line of 12 cells. */
  lemma CsvLayout(risks: seq<Risk>, iso: int -> string)
    ensures var lines := Lines([Headers()] + CsvRows(risks, iso));
      |lines| == |risks| + 1 && lines[0] == Join(Headers(), ',')
      && forall k :: 0 <= k < |risks| ==> lines[k + 1] == Join(CsvRow(risks[k], iso), ',')
    ensures CsvText(risks, iso) == Join(Lines([Headers()] + CsvRows(risks, iso)), '\n')
  {
    LinesIndex([Headers()] + CsvRows(risks, iso));
  }

  lemma {:induction false} LinesIndex(rows: seq<seq<string>>)
    ensures forall k :: 0 <= k < |rows| ==> Lines(rows)[k] == Join(rows[k], ',')
  {
    if rows != [] {
      LinesIndex(rows[1..]);
      forall k | 1 <= k < |rows| ensures Lines(rows)[k] == Join(rows[k], ',') {
        assert Lines(rows)[k] == Lines(rows[1..])[k - 1];
      }
    }
  }

  // ---------------------------------------------------------------------------
  // Round trip

  /** Records whose unescaped cells cannot break the format: an identifier
      and timestamps with no separator, quote or line feed, and a category
      and owner with no quote. */
  predicate CsvSafe(r: Risk, iso: int -> string)
  {
    PlainSafe(r.id) && PlainSafe(iso(r.createdAt)) && PlainSafe(iso(r.updatedAt))
    && (forall k :: 0 <= k < |r.category| ==> r.category[k] != '"')
    && (forall k :: 0 <= k < |r.owner| ==> r.owner[k] != '"')
  }

  lemma IntPlain(i: int)
    ensures PlainSafe(IntToString(i))
  {
  }

  lemma BandLabelsQuoteFree(name: string)
    ensures forall k :: 0 <= k < |BandLabelOf(name)| ==> BandLabelOf(name)[k] != '"'
  {
    match ParseBand(name)
    case None => assert PlainSafe("undefined");
    case Some(Low) => assert PlainSafe("Bajo");
    case Some(Moderate) => assert PlainSafe("Moderado");
    case Some(High) => assert PlainSafe("Alto");
    case Some(Critical) => assert PlainSafe("CrÃ­tico");
  }

  lemma StatusLabelsQuoteFree(name: string)
    ensures forall k :: 0 <= k < |StatusLabelOf(name)| ==> StatusLabelOf(name)[k] != '"'
  {
    match ParseStatus(name)
    case None => assert PlainSafe("undefined");
    case Some(Open) => assert PlainSafe("Abierto");
    case Some(Monitoring) => assert PlainSafe("Monitoreando");
    case Some(Closed) => assert PlainSafe("Cerrado");
  }

  lemma HeadersPlainA()
    ensures PlainSafe("ID") && PlainSafe("Título") && PlainSafe("Descripción") && PlainSafe("Categoría")
  {
  }

  lemma HeadersPlainB()
    ensures PlainSafe("Propietario") && PlainSafe("Probabilidad") && PlainSafe("Impacto") && PlainSafe("Gravedad")
  {
  }

  lemma HeadersPlainC()
    ensures PlainSafe("Banda") && PlainSafe("Estado") && PlainSafe("Creado") && PlainSafe("Actualizado")
  {
  }

  /** The header cells stand unquoted. */
  lemma HeadersEncode()
    ensures EncodesAll(Headers(), Headers())
  {
    HeadersPlainA();
    HeadersPlainB();
    HeadersPlainC();
    var h := Headers();
    forall k | 0 <= k < 12 ensures Encodes(h[k], h[k]) {
      assert PlainSafe(h[k]);
    }
  }

  /** Each cell of a safe record encodes the value it stands for. */
  lemma RowEncodes(r: Risk, iso: int -> string)
    requires CsvSafe(r, iso)
    ensures EncodesAll(CsvRow(r, iso), CsvValues(r, iso))
  {
    WrappedCellsEncode(r, iso);
    PlainCellsEncode(r, iso);
    var cells, values := CsvRow(r, iso), CsvValues(r, iso);
    assert Encodes(cells[1], values[1]) && Encodes(cells[2], values[2]);
  }

  /** The category, owner and label cells, wrapped without escaping. */
  lemma WrappedCellsEncode(r: Risk, iso: int -> string)
    requires CsvSafe(r, iso)
    ensures var cells, values := CsvRow(r, iso), CsvValues(r, iso);
      Encodes(cells[3], values[3]) && Encodes(cells[4], values[4])
      && Encodes(cells[8], values[8]) && Encodes(cells[9], values[9])
  {
    WrapIsQuote(r.category);
    WrapIsQuote(r.owner);
    BandLabelsQuoteFree(r.band);
    WrapIsQuote(BandLabelOf(r.band));
    StatusLabelsQuoteFree(r.status);
    WrapIsQuote(StatusLabelOf(r.status));
  }

  /** The id, the numbers and the timestamps, unquoted. */
  lemma PlainCellsEncode(r: Risk, iso: int -> string)
    requires CsvSafe(r, iso)
    ensures var cells, values := CsvRow(r, iso), CsvValues(r, iso);
      Encodes(cells[0], values[0]) && Encodes(cells[5], values[5]) && Encodes(cells[6], values[6])
      && Encodes(cells[7], values[7]) && Encodes(cells[10], values[10]) && Encodes(cells[11], values[11])
  {
    IntPlain(r.likelihood);
    IntPlain(r.impact);
    IntPlain(r.severity);
  }

  /** The written rows of safe records read back as their values. */
  lemma RowsRoundTrip(risks: seq<Risk>, iso: int -> string)
    ensures (forall k :: 0 <= k < |risks| ==> CsvSafe(risks[k], iso)) ==>
      Parse(Document([Headers()] + CsvRows(risks, iso)))
        == Some([Headers()] + ValueRows(risks, iso))
  {
    if forall k :: 0 <= k < |risks| ==> CsvSafe(risks[k], iso) {
      var body := ValueRows(risks, iso);
      AllRowsEncode(risks, iso, body);
      DocumentRoundTrip([Headers()] + CsvRows(risks, iso), [Headers()] + body);
    }
  }

  /** The header and every safe record, as rows and their values. */
  lemma AllRowsEncode(risks: seq<Risk>, iso: int -> string, body: seq<seq<string>>)
    requires forall k :: 0 <= k < |risks| ==> CsvSafe(risks[k], iso)
    requires body == ValueRows(risks, iso)
    ensures var rows, values := [Headers()] + CsvRows(risks, iso), [Headers()] + body;
      |rows| == |values| && forall j :: 0 <= j < |rows| ==> |rows[j]| > 0 && EncodesAll(rows[j], values[j])
  {
    HeadersEncode();
    RowsEncode(risks, iso, body);
    ConsEncodes(Headers(), Headers(), CsvRows(risks, iso), body);
  }

  /** A first row that encodes its values, before rows that do. */
  lemma ConsEncodes(h: seq<string>, hv: seq<string>, rows: seq<seq<string>>, values: seq<seq<string>>)
    requires |h| > 0 && EncodesAll(h, hv) && |rows| == |values|
    requires forall k :: 0 <= k < |rows| ==> |rows[k]| > 0 && EncodesAll(rows[k], values[k])
    ensures forall j :: 0 <= j < |rows| + 1 ==>
      |([h] + rows)[j]| > 0 && EncodesAll(([h] + rows)[j], ([hv] + values)[j])
  {
    forall j | 0 <= j < |rows| + 1 ensures |([h] + rows)[j]| > 0 && EncodesAll(([h] + rows)[j], ([hv] + values)[j]) {
      if j > 0 {
        assert ([h] + rows)[j] == rows[j - 1] && ([hv] + values)[j] == values[j - 1];
      }
    }
  }

  lemma RowsEncode(risks: seq<Risk>, iso: int -> string, body: seq<seq<string>>)
    requires forall k :: 0 <= k < |risks| ==> CsvSafe(risks[k], iso)
    requires body == ValueRows(risks, iso)
    ensures forall k :: 0 <= k < |risks| ==> |CsvRows(risks, iso)[k]| > 0 && EncodesAll(CsvRows(risks, iso)[k], body[k])
  {
    forall k | 0 <= k < |risks| ensures |CsvRows(risks, iso)[k]| > 0 && EncodesAll(CsvRows(risks, iso)[k], body[k]) {
      RowEncodes(risks[k], iso);
    }
  }

  /** The title cell reads back as the title whatever quotes it holds. */
  lemma TitleCellRoundTrip(r: Risk, iso: int -> string)
    ensures ReadField(CsvRow(r, iso)[1]) == Some((r.title, []))
  {
    UnquoteQuote(r.title);
  }

  // ---------------------------------------------------------------------------
  // The route

  /** The export's response, as a function of the database and the request. */
  function Export(storage: Storage, req: ExportRequest, iso: int -> string): (r: ExportResponse)
    ensures r.BadFormat? <==> FormatOf(req.format) != "csv" && FormatOf(req.format) != "json"
    ensures r.ExportJson? <==>
      FormatOf(req.format) == "json" && ParseQuery(ExportQuery(req.query)).Valid? && storage.Up?
    ensures r.ExportCsv? <==>
      FormatOf(req.format) == "csv" && ParseQuery(ExportQuery(req.query)).Valid? && storage.Up?
    ensures r.ExportJson? ==> forall x :: x in r.items ==> x in storage.risks
  {
    var format := FormatOf(req.format);
    if format != "csv" && format != "json" then BadFormat
    else
      match ParseQuery(ExportQuery(req.query))
      case Invalid(issues) => ExportBadRequest(issues)
      case Valid(q) =>
        if storage.Down? then ExportServerError
        else
          var risks := FindMany(storage.risks, ListWhere(q.band, SearchText(q)), OrderByOf(q), None);
          if format == "json" then ExportJson(risks) else ExportCsv(CsvText(risks, iso))
  }

  /** The route handler. */
  method ExportGet(storage: Storage, req: ExportRequest, iso: int -> string) returns (resp: ExportResponse)
    ensures resp == Export(storage, req, iso)
  {
    var format := FormatOf(req.format);
    if format != "csv" && format != "json" {
      return BadFormat;
    }
    var parsed := ParseQuery(ExportQuery(req.query));
    if parsed.Invalid? {
      return ExportBadRequest(parsed.issues);
    }
    var q := parsed.value;
    if storage.Down? {
      return ExportServerError;
    }
    var w := BuildExportWhere(q);
    var ob := BuildExportOrderBy(q);
    var risks := FindMany(storage.risks, w, ob, None);
    if format == "json" {
      return ExportJson(risks);
    }
    resp := ExportCsv(CsvText(risks, iso));
  }

  /** An unknown format is refused before the query is even looked at. */
  lemma FormatCheckedFirst(storage: Storage, req: ExportRequest, iso: int -> string)
    ensures Export(storage, req, iso) == BadFormat <==> FormatOf(req.format) != "csv" && FormatOf(req.format) != "json"
    ensures req.format.None? ==> !Export(storage, req, iso).BadFormat?
  {
  }

  /** The export parses the query with the page fields overridden. */
  lemma ExportParse(raw: RawQuery)
    ensures ParseQuery(ExportQuery(raw)).Valid? <==>
      ParseBandFilter(raw.band).Valid? && ParseSortBy(raw.sortBy).Valid? && ParseOrder(raw.order).Valid?
    ensures ParseQuery(raw).Valid? ==>
      ParseQuery(ExportQuery(raw)) == Valid(ParseQuery(raw).value.(page := 1, pageSize := 100))
  {
  }

  /** Every matching record is exported, in the list route's order, with no
      cap on how many. */
  lemma ExportReturnsAllMatches(db: seq<Risk>, req: ExportRequest, iso: int -> string)
    requires FormatOf(req.format) == "json"
    requires ParseQuery(ExportQuery(req.query)).Valid?
    ensures var q := ParseQuery(ExportQuery(req.query)).value; var w := ListWhere(q.band, SearchText(q));
      var resp := Export(Up(db), req, iso);
      resp.ExportJson?
      && resp.items == FindMany(db, w, OrderByOf(q), None)
      && |resp.items| == Count(db, w)
      && (forall x :: x in resp.items <==> x in db && BandOk(x, q.band) && SearchOk(x, SearchText(q)))
      && Sorted(resp.items, OrderByOf(q).key, q.order)
  {
    var q := ParseQuery(ExportQuery(req.query)).value;
    var w := ListWhere(q.band, SearchText(q));
    FindManyAll(db, w, OrderByOf(q));
    forall x ensures x in FindMany(db, w, OrderByOf(q), None) <==> x in db && BandOk(x, q.band) && SearchOk(x, SearchText(q)) {
      WhereSemantics(q.band, SearchText(q), x);
      assert x in FindMany(db, w, OrderByOf(q), None) <==> x in multiset(FindMany(db, w, OrderByOf(q), None));
      assert x in db <==> x in multiset(db);
    }
  }

  /** A page of the list route is a window of the JSON export of the same
      query. Both read the database through the same `findMany`, so records
      with equal sort keys come in the one order the model fixes. */
  lemma ListPageIsExportWindow(db: seq<Risk>, raw: RawQuery, iso: int -> string)
    requires ParseQuery(raw).Valid?
    ensures var q := ParseQuery(raw).value;
      ListGet(Up(db), raw).items
        == Window(Export(Up(db), ExportRequest(None, raw), iso).items, Offset(q.page, q.pageSize), q.pageSize)
  {
    var q := ParseQuery(raw).value;
    ListGetRespondsToParse(Up(db), raw);
    ListIsWindow(db, q);
    ExportParse(raw);
  }

  /** A CSV export is the rendering of the JSON export's records. */
  lemma CsvRendersJson(storage: Storage, raw: RawQuery, iso: int -> string)
    requires Export(storage, ExportRequest(Some("csv"), raw), iso).ExportCsv?
    ensures Export(storage, ExportRequest(None, raw), iso).ExportJson?
    ensures Export(storage, ExportRequest(Some("csv"), raw), iso).text
         == CsvText(Export(storage, ExportRequest(None, raw), iso).items, iso)
  {
  }
}
