# Risk register — Dafny model

A model of the core of a risk-register web application. A risk is rated for
likelihood and impact on a 1–5 scale. Its severity is the product of the two,
and the severity falls into one of four bands (Low, Moderate, High, Critical).

The model covers:

- the scoring rules and Spanish labels (`lib/risk-utils.ts`);
- the request schemas for create, update and list (`lib/validations.ts`);
- the list/create route (`app/api/risks/route.ts`);
- the CSV/JSON export route (`app/api/risks/export/route.ts`);
- four client components that turn the routes' answers into what the user
  sees: the 5×5 risk matrix, the KPI cards, the paginated register table and
  the create/edit dialog.

Modules, one per source file or concern:

- `Scoring` (scoring.dfy): bands, severity, colour classes, labels.
- `Text` (text.dfy): case-insensitive substring search, integer ↔ decimal
  text.
- `Csv` (csv.dfy): the CSV writer the export uses, and a reader used to
  state the export's round trip.
- `Store` (store.dfy): the record, the database seen through `findMany`
  (filter, order, skip/take) and `count`, and filter tallies.
- `Validation` (validation.dfy): the zod schemas as parsers from raw input to
  a value or a set of issues.
- `ListRoute` (list_route.dfy): `GET` and `POST /api/risks`.
- `ExportRoute` (export_route.dfy): `GET /api/risks/export`.
- `Matrix` (matrix.dfy): `components/risk-matrix.tsx`.
- `Kpi` (kpi.dfy): `components/kpi-cards.tsx`.
- `Register` (register_table.dfy): `components/risk-register-table.tsx`. Its
  state is a class whose methods are the component's handlers.
- `Form` (form_dialog.dfy): `components/risk-form-dialog.tsx`.

Modelling conventions:

- Raw input values are modelled as what JavaScript's `Number(...)` gives:
  `Absent`, `Finite(x)` with a real `x`, NaN or ±Infinity.
- Text fields are modelled as empty, text, or not a string.
- The database is a parameter: `Up(records)` or `Down` (any failure of the
  data layer).
- `toISOString` is a parameter `iso: int -> string` over integer timestamps.

Two places where the specification and the code disagree; the model follows
the code:

- The create schema defaults `status` to `Open`, but `POST /api/risks` does
  not pass the parsed status on to the database (`ListRoute.PostDropsStatus`).
- The list route's retry for a too-large `pageSize` can never fire, because
  the schema clamps `pageSize` before validating it
  (`ListRoute.RetryNeverFires`).

## Model

| member | source | states |
|---|---|---|
| Scoring.ComputeSeverity | lib/risk-utils.ts:3-5 | severity is likelihood × impact, and lies in 1..25 when both ratings are in 1..5 |
| Scoring.ComputeBand | lib/risk-utils.ts:7-12 | Low iff severity ≤ 4, Moderate iff 5..9, High iff 10..16, Critical iff > 16 |
| Scoring.BandMonotone | lib/risk-utils.ts:7-12 | a higher severity never gets a lower band |
| Scoring.BandsPartitionRange | lib/risk-utils.ts:7-12 | a severity gets band b exactly when it lies in b's interval (1-4, 5-9, 10-16, 17-25) |
| Scoring.BandIntervalsAdjacent | components/risk-matrix.tsx:142-163 | the legend's intervals start at 1, end at 25, and each begins one after the previous ends |
| Scoring.BandBoundaries | lib/risk-utils.ts:7-12 | 4/5, 9/10 and 16/17 are the band boundaries |
| Scoring.EveryBandReachable | lib/risk-utils.ts:3-12 | every band is the band of some pair of ratings in 1..5 |
| Scoring.ThreeByFourIsHigh | lib/risk-utils.ts:3-12 | likelihood 3 and impact 4 give severity 12, band High |
| Scoring.ParseBand | components/kpi-cards.tsx:50-53 | a stored band string reads as band b exactly when it is b's name |
| Scoring.ParseStatus | components/kpi-cards.tsx:54-56 | a stored status string reads as status s exactly when it is s's name |
| Scoring.BandNameRoundTrip | lib/risk-utils.ts:1 | reading a band's name gives the band back |
| Scoring.StatusNameRoundTrip | lib/validations.ts:50 | reading a status's name gives the status back |
| Scoring.TablesInjective | lib/risk-utils.ts:14-42 | the light and the dark class tables each give different classes to different bands and to the grey fallback |
| Scoring.KnownNotGrey | lib/risk-utils.ts:14-42 | no band gets the grey fallback classes |
| Scoring.BandColor | lib/risk-utils.ts:14-27 | the light classes are the grey default exactly when the stored text is not one of the four band names |
| Scoring.BandColorDark | lib/risk-utils.ts:29-42 | the dark classes are the grey default exactly when the stored text is not one of the four band names |
| Scoring.BandColorsDistinct | lib/risk-utils.ts:14-42 | different bands never share a light or a dark colour class |
| Scoring.BandLabel | lib/risk-utils.ts:45-50 | each band's Spanish label reads back as that band |
| Scoring.StatusLabel | lib/risk-utils.ts:51-55 | each status's Spanish label reads back as that status |
| Scoring.LabelsDistinct | lib/risk-utils.ts:44-56 | different bands, and different statuses, have different Spanish labels |
| Text.Lower | app/api/risks/route.ts:58-63 | case folding keeps the length and maps each character by itself |
| Text.LowerIdempotent | app/api/risks/route.ts:58-63 | folding twice is folding once |
| Text.Contains | app/api/risks/route.ts:58-63 | the empty pattern is in every text, and no pattern longer than the text is in it |
| Text.ContainsIffOccurs | app/api/risks/route.ts:58-63 | `contains` holds exactly when the pattern occurs at some position |
| Text.FoundAt | app/api/risks/route.ts:58-63 | an occurrence at position i is found by the search |
| Text.OccursImpliesContains | app/api/risks/route.ts:58-63 | any occurrence makes `contains` true |
| Text.CaseDoesNotMatter | app/api/risks/route.ts:58-63 | an insensitive search gives the same answer on the folded text and for a folded pattern |
| Text.NatToString | components/risk-register-table.tsx:67-69 | decimal text of a natural is non-empty and all digits |
| Text.IntToString | app/api/risks/export/route.ts:72-85 | decimal text of an integer is digits, with at most a leading minus |
| Text.NatRoundTrip | components/risk-register-table.tsx:67-69 | reading a natural's decimal text gives the natural back |
| Text.IntRoundTrip | app/api/risks/export/route.ts:72-85 | reading an integer's decimal text gives the integer back |
| Csv.Escape | app/api/risks/export/route.ts:74-75 | doubling quotes never shortens the text |
| Csv.JoinCounts | app/api/risks/export/route.ts:87 | `join` keeps every character of the parts and adds exactly one separator between each two parts |
| Csv.Lines | app/api/risks/export/route.ts:87 | one line per row |
| Csv.LinePerRecord | app/api/risks/export/route.ts:87 | when no cell holds a line feed, the document has exactly one line feed fewer than records |
| Csv.ReadQuoted | app/api/risks/export/route.ts:74-75 | a quoted field that reads consumes at least its closing quote |
| Csv.ReadPlain | app/api/risks/export/route.ts:78-80 | an unquoted field never consumes more than the input |
| Csv.ReadField | app/api/risks/export/route.ts:72-85 | a field read never consumes more than the input |
| Csv.ReadQuotedEscaped | app/api/risks/export/route.ts:74-75 | after an opening quote, reading the escaped value and its closing quote gives the value back and leaves the rest |
| Csv.ReadPlainSafe | app/api/risks/export/route.ts:78-80 | a value with no quote, comma or newline reads back as itself |
| Csv.FieldRoundTrip | app/api/risks/export/route.ts:72-85 | a cell that encodes a value reads back as that value, leaving what follows |
| Csv.UnquoteQuote | app/api/risks/export/route.ts:74-75 | a quoted, escaped cell (`Quote`) reads back as the original text, whatever quotes, commas or line feeds it held |
| Csv.ReadLastField | app/api/risks/export/route.ts:87 | the last cell of a line is read and the record closes at the line end |
| Csv.ReadInnerField | app/api/risks/export/route.ts:87 | a cell followed by a comma is read and reading goes on after the comma |
| Csv.RecordRoundTrip | app/api/risks/export/route.ts:87 | a line of cells joined by commas reads back as the values they encode |
| Csv.DocumentRoundTrip | app/api/risks/export/route.ts:87 | a document of lines joined by newlines parses to the rows of values encoded |
| Csv.EscapeWithoutQuotes | app/api/risks/export/route.ts:74-75 | escaping leaves quote-free text unchanged |
| Csv.WrapIsQuote | app/api/risks/export/route.ts:76-77 | the unescaped wrapping (`Wrap`) of category and owner is still a correct encoding for quote-free text |
| Csv.WrapWithQuoteIsLossy | app/api/risks/export/route.ts:76-77 | the unescaped wrapping of a text with a quote does not read back as that text |
| Store.Keep | components/kpi-cards.tsx:49-58 | a filter keeps exactly the elements that pass, and returns at most the input |
| Store.KeepMultiset | components/risk-matrix.tsx:73 | a filter keeps each passing element as many times as it occurs, and no other |
| Store.KeepAppend | components/risk-matrix.tsx:73 | filtering a concatenation is concatenating the filtered parts |
| Store.KeepSubsequence | components/risk-matrix.tsx:73 | a filter keeps the input order |
| Store.FilterWhere | app/api/risks/route.ts:56-63 | the records selected are exactly the database records that match the where clause |
| Store.Count | app/api/risks/route.ts:77 | `count` is at most the number of records, all of them when every record matches and 0 when none does |
| Store.CountIsFilterSize | app/api/risks/route.ts:77 | `count` with a where clause is the number of records `findMany` selects with it |
| Store.Insert | app/api/risks/route.ts:66-67 | insertion adds exactly the new record to the multiset |
| Store.InsertMembers | app/api/risks/route.ts:66-67 | insertion adds no record other than the one inserted |
| Store.ConsSorted | app/api/risks/route.ts:66-67 | a head in order with a sorted tail makes a sorted list |
| Store.InsertSorted | app/api/risks/route.ts:66-67 | inserting into a sorted list keeps it sorted |
| Store.Sort | app/api/risks/route.ts:66-67 | the ordered result is sorted on the key and direction, and a permutation of its input |
| Store.Arrange | app/api/risks/route.ts:66-67 | ordering by an `orderBy` is a permutation, sorted when an order is given |
| Store.Window | app/api/risks/route.ts:74-75 | skip/take returns min(take, what is left) records, each the one `skip` places further on |
| Store.FindMany | app/api/risks/route.ts:71-76 | every record returned is stored and matches the filter; the records are sorted when an order is given; a window holds at most `take` records |
| Store.FindManyWindow | app/api/risks/route.ts:71-76 | a paged `findMany` is the window of the unpaged one, and holds at most `take` records |
| Store.FindManyAll | app/api/risks/route.ts:71-76 | an unpaged `findMany` holds each matching record as often as the database does, and no other |
| Store.RatedAt | components/risk-matrix.tsx:73 | the records kept are exactly those with the given likelihood and impact |
| Store.TallyIsBandCount | components/kpi-cards.tsx:50-53 | counting a band on the client agrees with counting a band filter on the database |
| Store.BandTalliesSum | components/risk-matrix.tsx:231-256 | the four band tallies sum to at most the number of records, and to exactly that when every stored band is a band name |
| Store.StatusTalliesSum | components/kpi-cards.tsx:54-56 | the three status tallies sum to at most the number of records, and to exactly that when every stored status is a status name |
| Validation.Trunc | lib/validations.ts:35 | `Math.trunc` rounds toward zero, for negative values too |
| Validation.ParseInteger | lib/validations.ts:48-49 | a number parses exactly when it is a finite integer; the value is kept; failures are issues on that field alone |
| Validation.ClampPageSize | lib/validations.ts:32-36 | the clamp is in 1..100, gives 20 for a non-finite value, and otherwise is the truncated value clamped |
| Validation.ClampIdempotent | lib/validations.ts:32-36 | clamping a clamped size changes nothing |
| Validation.ClampExamples | lib/validations.ts:32-36 | 500 gives 100, 0 gives 1, 1000 gives 100, −7.5 gives 1, 42.9 gives 42, NaN and Infinity give 20 |
| Validation.ParseBandFilter | lib/validations.ts:39-42 | a band filter is accepted exactly when absent, "all" or a band name; only a band name gives a band; otherwise one union issue |
| Validation.ParseSortBy | lib/validations.ts:59 | `updatedAt` iff the text is "updatedAt"; severity iff absent or "severity"; otherwise one enum issue |
| Validation.ParseOrder | lib/validations.ts:60 | ascending iff "asc"; descending iff absent or "desc"; otherwise one enum issue |
| Validation.ParsePage | lib/validations.ts:61 | absent gives 1; otherwise accepted exactly when a finite integer ≥ 1; failures are page issues |
| Validation.ParsePageSize | lib/validations.ts:62-63 | the page size always parses, into 1..100, and is 20 when absent |
| Validation.ParseQuery | lib/validations.ts:56-64 | a failing query has issues; a valid query has page ≥ 1 and page size in 1..100 |
| Validation.QueryDefaults | lib/validations.ts:56-64 | an empty query gives no band, no search, severity, descending, page 1, size 20 |
| Validation.PageSizeNeverFails | lib/validations.ts:62-63 | no issue is ever about the page size, and changing the page size never changes whether the query is valid |
| Validation.QueryViolations | lib/validations.ts:56-64 | the fields with issues are exactly the fields whose value is wrong, all of them at once |
| Validation.PageZeroRejected | lib/validations.ts:61 | page 0 is refused with a too-small issue |
| Validation.AllMeansNoBand | lib/validations.ts:39-42 | band "all" parses the same as no band |
| Validation.ParseTitle | lib/validations.ts:46 | a title is accepted exactly when it is text of 1..100 characters, kept as is |
| Validation.ParseDescription | lib/validations.ts:47 | a description is accepted unless it is not text; absent stays absent |
| Validation.ParseRating | lib/validations.ts:48-49 | a rating is accepted exactly when a finite integer in 1..5, kept as is |
| Validation.ParseStatusField | lib/validations.ts:50 | absent gives Open; a status name gives that status; anything else is a status issue |
| Validation.ParseCreate | lib/validations.ts:45-51 | a failing body has issues; an accepted one has a title of 1..100 characters and ratings in 1..5 |
| Validation.CreateAcceptsExactly | lib/validations.ts:45-51 | a body is accepted exactly when it is an object whose every field is acceptable, and the value is built from those fields |
| Validation.CreateViolations | lib/validations.ts:45-51 | the fields with issues are exactly the wrong fields, all reported together |
| Validation.CreateIssueFields | lib/validations.ts:45-51 | the create issues name exactly the wrong fields |
| Validation.CreateIgnoresExtraKeys | lib/validations.ts:45-51 | keys outside the schema, such as severity and band, do not change the parse |
| Validation.ParseUpdate | lib/validations.ts:53 | a failing patch has issues; a present title is 1..100 characters and present ratings are in 1..5 |
| Validation.EmptyUpdate | lib/validations.ts:53 | an empty patch is accepted and sets nothing |
| Validation.CreateImpliesUpdate | lib/validations.ts:45-53 | a body the create schema accepts is accepted as a patch with the same values |
| Validation.UpdateAcceptsExactly | lib/validations.ts:53 | a patch is accepted exactly when each present field is acceptable |
| ListRoute.RetryNeverFires | app/api/risks/route.ts:21-33 | the retry gives the same result as a single parse, and fails exactly when that parse fails |
| ListRoute.SafePage | app/api/risks/route.ts:52 | the safe page is at least 1 and leaves a valid page unchanged |
| ListRoute.SafePageSize | app/api/risks/route.ts:53 | the safe size is in 1..100 and leaves a valid size unchanged |
| ListRoute.Offset | app/api/risks/route.ts:74 | records skipped are (page − 1) × size |
| ListRoute.TotalPages | app/api/risks/route.ts:85 | at least 1 page; 1 for no records; otherwise the least number of pages of that size that hold them |
| ListRoute.WhereSemantics | app/api/risks/route.ts:56-63 | a record matches the where clause exactly when it has the band, if one is given, and the search text occurs in its title or description, ignoring case |
| ListRoute.BuildWhere | app/api/risks/route.ts:56-63 | the clause built step by step matches exactly the records with the band and the search |
| ListRoute.OrderByOf | app/api/risks/route.ts:66-67 | orders by `updatedAt` exactly when asked, otherwise by severity, in the requested direction |
| ListRoute.SortKeyChoice | app/api/risks/route.ts:66-67 | on a valid query, the order is by `updatedAt` exactly when the raw `sortBy` is "updatedAt", ascending exactly when `order` is "asc" |
| ListRoute.ListGet | app/api/risks/route.ts:16-97 | the retry is dead: the answer is the response to the single parse of the query |
| ListRoute.Respond | app/api/risks/route.ts:50-97 | 400 with the parse's issues exactly when the parse failed; 500 exactly when the database fails on a parsed query; otherwise a page of at most 100 stored records, page ≥ 1, at least one page |
| ListRoute.Get | app/api/risks/route.ts:16-97 | the handler answers what the route function defines |
| ListRoute.ListGetRespondsToParse | app/api/risks/route.ts:16-97 | the answer depends on the raw query only through its parse |
| ListRoute.ListIsWindow | app/api/risks/route.ts:70-86 | a page's items are the window of the ordered matches at the offset, total is their count, and totalPages holds them |
| ListRoute.ListItemsQualify | app/api/risks/route.ts:70-86 | every item returned is a database record that matches the filters, and the items are sorted as asked |
| ListRoute.NoFilterMatchesAll | app/api/risks/route.ts:56-63 | with no band and no search, every record matches |
| ListRoute.AllIsNoBand | app/api/risks/route.ts:16-97 | asking for band "all" gives the same answer as asking for no band |
| ListRoute.LargePagesCapped | app/api/risks/route.ts:53 | a request for 1000 records is served as pages of 100 |
| ListRoute.ListErrorMapping | app/api/risks/route.ts:87-96 | 400 exactly when the query fails to parse, carrying its issues; 500 exactly when it parses and the database fails |
| ListRoute.Post | app/api/risks/route.ts:100-145 | a record is created exactly for a JSON body the schema accepts on a working database; a body that is not JSON gets the invalid-JSON answer; the created severity is likelihood × impact, in 1..25, and the band is its band |
| ListRoute.PostDerivesScore | app/api/risks/route.ts:109-130 | a created record's severity is likelihood × impact and its band is that severity's band |
| ListRoute.PostIgnoresCallerScore | app/api/risks/route.ts:109-130 | a severity or band sent by the caller has no effect |
| ListRoute.PostDropsStatus | app/api/risks/route.ts:111-130 | a created record carries no status, whatever status was sent |
| ListRoute.PostErrorMapping | app/api/risks/route.ts:100-145 | 400 exactly for a body that is not JSON or fails the schema; 500 exactly for a valid body on a failing database; 201 otherwise |
| ExportRoute.FormatOf | app/api/risks/export/route.ts:13 | an absent or empty format is "json"; any other is taken as given |
| ExportRoute.BuildExportWhere | app/api/risks/export/route.ts:26-37 | the clause built step by step is the list route's clause for the band and search |
| ExportRoute.BuildExportOrderBy | app/api/risks/export/route.ts:40-45 | the order built step by step is the list route's order |
| ExportRoute.Headers | app/api/risks/export/route.ts:57-70 | twelve header cells |
| ExportRoute.CsvRow | app/api/risks/export/route.ts:72-85 | twelve cells per record |
| ExportRoute.CsvRows | app/api/risks/export/route.ts:72-85 | one row per record, in order |
| ExportRoute.CsvLayout | app/api/risks/export/route.ts:87 | the text is the header line then one line per record, joined by newlines |
| ExportRoute.LinesIndex | app/api/risks/export/route.ts:87 | each line is its row's cells joined by commas |
| ExportRoute.IntPlain | app/api/risks/export/route.ts:78-80 | a number's decimal text needs no quoting |
| ExportRoute.BandLabelsQuoteFree | app/api/risks/export/route.ts:81 | no band label holds a quote, so its unescaped wrapping reads back |
| ExportRoute.StatusLabelsQuoteFree | app/api/risks/export/route.ts:82 | no status label holds a quote, so its unescaped wrapping reads back |
| ExportRoute.HeadersEncode | app/api/risks/export/route.ts:57-70 | every header reads back as itself |
| ExportRoute.RowEncodes | app/api/risks/export/route.ts:72-85 | each cell of a record encodes the value it stands for, given a plain id and timestamps and quote-free category and owner |
| ExportRoute.CsvText | app/api/risks/export/route.ts:57-87 | parsing the CSV gives the header and then each record's values in order, when each record's id, timestamps, category and owner need no escaping |
| ExportRoute.TitleCellRoundTrip | app/api/risks/export/route.ts:74 | the title cell reads back as the title whatever quotes it holds |
| ExportRoute.ExportGet | app/api/risks/export/route.ts:8-104 | the handler answers what the export function defines |
| ExportRoute.FormatCheckedFirst | app/api/risks/export/route.ts:13-16 | the answer is the bad-format error exactly when the format is neither csv nor json, and never when no format is given |
| ExportRoute.ExportParse | app/api/risks/export/route.ts:19-23 | the export's query parses exactly when band, sortBy and order do, whatever page and size were sent; when the sent query parses, the export's is the same with page 1 and size 100 |
| ExportRoute.Export | app/api/risks/export/route.ts:8-104 | bad format exactly when the format is neither csv nor json; JSON, or CSV, exactly for that format on a parsed query and a working database; JSON items are stored records |
| ExportRoute.ExportReturnsAllMatches | app/api/risks/export/route.ts:47-54 | the JSON export holds every matching record, sorted as asked, and no other |
| ExportRoute.ListPageIsExportWindow | app/api/risks/export/route.ts:47-54 | a list page is the window of the JSON export at the page's offset, given one tie order shared by all queries |
| ExportRoute.CsvRendersJson | app/api/risks/export/route.ts:52-87 | the CSV export is the rendering of the JSON export's records |
| Matrix.CreateMatrix | components/risk-matrix.tsx:64-88 | five rows from likelihood 5 down to 1, five cells from impact 1 up to 5, each with its severity, band, and exactly the records rated there |
| Matrix.EachRatingOnce | components/risk-matrix.tsx:64-88 | each pair of ratings has exactly one cell |
| Matrix.CellContents | components/risk-matrix.tsx:73-81 | a cell's severity is in 1..25, and its records are those rated at it, each as often as in the input |
| Matrix.DrawnCaptions | components/risk-matrix.tsx:171-224 | the drawn captions are the fitting captions swapped |
| Matrix.DrawnCaptionsSwapped | components/risk-matrix.tsx:171-224 | the captions as drawn do not fit the ticks: the top-left cell is likelihood 5, impact 1 |
| Matrix.CaptionsMatchLayout | components/risk-matrix.tsx:171-224 | the captions swapped fit the ticks |
| Matrix.AlongRowStep | components/risk-matrix.tsx:73 | the count along a row splits over the first record |
| Matrix.UpToLikelihoodStep | components/risk-matrix.tsx:73 | the count over rows splits over the first record |
| Matrix.EmptyGrid | components/risk-matrix.tsx:73 | no records, no counts |
| Matrix.EmptyRow | components/risk-matrix.tsx:73 | no records, no counts along a row |
| Matrix.GridCountsRated | components/risk-matrix.tsx:64-88 | counting cell by cell counts exactly the records rated in 1..5 |
| Matrix.RowCountsAlong | components/risk-matrix.tsx:70-83 | a row's counts sum to the records rated along that row |
| Matrix.HasCountsRest | components/risk-matrix.tsx:68-85 | the rows below the first still count their ratings |
| Matrix.FirstRowCounts | components/risk-matrix.tsx:68-85 | the first row's counts sum to the records at its likelihood |
| Matrix.MatrixCountsUpTo | components/risk-matrix.tsx:68-85 | the counts of rows down from a likelihood sum to the records up to it |
| Matrix.CountsSumToRated | components/risk-matrix.tsx:64-88 | the 25 cell counts sum to the number of records with both ratings in 1..5 |
| Matrix.FetchAllCapped | components/risk-matrix.tsx:50 | asking for 1000 records gets pages of 100, so the matrix sees at most 100 |
| Kpi.InitialKpi | components/kpi-cards.tsx:26-35 | every counter starts at 0 |
| Kpi.KpiFrom | components/kpi-cards.tsx:49-58 | total is the number of records; each band card is the number of records stored with that band and each status card the number stored with that status; the band counters and the status counters sum to at most the total, and to exactly it when every stored band/status is valid |
| Kpi.AfterFetch | components/kpi-cards.tsx:42-67 | a successful answer replaces the cards with its tallies; a failed one leaves them |
| Kpi.KpiOfDatabase | components/kpi-cards.tsx:42-58 | the cards count at most 100 records, and each of the four band cards is what a band-filtered `count` over the same records reports |
| Kpi.KpiOfFailure | components/kpi-cards.tsx:44-67 | a failing database gives 500, and the cards stay at zero |
| Register.NextSort | components/risk-register-table.tsx:138-143 | the clicked column becomes the sort column, ascending exactly when it was already sorted on descending |
| Register.OtherColumnDescends | components/risk-register-table.tsx:138-143 | a new column starts descending |
| Register.SecondClickRestores | components/risk-register-table.tsx:138-143 | two clicks on the sorted column restore its order |
| Register.IconFollowsClick | components/risk-register-table.tsx:183-186 | after a click only the clicked column shows a chevron, pointing in the new direction |
| Register.SortIcon | components/risk-register-table.tsx:183-186 | a chevron shows exactly on the sorted column, pointing in the current order |
| Register.RequestFor | components/risk-register-table.tsx:67-85 | page, size, sort and order always; band and search only when not empty; with a cell, no page and a size of 1000 |
| Register.RequestAccepted | components/risk-register-table.tsx:67-85 | the table's requests always parse, and the route reads back the table's filters, sort and page (page 1 of 100 with a cell) |
| Register.ClientTotalPages | components/risk-register-table.tsx:104 | 0 pages exactly for no records; otherwise the least pages that hold them |
| Register.ClientPagesAgree | components/risk-register-table.tsx:104 | the client count agrees with the route's except for no records, where it gives 0 and not 1 |
| Register.CellPage | components/risk-register-table.tsx:107-108 | the client page holds at most a page of records, each the one at the offset among those at the cell |
| Register.CellFilterExact | components/risk-register-table.tsx:96-99 | the records kept are exactly those returned at the cell, with their multiplicity, in order |
| Register.ControlsFor | components/risk-register-table.tsx:245-368 | the controls show exactly when rows are listed and there is more than one page (an empty page shows the "no records" message instead); previous is enabled off page 1; next is enabled off the last page; up to five numbered buttons |
| Register.RangeCountsRows | components/risk-register-table.tsx:332-333 | "Mostrando first a last" counts exactly the rows the route returned for that page |
| Register.RangeCountsWindow | components/risk-register-table.tsx:332-333 | the shown range has as many places as the window of the page |
| Register.RegisterTable.Controls | components/risk-register-table.tsx:245-330 | the controls show exactly when the last answer did not fail, rows are listed and there is more than one page |
| Register.RegisterTable.constructor | components/risk-register-table.tsx:44-60 | no filters, severity descending, page 1 of 20, nothing loaded, no error |
| Register.RegisterTable.HandleSort | components/risk-register-table.tsx:138-143 | the sort becomes the next sort; nothing else changes |
| Register.RegisterTable.HandleFilterChange | components/risk-register-table.tsx:129-136 | the chosen filter takes the value, the page returns to 1, nothing else changes |
| Register.RegisterTable.ClearFilters | components/risk-register-table.tsx:145-150 | both filters empty, page 1, and filters stay active only if a cell is selected |
| Register.RegisterTable.SetCell | components/risk-register-table.tsx:129-132 | the cell filter is replaced and the page returns to 1 |
| Register.RegisterTable.PreviousPage | components/risk-register-table.tsx:329-340 | the page goes down by one exactly when the controls are shown (no error, rows listed, more than one page) and previous is enabled; nothing else changes |
| Register.RegisterTable.NextPage | components/risk-register-table.tsx:329-363 | the page goes up by one exactly when the controls are shown (no error, rows listed, more than one page) and next is enabled; nothing else changes |
| Register.RegisterTable.GoToPage | components/risk-register-table.tsx:329-354 | the page becomes n exactly when the controls are shown and n is one of their buttons; nothing else changes |
| Register.RegisterTable.Receive | components/risk-register-table.tsx:62-122 | without a cell, rows and counts are the route's; with one, the rows are the cell's records paged on the client and the counts theirs; the table is marked failed exactly when the answer is not a list, and a failure leaves rows and counts |
| Register.CellTotalAsWritten | components/risk-register-table.tsx:79-105 | a cell-filtered table never counts more than 100 records |
| Register.CellFilterMissesRecords | components/risk-register-table.tsx:79-105 | with 101 records at one cell, the table counts fewer than there are |
| Register.CellTotalCountsAll | components/risk-register-table.tsx:79-105 | counted over the export, the cell total is the number of records at the cell that pass the filters |
| Form.OrOne | components/risk-form-dialog.tsx:71 | `v \|\| 1`: an unset rating counts as 1 |
| Form.LiveSeverity | components/risk-form-dialog.tsx:71 | the preview severity is likelihood × impact, in 1..25, for ratings in 1..5; an unset rating counts as 1 |
| Form.LiveBand | components/risk-form-dialog.tsx:72 | the preview band is the band of the preview severity; with nothing set it is Low |
| Form.PreviewCell | components/risk-form-dialog.tsx:253-257 | each of the 25 squares stands for ratings in 1..5 |
| Form.PreviewIndex | components/risk-form-dialog.tsx:253-257 | each pair of ratings has a square among the 25 |
| Form.PreviewBijection | components/risk-form-dialog.tsx:253-257 | squares and rating pairs correspond one to one |
| Form.Preview | components/risk-form-dialog.tsx:253-272 | 25 squares, each with its ratings' severity and band, selected exactly when they are the watched ratings |
| Form.ExactlyOneSelected | components/risk-form-dialog.tsx:260 | for ratings in range, exactly the square of the watched ratings is selected |
| Form.SelectedShowsLive | components/risk-form-dialog.tsx:238-260 | the selected square shows the live severity and band |
| Form.NoneSelectedOutside | components/risk-form-dialog.tsx:260 | for ratings out of range, no square is selected |
| Form.PreviewMatchesMatrix | components/risk-form-dialog.tsx:253-272 | each preview square shows the same ratings, severity and band as the matrix cell at the same place |
| Form.ResetValues | components/risk-form-dialog.tsx:75-94 | a new risk starts blank with ratings 1; an edited one starts from the record, with a missing description as "" |
| Form.BlankFormNeedsTitle | components/risk-form-dialog.tsx:53-61 | a blank form fails only on the title, and passes once a title is typed |
| Form.EditFormValid | components/risk-form-dialog.tsx:75-83 | an edit form reset from a valid record can be submitted |
| Form.SubmitTarget | components/risk-form-dialog.tsx:101-102 | PATCH to the record's URL when editing, POST to the collection otherwise |
| Form.TargetsDiffer | components/risk-form-dialog.tsx:101-102 | editing and creating never send to the same URL or with the same verb |
| Form.Submission | components/risk-form-dialog.tsx:96-110 | whatever is sent goes to the dialog's target, and the body reads back under the dialog's schema exactly as the form fields did |
| Form.NewRiskBodyRoundTrip | components/risk-form-dialog.tsx:96-110 | the JSON of an accepted new record parses back to the same record |
| Form.PatchBodyRoundTrip | components/risk-form-dialog.tsx:96-110 | the JSON of an accepted patch parses back to the same patch |
| Form.CreateSubmissionAccepted | components/risk-form-dialog.tsx:96-110 | a new-risk form submits exactly when the title is 1..100 characters and the ratings are in 1..5; the route then creates it with the live preview's severity and band |
| Form.EditSubmissionRoundTrip | components/risk-form-dialog.tsx:96-110 | an edit form submits exactly when the update schema accepts it, and the body sent parses back to the same patch |

## Left out

- `app/api/risks/[id]/route.ts` (read one, update, delete) is not part of
  this model, nor is the table's `handleDelete`, which calls it.
- React effects, rendering, the loading flag and `fetch` ordering are not
  modelled. The error flag is modelled only as the table's `failed` field,
  which hides the pagination controls. In particular, the table's refetch races with the page reset
  when a filter changes; the model applies the reset in the same step.
- Prisma's `create` adds an id, timestamps, and defaults for category, owner
  and status that the schema file defines. That file is not part of this
  model; `ListRoute.Post` returns the data it passes to `create`.
- ListRoute.PostDropsStatus: states only that no status is passed on; the
  stored default is outside the model.
- Case-insensitive search folds ASCII letters only; the database collation
  is not modelled.
- JavaScript's `Number("...")` on query strings, and `parseInt` on the select
  values, are not modelled. Raw values enter as already converted numbers.
- Text lengths count characters, not UTF-16 code units.
- Store.Sort: the database does not fix the order of records with equal
  keys. The model picks one stable order (an insertion sort) and uses it for
  every query. `Sort` itself promises only sortedness and permutation, but
  `ExportRoute.ListPageIsExportWindow` depends on that one shared order: a
  database that breaks ties differently per query could page differently.
- Validation.ParseQuery: issue codes are coarse (type, enum, union, too
  small, too big), and messages are not modelled.
- The export's category, owner and status filters are built from keys the
  query schema strips, so they are never set. The model leaves them out.
- The CSV uses LF line ends, as the source does, not the CRLF of RFC 4180.
  The export's filename, built from the current date, is not modelled.
- Category and owner are wrapped in quotes without escaping. The round trip
  is therefore stated for quote-free values, and `Csv.WrapWithQuoteIsLossy`
  shows what happens otherwise.
- Kpi.AfterFetch: a thrown fetch and a non-OK answer both leave the cards as
  they were; the console log is not modelled.
- `formatDate`, the colour classes of the cell ring, the badges and the
  markup are not modelled, beyond the class tables in `Scoring`.
- Form.LiveSeverity: the watched values are integers; a watched value that is
  not a number is not modelled.

## Findings

| source | as written | input that shows it | evidently intended | confidence | as-written member | corrected member |
|---|---|---|---|---|---|---|
| components/risk-matrix.tsx:171-224 | the caption beside the row ticks 5..1 reads "Impacto" and the caption under the column ticks 1..5 reads "Probabilidad", but rows run over likelihood and columns over impact | the top-left cell is likelihood 5, impact 1, yet sits beside the tick 5 on the axis captioned "Impacto" | rows captioned "Probabilidad", columns "Impacto" | high, not executed | Matrix.DrawnCaptionsSwapped | Matrix.CaptionsMatchLayout |
| components/risk-register-table.tsx:79-105 | with a matrix cell selected, the table asks the list route for 1000 records, which clamps the page size to 100, and then filters those on the client | 101 records all rated at the selected cell: the table counts at most 100 | count every record at the cell that passes the filters, for example by reading the export | high, not executed | Register.CellFilterMissesRecords | Register.CellTotalCountsAll |
