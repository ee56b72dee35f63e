/** The input schemas: the create and update body rules and the list/export
    query rules, as total functions that either normalise their input or
    report the set of violated fields. Unknown keys are stripped, so they
    never reach the result. */
module Validation {
  import opened Scoring
  import opened Store

  /** What JavaScript's `Number(v)` yields for a raw value. `Absent` is a
      missing key (for which `Number(undefined)` would give NaN). */
  datatype RawNumber = Absent | Finite(x: real) | NotANumber | Infinite(positive: bool)

  /** A raw value where text is expected: missing, a string, or some other
      JSON value (number, null, object...). */
  datatype RawText = NoText | Text(s: string) | NotText

  datatype Field = Root | Title | Description | Likelihood | Impact | StatusField
                 | BandField | SortBy | Order | Page | PageSize
  datatype Code = InvalidType | InvalidEnum | InvalidUnion | TooSmall | TooBig
  datatype Issue = Issue(field: Field, code: Code)

  /** A normalised value, or the issues that rejected it. */
  datatype Outcome<T> = Valid(value: T) | Invalid(issues: set<Issue>)

  function IssuesOf<T>(o: Outcome<T>): set<Issue>
  {
    if o.Invalid? then o.issues else {}
  }

  function Fields(issues: set<Issue>): set<Field>
  {
    set i | i in issues :: i.field
  }

  lemma FieldsOfUnion(a: set<Issue>, b: set<Issue>)
    ensures Fields(a + b) == Fields(a) + Fields(b)
  {
  }

  // ---------------------------------------------------------------------------
  // Numbers

  predicate IsInteger(x: real)
  {
    x == x.Floor as real
  }

  /** `Math.trunc`: rounds toward zero. */
  function Trunc(x: real): (n: int)
    ensures x >= 0.0 ==> n as real <= x < n as real + 1.0
    ensures x < 0.0 ==> n as real - 1.0 < x <= n as real
  {
    if x >= 0.0 then x.Floor else -((-x).Floor)
  }

  /** The checks of an integer schema with optional bounds; every failed
      check is reported, as the schema collects them all. */
  function NumberIssues(f: Field, v: RawNumber, lo: Option<int>, hi: Option<int>): set<Issue>
  {
    match v
    case Absent => {Issue(f, InvalidType)}
    case NotANumber => {Issue(f, InvalidType)}
    case Infinite(positive) =>
      {Issue(f, InvalidType)}
      + (if !positive && lo.Some? then {Issue(f, TooSmall)} else {})
      + (if positive && hi.Some? then {Issue(f, TooBig)} else {})
    case Finite(x) =>
      (if !IsInteger(x) then {Issue(f, InvalidType)} else {})
      + (if lo.Some? && x < lo.value as real then {Issue(f, TooSmall)} else {})
      + (if hi.Some? && x > hi.value as real then {Issue(f, TooBig)} else {})
  }

  /** A required integer with the given bounds, as coerced from `v`. */
  function ParseInteger(f: Field, v: RawNumber, lo: Option<int>, hi: Option<int>): (r: Outcome<int>)
    ensures r.Valid? <==> v.Finite? && IsInteger(v.x)
                          && (lo.None? || v.x >= lo.value as real) && (hi.None? || v.x <= hi.value as real)
    ensures r.Valid? ==> r.value as real == v.x
    ensures r.Invalid? ==> r.issues != {} && Fields(r.issues) == {f}
  {
    var issues := NumberIssues(f, v, lo, hi);
    if issues == {} then Valid(v.x.Floor)
    else assert Fields(issues) == {f} by { assert forall i :: i in issues ==> i.field == f; } Invalid(issues)
  }

  /** The page-size preprocessing: a non-finite number becomes 20, anything
      else is truncated and clamped into [1, 100]. */
  function ClampPageSize(v: RawNumber): (n: int)
    ensures 1 <= n <= 100
    ensures !v.Finite? ==> n == 20
    ensures v.Finite? ==> n == Min(Max(Trunc(v.x), 1), 100)
  {
    match v
    case Finite(x) => Min(Max(Trunc(x), 1), 100)
    case _ => 20
  }

  function Min(a: int, b: int): int { if a <= b then a else b }
  function Max(a: int, b: int): int { if a >= b then a else b }

  /** Clamping an already clamped page size changes nothing. */
  lemma ClampIdempotent(v: RawNumber)
    ensures ClampPageSize(Finite(ClampPageSize(v) as real)) == ClampPageSize(v)
  {
  }

  lemma ClampExamples()
    ensures ClampPageSize(Finite(500.0)) == 100
    ensures ClampPageSize(Finite(0.0)) == 1
    ensures ClampPageSize(Finite(1000.0)) == 100
    ensures ClampPageSize(Finite(-7.5)) == 1
    ensures ClampPageSize(Finite(42.9)) == 42
    ensures ClampPageSize(NotANumber) == 20 && ClampPageSize(Infinite(true)) == 20
  {
  }

  // ---------------------------------------------------------------------------
  // Query schema

  /** The query string after `Object.fromEntries`: each key absent or text,
      the numeric ones already coerced. */
  datatype RawQuery = RawQuery(
    band: Option<string>,
    search: Option<string>,
    sortBy: Option<string>,
    order: Option<string>,
    page: RawNumber,
    pageSize: RawNumber)

  datatype Query = Query(
    band: Option<Band>,
    search: Option<string>,
    sortBy: SortKey,
    order: Direction,
    page: int,
    pageSize: int)

  /** The band filter: a band name, or "all" which means no filter. */
  function ParseBandFilter(v: Option<string>): (r: Outcome<Option<Band>>)
    ensures r.Valid? <==> v.None? || v.value == "all" || ParseBand(v.value).Some?
    ensures forall b: Band :: r == Valid(Some(b)) <==> v == Some(BandName(b))
    ensures r.Invalid? ==> r.issues == {Issue(BandField, InvalidUnion)}
  {
    match v
    case None => Valid(None)
    case Some(s) =>
      if s == "all" then Valid(None)
      else match ParseBand(s)
        case Some(b) => Valid(Some(b))
        case None => Invalid({Issue(BandField, InvalidUnion)})
  }

  function ParseSortBy(v: Option<string>): (r: Outcome<SortKey>)
    ensures r == Valid(ByUpdatedAt) <==> v == Some("updatedAt")
    ensures r == Valid(BySeverity) <==> v.None? || v == Some("severity")
    ensures r.Invalid? ==> r.issues == {Issue(SortBy, InvalidEnum)}
  {
    match v
    case None => Valid(BySeverity)
    case Some(s) =>
      if s == "severity" then Valid(BySeverity)
      else if s == "updatedAt" then Valid(ByUpdatedAt)
      else Invalid({Issue(SortBy, InvalidEnum)})
  }

  function ParseOrder(v: Option<string>): (r: Outcome<Direction>)
    ensures r == Valid(Asc) <==> v == Some("asc")
    ensures r == Valid(Desc) <==> v.None? || v == Some("desc")
    ensures r.Invalid? ==> r.issues == {Issue(Order, InvalidEnum)}
  {
    match v
    case None => Valid(Desc)
    case Some(s) =>
      if s == "asc" then Valid(Asc)
      else if s == "desc" then Valid(Desc)
      else Invalid({Issue(Order, InvalidEnum)})
  }

  /** `page`: an integer of at least 1, 1 when absent. */
  function ParsePage(v: RawNumber): (r: Outcome<int>)
    ensures v.Absent? ==> r == Valid(1)
    ensures r.Valid? ==> r.value >= 1
    ensures !v.Absent? ==> (r.Valid? <==> v.Finite? && IsInteger(v.x) && v.x >= 1.0)
    ensures r.Invalid? ==> r.issues != {} && Fields(r.issues) == {Page}
  {
    if v.Absent? then Valid(1) else ParseInteger(Page, v, Some(1), None)
  }

  /** `pageSize`: 20 when absent, otherwise the clamp; never an issue. */
  function ParsePageSize(v: RawNumber): (n: int)
    ensures 1 <= n <= 100
    ensures v.Absent? ==> n == 20
  {
    if v.Absent? then 20 else ClampPageSize(v)
  }

  /** The whole query schema: valid when every field is, and otherwise the
      union of every field's issues. */
  function ParseQuery(raw: RawQuery): (r: Outcome<Query>)
    ensures r.Invalid? ==> r.issues != {}
    ensures r.Valid? ==> r.value.page >= 1 && 1 <= r.value.pageSize <= 100
  {
    var band := ParseBandFilter(raw.band);
    var sortBy := ParseSortBy(raw.sortBy);
    var order := ParseOrder(raw.order);
    var page := ParsePage(raw.page);
    var issues := IssuesOf(band) + IssuesOf(sortBy) + IssuesOf(order) + IssuesOf(page);
    if issues == {} then
      Valid(Query(band.value, raw.search, sortBy.value, order.value, page.value, ParsePageSize(raw.pageSize)))
    else Invalid(issues)
  }

  /** Every query key absent gives the defaults. */
  lemma QueryDefaults()
    ensures ParseQuery(RawQuery(None, None, None, None, Absent, Absent))
         == Valid(Query(None, None, BySeverity, Desc, 1, 20))
  {
  }

  /** The size of a page never makes a query fail. */
  lemma PageSizeNeverFails(raw: RawQuery, v: RawNumber)
    ensures PageSize !in Fields(IssuesOf(ParseQuery(raw)))
    ensures ParseQuery(raw).Valid? <==> ParseQuery(raw.(pageSize := v)).Valid?
  {
  }

  /** The fields whose own query rule fails; the page size is never among them. */
  function QueryViolated(raw: RawQuery): set<Field>
  {
    (if ParseBandFilter(raw.band).Invalid? then {BandField} else {})
    + (if ParseSortBy(raw.sortBy).Invalid? then {SortBy} else {})
    + (if ParseOrder(raw.order).Invalid? then {Order} else {})
    + (if ParsePage(raw.page).Invalid? then {Page} else {})
  }

  /** A field is reported exactly when its own rule rejects it. */
  lemma QueryViolations(raw: RawQuery)
    ensures Fields(IssuesOf(ParseQuery(raw))) == QueryViolated(raw)
  {
    var o1 := ParseBandFilter(raw.band);
    var o2 := ParseSortBy(raw.sortBy);
    var o3 := ParseOrder(raw.order);
    var o4 := ParsePage(raw.page);
    assert IssuesOf(ParseQuery(raw)) == IssuesOf(o1) + IssuesOf(o2) + IssuesOf(o3) + IssuesOf(o4);
    OneField(o1, BandField);
    OneField(o2, SortBy);
    OneField(o3, Order);
    OneField(o4, Page);
    FieldsOfFour(IssuesOf(o1), IssuesOf(o2), IssuesOf(o3), IssuesOf(o4));
  }

  lemma FieldsOfFour(a: set<Issue>, b: set<Issue>, c: set<Issue>, d: set<Issue>)
    ensures Fields(a + b + c + d) == Fields(a) + Fields(b) + Fields(c) + Fields(d)
  {
    FieldsOfUnion(a, b);
    FieldsOfUnion(a + b, c);
    FieldsOfUnion(a + b + c, d);
  }

  /** Page 0 is rejected, as too small. */
  lemma PageZeroRejected(raw: RawQuery)
    ensures ParseQuery(raw.(page := Finite(0.0))).Invalid?
    ensures Issue(Page, TooSmall) in IssuesOf(ParseQuery(raw.(page := Finite(0.0))))
  {
  }

  /** "all" and an absent band both mean no band filter. */
  lemma AllMeansNoBand(raw: RawQuery)
    ensures ParseQuery(raw.(band := Some("all"))) == ParseQuery(raw.(band := None))
  {
  }

  // ---------------------------------------------------------------------------
  // Create and update schemas

  /** The fields of a request body. `severity` and `band` stand for keys a
      caller may add that the schema does not declare. */
  datatype RawRisk = RawRisk(
    title: RawText,
    description: RawText,
    likelihood: RawNumber,
    impact: RawNumber,
    status: RawText,
    severity: RawNumber,
    band: RawText)

  /** A parsed JSON body: an object, or some other JSON value. */
  datatype RawBody = NotAnObject | Object(fields: RawRisk)

  datatype NewRisk = NewRisk(title: string, description: Option<string>, likelihood: int, impact: int, status: Status)

  /** A partial update: `None` for every key the body did not carry. */
  datatype RiskPatch = RiskPatch(
    title: Option<string>,
    description: Option<string>,
    likelihood: Option<int>,
    impact: Option<int>,
    status: Option<Status>)

  /** The title: text with 1 to 100 characters. */
  function ParseTitle(t: RawText): (r: Outcome<string>)
    ensures r.Valid? <==> t.Text? && 1 <= |t.s| <= 100
    ensures r.Valid? ==> r.value == t.s
    ensures r.Invalid? ==> r.issues != {} && Fields(r.issues) == {Title}
  {
    match t
    case Text(s) =>
      if |s| < 1 then Invalid({Issue(Title, TooSmall)})
      else if |s| > 100 then Invalid({Issue(Title, TooBig)})
      else Valid(s)
    case _ => Invalid({Issue(Title, InvalidType)})
  }

  function ParseDescription(t: RawText): (r: Outcome<Option<string>>)
    ensures r.Valid? <==> !t.NotText?
    ensures r.Valid? ==> (r.value.Some? <==> t.Text?) && (t.Text? ==> r.value.value == t.s)
    ensures r.Invalid? ==> r.issues == {Issue(Description, InvalidType)}
  {
    match t
    case NoText => Valid(None)
    case Text(s) => Valid(Some(s))
    case NotText => Invalid({Issue(Description, InvalidType)})
  }

  /** Likelihood or impact: an integer in [1, 5] after coercion. */
  function ParseRating(f: Field, v: RawNumber): (r: Outcome<int>)
    ensures r.Valid? <==> v.Finite? && IsInteger(v.x) && 1.0 <= v.x <= 5.0
    ensures r.Valid? ==> 1 <= r.value <= 5 && r.value as real == v.x
    ensures r.Invalid? ==> r.issues != {} && Fields(r.issues) == {f}
  {
    ParseInteger(f, v, Some(1), Some(5))
  }

  /** The status: one of the three names, Open when absent. */
  function ParseStatusField(t: RawText): (r: Outcome<Status>)
    ensures t.NoText? ==> r == Valid(Open)
    ensures forall s: Status :: t == Text(StatusName(s)) ==> r == Valid(s)
    ensures r.Invalid? <==> t.NotText? || (t.Text? && ParseStatus(t.s).None?)
    ensures r.Invalid? ==> r.issues != {} && Fields(r.issues) == {StatusField}
  {
    match t
    case NoText => Valid(Open)
    case NotText => Invalid({Issue(StatusField, InvalidType)})
    case Text(s) =>
      match ParseStatus(s)
      case Some(st) => Valid(st)
      case None => Invalid({Issue(StatusField, InvalidEnum)})
  }

  function CreateIssues(r: RawRisk): set<Issue>
  {
    IssuesOf(ParseTitle(r.title)) + IssuesOf(ParseDescription(r.description))
    + IssuesOf(ParseRating(Likelihood, r.likelihood)) + IssuesOf(ParseRating(Impact, r.impact))
    + IssuesOf(ParseStatusField(r.status))
  }

  /** The create schema. */
  function ParseCreate(b: RawBody): (r: Outcome<NewRisk>)
    ensures r.Invalid? ==> r.issues != {}
    ensures r.Valid? ==> 1 <= |r.value.title| <= 100 && 1 <= r.value.likelihood <= 5 && 1 <= r.value.impact <= 5
  {
    match b
    case NotAnObject => Invalid({Issue(Root, InvalidType)})
    case Object(raw) =>
      if CreateIssues(raw) == {} then
        Valid(NewRisk(ParseTitle(raw.title).value, ParseDescription(raw.description).value,
                      ParseRating(Likelihood, raw.likelihood).value, ParseRating(Impact, raw.impact).value,
                      ParseStatusField(raw.status).value))
      else Invalid(CreateIssues(raw))
  }

  /** The create rules as one statement over the raw fields. */
  predicate CreateAcceptable(raw: RawRisk)
  {
    raw.title.Text? && 1 <= |raw.title.s| <= 100
    && !raw.description.NotText?
    && raw.likelihood.Finite? && IsInteger(raw.likelihood.x) && 1.0 <= raw.likelihood.x <= 5.0
    && raw.impact.Finite? && IsInteger(raw.impact.x) && 1.0 <= raw.impact.x <= 5.0
    && (raw.status.NoText? || (raw.status.Text? && ParseStatus(raw.status.s).Some?))
  }

  /** A body is accepted exactly when it is an object meeting every rule, and
      the record it yields carries the caller's values. */
  lemma CreateAcceptsExactly(b: RawBody)
    ensures ParseCreate(b).Valid? <==> b.Object? && CreateAcceptable(b.fields)
    ensures ParseCreate(b).Valid? ==>
      var v := ParseCreate(b).value;
      v.title == b.fields.title.s
      && v.likelihood as real == b.fields.likelihood.x && v.impact as real == b.fields.impact.x
      && (v.description.Some? <==> b.fields.description.Text?)
      && (b.fields.status.NoText? ==> v.status == Open)
  {
  }

  /** The fields whose own create rule fails. */
  function CreateViolated(raw: RawRisk): set<Field>
  {
    (if ParseTitle(raw.title).Invalid? then {Title} else {})
    + (if ParseDescription(raw.description).Invalid? then {Description} else {})
    + (if ParseRating(Likelihood, raw.likelihood).Invalid? then {Likelihood} else {})
    + (if ParseRating(Impact, raw.impact).Invalid? then {Impact} else {})
    + (if ParseStatusField(raw.status).Invalid? then {StatusField} else {})
  }

  /** Every violated field is reported, and only those. */
  lemma CreateViolations(raw: RawRisk)
    ensures Fields(IssuesOf(ParseCreate(Object(raw)))) == CreateViolated(raw)
  {
    assert IssuesOf(ParseCreate(Object(raw))) == CreateIssues(raw);
    CreateIssueFields(raw);
  }

  lemma CreateIssueFields(raw: RawRisk)
    ensures Fields(CreateIssues(raw)) == CreateViolated(raw)
  {
    var o1 := ParseTitle(raw.title);
    var o2 := ParseDescription(raw.description);
    var o3 := ParseRating(Likelihood, raw.likelihood);
    var o4 := ParseRating(Impact, raw.impact);
    var o5 := ParseStatusField(raw.status);
    OneField(o1, Title);
    OneField(o2, Description);
    OneField(o3, Likelihood);
    OneField(o4, Impact);
    OneField(o5, StatusField);
    FieldsOfFour(IssuesOf(o1), IssuesOf(o2), IssuesOf(o3), IssuesOf(o4));
    FieldsOfUnion(IssuesOf(o1) + IssuesOf(o2) + IssuesOf(o3) + IssuesOf(o4), IssuesOf(o5));
  }

  lemma OneField<T>(o: Outcome<T>, f: Field)
    requires o.Invalid? ==> Fields(o.issues) == {f}
    ensures Fields(IssuesOf(o)) == if o.Invalid? then {f} else {}
  {
  }

  /** Undeclared keys never influence the outcome. */
  lemma CreateIgnoresExtraKeys(raw: RawRisk, severity: RawNumber, band: RawText)
    ensures ParseCreate(Object(raw)) == ParseCreate(Object(raw.(severity := severity, band := band)))
  {
  }

  /** Every key made optional: absent keys stay absent, with no default. */
  function Optional<T>(absent: bool, o: Outcome<T>): Outcome<Option<T>>
  {
    if absent then Valid(None) else if o.Valid? then Valid(Some(o.value)) else Invalid(o.issues)
  }

  function UpdateIssues(r: RawRisk): set<Issue>
  {
    IssuesOf(Optional(r.title.NoText?, ParseTitle(r.title)))
    + IssuesOf(ParseDescription(r.description))
    + IssuesOf(Optional(r.likelihood.Absent?, ParseRating(Likelihood, r.likelihood)))
    + IssuesOf(Optional(r.impact.Absent?, ParseRating(Impact, r.impact)))
    + IssuesOf(Optional(r.status.NoText?, ParseStatusField(r.status)))
  }

  /** The update schema: the create rules with every key optional. */
  function ParseUpdate(b: RawBody): (r: Outcome<RiskPatch>)
    ensures r.Invalid? ==> r.issues != {}
    ensures r.Valid? ==> (r.value.title.Some? ==> 1 <= |r.value.title.value| <= 100)
                         && (r.value.likelihood.Some? ==> 1 <= r.value.likelihood.value <= 5)
                         && (r.value.impact.Some? ==> 1 <= r.value.impact.value <= 5)
  {
    match b
    case NotAnObject => Invalid({Issue(Root, InvalidType)})
    case Object(raw) =>
      if UpdateIssues(raw) == {} then
        Valid(RiskPatch(Optional(raw.title.NoText?, ParseTitle(raw.title)).value,
                        ParseDescription(raw.description).value,
                        Optional(raw.likelihood.Absent?, ParseRating(Likelihood, raw.likelihood)).value,
                        Optional(raw.impact.Absent?, ParseRating(Impact, raw.impact)).value,
                        Optional(raw.status.NoText?, ParseStatusField(raw.status)).value))
      else Invalid(UpdateIssues(raw))
  }

  /** An empty object is a valid update that changes nothing; in particular
      the status default does not apply. */
  lemma EmptyUpdate()
    ensures ParseUpdate(Object(RawRisk(NoText, NoText, Absent, Absent, NoText, Absent, NoText)))
         == Valid(RiskPatch(None, None, None, None, None))
  {
  }

  /** Whatever the create schema accepts, the update schema accepts too, with
      the same values for every key the body carries. */
  lemma CreateImpliesUpdate(raw: RawRisk)
    requires ParseCreate(Object(raw)).Valid?
    ensures ParseUpdate(Object(raw)).Valid?
    ensures var c := ParseCreate(Object(raw)).value; var u := ParseUpdate(Object(raw)).value;
      u.title == Some(c.title) && u.description == c.description
      && u.likelihood == Some(c.likelihood) && u.impact == Some(c.impact)
      && (raw.status.Text? ==> u.status == Some(c.status))
      && (raw.status.NoText? ==> u.status.None?)
  {
  }

  /** The update rule per key: a present key must meet its create rule. */
  lemma UpdateAcceptsExactly(raw: RawRisk)
    ensures ParseUpdate(Object(raw)).Valid? <==>
      (raw.title.NoText? || ParseTitle(raw.title).Valid?)
      && ParseDescription(raw.description).Valid?
      && (raw.likelihood.Absent? || ParseRating(Likelihood, raw.likelihood).Valid?)
      && (raw.impact.Absent? || ParseRating(Impact, raw.impact).Valid?)
      && (raw.status.NoText? || ParseStatusField(raw.status).Valid?)
  {
  }
}
