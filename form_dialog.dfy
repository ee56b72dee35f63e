/** The create/edit dialog: the live severity and band shown while the
    ratings are picked, the 5×5 position preview, the values the form is
    reset to, and the request a valid submission sends. */
module Form {
  import opened Scoring
  import opened Store
  import opened Validation
  import opened ListRoute
  import opened Matrix

  /** The four form fields. */
  datatype FormValues = FormValues(title: string, description: string, likelihood: int, impact: int)

  /** `v || 1` on a watched rating, which is a number: 0 falls back to 1. */
  function OrOne(v: int): (r: int)
    ensures v != 0 ==> r == v
    ensures v == 0 ==> r == 1
  {
    if v == 0 then 1 else v
  }

  /** The severity shown while editing. */
  function LiveSeverity(likelihood: int, impact: int): (s: int)
    ensures 1 <= likelihood <= 5 && 1 <= impact <= 5 ==> s == likelihood * impact && 1 <= s <= 25
    ensures likelihood == 0 ==> s == OrOne(impact)
    ensures impact == 0 ==> s == OrOne(likelihood)
  {
    ComputeSeverity(OrOne(likelihood), OrOne(impact))
  }

  function LiveBand(likelihood: int, impact: int): (b: Band)
    ensures b == ComputeBand(LiveSeverity(likelihood, impact))
    ensures likelihood == 0 && impact == 0 ==> b == Low
  {
    ComputeBand(LiveSeverity(likelihood, impact))
  }

  // ---------------------------------------------------------------------------
  // The position preview

  /** Square `k` of the preview, drawn in reading order: row k / 5 is
      likelihood 5 - k / 5, column k % 5 is impact k % 5 + 1. */
  function PreviewCell(k: int): (c: (int, int))
    requires 0 <= k < 25
    ensures 1 <= c.0 <= 5 && 1 <= c.1 <= 5
  {
    (5 - k / 5, k % 5 + 1)
  }

  /** The square a rating pair is drawn in. */
  function PreviewIndex(likelihood: int, impact: int): (k: int)
    requires 1 <= likelihood <= 5 && 1 <= impact <= 5
    ensures 0 <= k < 25
  {
    (5 - likelihood) * 5 + (impact - 1)
  }

  /** The squares and the rating pairs of [1, 5]² correspond one to one. */
  lemma PreviewBijection(k: int, likelihood: int, impact: int)
    requires 0 <= k < 25
    requires 1 <= likelihood <= 5 && 1 <= impact <= 5
    ensures PreviewIndex(PreviewCell(k).0, PreviewCell(k).1) == k
    ensures PreviewCell(PreviewIndex(likelihood, impact)) == (likelihood, impact)
    ensures PreviewCell(k) == (likelihood, impact) <==> k == PreviewIndex(likelihood, impact)
  {
    CellThenIndex(k);
    IndexThenCell(likelihood, impact);
  }

  lemma CellThenIndex(k: int)
    requires 0 <= k < 25
    ensures PreviewIndex(PreviewCell(k).0, PreviewCell(k).1) == k
  {
    var q, r := k / 5, k % 5;
    SplitIndex(k);
    assert PreviewCell(k) == (5 - q, r + 1);
    assert PreviewIndex(5 - q, r + 1) == q * 5 + r;
  }

  lemma IndexThenCell(likelihood: int, impact: int)
    requires 1 <= likelihood <= 5 && 1 <= impact <= 5
    ensures PreviewCell(PreviewIndex(likelihood, impact)) == (likelihood, impact)
  {
    var q, r := 5 - likelihood, impact - 1;
    var k := PreviewIndex(likelihood, impact);
    assert k == q * 5 + r;
    JoinIndex(q, r);
    assert k / 5 == q && k % 5 == r;
  }

  lemma SplitIndex(k: int)
    requires 0 <= k < 25
    ensures k == 5 * (k / 5) + k % 5 && 0 <= k / 5 < 5 && 0 <= k % 5 < 5
  {
  }

  lemma JoinIndex(q: int, r: int)
    requires 0 <= q < 5 && 0 <= r < 5
    ensures (q * 5 + r) / 5 == q && (q * 5 + r) % 5 == r
  {
    var k := q * 5 + r;
    SplitIndex(k);
    var a, m := k / 5, k % 5;
    assert 5 * (a - q) == r - m;
  }

  datatype Square = Square(likelihood: int, impact: int, severity: int, band: Band, selected: bool)

  /** The 25 squares for the watched ratings. */
  function Preview(likelihood: int, impact: int): (squares: seq<Square>)
    ensures |squares| == 25
    ensures forall k :: 0 <= k < 25 ==>
      (squares[k].likelihood, squares[k].impact) == PreviewCell(k)
      && squares[k].severity == squares[k].likelihood * squares[k].impact
      && squares[k].band == ComputeBand(squares[k].severity)
      && (squares[k].selected <==> PreviewCell(k) == (OrOne(likelihood), OrOne(impact)))
  {
    seq(25, k requires 0 <= k < 25 =>
      var c := PreviewCell(k);
      var severity := ComputeSeverity(c.0, c.1);
      Square(c.0, c.1, severity, ComputeBand(severity), c == (OrOne(likelihood), OrOne(impact))))
  }

  /** With ratings in [1, 5] (or left at 0), exactly one square is
      highlighted: the one drawn for those ratings. */
  lemma ExactlyOneSelected(likelihood: int, impact: int)
    requires 1 <= OrOne(likelihood) <= 5 && 1 <= OrOne(impact) <= 5
    ensures forall k :: 0 <= k < 25 ==>
      (Preview(likelihood, impact)[k].selected <==> k == PreviewIndex(OrOne(likelihood), OrOne(impact)))
  {
    var l := OrOne(likelihood);
    var i := OrOne(impact);
    var squares := Preview(likelihood, impact);
    forall k | 0 <= k < 25 ensures squares[k].selected <==> k == PreviewIndex(l, i) {
      PreviewBijection(k, l, i);
    }
  }

  /** The highlighted square shows the live severity and band. */
  lemma SelectedShowsLive(likelihood: int, impact: int)
    requires 1 <= OrOne(likelihood) <= 5 && 1 <= OrOne(impact) <= 5
    ensures var s := Preview(likelihood, impact)[PreviewIndex(OrOne(likelihood), OrOne(impact))];
      s.selected && s.severity == LiveSeverity(likelihood, impact) && s.band == LiveBand(likelihood, impact)
  {
    var l := OrOne(likelihood);
    var i := OrOne(impact);
    var k := PreviewIndex(l, i);
    PreviewBijection(k, l, i);
    var s := Preview(likelihood, impact)[k];
    assert (s.likelihood, s.impact) == (l, i);
    assert s.severity == ComputeSeverity(l, i);
  }

  /** With a rating outside [1, 5], no square is highlighted. */
  lemma NoneSelectedOutside(likelihood: int, impact: int)
    requires !(1 <= OrOne(likelihood) <= 5 && 1 <= OrOne(impact) <= 5)
    ensures forall k :: 0 <= k < 25 ==> !Preview(likelihood, impact)[k].selected
  {
  }

  /** The preview lays out the squares as the matrix lays out its cells,
      with the same severities and bands. */
  lemma PreviewMatchesMatrix(risks: seq<Risk>, m: seq<seq<MatrixCell>>, likelihood: int, impact: int, k: int)
    requires IsMatrixOf(risks, m)
    requires 0 <= k < 25
    ensures var s := Preview(likelihood, impact)[k]; var c := m[k / 5][k % 5];
      s.likelihood == c.likelihood && s.impact == c.impact && s.severity == c.severity && s.band == c.band
  {
    assert IsCellFor(risks, m[k / 5][k % 5], 5 - k / 5, k % 5 + 1);
  }

  // ---------------------------------------------------------------------------
  // Reset

  /** The values the form is reset to when it opens: blank with ratings 1
      for a new risk, the risk's own values for an edit, a missing
      description becoming "". */
  function ResetValues(editing: Option<Risk>): (v: FormValues)
    ensures editing.None? ==> v == FormValues("", "", 1, 1)
    ensures editing.Some? ==>
      var r := editing.value;
      v.title == r.title && v.likelihood == r.likelihood && v.impact == r.impact
      && v.description == (if r.description.Some? then r.description.value else "")
  {
    match editing
    case None => FormValues("", "", 1, 1)
    case Some(r) => FormValues(r.title, if r.description.Some? then r.description.value else "", r.likelihood, r.impact)
  }

  /** The body the form's fields stand for: two strings and two numbers. */
  function FieldsBody(v: FormValues): RawRisk
  {
    RawRisk(Text(v.title), Text(v.description), Finite(v.likelihood as real), Finite(v.impact as real),
            NoText, Absent, NoText)
  }

  /** A fresh create form fails the create rules on its title alone. */
  lemma BlankFormNeedsTitle()
    ensures Fields(IssuesOf(ParseCreate(Object(FieldsBody(ResetValues(None)))))) == {Title}
    ensures ParseCreate(Object(FieldsBody(ResetValues(None)).(title := Text("x")))).Valid?
  {
    CreateViolations(FieldsBody(ResetValues(None)));
  }

  /** An edit form opened on a record whose title and ratings meet the
      rules can be submitted unchanged. */
  lemma EditFormValid(r: Risk)
    requires 1 <= |r.title| <= 100 && 1 <= r.likelihood <= 5 && 1 <= r.impact <= 5
    ensures Submission(Some(r), ResetValues(Some(r))).Some?
  {
    assert ParseUpdate(Object(FieldsBody(ResetValues(Some(r))))).Valid?;
  }

  // ---------------------------------------------------------------------------
  // Submission

  datatype Target = Target(verb: string, url: string)

  /** `PATCH /api/risks/{id}` for an edit, `POST /api/risks` for a new one. */
  function SubmitTarget(editing: Option<Risk>): (t: Target)
    ensures editing.Some? ==> t == Target("PATCH", "/api/risks/" + editing.value.id)
    ensures editing.None? ==> t == Target("POST", "/api/risks")
  {
    match editing
    case Some(r) => Target("PATCH", "/api/risks/" + r.id)
    case None => Target("POST", "/api/risks")
  }

  /** An edit never goes to the create URL. */
  lemma TargetsDiffer(r: Risk)
    ensures SubmitTarget(Some(r)).url != SubmitTarget(None).url
    ensures SubmitTarget(Some(r)).verb != SubmitTarget(None).verb
  {
    assert |SubmitTarget(Some(r)).url| > |SubmitTarget(None).url|;
  }

  /** The JSON of a record the create schema produced. */
  function NewRiskBody(n: NewRisk): RawRisk
  {
    RawRisk(Text(n.title), if n.description.Some? then Text(n.description.value) else NoText,
            Finite(n.likelihood as real), Finite(n.impact as real), Text(StatusName(n.status)), Absent, NoText)
  }

  /** The JSON of a patch the update schema produced: absent keys stay out. */
  function PatchBody(p: RiskPatch): RawRisk
  {
    RawRisk(if p.title.Some? then Text(p.title.value) else NoText,
            if p.description.Some? then Text(p.description.value) else NoText,
            if p.likelihood.Some? then Finite(p.likelihood.value as real) else Absent,
            if p.impact.Some? then Finite(p.impact.value as real) else Absent,
            if p.status.Some? then Text(StatusName(p.status.value)) else NoText,
            Absent, NoText)
  }

  /** What a submit sends: nothing when the dialog's schema (create or
      update) rejects the fields, and otherwise the validated values, as
      JSON, to the target. */
  function Submission(editing: Option<Risk>, v: FormValues): (s: Option<(Target, RawRisk)>)
    ensures s.Some? ==> s.value.0 == SubmitTarget(editing)
    ensures s.Some? && editing.None? ==> ParseCreate(Object(s.value.1)) == ParseCreate(Object(FieldsBody(v)))
    ensures s.Some? && editing.Some? ==> ParseUpdate(Object(s.value.1)) == ParseUpdate(Object(FieldsBody(v)))
  {
    if editing.None? then
      match ParseCreate(Object(FieldsBody(v)))
      case Valid(n) => NewRiskBodyRoundTrip(FieldsBody(v)); Some((SubmitTarget(editing), NewRiskBody(n)))
      case Invalid(_) => None
    else
      match ParseUpdate(Object(FieldsBody(v)))
      case Valid(p) => PatchBodyRoundTrip(FieldsBody(v)); Some((SubmitTarget(editing), PatchBody(p)))
      case Invalid(_) => None
  }

  /** The JSON of an accepted record reads back as the same record. */
  lemma NewRiskBodyRoundTrip(raw: RawRisk)
    requires ParseCreate(Object(raw)).Valid?
    ensures ParseCreate(Object(NewRiskBody(ParseCreate(Object(raw)).value))) == ParseCreate(Object(raw))
  {
    var n := ParseCreate(Object(raw)).value;
    StatusNameRoundTrip(n.status);
    CreateAcceptsExactly(Object(raw));
    CreateAcceptsExactly(Object(NewRiskBody(n)));
  }

  /** The JSON of an accepted patch reads back as the same patch. */
  lemma PatchBodyRoundTrip(raw: RawRisk)
    requires ParseUpdate(Object(raw)).Valid?
    ensures ParseUpdate(Object(PatchBody(ParseUpdate(Object(raw)).value))) == ParseUpdate(Object(raw))
  {
    var p := ParseUpdate(Object(raw)).value;
    if p.status.Some? {
      StatusNameRoundTrip(p.status.value);
    }
    UpdateAcceptsExactly(raw);
    UpdateAcceptsExactly(PatchBody(p));
  }

  /** A new risk is sent exactly when its title has 1 to 100 characters and
      its ratings lie in [1, 5]; the create route then accepts the body and
      stores the form's values with the severity and band the preview
      showed. */
  lemma CreateSubmissionAccepted(db: seq<Risk>, v: FormValues)
    ensures Submission(None, v).Some? <==>
      1 <= |v.title| <= 100 && 1 <= v.likelihood <= 5 && 1 <= v.impact <= 5
    ensures Submission(None, v).Some? ==>
      var resp := Post(Up(db), Json(Object(Submission(None, v).value.1)));
      resp.Created?
      && resp.data.title == v.title && resp.data.description == Some(v.description)
      && resp.data.likelihood == v.likelihood && resp.data.impact == v.impact
      && resp.data.severity == LiveSeverity(v.likelihood, v.impact)
      && resp.data.band == LiveBand(v.likelihood, v.impact)
  {
    CreateAcceptsExactly(Object(FieldsBody(v)));
    var o := ParseCreate(Object(FieldsBody(v)));
    if o.Valid? {
      var body := NewRiskBody(o.value);
      StatusNameRoundTrip(o.value.status);
      CreateAcceptsExactly(Object(body));
      assert ParseCreate(Object(body)).Valid?;
    }
  }

  /** An edit is sent exactly when the update schema accepts the fields,
      and the body reads back, under that schema, as the same patch. */
  lemma EditSubmissionRoundTrip(r: Risk, v: FormValues)
    ensures Submission(Some(r), v).Some? <==> ParseUpdate(Object(FieldsBody(v))).Valid?
    ensures Submission(Some(r), v).Some? ==>
      Submission(Some(r), v).value.0 == Target("PATCH", "/api/risks/" + r.id)
      && ParseUpdate(Object(Submission(Some(r), v).value.1)) == ParseUpdate(Object(FieldsBody(v)))
  {
    var o := ParseUpdate(Object(FieldsBody(v)));
    if o.Valid? {
      var p := o.value;
      UpdateAcceptsExactly(FieldsBody(v));
      UpdateAcceptsExactly(PatchBody(p));
      assert ParseUpdate(Object(PatchBody(p))).Valid?;
    }
  }
}
