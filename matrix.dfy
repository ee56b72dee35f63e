/** The 5×5 risk matrix: one row per likelihood from 5 down to 1, one
    column per impact from 1 up to 5, each cell holding the records rated
    there. */
module Matrix {
  import opened Scoring
  import opened Store
  import opened Validation
  import opened ListRoute

  datatype MatrixCell = MatrixCell(
    likelihood: int,
    impact: int,
    severity: int,
    band: Band,
    count: nat,
    risks: seq<Risk>)

  /** What the cell at likelihood `l` and impact `i` must hold. */
  predicate IsCellFor(risks: seq<Risk>, cell: MatrixCell, l: int, i: int)
  {
    cell.likelihood == l && cell.impact == i
    && cell.severity == ComputeSeverity(l, i) && cell.band == ComputeBand(cell.severity)
    && cell.risks == RatedAt(risks, l, i) && cell.count == |cell.risks|
  }

  /** Row `r` (from the top) is likelihood 5 - r; column `c` is impact c + 1. */
  predicate IsMatrixOf(risks: seq<Risk>, m: seq<seq<MatrixCell>>)
  {
    |m| == 5
    && (forall r :: 0 <= r < 5 ==> |m[r]| == 5)
    && forall r, c :: 0 <= r < 5 && 0 <= c < 5 ==> IsCellFor(risks, m[r][c], 5 - r, c + 1)
  }

  /** Builds the matrix row by row and cell by cell. */
  method CreateMatrix(risks: seq<Risk>) returns (matrix: seq<seq<MatrixCell>>)
    ensures IsMatrixOf(risks, matrix)
  {
    matrix := [];
    var likelihood := 5;
    while likelihood >= 1
      invariant 0 <= likelihood <= 5
      invariant |matrix| == 5 - likelihood
      invariant forall r :: 0 <= r < |matrix| ==> |matrix[r]| == 5
      invariant forall r, c :: 0 <= r < |matrix| && 0 <= c < 5 ==> IsCellFor(risks, matrix[r][c], 5 - r, c + 1)
    {
      var row: seq<MatrixCell> := [];
      var impact := 1;
      while impact <= 5
        invariant 1 <= impact <= 6
        invariant |row| == impact - 1
        invariant forall c :: 0 <= c < |row| ==> IsCellFor(risks, row[c], likelihood, c + 1)
      {
        var severity := ComputeSeverity(likelihood, impact);
        var band := ComputeBand(severity);
        var cellRisks := RatedAt(risks, likelihood, impact);
        row := row + [MatrixCell(likelihood, impact, severity, band, |cellRisks|, cellRisks)];
        impact := impact + 1;
      }
      matrix := matrix + [row];
      likelihood := likelihood - 1;
    }
  }

  /** Every rating in [1, 5]² sits in exactly one cell. */
  lemma EachRatingOnce(risks: seq<Risk>, m: seq<seq<MatrixCell>>, l: int, i: int)
    requires IsMatrixOf(risks, m)
    requires 1 <= l <= 5 && 1 <= i <= 5
    ensures forall r, c :: 0 <= r < 5 && 0 <= c < 5 ==>
      (m[r][c].likelihood == l && m[r][c].impact == i <==> r == 5 - l && c == i - 1)
  {
  }

  /** A cell's severity lies in [1, 25] and its records are exactly the
      records rated there, each as often as it is stored. */
  lemma CellContents(risks: seq<Risk>, m: seq<seq<MatrixCell>>, r: int, c: int)
    requires IsMatrixOf(risks, m)
    requires 0 <= r < 5 && 0 <= c < 5
    ensures var cell := m[r][c];
      1 <= cell.severity <= 25
      && forall x :: multiset(cell.risks)[x] ==
           if x.likelihood == cell.likelihood && x.impact == cell.impact then multiset(risks)[x] else 0
  {
    KeepMultiset(risks, (x: Risk) => x.likelihood == 5 - r && x.impact == c + 1);
  }

  // ---------------------------------------------------------------------------
  // Axis captions

  datatype Axis = LikelihoodAxis | ImpactAxis

  /** The axis a caption names. */
  function AxisNamed(caption: string): Option<Axis>
  {
    if caption == "Probabilidad" then Some(LikelihoodAxis)
    else if caption == "Impacto" then Some(ImpactAxis)
    else None
  }

  function RatingOn(cell: MatrixCell, axis: Axis): int
  {
    match axis
    case LikelihoodAxis => cell.likelihood
    case ImpactAxis => cell.impact
  }

  /** A pair of captions (beside the row ticks 5..1, under the column ticks
      1..5) fits the matrix when each names the rating its ticks show: the
      tick 5 - r beside row r and the tick c + 1 under column c. */
  predicate CaptionsFit(m: seq<seq<MatrixCell>>, captions: (string, string))
  {
    |m| == 5 && (forall r :: 0 <= r < 5 ==> |m[r]| == 5)
    && AxisNamed(captions.0).Some? && AxisNamed(captions.1).Some?
    && forall r, c :: 0 <= r < 5 && 0 <= c < 5 ==>
         RatingOn(m[r][c], AxisNamed(captions.0).value) == 5 - r
         && RatingOn(m[r][c], AxisNamed(captions.1).value) == c + 1
  }

  /** The captions as drawn: "Impacto" beside the rows, "Probabilidad"
      under the columns. */
  function DrawnCaptions(): (c: (string, string))
    ensures c != Captions() && c == (Captions().1, Captions().0)
  {
    ("Impacto", "Probabilidad")
  }

  /** The drawn captions name the wrong axes: the top-left cell is
      likelihood 5 and impact 1, beside the row tick 5 captioned impact. */
  lemma DrawnCaptionsSwapped(risks: seq<Risk>, m: seq<seq<MatrixCell>>)
    requires IsMatrixOf(risks, m)
    ensures !CaptionsFit(m, DrawnCaptions())
    ensures m[0][0].likelihood == 5 && m[0][0].impact == 1
  {
    assert IsCellFor(risks, m[0][0], 5, 1);
  }

  /** The captions that match the layout. */
  function Captions(): (string, string)
  {
    ("Probabilidad", "Impacto")
  }

  lemma CaptionsMatchLayout(risks: seq<Risk>, m: seq<seq<MatrixCell>>)
    requires IsMatrixOf(risks, m)
    ensures CaptionsFit(m, Captions())
  {
  }

  // ---------------------------------------------------------------------------
  // Counting

  /** Sum of the counts of a row's cells. */
  function RowCounts(row: seq<MatrixCell>): nat
  {
    if row == [] then 0 else row[0].count + RowCounts(row[1..])
  }

  /** Sum of the counts of all cells. */
  function MatrixCounts(m: seq<seq<MatrixCell>>): nat
  {
    if m == [] then 0 else RowCounts(m[0]) + MatrixCounts(m[1..])
  }

  /** The records at likelihood `l` with an impact in [i, 5]. */
  function AlongRow(risks: seq<Risk>, l: int, i: int): nat
    requires i >= 1
    decreases 6 - i
  {
    if i > 5 then 0 else |RatedAt(risks, l, i)| + AlongRow(risks, l, i + 1)
  }

  /** The records with a likelihood in [1, l] and an impact in [1, 5]. */
  function UpToLikelihood(risks: seq<Risk>, l: int): nat
  {
    if l < 1 then 0 else AlongRow(risks, l, 1) + UpToLikelihood(risks, l - 1)
  }

  predicate InGrid(x: Risk)
  {
    1 <= x.likelihood <= 5 && 1 <= x.impact <= 5
  }

  lemma {:induction false} AlongRowStep(risks: seq<Risk>, l: int, i: int)
    requires risks != [] && i >= 1
    ensures AlongRow(risks, l, i)
         == (if risks[0].likelihood == l && i <= risks[0].impact <= 5 then 1 else 0) + AlongRow(risks[1..], l, i)
    decreases 6 - i
  {
    if i <= 5 {
      AlongRowStep(risks, l, i + 1);
    }
  }

  lemma {:induction false} UpToLikelihoodStep(risks: seq<Risk>, l: int)
    requires risks != []
    ensures UpToLikelihood(risks, l)
         == (if 1 <= risks[0].likelihood <= l && 1 <= risks[0].impact <= 5 then 1 else 0) + UpToLikelihood(risks[1..], l)
  {
    if l >= 1 {
      AlongRowStep(risks, l, 1);
      UpToLikelihoodStep(risks, l - 1);
    }
  }

  lemma {:induction false} EmptyGrid(l: int)
    ensures UpToLikelihood([], l) == 0
  {
    if l >= 1 {
      EmptyRow(l, 1);
      EmptyGrid(l - 1);
    }
  }

  lemma {:induction false} EmptyRow(l: int, i: int)
    requires i >= 1
    ensures AlongRow([], l, i) == 0
    decreases 6 - i
  {
    if i <= 5 {
      EmptyRow(l, i + 1);
    }
  }

  /** Every record rated inside the grid is counted once over all cells. */
  lemma {:induction false} GridCountsRated(risks: seq<Risk>)
    ensures UpToLikelihood(risks, 5) == |Keep(risks, InGrid)|
  {
    if risks == [] {
      EmptyGrid(5);
    } else {
      UpToLikelihoodStep(risks, 5);
      GridCountsRated(risks[1..]);
      assert Keep(risks, InGrid) == (if InGrid(risks[0]) then [risks[0]] else []) + Keep(risks[1..], InGrid);
    }
  }

  lemma {:induction false} RowCountsAlong(risks: seq<Risk>, row: seq<MatrixCell>, l: int, c: nat)
    requires |row| == 5 && c <= 5
    requires forall k :: 0 <= k < 5 ==> row[k].count == |RatedAt(risks, l, k + 1)|
    ensures RowCounts(row[c..]) == AlongRow(risks, l, c + 1)
    decreases 5 - c
  {
    if c < 5 {
      RowCountsAlong(risks, row, l, c + 1);
      assert row[c..][1..] == row[c + 1..];
    }
  }

  /** Rows whose cell counts are those of the likelihoods `top` down to 1. */
  predicate HasCounts(risks: seq<Risk>, rows: seq<seq<MatrixCell>>, top: int)
  {
    |rows| == top
    && (forall r :: 0 <= r < |rows| ==> |rows[r]| == 5)
    && forall r, c :: 0 <= r < |rows| && 0 <= c < 5 ==> rows[r][c].count == |RatedAt(risks, top - r, c + 1)|
  }

  lemma HasCountsRest(risks: seq<Risk>, rows: seq<seq<MatrixCell>>, top: int)
    requires HasCounts(risks, rows, top) && top > 0
    ensures HasCounts(risks, rows[1..], top - 1)
  {
    var rest: seq<seq<MatrixCell>> := rows[1..];
    forall r | 0 <= r < |rest| ensures |rest[r]| == 5 {
      assert rest[r] == rows[r + 1];
    }
    forall r, c | 0 <= r < |rest| && 0 <= c < 5
      ensures rest[r][c].count == |RatedAt(risks, top - 1 - r, c + 1)|
    {
      assert rest[r] == rows[r + 1];
      assert rows[r + 1][c].count == |RatedAt(risks, top - (r + 1), c + 1)|;
    }
  }

  lemma FirstRowCounts(risks: seq<Risk>, rows: seq<seq<MatrixCell>>, top: int)
    requires HasCounts(risks, rows, top) && top > 0
    ensures RowCounts(rows[0]) == AlongRow(risks, top, 1)
  {
    forall k | 0 <= k < 5 ensures rows[0][k].count == |RatedAt(risks, top, k + 1)| {
    }
    RowCountsAlong(risks, rows[0], top, 0);
    assert rows[0][0..] == rows[0];
  }

  lemma {:induction false} MatrixCountsUpTo(risks: seq<Risk>, rows: seq<seq<MatrixCell>>, top: nat)
    requires HasCounts(risks, rows, top)
    ensures MatrixCounts(rows) == UpToLikelihood(risks, top)
  {
    if top > 0 {
      FirstRowCounts(risks, rows, top);
      HasCountsRest(risks, rows, top);
      MatrixCountsUpTo(risks, rows[1..], top - 1);
    }
  }

  /** The counts of all 25 cells add up to the number of records whose
      likelihood and impact both lie in [1, 5]. */
  lemma CountsSumToRated(risks: seq<Risk>, m: seq<seq<MatrixCell>>)
    requires IsMatrixOf(risks, m)
    ensures MatrixCounts(m) == |Keep(risks, InGrid)|
  {
    assert HasCounts(risks, m, 5);
    MatrixCountsUpTo(risks, m, 5);
    GridCountsRated(risks);
  }

  // ---------------------------------------------------------------------------
  // The records the matrix is drawn from

  /** The request the matrix makes: every parameter left out but a page
      size of 1000. */
  function FetchAllQuery(): RawQuery
  {
    RawQuery(None, None, None, None, Absent, Finite(1000.0))
  }

  /** That request succeeds and is answered with the first 100 records, so
      the matrix and its tallies never see more than 100. */
  lemma FetchAllCapped(db: seq<Risk>)
    ensures ListGet(Up(db), FetchAllQuery()).ListOk?
    ensures |ListGet(Up(db), FetchAllQuery()).items| <= 100
    ensures ListGet(Up(db), FetchAllQuery()).pageSize == 100
  {
    assert ParseQuery(FetchAllQuery()).Valid?;
    ListGetRespondsToParse(Up(db), FetchAllQuery());
    LargePagesCapped(db, FetchAllQuery());
  }
}
