/**
 * The data-quality route (app/api/data-quality/route.ts, `analyzeDataQuality`). The route
 * does not read the data: it draws a missing-value count per column, a duplicate count and
 * an outlier count per numeric column from `Math.random`, then derives recommendations and
 * a score from those counts. The draws are inputs here, one per call of `Math.random`, each
 * in [0, 1).
 */
module DataQuality {
  import opened Options
  import opened Text
  import opened Records

  /** An entry of `dataset.columns`: its name and its declared type. */
  datatype ColumnInfo = ColumnInfo(name: string, columnType: string)

  /** The dataset row the route reads: `columns` and `row_count`, either possibly missing. */
  datatype DatasetInfo = DatasetInfo(columns: Option<seq<ColumnInfo>>, rowCount: Option<nat>)

  /** The values `Math.random` returned: the first loop's draw for each column, the duplicate
      draw, and the second loop's draw for each column (used only for a numeric column). */
  datatype Draws = Draws(missing: seq<real>, duplicate: real, outliers: seq<real>)

  /** The record `analyzeDataQuality` returns. */
  datatype QualityReport = QualityReport(
    qualityScore: real,
    missingValues: Record<int>,
    duplicateRows: int,
    outliers: Record<int>,
    dataTypeIssues: Record<seq<string>>,
    recommendations: seq<string>)

  /** The three recommendations the route can make. */
  datatype Advice = HandleMissing | Deduplicate(count: nat) | ReviewOutliers

  const MissingAdvice: string := "Consider handling missing values through imputation or removal"
  const OutlierAdvice: string := "Detected outliers in numeric columns - review for data quality"

  /** `Found ${duplicateRows} duplicate rows - consider deduplication`. */
  function DuplicateAdvice(count: nat): string {
    "Found " + NatToString(count) + " duplicate rows - consider deduplication"
  }

  /** The text pushed for each recommendation. */
  function AdviceText(advice: Advice): string {
    match advice
    case HandleMissing => MissingAdvice
    case Deduplicate(count) => DuplicateAdvice(count)
    case ReviewOutliers => OutlierAdvice
  }

  function Texts(advice: seq<Advice>): (texts: seq<string>)
    ensures |texts| == |advice|
    ensures forall i :: 0 <= i < |advice| ==> texts[i] == AdviceText(advice[i])
  {
    if |advice| == 0 then [] else [AdviceText(advice[0])] + Texts(advice[1..])
  }

  /** `dataset.columns || []`. */
  function Columns(dataset: DatasetInfo): seq<ColumnInfo> {
    match dataset.columns
    case Some(columns) => columns
    case None => []
  }

  /** `dataset.row_count || 0`. */
  function RowCount(dataset: DatasetInfo): nat {
    match dataset.rowCount
    case Some(n) => n
    case None => 0
  }

  /** Every draw is a value `Math.random` can return, one per column in each loop. */
  predicate ValidDraws(draws: Draws, columnCount: nat) {
    && |draws.missing| == columnCount && |draws.outliers| == columnCount
    && 0.0 <= draws.duplicate < 1.0
    && (forall j :: 0 <= j < columnCount ==> 0.0 <= draws.missing[j] < 1.0)
    && (forall j :: 0 <= j < columnCount ==> 0.0 <= draws.outliers[j] < 1.0)
  }

  function Names(columns: seq<ColumnInfo>): (names: seq<string>)
    ensures |names| == |columns|
    ensures forall j :: 0 <= j < |columns| ==> names[j] == columns[j].name
  {
    seq(|columns|, j requires 0 <= j < |columns| => columns[j].name)
  }

  /** `Math.floor((missingPercent / 100) * rowCount)`. */
  function MissingCount(missingPercent: real, rowCount: nat): int {
    (missingPercent / 100.0 * rowCount as real).Floor
  }

  /** What the first loop writes for the column at position `j`: its count, unless the
      percentage drawn is 0. */
  function MissingVisit(columns: seq<ColumnInfo>, rowCount: nat, draws: Draws): nat -> Option<int> {
    (j: nat) =>
      if j < |columns| && j < |draws.missing| && draws.missing[j] * 20.0 > 0.0
      then Some(MissingCount(draws.missing[j] * 20.0, rowCount))
      else None
  }

  /** What the second loop writes for the column at position `j`: a count in 0..9 for a
      column whose type is exactly "numeric". */
  function OutlierVisit(columns: seq<ColumnInfo>, draws: Draws): nat -> Option<int> {
    (j: nat) =>
      if j < |columns| && j < |draws.outliers| && columns[j].columnType == "numeric"
      then Some((draws.outliers[j] * 10.0).Floor)
      else None
  }

  /** `Math.floor(rowCount * (Math.random() * 0.1))`. */
  function DuplicateRows(rowCount: nat, draw: real): int {
    (rowCount as real * (draw * 0.1)).Floor
  }

  /** `Object.values(r).reduce((a, b) => a + b, 0)`. */
  function Total(r: Record<int>): int {
    if |r| == 0 then 0 else r[0].value + Total(r[1..])
  }

  /** The recommendations made, each when its condition holds, in this order. */
  function Advices(missing: Record<int>, duplicates: int, outliers: Record<int>): seq<Advice> {
    (if |missing| > 0 then [HandleMissing] else [])
      + (if duplicates > 0 then [Deduplicate(duplicates as nat)] else [])
      + (if |outliers| > 0 then [ReviewOutliers] else [])
  }

  /** The texts pushed: those of the recommendations made. */
  function Recommendations(missing: Record<int>, duplicates: int, outliers: Record<int>)
    : seq<string>
  {
    Texts(Advices(missing, duplicates, outliers))
  }

  /** `Math.min(100, Math.max(0, 100 - missing * 0.1 - duplicates * 0.5 - outliers * 0.2))`. */
  function Score(missing: int, duplicates: int, outliers: int): (s: real)
    ensures 0.0 <= s <= 100.0
  {
    var raw := 100.0 - missing as real * 0.1 - duplicates as real * 0.5 - outliers as real * 0.2;
    var atLeastZero := if raw > 0.0 then raw else 0.0;
    if atLeastZero < 100.0 then atLeastZero else 100.0
  }

  /** The report for a dataset and the draws. */
  function Report(dataset: DatasetInfo, draws: Draws): QualityReport {
    var columns := Columns(dataset);
    var rowCount := RowCount(dataset);
    var missing := Assigned(Names(columns), |columns|, MissingVisit(columns, rowCount, draws));
    var duplicates := DuplicateRows(rowCount, draws.duplicate);
    var outliers := Assigned(Names(columns), |columns|, OutlierVisit(columns, draws));
    QualityReport(
      Score(Total(missing), duplicates, Total(outliers)),
      missing, duplicates, outliers, [],
      Recommendations(missing, duplicates, outliers))
  }

  /** `analyzeDataQuality`: two passes over the columns, the duplicate draw between them,
      then the recommendations and the score. */
  method AnalyzeDataQuality(dataset: DatasetInfo, draws: Draws) returns (report: QualityReport)
    requires |draws.missing| == |Columns(dataset)| && |draws.outliers| == |Columns(dataset)|
    ensures report == Report(dataset, draws)
  {
    var columns := Columns(dataset);
    var rowCount := RowCount(dataset);
    var missingValues := CountMissing(columns, rowCount, draws);
    var duplicateRows := DuplicateRows(rowCount, draws.duplicate);
    var outliers := CountOutliers(columns, draws);
    var recommendations := PushRecommendations(missingValues, duplicateRows, outliers);
    var qualityScore := Score(Total(missingValues), duplicateRows, Total(outliers));
    report := QualityReport(qualityScore, missingValues, duplicateRows, outliers, [],
                            recommendations);
  }

  /** The three `recommendations.push` calls, each under its condition. */
  method PushRecommendations(missingValues: Record<int>, duplicateRows: int, outliers: Record<int>)
    returns (recommendations: seq<string>)
    ensures recommendations == Recommendations(missingValues, duplicateRows, outliers)
  {
    recommendations := [];
    if |missingValues| > 0 {
      recommendations := recommendations + [MissingAdvice];
    }
    if duplicateRows > 0 {
      recommendations := recommendations + [DuplicateAdvice(duplicateRows as nat)];
    }
    if |outliers| > 0 {
      recommendations := recommendations + [OutlierAdvice];
    }
  }

  /** The first `forEach`: `missingValues[col.name] = ...` when the percentage drawn is
      above 0. */
  method CountMissing(columns: seq<ColumnInfo>, rowCount: nat, draws: Draws)
    returns (missingValues: Record<int>)
    requires |draws.missing| == |columns|
    ensures missingValues == Assigned(Names(columns), |columns|, MissingVisit(columns, rowCount, draws))
  {
    ghost var names := Names(columns);
    ghost var visits := MissingVisit(columns, rowCount, draws);
    missingValues := [];
    for j := 0 to |columns|
      invariant missingValues == Assigned(names, j, visits)
    {
      var missingPercent := draws.missing[j] * 20.0;
      MissingVisitAt(columns, rowCount, draws, j);
      if missingPercent > 0.0 {
        var count := MissingCount(missingPercent, rowCount);
        AssignedPut(names, j, visits, count);
        missingValues := Put(missingValues, columns[j].name, count);
      } else {
        AssignedSkip(names, j, visits);
      }
    }
  }

  /** The second `forEach`: `outliers[col.name] = Math.floor(Math.random() * 10)` for a column
      of type "numeric". */
  method CountOutliers(columns: seq<ColumnInfo>, draws: Draws) returns (outliers: Record<int>)
    requires |draws.outliers| == |columns|
    ensures outliers == Assigned(Names(columns), |columns|, OutlierVisit(columns, draws))
  {
    ghost var names := Names(columns);
    ghost var visits := OutlierVisit(columns, draws);
    outliers := [];
    for j := 0 to |columns|
      invariant outliers == Assigned(names, j, visits)
    {
      OutlierVisitAt(columns, draws, j);
      if columns[j].columnType == "numeric" {
        var count := (draws.outliers[j] * 10.0).Floor;
        AssignedPut(names, j, visits, count);
        outliers := Put(outliers, columns[j].name, count);
      } else {
        AssignedSkip(names, j, visits);
      }
    }
  }

  lemma MissingVisitAt(columns: seq<ColumnInfo>, rowCount: nat, draws: Draws, j: nat)
    requires j < |columns| == |draws.missing|
    ensures MissingVisit(columns, rowCount, draws)(j)
            == if draws.missing[j] * 20.0 > 0.0
               then Some(MissingCount(draws.missing[j] * 20.0, rowCount)) else None
  {
  }

  lemma OutlierVisitAt(columns: seq<ColumnInfo>, draws: Draws, j: nat)
    requires j < |columns| == |draws.outliers|
    ensures OutlierVisit(columns, draws)(j)
            == if columns[j].columnType == "numeric"
               then Some((draws.outliers[j] * 10.0).Floor) else None
  {
  }

  /** With non-negative counts the upper clamp never binds: the score is the unclamped value
      when that is not negative, and 0 otherwise. */
  lemma ScoreUnclamped(missing: int, duplicates: int, outliers: int)
    requires missing >= 0 && duplicates >= 0 && outliers >= 0
    ensures var raw := 100.0 - missing as real * 0.1 - duplicates as real * 0.5
                       - outliers as real * 0.2;
            && (raw >= 0.0 ==> Score(missing, duplicates, outliers) == raw)
            && (raw < 0.0 ==> Score(missing, duplicates, outliers) == 0.0)
  {
  }

  /** Two missing values, one duplicate row and three outliers score 98.7. */
  lemma ScoreExample()
    ensures Score(2, 1, 3) == 98.7
  {
  }

  /** The position of a recommendation in the fixed order. */
  function Rank(advice: Advice): nat {
    match advice
    case HandleMissing => 0
    case Deduplicate(_) => 1
    case ReviewOutliers => 2
  }

  /** The recommendations come in the fixed order missing, duplicates, outliers, each at most
      once: the missing and outlier advice whenever their record has a key (whatever the
      counts), the duplicate advice, carrying the count, whenever that count is positive. */
  lemma RecommendationRules(missing: Record<int>, duplicates: int, outliers: Record<int>)
    ensures var advice := Advices(missing, duplicates, outliers);
            && |advice| <= 3
            && (forall i, j :: 0 <= i < j < |advice| ==> Rank(advice[i]) < Rank(advice[j]))
            && (HandleMissing in advice <==> |missing| > 0)
            && (ReviewOutliers in advice <==> |outliers| > 0)
            && (forall n: nat :: Deduplicate(n) in advice <==> duplicates > 0 && n == duplicates)
  {
  }

  /** `floor(x)` for `0 <= x < bound` lies in `[0, bound)`. */
  lemma FloorBounds(x: real, bound: real)
    requires 0.0 <= x < bound
    ensures 0 <= x.Floor && (x.Floor as real) < bound
  {
  }

  lemma ProductBounds(u: real, v: real, uBound: real)
    requires 0.0 <= u <= uBound && v >= 0.0
    ensures 0.0 <= u * v <= uBound * v
  {
  }

  /** A count the first loop writes is `floor(p * rowCount)` with `0 < p < 0.2`. */
  lemma MissingVisitBounds(columns: seq<ColumnInfo>, rowCount: nat, draws: Draws, j: nat, count: int)
    requires j < |columns| == |draws.missing| && 0.0 <= draws.missing[j] < 1.0
    requires MissingVisit(columns, rowCount, draws)(j) == Some(count)
    ensures 0 <= count && count as real <= 0.2 * rowCount as real
  {
    MissingVisitAt(columns, rowCount, draws, j);
    var p := draws.missing[j] * 20.0;
    var x := p / 100.0;
    assert count == (x * rowCount as real).Floor;
    ProductBounds(x, rowCount as real, 0.2);
  }

  /** A count the second loop writes is `floor(10 * draw)`, in 0..9. */
  lemma OutlierVisitBounds(columns: seq<ColumnInfo>, draws: Draws, j: nat, count: int)
    requires j < |columns| == |draws.outliers| && 0.0 <= draws.outliers[j] < 1.0
    requires OutlierVisit(columns, draws)(j) == Some(count)
    ensures 0 <= count <= 9
  {
    OutlierVisitAt(columns, draws, j);
    FloorBounds(draws.outliers[j] * 10.0, 10.0);
  }

  /** Each missing count is at least 0 and at most a fifth of the row count, so never above
      the row count. */
  lemma MissingCountBounds(dataset: DatasetInfo, draws: Draws, col: string)
    requires ValidDraws(draws, |Columns(dataset)|)
    requires Get(Report(dataset, draws).missingValues, col).Some?
    ensures var count := Get(Report(dataset, draws).missingValues, col).value;
            var rowCount := RowCount(dataset) as real;
            0 <= count && count as real <= 0.2 * rowCount && count as real <= rowCount
  {
    var columns := Columns(dataset);
    var rowCount := RowCount(dataset);
    var visits := MissingVisit(columns, rowCount, draws);
    var missing := Assigned(Names(columns), |columns|, visits);
    assert Report(dataset, draws).missingValues == missing;
    AssignedValue(Names(columns), |columns|, visits, col);
    var j :| 0 <= j < |columns| && Names(columns)[j] == col && visits(j) == Get(missing, col);
    MissingVisitBounds(columns, rowCount, draws, j, Get(missing, col).value);
  }

  /** Each outlier count is in 0..9. */
  lemma OutlierCountBounds(dataset: DatasetInfo, draws: Draws, col: string)
    requires ValidDraws(draws, |Columns(dataset)|)
    requires Get(Report(dataset, draws).outliers, col).Some?
    ensures 0 <= Get(Report(dataset, draws).outliers, col).value <= 9
  {
    var columns := Columns(dataset);
    var visits := OutlierVisit(columns, draws);
    var outliers := Assigned(Names(columns), |columns|, visits);
    assert Report(dataset, draws).outliers == outliers;
    AssignedValue(Names(columns), |columns|, visits, col);
    var j :| 0 <= j < |columns| && Names(columns)[j] == col && visits(j) == Get(outliers, col);
    OutlierVisitBounds(columns, draws, j, Get(outliers, col).value);
  }

  /** The duplicate count is at least 0 and below a tenth of the row count plus one. */
  lemma DuplicateBounds(rowCount: nat, draw: real)
    requires 0.0 <= draw < 1.0
    ensures var d := DuplicateRows(rowCount, draw);
            0 <= d && d as real <= 0.1 * rowCount as real
  {
    var x := draw * 0.1;
    var y := rowCount as real * x;
    ProductBounds(x, rowCount as real, 0.1);
    assert y == x * rowCount as real;
    assert 0.0 <= y <= 0.1 * rowCount as real;
    assert DuplicateRows(rowCount, draw) == y.Floor;
    assert y.Floor as real <= y < y.Floor as real + 1.0;
  }

  /** A column has a missing count iff its percentage drawn is above 0 (its declared type
      does not matter). */
  lemma MissingKeys(dataset: DatasetInfo, draws: Draws, col: string)
    requires |draws.missing| == |Columns(dataset)|
    ensures var columns := Columns(dataset);
            col in KeySet(Report(dataset, draws).missingValues)
            <==> exists j :: 0 <= j < |columns| && columns[j].name == col && draws.missing[j] > 0.0
  {
    var columns := Columns(dataset);
    var visits := MissingVisit(columns, RowCount(dataset), draws);
    assert Report(dataset, draws).missingValues == Assigned(Names(columns), |columns|, visits);
    AssignedKeySet(Names(columns), |columns|, visits, col);
    forall j | 0 <= j < |columns|
      ensures (Names(columns)[j] == col && visits(j).Some?)
              <==> (columns[j].name == col && draws.missing[j] > 0.0)
    {
      MissingVisitAt(columns, RowCount(dataset), draws, j);
    }
  }

  /** A column has an outlier count iff its declared type is exactly "numeric". */
  lemma OutlierKeys(dataset: DatasetInfo, draws: Draws, col: string)
    requires |draws.outliers| == |Columns(dataset)|
    ensures var columns := Columns(dataset);
            col in KeySet(Report(dataset, draws).outliers)
            <==> exists j :: 0 <= j < |columns| && columns[j].name == col
                             && columns[j].columnType == "numeric"
  {
    var columns := Columns(dataset);
    var visits := OutlierVisit(columns, draws);
    assert Report(dataset, draws).outliers == Assigned(Names(columns), |columns|, visits);
    AssignedKeySet(Names(columns), |columns|, visits, col);
    forall j | 0 <= j < |columns|
      ensures (Names(columns)[j] == col && visits(j).Some?)
              <==> (columns[j].name == col && columns[j].columnType == "numeric")
    {
      OutlierVisitAt(columns, draws, j);
    }
  }

  /** Every value of the record is at least 0. */
  predicate NonNegativeValues(r: Record<int>) {
    forall i :: 0 <= i < |r| ==> r[i].value >= 0
  }

  lemma {:induction false} TotalNonNegative(r: Record<int>)
    requires NonNegativeValues(r)
    ensures Total(r) >= 0
  {
    if |r| > 0 {
      TotalNonNegative(r[1..]);
    }
  }

  lemma ReportCountsNonNegative(dataset: DatasetInfo, draws: Draws)
    requires ValidDraws(draws, |Columns(dataset)|)
    ensures NonNegativeValues(Report(dataset, draws).missingValues)
    ensures NonNegativeValues(Report(dataset, draws).outliers)
    ensures Report(dataset, draws).duplicateRows >= 0
  {
    var columns := Columns(dataset);
    var rowCount := RowCount(dataset);
    var names := Names(columns);
    var missingVisits := MissingVisit(columns, rowCount, draws);
    var outlierVisits := OutlierVisit(columns, draws);
    var missing := Assigned(names, |columns|, missingVisits);
    var outliers := Assigned(names, |columns|, outlierVisits);
    forall i | 0 <= i < |missing| ensures missing[i].value >= 0 {
      AssignedEntry(names, |columns|, missingVisits, i);
      var j :| 0 <= j < |columns| && missingVisits(j) == Some(missing[i].value);
      MissingVisitBounds(columns, rowCount, draws, j, missing[i].value);
    }
    forall i | 0 <= i < |outliers| ensures outliers[i].value >= 0 {
      AssignedEntry(names, |columns|, outlierVisits, i);
      var j :| 0 <= j < |columns| && outlierVisits(j) == Some(outliers[i].value);
      OutlierVisitBounds(columns, draws, j, outliers[i].value);
    }
    DuplicateBounds(rowCount, draws.duplicate);
  }

  /** The score is 100 exactly when nothing is counted: no missing values, no duplicate rows
      and no outliers. */
  lemma ScorePerfect(missing: int, duplicates: int, outliers: int)
    requires missing >= 0 && duplicates >= 0 && outliers >= 0
    ensures Score(missing, duplicates, outliers) == 100.0
            <==> missing == 0 && duplicates == 0 && outliers == 0
  {
    ScoreUnclamped(missing, duplicates, outliers);
  }

  /** The reported score is `100 - 0.1 * missing - 0.5 * duplicates - 0.2 * outliers` over
      the totals, or 0 when that is negative; it is 100 only for a report with nothing
      counted. */
  lemma ReportScore(dataset: DatasetInfo, draws: Draws)
    requires ValidDraws(draws, |Columns(dataset)|)
    ensures var r := Report(dataset, draws);
            var m, d, o := Total(r.missingValues), r.duplicateRows, Total(r.outliers);
            var raw := 100.0 - m as real * 0.1 - d as real * 0.5 - o as real * 0.2;
            && m >= 0 && d >= 0 && o >= 0
            && r.qualityScore == (if raw >= 0.0 then raw else 0.0)
            && (r.qualityScore == 100.0 <==> m == 0 && d == 0 && o == 0)
  {
    var r := Report(dataset, draws);
    ReportCountsNonNegative(dataset, draws);
    TotalNonNegative(r.missingValues);
    TotalNonNegative(r.outliers);
    ScoreUnclamped(Total(r.missingValues), r.duplicateRows, Total(r.outliers));
    ScorePerfect(Total(r.missingValues), r.duplicateRows, Total(r.outliers));
  }
}
