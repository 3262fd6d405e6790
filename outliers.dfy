/**
 * The outlier route (app/api/analysis/outliers/route.ts): Tukey's fences around the
 * interquartile range of each requested column. The quartiles are read from a sorted copy
 * at the floor of a quarter and of three quarters of the length, with no interpolation.
 */
module Outliers {
  import opened Options
  import opened Records
  import opened Sorting
  import opened Dataset

  /** The multiplier of the interquartile range when none is given. */
  const DefaultThreshold: real := 1.5

  /** One entry of `outliers`: a position in the list of values, the value, and the flag. */
  datatype Point = Point(index: nat, value: real, isOutlier: bool)

  datatype Bounds = Bounds(lower: real, upper: real)

  /** The record `detectOutliers` returns. */
  datatype Detection = Detection(outliers: seq<Point>, bounds: Bounds, count: nat)

  /** `Math.floor(n * p)`, the index of a quartile. */
  function QuartileIndex(n: nat, p: real): (k: nat)
    requires 0.0 <= p < 1.0 && n > 0
    ensures k < n
    ensures k as real <= n as real * p < k as real + 1.0
  {
    ScaledBelow(n, p);
    (n as real * p).Floor
  }

  lemma ScaledBelow(n: nat, p: real)
    requires 0.0 <= p < 1.0 && n > 0
    ensures 0.0 <= n as real * p < n as real
  {
    var m := n as real;
    assert m * (1.0 - p) > 0.0;
    assert m * p == m - m * (1.0 - p);
  }

  /** Whether `v` lies strictly outside the fences; a value on a fence is not an outlier. */
  predicate Outside(v: real, b: Bounds) {
    v < b.lower || v > b.upper
  }

  /** `q1 - threshold * iqr` and `q3 + threshold * iqr`, from the sorted copy. */
  function Fences(values: seq<real>, threshold: real): (b: Bounds)
    requires |values| > 0
  {
    var sorted := SortAscending(values);
    var q1 := sorted[QuartileIndex(|sorted|, 0.25)];
    var q3 := sorted[QuartileIndex(|sorted|, 0.75)];
    var iqr := q3 - q1;
    Bounds(q1 - threshold * iqr, q3 + threshold * iqr)
  }

  /** `values.map((v, i) => ({ index: i, value: v, isOutlier: ... }))`. */
  function Points(values: seq<real>, b: Bounds): (points: seq<Point>)
    ensures |points| == |values|
    ensures forall i :: 0 <= i < |values| ==>
              points[i] == Point(i, values[i], Outside(values[i], b))
  {
    seq(|values|, i requires 0 <= i < |values| => Point(i, values[i], Outside(values[i], b)))
  }

  /** `values.filter(v => v < lowerBound || v > upperBound)`. */
  function OutsideValues(values: seq<real>, b: Bounds): (r: seq<real>)
    ensures |r| <= |values|
    ensures forall k :: 0 <= k < |r| ==> Outside(r[k], b)
  {
    if |values| == 0 then []
    else
      OutsideValues(values[..|values| - 1], b)
        + (if Outside(values[|values| - 1], b) then [values[|values| - 1]] else [])
  }

  /** `detectOutliers(values, threshold)`. The handler calls it only on a non-empty list. */
  function DetectOutliers(values: seq<real>, threshold: real): Detection
    requires |values| > 0
  {
    var b := Fences(values, threshold);
    Detection(Points(values, b), b, |OutsideValues(values, b)|)
  }

  /** The number of entries flagged as outliers. */
  function Flagged(points: seq<Point>): nat {
    if |points| == 0 then 0
    else Flagged(points[..|points| - 1]) + (if points[|points| - 1].isOutlier then 1 else 0)
  }

  /** Both quartile indices are inside the list, and the first is not after the second. */
  lemma QuartileIndices(n: nat)
    requires n > 0
    ensures QuartileIndex(n, 0.25) <= QuartileIndex(n, 0.75) < n
  {
    var i, j := QuartileIndex(n, 0.25), QuartileIndex(n, 0.75);
    assert i as real <= n as real * 0.75;
  }

  /** The fences surround the quartiles for any non-negative threshold: `lower <= q1 <= q3
      <= upper`, so the interquartile range is never negative. */
  lemma FencesAroundQuartiles(values: seq<real>, threshold: real)
    requires |values| > 0 && threshold >= 0.0
    ensures var sorted := SortAscending(values);
            var q1 := sorted[QuartileIndex(|values|, 0.25)];
            var q3 := sorted[QuartileIndex(|values|, 0.75)];
            var b := Fences(values, threshold);
            b.lower <= q1 <= q3 <= b.upper
  {
    var sorted := SortAscending(values);
    QuartileIndices(|values|);
    var q1 := sorted[QuartileIndex(|values|, 0.25)];
    var q3 := sorted[QuartileIndex(|values|, 0.75)];
    assert q1 <= q3;
    NonNegativeProduct(threshold, q3 - q1);
  }

  lemma NonNegativeProduct(u: real, v: real)
    requires u >= 0.0 && v >= 0.0
    ensures u * v >= 0.0
  {
  }

  /** The lower fence is never above the upper one (the threshold is non-negative). */
  lemma FencesOrdered(values: seq<real>, threshold: real)
    requires |values| > 0 && threshold >= 0.0
    ensures Fences(values, threshold).lower <= Fences(values, threshold).upper
  {
    FencesAroundQuartiles(values, threshold);
  }

  /** One entry per value, in input order: the index is the position in the list of values,
      and the flag holds exactly for a value strictly outside the fences. */
  lemma DetectionPoints(values: seq<real>, threshold: real, i: nat)
    requires |values| > 0 && i < |values|
    ensures var d := DetectOutliers(values, threshold);
            && |d.outliers| == |values|
            && d.outliers[i].index == i && d.outliers[i].value == values[i]
            && (d.outliers[i].isOutlier <==> values[i] < d.bounds.lower || values[i] > d.bounds.upper)
  {
  }

  /** `count` is the number of entries flagged in `outliers`. */
  lemma CountIsFlagged(values: seq<real>, threshold: real)
    requires |values| > 0
    ensures var d := DetectOutliers(values, threshold); d.count == Flagged(d.outliers)
  {
    var b := Fences(values, threshold);
    OutsideValuesFlagged(values, b);
  }

  lemma {:induction false} OutsideValuesFlagged(values: seq<real>, b: Bounds)
    ensures |OutsideValues(values, b)| == Flagged(Points(values, b))
  {
    if |values| > 0 {
      var n := |values|;
      var init := values[..n - 1];
      OutsideValuesFlagged(init, b);
      var points := Points(values, b);
      assert points[..n - 1] == Points(init, b);
    }
  }

  /** A value between the quartiles is never an outlier (the threshold is non-negative). */
  lemma InnerValuesKept(values: seq<real>, threshold: real, i: nat)
    requires |values| > 0 && threshold >= 0.0 && i < |values|
    requires var sorted := SortAscending(values);
             sorted[QuartileIndex(|values|, 0.25)] <= values[i] <= sorted[QuartileIndex(|values|, 0.75)]
    ensures !DetectOutliers(values, threshold).outliers[i].isOutlier
  {
    FencesAroundQuartiles(values, threshold);
  }

  /** `[1, 2, 3, 4, 5, 100]`: the quartiles are 2 and 5, the fences -2.5 and 9.5, and only
      100 is flagged. */
  lemma SixValues(values: seq<real>)
    requires |values| == 6 && values[5] == 100.0
    requires forall i :: 0 <= i < 5 ==> values[i] == (i + 1) as real
    ensures var d := DetectOutliers(values, DefaultThreshold);
            && d.bounds == Bounds(-2.5, 9.5)
            && d.count == 1
            && (forall i :: 0 <= i < 5 ==> !d.outliers[i].isOutlier)
            && d.outliers[5].isOutlier
  {
    var b := Bounds(-2.5, 9.5);
    SixValuesDetection(values);
    var points := Points(values, b);
    forall i | 0 <= i < 5 ensures !points[i].isOutlier {
      assert points[i] == Point(i, values[i], Outside(values[i], b));
    }
    assert points[5] == Point(5, 100.0, true);
  }

  lemma SixValuesDetection(values: seq<real>)
    requires |values| == 6 && values[5] == 100.0
    requires forall i :: 0 <= i < 5 ==> values[i] == (i + 1) as real
    ensures var b := Bounds(-2.5, 9.5);
            DetectOutliers(values, DefaultThreshold) == Detection(Points(values, b), b, 1)
  {
    assert values == [1.0, 2.0, 3.0, 4.0, 5.0, 100.0];
    SixValuesFences(values);
    SixValuesOutside(values, Bounds(-2.5, 9.5));
  }

  lemma SixValuesFences(values: seq<real>)
    requires values == [1.0, 2.0, 3.0, 4.0, 5.0, 100.0]
    ensures Fences(values, DefaultThreshold) == Bounds(-2.5, 9.5)
  {
    SixValuesSorted(values);
    SixQuartileIndices();
  }

  lemma SixValuesSorted(values: seq<real>)
    requires values == [1.0, 2.0, 3.0, 4.0, 5.0, 100.0]
    ensures SortAscending(values) == values
  {
    assert SortedAsc(values);
    SortAscendingOfSorted(values);
  }

  lemma SixQuartileIndices()
    ensures QuartileIndex(6, 0.25) == 1 && QuartileIndex(6, 0.75) == 4
  {
  }

  lemma SixValuesOutside(values: seq<real>, b: Bounds)
    requires values == [1.0, 2.0, 3.0, 4.0, 5.0, 100.0] && b == Bounds(-2.5, 9.5)
    ensures OutsideValues(values, b) == [100.0]
  {
    var init := values[..5];
    assert init == [1.0, 2.0, 3.0, 4.0, 5.0];
    NoneOutside(init, b);
    assert values[5] == 100.0;
  }

  /** No value outside the fences, nothing filtered in. */
  lemma {:induction false} NoneOutside(values: seq<real>, b: Bounds)
    requires forall i :: 0 <= i < |values| ==> !Outside(values[i], b)
    ensures OutsideValues(values, b) == []
  {
    if |values| > 0 {
      NoneOutside(values[..|values| - 1], b);
    }
  }

  /** What the handler stores under a column: the detection over its numeric values, when
      it has at least one. */
  function ColumnDetection(data: seq<Row>, col: string): Option<Detection> {
    var values := NumericValues(data, col);
    if |values| > 0 then Some(DetectOutliers(values, DefaultThreshold)) else None
  }

  /** The record the handler builds: each requested column, in order, assigned its detection
      when it has one. */
  function Analysis(data: seq<Row>, columns: seq<string>): Record<Detection> {
    Assigned(columns, |columns|, ByKey(columns, col => ColumnDetection(data, col)))
  }

  /** The handler's loop over the requested columns. */
  method OutlierAnalysis(data: seq<Row>, columns: seq<string>)
    returns (analysis: Record<Detection>)
    ensures analysis == Analysis(data, columns)
  {
    ghost var visits := ByKey(columns, col => ColumnDetection(data, col));
    analysis := [];
    for i := 0 to |columns|
      invariant analysis == Assigned(columns, i, visits)
    {
      var col := columns[i];
      var values := NumericValues(data, col);
      VisitOf(data, columns, i);
      if |values| > 0 {
        var detection := DetectOutliers(values, DefaultThreshold);
        AssignedPut(columns, i, visits, detection);
        analysis := Put(analysis, col, detection);
      } else {
        AssignedSkip(columns, i, visits);
      }
    }
  }

  lemma VisitOf(data: seq<Row>, columns: seq<string>, i: nat)
    requires i < |columns|
    ensures ByKey(columns, col => ColumnDetection(data, col))(i)
            == if |NumericValues(data, columns[i])| > 0
               then Some(DetectOutliers(NumericValues(data, columns[i]), DefaultThreshold))
               else None
  {
  }

  /** A column is in the result iff it was requested and at least one of its cells converts
      to a number (there is no numeric-column test, and `null` and `""` count as 0); it then
      holds the detection over those numbers. */
  lemma AnalysisColumns(data: seq<Row>, columns: seq<string>, col: string)
    ensures var analysis := Analysis(data, columns);
            && (col in KeySet(analysis) <==> col in columns && |NumericValues(data, col)| > 0)
            && (col in KeySet(analysis) ==>
                  Get(analysis, col) == Some(DetectOutliers(NumericValues(data, col), DefaultThreshold)))
  {
    AssignedByKey(columns, |columns|, c => ColumnDetection(data, c), col);
    ListedAll(columns);
  }
}
