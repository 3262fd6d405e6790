/**
 * The statistical analysis route (app/api/analysis/statistical/route.ts): descriptive
 * statistics of every numeric column. `Math.sqrt` is a parameter; the lemmas that need
 * it assume only that it is a square root on non-negative numbers.
 */
module Statistics {
  import opened Options
  import opened Sorting
  import opened Records
  import opened Dataset

  /** The record `calculateStats` returns. */
  datatype Stats = Stats(mean: real, median: real, stdDev: real, min: real, max: real,
                         range: real, variance: real)

  /** `sqrt` behaves as `Math.sqrt` on non-negative numbers: zero at zero, and the positive
      root of a positive number. */
  ghost predicate IsSqrt(sqrt: real -> real) {
    sqrt(0.0) == 0.0 && forall a :: a > 0.0 ==> sqrt(a) > 0.0 && sqrt(a) * sqrt(a) == a
  }

  /** `values.reduce((a, b) => a + b, 0)`. */
  function Sum(s: seq<real>): real {
    if |s| == 0 then 0.0 else s[0] + Sum(s[1..])
  }

  /** `values.reduce((sum, val) => sum + Math.pow(val - mean, 2), 0)`. */
  function SquaredDeviations(s: seq<real>, mean: real): (r: real)
    ensures r >= 0.0
  {
    if |s| == 0 then 0.0 else Square(s[0] - mean) + SquaredDeviations(s[1..], mean)
  }

  /** `Math.pow(x, 2)`. */
  function Square(x: real): (r: real)
    ensures r >= 0.0
  {
    if x >= 0.0 then x * x else (-x) * (-x)
  }

  lemma SquareIsProduct(x: real)
    ensures Square(x) == x * x
  {
  }

  lemma DivideNonNegative(total: real, n: real)
    requires n > 0.0 && total >= 0.0
    ensures total / n >= 0.0
  {
  }

  /** Dividing by a positive count keeps bounds that hold per element. */
  lemma DivideBounds(total: real, n: real, lo: real, hi: real)
    requires n > 0.0 && lo * n <= total <= hi * n
    ensures lo <= total / n <= hi
  {
  }

  /** `Math.min(...values)` of a non-empty list. */
  function MinOf(s: seq<real>): (m: real)
    requires |s| > 0
    ensures m in s && forall k :: 0 <= k < |s| ==> m <= s[k]
  {
    if |s| == 1 then s[0]
    else
      var rest := MinOf(s[1..]);
      assert forall k :: 1 <= k < |s| ==> s[k] == s[1..][k - 1];
      if s[0] <= rest then s[0] else rest
  }

  /** `Math.max(...values)` of a non-empty list. */
  function MaxOf(s: seq<real>): (m: real)
    requires |s| > 0
    ensures m in s && forall k :: 0 <= k < |s| ==> s[k] <= m
  {
    if |s| == 1 then s[0]
    else
      var rest := MaxOf(s[1..]);
      assert forall k :: 1 <= k < |s| ==> s[k] == s[1..][k - 1];
      if s[0] >= rest then s[0] else rest
  }

  /** The sum of a list lies between its length times any lower bound and times any upper bound. */
  lemma {:induction false} SumBounds(s: seq<real>, lo: real, hi: real)
    requires forall k :: 0 <= k < |s| ==> lo <= s[k] <= hi
    ensures lo * (|s| as real) <= Sum(s) <= hi * (|s| as real)
  {
    if |s| > 0 {
      SumBounds(s[1..], lo, hi);
      assert lo * (|s| as real) == lo + lo * ((|s| - 1) as real);
      assert hi * (|s| as real) == hi + hi * ((|s| - 1) as real);
    }
  }

  /** `values.reduce((a, b) => a + b, 0) / values.length`. */
  function Mean(values: seq<real>): (m: real)
    requires |values| > 0
    ensures m * (|values| as real) == Sum(values)
  {
    var n := |values| as real;
    DivideThenMultiply(Sum(values), n);
    Sum(values) / n
  }

  lemma DivideThenMultiply(a: real, n: real)
    requires n > 0.0
    ensures (a / n) * n == a
  {
  }

  /** The mean lies between the smallest and the largest value. */
  lemma {:induction false} MeanBounds(values: seq<real>)
    requires |values| > 0
    ensures MinOf(values) <= Mean(values) <= MaxOf(values)
  {
    var n := |values| as real;
    SumBounds(values, MinOf(values), MaxOf(values));
    DivideBounds(Sum(values), n, MinOf(values), MaxOf(values));
  }

  /** `sorted[Math.floor(sorted.length / 2)]` of the ascending copy. */
  function Median(values: seq<real>): (m: real)
    requires |values| > 0
    ensures m in values
    ensures MinOf(values) <= m <= MaxOf(values)
  {
    var sorted := SortAscending(values);
    var m := sorted[|sorted| / 2];
    assert m in multiset(sorted);
    m
  }

  /** The population variance: squared deviations from the mean, divided by `n`. */
  function Variance(values: seq<real>, mean: real): (v: real)
    requires |values| > 0
    ensures v >= 0.0
    ensures v * (|values| as real) == SquaredDeviations(values, mean)
  {
    DivideNonNegative(SquaredDeviations(values, mean), |values| as real);
    SquaredDeviations(values, mean) / (|values| as real)
  }

  /** `calculateStats(values)`. The only caller passes a non-empty list (see
      `NumericColumnHasValues`). The median is the element at index `n / 2` of the sorted
      copy: the upper of the two middle elements when `n` is even. */
  function CalculateStats(values: seq<real>, sqrt: real -> real): (r: Stats)
    requires |values| > 0
    ensures r.median in values && r.min in values && r.max in values
    ensures forall k :: 0 <= k < |values| ==> r.min <= values[k] <= r.max
    ensures r.min <= r.median <= r.max
    ensures r.range == r.max - r.min && r.range >= 0.0
    ensures r.min <= r.mean <= r.max
    ensures r.variance >= 0.0
  {
    var mean := Mean(values);
    MeanBounds(values);
    var variance := Variance(values, mean);
    var min := MinOf(values);
    var max := MaxOf(values);
    Stats(mean, Median(values), sqrt(variance), min, max, max - min, variance)
  }


  /** The standard deviation is the non-negative square root of the population variance. */
  lemma StdDevIsRootOfVariance(values: seq<real>, sqrt: real -> real)
    requires |values| > 0 && IsSqrt(sqrt)
    ensures var r := CalculateStats(values, sqrt);
            r.stdDev >= 0.0 && r.stdDev * r.stdDev == r.variance
  {
    RootOfNonNegative(sqrt, Variance(values, Mean(values)));
  }

  lemma RootOfNonNegative(sqrt: real -> real, v: real)
    requires IsSqrt(sqrt) && v >= 0.0
    ensures sqrt(v) >= 0.0 && sqrt(v) * sqrt(v) == v
  {
    if v == 0.0 {
      assert sqrt(v) == 0.0;
    }
  }

  /** The median of a list already in ascending order is its element at index `n / 2`. */
  lemma MedianOfSorted(s: seq<real>)
    requires |s| > 0 && SortedAsc(s)
    ensures Median(s) == s[|s| / 2]
  {
    SortAscendingOfSorted(s);
  }

  /** The smallest and largest values of a list in ascending order are at its ends. */
  lemma MinMaxOfSorted(s: seq<real>)
    requires |s| > 0 && SortedAsc(s)
    ensures MinOf(s) == s[0] && MaxOf(s) == s[|s| - 1]
  {
    var i :| 0 <= i < |s| && s[i] == MinOf(s);
    var j :| 0 <= j < |s| && s[j] == MaxOf(s);
  }

  /** `[1, 2, 3, 4, 5]` has mean 3, median 3, population variance 2 and range 4. */
  lemma FiveValues(s: seq<real>, sqrt: real -> real)
    requires s == [1.0, 2.0, 3.0, 4.0, 5.0]
    ensures var r := CalculateStats(s, sqrt);
            r.mean == 3.0 && r.median == 3.0 && r.variance == 2.0 && r.range == 4.0
            && r.min == 1.0 && r.max == 5.0
  {
    FiveValuesOrder(s);
    FiveValuesMean(s);
    FiveValuesVariance(s);
    StatsFields(s, sqrt);
  }

  lemma StatsFields(values: seq<real>, sqrt: real -> real)
    requires |values| > 0
    ensures var r := CalculateStats(values, sqrt);
            r.mean == Mean(values) && r.median == Median(values) && r.min == MinOf(values)
            && r.max == MaxOf(values) && r.variance == Variance(values, Mean(values))
  {
  }

  lemma FiveValuesOrder(s: seq<real>)
    requires s == [1.0, 2.0, 3.0, 4.0, 5.0]
    ensures Median(s) == 3.0 && MinOf(s) == 1.0 && MaxOf(s) == 5.0
  {
    FirstNaturalsOrder(s);
  }

  /** The list `1, 2, ..., n`, written without a sequence display. */
  lemma FirstNaturalsOrder(s: seq<real>)
    requires |s| > 0 && forall i :: 0 <= i < |s| ==> s[i] == (i + 1) as real
    ensures Median(s) == (|s| / 2 + 1) as real && MinOf(s) == 1.0 && MaxOf(s) == |s| as real
  {
    MedianOfSorted(s);
    MinMaxOfSorted(s);
  }

  lemma FiveValuesMean(s: seq<real>)
    requires s == [1.0, 2.0, 3.0, 4.0, 5.0]
    ensures Mean(s) == 3.0
  {
    var t1, t2, t3, t4 := [2.0, 3.0, 4.0, 5.0], [3.0, 4.0, 5.0], [4.0, 5.0], [5.0];
    assert s[1..] == t1 && t1[1..] == t2 && t2[1..] == t3 && t3[1..] == t4;
    assert Sum(s) == 15.0;
  }

  lemma FiveValuesVariance(s: seq<real>)
    requires s == [1.0, 2.0, 3.0, 4.0, 5.0]
    ensures Variance(s, 3.0) == 2.0
  {
    var t1, t2, t3, t4 := [2.0, 3.0, 4.0, 5.0], [3.0, 4.0, 5.0], [4.0, 5.0], [5.0];
    assert s[1..] == t1 && t1[1..] == t2 && t2[1..] == t3 && t3[1..] == t4;
    assert SquaredDeviations(s, 3.0) == 10.0;
  }

  /** For an even count the median is the upper middle element: `[1, 2, 3, 4]` gives 3. */
  lemma UpperMiddleMedian(s: seq<real>)
    requires s == [1.0, 2.0, 3.0, 4.0]
    ensures Median(s) == 3.0
  {
    assert s[0] == 1.0 && s[1] == 2.0 && s[2] == 3.0 && s[3] == 4.0;
    assert SortedAsc(s);
    MedianOfSorted(s);
  }

  /** The statistics of a column's numeric values, when it has any. */
  function StatsOf(data: seq<Row>, col: string, sqrt: real -> real): (r: Option<Stats>)
    ensures IsNumericColumn(data, col) ==> r.Some?
  {
    var values := NumericValues(data, col);
    assert IsNumericColumn(data, col) ==> |values| > 0 by {
      if IsNumericColumn(data, col) {
        NumericColumnHasValues(data, col);
      }
    }
    if |values| == 0 then None else Some(CalculateStats(values, sqrt))
  }

  /** The value the handler stores under each column. */
  function StatsFor(data: seq<Row>, sqrt: real -> real): string -> Option<Stats> {
    col => StatsOf(data, col, sqrt)
  }

  /** The record built by `stats[col] = calculateStats(values)` for each analysed column
      `col`, in order. */
  function AnalysedStats(data: seq<Row>, numeric: seq<string>, sqrt: real -> real): Record<Stats> {
    Assigned(numeric, |numeric|, ByKey(numeric, StatsFor(data, sqrt)))
  }

  /** Over columns that all pass the numeric test, the record holds each column once, at its
      first occurrence and in order, with the statistics of that column's values. */
  lemma StatsRecord(data: seq<Row>, numeric: seq<string>, sqrt: real -> real)
    requires forall c :: c in numeric ==> IsNumericColumn(data, c)
    ensures Tabulates(AnalysedStats(data, numeric, sqrt), numeric, |numeric|, StatsFor(data, sqrt))
    ensures Keys(AnalysedStats(data, numeric, sqrt)) == FirstOccurrences(numeric, |numeric|)
  {
    var visits := ByKey(numeric, StatsFor(data, sqrt));
    forall j | 0 <= j < |numeric| ensures StatsFor(data, sqrt)(numeric[j]).Some? && visits(j).Some? {
      assert IsNumericColumn(data, numeric[j]);
    }
    AssignedByKeyTabulates(numeric, |numeric|, StatsFor(data, sqrt));
    AssignedKeyOrder(numeric, |numeric|, visits);
  }

  /** The handler's loop: `stats[col] = calculateStats(values)` for every numeric column,
      in order; the result is the record those assignments build (`ColumnStatsKeys` says
      what it holds). */
  method ColumnStats(data: seq<Row>, columns: seq<string>, sqrt: real -> real)
    returns (stats: Record<Stats>)
    ensures stats == AnalysedStats(data, NumericColumns(data, columns), sqrt)
  {
    var numericColumns := NumericColumns(data, columns);
    ghost var visits := ByKey(numericColumns, StatsFor(data, sqrt));
    stats := [];
    for i := 0 to |numericColumns|
      invariant stats == Assigned(numericColumns, i, visits)
    {
      var col := numericColumns[i];
      StatsStep(data, columns, i, sqrt);
      var entry := StatsOf(data, col, sqrt).value;
      stats := Put(stats, col, entry);
    }
  }

  /** One turn of the loop stores the statistics of the next analysed column. */
  lemma StatsStep(data: seq<Row>, columns: seq<string>, i: nat, sqrt: real -> real)
    requires i < |NumericColumns(data, columns)|
    ensures var numeric := NumericColumns(data, columns);
            StatsOf(data, numeric[i], sqrt).Some?
    ensures var numeric := NumericColumns(data, columns);
            var visits := ByKey(numeric, StatsFor(data, sqrt));
            Assigned(numeric, i + 1, visits)
              == Put(Assigned(numeric, i, visits), numeric[i], StatsOf(data, numeric[i], sqrt).value)
  {
    var numeric := NumericColumns(data, columns);
    assert IsNumericColumn(data, numeric[i]);
    var visits := ByKey(numeric, StatsFor(data, sqrt));
    assert visits(i) == StatsOf(data, numeric[i], sqrt);
    AssignedPut(numeric, i, visits, StatsOf(data, numeric[i], sqrt).value);
  }

  /** The statistics record: its keys are exactly the analysed columns (a requested column
      iff it passes the numeric test), entered in the order they were first requested, a
      column requested twice stored once; each holds the statistics of its column's values.
      The response lists them in that order unless a column name is an array index. */
  lemma ColumnStatsKeys(data: seq<Row>, columns: seq<string>, sqrt: real -> real)
    ensures var stats := AnalysedStats(data, NumericColumns(data, columns), sqrt);
            && (forall col :: col in KeySet(stats) <==> col in columns && IsNumericColumn(data, col))
            && (forall col :: col in KeySet(stats) ==> Get(stats, col) == StatsOf(data, col, sqrt))
            && DistinctKeys(stats)
            && Keys(stats) == FirstOccurrences(NumericColumns(data, columns), |NumericColumns(data, columns)|)
            && ((forall col :: col in columns ==> !IsArrayIndex(col)) ==> OwnKeys(stats) == Keys(stats))
  {
    var numeric := NumericColumns(data, columns);
    StatsRecord(data, numeric, sqrt);
    ListedAll(numeric);
    var stats := AnalysedStats(data, numeric, sqrt);
    if forall col :: col in columns ==> !IsArrayIndex(col) {
      forall i | 0 <= i < |stats| ensures !IsArrayIndex(stats[i].key) {
        KeySetIndex(stats, stats[i].key);
      }
      OwnKeysOfNames(stats);
    }
  }
}
