/**
 * The chart recommender (lib/visualization-analyzer.ts). `analyzeDataset` applies a fixed
 * table of rules to the declared column types, pushing at most one recommendation per
 * rule with priorities 10 down to 3, and sorts the list by priority; `getSmartChartData`
 * keeps every `step`-th row and names it "Item k".
 */
module VisualizationAnalyzer {
  import opened Options
  import opened Text
  import opened JsValues
  import opened Dataset
  import opened Sorting

  /** A declared column: its name and its type ("number", "string", ...). */
  datatype Column = Column(name: string, columnType: string)

  /** The chart types the recommenders use. */
  datatype Kind = Line | Area | Distribution | Scatter | Bar | Comparison | Radar | Pie
                | StackedBar | StackedArea

  /** The `type` string of each chart type. */
  function KindName(kind: Kind): string {
    match kind
    case Line => "line"
    case Area => "area"
    case Distribution => "distribution"
    case Scatter => "scatter"
    case Bar => "bar"
    case Comparison => "comparison"
    case Radar => "radar"
    case Pie => "pie"
    case StackedBar => "stacked-bar"
    case StackedArea => "stacked-area"
  }

  /** The title and description of a recommendation, by the rule that makes it; the texts
      are given by `Title` and `Description`. The first eight belong to `analyzeDataset`, the
      rest to the advanced visualizer's extra charts. */
  datatype Caption =
    | TimeSeriesTrend | CumulativeTrend | ValueDistribution | CorrelationAnalysis
    | CategoryComparison | MultiMetricComparison | MultiDimensionalView | CompositionBreakdown
    | TrendAnalysis(pair: seq<string>) | CumulativeView | CorrelationPlot(first: string, second: string)
    | MultiDimensionalComparison | DistributionOverview(category: string)
    | HorizontalDistribution | PairComparison(pair: seq<string>) | StackedBarChart
    | StackedAreaChart

  function Title(caption: Caption): string {
    match caption
    case TimeSeriesTrend => "Time Series Trend"
    case CumulativeTrend => "Cumulative Trend"
    case ValueDistribution => "Value Distribution"
    case CorrelationAnalysis => "Correlation Analysis"
    case CategoryComparison => "Category Comparison"
    case MultiMetricComparison => "Multi-Metric Comparison"
    case MultiDimensionalView => "Multi-Dimensional View"
    case CompositionBreakdown => "Composition Breakdown"
    case TrendAnalysis(_) => "Trend Analysis"
    case CumulativeView => "Cumulative View"
    case CorrelationPlot(_, _) => "Correlation Plot"
    case MultiDimensionalComparison => "Multi-dimensional Comparison"
    case DistributionOverview(_) => "Distribution Overview"
    case HorizontalDistribution => "Horizontal Distribution"
    case PairComparison(pair) => "Comparison: " + Join(pair, " vs ")
    case StackedBarChart => "Stacked Bar Chart"
    case StackedAreaChart => "Stacked Area Chart"
  }

  function Description(caption: Caption): string {
    match caption
    case TimeSeriesTrend => "Track numeric values over time"
    case CumulativeTrend => "Visualize cumulative changes over time"
    case ValueDistribution => "Analyze distribution of numeric values"
    case CorrelationAnalysis => "Find relationships between numeric columns"
    case CategoryComparison => "Compare values across categories"
    case MultiMetricComparison => "Compare multiple numeric metrics"
    case MultiDimensionalView => "Radar chart for comprehensive analysis"
    case CompositionBreakdown => "Show proportional distribution"
    case TrendAnalysis(pair) => "Track changes across " + Join(pair, " and ")
    case CumulativeView => "Visualize cumulative patterns over time"
    case CorrelationPlot(first, second) => "Explore relationship between " + first + " and " + second
    case MultiDimensionalComparison => "Compare multiple metrics simultaneously"
    case DistributionOverview(category) => "Breakdown by " + category
    case HorizontalDistribution => "Compare values side by side"
    case PairComparison(_) => "Side-by-side metric comparison"
    case StackedBarChart => "View cumulative totals"
    case StackedAreaChart => "Cumulative trend visualization"
  }

  /** `VisualizationRecommendation`: its `type` is `KindName(kind)`, its `title` and
      `description` are those of its caption. */
  datatype Recommendation = Recommendation(
    kind: Kind, caption: Caption, columns: seq<string>, priority: int)

  /** The sort key of `sort((a, b) => b.priority - a.priority)`. */
  function Priority(r: Recommendation): real {
    r.priority as real
  }

  /** `columns.filter(c => c.type === t).map(c => c.name)`. */
  function TypedNames(columns: seq<Column>, t: string): (names: seq<string>)
    ensures |names| <= |columns|
  {
    if |columns| == 0 then []
    else (if columns[0].columnType == t then [columns[0].name] else []) + TypedNames(columns[1..], t)
  }

  /** A name is listed iff some declared column of type `t` has it. */
  lemma {:induction false} TypedNamesAre(columns: seq<Column>, t: string, n: string)
    ensures n in TypedNames(columns, t) <==> exists c :: c in columns && c.columnType == t && c.name == n
  {
    if |columns| > 0 {
      TypedNamesAre(columns[1..], t, n);
      assert forall c :: c in columns <==> c == columns[0] || c in columns[1..];
    }
  }

  // ---------------------------------------------------------------- the date test

  /** `n` decimal digits from position `i`. */
  predicate DigitsAt(s: string, i: nat, n: nat) {
    i + n <= |s| && forall k :: i <= k < i + n ==> IsDigit(s[k])
  }

  /** `^\d{4}-\d{2}-\d{2}`. */
  predicate IsoDatePrefix(s: string) {
    |s| >= 10 && DigitsAt(s, 0, 4) && s[4] == '-' && DigitsAt(s, 5, 2) && s[7] == '-'
    && DigitsAt(s, 8, 2)
  }

  /** `^\d{4}-\d{2}-\d{2}T`. */
  predicate IsoDateTimePrefix(s: string) {
    IsoDatePrefix(s) && |s| >= 11 && s[10] == 'T'
  }

  /** `^\d{a}\/\d{b}\/\d{4}` for fixed digit counts `a` and `b`. */
  predicate SlashDateWith(s: string, a: nat, b: nat) {
    |s| >= a + b + 6 && DigitsAt(s, 0, a) && s[a] == '/' && DigitsAt(s, a + 1, b)
    && s[a + 1 + b] == '/' && DigitsAt(s, a + 2 + b, 4)
  }

  /** `^\d{1,2}\/\d{1,2}\/\d{4}`: one of the four digit-count choices matches. */
  predicate SlashDatePrefix(s: string) {
    SlashDateWith(s, 1, 1) || SlashDateWith(s, 1, 2) || SlashDateWith(s, 2, 1)
    || SlashDateWith(s, 2, 2)
  }

  /** The two date patterns of the route: an ISO or slashed date at the start, or "time",
      "date" or "timestamp" anywhere, ignoring ASCII case; or an ISO date-time at the start. */
  predicate DateLikeText(s: string) {
    || IsoDatePrefix(s) || SlashDatePrefix(s)
    || Contains(ToLower(s), "time") || Contains(ToLower(s), "date")
    || Contains(ToLower(s), "timestamp")
    || IsoDateTimePrefix(s)
  }

  /** The date test on `String(row[col])`. Only a string cell can match: `String` writes a
      number with digits, '.', '-', '+', 'e', "Infinity" or "NaN", never a '/' or '-' after four
      digits nor "time" or "date", and `null`/`undefined` become "null"/"undefined". */
  predicate DateLikeCell(c: Cell) {
    c.Str? && DateLikeText(c.s)
  }

  /** Some row's cell in the column is date-like. */
  predicate HasDateValue(data: seq<Row>, col: string) {
    exists i :: 0 <= i < |data| && DateLikeCell(CellOf(data[i], col))
  }

  /** `stringColumns.filter(col => data.some(...))`. */
  function DateColumns(data: seq<Row>, strings: seq<string>): (dates: seq<string>)
    ensures |dates| <= |strings|
  {
    if |strings| == 0 then []
    else
      (if HasDateValue(data, strings[0]) then [strings[0]] else [])
        + DateColumns(data, strings[1..])
  }

  /** A column is a date column iff it is a string column with a date-like value. */
  lemma {:induction false} DateColumnsAre(data: seq<Row>, strings: seq<string>, c: string)
    ensures c in DateColumns(data, strings) <==> c in strings && HasDateValue(data, c)
  {
    if |strings| > 0 {
      DateColumnsAre(data, strings[1..], c);
      assert c in strings <==> c == strings[0] || c in strings[1..];
    }
  }

  /** `new Set(data.map(row => row[col])).size`. */
  function DistinctValues(data: seq<Row>, col: string): nat {
    |set i | 0 <= i < |data| :: CellOf(data[i], col)|
  }

  // ---------------------------------------------------------------- the rules

  function LineRec(date: string, num: string): Recommendation {
    Recommendation(Line, TimeSeriesTrend, [date, num], 10)
  }

  function AreaRec(date: string, num: string): Recommendation {
    Recommendation(Area, CumulativeTrend, [date, num], 9)
  }

  function DistributionRec(num: string): Recommendation {
    Recommendation(Distribution, ValueDistribution, [num], 8)
  }

  function ScatterRec(first: string, second: string): Recommendation {
    Recommendation(Scatter, CorrelationAnalysis, [first, second], 7)
  }

  function BarRec(category: string, num: string): Recommendation {
    Recommendation(Bar, CategoryComparison, [category, num], 6)
  }

  function ComparisonRec(nums: seq<string>): Recommendation {
    Recommendation(Comparison, MultiMetricComparison, nums, 5)
  }

  function RadarRec(nums: seq<string>): Recommendation {
    Recommendation(Radar, MultiDimensionalView, nums, 4)
  }

  function PieRec(category: string, num: string): Recommendation {
    Recommendation(Pie, CompositionBreakdown, [category, num], 3)
  }

  /** `s.slice(0, n)`. */
  function Take<T>(s: seq<T>, n: nat): (r: seq<T>)
    ensures |r| == if n < |s| then n else |s|
    ensures r == s[..|r|]
  {
    if n < |s| then s[..n] else s
  }

  /** The pie rule's condition: a string column whose values, over all rows, take at most
      ten distinct values, and a numeric column. */
  predicate PieApplies(data: seq<Row>, strings: seq<string>, numeric: seq<string>) {
    |strings| > 0 && DistinctValues(data, strings[0]) <= 10 && |numeric| > 0
  }

  /** The time-series rule (priorities 10 and 9). */
  function TimeSeriesPart(dates: seq<string>, numeric: seq<string>): seq<Recommendation> {
    if |dates| > 0 && |numeric| > 0 then [LineRec(dates[0], numeric[0]), AreaRec(dates[0], numeric[0])]
    else []
  }

  /** The distribution rule (priority 8). */
  function DistributionPart(numeric: seq<string>): seq<Recommendation> {
    if |numeric| > 0 then [DistributionRec(numeric[0])] else []
  }

  /** The scatter rule, nested in the distribution rule (priority 7). */
  function ScatterPart(numeric: seq<string>): seq<Recommendation> {
    if |numeric| > 1 then [ScatterRec(numeric[0], numeric[1])] else []
  }

  /** The category rule (priority 6). */
  function CategoryPart(strings: seq<string>, numeric: seq<string>): seq<Recommendation> {
    if |strings| > 0 && |numeric| > 0 then [BarRec(strings[0], numeric[0])] else []
  }

  /** The multi-metric rule (priorities 5 and 4). */
  function MultiMetricPart(numeric: seq<string>): seq<Recommendation> {
    if |numeric| > 1 then [ComparisonRec(Take(numeric, 3)), RadarRec(Take(numeric, 3))] else []
  }

  /** The composition rule (priority 3), given whether its condition holds. */
  function CompositionPart(strings: seq<string>, numeric: seq<string>, applies: bool): seq<Recommendation> {
    if applies && |strings| > 0 && |numeric| > 0 then [PieRec(strings[0], numeric[0])] else []
  }

  /** The recommendations in the order the rules push them, given the numeric, string and
      date columns and whether the pie rule's condition holds. */
  function RulesOf(numeric: seq<string>, strings: seq<string>, dates: seq<string>, pie: bool)
    : seq<Recommendation>
  {
    TimeSeriesPart(dates, numeric) + DistributionPart(numeric) + ScatterPart(numeric)
    + CategoryPart(strings, numeric) + MultiMetricPart(numeric) + CompositionPart(strings, numeric, pie)
  }

  function Rules(data: seq<Row>, columns: seq<Column>): seq<Recommendation> {
    var numeric := TypedNames(columns, "number");
    var strings := TypedNames(columns, "string");
    RulesOf(numeric, strings, DateColumns(data, strings), PieApplies(data, strings, numeric))
  }

  /** `analyzeDataset`: the rules push in priority order, so the final sort keeps that order. */
  method AnalyzeDataset(data: seq<Row>, columns: seq<Column>)
    returns (recommendations: seq<Recommendation>)
    ensures recommendations == Rules(data, columns)
    ensures SortedDesc(recommendations, Priority)
  {
    var numeric := TypedNames(columns, "number");
    var strings := TypedNames(columns, "string");
    var dates := DateColumns(data, strings);
    recommendations := [];
    if |dates| > 0 && |numeric| > 0 {
      recommendations := recommendations + [LineRec(dates[0], numeric[0])];
      recommendations := recommendations + [AreaRec(dates[0], numeric[0])];
    }
    assert recommendations == TimeSeriesPart(dates, numeric);
    ghost var pushed := recommendations;
    if |numeric| > 0 {
      recommendations := recommendations + [DistributionRec(numeric[0])];
      assert recommendations == pushed + DistributionPart(numeric);
      pushed := recommendations;
      if |numeric| > 1 {
        recommendations := recommendations + [ScatterRec(numeric[0], numeric[1])];
      }
      assert recommendations == pushed + ScatterPart(numeric);
    }
    assert recommendations
        == TimeSeriesPart(dates, numeric) + DistributionPart(numeric) + ScatterPart(numeric);
    pushed := recommendations;
    if |strings| > 0 && |numeric| > 0 {
      recommendations := recommendations + [BarRec(strings[0], numeric[0])];
    }
    assert recommendations == pushed + CategoryPart(strings, numeric);
    pushed := recommendations;
    if |numeric| > 1 {
      recommendations := recommendations + [ComparisonRec(Take(numeric, 3))];
      recommendations := recommendations + [RadarRec(Take(numeric, 3))];
    }
    assert recommendations == pushed + MultiMetricPart(numeric);
    pushed := recommendations;
    ghost var pie := PieApplies(data, strings, numeric);
    if |strings| > 0 {
      var uniqueValues := DistinctValues(data, strings[0]);
      if uniqueValues <= 10 && |numeric| > 0 {
        recommendations := recommendations + [PieRec(strings[0], numeric[0])];
      }
    }
    assert recommendations == pushed + CompositionPart(strings, numeric, pie);
    RulesOrdered(numeric, strings, dates, pie);
    SortByOfSorted(recommendations, Priority);
    recommendations := SortBy(recommendations, Priority);
  }

  // ---------------------------------------------------------------- properties

  /** The kind each priority belongs to. */
  function KindOf(priority: int): Kind {
    if priority == 10 then Line else if priority == 9 then Area
    else if priority == 8 then Distribution else if priority == 7 then Scatter
    else if priority == 6 then Bar else if priority == 5 then Comparison
    else if priority == 4 then Radar else Pie
  }

  /** Priorities strictly decrease from each entry to the next and lie in `lo..hi`, and each
      entry's kind is the kind of its priority. */
  predicate Band(recs: seq<Recommendation>, lo: int, hi: int) {
    && (forall i :: 0 <= i < |recs| - 1 ==> recs[i].priority > recs[i + 1].priority)
    && (forall r :: r in recs ==> lo <= r.priority <= hi && r.kind == KindOf(r.priority))
  }

  /** Two bands, the first above the second, make one. */
  lemma BandJoin(a: seq<Recommendation>, b: seq<Recommendation>, lo: int, mid: int, hi: int)
    requires lo <= mid <= hi && Band(a, mid + 1, hi) && Band(b, lo, mid)
    ensures Band(a + b, lo, hi)
  {
    var ab := a + b;
    forall i | 0 <= i < |ab| - 1 ensures ab[i].priority > ab[i + 1].priority {
      if i < |a| - 1 {
        assert ab[i] == a[i] && ab[i + 1] == a[i + 1];
      } else if i == |a| - 1 {
        assert ab[i] == a[i] && ab[i + 1] == b[0];
        assert a[i] in a && b[0] in b;
      } else {
        assert ab[i] == b[i - |a|] && ab[i + 1] == b[i + 1 - |a|];
      }
    }
    forall r | r in ab ensures lo <= r.priority <= hi && r.kind == KindOf(r.priority) {
      var i :| 0 <= i < |ab| && ab[i] == r;
      if i < |a| {
        assert a[i] in a;
      } else {
        assert b[i - |a|] in b;
      }
    }
  }

  lemma TimeSeriesPartBand(dates: seq<string>, numeric: seq<string>)
    ensures Band(TimeSeriesPart(dates, numeric), 9, 10)
  {
  }

  lemma SingleBand(r: Recommendation)
    requires r.kind == KindOf(r.priority)
    ensures Band([r], r.priority, r.priority)
  {
  }

  lemma MultiMetricPartBand(numeric: seq<string>)
    ensures Band(MultiMetricPart(numeric), 4, 5)
  {
  }

  /** The rules that push at most one recommendation each hold their own priority. */
  lemma SinglePartsBand(numeric: seq<string>, strings: seq<string>, pie: bool)
    ensures Band(DistributionPart(numeric), 8, 8) && Band(ScatterPart(numeric), 7, 7)
    ensures Band(CategoryPart(strings, numeric), 6, 6) && Band(CompositionPart(strings, numeric, pie), 3, 3)
  {
    if |numeric| > 0 {
      SingleBand(DistributionRec(numeric[0]));
    }
    if |numeric| > 1 {
      SingleBand(ScatterRec(numeric[0], numeric[1]));
    }
    if |strings| > 0 && |numeric| > 0 {
      SingleBand(BarRec(strings[0], numeric[0]));
    }
    if pie && |strings| > 0 && |numeric| > 0 {
      SingleBand(PieRec(strings[0], numeric[0]));
    }
  }

  /** The pushed list is one band 3..10. */
  lemma RulesBand(numeric: seq<string>, strings: seq<string>, dates: seq<string>, pie: bool)
    ensures Band(RulesOf(numeric, strings, dates, pie), 3, 10)
  {
    var s1 := TimeSeriesPart(dates, numeric);
    var d, sc, c, m, co := DistributionPart(numeric), ScatterPart(numeric), CategoryPart(strings, numeric),
                           MultiMetricPart(numeric), CompositionPart(strings, numeric, pie);
    TimeSeriesPartBand(dates, numeric);
    SinglePartsBand(numeric, strings, pie);
    MultiMetricPartBand(numeric);
    BandJoin(s1, d, 8, 8, 10);
    BandJoin(s1 + d, sc, 7, 7, 10);
    BandJoin(s1 + d + sc, c, 6, 6, 10);
    BandJoin(s1 + d + sc + c, m, 4, 5, 10);
    BandJoin(s1 + d + sc + c + m, co, 3, 3, 10);
  }

  /** Priorities strictly decrease along the list and lie in 3..10, each with its own kind:
      the list is sorted, no rule fires twice, no kind repeats and there are at most eight
      entries. */
  lemma RulesOrdered(numeric: seq<string>, strings: seq<string>, dates: seq<string>, pie: bool)
    ensures var recs := RulesOf(numeric, strings, dates, pie);
            && |recs| <= 8
            && (forall i, j :: 0 <= i < j < |recs| ==> recs[i].priority > recs[j].priority)
            && (forall i, j :: 0 <= i < j < |recs| ==> recs[i].kind != recs[j].kind)
            && (forall i :: 0 <= i < |recs| ==>
                  3 <= recs[i].priority <= 10 && recs[i].kind == KindOf(recs[i].priority))
            && SortedDesc(recs, Priority)
  {
    var recs := RulesOf(numeric, strings, dates, pie);
    RulesBand(numeric, strings, dates, pie);
    BandBounded(recs);
  }

  /** At most eight recommendations. */
  lemma RulesAtMostEight(data: seq<Row>, columns: seq<Column>)
    ensures |Rules(data, columns)| <= 8
  {
    var numeric := TypedNames(columns, "number");
    var strings := TypedNames(columns, "string");
    RulesOrdered(numeric, strings, DateColumns(data, strings), PieApplies(data, strings, numeric));
  }

  /** A band within 3..10 has at most eight entries and no repeated kind, and is sorted. */
  lemma BandBounded(recs: seq<Recommendation>)
    requires Band(recs, 3, 10)
    ensures |recs| <= 8
    ensures forall i, j :: 0 <= i < j < |recs| ==> recs[i].priority > recs[j].priority
    ensures forall i, j :: 0 <= i < j < |recs| ==> recs[i].kind != recs[j].kind
    ensures forall i :: 0 <= i < |recs| ==>
              3 <= recs[i].priority <= 10 && recs[i].kind == KindOf(recs[i].priority)
    ensures SortedDesc(recs, Priority)
  {
    forall i | 0 <= i < |recs|
      ensures 3 <= recs[i].priority <= 10 && recs[i].kind == KindOf(recs[i].priority)
    {
      assert recs[i] in recs;
    }
    StrictlyDecreasing(recs);
    if |recs| > 8 {
      PriorityGap(recs, 8);
    }
    forall i, j | 0 <= i < j < |recs| ensures recs[i].kind != recs[j].kind {
      KindsDiffer(recs[i].priority, recs[j].priority);
    }
  }

  lemma {:induction false} PriorityGap(recs: seq<Recommendation>, n: nat)
    requires n < |recs|
    requires forall i :: 0 <= i < |recs| - 1 ==> recs[i].priority > recs[i + 1].priority
    ensures recs[0].priority - recs[n].priority >= n
  {
    if n > 0 {
      PriorityGap(recs, n - 1);
    }
  }

  lemma StrictlyDecreasing(recs: seq<Recommendation>)
    requires forall i :: 0 <= i < |recs| - 1 ==> recs[i].priority > recs[i + 1].priority
    ensures forall i, j :: 0 <= i < j < |recs| ==> recs[i].priority > recs[j].priority
  {
    forall i, j | 0 <= i < j < |recs| ensures recs[i].priority > recs[j].priority {
      DecreasingBetween(recs, i, j);
    }
  }

  lemma {:induction false} DecreasingBetween(recs: seq<Recommendation>, i: nat, j: nat)
    requires i < j < |recs|
    requires forall i :: 0 <= i < |recs| - 1 ==> recs[i].priority > recs[i + 1].priority
    ensures recs[i].priority > recs[j].priority
  {
    if j > i + 1 {
      DecreasingBetween(recs, i, j - 1);
    }
  }

  lemma KindsDiffer(p: int, q: int)
    requires 3 <= q < p <= 10
    ensures KindOf(p) != KindOf(q)
  {
  }

  /** Every rule needs a numeric column: without one nothing is recommended. */
  lemma NoNumericNoRules(data: seq<Row>, columns: seq<Column>)
    requires |TypedNames(columns, "number")| == 0
    ensures Rules(data, columns) == []
  {
  }

  /** Some entry has the kind. */
  predicate HasKind(recs: seq<Recommendation>, kind: Kind) {
    exists r :: r in recs && r.kind == kind
  }

  /** An element of six lists joined is in one of them. */
  lemma InSix<T>(x: T, a: seq<T>, b: seq<T>, c: seq<T>, d: seq<T>, e: seq<T>, f: seq<T>)
    ensures x in a + b + c + d + e + f <==> x in a || x in b || x in c || x in d || x in e || x in f
  {
  }

  lemma InTimeSeriesPart(dates: seq<string>, numeric: seq<string>, r: Recommendation)
    requires r in TimeSeriesPart(dates, numeric)
    ensures |dates| > 0 && |numeric| > 0 && (r.kind == Line || r.kind == Area)
    ensures r.columns == [dates[0], numeric[0]]
  {
  }

  lemma InDistributionPart(numeric: seq<string>, r: Recommendation)
    requires r in DistributionPart(numeric)
    ensures |numeric| > 0 && r.kind == Distribution && r.columns == [numeric[0]]
  {
  }

  lemma InScatterPart(numeric: seq<string>, r: Recommendation)
    requires r in ScatterPart(numeric)
    ensures |numeric| > 1 && r.kind == Scatter && r.columns == numeric[..2]
  {
    assert [numeric[0], numeric[1]] == numeric[..2];
  }

  lemma InCategoryPart(strings: seq<string>, numeric: seq<string>, r: Recommendation)
    requires r in CategoryPart(strings, numeric)
    ensures |strings| > 0 && |numeric| > 0 && r.kind == Bar
    ensures r.columns == [strings[0], numeric[0]]
  {
  }

  lemma InMultiMetricPart(numeric: seq<string>, r: Recommendation)
    requires r in MultiMetricPart(numeric)
    ensures |numeric| > 1 && (r.kind == Comparison || r.kind == Radar)
    ensures r.columns == Take(numeric, 3)
  {
  }

  lemma InCompositionPart(strings: seq<string>, numeric: seq<string>, pie: bool, r: Recommendation)
    requires r in CompositionPart(strings, numeric, pie)
    ensures pie && |strings| > 0 && |numeric| > 0 && r.kind == Pie
    ensures r.columns == [strings[0], numeric[0]]
  {
  }

  /** Each entry comes from the rule of its kind: the rule's condition held, and the entry
      charts the rule's columns. */
  lemma RuleKinds(numeric: seq<string>, strings: seq<string>, dates: seq<string>, pie: bool,
                  r: Recommendation)
    requires r in RulesOf(numeric, strings, dates, pie)
    ensures r.kind == Line || r.kind == Area ==>
              |dates| > 0 && |numeric| > 0 && r.columns == [dates[0], numeric[0]]
    ensures r.kind == Distribution ==> |numeric| > 0 && r.columns == [numeric[0]]
    ensures r.kind == Scatter ==> |numeric| > 1 && r.columns == numeric[..2]
    ensures r.kind == Bar ==> |strings| > 0 && |numeric| > 0 && r.columns == [strings[0], numeric[0]]
    ensures r.kind == Comparison || r.kind == Radar ==>
              |numeric| > 1 && r.columns == Take(numeric, 3)
    ensures r.kind == Pie ==>
              pie && |strings| > 0 && |numeric| > 0 && r.columns == [strings[0], numeric[0]]
    ensures r.kind != StackedBar && r.kind != StackedArea
  {
    var ts, d, sc, c, m, co := TimeSeriesPart(dates, numeric), DistributionPart(numeric), ScatterPart(numeric),
                               CategoryPart(strings, numeric), MultiMetricPart(numeric),
                               CompositionPart(strings, numeric, pie);
    InSix(r, ts, d, sc, c, m, co);
    if r in ts {
      InTimeSeriesPart(dates, numeric, r);
    } else if r in d {
      InDistributionPart(numeric, r);
    } else if r in sc {
      InScatterPart(numeric, r);
    } else if r in c {
      InCategoryPart(strings, numeric, r);
    } else if r in m {
      InMultiMetricPart(numeric, r);
    } else {
      InCompositionPart(strings, numeric, pie, r);
    }
  }

  /** Each rule whose condition holds contributes its entries. */
  lemma RulesFire(numeric: seq<string>, strings: seq<string>, dates: seq<string>, pie: bool)
    ensures var recs := RulesOf(numeric, strings, dates, pie);
            && (|dates| > 0 && |numeric| > 0 ==>
                  LineRec(dates[0], numeric[0]) in recs && AreaRec(dates[0], numeric[0]) in recs)
            && (|numeric| > 0 ==> DistributionRec(numeric[0]) in recs)
            && (|numeric| > 1 ==> ScatterRec(numeric[0], numeric[1]) in recs)
            && (|strings| > 0 && |numeric| > 0 ==> BarRec(strings[0], numeric[0]) in recs)
            && (|numeric| > 1 ==>
                  ComparisonRec(Take(numeric, 3)) in recs && RadarRec(Take(numeric, 3)) in recs)
            && (pie && |strings| > 0 && |numeric| > 0 ==> PieRec(strings[0], numeric[0]) in recs)
  {
    var ts, d, sc, c, m, co := TimeSeriesPart(dates, numeric), DistributionPart(numeric), ScatterPart(numeric),
                               CategoryPart(strings, numeric), MultiMetricPart(numeric),
                               CompositionPart(strings, numeric, pie);
    forall x | x in ts || x in d || x in sc || x in c || x in m || x in co
      ensures x in RulesOf(numeric, strings, dates, pie)
    {
      InSix(x, ts, d, sc, c, m, co);
    }
  }

  /** Line and area are recommended iff some string column has a date-like value and there is
      a numeric column; both chart the first such date column against the first numeric one. */
  lemma TimeSeriesRule(data: seq<Row>, columns: seq<Column>)
    ensures var recs := Rules(data, columns);
            var numeric := TypedNames(columns, "number");
            var dates := DateColumns(data, TypedNames(columns, "string"));
            && (HasKind(recs, Line) <==> |dates| > 0 && |numeric| > 0)
            && (HasKind(recs, Area) <==> |dates| > 0 && |numeric| > 0)
            && (forall r :: r in recs && (r.kind == Line || r.kind == Area) ==>
                  r.columns == [dates[0], numeric[0]]
                  && HasDateValue(data, dates[0])
                  && exists c :: c in columns && c.columnType == "string" && c.name == dates[0])
  {
    var numeric := TypedNames(columns, "number");
    var strings := TypedNames(columns, "string");
    var dates := DateColumns(data, strings);
    var pie := PieApplies(data, strings, numeric);
    var recs := RulesOf(numeric, strings, dates, pie);
    forall r | r in recs
      ensures r.kind == Line || r.kind == Area ==>
                |dates| > 0 && |numeric| > 0 && r.columns == [dates[0], numeric[0]]
    {
      RuleKinds(numeric, strings, dates, pie, r);
    }
    RulesFire(numeric, strings, dates, pie);
    if |dates| > 0 {
      DateColumnsAre(data, strings, dates[0]);
      TypedNamesAre(columns, "string", dates[0]);
    }
  }

  /** Scatter, comparison and radar are recommended iff there are two numeric columns; the
      scatter charts the first two, comparison and radar the first three at most. */
  lemma MultiNumericRules(data: seq<Row>, columns: seq<Column>)
    ensures var recs := Rules(data, columns);
            var numeric := TypedNames(columns, "number");
            && (HasKind(recs, Scatter) <==> |numeric| >= 2)
            && (HasKind(recs, Comparison) <==> |numeric| >= 2)
            && (HasKind(recs, Radar) <==> |numeric| >= 2)
            && (forall r :: r in recs && r.kind == Scatter ==> |numeric| >= 2 && r.columns == numeric[..2])
            && (forall r :: r in recs && (r.kind == Comparison || r.kind == Radar) ==>
                  2 <= |r.columns| <= 3 && |r.columns| <= |numeric| && r.columns == numeric[..|r.columns|])
  {
    var numeric := TypedNames(columns, "number");
    var strings := TypedNames(columns, "string");
    var dates := DateColumns(data, strings);
    var pie := PieApplies(data, strings, numeric);
    var recs := RulesOf(numeric, strings, dates, pie);
    forall r | r in recs
      ensures r.kind == Scatter ==> |numeric| > 1 && r.columns == numeric[..2]
      ensures r.kind == Comparison || r.kind == Radar ==>
                |numeric| > 1 && r.columns == Take(numeric, 3)
    {
      RuleKinds(numeric, strings, dates, pie, r);
    }
    RulesFire(numeric, strings, dates, pie);
  }

  /** Pie is recommended iff the first string column has at most ten distinct values over all
      rows and a numeric column exists. */
  lemma PieRule(data: seq<Row>, columns: seq<Column>)
    ensures var recs := Rules(data, columns);
            var numeric := TypedNames(columns, "number");
            var strings := TypedNames(columns, "string");
            && (HasKind(recs, Pie) <==>
                  |strings| > 0 && DistinctValues(data, strings[0]) <= 10 && |numeric| > 0)
            && (forall r :: r in recs && r.kind == Pie ==>
                  |strings| > 0 && |numeric| > 0 && r.columns == [strings[0], numeric[0]])
  {
    var numeric := TypedNames(columns, "number");
    var strings := TypedNames(columns, "string");
    var dates := DateColumns(data, strings);
    var pie := PieApplies(data, strings, numeric);
    var recs := RulesOf(numeric, strings, dates, pie);
    forall r | r in recs
      ensures r.kind == Pie ==>
                pie && |strings| > 0 && |numeric| > 0 && r.columns == [strings[0], numeric[0]]
    {
      RuleKinds(numeric, strings, dates, pie, r);
    }
    RulesFire(numeric, strings, dates, pie);
  }

  /** Every recommendation names at least one column, and only declared columns: numeric
      ones, and string ones where a category or date is charted. */
  lemma RulesNameDeclaredColumns(data: seq<Row>, columns: seq<Column>)
    ensures var recs := Rules(data, columns);
            forall r :: r in recs ==>
              && |r.columns| > 0
              && (forall c :: c in r.columns ==>
                    c in TypedNames(columns, "number") || c in TypedNames(columns, "string"))
  {
    var numeric := TypedNames(columns, "number");
    var strings := TypedNames(columns, "string");
    var dates := DateColumns(data, strings);
    var pie := PieApplies(data, strings, numeric);
    forall c | c in dates ensures c in strings {
      DateColumnsAre(data, strings, c);
    }
    RulesColumns(numeric, strings, dates, pie);
  }

  lemma RulesColumns(numeric: seq<string>, strings: seq<string>, dates: seq<string>, pie: bool)
    requires forall c :: c in dates ==> c in strings
    ensures forall r :: r in RulesOf(numeric, strings, dates, pie) ==>
              && |r.columns| > 0
              && (forall c :: c in r.columns ==> c in numeric || c in strings)
  {
    forall r | r in RulesOf(numeric, strings, dates, pie)
      ensures |r.columns| > 0 && (forall c :: c in r.columns ==> c in numeric || c in strings)
    {
      RuleKinds(numeric, strings, dates, pie, r);
      if r.kind == Line || r.kind == Area {
        assert dates[0] in dates;
      } else if r.kind == Comparison || r.kind == Radar {
        assert forall c :: c in Take(numeric, 3) ==> c in numeric;
      } else if r.kind == Scatter {
        assert forall c :: c in numeric[..2] ==> c in numeric;
      }
    }
  }

  // ---------------------------------------------------------------- chart data

  /** `Math.max(1, Math.floor(n / Math.min(n, 100)))` for a non-empty list. */
  function Step(n: nat): (step: nat)
    requires n > 0
    ensures step >= 1
  {
    var sampleSize := if n < 100 then n else 100;
    var q := n / sampleSize;
    if q > 1 then q else 1
  }

  /** The positions `idx` below `n` with `idx % step === 0`, in order. */
  function KeptIndices(n: nat, step: nat): (indices: seq<nat>)
    requires step >= 1
    ensures forall k :: 0 <= k < |indices| ==> indices[k] < n
  {
    if n == 0 then []
    else KeptIndices(n - 1, step) + (if (n - 1) % step == 0 then [n - 1] else [])
  }

  lemma MulMonotone(a: int, b: int, s: nat)
    requires a <= b
    ensures a * s <= b * s
  {
    assert b * s - a * s == (b - a) * s;
  }

  /** `(q * step + r) / step == q` and `(q * step + r) % step == r` for `r < step`. */
  lemma DivisionUnique(q: nat, r: nat, step: nat)
    requires step >= 1 && r < step
    ensures (q * step + r) / step == q && (q * step + r) % step == r
  {
    var x := q * step + r;
    var q', r' := x / step, x % step;
    assert x == q' * step + r';
    if q' > q {
      assert (q + 1) * step == q * step + step;
      MulMonotone(q + 1, q', step);
    } else if q' < q {
      assert (q' + 1) * step == q' * step + step;
      MulMonotone(q' + 1, q, step);
    }
  }

  /** The kept positions are the multiples of `step` below `n`: the `k`-th is `k * step`, and
      there are `ceil(n / step)` of them, the least count `c` with `n <= c * step`. */
  lemma {:induction false} KeptIndicesAre(n: nat, step: nat)
    requires step >= 1
    ensures var kept := KeptIndices(n, step);
            && (forall k :: 0 <= k < |kept| ==> kept[k] == k * step)
            && n <= |kept| * step
            && (|kept| > 0 ==> (|kept| - 1) * step < n)
  {
    if n > 0 {
      var m := n - 1;
      KeptIndicesAre(m, step);
      var c := |KeptIndices(m, step)|;
      if m % step == 0 {
        CountAtMultiple(m, step, c);
        assert (c + 1) * step == c * step + step;
      } else {
        CountAtNonMultiple(m, step, c);
      }
    }
  }

  /** A multiple of `step` that is at most `c * step` and above `(c - 1) * step` is `c * step`. */
  lemma CountAtMultiple(m: nat, step: nat, c: nat)
    requires step >= 1 && m % step == 0 && m <= c * step && (c > 0 ==> (c - 1) * step < m)
    ensures m == c * step
  {
    var q := m / step;
    DivisionUnique(q, 0, step);
    if c < q {
      assert (c + 1) * step == c * step + step;
      MulMonotone(c + 1, q, step);
    } else if c > q {
      MulMonotone(q, c - 1, step);
    }
  }

  /** A non-multiple of `step` that is at most `c * step` is below it. */
  lemma CountAtNonMultiple(m: nat, step: nat, c: nat)
    requires step >= 1 && m % step != 0 && m <= c * step
    ensures m < c * step
  {
    if m == c * step {
      DivisionUnique(c, 0, step);
    }
  }

  /** `{ name: "Item " + (k + 1), ...Object.fromEntries(columns.map(col => [col, row[col]])) }`:
      a later entry overwrites an earlier one with the same name, "name" included. */
  function ChartRow(row: Row, k: nat, columns: seq<string>): Row
  {
    if |columns| == 0 then map["name" := Str("Item " + NatToString(k + 1))]
    else
      var col := columns[|columns| - 1];
      ChartRow(row, k, columns[..|columns| - 1])[col := CellOf(row, col)]
  }

  /** `getSmartChartData`. */
  function SmartChartData(data: seq<Row>, columns: seq<string>): seq<Row>
  {
    if |data| == 0 then []
    else
      var kept := KeptIndices(|data|, Step(|data|));
      seq(|kept|, k requires 0 <= k < |kept| => ChartRow(data[kept[k]], k, columns))
  }

  /** A chart row holds "name" and the selected columns and nothing else; a selected column
      holds the row's cell (`undefined` when the row lacks it), and "name" holds "Item k+1"
      unless "name" is itself selected. */
  lemma {:induction false} ChartRowContents(row: Row, k: nat, columns: seq<string>)
    ensures var out := ChartRow(row, k, columns);
            && out.Keys == {"name"} + (set c | c in columns)
            && (forall c :: c in columns ==> out[c] == CellOf(row, c))
            && ("name" !in columns ==> out["name"] == Str("Item " + NatToString(k + 1)))
  {
    if |columns| > 0 {
      var init := columns[..|columns| - 1];
      ChartRowContents(row, k, init);
      assert columns == init + [columns[|columns| - 1]];
    }
  }

  /** The sample: output row `k` is built from input row `k * step`, and there are
      `ceil(n / step)` rows. */
  lemma ChartDataSampling(data: seq<Row>, columns: seq<string>)
    requires |data| > 0
    ensures var out := SmartChartData(data, columns);
            var step := Step(|data|);
            && |data| <= |out| * step && (|out| - 1) * step < |data|
            && (forall k :: 0 <= k < |out| ==>
                  k * step < |data| && out[k] == ChartRow(data[k * step], k, columns))
  {
    var step := Step(|data|);
    var kept := KeptIndices(|data|, step);
    KeptIndicesAre(|data|, step);
    var out := SmartChartData(data, columns);
    assert |out| == |kept|;
    forall k | 0 <= k < |out| ensures k * step < |data| && out[k] == ChartRow(data[k * step], k, columns) {
      assert kept[k] == k * step;
    }
  }

  /** With at most 100 input rows the step is 1, so every row is kept, in order. */
  lemma SmallDataKept(data: seq<Row>, columns: seq<string>)
    requires 0 < |data| <= 100
    ensures var out := SmartChartData(data, columns);
            && |out| == |data|
            && forall k :: 0 <= k < |out| ==> out[k] == ChartRow(data[k], k, columns)
  {
    var n := |data|;
    DivisionUnique(1, 0, n);
    assert Step(n) == 1;
    ChartDataSampling(data, columns);
  }
}
