/**
 * The second-stage ranking of the advanced visualizer (components/analysis/advanced-visualizer.tsx):
 * the recommendations of `analyzeDataset` followed by extra charts with priorities 50 to 80,
 * cut to the first fifteen, sorted by priority, and split into the top three and the rest;
 * the first of the top three is selected initially.
 */
module AdvancedVisualizer {
  import opened Options
  import opened Dataset
  import opened Sorting
  import opened VisualizationAnalyzer

  // ---------------------------------------------------------------- the extra charts

  /** The first three are the trend, cumulative and correlation charts: they need two numeric
      columns. */
  function TrendRec(numeric: seq<string>): Recommendation {
    Recommendation(Line, TrendAnalysis(Take(numeric, 2)), Take(numeric, 2), 75)
  }

  function CumulativeRec(numeric: seq<string>): Recommendation {
    Recommendation(Area, CumulativeView, Take(numeric, 2), 70)
  }

  /** `numericColumns[1] || numericColumns[0]`: an empty name is falsy. */
  function SecondName(numeric: seq<string>): string
    requires |numeric| >= 2
  {
    if numeric[1] != "" then numeric[1] else numeric[0]
  }

  function CorrelationPlotRec(numeric: seq<string>): Recommendation
    requires |numeric| >= 2
  {
    Recommendation(Scatter, CorrelationPlot(numeric[0], SecondName(numeric)), Take(numeric, 2), 80)
  }

  function RadarExtraRec(numeric: seq<string>): Recommendation {
    Recommendation(Radar, MultiDimensionalComparison, Take(numeric, 5), 65)
  }

  /** The category charts: both chart only the first numeric column. */
  function OverviewRec(strings: seq<string>, numeric: seq<string>): Recommendation
    requires |strings| > 0 && |numeric| > 0
  {
    Recommendation(Pie, DistributionOverview(strings[0]), [numeric[0]], 72)
  }

  function HorizontalRec(numeric: seq<string>): Recommendation
    requires |numeric| > 0
  {
    Recommendation(Distribution, HorizontalDistribution, [numeric[0]], 68)
  }

  /** The `i`-th comparison: numeric columns `i` and `i + 1`. */
  function PairRec(numeric: seq<string>, i: nat): Recommendation
    requires i + 2 <= |numeric|
  {
    Recommendation(Comparison, PairComparison(numeric[i..i + 2]), numeric[i..i + 2], 60 - i * 5)
  }

  function StackedBarRec(numeric: seq<string>): Recommendation {
    Recommendation(StackedBar, StackedBarChart, Take(numeric, 3), 67)
  }

  function StackedAreaRec(numeric: seq<string>): Recommendation {
    Recommendation(StackedArea, StackedAreaChart, Take(numeric, 3), 63)
  }

  /** `Math.min(3, n - 1)` iterations of the comparison loop, none when that is negative. */
  function PairCount(n: nat): (k: nat)
    ensures k <= 3 && (n >= 1 ==> k + 1 <= n)
  {
    if n <= 1 then 0 else if n - 1 < 3 then n - 1 else 3
  }

  /** The first `k` comparisons. */
  function Pairs(numeric: seq<string>, k: nat): (r: seq<Recommendation>)
    requires k + 1 <= |numeric| || k == 0
    ensures |r| == k
  {
    if k == 0 then [] else Pairs(numeric, k - 1) + [PairRec(numeric, k - 1)]
  }

  function TwoNumericPart(numeric: seq<string>): seq<Recommendation> {
    if |numeric| >= 2
    then [TrendRec(numeric), CumulativeRec(numeric), CorrelationPlotRec(numeric), RadarExtraRec(numeric)]
    else []
  }

  function CategoryExtrasPart(strings: seq<string>, numeric: seq<string>): seq<Recommendation> {
    if |strings| > 0 && |numeric| > 0 then [OverviewRec(strings, numeric), HorizontalRec(numeric)]
    else []
  }

  function StackedPart(numeric: seq<string>): seq<Recommendation> {
    if |numeric| >= 3 then [StackedBarRec(numeric), StackedAreaRec(numeric)] else []
  }

  /** `extraVisualizations` in push order. */
  function Extras(numeric: seq<string>, strings: seq<string>): seq<Recommendation> {
    TwoNumericPart(numeric) + CategoryExtrasPart(strings, numeric)
    + Pairs(numeric, PairCount(|numeric|)) + StackedPart(numeric)
  }

  /** The first fifteen of the base list followed by the extras, in that order. */
  function Merged(data: seq<Row>, columns: seq<Column>): seq<Recommendation> {
    var numeric := TypedNames(columns, "number");
    var strings := TypedNames(columns, "string");
    Take(Rules(data, columns) + Extras(numeric, strings), 15)
  }

  /** `allRecommendations`. */
  function AllOf(data: seq<Row>, columns: seq<Column>): seq<Recommendation> {
    SortBy(Merged(data, columns), Priority)
  }

  /** The `allRecommendations` memo. */
  method AllRecommendations(data: seq<Row>, columns: seq<Column>)
    returns (all: seq<Recommendation>)
    ensures all == AllOf(data, columns)
    ensures SortedDesc(all, Priority)
    ensures multiset(all) == multiset(Merged(data, columns))
  {
    var base := AnalyzeDataset(data, columns);
    var numeric := TypedNames(columns, "number");
    var strings := TypedNames(columns, "string");
    var extras := PushExtras(numeric, strings);
    all := SortBy(Take(base + extras, 15), Priority);
  }

  /** The pushes into `extraVisualizations`. */
  method PushExtras(numeric: seq<string>, strings: seq<string>) returns (extras: seq<Recommendation>)
    ensures extras == Extras(numeric, strings)
  {
    extras := [];
    if |numeric| >= 2 {
      extras := extras + [TrendRec(numeric), CumulativeRec(numeric), CorrelationPlotRec(numeric),
                          RadarExtraRec(numeric)];
    }
    assert extras == TwoNumericPart(numeric);
    if |strings| > 0 && |numeric| > 0 {
      extras := extras + [OverviewRec(strings, numeric), HorizontalRec(numeric)];
    }
    assert extras == TwoNumericPart(numeric) + CategoryExtrasPart(strings, numeric);
    extras := PushPairs(numeric, extras);
    ghost var pushed := extras;
    if |numeric| >= 3 {
      extras := extras + [StackedBarRec(numeric), StackedAreaRec(numeric)];
    }
    assert extras == pushed + StackedPart(numeric);
  }

  /** The comparison loop: `for (let i = 0; i < Math.min(3, numericColumns.length - 1); i++)`. */
  method PushPairs(numeric: seq<string>, front: seq<Recommendation>) returns (extras: seq<Recommendation>)
    ensures extras == front + Pairs(numeric, PairCount(|numeric|))
  {
    extras := front;
    var limit := if 3 < |numeric| - 1 then 3 else |numeric| - 1;
    var i := 0;
    while i < limit
      invariant 0 <= i <= PairCount(|numeric|)
      invariant extras == front + Pairs(numeric, i)
    {
      PairsSnoc(numeric, front, i);
      extras := extras + [PairRec(numeric, i)];
      i := i + 1;
    }
    assert i == PairCount(|numeric|);
  }

  /** One more iteration pushes the next comparison. */
  lemma PairsSnoc(numeric: seq<string>, front: seq<Recommendation>, i: nat)
    requires i + 2 <= |numeric|
    ensures front + Pairs(numeric, i + 1) == front + Pairs(numeric, i) + [PairRec(numeric, i)]
  {
  }

  /** `allRecommendations.slice(0, 3)` and `allRecommendations.slice(3)`. */
  function TopAndOther(all: seq<Recommendation>): (split: (seq<Recommendation>, seq<Recommendation>))
  {
    var top := Take(all, 3);
    (top, all[|top|..])
  }

  /** `topVisualizations[0] || null`. */
  function InitialSelection(top: seq<Recommendation>): Option<Recommendation> {
    if |top| > 0 then Some(top[0]) else None
  }

  /** `selectedVisualization?.columns || numericColumns.slice(0, 2)`: an array, even an empty
      one, is truthy, so a selection always supplies its own columns. */
  function InitialColumns(selection: Option<Recommendation>, numeric: seq<string>): seq<string> {
    match selection
    case Some(r) => r.columns
    case None => Take(numeric, 2)
  }

  // ---------------------------------------------------------------- the extras' rules

  /** An element of four lists joined is in one of them. */
  lemma InFour<T>(x: T, a: seq<T>, b: seq<T>, c: seq<T>, d: seq<T>)
    ensures x in a + b + c + d <==> x in a || x in b || x in c || x in d
  {
  }

  /** The comparisons are the `i`-th for each `i < k`: columns `i` and `i + 1`, priority
      `60 - 5i`. */
  lemma {:induction false} InPairs(numeric: seq<string>, k: nat, r: Recommendation)
    requires k + 1 <= |numeric| || k == 0
    ensures r in Pairs(numeric, k) <==>
              exists i :: 0 <= i < k && i + 2 <= |numeric| && r == PairRec(numeric, i)
  {
    if k > 0 {
      InPairs(numeric, k - 1, r);
      var p := Pairs(numeric, k);
      assert p == Pairs(numeric, k - 1) + [PairRec(numeric, k - 1)];
      if r == PairRec(numeric, k - 1) {
        assert r in p;
      }
    }
  }

  /** Each extra comes from one of the four groups. */
  lemma ExtraGroups(numeric: seq<string>, strings: seq<string>, r: Recommendation)
    ensures r in Extras(numeric, strings) <==>
              || r in TwoNumericPart(numeric) || r in CategoryExtrasPart(strings, numeric)
              || r in Pairs(numeric, PairCount(|numeric|)) || r in StackedPart(numeric)
  {
    InFour(r, TwoNumericPart(numeric), CategoryExtrasPart(strings, numeric),
           Pairs(numeric, PairCount(|numeric|)), StackedPart(numeric));
  }

  /** What an extra of each kind needs and charts, and the priorities extras have. */
  ghost predicate ExtraShape(numeric: seq<string>, strings: seq<string>, r: Recommendation) {
    && (r.kind in {Line, Area, Scatter} ==> |numeric| >= 2 && r.columns == numeric[..2])
    && (r.kind == Radar ==> |numeric| >= 2 && r.columns == Take(numeric, 5))
    && (r.kind in {Pie, Distribution} ==> |strings| > 0 && |numeric| > 0 && r.columns == [numeric[0]])
    && (r.kind == Comparison ==>
          exists i :: 0 <= i < PairCount(|numeric|) && i + 2 <= |numeric| && r == PairRec(numeric, i))
    && (r.kind in {StackedBar, StackedArea} ==> |numeric| >= 3 && r.columns == numeric[..3])
    && r.kind !in {Bar}
    && 50 <= r.priority <= 80
    && (r.priority == 80 ==> |numeric| >= 2 && r == CorrelationPlotRec(numeric))
  }

  lemma TwoNumericShape(numeric: seq<string>, strings: seq<string>, r: Recommendation)
    requires r in TwoNumericPart(numeric)
    ensures ExtraShape(numeric, strings, r)
  {
    assert Take(numeric, 2) == numeric[..2];
  }

  lemma CategoryShape(numeric: seq<string>, strings: seq<string>, r: Recommendation)
    requires r in CategoryExtrasPart(strings, numeric)
    ensures ExtraShape(numeric, strings, r)
  {
  }

  lemma PairShape(numeric: seq<string>, strings: seq<string>, r: Recommendation)
    requires r in Pairs(numeric, PairCount(|numeric|))
    ensures ExtraShape(numeric, strings, r)
  {
    InPairs(numeric, PairCount(|numeric|), r);
  }

  lemma StackedShape(numeric: seq<string>, strings: seq<string>, r: Recommendation)
    requires r in StackedPart(numeric)
    ensures ExtraShape(numeric, strings, r)
  {
    assert Take(numeric, 3) == numeric[..3];
  }

  /** Every extra has the shape of its kind. */
  lemma ExtraShapeOf(numeric: seq<string>, strings: seq<string>, r: Recommendation)
    requires r in Extras(numeric, strings)
    ensures ExtraShape(numeric, strings, r)
  {
    ExtraGroups(numeric, strings, r);
    if r in TwoNumericPart(numeric) {
      TwoNumericShape(numeric, strings, r);
    } else if r in CategoryExtrasPart(strings, numeric) {
      CategoryShape(numeric, strings, r);
    } else if r in Pairs(numeric, PairCount(|numeric|)) {
      PairShape(numeric, strings, r);
    } else {
      StackedShape(numeric, strings, r);
    }
  }

  /** What each extra needs and charts, by kind. */
  lemma ExtraOrigin(numeric: seq<string>, strings: seq<string>, r: Recommendation)
    requires r in Extras(numeric, strings)
    ensures r.kind in {Line, Area, Scatter} ==> |numeric| >= 2 && r.columns == numeric[..2]
    ensures r.kind == Radar ==> |numeric| >= 2 && r.columns == Take(numeric, 5)
    ensures r.kind in {Pie, Distribution} ==>
              |strings| > 0 && |numeric| > 0 && r.columns == [numeric[0]]
    ensures r.kind == Comparison ==>
              exists i :: 0 <= i < PairCount(|numeric|) && i + 2 <= |numeric| && r == PairRec(numeric, i)
    ensures r.kind in {StackedBar, StackedArea} ==> |numeric| >= 3 && r.columns == numeric[..3]
    ensures r.kind !in {Bar}
  {
    ExtraShapeOf(numeric, strings, r);
  }

  /** Every extra has a priority of 50 to 80, and only the correlation plot has 80. */
  lemma ExtraPriorities(numeric: seq<string>, strings: seq<string>, r: Recommendation)
    requires r in Extras(numeric, strings)
    ensures 50 <= r.priority <= 80
    ensures r.priority == 80 ==> |numeric| >= 2 && r == CorrelationPlotRec(numeric)
  {
    ExtraShapeOf(numeric, strings, r);
  }

  /** Exactly `max(0, min(3, n - 1))` comparisons are added: the `i`-th charts numeric columns
      `i` and `i + 1` with priority `60 - 5i`, and every comparison extra is one of them. */
  lemma ComparisonExtras(numeric: seq<string>, strings: seq<string>)
    ensures var extras := Extras(numeric, strings);
            && PairCount(|numeric|) == (if |numeric| <= 1 then 0 else if |numeric| - 1 < 3 then |numeric| - 1 else 3)
            && (forall i :: 0 <= i < PairCount(|numeric|) ==>
                  i + 2 <= |numeric| && PairRec(numeric, i) in extras)
            && (forall r :: r in extras && r.kind == Comparison ==>
                  exists i :: 0 <= i < PairCount(|numeric|) && i + 2 <= |numeric|
                    && r.columns == numeric[i..i + 2] && r.priority == 60 - 5 * i)
  {
    var extras := Extras(numeric, strings);
    var k := PairCount(|numeric|);
    forall i | 0 <= i < k ensures i + 2 <= |numeric| && PairRec(numeric, i) in extras {
      InPairs(numeric, k, PairRec(numeric, i));
      ExtraGroups(numeric, strings, PairRec(numeric, i));
    }
    forall r | r in extras && r.kind == Comparison
      ensures exists i :: 0 <= i < k && i + 2 <= |numeric|
                && r.columns == numeric[i..i + 2] && r.priority == 60 - 5 * i
    {
      ExtraOrigin(numeric, strings, r);
      var i :| 0 <= i < k && i + 2 <= |numeric| && r == PairRec(numeric, i);
      assert r.columns == numeric[i..i + 2] && r.priority == 60 - 5 * i;
    }
  }

  /** Line, area, scatter and radar extras exist iff there are two numeric columns; the radar
      charts at most five of them, the others the first two. */
  lemma TwoNumericExtras(numeric: seq<string>, strings: seq<string>)
    ensures var extras := Extras(numeric, strings);
            && (|numeric| >= 2 <==> TrendRec(numeric) in extras)
            && (|numeric| >= 2 <==> CumulativeRec(numeric) in extras)
            && (|numeric| >= 2 <==> exists r :: r in extras && r.kind == Scatter)
            && (|numeric| >= 2 <==> RadarExtraRec(numeric) in extras)
            && (forall r :: r in extras && r.kind in {Line, Area, Scatter} ==>
                  |numeric| >= 2 && r.columns == numeric[..2])
            && (forall r :: r in extras && r.kind == Radar ==>
                  |numeric| >= 2 && |r.columns| <= 5 && r.columns == Take(numeric, 5))
  {
    var extras := Extras(numeric, strings);
    ExtraGroups(numeric, strings, TrendRec(numeric));
    ExtraGroups(numeric, strings, CumulativeRec(numeric));
    ExtraGroups(numeric, strings, RadarExtraRec(numeric));
    if |numeric| >= 2 {
      ExtraGroups(numeric, strings, CorrelationPlotRec(numeric));
    }
    forall r | r in extras
      ensures r.kind in {Line, Area, Scatter} ==> |numeric| >= 2 && r.columns == numeric[..2]
      ensures r.kind == Radar ==> |numeric| >= 2 && r.columns == Take(numeric, 5)
    {
      ExtraOrigin(numeric, strings, r);
    }
  }

  /** The pie and distribution extras exist iff there is a string and a numeric column, and
      chart only the first numeric column. */
  lemma CategoryExtras(numeric: seq<string>, strings: seq<string>)
    ensures var extras := Extras(numeric, strings);
            && (|strings| > 0 && |numeric| > 0 <==> exists r :: r in extras && r.kind == Pie)
            && (|strings| > 0 && |numeric| > 0 <==> exists r :: r in extras && r.kind == Distribution)
            && (forall r :: r in extras && r.kind in {Pie, Distribution} ==>
                  |numeric| > 0 && r.columns == [numeric[0]])
  {
    var extras := Extras(numeric, strings);
    if |strings| > 0 && |numeric| > 0 {
      ExtraGroups(numeric, strings, OverviewRec(strings, numeric));
      ExtraGroups(numeric, strings, HorizontalRec(numeric));
    }
    forall r | r in extras
      ensures r.kind in {Pie, Distribution} ==>
                |strings| > 0 && |numeric| > 0 && r.columns == [numeric[0]]
    {
      ExtraOrigin(numeric, strings, r);
    }
  }

  /** The stacked extras exist iff there are three numeric columns, and chart the first
      three. */
  lemma StackedExtras(numeric: seq<string>, strings: seq<string>)
    ensures var extras := Extras(numeric, strings);
            && (|numeric| >= 3 <==> StackedBarRec(numeric) in extras)
            && (|numeric| >= 3 <==> StackedAreaRec(numeric) in extras)
            && (forall r :: r in extras && r.kind in {StackedBar, StackedArea} ==>
                  |numeric| >= 3 && r.columns == numeric[..3])
  {
    var extras := Extras(numeric, strings);
    ExtraGroups(numeric, strings, StackedBarRec(numeric));
    ExtraGroups(numeric, strings, StackedAreaRec(numeric));
    forall r | r in extras
      ensures r.kind in {StackedBar, StackedArea} ==> |numeric| >= 3 && r.columns == numeric[..3]
    {
      ExtraOrigin(numeric, strings, r);
    }
  }

  // ---------------------------------------------------------------- the ranking

  /** The top three and the rest make up the whole ranking, in order; the top has
      `min(3, n)` entries, and none of the rest outranks any of them. */
  lemma TopAndOtherSplit(all: seq<Recommendation>)
    requires SortedDesc(all, Priority)
    ensures var (top, other) := TopAndOther(all);
            && top + other == all
            && |top| == (if |all| < 3 then |all| else 3)
            && (forall t, o :: t in top && o in other ==> t.priority >= o.priority)
  {
    var (top, other) := TopAndOther(all);
    assert top + other == all;
    forall t, o | t in top && o in other ensures t.priority >= o.priority {
      var i :| 0 <= i < |top| && top[i] == t;
      var j :| 0 <= j < |other| && other[j] == o;
      assert all[i] == t && all[|top| + j] == o;
    }
  }

  /** With two numeric columns the correlation plot is ranked first: its priority, 80, is the
      highest of all, and it is pushed within the first fifteen entries. */
  lemma CorrelationPlotFirst(data: seq<Row>, columns: seq<Column>)
    requires |TypedNames(columns, "number")| >= 2
    ensures var all := AllOf(data, columns);
            |all| > 0 && all[0] == CorrelationPlotRec(TypedNames(columns, "number"))
  {
    var numeric := TypedNames(columns, "number");
    var merged := Merged(data, columns);
    var k := PlotMerged(data, columns);
    forall r | r in merged ensures r.priority <= 80 && (r.priority == 80 ==> r == CorrelationPlotRec(numeric)) {
      MergedPriorities(data, columns, r);
    }
    UniqueMaximumFirst(merged, CorrelationPlotRec(numeric), k);
  }

  /** The correlation plot is among the first fifteen: the base list has at most eight entries
      and the plot is the third extra. */
  lemma PlotMerged(data: seq<Row>, columns: seq<Column>) returns (k: nat)
    requires |TypedNames(columns, "number")| >= 2
    ensures var merged := Merged(data, columns);
            k < |merged| && merged[k] == CorrelationPlotRec(TypedNames(columns, "number"))
  {
    var numeric := TypedNames(columns, "number");
    var strings := TypedNames(columns, "string");
    var base := Rules(data, columns);
    var extras := Extras(numeric, strings);
    RulesAtMostEight(data, columns);
    assert extras[2] == CorrelationPlotRec(numeric);
    k := |base| + 2;
    assert (base + extras)[k] == extras[2];
  }

  /** Base priorities are at most 10, extras' at most 80, and only the plot has 80. */
  lemma MergedPriorities(data: seq<Row>, columns: seq<Column>, r: Recommendation)
    requires r in Merged(data, columns)
    ensures r.priority <= 80
    ensures r.priority == 80 ==>
              |TypedNames(columns, "number")| >= 2 && r == CorrelationPlotRec(TypedNames(columns, "number"))
  {
    var numeric := TypedNames(columns, "number");
    var strings := TypedNames(columns, "string");
    var base := Rules(data, columns);
    var extras := Extras(numeric, strings);
    assert r in base + extras;
    if r in base {
      RulesOrdered(numeric, strings, DateColumns(data, strings), PieApplies(data, strings, numeric));
      var i :| 0 <= i < |base| && base[i] == r;
    } else {
      ExtraPriorities(numeric, strings, r);
    }
  }

  /** An entry whose priority is above every other entry's is sorted to the front. */
  lemma UniqueMaximumFirst(s: seq<Recommendation>, top: Recommendation, k: nat)
    requires k < |s| && s[k] == top
    requires forall r :: r in s ==> r.priority <= top.priority && (r.priority == top.priority ==> r == top)
    ensures |SortBy(s, Priority)| > 0 && SortBy(s, Priority)[0] == top
  {
    var sorted := SortBy(s, Priority);
    SortByFirstIsLargest(s, Priority, k);
    assert sorted[0] in multiset(s);
  }

  /** Initially the first-ranked chart is selected, with its own columns; with two numeric
      columns that is the correlation plot of the first two. */
  lemma InitialState(data: seq<Row>, columns: seq<Column>)
    ensures var all := AllOf(data, columns);
            var numeric := TypedNames(columns, "number");
            var selection := InitialSelection(TopAndOther(all).0);
            && (selection.None? <==> all == [])
            && (selection.Some? ==>
                  selection.value == all[0] && InitialColumns(selection, numeric) == all[0].columns)
            && (|numeric| >= 2 ==>
                  selection == Some(CorrelationPlotRec(numeric)) && InitialColumns(selection, numeric) == numeric[..2])
  {
    var all := AllOf(data, columns);
    var numeric := TypedNames(columns, "number");
    var top := TopAndOther(all).0;
    assert top == Take(all, 3);
    assert |all| > 0 ==> |top| > 0 && top[0] == all[0];
    if |numeric| >= 2 {
      CorrelationPlotFirst(data, columns);
      assert Take(numeric, 2) == numeric[..2];
    }
  }

  /** Without numeric columns nothing is recommended or selected, and no columns are charted. */
  lemma NoNumericNothing(data: seq<Row>, columns: seq<Column>)
    requires |TypedNames(columns, "number")| == 0
    ensures AllOf(data, columns) == []
    ensures InitialSelection(TopAndOther(AllOf(data, columns)).0) == None
    ensures InitialColumns(None, TypedNames(columns, "number")) == []
  {
    NoNumericNoRules(data, columns);
    assert Extras(TypedNames(columns, "number"), TypedNames(columns, "string")) == [];
  }

  /** The sort keeps the pushing order among charts of equal priority. */
  lemma EqualPrioritiesKeepOrder(data: seq<Row>, columns: seq<Column>, v: real)
    ensures WithKey(AllOf(data, columns), Priority, v) == WithKey(Merged(data, columns), Priority, v)
  {
    SortByIsStable(Merged(data, columns), Priority, v);
  }
}
