# Insightflow AI Hub: a verified model of the analysis engine

This project models in Dafny the logic of Insightflow AI Hub that turns data into results. It proves properties of that model.

**Analysis routes**
- Descriptive statistics per numeric column.
- The pairwise Pearson correlation matrix.
- Outlier detection with interquartile fences.
- The simulated data-quality report with its score and recommendations.

**Visualisation helpers**
- The chart recommender, which maps the column-type mix of a dataset to ranked chart suggestions.
- The advanced visualiser's recommender and its strong-correlation list.
- The quality report's extraction of columns and counts from a generated text.

**Agent orchestrator and meeting screens**
- The orchestrator's routing table and the meeting agent's split of a model reply into research and agenda.
- The agenda and research parsers of the two meeting screens.
- The file names of a meeting's exports.

**Scheduling**
- The rule that fixes the first run of a scheduled report.

Each source file has its own module. Shared modules hold what several files use:
- `Options` and `Text`: strings, and `trim`, `split`, `indexOf` and `replace`.
- `Search`: first and last match of a position predicate, the way regular expressions search.
- `JsValues`: cells of a row (numbers, strings, booleans, `null`, `undefined`), `Number()` and `parseFloat`.
- `Records`: JavaScript objects as lists of entries in insertion order, and the order `Object.keys` and `JSON.stringify` list their keys in: array-index keys first, ascending, then the other keys in insertion order.
- `Sorting`: an ascending sort and a stable descending sort by key.
- `Dataset`: the numeric-column test and value lists of the analysis routes.
- `MeetingText`: the agenda heading, research sections and card building that both meeting screens share.

**How each kind of source code is modelled**
- Pure computations are Dafny functions.
- Code that works through loops or by mutation is a method proved against such a function. These are the nested matrix loops, the per-column loops that fill records, the agenda and research scanners, the orchestrator's agents acting on a shared state object, and `calculateNextRunTime` acting on a `Date`.
- Mutable objects are classes:
  - the orchestrator's `AgentState`;
  - the scheduler's `Date`.

**Inputs taken as parameters**
- Square root is a function parameter. Lemmas that need it require that it is a true non-negative root.
- The draws of `Math.random` are inputs in `[0, 1)`.
- The current moment is a number of milliseconds.
- Replies of the language model are inputs, possibly failed.

**Numbers and text**
- Numbers are exact reals.
- Integer arithmetic is unbounded.
- Strings are sequences of characters. JavaScript's `\s` and `trim` are modelled on the ASCII whitespace characters.

## Model

| member | source | states |
|---|---|---|
| Dataset.NonBlankCells | app/api/analysis/statistical/route.ts:35 | no kept cell is `null` or `""`, and there are no more cells than rows |
| Dataset.NumericColumns | app/api/analysis/statistical/route.ts:34-37 | a column is kept iff it is requested and its first non-blank cell converts with `Number` |
| Dataset.NumericValuesSnoc | app/api/analysis/statistical/route.ts:41 | the value list is read row by row: one more row appends that row's value, if any |
| Dataset.BlankAndWordCells | app/api/analysis/statistical/route.ts:41 | `null` and `""` become 0 and are kept; a text that is not a number is dropped |
| Dataset.BooleanCell | frontend/app/api/datasets/upload/route.ts:30-35 | a `true` or `false` cell, which dynamic typing produces, is not blank and is read by `Number` as 1 or 0 |
| Dataset.BooleanColumn | app/api/analysis/statistical/route.ts:34-41 | a column of booleans passes the numeric test and gives one value per row, 1 for `true` and 0 for `false` |
| Dataset.MissingInFirstRow | app/api/analysis/statistical/route.ts:35-36 | a column missing from the first row is never numeric, because `undefined` passes the blank filter and is NaN |
| Dataset.NumericColumnHasValues | app/api/analysis/statistical/route.ts:34-42 | a numeric column always yields at least one value, so `calculateStats` never divides by zero |
| JsValues.DigitsAreNumeric | app/api/analysis/statistical/route.ts:36 | a text of decimal digits converts to the number it denotes, with `Number` and with `parseFloat` |
| Sorting.SortAscending | app/api/analysis/statistical/route.ts:9 | the sorted copy is ascending and a permutation of the input; the input is left as it is |
| Sorting.SortAscendingBounds | app/api/analysis/statistical/route.ts:9 | every input value lies between the first and the last element of the sorted copy |
| Sorting.SortAscendingOfSorted | app/api/analysis/statistical/route.ts:9 | an already ascending list is its own sorted copy |
| Statistics.MinOf | app/api/analysis/statistical/route.ts:14 | `Math.min(...values)` is an element of the list and at most every element |
| Statistics.MaxOf | app/api/analysis/statistical/route.ts:15 | `Math.max(...values)` is an element of the list and at least every element |
| Statistics.Mean | app/api/analysis/statistical/route.ts:10 | the mean times the count is the sum |
| Statistics.MeanBounds | app/api/analysis/statistical/route.ts:10-15 | min <= mean <= max |
| Statistics.Median | app/api/analysis/statistical/route.ts:9-11 | the median is an element of the list, between min and max |
| Statistics.MedianOfSorted | app/api/analysis/statistical/route.ts:9-11 | for an ascending list the median is the element at index floor(n/2) |
| Statistics.UpperMiddleMedian | app/api/analysis/statistical/route.ts:9-11 | for an even count the median is the upper middle element: [1,2,3,4] gives 3 |
| Statistics.SquaredDeviations | app/api/analysis/statistical/route.ts:12 | the sum of squared deviations is never negative |
| Statistics.Variance | app/api/analysis/statistical/route.ts:12 | the variance is the population variance (squared deviations divided by n), hence >= 0 |
| Statistics.CalculateStats | app/api/analysis/statistical/route.ts:8-19 | min, median and max are elements; every value lies in [min, max]; min <= median <= max; range = max - min >= 0; min <= mean <= max; variance >= 0 |
| Statistics.StdDevIsRootOfVariance | app/api/analysis/statistical/route.ts:12-13 | the standard deviation is the non-negative square root of the variance |
| Statistics.StatsFields | app/api/analysis/statistical/route.ts:8-19 | each field of the result is the corresponding statistic of the values |
| Statistics.FiveValues | app/api/analysis/statistical/route.ts:8-19 | [1,2,3,4,5] gives mean 3, median 3, variance 2, range 4, min 1, max 5 |
| Statistics.StatsOf | app/api/analysis/statistical/route.ts:40-42 | every numeric column gets statistics |
| Statistics.ColumnStats | app/api/analysis/statistical/route.ts:39-43 | the loop returns exactly the record built by `stats[col] = calculateStats(values)` over the numeric columns in order (`AnalysedStats`) |
| Statistics.StatsStep | app/api/analysis/statistical/route.ts:41-42 | one turn of the loop stores the statistics of the next numeric column, which always has some |
| Statistics.ColumnStatsKeys | app/api/analysis/statistical/route.ts:34-51 | the record's keys are exactly the requested columns that pass the numeric test, each once, entered in the order they were first requested, each holding its column's statistics; when no column name is an array index the stored result lists them in that order |
| Statistics.StatsRecord | app/api/analysis/statistical/route.ts:39-43 | over columns that pass the numeric test, the record holds each column once, at its first occurrence and in order, with its statistics |
| Correlation.Deviations | app/api/analysis/correlation/route.ts:18-19 | each deviation is the value minus the mean |
| Correlation.CalculateCorrelation | app/api/analysis/correlation/route.ts:8-26 | the one-pass accumulation of numerator, sumX2 and sumY2 returns the closed-form coefficient (`None` for NaN) |
| Correlation.CauchySchwarz | app/api/analysis/correlation/route.ts:17-25 | numerator² <= sumX2 · sumY2 |
| Correlation.QuotientFacts | app/api/analysis/correlation/route.ts:25 | a zero denominator comes with a zero numerator, and a quotient that is a number lies in [-1, 1] |
| Correlation.SumsQuotient | app/api/analysis/correlation/route.ts:17-25 | for any two equally long lists of deviations, a zero denominator comes with a zero numerator and a quotient that is a number lies in [-1, 1] |
| Correlation.ZeroDenominator | app/api/analysis/correlation/route.ts:25 | with a true square root, a coefficient that is NaN (`None`) has a zero numerator: the division was 0/0 |
| Correlation.CoefficientBounds | app/api/analysis/correlation/route.ts:8-26 | a coefficient that is a number lies in [-1, 1] |
| Correlation.CoefficientSymmetric | app/api/analysis/correlation/route.ts:8-26 | corr(x, y) = corr(y, x) |
| Correlation.ConstantMean | app/api/analysis/correlation/route.ts:10-11 | the mean of a constant list is its value |
| Correlation.ConstantColumn | app/api/analysis/correlation/route.ts:8-26 | a constant column gives NaN with any other column, never 0, because nothing guards the division |
| Correlation.LinearMean | app/api/analysis/correlation/route.ts:10-11 | the mean of k·x + c is k·mean(x) + c |
| Correlation.LinearDeviations | app/api/analysis/correlation/route.ts:18-19 | the deviations of k·x + c are k times those of x |
| Correlation.PerfectLinear | app/api/analysis/correlation/route.ts:8-26 | y = k·x + c with k > 0 and x not constant gives exactly 1 |
| Correlation.DoubledValues | app/api/analysis/correlation/route.ts:8-26 | x = [1..5], y = 2x gives exactly 1 |
| Correlation.BuildRow | app/api/analysis/correlation/route.ts:49-61 | the inner loop's row holds 1 under the column's own name and the coefficient under every paired column |
| Correlation.BuildMatrix | app/api/analysis/correlation/route.ts:41-62 | the nested loops build the matrix over the numeric columns, whose keys are exactly those columns |
| Correlation.MatrixCells | app/api/analysis/correlation/route.ts:48-62 | for any two numeric columns, a column requested twice included: the cell of a column with itself is 1 whatever the data; a cell of two different columns exists iff both value lists have the same length above one, and then holds their coefficient |
| Correlation.MatrixSymmetric | app/api/analysis/correlation/route.ts:48-62 | every cell equals its mirror, present or absent, a column requested twice included |
| Correlation.MatrixRow | app/api/analysis/correlation/route.ts:48-49 | a column requested twice has its row rebuilt; the row left in the matrix is the one built at its last occurrence |
| Correlation.RowCellOther | app/api/analysis/correlation/route.ts:50-60 | in a row, the cell of another column is its coefficient when the two are paired and absent otherwise, whichever occurrence of that column wrote last |
| Outliers.QuartileIndex | app/api/analysis/outliers/route.ts:10-11 | floor(n·p) is a valid index and satisfies the floor inequalities |
| Outliers.QuartileIndices | app/api/analysis/outliers/route.ts:10-11 | both quartile indices are in range, and the first is not after the second |
| Outliers.Points | app/api/analysis/outliers/route.ts:17 | there is one entry per value, in order, whose index is its position and whose flag means strictly outside the fences |
| Outliers.OutsideValues | app/api/analysis/outliers/route.ts:19 | the filtered values all lie strictly outside the fences |
| Outliers.FencesAroundQuartiles | app/api/analysis/outliers/route.ts:9-14 | lower <= q1 <= q3 <= upper for a non-negative threshold |
| Outliers.FencesOrdered | app/api/analysis/outliers/route.ts:12-14 | the lower fence is never above the upper one |
| Outliers.DetectionPoints | app/api/analysis/outliers/route.ts:16-18 | entry i has index i and value values[i], and it is flagged iff the value is below the lower or above the upper fence |
| Outliers.CountIsFlagged | app/api/analysis/outliers/route.ts:17-19 | `count` is the number of flagged entries |
| Outliers.OutsideValuesFlagged | app/api/analysis/outliers/route.ts:17-19 | the filtered list is as long as the number of flags |
| Outliers.InnerValuesKept | app/api/analysis/outliers/route.ts:12-17 | a value between the quartiles is never an outlier |
| Outliers.NoneOutside | app/api/analysis/outliers/route.ts:19 | with no value outside the fences, the count is zero |
| Outliers.SixValues | app/api/analysis/outliers/route.ts:8-21 | [1,2,3,4,5,100] gives fences -2.5 and 9.5, and only 100 is flagged |
| Outliers.OutlierAnalysis | app/api/analysis/outliers/route.ts:36-44 | the loop assigns each requested column its detection when it has at least one value |
| Outliers.AnalysisColumns | app/api/analysis/outliers/route.ts:36-44 | a column is in the result iff it is requested and has a value that converts; there is no numeric-column test, and `null` and `""` count as 0 |
| DataQuality.Texts | app/api/data-quality/route.ts:99-107 | each pushed text is the text of its recommendation |
| DataQuality.Names | app/api/data-quality/route.ts:83-96 | the keys written are the column names, in order |
| DataQuality.Score | app/api/data-quality/route.ts:109-118 | the score lies in [0, 100] |
| DataQuality.AnalyzeDataQuality | app/api/data-quality/route.ts:71-125 | the two loops, the duplicate draw, the recommendations and the score give the report |
| DataQuality.CountMissing | app/api/data-quality/route.ts:83-88 | the first loop writes each column's missing count when its percentage drawn is above 0 |
| DataQuality.CountOutliers | app/api/data-quality/route.ts:92-96 | the second loop writes a count for each column of type "numeric" |
| DataQuality.ScoreUnclamped | app/api/data-quality/route.ts:109-118 | with non-negative counts the upper clamp never applies: the score is the raw value, or 0 when that is negative |
| DataQuality.ScoreExample | app/api/data-quality/route.ts:109-115 | 2 missing values, 1 duplicate row and 3 outliers score 98.7 |
| DataQuality.PushRecommendations | app/api/data-quality/route.ts:99-107 | the pushes give the recommendation texts of the report |
| DataQuality.RecommendationRules | app/api/data-quality/route.ts:99-107 | at most three recommendations, in the fixed order. Missing: iff the missing record has a key. Duplicates: with the count, iff it is positive. Outliers: iff that record has a key |
| DataQuality.MissingVisitBounds | app/api/data-quality/route.ts:84-86 | a missing count written is floor(p · rows) with 0 <= p < 0.2 |
| DataQuality.OutlierVisitBounds | app/api/data-quality/route.ts:94 | an outlier count written is in 0..9 |
| DataQuality.MissingCountBounds | app/api/data-quality/route.ts:83-88 | each missing count is between 0 and a fifth of the row count |
| DataQuality.OutlierCountBounds | app/api/data-quality/route.ts:92-96 | each outlier count is in 0..9 |
| DataQuality.DuplicateBounds | app/api/data-quality/route.ts:90 | the duplicate count is between 0 and a tenth of the row count |
| DataQuality.MissingKeys | app/api/data-quality/route.ts:83-88 | a column has a missing count iff its percentage drawn is above 0, whatever its type |
| DataQuality.OutlierKeys | app/api/data-quality/route.ts:92-96 | a column has an outlier count iff its type is exactly "numeric" |
| DataQuality.ReportCountsNonNegative | app/api/data-quality/route.ts:83-96 | every count in the report is non-negative |
| DataQuality.ScorePerfect | app/api/data-quality/route.ts:109-118 | the score is 100 iff nothing is counted |
| DataQuality.ReportScore | app/api/data-quality/route.ts:109-118 | the reported score is 100 − 0.1·missing − 0.5·duplicates − 0.2·outliers over the totals, or 0 when that is negative; it is 100 only when nothing is counted |
| Dataset.NumericValues | app/api/analysis/statistical/route.ts:41 | there is at most one value per row |
| Records.Put | app/api/analysis/statistical/route.ts:42 | after `r[k] = v` the key holds `v`, and the key set gains `k` |
| Records.PutOther | app/api/analysis/statistical/route.ts:42 | an assignment leaves every other key's value as it was |
| Records.PutExistingKeepsOrder | app/api/analysis/statistical/route.ts:42 | assigning to an existing key keeps the key order |
| Records.PutNewAppends | app/api/analysis/statistical/route.ts:42 | assigning to a new key appends its entry after the existing entries (the listing order is `OwnKeys`) |
| Records.AssignedLast | app/api/analysis/correlation/route.ts:49-58 | of the assignments made to a key in a loop, the last one decides its value |
| Records.AssignedAbsent | app/api/analysis/correlation/route.ts:50-60 | a key the loop never assigns is absent |
| Records.AssignedKeyOrder | app/api/analysis/statistical/route.ts:39-43 | when every visit assigns, the entries hold each key once, in the order of its first assignment (the listing order is `OwnKeys`) |
| Records.SplitKeys | app/api/analysis/statistical/route.ts:51 | the array-index keys and the other keys together are the record's keys, with none lost or added |
| Records.OwnKeys | app/api/analysis/statistical/route.ts:51 | the keys as listed are the entries' keys rearranged, array indices before all other keys and in ascending numeric order |
| Records.OwnKeysOfNames | app/api/analysis/statistical/route.ts:51 | when no key is an array index, the keys are listed in insertion order |
| Records.IndexKeyListedFirst | app/api/analysis/statistical/route.ts:39-51 | a column "2020" assigned after a column "b" is listed before it |
| Records.LastIndex | app/api/analysis/correlation/route.ts:48-49 | the position of the last occurrence of a key: no later position holds it |
| Text.Trim | frontend/components/analysis/quality-report.tsx:64 | the result has no whitespace at either end, is a slice of the input, and a text already trimmed is unchanged |
| Text.IndexOf | backend/agents/orchestrator.py:148 | the position is the leftmost occurrence, and none means no occurrence |
| Text.Split | components/meeting-agent/meeting-agent-client.tsx:103 | there is at least one part, and no part holds the separator |
| Text.JoinSplit | components/meeting-agent/meeting-agent-client.tsx:103 | joining the parts of a split with the separator gives back the text |
| Text.SplitJoin | components/meeting-agent/meeting-agent-client.tsx:103 | splitting parts joined with a separator they lack gives back the parts |
| Text.PartBefore | backend/agents/orchestrator.py:149-150 | `split(sep)[0]` is the text before the first occurrence, or the whole text without one |
| Text.PartAfter | backend/agents/orchestrator.py:149-151 | `split(sep)[1]` exists iff the separator occurs, and is the text from just after the first occurrence up to the next one or the end |
| Text.ReplaceAll | backend/agents/orchestrator.py:150 | a text without the pattern is unchanged; a replacement no longer than the pattern never lengthens the text |
| Text.NatToStringRoundTrip | frontend/components/meeting-agent/meeting-view-client.tsx:85 | the decimal digits written for a number denote that number |
| JsValues.ParseFloatOfWord | frontend/components/analysis/correlation-analysis.tsx:131 | a text whose first non-blank character is not a digit, a sign or a point gives NaN |
| Sorting.SortBy | lib/visualization-analyzer.ts:112 | the result is in descending key order and is a permutation of the input |
| Sorting.SortByIsStable | lib/visualization-analyzer.ts:112 | elements with equal keys keep their input order, as `Array.prototype.sort` is stable |
| Sorting.SortByOfSorted | lib/visualization-analyzer.ts:112 | a list already in descending order is unchanged |
| Sorting.SortByFirstIsLargest | frontend/components/analysis/correlation-analysis.tsx:140 | the first element has the largest key of the input |
| VisualizationAnalyzer.TypedNames | lib/visualization-analyzer.ts:17-18 | at most one name per column |
| VisualizationAnalyzer.TypedNamesAre | lib/visualization-analyzer.ts:17-18 | a name is listed iff a declared column of exactly that type has it |
| VisualizationAnalyzer.DateColumnsAre | lib/visualization-analyzer.ts:19-26 | a column is a date column iff it is a string column and some row's cell matches one of the date patterns |
| VisualizationAnalyzer.AnalyzeDataset | lib/visualization-analyzer.ts:14-113 | the rules push in order and the final sort leaves that order unchanged, largest priority first |
| VisualizationAnalyzer.RulesOrdered | lib/visualization-analyzer.ts:28-112 | at most eight recommendations, priorities strictly decreasing within 3..10, no repeated kind, each kind at its own priority |
| VisualizationAnalyzer.RulesAtMostEight | lib/visualization-analyzer.ts:14-113 | at most eight recommendations |
| VisualizationAnalyzer.BandBounded | lib/visualization-analyzer.ts:29-112 | a list whose priorities strictly decrease within 3..10 has at most eight entries, distinct kinds, and is sorted |
| VisualizationAnalyzer.NoNumericNoRules | lib/visualization-analyzer.ts:29-110 | without a column of type "number" nothing is recommended |
| VisualizationAnalyzer.RuleKinds | lib/visualization-analyzer.ts:29-110 | each entry's kind tells which rule pushed it; that rule's condition held, and the entry charts that rule's columns |
| VisualizationAnalyzer.RulesFire | lib/visualization-analyzer.ts:29-110 | each rule whose condition holds contributes its entries |
| VisualizationAnalyzer.TimeSeriesRule | lib/visualization-analyzer.ts:19-45 | line and area charts iff there is a date column and a numeric column; both chart the first of each |
| VisualizationAnalyzer.MultiNumericRules | lib/visualization-analyzer.ts:57-96 | scatter, comparison and radar charts iff there are two numeric columns; the scatter charts the first two, the others at most the first three |
| VisualizationAnalyzer.PieRule | lib/visualization-analyzer.ts:99-110 | a pie chart iff the first string column has at most ten distinct values and there is a numeric column |
| VisualizationAnalyzer.RulesNameDeclaredColumns | lib/visualization-analyzer.ts:17-110 | every recommendation names at least one column, and only declared numeric or string columns |
| VisualizationAnalyzer.Step | lib/visualization-analyzer.ts:117-118 | the sampling step is at least 1 |
| VisualizationAnalyzer.KeptIndicesAre | lib/visualization-analyzer.ts:120-121 | the kept positions are exactly the multiples of the step below n, ceil(n / step) of them |
| VisualizationAnalyzer.ChartRowContents | lib/visualization-analyzer.ts:122-125 | a chart row holds "name" and the selected columns only; each column holds the row's cell, and "name" holds "Item k+1" unless a column called "name" overwrites it |
| VisualizationAnalyzer.ChartDataSampling | lib/visualization-analyzer.ts:115-126 | output row k comes from input row k·step, and there are ceil(n / step) rows |
| VisualizationAnalyzer.SmallDataKept | lib/visualization-analyzer.ts:117-125 | with at most 100 rows every row is kept, in order |
| AdvancedVisualizer.PairCount | components/analysis/advanced-visualizer.tsx:112 | at most three comparisons, and no more than the number of numeric columns less one |
| AdvancedVisualizer.Pairs | components/analysis/advanced-visualizer.tsx:112-121 | one comparison per iteration |
| AdvancedVisualizer.AllRecommendations | components/analysis/advanced-visualizer.tsx:47-149 | the memo is the first fifteen of the base and extra recommendations, stably sorted by descending priority: sorted, and a permutation of what was merged |
| AdvancedVisualizer.PushExtras | components/analysis/advanced-visualizer.tsx:53-141 | the pushes build the extras group by group |
| AdvancedVisualizer.PushPairs | components/analysis/advanced-visualizer.tsx:112-121 | the loop appends exactly the comparisons for i < min(3, n - 1) |
| AdvancedVisualizer.InPairs | components/analysis/advanced-visualizer.tsx:112-121 | the comparisons are exactly the i-th ones for i < k |
| AdvancedVisualizer.ExtraGroups | components/analysis/advanced-visualizer.tsx:53-141 | each extra comes from one of the four groups |
| AdvancedVisualizer.ExtraShapeOf | components/analysis/advanced-visualizer.tsx:56-141 | every extra has the columns, kind and priority of the group that pushed it |
| AdvancedVisualizer.ExtraOrigin | components/analysis/advanced-visualizer.tsx:56-141 | what each extra needs and which columns it charts, by kind; no extra is a bar chart |
| AdvancedVisualizer.ExtraPriorities | components/analysis/advanced-visualizer.tsx:56-141 | every extra has a priority from 50 to 80, and only the correlation plot has 80 |
| AdvancedVisualizer.ComparisonExtras | components/analysis/advanced-visualizer.tsx:112-121 | exactly max(0, min(3, n - 1)) comparisons; the i-th charts numeric columns i and i+1 with priority 60 - 5i |
| AdvancedVisualizer.TwoNumericExtras | components/analysis/advanced-visualizer.tsx:56-89 | trend, cumulative, correlation plot and radar iff two numeric columns; the radar charts at most five of them |
| AdvancedVisualizer.CategoryExtras | components/analysis/advanced-visualizer.tsx:91-109 | pie and distribution iff a string column and a numeric column; both chart only the first numeric column |
| AdvancedVisualizer.StackedExtras | components/analysis/advanced-visualizer.tsx:124-141 | the stacked charts iff three numeric columns; both chart the first three |
| AdvancedVisualizer.TopAndOtherSplit | components/analysis/advanced-visualizer.tsx:152-154 | top and other make up the ranking; top has min(3, n) entries, and none of the others outranks them |
| AdvancedVisualizer.CorrelationPlotFirst | components/analysis/advanced-visualizer.tsx:73-80 | with two numeric columns the correlation plot is ranked first |
| AdvancedVisualizer.PlotMerged | components/analysis/advanced-visualizer.tsx:144-145 | the correlation plot survives the cut to fifteen |
| AdvancedVisualizer.MergedPriorities | components/analysis/advanced-visualizer.tsx:144-146 | priorities are at most 80, and only the correlation plot has 80 |
| AdvancedVisualizer.UniqueMaximumFirst | components/analysis/advanced-visualizer.tsx:146 | an entry with a priority above all others is sorted to the front |
| AdvancedVisualizer.InitialState | components/analysis/advanced-visualizer.tsx:152-164 | the first-ranked chart is selected with its own columns, or nothing when the ranking is empty; with two numeric columns that is the correlation plot of the first two |
| AdvancedVisualizer.NoNumericNothing | components/analysis/advanced-visualizer.tsx:47-164 | without numeric columns nothing is recommended or selected, and no column is charted |
| AdvancedVisualizer.EqualPrioritiesKeepOrder | components/analysis/advanced-visualizer.tsx:146 | charts of equal priority keep their pushing order |
| CorrelationInsights.NumericDeclared | frontend/components/analysis/correlation-analysis.tsx:56-59 | at most one entry per declared column |
| CorrelationInsights.NumericDeclaredAre | frontend/components/analysis/correlation-analysis.tsx:56-59 | a declared column is kept iff its first non-blank cell converts with `Number` |
| CorrelationInsights.StringLessIrreflexive | frontend/components/analysis/correlation-analysis.tsx:132 | no column name is below itself, so the diagonal is never listed |
| CorrelationInsights.StringLessAsymmetric | frontend/components/analysis/correlation-analysis.tsx:132 | of a pair and its mirror at most one passes `col1 < col2` |
| CorrelationInsights.RowPairsAre | frontend/components/analysis/correlation-analysis.tsx:129-138 | a row's pairs are exactly its entries that pass the filter, each with its value as read |
| CorrelationInsights.CandidatesAre | frontend/components/analysis/correlation-analysis.tsx:127-139 | a pair is a candidate iff row col1 holds a cell under col2 that reads as a number above 0.7 in absolute value, with col1 < col2 |
| CorrelationInsights.StrongCorrelationsFacts | frontend/components/analysis/correlation-analysis.tsx:127-141 | at most five pairs (all candidates when there are no more), strongest first, each a candidate; never a pair and its mirror |
| CorrelationInsights.RowPairsDistinct | frontend/components/analysis/correlation-analysis.tsx:127-137 | a row whose keys are distinct yields no pair of columns twice |
| CorrelationInsights.CandidatesDistinct | frontend/components/analysis/correlation-analysis.tsx:127-138 | a matrix whose row keys, and the keys of each row, are distinct yields no pair of columns twice |
| CorrelationInsights.StrongCorrelationsDistinct | frontend/components/analysis/correlation-analysis.tsx:127-141 | for such a matrix, as every JSON object is, the list never names the same pair of columns twice |
| CorrelationInsights.StrongestKept | frontend/components/analysis/correlation-analysis.tsx:140-141 | a candidate left out is no stronger than any pair listed |
| CorrelationInsights.NullNeverListed | frontend/components/analysis/correlation-analysis.tsx:130-133 | a `null` or boolean cell reads as NaN and is never listed |
| Orchestrator.AgentState.constructor | backend/agents/orchestrator.py:14-28 | a request starts with its task type, no messages, no delegation, no results and no output |
| Orchestrator.Route | backend/agents/orchestrator.py:44-55 | meeting → meeting agent, data_quality → quality agent, report → report writer, and any other type, known or not, → data analyst |
| Orchestrator.RouterAgent | backend/agents/orchestrator.py:39-60 | sets the routed agent, clears any delegation, appends one routing message, and creates the results only when absent |
| Orchestrator.AgendaStart | backend/agents/orchestrator.py:163-166 | the flag turns on at the first line holding 09:00, 10:00 or 11:00 |
| Orchestrator.FallbackSplit | backend/agents/orchestrator.py:158-171 | research and agenda lines make up the reply in order; the cut is at the first time marker |
| Orchestrator.SplitContent | backend/agents/orchestrator.py:148-174 | both parts are stripped |
| Orchestrator.SplitReply | backend/agents/orchestrator.py:148-174 | the split the branches and the line loop compute is the three-way split, both parts stripped |
| Orchestrator.MeetingOutput | backend/agents/orchestrator.py:176-193 | exactly the keys agenda and research; on a reply each is at least 50 characters long, on a failure each holds its error text |
| Orchestrator.MeetingAgent | backend/agents/orchestrator.py:63-196 | stores the output and ends the run, on both paths, changing nothing else |
| Orchestrator.AgendaBetweenMarkers | backend/agents/orchestrator.py:148-151 | the agenda is the stripped text between the first and second bold agenda headings; the research is the text before the first, without the research heading |
| Orchestrator.BoldPartsAt | backend/agents/orchestrator.py:149-151 | `split` parts 0 and 1 lie before the first heading and between the first two |
| Orchestrator.KeptWhenLong | backend/agents/orchestrator.py:176-184 | parts of at least 50 characters are stored as split |
| Orchestrator.BoldSplitOfPromptFormat | backend/agents/orchestrator.py:148-151 | the prompted format is split into its stripped parts |
| Orchestrator.PromptFormatRoundTrip | backend/agents/orchestrator.py:148-184 | a reply in the prompted format with long enough parts yields exactly those parts, stripped |
| Orchestrator.BoldHasPlain | backend/agents/orchestrator.py:148-152 | a text with the bold heading has the plain one |
| Orchestrator.TimeSplitOfLines | backend/agents/orchestrator.py:156-174 | lines joined are cut at the first line with a time marker |
| Orchestrator.AgendaStartIs | backend/agents/orchestrator.py:163-166 | the first line with a time marker is where the agenda starts |
| Orchestrator.FallbackRoundTrip | backend/agents/orchestrator.py:152-174 | a reply with no agenda heading is cut at its first line with a time marker |
| Orchestrator.ColumnType | backend/agents/orchestrator.py:265 | "numeric" iff the column is numeric, "text" otherwise |
| Orchestrator.AllColumnsList | backend/agents/orchestrator.py:262-266 | one line per column, in frame order, each naming the column and its type |
| Orchestrator.ReportWriterAgent | backend/agents/orchestrator.py:347-371 | without an analysis it delegates to the data analyst and leaves the output alone; with one it stores the report and ends the run |
| MeetingOnlyOrchestrator.MeetingOnlyRouterAgent | backend/agents/orchestrator_meeting_only.py:39-60 | the same decisions as the main router |
| MeetingOnlyOrchestrator.MarkerSplit | backend/agents/orchestrator_meeting_only.py:122-125 | without the bold heading the agenda points to the research and the research is the stripped reply; with it, the bold split |
| MeetingOnlyOrchestrator.MeetingOnlyOutput | backend/agents/orchestrator_meeting_only.py:122-136 | exactly the two keys; a failure stores the same error text twice |
| MeetingOnlyOrchestrator.MeetingOnlyAgent | backend/agents/orchestrator_meeting_only.py:63-139 | stores the output and ends the run, changing nothing else |
| MeetingOnlyOrchestrator.AgreesWithMainSplit | backend/agents/orchestrator_meeting_only.py:122-127 | with the bold heading and long enough parts both orchestrators store the same output |
| MeetingOnlyOrchestrator.MeetingOnlyRoundTrip | backend/agents/orchestrator_meeting_only.py:122-127 | the prompted format yields exactly its stripped parts, with no length check |
| QualityReport.FieldAfterColon | frontend/components/analysis/quality-report.tsx:64 | the text after the first colon up to the next one, stripped |
| QualityReport.KeyedField | frontend/components/analysis/quality-report.tsx:64-75 | a value iff the line holds the key |
| QualityReport.NonBlank | frontend/components/analysis/quality-report.tsx:60 | exactly the lines with something besides whitespace |
| QualityReport.ParseQualityMetrics | frontend/components/analysis/quality-report.tsx:59-79 | the figures are read from the non-blank lines in order |
| QualityReport.LastFound | frontend/components/analysis/quality-report.tsx:63-76 | no value iff no line gives one |
| QualityReport.ParseFieldwise | frontend/components/analysis/quality-report.tsx:63-76 | every figure is the last value its key gave |
| QualityReport.LastFoundIs | frontend/components/analysis/quality-report.tsx:63-76 | later lines without the key change nothing |
| QualityReport.BlankHoldsNoKey | frontend/components/analysis/quality-report.tsx:60-75 | a blank line holds no key |
| QualityReport.BlankStep | frontend/components/analysis/quality-report.tsx:63-76 | a blank line leaves the figures as they are |
| QualityReport.BlankLinesIgnored | frontend/components/analysis/quality-report.tsx:60-78 | dropping blank lines first changes no figure |
| QualityReport.KeyedLineRoundTrip | frontend/components/analysis/quality-report.tsx:64-75 | "- Key: value" gives back the value |
| QualityReport.RowsLineRoundTrip | frontend/components/analysis/quality-report.tsx:64 | the analyst's rows line gives back its row count |
| QualityReport.CountsLineRoundTrip | frontend/components/analysis/quality-report.tsx:65-71 | the analyst's column-count line gives back its three counts |
| QualityReport.CountsLineOf | frontend/components/analysis/quality-report.tsx:65-71 | after a text holding the key and no digit, the three counts are read back |
| QualityReport.GroupsAt | frontend/components/analysis/quality-report.tsx:90 | the greedy groups settle on the longest name and then the longest type |
| QualityReport.ColumnsOf | frontend/components/analysis/quality-report.tsx:87-93 | at most one column per line |
| QualityReport.ColumnLineMatch | frontend/components/analysis/quality-report.tsx:90-91 | "  - name (type)" reads as that column, when the type has no space |
| QualityReport.ColumnLineReadBack | frontend/components/analysis/quality-report.tsx:88-91 | the analyst's line for a column is an item and reads back as the column and its type |
| QualityReport.ColumnsOfItems | frontend/components/analysis/quality-report.tsx:87-93 | matching item lines give their columns, in order |
| QualityReport.ExtractAfterHeading | frontend/components/analysis/quality-report.tsx:82-93 | the columns are read from the lines after the first heading |
| QualityReport.ExtractColumnsAt | frontend/components/analysis/quality-report.tsx:84-87 | where the heading is found, the lines after it are read |
| QualityReport.MarkerIsHeading | frontend/components/analysis/quality-report.tsx:84 | the heading the analyst writes is found as the heading |
| QualityReport.ExtractColumnsRoundTrip | frontend/components/analysis/quality-report.tsx:82-94 | the analyst's column list is read back whole, each column with its assigned type |
| MeetingText.ClockAt | components/meeting-agent/meeting-agent-client.tsx:112 | a match is a clock time `\d{1,2}:\d{2}` |
| MeetingText.TimeFirstAt | components/meeting-agent/meeting-agent-client.tsx:112 | a match has two clock times, digit minutes and a one-line title |
| MeetingText.HeadingLineRoundTrip | components/meeting-agent/meeting-agent-client.tsx:112 | a heading "HH:MM-HH:MM (N min) **Title**" reads back as its parts |
| MeetingText.NoColonNoHeading | components/meeting-agent/meeting-agent-client.tsx:112 | a line without a colon is no time-first heading |
| MeetingText.ParenLastNoHeading | components/meeting-agent/meeting-agent-client.tsx:112 | a line whose only ')' is its last character is no time-first heading |
| MeetingText.BulletEnd | components/meeting-agent/meeting-agent-client.tsx:143 | a match is a bullet followed by the whole run of whitespace after it |
| MeetingText.StripBullet | components/meeting-agent/meeting-agent-client.tsx:145 | the text after a leading bullet and its whitespace, or the text itself |
| MeetingText.StripBulletOf | components/meeting-agent/meeting-agent-client.tsx:145 | "- text" loses exactly "- " |
| MeetingText.ItemOf | components/meeting-agent/meeting-agent-client.tsx:121-128 | a card's time, duration and trimmed title come from its heading, with no points yet |
| MeetingText.OneItemPerHeading | components/meeting-agent/meeting-agent-client.tsx:106-157 | one card per heading, in heading order |
| MeetingText.NoHeadingNoItems | components/meeting-agent/meeting-agent-client.tsx:143-157 | points before any heading are dropped; with no heading there are no cards |
| MeetingText.ItemCollects | components/meeting-agent/meeting-agent-client.tsx:115-155 | a heading gets exactly the points up to the next heading, in order |
| MeetingText.SingleItem | components/meeting-agent/meeting-agent-client.tsx:115-155 | a heading followed by points makes a single card |
| MeetingText.FirstRule | components/meeting-agent/meeting-agent-client.tsx:183-190 | the section of the first matching rule, or none when the line holds no rule's word |
| MeetingText.Sections.Push | components/meeting-agent/meeting-agent-client.tsx:193 | the section grows by one point, and the others are unchanged |
| MeetingText.Sections.ToMap | components/meeting-agent/meeting-agent-client.tsx:172-177 | exactly the four keys, each holding its section |
| MeetingText.ResearchPoint | components/meeting-agent/meeting-agent-client.tsx:193 | the stored point is trimmed |
| MeetingText.ResearchSections | components/meeting-agent/meeting-agent-client.tsx:179-198 | the loop over the lines gives the sections of the research text |
| MeetingText.NoHeadingNoPoints | components/meeting-agent/meeting-agent-client.tsx:180-195 | without a heading line every section stays empty |
| MeetingText.SectionCollects | components/meeting-agent/meeting-agent-client.tsx:182-196 | a heading line is never stored; its section gets exactly the points up to the next heading, and the others are unchanged |
| MeetingText.CardLines | components/meeting-agent/meeting-agent-client.tsx:103 | a heading and bulleted points joined with line breaks split back into those lines |
| MeetingAgentClient.TitleFirstAt | components/meeting-agent/meeting-agent-client.tsx:113 | a match has a one-line title, two clock times and digit minutes |
| MeetingAgentClient.TitleFirstRoundTrip | components/meeting-agent/meeting-agent-client.tsx:113 | "**Title** - HH:MM-HH:MM (N min)" reads back as its parts |
| MeetingAgentClient.NoColonNoTitleFirst | components/meeting-agent/meeting-agent-client.tsx:113 | a line without a colon is no title-first heading |
| MeetingAgentClient.StripNumber | components/meeting-agent/meeting-agent-client.tsx:145 | the text after a leading "N. " and its whitespace, or the text itself |
| MeetingAgentClient.AgendaPoint | components/meeting-agent/meeting-agent-client.tsx:145 | the point is trimmed and no longer than the line |
| MeetingAgentClient.ClassifyLine | components/meeting-agent/meeting-agent-client.tsx:107-149 | a point kept is trimmed and its `length`, in UTF-16 code units, is above three |
| MeetingAgentClient.AstralPointKept | components/meeting-agent/meeting-agent-client.tsx:145-146 | "- 😀😀" is kept: two characters beyond the Basic Multilingual Plane have length 4 |
| Text.Utf16Length | components/meeting-agent/meeting-agent-client.tsx:146 | `length` counts one unit per character of the Basic Multilingual Plane and two beyond it: between the number of characters and twice that, equal to it iff no character lies beyond |
| MeetingAgentClient.ReadAgendaLine | components/meeting-agent/meeting-agent-client.tsx:106-149 | one loop iteration is one step on the classified line |
| MeetingAgentClient.ParseAgendaItems | components/meeting-agent/meeting-agent-client.tsx:97-158 | the cards of the classified lines; none for a missing or empty text |
| MeetingAgentClient.BulletPointRead | components/meeting-agent/meeting-agent-client.tsx:143-148 | "- text" is kept whole when its length in UTF-16 code units is above three |
| MeetingAgentClient.NumberedPointRead | components/meeting-agent/meeting-agent-client.tsx:143-148 | "N. text" loses its number and is kept |
| MeetingAgentClient.TimeFirstHeadingRead | components/meeting-agent/meeting-agent-client.tsx:112-128 | the agent's heading opens a card |
| MeetingAgentClient.TitleFirstHeadingRead | components/meeting-agent/meeting-agent-client.tsx:113-142 | the title-first heading opens a card when its title has no ')' |
| MeetingAgentClient.CardRoundTrip | components/meeting-agent/meeting-agent-client.tsx:97-158 | a heading and bulleted points are read back as one card holding those points |
| MeetingAgentClient.ParseResearchSections | components/meeting-agent/meeting-agent-client.tsx:162-199 | a missing or empty text gives four empty sections; otherwise the sections of the text |
| MeetingViewClient.ViewPointOrOther | frontend/components/meeting-agent/meeting-view-client.tsx:282-284 | a point kept is non-empty and trimmed |
| MeetingViewClient.ReadAgendaLine | frontend/components/meeting-agent/meeting-view-client.tsx:269-286 | one loop iteration is one step on the classified line |
| MeetingViewClient.ParseAgendaItems | frontend/components/meeting-agent/meeting-view-client.tsx:264-289 | the cards of the classified lines |
| MeetingViewClient.ParseResearchSections | frontend/components/meeting-agent/meeting-view-client.tsx:291-319 | the same sections as the meeting screen, with no guard |
| MeetingViewClient.BulletLeavesText | frontend/components/meeting-agent/meeting-view-client.tsx:282-284 | the test `if (point)` never fails: a trimmed bullet line always leaves trimmed text |
| MeetingViewClient.BulletPointRead | frontend/components/meeting-agent/meeting-view-client.tsx:282-284 | "- text" is kept whole, however short |
| MeetingViewClient.TimeFirstHeadingRead | frontend/components/meeting-agent/meeting-view-client.tsx:271-281 | the agent's heading opens a card |
| MeetingViewClient.CardRoundTrip | frontend/components/meeting-agent/meeting-view-client.tsx:264-289 | a heading and bulleted points are read back as one card holding those points |
| MeetingViewClient.AgreesWithAgentScreen | frontend/components/meeting-agent/meeting-view-client.tsx:264-289 | on the prompted format this page shows the same cards as the meeting screen |
| MeetingViewClient.TitleFirstIsOther | frontend/components/meeting-agent/meeting-view-client.tsx:271-285 | this page reads the title-first heading as neither a heading nor a point |
| MeetingViewClient.TitleFirstDropped | frontend/components/meeting-agent/meeting-view-client.tsx:271-285 | a title-first heading is dropped here, though the meeting screen opens a card for it |
| MeetingViewClient.DashSpaces | frontend/components/meeting-agent/meeting-view-client.tsx:168 | no whitespace is left, and the text never grows |
| MeetingViewClient.Slug | frontend/components/meeting-agent/meeting-view-client.tsx:168 | the slug has no whitespace and is no longer than the topic |
| MeetingViewClient.DashSpacesJoin | frontend/components/meeting-agent/meeting-view-client.tsx:168 | words separated by single spaces come out separated by dashes |
| MeetingViewClient.SlugIdempotent | frontend/components/meeting-agent/meeting-view-client.tsx:168 | a slug is its own slug |
| MeetingViewClient.SlugOfWords | frontend/components/meeting-agent/meeting-view-client.tsx:168 | a topic of words becomes the lower-cased words joined by dashes |
| MeetingViewClient.ExportNamesOfWords | frontend/components/meeting-agent/meeting-view-client.tsx:85 | "meeting-", the lower-cased words joined by dashes, then the time stamp and ".json" (or the extension at lines 168 and 255) |
| MeetingViewClient.ExportNamesHaveNoWhitespace | frontend/components/meeting-agent/meeting-view-client.tsx:255 | no export name holds whitespace |
| ScheduledReports.DaysInMonth | frontend/app/api/scheduled-reports/create/route.ts:84 | every month has 28 to 31 days |
| ScheduledReports.MonthStartStep | frontend/app/api/scheduled-reports/create/route.ts:84 | a month ends where the next one starts |
| ScheduledReports.MonthOfDay | frontend/app/api/scheduled-reports/create/route.ts:84 | the month holding a day: it starts on or before the day, and the next one after it |
| ScheduledReports.MonthOfDayIs | frontend/app/api/scheduled-reports/create/route.ts:84 | a day belongs to one month only |
| ScheduledReports.DateOf | frontend/app/api/scheduled-reports/create/route.ts:71 | `getDate()` lies between 1 and the month's length |
| ScheduledReports.WeekDay | frontend/app/api/scheduled-reports/create/route.ts:75 | `getDay()` lies in 0..6 |
| ScheduledReports.MakeDateFields | frontend/app/api/scheduled-reports/create/route.ts:67 | a day and a time within it make a time value that gives them back |
| ScheduledReports.OnDateAddsDays | frontend/app/api/scheduled-reports/create/route.ts:71 | setting the date to today's + k moves the time by exactly k days, across any month end |
| ScheduledReports.DateRollsOver | frontend/app/api/scheduled-reports/create/route.ts:84 | a date past the month's end lands in the next month, counted on from its end |
| ScheduledReports.DateWithinMonth | frontend/app/api/scheduled-reports/create/route.ts:84 | a date within the month stays in it |
| ScheduledReports.OnNextMonth | frontend/app/api/scheduled-reports/create/route.ts:86 | `setMonth(getMonth() + 1)` on a date from 1 to 28 gives that date in the next month |
| ScheduledReports.Date.constructor | frontend/app/api/scheduled-reports/create/route.ts:66 | `new Date(now)` holds the same time value |
| ScheduledReports.Date.SetHours | frontend/app/api/scheduled-reports/create/route.ts:67 | the time becomes the given time of day on the same day |
| ScheduledReports.Date.SetDate | frontend/app/api/scheduled-reports/create/route.ts:71 | the time becomes the given date of the month |
| ScheduledReports.Date.SetMonth | frontend/app/api/scheduled-reports/create/route.ts:86 | the time becomes the given month, keeping the date and the time of day |
| ScheduledReports.AdvanceDaily | frontend/app/api/scheduled-reports/create/route.ts:69-72 | the daily branch moves the date to the daily run |
| ScheduledReports.AdvanceWeekly | frontend/app/api/scheduled-reports/create/route.ts:73-81 | the weekly branch moves the date to the weekly run |
| ScheduledReports.AdvanceMonthly | frontend/app/api/scheduled-reports/create/route.ts:82-88 | the monthly branch moves the date to the monthly run |
| ScheduledReports.AdvanceDate | frontend/app/api/scheduled-reports/create/route.ts:69-88 | the branches, by frequency |
| ScheduledReports.CalculateNextRunTime | frontend/app/api/scheduled-reports/create/route.ts:62-91 | the first run time, or an Invalid Date (`None`) when the time of day does not read as numbers |
| ScheduledReports.DigitsPart | frontend/app/api/scheduled-reports/create/route.ts:64 | a run of digits reads as its value |
| ScheduledReports.ClockSplit | frontend/app/api/scheduled-reports/create/route.ts:64 | "h:m" splits into h and m |
| ScheduledReports.DefaultIsNine | frontend/app/api/scheduled-reports/create/route.ts:64 | with no time of day, absent or empty, the report runs at 09:00 |
| ScheduledReports.ClockTimeRead | frontend/app/api/scheduled-reports/create/route.ts:64 | "h:m" reads as h hours and m minutes |
| ScheduledReports.SlotFields | frontend/app/api/scheduled-reports/create/route.ts:66-67 | the slot is today, at the requested hour and minute |
| ScheduledReports.DailyNextRun | frontend/app/api/scheduled-reports/create/route.ts:69-72 | the next occurrence of the time of day: today if still ahead, else tomorrow; after now and at most a day away |
| ScheduledReports.DefaultDailyRun | frontend/app/api/scheduled-reports/create/route.ts:64-72 | a daily report without a time of day runs at the next 09:00 |
| ScheduledReports.DaysToAddReachesTarget | frontend/app/api/scheduled-reports/create/route.ts:76-77 | the days added reach the target weekday, and are 1 to 7 for targets 1 to 7 |
| ScheduledReports.WeeklyNextRun | frontend/app/api/scheduled-reports/create/route.ts:73-81 | on the target weekday (mod 7), after today and after now, at the exact time, within 7 days for targets 1 to 7; the week-on correction never applies |
| ScheduledReports.SundayRunsOnMonday | frontend/app/api/scheduled-reports/create/route.ts:74 | Sunday (0) and a missing weekday are both scheduled on a Monday |
| ScheduledReports.MonthlyFirst | frontend/app/api/scheduled-reports/create/route.ts:83-84 | the first candidate is the target date of the slot's month, at the slot's time |
| ScheduledReports.NextMonthAfter | frontend/app/api/scheduled-reports/create/route.ts:85-86 | one month on lies after now's month |
| ScheduledReports.MonthlyAfterNow | frontend/app/api/scheduled-reports/create/route.ts:82-88 | a target date of at least 1 runs after now at the exact time |
| ScheduledReports.MonthlyOnTargetDate | frontend/app/api/scheduled-reports/create/route.ts:82-88 | a target from 1 to 28 is the run's date, this month or the next |
| ScheduledReports.OtherFrequencyIsToday | frontend/app/api/scheduled-reports/create/route.ts:66-68 | any other frequency keeps today's slot, even one that has passed |
| ScheduledReports.PastSlotKept | frontend/app/api/scheduled-reports/create/route.ts:69-90 | an "hourly" report at noon is due at 09:00, three hours earlier |

## Left out

- Authentication, database reads and inserts, HTTP requests and responses, `fetch`, React state and rendering, and logging are left out. The model starts from the parsed request body or the props, and stops at the value that would be stored, returned or shown.
- Chart drawing is left out: the chart components, colours, the heatmap's hues and `toFixed` formatting. The model covers what is charted, not how.
- Only the initial state of the advanced visualiser is modelled: the first selection and its columns. Later user choices are not.
- Calls to the language model are left out. Each reply is an input that can also be a failure, and the prompt texts are not modelled.
- Of `data_analyst_agent` and `quality_agent` in orchestrator.py, only the loop listing every column with its type is modelled (`Orchestrator.AllColumnsList`). Their statistics, correlations, quartiles, duplicate counts and rounding are computed by pandas, which is not part of this model.
- The LangGraph wiring in `create_agent_graph` is left out; the routing decision it follows is `Orchestrator.Route`.
- `Math.sqrt` is a parameter, `sqrt`. The lemmas that need its value require it to be a true non-negative square root.
- Each `Math.random()` draw is a parameter in `[0, 1)`.
- The clock is a parameter:
  - `new Date()` in the scheduler is the `now` of `ScheduledReports.CalculateNextRunTime`;
  - `Date.now()` in the export name is the `now` of `MeetingViewClient.JsonExportName`.
- Time values are local milliseconds on the proleptic Gregorian calendar. Time zones, daylight-saving shifts and the ±8.64·10^15 ms range of a JavaScript `Date` are left out.
- The scheduler's `dayOfWeek` and `dayOfMonth` are whole numbers or absent. A fractional, NaN or non-numeric value from the request body is not modelled.
- Numbers are exact reals. Rounding, overflow to infinity and negative zero are not modelled.
- Only the NaN that arises in the source is modelled: a failed conversion, or 0/0 in the correlation coefficient, where it is `None`.
- `Number()` and `parseFloat` are modelled on decimal literals. Hexadecimal, octal and binary literals, `Infinity`, and a leading "." with no digits before or after it are read as NaN.
- Whitespace for `trim`, `strip`, `\s` and `split` is the six ASCII whitespace characters. JavaScript's trim also removes non-breaking spaces, U+FEFF and the Unicode space separators.
- JavaScript's `<` on strings compares UTF-16 code units. The model compares characters, which differ only for characters outside the Basic Multilingual Plane.
- `toLowerCase()` is modelled on ASCII letters.
- `MeetingAgentClient.ParseAgendaItems`: the `presenter` field of the meeting screen's cards is always `""` and is not part of the card record. The guard `typeof agendaText !== "string"` is modelled by taking `Option<string>`: a value that is not a string is `None`.
- The research sections are a record with four fields, which stands in for the four-key JavaScript object; `MeetingText.Sections.ToMap` gives the object's view.
- Objects whose key order is observable (the statistics, correlation and outlier records, the data-quality counts) are lists of entries in insertion order; `Records.OwnKeys` gives the order JavaScript lists them in. A chart row is a map, as nothing reads its key order.
- `Records.IsArrayIndex` covers decimal keys up to 2^32 - 2. Keys that are symbols do not arise.
- In `Orchestrator.MeetingAgent`, an exception from the model call is the reply's `Failure` case. Other exceptions in the splitting code cannot arise in the model.
- Exceptions in the report writer are left out, so the model has no failure case for its call to the language model.
- The plain-heading split (`Orchestrator.PlainSplit`) follows the code as written. In that case of orchestrator.py, "RESEARCH:" is removed before "**RESEARCH:**", so a bold research heading leaves "****" behind.
