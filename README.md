# WBLCA benchmark dashboard: a Dafny model of its chart pipeline

This project models the computational core of the whole-building life-cycle assessment
(WBLCA) benchmark dashboard, `dashboard/app.py`. The dashboard joins per-material results
to building metadata and turns user selections into bar charts. The model covers:

- the derived intensity metrics (`mui`, `eci`, `gwp_factor`) and their division-by-zero rule;
- the filter engine: per-feature membership filters chosen in the "Add Filters" dropdowns,
  the options those dropdowns offer, and the record of selections kept for restoring them;
- the material view (`process_data`): the product-stage / new-construction pre-filter, the
  rule that a metric value of 0 counts as missing, per-project sums taken before the mean or
  median, and the two computation paths. "Code 1" is taken when the category is a building
  metadata column and "Code 2" otherwise. Each path has an unstacked and a stacked chart,
  with the 100% option;
- the building view (`update_bar_chart`): grouping by a category, optional stacking, the
  sum / mean / median / count aggregations, quartile error bars, orientation, grid and
  labels.

Tables are sequences of rows, and a row maps column names to optional cells (text or number).
A missing cell is `None`, and so is a pandas `NaN` or `inf` that arises from a zero
denominator. Charts are a `Figure.Chart` value that records only the properties the
dashboard sets on its Plotly figures.

Modules:

| module | file | role |
|---|---|---|
| `Table` | `table.dfy` | cells, rows, `isin`, groups, distinct values, the sorted group keys |
| `Sorting` | `sorting.dfy` | insertion sort under a total preorder (Python's `sorted`, pandas' key sort) |
| `Stats` | `stats.dfy` | NaN-skipping sum, mean, median, linear-interpolation quantile, normalising and shares |
| `Derived` | `derived.dfy` | the derived metrics and the zero-to-missing rule |
| `Filters` | `filters.dfy` | the filter loop, the stored selections and the dropdown builder |
| `Figure` | `figure.dfy` | the chart description, the placeholder figure, sizes, `capitalize` |
| `Material` | `material.dfy` | `process_data` |
| `Building` | `building.dfy` | `update_bar_chart` |

The two callbacks are modelled as methods (`Material.ProcessData`, `Building.UpdateBarChart`)
that apply the filter loop (`Filters.ApplyFilters`) and are proved equal to a chart function
of their inputs. That function's properties are proved as lemmas.

Behaviour of the code that the model reproduces and that a reader might not expect:

- Mean error bars can be negative, because the mean can lie outside the quartiles.
  `Building.MeanErrorExtentCanBeNegative` exhibits a sample where this happens. For the
  median the extents are never negative (`Building.ErrorExtentsSpanQuartiles`).
- The stack values of a stacked building bar, and of a Code 1 material bar, are in pandas'
  sorted group-key order. Code 2's material segments are ordered tallest first
  (`sort_values`).
- Code 2's stacked chart keeps a log axis in 100% mode (`dashboard/app.py:954`), while Code 1
  switches to a linear axis there (`dashboard/app.py:817`). `Material.StackedAxes` states
  each path as written.
- The code names error columns for a stacked mean or median chart whose table lacks them;
  see Findings.

## Model

| member | source | states |
|---|---|---|
| Derived.Quotient | dashboard/app.py:59-67 | a derived metric is missing exactly when the numerator or denominator is missing or the denominator is 0; otherwise it times the denominator gives the numerator |
| Derived.DeriveRow | dashboard/app.py:59-67 | `mui` = inv_mass / bldg_cfa, `eci` = gwp / bldg_cfa, `gwp_factor` = gwp / inv_mass, each missing on a zero or missing denominator; every other column is unchanged |
| Derived.DeriveMetrics | dashboard/app.py:59-67 | the table keeps its length and every row gains the three derived columns |
| Derived.ZeroToMissingRow | dashboard/app.py:655 | a 0 in the metric becomes missing, any other cell stays, and other columns are untouched |
| Derived.ZeroToMissing | dashboard/app.py:655 | the material table keeps its rows, each with no 0 left in the metric |
| Table.Isin | dashboard/app.py:660 | a row survives `isin` exactly when its cell is one of the listed values; a missing cell never survives; never more rows than the input |
| Table.IsinCounts | dashboard/app.py:660 | `isin` keeps each surviving row as many times as it occurs in the input, and drops every copy of the others |
| Table.IsinIsSubsequence | dashboard/app.py:660 | `isin` keeps the rows in their original order |
| Table.Group | dashboard/app.py:1069-1070 | a group holds exactly the rows whose key cell equals the key |
| Table.GroupCounts | dashboard/app.py:1069-1070 | a group holds each of its rows as many times as the table does, so sums and counts see every duplicate |
| Table.GroupKeys | dashboard/app.py:1063 | `sorted(t[col].dropna().unique())`: each present value once, in ascending order, and nothing else |
| Table.Unique | dashboard/app.py:988 | the dropdown options are each present value of the column once, and no other value |
| Sorting.Sort | dashboard/app.py:1063 | `sorted` returns a rearrangement of its input: the same elements, each as often |
| Sorting.SortSorted | dashboard/app.py:1063 | under a total preorder, `sorted` returns an ascending sequence |
| Stats.Mean | dashboard/app.py:1118-1120 | the mean exists exactly when some value is present, and times the number of present values it gives their sum |
| Stats.Median | dashboard/app.py:1118-1120 | the median exists exactly when some value is present |
| Stats.SumIsTotalOfPresent | dashboard/app.py:1078-1080 | the NaN-skipping sum is the total of exactly the present values, in order |
| Stats.Quantile | dashboard/app.py:1119 | the quantile exists exactly when some value is present, and lies between two present values |
| Stats.InterpolateBetween | dashboard/app.py:1119 | on sorted data, linear interpolation at a level in [0, 1] lies between two of the data values |
| Stats.MedianIsMiddleQuantile | dashboard/app.py:1118-1120 | the median equals the 0.5 quantile under linear interpolation |
| Stats.QuartilesBracketMedian | dashboard/app.py:1118-1120 | Q1 and Q3 exist exactly when the median does, and Q1 <= median <= Q3 |
| Stats.InterpolateMonotone | dashboard/app.py:1119 | on sorted data a higher quantile level never yields a lower quantile |
| Stats.Statistic.Of | dashboard/app.py:679-692 | `MeanOf` gives the mean and `MedianOf` the median of the values; either exists exactly when some value is present |
| Stats.Normalize | dashboard/app.py:775-777 | each value divided by the group total; all missing when the total is 0 |
| Stats.NormalizeSumsToOne | dashboard/app.py:775-777 | normalised values add up to 1 when the total is non-zero |
| Stats.Share | dashboard/app.py:1084-1087 | the contributions apportion the statistic by the raw values: a contribution is present exactly when its raw value, the statistic and a non-zero raw total are, and then it times the raw total equals its raw value times the statistic |
| Stats.ShareSumsToTotal | dashboard/app.py:1084-1087 | the contributions of one bar add up to the statistic they decompose |
| Filters.Zip | dashboard/app.py:658 | pairs features with selections up to the shorter list |
| Filters.Filtered | dashboard/app.py:657-660 | a row is kept exactly when every non-empty selection lists its cell; never more rows than the input |
| Filters.FilteredCounts | dashboard/app.py:657-660 | the filter keeps every admitted row as many times as it occurs, and drops every copy of the others |
| Filters.ApplyFilters | dashboard/app.py:657-660 | the filter loop returns exactly `Filtered` of the pairs |
| Filters.FilteredThen | dashboard/app.py:659-660 | one loop pass is one more `isin` for a non-empty selection and changes nothing for an empty one |
| Filters.FilteredAllAdmitted | dashboard/app.py:657-660 | rows every selection admits pass unchanged; with no selection the table is returned whole |
| Filters.FilteredIdempotent | dashboard/app.py:657-660 | filtering a filtered table again changes nothing |
| Filters.FilteredIsSubsequence | dashboard/app.py:657-660 | the filtered table keeps the input's row order |
| Filters.FilteredSameAdmission | dashboard/app.py:657-660 | selections admitting the same rows filter every table alike |
| Filters.AdmitsConcat | dashboard/app.py:657-660 | a row passes two selection lists together exactly when it passes each |
| Filters.FiltersCommute | dashboard/app.py:1053-1056 | the order in which features are chosen does not change the filtered table |
| Filters.FilteredTwice | dashboard/app.py:1053-1056 | filtering in two rounds equals filtering once by both selection lists |
| Filters.StoredSelections | dashboard/app.py:1009-1013 | the stored record holds exactly the features with a non-empty selection, each mapped to its last non-empty selection |
| Filters.StoreSelectedFilterValues | dashboard/app.py:1009-1013 | the stored record never maps a feature to an empty selection |
| Filters.StoredSelectionsFilterAlike | dashboard/app.py:1009-1013 | when each feature is chosen once, the stored record admits exactly the rows the live selections admit |
| Filters.FilterDropdowns | dashboard/app.py:971-1000 | one dropdown per selected feature, offering each present value of the column once and restoring its stored selection or none |
| Figure.Dimension | dashboard/app.py:1177-1178 | an unset or zero size falls back to the default, any other size passes through |
| Figure.Placeholder | dashboard/app.py:1035-1049 | the placeholder has no traces, the title "Please select features", blank axis titles, no grid, no error bars, and default sizes 800 x 600 |
| Figure.Capitalize | dashboard/app.py:700 | the statistic's name in titles: first letter upper case, the rest lower case, same length |
| Figure.NonEmptyBars | dashboard/app.py:1063-1080 | from strictly ascending categories: a bar exactly for each category whose bar has a segment, each bar its category's, in ascending category order, none repeated |
| Building.Aggregate | dashboard/app.py:1118-1120 | sum, mean or median of the group's present values |
| Building.Difference | dashboard/app.py:1125-1126 | an error extent is present exactly when both operands are, and added back it restores the minuend |
| Building.UnstackedBars | dashboard/app.py:1110-1132 | one bar per category present, in sorted category order, each its group's aggregate |
| Building.UnstackedBar | dashboard/app.py:1110-1129 | a count bar is the category's row count without extents; any other bar's value is the category's sum, mean or median of the metric |
| Building.RawContributions | dashboard/app.py:1076-1080 | each stack value's raw sum within the category |
| Building.PairCounts | dashboard/app.py:1093-1094 | each stack value's row count within the category |
| Building.StackedBarFor | dashboard/app.py:1065-1106 | a stacked bar's segments are labelled by the category's sorted stack values; counts are pair counts, sums are raw sums, and mean/median segments apportion the category statistic by the raw sums |
| Building.StackedCountSegment | dashboard/app.py:1093-1094 | a count segment is the number of the category's rows with its stack value |
| Building.StackedSumSegment | dashboard/app.py:1098-1103 | a sum segment is the metric's sum over the category's rows with its stack value |
| Building.StackedShareSegment | dashboard/app.py:1067-1087 | a mean/median segment is present exactly when the category statistic is and the raw total is non-zero; then it is its raw sum over the raw total, times the statistic |
| Building.StackedBars | dashboard/app.py:1063-1107 | exactly one bar per present category with a segment, in sorted category order, each that category's stacked bar |
| Building.ErrorColumns | dashboard/app.py:1148-1155 | error bars exactly for an unstacked mean or median with the checkbox on, naming columns the plotted table has, on the x axis exactly when horizontal |
| Building.StackedErrorColumnsMissing | dashboard/app.py:1148-1155 | as written, a stacked mean chart with error bars names the column `ErrorPlus`, which its table lacks |
| Building.UpdateBarChart | dashboard/app.py:1031-1185 | the placeholder with default-or-given size while a feature is unselected; otherwise the chart of the filtered table |
| Building.BuildingChart | dashboard/app.py:1063-1185 | the chart has the title, orientation, sizes, sorted category order, bar mode, error columns and the stacked or unstacked bars of the request |
| Building.TitleParts | dashboard/app.py:1165-1166 | the title starts "Bar Chart of" the metric (or "Counts") "by" the category, and ends with the stacking feature when stacked and with the category otherwise |
| Building.OrientationSwapsAxes | dashboard/app.py:1144-1183 | horizontal swaps the plotted columns and axis titles and moves the grid and error bars to the x axis; vertical keeps them on y |
| Building.ValueLabelCases | dashboard/app.py:1138-1141 | the value axis reads "Count" for an unstacked count, names the stacking feature when stacked, and is the metric otherwise |
| Building.StackedBarSumsToAggregate | dashboard/app.py:1066-1087 | a stacked mean or median bar's segments add up to the category's statistic when its raw total is non-zero |
| Building.StackedSegmentsSumToAggregate | dashboard/app.py:1066-1087 | the same for every bar of the stacked chart |
| Building.ErrorExtentsSpanQuartiles | dashboard/app.py:1117-1129 | with error bars on, the two extents span Q3 - Q1 and are non-negative for the median; otherwise no extents |
| Building.BarExtents | dashboard/app.py:1124-1129 | one unstacked bar: with error bars on, the extents span Q3 - Q1 and are non-negative for the median; otherwise there are none |
| Building.MeanErrorExtentCanBeNegative | dashboard/app.py:1124-1126 | for 0, 0, 0, 0, 100 the mean is 20, Q3 is 0 and the plus extent is -20 |
| Building.CountsAreRowCounts | dashboard/app.py:1093-1114 | with count, every bar or segment is its group's row count |
| Building.StackedCounts | dashboard/app.py:1093-1094 | with count, each segment of a stacked bar is its stack value's row count within the category |
| Material.StatisticOf | dashboard/app.py:679-692 | "mean" selects the mean; every other name selects the median |
| Material.PreFilter | dashboard/app.py:649-652 | exactly the A1-A3 rows of New Construction projects |
| Material.PreFilterCounts | dashboard/app.py:649-652 | the pre-filter keeps each such row as many times as it occurs |
| Material.PreparedRows | dashboard/app.py:649-660 | every aggregated row is product stage, new construction, passes every filter and has no 0 in the metric |
| Material.Projects | dashboard/app.py:666 | each project with a row, once |
| Material.TotalsOf | dashboard/app.py:665-670 | one present sum per project, over that project's rows |
| Material.GroupStatPresent | dashboard/app.py:827-848 | a Code 2 group's statistic exists exactly when a row of the group belongs to a project |
| Material.CategoryStatPresent | dashboard/app.py:664-692 | a Code 1 category's statistic exists exactly when a row of the category belongs to a project |
| Material.MeanIsPerProject | dashboard/app.py:827-841 | the mean is the group's metric total divided by its number of projects, so projects weigh equally whatever their row counts |
| Material.ProjectSumsPartition | dashboard/app.py:827-833 | the per-project sums of a group add up to the group's metric total |
| Material.Common | dashboard/app.py:722-734 | the projects of the category that also have the stack value, each once when the category's projects are distinct |
| Material.Fractions | dashboard/app.py:736-739 | each project's stack sum over its whole-project total, missing when that total is 0 |
| Material.MeanFractions | dashboard/app.py:742-754 | the statistic of each stack value's project fractions |
| Material.Code1Stacks | dashboard/app.py:722-754 | the stack values of a Code 1 bar are exactly those of rows of projects that have a row in the category, strictly ascending |
| Material.Code1Amounts | dashboard/app.py:756-770 | Code 1 amounts apportion the category statistic by the stack values' mean fractions |
| Material.Code1Bar | dashboard/app.py:756-780 | a Code 1 bar's segments are labelled by `Code1Stacks` in order, and their heights are the apportioned amounts, 100%-scaled if asked |
| Material.Code1Bars | dashboard/app.py:722-822 | exactly one Code 1 bar per present category with a segment, in sorted category order, each that category's bar |
| Material.KeepProjected | dashboard/app.py:904-908 | keeps exactly the stack values that some project has, and keeps them strictly ascending |
| Material.Code2Stacks | dashboard/app.py:904-908 | a stack value labels a Code 2 bar exactly when some row pairs it with the category and some project has it; strictly ascending |
| Material.StackStats | dashboard/app.py:882-900 | each stack value's statistic of per-project sums |
| Material.Code2Amounts | dashboard/app.py:910-916 | Code 2 amounts apportion the category statistic by the stack values' statistics |
| Material.Code2Sorted | dashboard/app.py:919-921 | the segments rearranged, tallest first and missing last |
| Material.Code2Bar | dashboard/app.py:910-928 | a Code 2 bar keeps the stack labels of the sorted segments in order, and its heights are the sorted amounts, 100%-scaled if asked |
| Material.ScaledSegments | dashboard/app.py:924-926 | every segment keeps its stack label and position; in 100% mode the heights are divided by the bar total, otherwise they are unchanged |
| Material.Code2Bars | dashboard/app.py:881-959 | exactly one Code 2 bar per present category with a segment, in sorted category order, each that category's bar |
| Material.SegmentSumPermutation | dashboard/app.py:919-921 | reordering the segments does not change their sum |
| Material.WithProject | dashboard/app.py:664-670 | only rows that belong to a project are grouped |
| Material.SimpleBar | dashboard/app.py:679-720 | an unstacked bar's height is the chosen mean or median of per-project sums: for Code 1 the whole-project totals of the category's projects, for Code 2 each project's sum within the category (lines 827-848); it exists exactly when the category has a project row, and there are no error extents |
| Material.SimpleBars | dashboard/app.py:851-879 | one bar per category with a project row, in sorted order, each with a value |
| Material.SimpleChart | dashboard/app.py:851-879 | the unstacked chart (Code 2 here, Code 1 alike at lines 694-720): the title "Bar Chart of <metric> by <category> (<Method>)", the category's bars, no bar mode, the category and metric as axis titles, log exactly when asked except that Code 2 leaves the axis type unset in 100% mode, given-or-default sizes |
| Material.StackedChart | dashboard/app.py:793-822 | the stacked chart (Code 1 here, Code 2 alike at lines 931-957): the title "Stacked Bar Plot of <stacking> Contributions by <category> (<Method>)", Code 1 or Code 2 bars, relative mode and `.0%` ticks exactly in 100% mode, Code 1 linear on [0, 1] there, and Code 1 giving each stack value of the bars one colour slot |
| Material.MaterialChart | dashboard/app.py:624-662 | the placeholder while a feature is unselected; otherwise the unstacked or stacked chart of the prepared table, Code 1 exactly when the category is a metadata column |
| Material.StacksOf | dashboard/app.py:789-790 | every stack value of the chart's segments is listed, and nothing else |
| Material.ProcessData | dashboard/app.py:624-959 | the placeholder with default-or-given size while a feature is unselected; otherwise the chart of the pre-filtered, zero-cleaned, filtered table |
| Material.Code1SegmentsSumToStatistic | dashboard/app.py:756-770 | Code 1 segments add up to the category's statistic when their fractions have a non-zero total |
| Material.Code2SegmentsSumToStatistic | dashboard/app.py:910-916 | Code 2 segments add up to the category's statistic when their stack statistics have a non-zero total |
| Material.Code1HundredPercent | dashboard/app.py:775-777 | in 100% mode a Code 1 bar adds up to 1 |
| Material.Code2HundredPercent | dashboard/app.py:924-926 | in 100% mode a Code 2 bar adds up to 1 |
| Material.Code2TallestFirst | dashboard/app.py:919-921 | Code 2 segments are in descending height with missing heights last |
| Material.StackedAxes | dashboard/app.py:796-820 | stacked material charts: relative bar mode and `.0%` ticks exactly in 100% mode; Code 1 is linear on [0, 1] there and log only when asked outside it; Code 2 is log whenever asked; y grid only |
| Material.SimpleAxes | dashboard/app.py:851-877 | unstacked material charts: no bar mode, the category and metric as axis titles, log when asked, Code 2 leaving the axis type unset in 100% mode |
| Material.Code1ColourSlots | dashboard/app.py:789-791 | Code 1 gives each stack value of the chart exactly one colour slot |
| Material.HigherFirstTotalPreorder | dashboard/app.py:919-921 | ordering segments by descending height is a total preorder |

## Left out

- Loading the CSV files, the page layout, callbacks' wiring, colours, fonts and margins are
  not modelled; the tables are parameters.
- The `{}` and `fig.to_dict()` outputs of `process_data` are not modelled; `Material.ProcessData`
  returns the figure only.
- The `legend_title="Total"` of Code 2's unstacked chart and the trace `name` are not modelled.
- The `tab20` colour map is not modelled; `Material.Code1ColourSlots` states only which values
  receive a slot.
- A filter on a column the table lacks raises `KeyError` in pandas; the model reads the
  column as missing and filters every row out.
- Mixing text and numbers in one column makes Python's `sorted` raise; the model orders
  numbers before text.
- Floating-point rounding is not modelled: arithmetic is on exact reals, and a zero
  denominator gives a missing value.
- `Figure.Capitalize` covers ASCII letters only.
- Table.Unique: states distinctness and membership, not first-appearance order.
- Building.OrientationSwapsAxes: does not state that the bars themselves are the same in both
  orientations.
- Building.StackedSegmentsSumToAggregate: assumes the category's raw total is non-zero.
- Stats.Share: when the raw total is 0, pandas divides by zero and gives inf or -inf for a
  non-zero raw value (possible with negative metric values) and NaN for 0/0; the model gives a
  missing segment in both cases, because it has no infinities.
- Material.Code2Sorted: ties are kept in stack-key order; pandas' default sort does not
  promise an order for ties.
- Material.Code1SegmentsSumToStatistic: assumes the fractions have a non-zero total.
- Material.Code2SegmentsSumToStatistic: assumes the stack statistics have a non-zero total.
- Building.UpdateBarChart: for a stacked mean or median chart with the error-bar box ticked,
  the source passes `ErrorPlus`/`ErrorMinus` to `px.bar`, which raises because the stacked
  table lacks those columns; the model draws the chart without error bars (the corrected
  `Building.ErrorColumns`, see Findings).
- Building.UpdateBarChart: when the stacking feature is the category column, the source's
  `groupby([categorical, stacking]).reset_index()` tries to insert the same column twice and
  raises; the model draws a chart grouped by that column.
- Material.ProcessData: when the stacking feature is the category column, the source raises
  on both paths, and the model draws a chart grouped by that column instead. In Code 1 the
  merges keep the column twice under suffixed names, and the later lookup of it raises
  `KeyError`. In Code 2, `filtered_df[[c, c]]` at `dashboard/app.py:904` has a duplicate
  column label, and the merge on it at `dashboard/app.py:907` raises `ValueError`.

## Findings

| source | as written | input that shows it | evidently intended | confidence | as-written member | corrected member |
|---|---|---|---|---|---|---|
| dashboard/app.py:1148-1155 | the error-bar columns `ErrorPlus`/`ErrorMinus` are passed to the chart whenever the checkbox is on with mean or median, stacked or not | categorical `bldg_use_type`, numerical `bldg_cfa`, mean, stacked by `bldg_structure`, error bars on: the stacked table has no `ErrorPlus` column | error bars only on unstacked charts, whose table has the error columns | not executed | Building.StackedErrorColumnsMissing | Building.ErrorColumns |
