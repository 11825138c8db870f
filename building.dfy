/** The building-level view (`update_bar_chart`): the building metadata table, filtered,
    grouped by one categorical column and optionally stacked by a second, aggregated by
    sum, mean, median or count, with optional quartile error bars and either orientation. */
module Building {
  import opened Table
  import opened Figure
  import opened Filters
  import Stats
  import Sorting

  datatype Aggregation = Sum | Mean | Median | Count

  /** The widget values the chart depends on. An unselected dropdown is "". */
  datatype Request = Request(
    categorical: string, numerical: string, aggregation: Aggregation,
    width: Option<int>, height: Option<int>, orientation: Orientation,
    stacking: string, showErrorBars: bool)

  predicate Unselected(req: Request) {
    req.categorical == "" || req.numerical == ""
  }

  predicate Stacked(req: Request) {
    req.stacking != ""
  }

  predicate Central(agg: Aggregation) {
    agg == Mean || agg == Median
  }

  /** `groupby(categorical)[numerical].agg(aggregation)` for the three value statistics. */
  function Aggregate(agg: Aggregation, xs: seq<Option<real>>): (r: Option<real>)
    requires agg != Count
    ensures agg == Sum ==> r == Some(Stats.SumPresent(xs))
    ensures agg == Mean ==> r == Stats.Mean(xs)
    ensures agg == Median ==> r == Stats.Median(xs)
  {
    match agg
    case Sum => Some(Stats.SumPresent(xs))
    case Mean => Stats.Mean(xs)
    case Median => Stats.Median(xs)
  }

  /** Column arithmetic with NaN propagation. */
  function Difference(a: Option<real>, b: Option<real>): (r: Option<real>)
    ensures r.Some? <==> a.Some? && b.Some?
    ensures r.Some? ==> r.value + b.value == a.value
  {
    if a.Some? && b.Some? then Some(a.value - b.value) else None
  }

  // ---------------------------------------------------------------- unstacked

  /** Error extents are attached to the grouped table only with the checkbox on and a
      mean or median aggregation. */
  predicate ErrorExtentsComputed(req: Request) {
    req.showErrorBars && Central(req.aggregation)
  }

  /** One row of the unstacked table: `value_counts` for count; otherwise the statistic
      of the group, with `Value - Q1` and `Q3 - Value` as its error extents. */
  function UnstackedBar(t: Table, req: Request, c: Value): (r: Bar)
    ensures r.category == c
    ensures req.aggregation == Count ==>
      r.value == Some(|Group(t, req.categorical, c)| as real) && r.errorMinus.None? && r.errorPlus.None?
    ensures req.aggregation != Count ==>
      r.value == Aggregate(req.aggregation, Measures(Group(t, req.categorical, c), req.numerical))
  {
    var rows := Group(t, req.categorical, c);
    if req.aggregation == Count then Bar(c, Some(|rows| as real), None, None)
    else
      var xs := Measures(rows, req.numerical);
      var v := Aggregate(req.aggregation, xs);
      if ErrorExtentsComputed(req)
      then Bar(c, v, Difference(v, Stats.Quantile(xs, 0.25)), Difference(Stats.Quantile(xs, 0.75), v))
      else Bar(c, v, None, None)
  }

  function UnstackedBars(t: Table, req: Request): (r: seq<Bar>)
    ensures |r| == |GroupKeys(t, req.categorical)|
    ensures forall i :: 0 <= i < |r| ==> r[i] == UnstackedBar(t, req, GroupKeys(t, req.categorical)[i])
  {
    var cats := GroupKeys(t, req.categorical);
    seq(|cats|, i requires 0 <= i < |cats| => UnstackedBar(t, req, cats[i]))
  }

  // ---------------------------------------------------------------- stacked

  /** `groupby([categorical, stacking])[numerical].sum()` within category `c`, one entry
      per stack value present in the category. */
  function RawContributions(rows: Table, req: Request, stacks: seq<Value>): (r: seq<Option<real>>)
    ensures |r| == |stacks|
    ensures forall i :: 0 <= i < |r| ==> r[i] == Some(RawSum(rows, req, stacks[i]))
  {
    seq(|stacks|, i requires 0 <= i < |stacks| => Some(RawSum(rows, req, stacks[i])))
  }

  /** The metric's NaN-skipping sum over the rows with stack value `s`. */
  function RawSum(rows: Table, req: Request, s: Value): real {
    Stats.SumPresent(Measures(Group(rows, req.stacking, s), req.numerical))
  }

  /** `groupby([categorical, stacking]).size()` within category `c`. */
  function PairCounts(rows: Table, req: Request, stacks: seq<Value>): (r: seq<Option<real>>)
    ensures |r| == |stacks|
    ensures forall i :: 0 <= i < |r| ==> r[i] == Some(|Group(rows, req.stacking, stacks[i])| as real)
  {
    seq(|stacks|, i requires 0 <= i < |stacks| => Some(|Group(rows, req.stacking, stacks[i])| as real))
  }

  /** The raw sum of each stack value of category `c`, in stack order. */
  function CategoryRaw(t: Table, req: Request, c: Value): seq<Option<real>> {
    var rows := Group(t, req.categorical, c);
    RawContributions(rows, req, GroupKeys(rows, req.stacking))
  }

  /** The raw total of category `c`: the sum of its stack values' raw sums. */
  function CategoryRawTotal(t: Table, req: Request, c: Value): real {
    Stats.SumPresent(CategoryRaw(t, req, c))
  }

  /** The category's statistic over all its rows, which the mean/median stack decomposes. */
  function OverallAggregate(t: Table, req: Request, c: Value): Option<real>
    requires Central(req.aggregation)
  {
    Aggregate(req.aggregation, Measures(Group(t, req.categorical, c), req.numerical))
  }

  /** One stacked bar: for mean/median, each stack value's raw sum as a share of the
      category's raw total, times the category statistic ("Contribution"); for count,
      the pair counts; for sum, the raw sums. */
  function StackedBarFor(t: Table, req: Request, c: Value): (r: StackedBar)
    ensures r.category == c
    ensures StackValues(r.segments) == GroupKeys(Group(t, req.categorical, c), req.stacking)
    ensures req.aggregation == Count ==>
      Amounts(r.segments) == PairCounts(Group(t, req.categorical, c), req, StackValues(r.segments))
    ensures req.aggregation == Sum ==>
      Amounts(r.segments) == CategoryRaw(t, req, c)
    ensures Central(req.aggregation) ==>
      Stats.Apportions(Amounts(r.segments), CategoryRaw(t, req, c), OverallAggregate(t, req, c))
  {
    var rows := Group(t, req.categorical, c);
    var stacks := GroupKeys(rows, req.stacking);
    var amounts :=
      match req.aggregation
      case Count => PairCounts(rows, req, stacks)
      case Sum => RawContributions(rows, req, stacks)
      case _ => Stats.Share(RawContributions(rows, req, stacks), OverallAggregate(t, req, c));
    StackedBar(c, Segments(stacks, amounts))
  }

  /** A count segment holds the number of the category's rows with its stack value. */
  lemma StackedCountSegment(t: Table, req: Request, c: Value, k: nat)
    requires req.aggregation == Count && k < |StackedBarFor(t, req, c).segments|
    ensures var g := StackedBarFor(t, req, c).segments[k];
      g.amount == Some(|Group(Group(t, req.categorical, c), req.stacking, g.stack)| as real)
  {
    var segments := StackedBarFor(t, req, c).segments;
    assert segments[k].stack == StackValues(segments)[k];
    assert segments[k].amount == Amounts(segments)[k];
  }

  /** A sum segment holds the raw sum of the metric over the category's rows with its
      stack value. */
  lemma StackedSumSegment(t: Table, req: Request, c: Value, k: nat)
    requires req.aggregation == Sum && k < |StackedBarFor(t, req, c).segments|
    ensures var g := StackedBarFor(t, req, c).segments[k];
      g.amount == Some(RawSum(Group(t, req.categorical, c), req, g.stack))
  {
    var segments := StackedBarFor(t, req, c).segments;
    assert segments[k].stack == StackValues(segments)[k];
    assert segments[k].amount == Amounts(segments)[k];
  }

  /** A mean/median segment holds its stack value's raw sum as a share of the category's
      raw total, times the category's statistic; it is missing when that statistic is
      missing or the raw total is 0. */
  lemma StackedShareSegment(t: Table, req: Request, c: Value, k: nat)
    requires Central(req.aggregation) && k < |StackedBarFor(t, req, c).segments|
    ensures StackedBarFor(t, req, c).segments[k].amount.Some? <==>
      OverallAggregate(t, req, c).Some? && CategoryRawTotal(t, req, c) != 0.0
    ensures StackedBarFor(t, req, c).segments[k].amount.Some? ==>
      Stats.Proportional(StackedBarFor(t, req, c).segments[k].amount.value, CategoryRawTotal(t, req, c),
                         RawSum(Group(t, req.categorical, c), req, StackedBarFor(t, req, c).segments[k].stack),
                         OverallAggregate(t, req, c).value)
  {
    assert StackedBarFor(t, req, c).segments[k].stack == StackValues(StackedBarFor(t, req, c).segments)[k];
    ApportionedSegment(StackedBarFor(t, req, c).segments, CategoryRaw(t, req, c), CategoryRawTotal(t, req, c),
                       OverallAggregate(t, req, c), k,
                       RawSum(Group(t, req.categorical, c), req, StackedBarFor(t, req, c).segments[k].stack));
  }

  /** Segment `k` of segments whose amounts apportion `total` by `raw`. */
  lemma ApportionedSegment(segments: seq<Segment>, raw: seq<Option<real>>, sum: real, total: Option<real>,
                           k: nat, v: real)
    requires Stats.Apportions(Amounts(segments), raw, total) && sum == Stats.SumPresent(raw)
    requires k < |segments| && raw[k] == Some(v)
    ensures segments[k].amount.Some? <==> total.Some? && sum != 0.0
    ensures segments[k].amount.Some? ==> Stats.Proportional(segments[k].amount.value, sum, v, total.value)
  {
    assert segments[k].amount == Amounts(segments)[k];
    if segments[k].amount.Some? {
      Stats.ApportionedEntry(Amounts(segments), raw, sum, total, k, segments[k].amount.value, v);
    } else {
      Stats.ApportionedEntry(Amounts(segments), raw, sum, total, k, 0.0, v);
    }
  }

  /** The stacked bars: one for every category with a segment, in sorted category order,
      none repeated. */
  function StackedBars(t: Table, req: Request): (r: seq<StackedBar>)
    ensures forall b :: b in r ==> b.segments != [] && b.category in GroupKeys(t, req.categorical)
    ensures forall b :: b in r ==> b == StackedBarFor(t, req, b.category)
    ensures forall c :: c in GroupKeys(t, req.categorical) && StackedBarFor(t, req, c).segments != [] ==>
      StackedBarFor(t, req, c) in r
    ensures AscendingBars(r)
  {
    NonEmptyBars(c => StackedBarFor(t, req, c), GroupKeys(t, req.categorical))
  }

  // ---------------------------------------------------------------- labels and axes

  /** The value axis title. */
  function ValueLabel(req: Request): string {
    if Stacked(req) then req.numerical + " (Contributions by '" + req.stacking + "')"
    else if req.aggregation == Count then "Count"
    else req.numerical
  }

  /** The column of the plotted table that holds the bar heights. */
  function ValueColumn(req: Request): string {
    if Stacked(req) then
      match req.aggregation
      case Count => "Count"
      case Sum => req.numerical
      case _ => "Contribution"
    else if req.aggregation == Count then "Count"
    else "Value"
  }

  /** The chart title. */
  function Title(req: Request): string {
    "Bar Chart of " + (if req.aggregation != Count then req.numerical else "Counts") + " by " + req.categorical
      + (if Stacked(req) then " (Stacked by " + req.stacking + ")" else "")
  }

  /** The title names the metric (or "Counts"), then the category, then the stacking
      feature when there is one. */
  lemma TitleParts(req: Request)
    ensures req.aggregation != Count ==> "Bar Chart of " + req.numerical + " by " + req.categorical <= Title(req)
    ensures req.aggregation == Count ==> "Bar Chart of Counts by " + req.categorical <= Title(req)
    ensures Stacked(req) ==>
      |Title(req)| > |req.stacking| && Title(req)[|Title(req)| - |req.stacking| - 1..] == req.stacking + ")"
    ensures !Stacked(req) ==>
      |Title(req)| >= |req.categorical| && Title(req)[|Title(req)| - |req.categorical|..] == req.categorical
  {
    var metric := if req.aggregation != Count then req.numerical else "Counts";
    var front := "Bar Chart of " + metric + " by " + req.categorical;
    var tail := if Stacked(req) then " (Stacked by " + req.stacking + ")" else "";
    assert Title(req) == front + tail;
    SuffixOfConcat(front, tail);
    SuffixOfConcat("Bar Chart of " + metric + " by ", req.categorical);
    SuffixOfConcat(" (Stacked by ", req.stacking + ")");
    if req.aggregation == Count {
      assert "Bar Chart of " + metric + " by " == "Bar Chart of Counts by ";
    }
  }

  lemma SuffixOfConcat(a: string, b: string)
    ensures (a + b)[..|a|] == a && (a + b)[|a + b| - |b|..] == b
  {
  }

  /** The columns of the table handed to the chart: the stacked contributions table, or
      the unstacked grouped table (which gains its error columns only when they are computed). */
  function PlottedColumns(req: Request): seq<string> {
    if Stacked(req) then
      match req.aggregation
      case Count => [req.categorical, req.stacking, "Count"]
      case Sum => [req.categorical, req.stacking, req.numerical]
      case _ => [req.categorical, req.stacking, req.numerical, "OverallAggregate", "Contribution"]
    else if req.aggregation == Count then [req.categorical, "Count"]
    else [req.categorical, "Value", "Count", "Q1", "Q3", "ErrorMinus", "ErrorPlus"]
  }

  /** As written, the error-bar columns are named whenever the checkbox is on with mean or
      median, stacked or not. */
  function ErrorColumnsAsWritten(req: Request): Option<ErrorBars> {
    if ErrorExtentsComputed(req)
    then Some(ErrorBars(req.orientation == Horizontal, "ErrorPlus", "ErrorMinus"))
    else None
  }

  /** As intended: error bars only on an unstacked chart. */
  function ErrorColumns(req: Request): (r: Option<ErrorBars>)
    ensures r.Some? <==> !Stacked(req) && req.showErrorBars && Central(req.aggregation)
    ensures r.Some? ==> r.value.plusColumn in PlottedColumns(req) && r.value.minusColumn in PlottedColumns(req)
    ensures r.Some? ==> r.value.onX == (req.orientation == Horizontal)
  {
    if !Stacked(req) then ErrorColumnsAsWritten(req) else None
  }

  /** The stacked mean chart with error bars on: the code names an error column that the
      plotted table does not have. */
  lemma StackedErrorColumnsMissing()
    ensures var req := Request("bldg_use_type", "bldg_cfa", Mean, None, None, Vertical, "bldg_structure", true);
      && ErrorColumnsAsWritten(req) == Some(ErrorBars(false, "ErrorPlus", "ErrorMinus"))
      && "ErrorPlus" !in PlottedColumns(req)
      && ErrorColumns(req).None?
  {
    var req := Request("bldg_use_type", "bldg_cfa", Mean, None, None, Vertical, "bldg_structure", true);
    var cols := PlottedColumns(req);
    assert cols == ["bldg_use_type", "bldg_structure", "bldg_cfa", "OverallAggregate", "Contribution"];
    assert "ErrorPlus" != "bldg_use_type" && "ErrorPlus" != "bldg_structure" && "ErrorPlus" != "bldg_cfa";
    assert "ErrorPlus" != "OverallAggregate" && "ErrorPlus" != "Contribution";
  }

  /** The chart for an already filtered table and a complete selection. */
  function BuildingChart(t: Table, req: Request): (r: Chart)
    requires !Unselected(req)
    ensures r.title == Title(req) && r.orientation == req.orientation
    ensures r.width == Dimension(req.width, DefaultWidth) && r.height == Dimension(req.height, DefaultHeight)
    ensures r.categoryOrder == GroupKeys(t, req.categorical)
    ensures r.barMode == Some(if Stacked(req) then Stack else Grouped)
    ensures Stacked(req) ==> r.traces == Stacks(StackedBars(t, req))
    ensures !Stacked(req) ==> r.traces == Bars(UnstackedBars(t, req))
    ensures r.errorBars == ErrorColumns(req)
  {
    var horizontal := req.orientation == Horizontal;
    var cat := req.categorical;
    Chart(
      Title(req),
      if horizontal then ValueColumn(req) else cat,
      if horizontal then cat else ValueColumn(req),
      Axis(if horizontal then ValueLabel(req) else cat, horizontal, Unset, None, None),
      Axis(if horizontal then cat else ValueLabel(req), !horizontal, Unset, None, None),
      Some(if Stacked(req) then Stack else Grouped),
      req.orientation,
      Dimension(req.width, DefaultWidth), Dimension(req.height, DefaultHeight),
      if Stacked(req) then Stacks(StackedBars(t, req)) else Bars(UnstackedBars(t, req)),
      GroupKeys(t, cat),
      [],
      ErrorColumns(req))
  }

  /** The specification of `update_bar_chart`. */
  function BarChart(t: Table, spec: seq<Constraint>, req: Request): Chart {
    if Unselected(req) then Placeholder(req.width, req.height)
    else BuildingChart(Filtered(t, spec), req)
  }

  /** `update_bar_chart`: the placeholder while a feature is unselected; otherwise the
      filter loop followed by the aggregation and the figure. */
  method UpdateBarChart(t: Table, features: seq<string>, values: seq<seq<Value>>, req: Request)
    returns (chart: Chart)
    ensures Unselected(req) ==> chart.traces == NoTraces && chart.title == PlaceholderTitle
    ensures Unselected(req) ==>
      chart.width == Dimension(req.width, DefaultWidth) && chart.height == Dimension(req.height, DefaultHeight)
    ensures chart == BarChart(t, Zip(features, values), req)
  {
    if Unselected(req) {
      return Placeholder(req.width, req.height);
    }
    var filtered := ApplyFilters(t, Zip(features, values));
    chart := BuildingChart(filtered, req);
  }

  // ---------------------------------------------------------------- properties

  /** Horizontal orientation swaps the plotted columns and the axis titles, and moves the
      grid and the error bars to the x axis. */
  lemma OrientationSwapsAxes(t: Table, req: Request)
    requires !Unselected(req)
    ensures var v := BuildingChart(t, req.(orientation := Vertical));
      var h := BuildingChart(t, req.(orientation := Horizontal));
      && v.xColumn == h.yColumn == req.categorical && v.yColumn == h.xColumn
      && v.xAxis.title == h.yAxis.title == req.categorical
      && v.yAxis.title == h.xAxis.title == ValueLabel(req)
      && !v.xAxis.showGrid && v.yAxis.showGrid && h.xAxis.showGrid && !h.yAxis.showGrid
      && v.errorBars.Some? == h.errorBars.Some?
      && (v.errorBars.Some? ==> !v.errorBars.value.onX && h.errorBars.value.onX)
  {
  }

  /** The value axis reads "Count" for an unstacked count, names the stack when stacked,
      and is the metric otherwise. */
  lemma ValueLabelCases(req: Request)
    ensures !Stacked(req) && req.aggregation == Count ==> ValueLabel(req) == "Count"
    ensures !Stacked(req) && req.aggregation != Count ==> ValueLabel(req) == req.numerical
    ensures Stacked(req) ==> ValueLabel(req) == req.numerical + " (Contributions by '" + req.stacking + "')"
  {
  }

  lemma StackedBarSumsToAggregate(t: Table, req: Request, c: Value)
    requires Central(req.aggregation)
    requires OverallAggregate(t, req, c).Some?
    requires CategoryRawTotal(t, req, c) != 0.0
    ensures Stats.SumPresent(Amounts(StackedBarFor(t, req, c).segments)) == OverallAggregate(t, req, c).value
  {
    Stats.ShareSumsToTotal(CategoryRaw(t, req, c), OverallAggregate(t, req, c).value);
  }

  /** For a stacked mean or median, every bar's segments add up to the category's
      statistic whenever the category's raw total is non-zero. */
  lemma StackedSegmentsSumToAggregate(t: Table, req: Request)
    requires !Unselected(req) && Stacked(req) && Central(req.aggregation)
    ensures forall b :: b in BuildingChart(t, req).traces.stacks ==>
      OverallAggregate(t, req, b.category).Some? && CategoryRawTotal(t, req, b.category) != 0.0 ==>
      Stats.SumPresent(Amounts(b.segments)) == OverallAggregate(t, req, b.category).value
  {
    forall b | b in BuildingChart(t, req).traces.stacks
      ensures OverallAggregate(t, req, b.category).Some? && CategoryRawTotal(t, req, b.category) != 0.0 ==>
        Stats.SumPresent(Amounts(b.segments)) == OverallAggregate(t, req, b.category).value
    {
      if OverallAggregate(t, req, b.category).Some? && CategoryRawTotal(t, req, b.category) != 0.0 {
        StackedBarSumsToAggregate(t, req, b.category);
      }
    }
  }

  /** The error extents of one unstacked bar. */
  lemma BarExtents(t: Table, req: Request, c: Value)
    ensures var b := UnstackedBar(t, req, c);
      var xs := Measures(Group(t, req.categorical, c), req.numerical);
      && (ErrorExtentsComputed(req) && Stats.CountPresent(xs) > 0 ==>
            b.errorMinus.Some? && b.errorPlus.Some? &&
            b.errorMinus.value + b.errorPlus.value == Stats.Quantile(xs, 0.75).value - Stats.Quantile(xs, 0.25).value)
      && (ErrorExtentsComputed(req) && req.aggregation == Median && Stats.CountPresent(xs) > 0 ==>
            b.errorMinus.value >= 0.0 && b.errorPlus.value >= 0.0)
      && (!ErrorExtentsComputed(req) ==> b.errorMinus.None? && b.errorPlus.None?)
  {
    var xs := Measures(Group(t, req.categorical, c), req.numerical);
    Stats.QuartilesBracketMedian(xs);
  }

  /** Error bars: with them on for an unstacked mean or median, the two extents together
      span the interquartile range, and for the median neither is negative; in every other
      case the bars carry no extents. */
  lemma ErrorExtentsSpanQuartiles(t: Table, req: Request)
    requires !Unselected(req) && !Stacked(req)
    ensures forall b :: b in BuildingChart(t, req).traces.bars ==>
      var xs := Measures(Group(t, req.categorical, b.category), req.numerical);
      && (ErrorExtentsComputed(req) && Stats.CountPresent(xs) > 0 ==>
            b.errorMinus.Some? && b.errorPlus.Some? &&
            b.errorMinus.value + b.errorPlus.value == Stats.Quantile(xs, 0.75).value - Stats.Quantile(xs, 0.25).value)
      && (ErrorExtentsComputed(req) && req.aggregation == Median && Stats.CountPresent(xs) > 0 ==>
            b.errorMinus.value >= 0.0 && b.errorPlus.value >= 0.0)
      && (!ErrorExtentsComputed(req) ==> b.errorMinus.None? && b.errorPlus.None?)
  {
    var bars := UnstackedBars(t, req);
    forall b | b in bars
      ensures var xs := Measures(Group(t, req.categorical, b.category), req.numerical);
        && (ErrorExtentsComputed(req) && Stats.CountPresent(xs) > 0 ==>
              b.errorMinus.Some? && b.errorPlus.Some? &&
              b.errorMinus.value + b.errorPlus.value == Stats.Quantile(xs, 0.75).value - Stats.Quantile(xs, 0.25).value)
        && (ErrorExtentsComputed(req) && req.aggregation == Median && Stats.CountPresent(xs) > 0 ==>
              b.errorMinus.value >= 0.0 && b.errorPlus.value >= 0.0)
        && (!ErrorExtentsComputed(req) ==> b.errorMinus.None? && b.errorPlus.None?)
    {
      var i :| 0 <= i < |bars| && bars[i] == b;
      BarExtents(t, req, GroupKeys(t, req.categorical)[i]);
    }
  }

  // The sample behind the mean error-bar counterexample: 0, 0, 0, 0, 100. The Sample*
  // lemmas below are the steps of `MeanErrorExtentCanBeNegative`: each computes one
  // quantity of this one input, and none states a property of the model in general.

  lemma SampleCount(xs: seq<Option<real>>)
    requires xs == [Some(0.0), Some(0.0), Some(0.0), Some(0.0), Some(100.0)]
    ensures Stats.CountPresent(xs) == 5
  {
    var x4: seq<Option<real>> := [Some(100.0)];
    var x3 := [Some(0.0)] + x4;
    var x2 := [Some(0.0)] + x3;
    var x1 := [Some(0.0)] + x2;
    assert x4[1..] == [] && x3[1..] == x4 && x2[1..] == x3 && x1[1..] == x2 && xs[1..] == x1;
    assert Stats.CountPresent(x4) == 1;
    assert Stats.CountPresent(x3) == 2;
    assert Stats.CountPresent(x2) == 3;
    assert Stats.CountPresent(x1) == 4;
  }
  lemma SampleSum(xs: seq<Option<real>>)
    requires xs == [Some(0.0), Some(0.0), Some(0.0), Some(0.0), Some(100.0)]
    ensures Stats.SumPresent(xs) == 100.0
  {
    var x4: seq<Option<real>> := [Some(100.0)];
    var x3 := [Some(0.0)] + x4;
    var x2 := [Some(0.0)] + x3;
    var x1 := [Some(0.0)] + x2;
    assert x4[1..] == [] && x3[1..] == x4 && x2[1..] == x3 && x1[1..] == x2 && xs[1..] == x1;
    assert Stats.SumPresent(x4) == 100.0;
    assert Stats.SumPresent(x3) == 100.0;
    assert Stats.SumPresent(x2) == 100.0;
    assert Stats.SumPresent(x1) == 100.0;
  }
  /** Without missing values, `dropna` keeps every value in place. */
  lemma {:induction false} PresentAllSome(xs: seq<Option<real>>)
    requires forall i :: 0 <= i < |xs| ==> xs[i].Some?
    ensures |Stats.Present(xs)| == |xs|
    ensures forall i :: 0 <= i < |xs| ==> Stats.Present(xs)[i] == xs[i].value
  {
    if xs != [] {
      PresentAllSome(xs[1..]);
      assert Stats.Present(xs) == [xs[0].value] + Stats.Present(xs[1..]);
    }
  }

  lemma SamplePresent(xs: seq<Option<real>>)
    requires xs == [Some(0.0), Some(0.0), Some(0.0), Some(0.0), Some(100.0)]
    ensures Stats.Present(xs) == [0.0, 0.0, 0.0, 0.0, 100.0]
  {
    PresentAllSome(xs);
  }

  lemma SampleAscending(xs: seq<Option<real>>)
    requires xs == [Some(0.0), Some(0.0), Some(0.0), Some(0.0), Some(100.0)]
    ensures Stats.Ascending(xs) == [0.0, 0.0, 0.0, 0.0, 100.0]
  {
    var v := [0.0, 0.0, 0.0, 0.0, 100.0];
    SamplePresent(xs);
    assert Sorting.SortedBy(v, Stats.RealLe);
    Sorting.SortOfSorted(v, Stats.RealLe);
  }

  lemma SampleInterpolate(v: seq<real>)
    requires v == [0.0, 0.0, 0.0, 0.0, 100.0]
    ensures Stats.Interpolate(v, 0.75) == 0.0
  {
    assert Stats.Position(|v|, 0.75) == 3.0;
    assert (3.0).Floor == 3;
  }

  lemma SampleThirdQuartile(xs: seq<Option<real>>)
    requires xs == [Some(0.0), Some(0.0), Some(0.0), Some(0.0), Some(100.0)]
    ensures Stats.Quantile(xs, 0.75) == Some(0.0)
  {
    SampleAscending(xs);
    SampleInterpolate(Stats.Ascending(xs));
  }

  /** With mean aggregation an extent can be negative: the mean of 0, 0, 0, 0, 100 is 20,
      above its third quartile 0, so the bar's upper extent `Q3 - Value` is -20. */
  lemma MeanErrorExtentCanBeNegative(xs: seq<Option<real>>)
    requires xs == [Some(0.0), Some(0.0), Some(0.0), Some(0.0), Some(100.0)]
    ensures Stats.Mean(xs) == Some(20.0) && Stats.Quantile(xs, 0.75) == Some(0.0)
    ensures Difference(Stats.Quantile(xs, 0.75), Stats.Mean(xs)) == Some(-20.0)
  {
    SampleCount(xs);
    SampleSum(xs);
    SampleThirdQuartile(xs);
  }

  /** With count, each segment of a stacked bar is the row count of its stack value
      within the category. */
  lemma StackedCounts(t: Table, req: Request, c: Value)
    requires req.aggregation == Count
    ensures forall k :: 0 <= k < |StackedBarFor(t, req, c).segments| ==>
      var g := StackedBarFor(t, req, c).segments[k];
      g.amount == Some(|Group(Group(t, req.categorical, c), req.stacking, g.stack)| as real)
  {
    var segs := StackedBarFor(t, req, c).segments;
    forall k | 0 <= k < |segs|
      ensures segs[k].amount == Some(|Group(Group(t, req.categorical, c), req.stacking, segs[k].stack)| as real)
    {
      assert segs[k].amount == Amounts(segs)[k];
    }
  }

  /** Count never yields a missing value: each bar, or each stacked segment, is the
      number of rows in its group. */
  lemma CountsAreRowCounts(t: Table, req: Request)
    requires !Unselected(req) && req.aggregation == Count
    ensures !Stacked(req) ==> forall b :: b in BuildingChart(t, req).traces.bars ==>
      b.value == Some(|Group(t, req.categorical, b.category)| as real)
    ensures Stacked(req) ==> forall b, k :: b in BuildingChart(t, req).traces.stacks && 0 <= k < |b.segments| ==>
      b.segments[k].amount == Some(|Group(Group(t, req.categorical, b.category), req.stacking, b.segments[k].stack)| as real)
  {
    if Stacked(req) {
      forall b | b in BuildingChart(t, req).traces.stacks
        ensures forall k :: 0 <= k < |b.segments| ==>
          b.segments[k].amount == Some(|Group(Group(t, req.categorical, b.category), req.stacking, b.segments[k].stack)| as real)
      {
        StackedCounts(t, req, b.category);
      }
    }
  }
}
