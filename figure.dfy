/** The bar-chart description both views return: only the properties the dashboard
    sets on its Plotly figures (title, axis titles, grid, scale, tick format and range,
    bar mode, orientation, size, the plotted values and the error-bar columns). */
module Figure {
  import opened Table

  datatype Orientation = Vertical | Horizontal
  /** An axis `type`: set to linear or log, or left to Plotly's default. */
  datatype AxisScale = Linear | Log | Unset
  datatype BarMode = Stack | Relative | Grouped

  datatype Axis = Axis(title: string, showGrid: bool, scale: AxisScale,
                       tickFormat: Option<string>, range: Option<(real, real)>)

  /** One bar of an unstacked chart, with its error-bar extents when error bars are on. */
  datatype Bar = Bar(category: Value, value: Option<real>, errorMinus: Option<real>, errorPlus: Option<real>)

  /** One segment of a stacked bar: the stack value it stands for and its height. */
  datatype Segment = Segment(stack: Value, amount: Option<real>)
  datatype StackedBar = StackedBar(category: Value, segments: seq<Segment>)

  datatype Traces = NoTraces | Bars(bars: seq<Bar>) | Stacks(stacks: seq<StackedBar>)

  /** The `error_x`/`error_y` arguments: which axis, and the columns holding the extents. */
  datatype ErrorBars = ErrorBars(onX: bool, plusColumn: string, minusColumn: string)

  datatype Chart = Chart(
    title: string,
    xColumn: string, yColumn: string,
    xAxis: Axis, yAxis: Axis,
    barMode: Option<BarMode>,
    orientation: Orientation,
    width: int, height: int,
    traces: Traces,
    /** `category_orders` for the category column ([] when not given). */
    categoryOrder: seq<Value>,
    /** The stack values in the order they are given palette indices ([] when not given). */
    colorOrder: seq<Value>,
    errorBars: Option<ErrorBars>)

  /** The width/height rule `w if w else default`: an unset or zero size falls back to
      the default, any other passes through. */
  function Dimension(given: Option<int>, default: int): (r: int)
    ensures given.None? || given.value == 0 ==> r == default
    ensures given.Some? && given.value != 0 ==> r == given.value
  {
    if given.Some? && given.value != 0 then given.value else default
  }

  const DefaultWidth := 800
  const DefaultHeight := 600
  const PlaceholderTitle := "Please select features"

  /** The empty figure both views return while the category or metric is unselected. */
  function Placeholder(width: Option<int>, height: Option<int>): (c: Chart)
    ensures c.traces == NoTraces && c.title == PlaceholderTitle
    ensures c.xAxis.title == "" && c.yAxis.title == "" && !c.xAxis.showGrid && !c.yAxis.showGrid
    ensures c.width == Dimension(width, DefaultWidth) && c.height == Dimension(height, DefaultHeight)
    ensures c.errorBars.None?
  {
    var blank := Axis("", false, Unset, None, None);
    Chart(PlaceholderTitle, "", "", blank, blank, None, Vertical,
          Dimension(width, DefaultWidth), Dimension(height, DefaultHeight),
          NoTraces, [], [], None)
  }

  /** The per-segment heights of a stacked bar. */
  function Amounts(segments: seq<Segment>): (r: seq<Option<real>>)
    ensures |r| == |segments|
    ensures forall i :: 0 <= i < |segments| ==> r[i] == segments[i].amount
  {
    seq(|segments|, i requires 0 <= i < |segments| => segments[i].amount)
  }

  /** The stack value of each segment, in order. */
  function StackValues(segments: seq<Segment>): (r: seq<Value>)
    ensures |r| == |segments|
    ensures forall i :: 0 <= i < |segments| ==> r[i] == segments[i].stack
  {
    seq(|segments|, i requires 0 <= i < |segments| => segments[i].stack)
  }

  /** Segments pairing each stack value with its height. */
  function Segments(stacks: seq<Value>, amounts: seq<Option<real>>): (r: seq<Segment>)
    requires |amounts| == |stacks|
    ensures |r| == |stacks|
    ensures Amounts(r) == amounts
    ensures StackValues(r) == stacks
  {
    seq(|stacks|, i requires 0 <= i < |stacks| => Segment(stacks[i], amounts[i]))
  }

  /** Bars in strictly ascending category order: none repeated. */
  predicate AscendingBars(bars: seq<StackedBar>) {
    forall i, j :: 0 <= i < j < |bars| ==>
      ValueLe(bars[i].category, bars[j].category) && bars[i].category != bars[j].category
  }

  /** The bar of every listed category that has at least one segment, in the listed order:
      the grouped table has no row for a category without segments. */
  function NonEmptyBars(bar: Value -> StackedBar, cats: seq<Value>): (r: seq<StackedBar>)
    requires forall c :: bar(c).category == c
    requires StrictlyAscending(cats)
    ensures forall b :: b in r ==> b.category in cats && b == bar(b.category) && b.segments != []
    ensures forall c :: c in cats && bar(c).segments != [] ==> bar(c) in r
    ensures AscendingBars(r)
  {
    if cats == [] then []
    else
      var rest := NonEmptyBars(bar, cats[1..]);
      var head := if bar(cats[0]).segments != [] then [bar(cats[0])] else [];
      HeadBeforeRest(cats, rest);
      assert forall c :: c in cats <==> c == cats[0] || c in cats[1..];
      head + rest
  }

  /** The first listed category comes strictly before the categories of the later bars. */
  lemma HeadBeforeRest(cats: seq<Value>, rest: seq<StackedBar>)
    requires cats != [] && StrictlyAscending(cats)
    requires forall b :: b in rest ==> b.category in cats[1..]
    requires AscendingBars(rest)
    ensures forall b :: b in rest ==> ValueLe(cats[0], b.category) && cats[0] != b.category
    ensures AscendingBars([StackedBar(cats[0], [])] + rest)
  {
    forall b | b in rest ensures ValueLe(cats[0], b.category) && cats[0] != b.category {
      var k :| 0 <= k < |cats[1..]| && cats[1..][k] == b.category;
      assert cats[k + 1] == b.category;
    }
    var r := [StackedBar(cats[0], [])] + rest;
    forall i, j | 0 <= i < j < |r|
      ensures ValueLe(r[i].category, r[j].category) && r[i].category != r[j].category
    {
      assert r[j] == rest[j - 1] && rest[j - 1] in rest;
      if i > 0 { assert r[i] == rest[i - 1]; }
    }
  }

  /** Python's `str.capitalize` on ASCII text: first letter upper case, the rest lower. */
  function Capitalize(s: string): (r: string)
    ensures |r| == |s|
    ensures |s| > 0 ==> r[0] == Upper(s[0])
    ensures forall i :: 0 < i < |s| ==> r[i] == Lower(s[i])
  {
    if s == [] then [] else [Upper(s[0])] + seq(|s| - 1, i requires 0 <= i < |s| - 1 => Lower(s[i + 1]))
  }

  function Upper(c: char): char {
    if 'a' <= c <= 'z' then (c as int - 32) as char else c
  }

  function Lower(c: char): char {
    if 'A' <= c <= 'Z' then (c as int + 32) as char else c
  }
}
