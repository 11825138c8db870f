/** The material-level view (`process_data`): product-stage rows of new-construction
    projects, a metric summed per project before it is averaged, grouped by a category and
    optionally decomposed into the contributions of a stacking feature. Categories that
    are building metadata take "Code 1" (project totals over the whole project); the
    others take "Code 2" (project sums within each group). */
module Material {
  import opened Table
  import opened Figure
  import opened Filters
  import Derived
  import Stats
  import Sorting

  const LifeCycleStage := "life_cycle_stage"
  const ProjectType := "bldg_proj_type"
  const ProductStage := "A1-A3"
  const NewConstruction := "New Construction"

  /** The widget values: the stacking ("primary") feature, the category ("secondary")
      feature, the metric, the size, the two checkboxes and the statistic's name. An
      unselected dropdown is "". */
  datatype Request = Request(
    stacking: string, categorical: string, numerical: string,
    width: Option<int>, height: Option<int>,
    logY: bool, stacked100: bool, aggregation: string)

  predicate Unselected(req: Request) {
    req.categorical == "" || req.numerical == ""
  }

  /** "mean" selects the mean; every other value selects the median. */
  function StatisticOf(name: string): (s: Stats.Statistic)
    ensures s == Stats.MeanOf <==> name == "mean"
    ensures s == Stats.MedianOf <==> name != "mean"
  {
    if name == "mean" then Stats.MeanOf else Stats.MedianOf
  }

  // ---------------------------------------------------------------- the rows

  /** Only product-stage (A1-A3) rows of new-construction projects are considered. */
  function PreFilter(t: Table): (r: Table)
    ensures forall row :: row in r <==> row in t && ProductStageNewBuild(row)
  {
    Isin(Isin(t, LifeCycleStage, [Text(ProductStage)]), ProjectType, [Text(NewConstruction)])
  }

  /** The pre-filter keeps each admitted row as often as it occurs in `t`. */
  lemma PreFilterCounts(t: Table)
    ensures forall row :: multiset(PreFilter(t))[row] == if ProductStageNewBuild(row) then multiset(t)[row] else 0
  {
    IsinCounts(t, LifeCycleStage, [Text(ProductStage)]);
    IsinCounts(Isin(t, LifeCycleStage, [Text(ProductStage)]), ProjectType, [Text(NewConstruction)]);
  }

  predicate ProductStageNewBuild(row: Row) {
    Get(row, LifeCycleStage) == Some(Text(ProductStage)) && Get(row, ProjectType) == Some(Text(NewConstruction))
  }

  /** The table the charts aggregate: pre-filtered, with 0 read as missing in the metric,
      then narrowed by the user's filters. */
  function Prepared(t: Table, spec: seq<Constraint>, numerical: string): Table {
    Filtered(Derived.ZeroToMissing(PreFilter(t), numerical), spec)
  }

  /** Every row the charts aggregate is a product-stage row of a new-construction project,
      passes every filter, and has no 0 left in the metric. */
  lemma PreparedRows(t: Table, spec: seq<Constraint>, numerical: string)
    ensures forall row :: row in Prepared(t, spec, numerical) ==>
      && Get(row, LifeCycleStage) == Some(Text(ProductStage))
      && Get(row, ProjectType) == Some(Text(NewConstruction))
      && Admits(spec, row)
      && Measure(row, numerical) != Some(0.0)
  {
    var pre := PreFilter(t);
    var z := Derived.ZeroToMissing(pre, numerical);
    forall row | row in Prepared(t, spec, numerical)
      ensures && Get(row, LifeCycleStage) == Some(Text(ProductStage))
              && Get(row, ProjectType) == Some(Text(NewConstruction))
              && Admits(spec, row)
              && Measure(row, numerical) != Some(0.0)
    {
      assert row in z;
      var i :| 0 <= i < |z| && z[i] == row;
      assert pre[i] in pre;
    }
  }

  // ---------------------------------------------------------------- per-project sums

  /** The projects present in `t`, as `groupby('project_index')` lists them. */
  function Projects(t: Table): (r: seq<Value>)
    ensures NoDuplicates(r)
    ensures forall p :: p in r <==> exists row :: row in t && Get(row, ProjectColumn) == Some(p)
  {
    GroupKeys(t, ProjectColumn)
  }

  /** `groupby('project_index')[metric].sum()` for one project: missing values count as
      nothing, so a project sum is never missing. */
  function ProjectSum(t: Table, numerical: string, p: Value): real {
    Stats.SumPresent(Measures(Group(t, ProjectColumn, p), numerical))
  }

  /** The sums of the listed projects. */
  function TotalsOf(t: Table, numerical: string, ps: seq<Value>): (r: seq<Option<real>>)
    ensures |r| == |ps|
    ensures forall i :: 0 <= i < |ps| ==> r[i] == Some(ProjectSum(t, numerical, ps[i]))
  {
    seq(|ps|, i requires 0 <= i < |ps| => Some(ProjectSum(t, numerical, ps[i])))
  }

  lemma {:induction false} AllPresentCount(xs: seq<Option<real>>)
    requires forall i :: 0 <= i < |xs| ==> xs[i].Some?
    ensures Stats.CountPresent(xs) == |xs|
  {
    if xs != [] {
      AllPresentCount(xs[1..]);
    }
  }

  /** Code 2's statistic of one group (a category or a stack value): the statistic of the
      per-project sums within the group. */
  function GroupStat(t: Table, numerical: string, stat: Stats.Statistic, col: string, v: Value): Option<real> {
    var g := Group(t, col, v);
    stat.Of(TotalsOf(g, numerical, Projects(g)))
  }

  /** A group's statistic exists exactly when some row of the group belongs to a project. */
  lemma GroupStatPresent(t: Table, numerical: string, stat: Stats.Statistic, col: string, v: Value)
    ensures GroupStat(t, numerical, stat, col, v).Some? <==>
      exists row :: row in t && Get(row, col) == Some(v) && Get(row, ProjectColumn).Some?
  {
    var g := Group(t, col, v);
    var sums := TotalsOf(g, numerical, Projects(g));
    AllPresentCount(sums);
    assert GroupStat(t, numerical, stat, col, v).Some? <==> |Projects(g)| > 0;
    if exists row :: row in t && Get(row, col) == Some(v) && Get(row, ProjectColumn).Some? {
      var row :| row in t && Get(row, col) == Some(v) && Get(row, ProjectColumn).Some?;
      assert row in g;
      assert Get(row, ProjectColumn).value in Projects(g);
    }
    if |Projects(g)| > 0 {
      assert Projects(g)[0] in Projects(g);
      var row :| row in g && Get(row, ProjectColumn) == Some(Projects(g)[0]);
      assert row in t && Get(row, col) == Some(v);
    }
  }

  /** Code 1's statistic of a category: the statistic of the totals, over all their rows,
      of the projects that have a row in the category. */
  function CategoryStat(t: Table, numerical: string, stat: Stats.Statistic, categorical: string, c: Value): Option<real> {
    stat.Of(TotalsOf(t, numerical, Projects(Group(t, categorical, c))))
  }

  /** A category's Code 1 statistic exists exactly when some row of the category belongs
      to a project. */
  lemma CategoryStatPresent(t: Table, numerical: string, stat: Stats.Statistic, categorical: string, c: Value)
    ensures CategoryStat(t, numerical, stat, categorical, c).Some? <==>
      exists row :: row in t && Get(row, categorical) == Some(c) && Get(row, ProjectColumn).Some?
  {
    var g := Group(t, categorical, c);
    var sums := TotalsOf(t, numerical, Projects(g));
    AllPresentCount(sums);
    assert CategoryStat(t, numerical, stat, categorical, c).Some? <==> |Projects(g)| > 0;
    if exists row :: row in t && Get(row, categorical) == Some(c) && Get(row, ProjectColumn).Some? {
      var row :| row in t && Get(row, categorical) == Some(c) && Get(row, ProjectColumn).Some?;
      assert row in g;
      assert Get(row, ProjectColumn).value in Projects(g);
    }
    if |Projects(g)| > 0 {
      assert Projects(g)[0] in Projects(g);
      var row :| row in g && Get(row, ProjectColumn) == Some(Projects(g)[0]);
      assert row in t && Get(row, categorical) == Some(c);
    }
  }

  /** The elements of `xs` that also occur in `ys`, in the order of `xs`. */
  function Common(xs: seq<Value>, ys: seq<Value>): (r: seq<Value>)
    ensures forall x :: x in r <==> x in xs && x in ys
    ensures NoDuplicates(xs) ==> NoDuplicates(r)
  {
    if xs == [] then []
    else
      assert forall x :: x in xs <==> x == xs[0] || x in xs[1..];
      var rest := Common(xs[1..], ys);
      assert NoDuplicates(xs) ==> NoDuplicates(xs[1..]) && xs[0] !in xs[1..];
      (if xs[0] in ys then [xs[0]] else []) + rest
  }

  /** Code 1: the share of each listed project's total that lies in stack value `s`. */
  function Fractions(t: Table, req: Request, s: Value, ps: seq<Value>): (r: seq<Option<real>>)
    ensures |r| == |ps|
    ensures forall i :: 0 <= i < |ps| ==>
      r[i] == Derived.Quotient(Some(ProjectSum(Group(t, req.stacking, s), req.numerical, ps[i])),
                               Some(ProjectSum(t, req.numerical, ps[i])))
  {
    seq(|ps|, i requires 0 <= i < |ps| =>
      Derived.Quotient(Some(ProjectSum(Group(t, req.stacking, s), req.numerical, ps[i])),
                       Some(ProjectSum(t, req.numerical, ps[i]))))
  }

  /** Code 1: the statistic of stack value `s`'s share over the category's projects that
      have `s`. */
  function MeanFraction(t: Table, req: Request, c: Value, s: Value): Option<real> {
    var ps := Common(Projects(Group(t, req.categorical, c)), Projects(Group(t, req.stacking, s)));
    StatisticOf(req.aggregation).Of(Fractions(t, req, s, ps))
  }

  /** `row` belongs to a project that has a row in category `c`. */
  predicate InCategoryProject(t: Table, categorical: string, c: Value, row: Row) {
    exists other :: other in t && Get(other, categorical) == Some(c) && Get(other, ProjectColumn).Some?
      && Get(row, ProjectColumn) == Get(other, ProjectColumn)
  }

  lemma InCategoryProjects(t: Table, categorical: string, c: Value, row: Row)
    ensures InList(Get(row, ProjectColumn), Projects(Group(t, categorical, c))) <==>
      InCategoryProject(t, categorical, c, row)
  {
    if InCategoryProject(t, categorical, c, row) {
      var other :| other in t && Get(other, categorical) == Some(c) && Get(other, ProjectColumn).Some?
        && Get(row, ProjectColumn) == Get(other, ProjectColumn);
      assert other in Group(t, categorical, c);
    }
  }

  /** The stack values of Code 1's bar for category `c`: every stack value of any row of a
      project that has a row in the category, each once, in sorted order. */
  function Code1Stacks(t: Table, req: Request, c: Value): (r: seq<Value>)
    ensures StrictlyAscending(r)
    ensures forall s :: s in r <==>
      exists row :: row in t && InCategoryProject(t, req.categorical, c, row) && Get(row, req.stacking) == Some(s)
  {
    var u := Isin(t, ProjectColumn, Projects(Group(t, req.categorical, c)));
    forall row ensures row in u <==> row in t && InCategoryProject(t, req.categorical, c, row) {
      InCategoryProjects(t, req.categorical, c, row);
    }
    GroupKeys(u, req.stacking)
  }

  function MeanFractions(t: Table, req: Request, c: Value, stacks: seq<Value>): (r: seq<Option<real>>)
    ensures |r| == |stacks|
    ensures forall i :: 0 <= i < |stacks| ==> r[i] == MeanFraction(t, req, c, stacks[i])
  {
    seq(|stacks|, i requires 0 <= i < |stacks| => MeanFraction(t, req, c, stacks[i]))
  }

  /** Code 1's segment heights for category `c` before 100% scaling: the mean fractions
      renormalised within the bar, times the category's statistic. */
  function Code1Amounts(t: Table, req: Request, c: Value): (r: seq<Option<real>>)
    ensures |r| == |Code1Stacks(t, req, c)|
    ensures Stats.Apportions(r, MeanFractions(t, req, c, Code1Stacks(t, req, c)),
      CategoryStat(t, req.numerical, StatisticOf(req.aggregation), req.categorical, c))
  {
    Stats.Share(MeanFractions(t, req, c, Code1Stacks(t, req, c)),
                CategoryStat(t, req.numerical, StatisticOf(req.aggregation), req.categorical, c))
  }

  /** The 100% option divides each segment by its bar's total. */
  function Scaled(req: Request, amounts: seq<Option<real>>): (r: seq<Option<real>>)
    ensures |r| == |amounts|
  {
    if req.stacked100 then Stats.Normalize(amounts) else amounts
  }

  function Code1Bar(t: Table, req: Request, c: Value): (r: StackedBar)
    ensures r.category == c
    ensures StackValues(r.segments) == Code1Stacks(t, req, c)
    ensures Amounts(r.segments) == Scaled(req, Code1Amounts(t, req, c))
  {
    StackedBar(c, Segments(Code1Stacks(t, req, c), Scaled(req, Code1Amounts(t, req, c))))
  }

  /** Code 1's bars: one for every category with a segment, in sorted category order,
      none repeated. */
  function Code1Bars(t: Table, req: Request): (r: seq<StackedBar>)
    ensures forall b :: b in r ==> b.segments != [] && b.category in GroupKeys(t, req.categorical)
    ensures forall b :: b in r ==> b == Code1Bar(t, req, b.category)
    ensures forall c :: c in GroupKeys(t, req.categorical) && Code1Bar(t, req, c).segments != [] ==>
      Code1Bar(t, req, c) in r
    ensures AscendingBars(r)
  {
    NonEmptyBars(c => Code1Bar(t, req, c), GroupKeys(t, req.categorical))
  }

  /** The stack values of Code 2's bar for category `c`: those paired with `c` in some
      row, keeping only the values some project has. */
  function Code2Stacks(t: Table, req: Request, c: Value): (r: seq<Value>)
    ensures StrictlyAscending(r)
    ensures forall s :: s in r <==>
      (exists row :: row in t && Get(row, req.categorical) == Some(c) && Get(row, req.stacking) == Some(s))
      && Projects(Group(t, req.stacking, s)) != []
  {
    var all := GroupKeys(Group(t, req.categorical, c), req.stacking);
    KeepProjected(t, req.stacking, all)
  }

  function KeepProjected(t: Table, col: string, vs: seq<Value>): (r: seq<Value>)
    ensures forall s :: s in r <==> s in vs && Projects(Group(t, col, s)) != []
    ensures StrictlyAscending(vs) ==> StrictlyAscending(r)
  {
    if vs == [] then []
    else
      var rest := KeepProjected(t, col, vs[1..]);
      assert forall x :: x in vs <==> x == vs[0] || x in vs[1..];
      KeptAfterHead(vs, rest);
      (if Projects(Group(t, col, vs[0])) != [] then [vs[0]] else []) + rest
  }

  /** Keeping a sub-list of the later values keeps the first value strictly in front. */
  lemma KeptAfterHead(vs: seq<Value>, rest: seq<Value>)
    requires vs != []
    requires forall s :: s in rest ==> s in vs[1..]
    ensures StrictlyAscending(vs) ==> StrictlyAscending(vs[1..])
    ensures StrictlyAscending(vs) && StrictlyAscending(rest) ==> StrictlyAscending([vs[0]] + rest)
  {
    if !StrictlyAscending(vs) || !StrictlyAscending(rest) {
      if StrictlyAscending(vs) {
        forall i, j | 0 <= i < j < |vs[1..]| ensures ValueLe(vs[1..][i], vs[1..][j]) && vs[1..][i] != vs[1..][j] {
          assert vs[1..][i] == vs[i + 1] && vs[1..][j] == vs[j + 1];
        }
      }
      return;
    }
    assert StrictlyAscending(vs[1..]) by {
      forall i, j | 0 <= i < j < |vs[1..]| ensures ValueLe(vs[1..][i], vs[1..][j]) && vs[1..][i] != vs[1..][j] {
        assert vs[1..][i] == vs[i + 1] && vs[1..][j] == vs[j + 1];
      }
    }
    var r := [vs[0]] + rest;
    forall i, j | 0 <= i < j < |r| ensures ValueLe(r[i], r[j]) && r[i] != r[j] {
      assert r[j] == rest[j - 1] && rest[j - 1] in rest;
      if i == 0 {
        var k :| 0 <= k < |vs[1..]| && vs[1..][k] == rest[j - 1];
        assert vs[k + 1] == r[j];
      } else {
        assert r[i] == rest[i - 1];
      }
    }
  }

  function StackStats(t: Table, req: Request, stacks: seq<Value>): (r: seq<Option<real>>)
    ensures |r| == |stacks|
    ensures forall i :: 0 <= i < |stacks| ==>
      r[i] == GroupStat(t, req.numerical, StatisticOf(req.aggregation), req.stacking, stacks[i])
  {
    seq(|stacks|, i requires 0 <= i < |stacks| =>
      GroupStat(t, req.numerical, StatisticOf(req.aggregation), req.stacking, stacks[i]))
  }

  /** Code 2's segment heights for category `c`: each stack value's statistic as a share of
      the bar's total of those statistics, times the category's statistic. */
  function Code2Amounts(t: Table, req: Request, c: Value): (r: seq<Option<real>>)
    ensures |r| == |Code2Stacks(t, req, c)|
    ensures Stats.Apportions(r, StackStats(t, req, Code2Stacks(t, req, c)),
      GroupStat(t, req.numerical, StatisticOf(req.aggregation), req.categorical, c))
  {
    Stats.Share(StackStats(t, req, Code2Stacks(t, req, c)),
                GroupStat(t, req.numerical, StatisticOf(req.aggregation), req.categorical, c))
  }

  /** Rows of the output table sort by descending height, missing heights last. */
  predicate HigherFirst(a: Segment, b: Segment) {
    if a.amount.Some? && b.amount.Some? then a.amount.value >= b.amount.value
    else a.amount.Some? || b.amount.None?
  }

  lemma HigherFirstTotalPreorder()
    ensures Sorting.TotalPreorder(HigherFirst)
  {
  }

  /** Reordering the segments of a bar does not change its total. */
  lemma {:induction false} SegmentSumPermutation(a: seq<Segment>, b: seq<Segment>)
    requires multiset(a) == multiset(b)
    ensures Stats.SumPresent(Amounts(a)) == Stats.SumPresent(Amounts(b))
    decreases |a|
  {
    if a == [] {
      assert |b| == |multiset(b)| == 0;
    } else {
      assert a[0] in multiset(b);
      var j :| 0 <= j < |b| && b[j] == a[0];
      var rest := b[..j] + b[j + 1..];
      Sorting.PermutationRest(a, b, j);
      SegmentSumPermutation(a[1..], rest);
      assert Amounts(a)[1..] == Amounts(a[1..]);
      AmountsWithout(b, j);
    }
  }

  /** A bar's total is one segment's height plus the total of the others. */
  lemma AmountsWithout(b: seq<Segment>, j: int)
    requires 0 <= j < |b|
    ensures Stats.SumPresent(Amounts(b)) ==
      b[j].amount.GetOr(0.0) + Stats.SumPresent(Amounts(b[..j] + b[j + 1..]))
  {
    assert Amounts(b) == Amounts(b[..j]) + [b[j].amount] + Amounts(b[j + 1..]);
    assert Amounts(b[..j] + b[j + 1..]) == Amounts(b[..j]) + Amounts(b[j + 1..]);
    Stats.SumPresentConcat(Amounts(b[..j]) + [b[j].amount], Amounts(b[j + 1..]));
    Stats.SumPresentConcat(Amounts(b[..j]), [b[j].amount]);
    Stats.SumPresentConcat(Amounts(b[..j]), Amounts(b[j + 1..]));
    assert Stats.SumPresent([b[j].amount]) == b[j].amount.GetOr(0.0);
  }

  /** The same stack values with their heights replaced, in the same order. */
  function Rescaled(segments: seq<Segment>, amounts: seq<Option<real>>): (r: seq<Segment>)
    requires |amounts| == |segments|
    ensures |r| == |segments|
    ensures forall i :: 0 <= i < |r| ==> r[i].stack == segments[i].stack
    ensures Amounts(r) == amounts
  {
    var r := seq(|segments|, i requires 0 <= i < |segments| => Segment(segments[i].stack, amounts[i]));
    assert Amounts(r) == amounts;
    r
  }

  /** The segments as they are plotted: divided by the bar's total in 100% mode, kept
      as they are otherwise. */
  function ScaledSegments(req: Request, segments: seq<Segment>): (r: seq<Segment>)
    ensures StackValues(r) == StackValues(segments)
    ensures Amounts(r) == Scaled(req, Amounts(segments))
    ensures !req.stacked100 ==> r == segments
  {
    if req.stacked100 then Rescaled(segments, Stats.Normalize(Amounts(segments))) else segments
  }

  /** Code 2's bar for category `c`: the segments sorted tallest first, then (in 100%
      mode) divided by the bar's total in that order. */
  function Code2Bar(t: Table, req: Request, c: Value): (r: StackedBar)
    ensures r.category == c
    ensures StackValues(r.segments) == StackValues(Code2Sorted(t, req, c))
    ensures Amounts(r.segments) == Scaled(req, Amounts(Code2Sorted(t, req, c)))
    ensures !req.stacked100 ==> r.segments == Code2Sorted(t, req, c)
  {
    StackedBar(c, ScaledSegments(req, Code2Sorted(t, req, c)))
  }

  /** Code 2's segments tallest first: the same segments, reordered. */
  function Code2Sorted(t: Table, req: Request, c: Value): (r: seq<Segment>)
    ensures multiset(r) == multiset(Segments(Code2Stacks(t, req, c), Code2Amounts(t, req, c)))
    ensures Sorting.SortedBy(r, HigherFirst)
  {
    var segs := Segments(Code2Stacks(t, req, c), Code2Amounts(t, req, c));
    HigherFirstTotalPreorder();
    Sorting.SortSorted(segs, HigherFirst);
    Sorting.Sort(segs, HigherFirst)
  }

  /** Code 2's bars: one for every category with a segment, in sorted category order,
      none repeated. */
  function Code2Bars(t: Table, req: Request): (r: seq<StackedBar>)
    ensures forall b :: b in r ==> b.segments != [] && b.category in GroupKeys(t, req.categorical)
    ensures forall b :: b in r ==> b == Code2Bar(t, req, b.category)
    ensures forall c :: c in GroupKeys(t, req.categorical) && Code2Bar(t, req, c).segments != [] ==>
      Code2Bar(t, req, c) in r
    ensures AscendingBars(r)
  {
    NonEmptyBars(c => Code2Bar(t, req, c), GroupKeys(t, req.categorical))
  }

  // ---------------------------------------------------------------- simple bars

  /** Rows that belong to a project. */
  function WithProject(t: Table): (r: Table)
    ensures forall row :: row in r <==> row in t && Get(row, ProjectColumn).Some?
  {
    if t == [] then []
    else (if Get(t[0], ProjectColumn).Some? then [t[0]] else []) + WithProject(t[1..])
  }

  /** The unstacked bar of category `c`: its statistic (Code 1's over whole-project
      totals, Code 2's over in-category sums), without error extents. */
  function SimpleBar(t: Table, req: Request, code1: bool, c: Value): (b: Bar)
    ensures b.category == c && b.errorMinus.None? && b.errorPlus.None?
    ensures b.value.Some? <==>
      exists row :: row in t && Get(row, req.categorical) == Some(c) && Get(row, ProjectColumn).Some?
    ensures code1 ==> b.value == CategoryStat(t, req.numerical, StatisticOf(req.aggregation), req.categorical, c)
    ensures !code1 ==> b.value == GroupStat(t, req.numerical, StatisticOf(req.aggregation), req.categorical, c)
  {
    var stat := StatisticOf(req.aggregation);
    CategoryStatPresent(t, req.numerical, stat, req.categorical, c);
    GroupStatPresent(t, req.numerical, stat, req.categorical, c);
    Bar(c, if code1 then CategoryStat(t, req.numerical, stat, req.categorical, c)
           else GroupStat(t, req.numerical, stat, req.categorical, c),
        None, None)
  }

  /** Every category with a project row gets a value. */
  lemma SimpleBarPresent(t: Table, req: Request, code1: bool, c: Value)
    requires c in GroupKeys(WithProject(t), req.categorical)
    ensures SimpleBar(t, req, code1, c).value.Some?
  {
    var row :| row in WithProject(t) && Get(row, req.categorical) == Some(c);
    assert row in t && Get(row, ProjectColumn).Some?;
  }

  /** Unstacked bars: one per category that has a project row, in sorted order, each with
      a value. */
  function SimpleBars(t: Table, req: Request, code1: bool): (r: seq<Bar>)
    ensures |r| == |GroupKeys(WithProject(t), req.categorical)|
    ensures forall i :: 0 <= i < |r| ==>
      r[i] == SimpleBar(t, req, code1, GroupKeys(WithProject(t), req.categorical)[i])
    ensures forall i :: 0 <= i < |r| ==> r[i].value.Some?
  {
    var cats := GroupKeys(WithProject(t), req.categorical);
    var r := seq(|cats|, i requires 0 <= i < |cats| => SimpleBar(t, req, code1, cats[i]));
    assert forall i :: 0 <= i < |r| ==> r[i].value.Some? by {
      forall i | 0 <= i < |r| ensures r[i].value.Some? {
        SimpleBarPresent(t, req, code1, cats[i]);
      }
    }
    r
  }

  // ---------------------------------------------------------------- the figure

  function ScaleOf(logY: bool): AxisScale {
    if logY then Log else Linear
  }

  /** The unstacked figure; Code 2 leaves the axis type unset in 100% mode. */
  function SimpleChart(t: Table, req: Request, code1: bool): (r: Chart)
    ensures r.traces == Bars(SimpleBars(t, req, code1))
    ensures r.barMode.None? && r.orientation == Vertical && r.colorOrder == []
    ensures "Bar Chart of " + req.numerical + " by " + req.categorical <= r.title
    ensures r.title == "Bar Chart of " + req.numerical + " by " + req.categorical
      + " (" + Capitalize(req.aggregation) + ")"
    ensures r.xAxis.title == req.categorical && r.yAxis.title == req.numerical
    ensures !code1 && req.stacked100 ==> r.yAxis.scale == Unset
    ensures code1 || !req.stacked100 ==> (r.yAxis.scale == Log <==> req.logY) && r.yAxis.scale != Unset
    ensures r.width == Dimension(req.width, DefaultWidth) && r.height == Dimension(req.height, DefaultHeight)
  {
    var scale := if !code1 && req.stacked100 then Unset else ScaleOf(req.logY);
    Chart(
      "Bar Chart of " + req.numerical + " by " + req.categorical
        + " (" + Capitalize(req.aggregation) + ")",
      req.categorical, "secondary_cat_agg",
      Axis(req.categorical, false, Unset, None, None),
      Axis(req.numerical, true, scale, None, None),
      None, Vertical,
      Dimension(req.width, DefaultWidth), Dimension(req.height, DefaultHeight),
      Bars(SimpleBars(t, req, code1)),
      [], [], None)
  }

  function ValueLabel(req: Request): string {
    if req.stacked100 then "Percentage Contribution (%)" else req.numerical
  }

  /** Every stack value of the bars' segments, bar by bar. */
  function StacksOf(bars: seq<StackedBar>): (r: seq<Value>)
    ensures forall b, g :: b in bars && g in b.segments ==> g.stack in r
    ensures forall v :: v in r ==> exists b, g :: b in bars && g in b.segments && g.stack == v
  {
    if bars == [] then []
    else
      var segs := bars[0].segments;
      var here := seq(|segs|, k requires 0 <= k < |segs| => segs[k].stack);
      forall g | g in segs ensures g.stack in here {
        var k :| 0 <= k < |segs| && segs[k] == g;
        assert here[k] == g.stack;
      }
      assert forall b :: b in bars <==> b == bars[0] || b in bars[1..];
      here + StacksOf(bars[1..])
  }

  /** The stacked figure. Code 1 pins the 100% axis to a linear [0, 1] range and gives each
      stack value a palette colour in order of first appearance; Code 2 keeps the log
      option in 100% mode and sets no range. */
  function StackedChart(t: Table, req: Request, code1: bool): (r: Chart)
    ensures r.traces == Stacks(if code1 then Code1Bars(t, req) else Code2Bars(t, req))
    ensures r.title == "Stacked Bar Plot of " + req.stacking + " Contributions by " + req.categorical
      + " (" + Capitalize(req.aggregation) + ")"
    ensures r.barMode == Some(if req.stacked100 then Relative else Stack) && r.orientation == Vertical
    ensures req.stacked100 <==> r.yAxis.tickFormat == Some(".0%")
    ensures code1 && req.stacked100 ==> r.yAxis.scale == Linear && r.yAxis.range == Some((0.0, 1.0))
    ensures !(code1 && req.stacked100) ==> (r.yAxis.scale == Log <==> req.logY) && r.yAxis.range.None?
    ensures code1 ==> NoDuplicates(r.colorOrder)
    ensures code1 ==> forall v :: v in r.colorOrder <==>
      exists b, g :: b in r.traces.stacks && g in b.segments && g.stack == v
    ensures !code1 ==> r.colorOrder == []
  {
    var bars := if code1 then Code1Bars(t, req) else Code2Bars(t, req);
    var scale := if code1 && req.stacked100 then Linear else ScaleOf(req.logY);
    Chart(
      "Stacked Bar Plot of " + req.stacking + " Contributions by " + req.categorical
        + " (" + Capitalize(req.aggregation) + ")",
      req.categorical, if code1 then "normalized_agg_contribution" else "normalized_agg",
      Axis(req.categorical, false, Unset, None, None),
      Axis(ValueLabel(req), true, scale,
           if req.stacked100 then Some(".0%") else None,
           if code1 && req.stacked100 then Some((0.0, 1.0)) else None),
      Some(if req.stacked100 then Relative else Stack), Vertical,
      Dimension(req.width, DefaultWidth), Dimension(req.height, DefaultHeight),
      Stacks(bars),
      [], if code1 then Distinct(StacksOf(bars)) else [], None)
  }

  /** The specification of `process_data` (its figure; the other two outputs are an empty
      record and the figure's dictionary form). */
  function MaterialChart(t: Table, metaColumns: set<string>, spec: seq<Constraint>, req: Request): (r: Chart)
    ensures Unselected(req) ==> r == Placeholder(req.width, req.height)
    ensures !Unselected(req) && req.stacking == "" ==>
      r == SimpleChart(Prepared(t, spec, req.numerical), req, req.categorical in metaColumns)
    ensures !Unselected(req) && req.stacking != "" ==>
      r == StackedChart(Prepared(t, spec, req.numerical), req, req.categorical in metaColumns)
  {
    if Unselected(req) then Placeholder(req.width, req.height)
    else
      var f := Prepared(t, spec, req.numerical);
      var code1 := req.categorical in metaColumns;
      if req.stacking == "" then SimpleChart(f, req, code1) else StackedChart(f, req, code1)
  }

  /** `process_data`: the placeholder while the category or metric is unselected;
      otherwise the pre-filter, the zero rule, the filter loop and the chart. */
  method ProcessData(t: Table, metaColumns: set<string>, features: seq<string>, values: seq<seq<Value>>, req: Request)
    returns (chart: Chart)
    ensures Unselected(req) ==> chart.traces == NoTraces && chart.title == PlaceholderTitle
    ensures Unselected(req) ==>
      chart.width == Dimension(req.width, DefaultWidth) && chart.height == Dimension(req.height, DefaultHeight)
    ensures chart == MaterialChart(t, metaColumns, Zip(features, values), req)
  {
    if Unselected(req) {
      return Placeholder(req.width, req.height);
    }
    var base := Derived.ZeroToMissing(PreFilter(t), req.numerical);
    var f := ApplyFilters(base, Zip(features, values));
    var code1 := req.categorical in metaColumns;
    if req.stacking == "" {
      chart := SimpleChart(f, req, code1);
    } else {
      chart := StackedChart(f, req, code1);
    }
  }

  // ---------------------------------------------------------------- properties

  /** Code 1: without 100% scaling, a bar's segments add up to the category's statistic
      whenever the category has one and its mean fractions do not sum to 0. */
  lemma Code1SegmentsSumToStatistic(t: Table, req: Request, c: Value)
    requires !req.stacked100
    requires CategoryStat(t, req.numerical, StatisticOf(req.aggregation), req.categorical, c).Some?
    requires Stats.SumPresent(MeanFractions(t, req, c, Code1Stacks(t, req, c))) != 0.0
    ensures Stats.SumPresent(Amounts(Code1Bar(t, req, c).segments)) ==
      CategoryStat(t, req.numerical, StatisticOf(req.aggregation), req.categorical, c).value
  {
    Stats.ShareSumsToTotal(MeanFractions(t, req, c, Code1Stacks(t, req, c)),
      CategoryStat(t, req.numerical, StatisticOf(req.aggregation), req.categorical, c).value);
  }

  /** Code 2: the same decomposition of the category's statistic into its stack values. */
  lemma Code2SegmentsSumToStatistic(t: Table, req: Request, c: Value)
    requires !req.stacked100
    requires GroupStat(t, req.numerical, StatisticOf(req.aggregation), req.categorical, c).Some?
    requires Stats.SumPresent(StackStats(t, req, Code2Stacks(t, req, c))) != 0.0
    ensures Stats.SumPresent(Amounts(Code2Bar(t, req, c).segments)) ==
      GroupStat(t, req.numerical, StatisticOf(req.aggregation), req.categorical, c).value
  {
    var raw := StackStats(t, req, Code2Stacks(t, req, c));
    var total := GroupStat(t, req.numerical, StatisticOf(req.aggregation), req.categorical, c).value;
    var segs := Segments(Code2Stacks(t, req, c), Code2Amounts(t, req, c));
    Stats.ShareSumsToTotal(raw, total);
    SegmentSumPermutation(segs, Code2Sorted(t, req, c));
  }

  /** 100% mode, Code 1: a bar's segments add up to 1 whenever they did not add up to 0. */
  lemma Code1HundredPercent(t: Table, req: Request, c: Value)
    requires req.stacked100
    requires Stats.SumPresent(Code1Amounts(t, req, c)) != 0.0
    ensures Stats.SumPresent(Amounts(Code1Bar(t, req, c).segments)) == 1.0
  {
    Stats.NormalizeSumsToOne(Code1Amounts(t, req, c));
  }

  /** 100% mode, Code 2: the same, whatever order the segments were sorted into. */
  lemma Code2HundredPercent(t: Table, req: Request, c: Value)
    requires req.stacked100
    requires Stats.SumPresent(Code2Amounts(t, req, c)) != 0.0
    ensures Stats.SumPresent(Amounts(Code2Bar(t, req, c).segments)) == 1.0
  {
    var segs := Segments(Code2Stacks(t, req, c), Code2Amounts(t, req, c));
    var sorted := Code2Sorted(t, req, c);
    SegmentSumPermutation(segs, sorted);
    Stats.NormalizeSumsToOne(Amounts(sorted));
  }

  /** Code 2 lists a bar's segments tallest first (before any 100% scaling). */
  lemma Code2TallestFirst(t: Table, req: Request, c: Value)
    requires !req.stacked100
    ensures forall i, j :: 0 <= i < j < |Code2Bar(t, req, c).segments| ==>
      var segs := Code2Bar(t, req, c).segments;
      segs[i].amount.Some? && segs[j].amount.Some? ==> segs[i].amount.value >= segs[j].amount.value
    ensures forall i, j :: 0 <= i < j < |Code2Bar(t, req, c).segments| ==>
      var segs := Code2Bar(t, req, c).segments;
      segs[i].amount.None? ==> segs[j].amount.None?
  {
    DescendingHeights(Code2Bar(t, req, c).segments);
  }

  /** Segments sorted by `HigherFirst` are in descending height, missing heights last. */
  lemma DescendingHeights(segs: seq<Segment>)
    requires Sorting.SortedBy(segs, HigherFirst)
    ensures forall i, j :: 0 <= i < j < |segs| ==>
      segs[i].amount.Some? && segs[j].amount.Some? ==> segs[i].amount.value >= segs[j].amount.value
    ensures forall i, j :: 0 <= i < j < |segs| ==> segs[i].amount.None? ==> segs[j].amount.None?
  {
    forall i, j | 0 <= i < j < |segs| ensures HigherFirst(segs[i], segs[j]) {
    }
  }

  /** The axis settings of a stacked chart: 100% mode uses percentage ticks; Code 1 then
      pins a linear [0, 1] range, while Code 2 keeps the log option and sets no range. */
  lemma StackedAxes(t: Table, metaColumns: set<string>, spec: seq<Constraint>, req: Request)
    requires !Unselected(req) && req.stacking != ""
    ensures var chart := MaterialChart(t, metaColumns, spec, req);
      && chart.barMode == Some(if req.stacked100 then Relative else Stack)
      && (req.stacked100 <==> chart.yAxis.tickFormat == Some(".0%"))
      && (req.stacked100 ==> chart.yAxis.title == "Percentage Contribution (%)")
      && (!req.stacked100 ==> chart.yAxis.title == req.numerical)
      && (req.categorical in metaColumns ==>
            && (chart.yAxis.scale == Log <==> req.logY && !req.stacked100)
            && (req.stacked100 ==> chart.yAxis.scale == Linear && chart.yAxis.range == Some((0.0, 1.0)))
            && (!req.stacked100 ==> chart.yAxis.range.None?))
      && (req.categorical !in metaColumns ==>
            (chart.yAxis.scale == Log <==> req.logY) && chart.yAxis.range.None?)
      && !chart.xAxis.showGrid && chart.yAxis.showGrid
  {
  }

  /** The axis settings of an unstacked chart: log on request, except that Code 2 leaves
      the axis type unset when the 100% box is ticked. */
  lemma SimpleAxes(t: Table, metaColumns: set<string>, spec: seq<Constraint>, req: Request)
    requires !Unselected(req) && req.stacking == ""
    ensures var chart := MaterialChart(t, metaColumns, spec, req);
      && chart.barMode.None?
      && chart.xAxis.title == req.categorical && chart.yAxis.title == req.numerical
      && (req.categorical in metaColumns || !req.stacked100 ==>
            chart.yAxis.scale == (if req.logY then Log else Linear))
      && (req.categorical !in metaColumns && req.stacked100 ==> chart.yAxis.scale == Unset)
  {
  }

  /** Code 1 gives every stack value of the chart one palette slot, in order of first
      appearance. */
  lemma Code1ColourSlots(t: Table, metaColumns: set<string>, spec: seq<Constraint>, req: Request)
    requires !Unselected(req) && req.stacking != "" && req.categorical in metaColumns
    ensures var chart := MaterialChart(t, metaColumns, spec, req);
      && NoDuplicates(chart.colorOrder)
      && forall v :: v in chart.colorOrder <==>
           exists b, g :: b in chart.traces.stacks && g in b.segments && g.stack == v
  {
  }

  // ---------------------------------------------------------------- projects before statistics

  lemma MeasuresConcat(a: Table, b: Table, numerical: string)
    ensures Measures(a + b, numerical) == Measures(a, numerical) + Measures(b, numerical)
  {
  }

  /** How one more row changes a project's sum. */
  lemma ProjectSumStep(row: Row, t: Table, numerical: string, p: Value)
    ensures ProjectSum([row] + t, numerical, p) ==
      (if Get(row, ProjectColumn) == Some(p) then Measure(row, numerical).GetOr(0.0) else 0.0) + ProjectSum(t, numerical, p)
  {
    var head: Table := if InList(Get(row, ProjectColumn), [p]) then [row] else [];
    assert ([row] + t)[1..] == t;
    assert Group([row] + t, ProjectColumn, p) == head + Group(t, ProjectColumn, p);
    MeasuresConcat(head, Group(t, ProjectColumn, p), numerical);
    Stats.SumPresentConcat(Measures(head, numerical), Measures(Group(t, ProjectColumn, p), numerical));
    assert Stats.SumPresent(Measures([row], numerical)) == Measure(row, numerical).GetOr(0.0) by {
      assert Measures([row], numerical) == [Measure(row, numerical)];
    }
  }

  /** Over distinct projects, one more row adds its value to the sum of the project sums
      exactly when its project is listed. */
  lemma {:induction false} TotalsStep(row: Row, t: Table, numerical: string, ps: seq<Value>)
    requires NoDuplicates(ps)
    ensures Stats.SumPresent(TotalsOf([row] + t, numerical, ps)) ==
      Stats.SumPresent(TotalsOf(t, numerical, ps)) +
      (if InList(Get(row, ProjectColumn), ps) then Measure(row, numerical).GetOr(0.0) else 0.0)
  {
    if ps != [] {
      assert NoDuplicates(ps[1..]);
      TotalsStep(row, t, numerical, ps[1..]);
      ProjectSumStep(row, t, numerical, ps[0]);
      assert TotalsOf([row] + t, numerical, ps)[1..] == TotalsOf([row] + t, numerical, ps[1..]);
      assert TotalsOf(t, numerical, ps)[1..] == TotalsOf(t, numerical, ps[1..]);
      assert InList(Get(row, ProjectColumn), ps) <==>
        Get(row, ProjectColumn) == Some(ps[0]) || InList(Get(row, ProjectColumn), ps[1..]);
      assert Get(row, ProjectColumn) == Some(ps[0]) ==> !InList(Get(row, ProjectColumn), ps[1..]);
    }
  }

  /** The sums of distinct projects add up to the total over the rows of those projects:
      summing per project first loses and double-counts nothing. */
  lemma {:induction false} ProjectSumsPartition(t: Table, numerical: string, ps: seq<Value>)
    requires NoDuplicates(ps)
    ensures Stats.SumPresent(TotalsOf(t, numerical, ps)) ==
      Stats.SumPresent(Measures(Isin(t, ProjectColumn, ps), numerical))
    decreases |t|
  {
    if t == [] {
      ZeroTotals(numerical, ps);
    } else {
      var row := t[0];
      assert t == [row] + t[1..];
      ProjectSumsPartition(t[1..], numerical, ps);
      TotalsStep(row, t[1..], numerical, ps);
      var head: Table := if InList(Get(row, ProjectColumn), ps) then [row] else [];
      assert Isin(t, ProjectColumn, ps) == head + Isin(t[1..], ProjectColumn, ps);
      MeasuresConcat(head, Isin(t[1..], ProjectColumn, ps), numerical);
      Stats.SumPresentConcat(Measures(head, numerical), Measures(Isin(t[1..], ProjectColumn, ps), numerical));
      assert Measures([row], numerical) == [Measure(row, numerical)];
    }
  }

  lemma {:induction false} ZeroTotals(numerical: string, ps: seq<Value>)
    ensures Stats.SumPresent(TotalsOf([], numerical, ps)) == 0.0
  {
    if ps != [] {
      ZeroTotals(numerical, ps[1..]);
      assert TotalsOf([], numerical, ps)[1..] == TotalsOf([], numerical, ps[1..]);
      assert Measures(Group([], ProjectColumn, ps[0]), numerical) == [];
    }
  }

  /** Per-project sums come before the statistic: the mean of a group is its total over
      the rows that belong to a project, divided by the number of projects (not of rows). */
  lemma MeanIsPerProject(t: Table, numerical: string, col: string, v: Value)
    ensures var g := Group(t, col, v);
      var ps := Projects(g);
      GroupStat(t, numerical, Stats.MeanOf, col, v) ==
        if ps == [] then None else Some(Stats.SumPresent(Measures(Isin(g, ProjectColumn, ps), numerical)) / |ps| as real)
  {
    var g := Group(t, col, v);
    var ps := Projects(g);
    AllPresentCount(TotalsOf(g, numerical, ps));
    ProjectSumsPartition(g, numerical, ps);
  }
}
