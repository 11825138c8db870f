/** The descriptive statistics pandas computes for the dashboard, over a column in
    which some values are missing, and the share arithmetic the stacked charts use. */
module Stats {
  import opened Table
  import Sorting

  /** pandas `sum`: missing values are skipped and an all-missing column sums to 0. */
  function SumPresent(xs: seq<Option<real>>): real {
    if xs == [] then 0.0 else xs[0].GetOr(0.0) + SumPresent(xs[1..])
  }

  /** The plain sum of a sequence of numbers. */
  function Total(v: seq<real>): real {
    if v == [] then 0.0 else v[0] + Total(v[1..])
  }

  lemma {:induction false} SumPresentConcat(xs: seq<Option<real>>, ys: seq<Option<real>>)
    ensures SumPresent(xs + ys) == SumPresent(xs) + SumPresent(ys)
  {
    if xs != [] {
      SumPresentConcat(xs[1..], ys);
      assert (xs + ys)[1..] == xs[1..] + ys;
    } else {
      assert xs + ys == ys;
    }
  }

  /** pandas `count`: the number of present values. */
  function CountPresent(xs: seq<Option<real>>): (n: nat)
    ensures n <= |xs|
  {
    if xs == [] then 0 else (if xs[0].Some? then 1 else 0) + CountPresent(xs[1..])
  }

  /** `dropna`: the present values, in order. */
  function Present(xs: seq<Option<real>>): (r: seq<real>)
    ensures |r| == CountPresent(xs)
    ensures forall x :: x in r <==> Some(x) in xs
  {
    if xs == [] then []
    else
      assert forall o :: o in xs <==> o == xs[0] || o in xs[1..];
      (if xs[0].Some? then [xs[0].value] else []) + Present(xs[1..])
  }

  /** Skipping the missing values is summing what `dropna` keeps. */
  lemma {:induction false} SumIsTotalOfPresent(xs: seq<Option<real>>)
    ensures SumPresent(xs) == Total(Present(xs))
  {
    if xs != [] {
      SumIsTotalOfPresent(xs[1..]);
      var p := Present(xs);
      if xs[0].Some? {
        assert p == [xs[0].value] + Present(xs[1..]);
        assert p[1..] == Present(xs[1..]);
      } else {
        assert p == Present(xs[1..]);
      }
    }
  }

  /** pandas `mean`: missing values are skipped; with none present the mean is missing. */
  function Mean(xs: seq<Option<real>>): (r: Option<real>)
    ensures r.Some? <==> CountPresent(xs) > 0
    ensures r.Some? ==> r.value * CountPresent(xs) as real == SumPresent(xs)
  {
    var n := CountPresent(xs);
    if n == 0 then None else Some(SumPresent(xs) / n as real)
  }

  predicate RealLe(a: real, b: real) { a <= b }

  lemma RealLeTotalPreorder()
    ensures Sorting.TotalPreorder(RealLe)
  {
  }

  /** The present values in ascending order. */
  function Ascending(xs: seq<Option<real>>): (v: seq<real>)
    ensures |v| == CountPresent(xs)
    ensures Sorting.SortedBy(v, RealLe)
    ensures multiset(v) == multiset(Present(xs))
  {
    RealLeTotalPreorder();
    Sorting.SortSorted(Present(xs), RealLe);
    Sorting.Sort(Present(xs), RealLe)
  }

  lemma ProductBounds(q: real, m: real)
    requires 0.0 <= q <= 1.0 && 0.0 <= m
    ensures 0.0 <= q * m <= m
  {
  }

  /** The value at real position `pos` of an ascending sequence, interpolated linearly
      between the two ranks around it. */
  function At(v: seq<real>, pos: real): real
    requires 0.0 <= pos <= (|v| - 1) as real
  {
    var lo := pos.Floor;
    var frac := pos - lo as real;
    if lo + 1 < |v| then v[lo] + frac * (v[lo + 1] - v[lo]) else v[lo]
  }

  /** numpy's default ("linear") quantile of an ascending sequence: the value at
      position q * (n - 1), interpolated between the two ranks around it. */
  function Interpolate(v: seq<real>, q: real): real
    requires |v| > 0 && 0.0 <= q <= 1.0
  {
    At(v, Position(|v|, q))
  }

  /** The position `q * (n - 1)` of quantile level `q` among `n` ranks. */
  function Position(n: nat, q: real): (pos: real)
    requires n > 0 && 0.0 <= q <= 1.0
    ensures 0.0 <= pos <= (n - 1) as real
  {
    ProductBounds(q, (n - 1) as real);
    q * (n - 1) as real
  }

  /** pandas `quantile(q)`: missing values are skipped; with none present the quantile is missing. */
  function Quantile(xs: seq<Option<real>>, q: real): (r: Option<real>)
    requires 0.0 <= q <= 1.0
    ensures r.Some? <==> CountPresent(xs) > 0
    ensures r.Some? ==> exists lo, hi :: lo in Present(xs) && hi in Present(xs) && lo <= r.value <= hi
  {
    var v := Ascending(xs);
    if v == [] then None
    else
      InterpolateBetween(v, q);
      assert forall x :: x in v ==> x in Present(xs) by {
        forall x | x in v ensures x in Present(xs) {
          assert x in multiset(v);
        }
      }
      Some(Interpolate(v, q))
  }

  /** An interpolated quantile lies between two of the values it interpolates. */
  lemma InterpolateBetween(v: seq<real>, q: real)
    requires |v| > 0 && 0.0 <= q <= 1.0 && Sorting.SortedBy(v, RealLe)
    ensures exists lo, hi :: lo in v && hi in v && lo <= Interpolate(v, q) <= hi
  {
    var pos := Position(|v|, q);
    AtBetween(v, pos);
    var k := pos.Floor;
    if k + 1 < |v| {
      assert v[k] in v && v[k + 1] in v;
    } else {
      assert At(v, pos) == v[k] && v[k] in v;
    }
  }

  /** pandas `median`: the middle present value, or the average of the two middle ones. */
  function Median(xs: seq<Option<real>>): (r: Option<real>)
    ensures r.Some? <==> CountPresent(xs) > 0
  {
    var v := Ascending(xs);
    if v == [] then None else Some(Middle(v))
  }

  function Middle(v: seq<real>): real
    requires |v| > 0
  {
    var n := |v|;
    if n % 2 == 1 then v[n / 2] else (v[n / 2 - 1] + v[n / 2]) / 2.0
  }

  lemma MiddleIsHalfInterpolation(v: seq<real>)
    requires |v| > 0
    ensures Middle(v) == Interpolate(v, 0.5)
  {
    var n := |v|;
    var k := n / 2;
    var pos := Position(n, 0.5);
    assert pos == 0.5 * (n - 1) as real;
    if n % 2 == 1 {
      assert n == 2 * k + 1;
      assert pos == k as real;
      assert pos.Floor == k;
      assert At(v, pos) == v[k];
    } else {
      assert n == 2 * k;
      assert pos == (k - 1) as real + 0.5;
      assert pos.Floor == k - 1;
      assert At(v, pos) == v[k - 1] + 0.5 * (v[k] - v[k - 1]);
    }
  }

  /** The median is the 50% quantile. */
  lemma MedianIsMiddleQuantile(xs: seq<Option<real>>)
    ensures Median(xs) == Quantile(xs, 0.5)
  {
    var v := Ascending(xs);
    if v != [] {
      MiddleIsHalfInterpolation(v);
    }
  }

  /** An interpolated value lies between the two ranks it interpolates. */
  lemma AtBetween(v: seq<real>, pos: real)
    requires 0.0 <= pos <= (|v| - 1) as real && Sorting.SortedBy(v, RealLe)
    ensures var lo := pos.Floor;
      0 <= lo < |v| && v[lo] <= At(v, pos) && (lo + 1 < |v| ==> At(v, pos) <= v[lo + 1])
  {
    var lo := pos.Floor;
    if lo + 1 < |v| {
      assert RealLe(v[lo], v[lo + 1]);
      var frac, d := pos - lo as real, v[lo + 1] - v[lo];
      ProductBounds(frac, d);
      assert At(v, pos) == v[lo] + frac * d;
    }
  }

  lemma ScaleMonotone(a: real, b: real, d: real)
    requires a <= b && 0.0 <= d
    ensures a * d <= b * d
  {
  }

  /** On an ascending sequence a later position never holds a smaller value. */
  lemma AtMonotone(v: seq<real>, a: real, b: real)
    requires 0.0 <= a <= b <= (|v| - 1) as real && Sorting.SortedBy(v, RealLe)
    ensures At(v, a) <= At(v, b)
  {
    var la, lb := a.Floor, b.Floor;
    if la == lb {
      if la + 1 < |v| {
        assert RealLe(v[la], v[la + 1]);
        var fa, fb, d := a - la as real, b - la as real, v[la + 1] - v[la];
        ScaleMonotone(fa, fb, d);
        assert At(v, a) == v[la] + fa * d && At(v, b) == v[la] + fb * d;
      }
    } else {
      AtBetween(v, a);
      AtBetween(v, b);
      assert la + 1 <= lb;
      assert RealLe(v[la + 1], v[lb]) || la + 1 == lb;
    }
  }

  lemma PositionMonotone(n: nat, p: real, q: real)
    requires n > 0 && 0.0 <= p <= q <= 1.0
    ensures Position(n, p) <= Position(n, q)
  {
    ScaleMonotone(p, q, (n - 1) as real);
  }

  lemma InterpolateMonotone(v: seq<real>, p: real, q: real)
    requires |v| > 0 && 0.0 <= p <= q <= 1.0 && Sorting.SortedBy(v, RealLe)
    ensures Interpolate(v, p) <= Interpolate(v, q)
  {
    PositionMonotone(|v|, p, q);
    AtMonotone(v, Position(|v|, p), Position(|v|, q));
  }

  /** The first and third quartiles bracket the median, so median error bars never point inward. */
  lemma QuartilesBracketMedian(xs: seq<Option<real>>)
    ensures Quantile(xs, 0.25).Some? <==> Median(xs).Some?
    ensures Quantile(xs, 0.75).Some? <==> Median(xs).Some?
    ensures Median(xs).Some? ==>
      Quantile(xs, 0.25).value <= Median(xs).value <= Quantile(xs, 0.75).value
  {
    MedianIsMiddleQuantile(xs);
    var v := Ascending(xs);
    if v != [] {
      InterpolateMonotone(v, 0.25, 0.5);
      InterpolateMonotone(v, 0.5, 0.75);
    }
  }

  /** The central statistic the material view offers. */
  datatype Statistic = MeanOf | MedianOf {
    function Of(xs: seq<Option<real>>): (r: Option<real>)
      ensures r.Some? <==> CountPresent(xs) > 0
      ensures MeanOf? ==> r == Mean(xs)
      ensures MedianOf? ==> r == Median(xs)
    {
      match this
      case MeanOf => Mean(xs)
      case MedianOf => Median(xs)
    }
  }

  /** Every present value multiplied by `k`; missing stays missing. */
  function ScaleAll(xs: seq<Option<real>>, k: real): (r: seq<Option<real>>)
    ensures |r| == |xs|
    ensures forall i :: 0 <= i < |xs| ==> r[i].Some? == xs[i].Some?
    ensures forall i :: 0 <= i < |xs| && xs[i].Some? ==> r[i].value == xs[i].value * k
  {
    if xs == [] then []
    else (if xs[0].Some? then [Some(xs[0].value * k)] else [None]) + ScaleAll(xs[1..], k)
  }

  lemma {:induction false} ScaleSum(xs: seq<Option<real>>, k: real)
    ensures SumPresent(ScaleAll(xs, k)) == SumPresent(xs) * k
  {
    if xs != [] {
      ScaleSum(xs[1..], k);
      var r := ScaleAll(xs, k);
      assert r[1..] == ScaleAll(xs[1..], k);
      var h := xs[0].GetOr(0.0);
      assert r[0].GetOr(0.0) == h * k;
      Distribute(h, SumPresent(xs[1..]), k);
    }
  }

  lemma Distribute(a: real, b: real, k: real)
    ensures (a + b) * k == a * k + b * k
  {
  }

  function AllMissing(n: nat): (r: seq<Option<real>>)
    ensures |r| == n && forall i :: 0 <= i < n ==> r[i].None?
  {
    seq(n, i => None)
  }

  lemma {:induction false} AllMissingSumsToZero(n: nat)
    ensures SumPresent(AllMissing(n)) == 0.0
  {
    if n > 0 {
      AllMissingSumsToZero(n - 1);
      assert AllMissing(n)[1..] == AllMissing(n - 1);
    }
  }

  /** `x / x.sum()` within one group: every value divided by the group's total. A zero
      total (where pandas produces inf or NaN) leaves every value missing. */
  function Normalize(xs: seq<Option<real>>): (r: seq<Option<real>>)
    ensures |r| == |xs|
    ensures forall i :: 0 <= i < |xs| ==> (r[i].Some? <==> xs[i].Some? && SumPresent(xs) != 0.0)
    ensures forall i :: 0 <= i < |xs| && r[i].Some? ==> r[i].value * SumPresent(xs) == xs[i].value
  {
    var d := SumPresent(xs);
    if d == 0.0 then AllMissing(|xs|) else ScaleAll(xs, 1.0 / d)
  }

  /** What "100% stacked" relies on: normalised segments add up to 1. */
  lemma NormalizeSumsToOne(xs: seq<Option<real>>)
    requires SumPresent(xs) != 0.0
    ensures SumPresent(Normalize(xs)) == 1.0
  {
    ScaleSum(xs, 1.0 / SumPresent(xs));
  }

  /** `r` splits `total` in proportion to `raw`: each present entry of `r` is to `total` as
      the matching entry of `raw` is to the sum of `raw`; all are missing when `total` is
      missing or `raw` sums to 0. */
  predicate Apportions(r: seq<Option<real>>, raw: seq<Option<real>>, total: Option<real>) {
    |r| == |raw| && forall i :: 0 <= i < |raw| ==> ApportionedAt(r, raw, SumPresent(raw), total, i)
  }

  /** Entry `i` of `r` is to `total` as entry `i` of `raw` is to `sum`. */
  predicate ApportionedAt(r: seq<Option<real>>, raw: seq<Option<real>>, sum: real, total: Option<real>, i: int)
    requires 0 <= i < |r| == |raw|
  {
    && (r[i].Some? <==> raw[i].Some? && total.Some? && sum != 0.0)
    && (r[i].Some? ==> Proportional(r[i].value, sum, raw[i].value, total.value))
  }

  /** `a` is to `total` as `v` is to `sum`, stated without division. */
  predicate Proportional(a: real, sum: real, v: real, total: real) {
    a * sum == v * total
  }

  /** One entry of an apportioned sequence, with its raw entry `Some(v)` and, when present,
      its own entry `Some(a)`; `sum` is the sum of `raw`. */
  lemma ApportionedEntry(r: seq<Option<real>>, raw: seq<Option<real>>, sum: real, total: Option<real>,
                         k: nat, a: real, v: real)
    requires Apportions(r, raw, total) && sum == SumPresent(raw) && k < |raw| && raw[k] == Some(v)
    ensures r[k].Some? <==> total.Some? && sum != 0.0
    ensures r[k] == Some(a) ==> Proportional(a, sum, v, total.value)
  {
    assert ApportionedAt(r, raw, SumPresent(raw), total, k);
  }


  /** The contribution decomposition: each raw contribution's share of the group's raw
      total, times the group's statistic. A missing statistic, or a raw total of 0 (where
      pandas produces inf or NaN), leaves every segment missing. */
  function Share(raw: seq<Option<real>>, total: Option<real>): (r: seq<Option<real>>)
    ensures Apportions(r, raw, total)
  {
    if total.None? || SumPresent(raw) == 0.0 then AllMissing(|raw|)
    else
      var k := total.value / SumPresent(raw);
      ShareFactor(raw, total.value, SumPresent(raw));
      ScaleAll(raw, k)
  }

  /** `x * (t / s) * s == x * t` for each present `x` of `raw`, when `s` is non-zero. */
  lemma ShareFactor(raw: seq<Option<real>>, t: real, s: real)
    requires s != 0.0
    ensures forall i :: 0 <= i < |raw| && raw[i].Some? ==> raw[i].value * (t / s) * s == raw[i].value * t
  {
    forall i | 0 <= i < |raw| && raw[i].Some? ensures raw[i].value * (t / s) * s == raw[i].value * t {
      MulSwap(raw[i].value, t / s, s);
    }
  }

  lemma MulSwap(a: real, k: real, s: real)
    ensures (a * k) * s == (a * s) * k
  {
  }

  /** The segments of a stacked bar add up to the statistic they decompose. */
  lemma ShareSumsToTotal(raw: seq<Option<real>>, total: real)
    requires SumPresent(raw) != 0.0
    ensures SumPresent(Share(raw, Some(total))) == total
  {
    var s := SumPresent(raw);
    ScaleSum(raw, total / s);
    MulSwap(1.0, total / s, s);
  }
}
