/** The joined LCA table as the dashboard sees it after loading: one row per material
    line item, each row a map from column name to a possibly missing cell. */
module Table {
  import Sorting

  datatype Option<+T> = None | Some(value: T) {
    function GetOr(default: T): T {
      match this
      case Some(v) => v
      case None => default
    }
  }

  /** A cell: text for the categorical (object-dtype) columns, a number for measures. */
  datatype Value = Text(s: string) | Num(x: real)

  /** A missing cell (NaN, None) is `None`; so is a column that the row does not have. */
  type Row = map<string, Option<Value>>
  type Table = seq<Row>

  /** The key column that every per-project aggregation groups by. */
  const ProjectColumn := "project_index"

  function Get(row: Row, col: string): Option<Value> {
    if col in row then row[col] else None
  }

  /** The numeric reading of a cell; text in a numeric column counts as missing. */
  function Measure(row: Row, col: string): (r: Option<real>)
    ensures r.Some? <==> Get(row, col).Some? && Get(row, col).value.Num?
    ensures r.Some? ==> Get(row, col) == Some(Num(r.value))
  {
    match Get(row, col)
    case Some(Num(x)) => Some(x)
    case _ => None
  }

  /** The measure column of every row, in row order, missing cells included. */
  function Measures(t: Table, col: string): (r: seq<Option<real>>)
    ensures |r| == |t|
    ensures forall i :: 0 <= i < |t| ==> r[i] == Measure(t[i], col)
  {
    seq(|t|, i requires 0 <= i < |t| => Measure(t[i], col))
  }

  /** pandas `isin`: the cell is present and one of `allowed` (a missing cell never is). */
  predicate InList(cell: Option<Value>, allowed: seq<Value>) {
    cell.Some? && cell.value in allowed
  }

  /** `t[t[col].isin(allowed)]`: the rows, in order, whose `col` cell is in `allowed`. */
  function Isin(t: Table, col: string, allowed: seq<Value>): (r: Table)
    ensures |r| <= |t|
    ensures forall row :: row in r <==> row in t && InList(Get(row, col), allowed)
  {
    if t == [] then []
    else (if InList(Get(t[0], col), allowed) then [t[0]] else []) + Isin(t[1..], col, allowed)
  }

  /** `isin` keeps every admitted row as often as it occurs and drops the others. */
  lemma {:induction false} IsinCounts(t: Table, col: string, allowed: seq<Value>)
    ensures forall row :: multiset(Isin(t, col, allowed))[row] ==
                          if InList(Get(row, col), allowed) then multiset(t)[row] else 0
  {
    if t != [] {
      IsinCounts(t[1..], col, allowed);
      assert t == [t[0]] + t[1..];
    }
  }

  /** The rows of one `groupby(col)` group: those whose `col` cell equals `key`. */
  function Group(t: Table, col: string, key: Value): (r: Table)
    ensures forall row :: row in r <==> row in t && Get(row, col) == Some(key)
  {
    Isin(t, col, [key])
  }

  /** A group holds each of its rows as often as `t` does. */
  lemma GroupCounts(t: Table, col: string, key: Value)
    ensures forall row :: multiset(Group(t, col, key))[row] ==
                          if Get(row, col) == Some(key) then multiset(t)[row] else 0
  {
    IsinCounts(t, col, [key]);
  }

  /** `a` is obtained from `b` by deleting elements: order is kept. */
  predicate IsSubsequence<T(==)>(a: seq<T>, b: seq<T>)
    decreases |b|
  {
    a == [] || (b != [] && ((a[0] == b[0] && IsSubsequence(a[1..], b[1..])) || IsSubsequence(a, b[1..])))
  }

  lemma {:induction false} IsinIsSubsequence(t: Table, col: string, allowed: seq<Value>)
    ensures IsSubsequence(Isin(t, col, allowed), t)
  {
    if t != [] {
      IsinIsSubsequence(t[1..], col, allowed);
      if InList(Get(t[0], col), allowed) {
        assert Isin(t, col, allowed)[1..] == Isin(t[1..], col, allowed);
      } else {
        assert Isin(t, col, allowed) == Isin(t[1..], col, allowed);
      }
    }
  }

  predicate NoDuplicates<T(==)>(s: seq<T>) {
    forall i, j :: 0 <= i < j < |s| ==> s[i] != s[j]
  }

  /** pandas `unique`: the distinct elements, in order of first appearance. */
  function Distinct<T(==,!new)>(xs: seq<T>): (r: seq<T>)
    ensures NoDuplicates(r)
    ensures forall x :: x in r <==> x in xs
    ensures |r| <= |xs|
  {
    if xs == [] then []
    else
      var d := Distinct(xs[..|xs| - 1]);
      assert xs == xs[..|xs| - 1] + [xs[|xs| - 1]];
      if xs[|xs| - 1] in d then d else d + [xs[|xs| - 1]]
  }

  /** The present cells of column `col`, in row order (`t[col].dropna()`). */
  function PresentValues(t: Table, col: string): (r: seq<Value>)
    ensures forall v :: v in r <==> exists row :: row in t && Get(row, col) == Some(v)
  {
    if t == [] then []
    else
      assert forall row :: row in t <==> row == t[0] || row in t[1..];
      (if Get(t[0], col).Some? then [Get(t[0], col).value] else []) + PresentValues(t[1..], col)
  }

  /** `t[col].dropna().unique()`: the distinct present values, in first-appearance order. */
  function Unique(t: Table, col: string): (r: seq<Value>)
    ensures NoDuplicates(r)
    ensures forall v :: v in r <==> exists row :: row in t && Get(row, col) == Some(v)
  {
    Distinct(PresentValues(t, col))
  }

  lemma UniqueNonEmpty(t: Table, col: string, key: Value)
    requires Group(t, col, key) != []
    ensures key in Unique(t, col)
  {
    assert Group(t, col, key)[0] in Group(t, col, key);
  }

  lemma {:induction false} NoDuplicatesCountsOnce<T>(s: seq<T>, x: T)
    requires NoDuplicates(s)
    ensures multiset(s)[x] <= 1
  {
    if s != [] {
      var rest := s[1..];
      assert forall i, j :: 0 <= i < j < |rest| ==> rest[i] == s[i + 1] && rest[j] == s[j + 1];
      NoDuplicatesCountsOnce(rest, x);
      assert s == [s[0]] + rest;
      assert forall j :: 0 <= j < |rest| ==> rest[j] == s[j + 1] && s[0] != s[j + 1];
      assert s[0] == x ==> x !in rest;
    }
  }

  /** A permutation of a sequence without duplicates has none either. */
  lemma NoDuplicatesPermutation<T>(a: seq<T>, b: seq<T>)
    requires multiset(a) == multiset(b) && NoDuplicates(a)
    ensures NoDuplicates(b)
  {
    forall i, j | 0 <= i < j < |b| ensures b[i] != b[j] {
      var x := b[i];
      NoDuplicatesCountsOnce(a, x);
      assert b == b[..i] + [x] + b[i + 1..j] + [b[j]] + b[j + 1..];
      assert multiset(b)[x] >= 1 + multiset([b[j]])[x];
    }
  }

  /** Python's ordering of cells as `sorted` sees them: numbers by value, text by code
      point, lexicographically. (Python refuses to compare a number with text; here
      every number sorts first.) */
  predicate ValueLe(a: Value, b: Value) {
    match (a, b)
    case (Num(x), Num(y)) => x <= y
    case (Num(_), Text(_)) => true
    case (Text(_), Num(_)) => false
    case (Text(s), Text(u)) => TextLe(s, u)
  }

  predicate TextLe(s: string, u: string) {
    s == [] || (u != [] && (s[0] < u[0] || (s[0] == u[0] && TextLe(s[1..], u[1..]))))
  }

  lemma {:induction false} TextLeTotal(s: string, u: string)
    ensures TextLe(s, u) || TextLe(u, s)
  {
    if s != [] && u != [] && s[0] == u[0] {
      TextLeTotal(s[1..], u[1..]);
    }
  }

  lemma {:induction false} TextLeTransitive(s: string, u: string, w: string)
    requires TextLe(s, u) && TextLe(u, w)
    ensures TextLe(s, w)
  {
    if s != [] && u != [] && w != [] && s[0] == u[0] && u[0] == w[0] {
      TextLeTransitive(s[1..], u[1..], w[1..]);
    }
  }

  lemma {:induction false} TextLeAntisymmetric(s: string, u: string)
    requires TextLe(s, u) && TextLe(u, s)
    ensures s == u
  {
    if s != [] && u != [] {
      TextLeAntisymmetric(s[1..], u[1..]);
      assert s == [s[0]] + s[1..] && u == [u[0]] + u[1..];
    }
  }

  lemma ValueLeTotalPreorder()
    ensures Sorting.TotalPreorder(ValueLe)
  {
    forall a, b ensures ValueLe(a, b) || ValueLe(b, a) {
      if a.Text? && b.Text? { TextLeTotal(a.s, b.s); }
    }
    forall a, b, c | ValueLe(a, b) && ValueLe(b, c) ensures ValueLe(a, c) {
      if a.Text? && b.Text? && c.Text? { TextLeTransitive(a.s, b.s, c.s); }
    }
  }

  lemma ValueLeAntisymmetric(a: Value, b: Value)
    requires ValueLe(a, b) && ValueLe(b, a)
    ensures a == b
  {
    if a.Text? && b.Text? { TextLeAntisymmetric(a.s, b.s); }
  }

  /** Each value strictly after the one before it: sorted, and none repeated. */
  predicate StrictlyAscending(vs: seq<Value>) {
    forall i, j :: 0 <= i < j < |vs| ==> ValueLe(vs[i], vs[j]) && vs[i] != vs[j]
  }

  /** The keys of `groupby(col)`, which pandas sorts: each value present in `col` once,
      in ascending order. */
  function GroupKeys(t: Table, col: string): (r: seq<Value>)
    ensures NoDuplicates(r)
    ensures Sorting.SortedBy(r, ValueLe)
    ensures StrictlyAscending(r)
    ensures forall v :: v in r <==> exists row :: row in t && Get(row, col) == Some(v)
  {
    var u := Unique(t, col);
    var r := Sorting.Sort(u, ValueLe);
    ValueLeTotalPreorder();
    Sorting.SortSorted(u, ValueLe);
    NoDuplicatesPermutation(u, r);
    assert forall v :: v in r <==> v in multiset(r);
    assert forall v :: v in u <==> v in multiset(u);
    r
  }
}
