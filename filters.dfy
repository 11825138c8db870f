/** The filter engine both views share: per-feature membership filters chosen in the
    "Add Filters" dropdowns, the options those dropdowns offer, and the record of the
    selections kept for restoring the building view. */
module Filters {
  import opened Table

  /** One filter dropdown: its feature and the values ticked in it (`[]` when none, which
      covers the `None` an untouched dropdown reports). */
  datatype Constraint = Constraint(feature: string, allowed: seq<Value>)

  /** `zip(filter_features, filter_values)`: pairs up to the shorter of the two lists. */
  function Zip(features: seq<string>, values: seq<seq<Value>>): (spec: seq<Constraint>)
    ensures |spec| == if |features| <= |values| then |features| else |values|
    ensures forall i :: 0 <= i < |spec| ==> spec[i] == Constraint(features[i], values[i])
  {
    var n := if |features| <= |values| then |features| else |values|;
    seq(n, i requires 0 <= i < n => Constraint(features[i], values[i]))
  }

  /** An empty selection imposes nothing; otherwise the row's cell must be one of the values. */
  predicate Allows(c: Constraint, row: Row) {
    c.allowed == [] || InList(Get(row, c.feature), c.allowed)
  }

  predicate Admits(spec: seq<Constraint>, row: Row) {
    forall i :: 0 <= i < |spec| ==> Allows(spec[i], row)
  }

  /** The specification of the filter engine: the rows, in their order, that every
      constraint admits. */
  function Filtered(t: Table, spec: seq<Constraint>): (r: Table)
    ensures |r| <= |t|
    ensures forall row :: row in r <==> row in t && Admits(spec, row)
  {
    if t == [] then []
    else (if Admits(spec, t[0]) then [t[0]] else []) + Filtered(t[1..], spec)
  }

  /** Filtering keeps every admitted row as often as it occurs, and no other row: the
      sums and counts taken afterwards see each duplicate. */
  lemma {:induction false} FilteredCounts(t: Table, spec: seq<Constraint>)
    ensures forall row :: multiset(Filtered(t, spec))[row] == if Admits(spec, row) then multiset(t)[row] else 0
  {
    if t != [] {
      FilteredCounts(t[1..], spec);
      assert t == [t[0]] + t[1..];
    }
  }

  /** The filter loop: `filtered = filtered[filtered[feature].isin(values)]` for every
      pair whose selection is non-empty. */
  method ApplyFilters(t: Table, spec: seq<Constraint>) returns (r: Table)
    ensures r == Filtered(t, spec)
  {
    r := t;
    FilteredAllAdmitted(t, []);
    for i := 0 to |spec|
      invariant r == Filtered(t, spec[..i])
    {
      assert spec[..i + 1] == spec[..i] + [spec[i]];
      FilteredThen(t, spec[..i], spec[i]);
      if spec[i].allowed != [] {
        r := Isin(r, spec[i].feature, spec[i].allowed);
      }
    }
    assert spec[..|spec|] == spec;
  }

  lemma AdmitsAppend(spec: seq<Constraint>, c: Constraint, row: Row)
    ensures Admits(spec + [c], row) <==> Admits(spec, row) && Allows(c, row)
  {
    if Admits(spec, row) && Allows(c, row) {
      forall i | 0 <= i < |spec + [c]| ensures Allows((spec + [c])[i], row) {
        if i < |spec| { assert (spec + [c])[i] == spec[i]; }
      }
    }
    if Admits(spec + [c], row) {
      assert (spec + [c])[|spec|] == c;
      forall i | 0 <= i < |spec| ensures Allows(spec[i], row) {
        assert (spec + [c])[i] == spec[i];
      }
    }
  }

  /** One more pass of the loop: a non-empty selection is one more `isin`, an empty one
      changes nothing. */
  lemma {:induction false} FilteredThen(t: Table, spec: seq<Constraint>, c: Constraint)
    ensures c.allowed != [] ==> Isin(Filtered(t, spec), c.feature, c.allowed) == Filtered(t, spec + [c])
    ensures c.allowed == [] ==> Filtered(t, spec) == Filtered(t, spec + [c])
  {
    if t != [] {
      FilteredThen(t[1..], spec, c);
      AdmitsAppend(spec, c, t[0]);
      var f := Filtered(t, spec);
      if Admits(spec, t[0]) {
        assert f[0] == t[0] && f[1..] == Filtered(t[1..], spec);
      } else {
        assert f == Filtered(t[1..], spec);
      }
    }
  }

  /** Rows every constraint already admits pass through unchanged; in particular, no
      constraint at all returns the whole table. */
  lemma {:induction false} FilteredAllAdmitted(t: Table, spec: seq<Constraint>)
    requires forall row :: row in t ==> Admits(spec, row)
    ensures Filtered(t, spec) == t
  {
    if t != [] {
      assert t[0] in t;
      assert forall row :: row in t[1..] ==> row in t;
      FilteredAllAdmitted(t[1..], spec);
      assert t == [t[0]] + t[1..];
    }
  }

  /** Applying the same filters to their own result changes nothing. */
  lemma FilteredIdempotent(t: Table, spec: seq<Constraint>)
    ensures Filtered(Filtered(t, spec), spec) == Filtered(t, spec)
  {
    FilteredAllAdmitted(Filtered(t, spec), spec);
  }

  /** The result keeps the input's order: it is a subsequence of the input. */
  lemma {:induction false} FilteredIsSubsequence(t: Table, spec: seq<Constraint>)
    ensures IsSubsequence(Filtered(t, spec), t)
  {
    if t != [] {
      FilteredIsSubsequence(t[1..], spec);
      if Admits(spec, t[0]) {
        assert Filtered(t, spec)[1..] == Filtered(t[1..], spec);
      } else {
        assert Filtered(t, spec) == Filtered(t[1..], spec);
      }
    }
  }

  /** Two selections that admit the same rows filter every table alike. */
  lemma {:induction false} FilteredSameAdmission(t: Table, a: seq<Constraint>, b: seq<Constraint>)
    requires forall row :: Admits(a, row) == Admits(b, row)
    ensures Filtered(t, a) == Filtered(t, b)
  {
    if t != [] {
      FilteredSameAdmission(t[1..], a, b);
    }
  }

  lemma AdmitsConcat(a: seq<Constraint>, b: seq<Constraint>, row: Row)
    ensures Admits(a + b, row) <==> Admits(a, row) && Admits(b, row)
  {
    if Admits(a, row) && Admits(b, row) {
      forall i | 0 <= i < |a + b| ensures Allows((a + b)[i], row) {
        if i < |a| { assert (a + b)[i] == a[i]; } else { assert (a + b)[i] == b[i - |a|]; }
      }
    }
    if Admits(a + b, row) {
      forall i | 0 <= i < |a| ensures Allows(a[i], row) { assert (a + b)[i] == a[i]; }
      forall i | 0 <= i < |b| ensures Allows(b[i], row) { assert (a + b)[|a| + i] == b[i]; }
    }
  }

  /** Filters commute: the order in which the features were chosen does not matter. */
  lemma FiltersCommute(t: Table, a: seq<Constraint>, b: seq<Constraint>)
    ensures Filtered(t, a + b) == Filtered(t, b + a)
  {
    forall row ensures Admits(a + b, row) == Admits(b + a, row) {
      AdmitsConcat(a, b, row);
      AdmitsConcat(b, a, row);
    }
    FilteredSameAdmission(t, a + b, b + a);
  }

  /** Filtering in two rounds is filtering once by both selections. */
  lemma {:induction false} FilteredTwice(t: Table, a: seq<Constraint>, b: seq<Constraint>)
    ensures Filtered(Filtered(t, a), b) == Filtered(t, a + b)
  {
    if t != [] {
      FilteredTwice(t[1..], a, b);
      AdmitsConcat(a, b, t[0]);
      var f := Filtered(t, a);
      if Admits(a, t[0]) {
        assert f[0] == t[0] && f[1..] == Filtered(t[1..], a);
      } else {
        assert f == Filtered(t[1..], a);
      }
    }
  }

  /** `store_selected_filter_values`: each feature whose selection is non-empty, mapped to
      that selection (a dict comprehension over the zipped pairs). */
  function StoreSelectedFilterValues(spec: seq<Constraint>): (m: map<string, seq<Value>>)
    ensures forall f :: f in m ==> m[f] != []
  {
    if spec == [] then map[]
    else
      var n := |spec| - 1;
      var m := StoreSelectedFilterValues(spec[..n]);
      if spec[n].allowed != [] then m[spec[n].feature := spec[n].allowed] else m
  }

  /** Position `i` holds the last non-empty selection made for feature `f`. */
  predicate LastSelection(spec: seq<Constraint>, f: string, i: int) {
    && 0 <= i < |spec| && spec[i].feature == f && spec[i].allowed != []
    && forall j :: i < j < |spec| && spec[j].feature == f ==> spec[j].allowed == []
  }

  /** The record holds exactly the features with a non-empty selection, and for a feature
      chosen more than once, its last non-empty selection. */
  lemma StoredSelections(spec: seq<Constraint>)
    ensures forall f :: f in StoreSelectedFilterValues(spec) <==>
      (exists i :: 0 <= i < |spec| && spec[i].feature == f && spec[i].allowed != [])
    ensures forall f :: f in StoreSelectedFilterValues(spec) ==>
      (exists i :: LastSelection(spec, f, i) && StoreSelectedFilterValues(spec)[f] == spec[i].allowed)
  {
    forall f ensures
      && (f in StoreSelectedFilterValues(spec) <==>
           (exists i :: 0 <= i < |spec| && spec[i].feature == f && spec[i].allowed != []))
      && (f in StoreSelectedFilterValues(spec) ==>
           (exists i :: LastSelection(spec, f, i) && StoreSelectedFilterValues(spec)[f] == spec[i].allowed))
    {
      StoredSelection(spec, f);
    }
  }

  /** The same, for one feature. */
  lemma {:induction false} StoredSelection(spec: seq<Constraint>, f: string)
    ensures f in StoreSelectedFilterValues(spec) <==>
      (exists i :: 0 <= i < |spec| && spec[i].feature == f && spec[i].allowed != [])
    ensures f in StoreSelectedFilterValues(spec) ==>
      (exists i :: LastSelection(spec, f, i) && StoreSelectedFilterValues(spec)[f] == spec[i].allowed)
  {
    if spec != [] {
      var n := |spec| - 1;
      var pre := spec[..n];
      StoredSelection(pre, f);
      var m := StoreSelectedFilterValues(pre);
      var r := StoreSelectedFilterValues(spec);
      assert forall i :: 0 <= i < n ==> pre[i] == spec[i];
      if spec[n].feature == f && spec[n].allowed != [] {
        assert LastSelection(spec, f, n);
      } else {
        assert (f in r <==> f in m) && (f in r ==> r[f] == m[f]);
        if f in r {
          var i :| LastSelection(pre, f, i) && m[f] == pre[i].allowed;
          assert LastSelection(spec, f, i);
        }
        if exists i :: 0 <= i < |spec| && spec[i].feature == f && spec[i].allowed != [] {
          var i :| 0 <= i < |spec| && spec[i].feature == f && spec[i].allowed != [];
          assert i < n && pre[i].feature == f;
        }
      }
    }
  }

  /** A row passes the stored selections. */
  predicate AdmitsStored(m: map<string, seq<Value>>, row: Row) {
    forall f :: f in m ==> InList(Get(row, f), m[f])
  }

  predicate DistinctFeatures(spec: seq<Constraint>) {
    forall i, j :: 0 <= i < j < |spec| ==> spec[i].feature != spec[j].feature
  }

  /** When each feature is chosen once, the stored record filters exactly as the live
      selections do, so restoring it reproduces the same filtered table. */
  lemma StoredSelectionsFilterAlike(spec: seq<Constraint>, row: Row)
    requires DistinctFeatures(spec)
    ensures Admits(spec, row) <==> AdmitsStored(StoreSelectedFilterValues(spec), row)
  {
    var m := StoreSelectedFilterValues(spec);
    StoredSelections(spec);
    if Admits(spec, row) {
      forall f | f in m ensures InList(Get(row, f), m[f]) {
        var i :| LastSelection(spec, f, i) && m[f] == spec[i].allowed;
        assert Allows(spec[i], row);
      }
    }
    if AdmitsStored(m, row) {
      forall i | 0 <= i < |spec| ensures Allows(spec[i], row) {
        var f := spec[i].feature;
        if spec[i].allowed != [] {
          assert f in m;
          var k :| LastSelection(spec, f, k) && m[f] == spec[k].allowed;
          assert k == i;
        }
      }
    }
  }

  /** One value dropdown of the filter area: its feature, the options it offers and the
      selection restored into it. */
  datatype Dropdown = Dropdown(feature: string, options: seq<Value>, restored: seq<Value>)

  /** `update_filter_values_dropdowns(_material)`: one dropdown per selected feature,
      offering the distinct present values of that column in first-appearance order and
      restoring the stored selection for it, if any. */
  method FilterDropdowns(t: Table, selected: seq<string>, stored: map<string, seq<Value>>)
    returns (ds: seq<Dropdown>)
    ensures |ds| == |selected|
    ensures forall i :: 0 <= i < |ds| ==> ds[i].feature == selected[i]
    ensures forall i :: 0 <= i < |ds| ==> ds[i].options == Unique(t, selected[i])
    ensures forall i :: 0 <= i < |ds| ==> NoDuplicates(ds[i].options)
    ensures forall i, v :: 0 <= i < |ds| ==>
      (v in ds[i].options <==> exists row :: row in t && Get(row, selected[i]) == Some(v))
    ensures forall i :: 0 <= i < |ds| ==>
      ds[i].restored == if selected[i] in stored then stored[selected[i]] else []
  {
    ds := [];
    for i := 0 to |selected|
      invariant |ds| == i
      invariant forall k :: 0 <= k < i ==>
        ds[k] == Dropdown(selected[k], Unique(t, selected[k]), if selected[k] in stored then stored[selected[k]] else [])
    {
      var feature := selected[i];
      var restored := if feature in stored then stored[feature] else [];
      ds := ds + [Dropdown(feature, Unique(t, feature), restored)];
    }
  }
}
