/** The intensity metrics derived once at load time from the joined table, and the
    material view's rule that a metric value of 0 is treated as missing. */
module Derived {
  import opened Table

  const InvMass := "inv_mass"
  const Gwp := "gwp"
  const FloorArea := "bldg_cfa"
  /** "mui (kg/m²)": material use intensity. */
  const Mui := "mui (kg/m²)"
  /** "eci (kgCO₂e/m²)": embodied carbon intensity. */
  const Eci := "eci (kgCO₂e/m²)"
  const GwpFactor := "gwp_factor"

  /** `np.where(den != 0, num / den, nan)`: missing when either side is missing or the
      denominator is 0, and otherwise the exact quotient. */
  function Quotient(num: Option<real>, den: Option<real>): (r: Option<real>)
    ensures r.Some? <==> num.Some? && den.Some? && den.value != 0.0
    ensures r.Some? ==> r.value * den.value == num.value
  {
    if num.Some? && den.Some? && den.value != 0.0 then Some(num.value / den.value) else None
  }

  function AsCell(x: Option<real>): Option<Value> {
    if x.Some? then Some(Num(x.value)) else None
  }

  /** `row[col] = num / den` under the rule above; every other column is untouched. */
  function WithQuotient(row: Row, col: string, num: string, den: string): (r: Row)
    ensures Measure(r, col) == Quotient(Measure(row, num), Measure(row, den))
    ensures forall c :: c != col ==> Get(r, c) == Get(row, c)
  {
    row[col := AsCell(Quotient(Measure(row, num), Measure(row, den)))]
  }

  /** One row with the three derived columns added (or overwritten). */
  function DeriveRow(row: Row): (r: Row)
    ensures forall c :: c != Mui && c != Eci && c != GwpFactor ==> Get(r, c) == Get(row, c)
    ensures Measure(r, Mui) == Quotient(Measure(row, InvMass), Measure(row, FloorArea))
    ensures Measure(r, Eci) == Quotient(Measure(row, Gwp), Measure(row, FloorArea))
    ensures Measure(r, GwpFactor) == Quotient(Measure(row, Gwp), Measure(row, InvMass))
  {
    var r1 := WithQuotient(row, Mui, InvMass, FloorArea);
    assert Measure(r1, Gwp) == Measure(row, Gwp) && Measure(r1, FloorArea) == Measure(row, FloorArea);
    var r2 := WithQuotient(r1, Eci, Gwp, FloorArea);
    assert Measure(r2, Gwp) == Measure(row, Gwp) && Measure(r2, InvMass) == Measure(row, InvMass);
    assert Measure(r2, Mui) == Measure(r1, Mui);
    var r3 := WithQuotient(r2, GwpFactor, Gwp, InvMass);
    assert Measure(r3, Mui) == Measure(r2, Mui) && Measure(r3, Eci) == Measure(r2, Eci);
    r3
  }

  /** The derived-metric block applied to every row of the joined table. */
  function DeriveMetrics(t: Table): (r: Table)
    ensures |r| == |t|
    ensures forall i :: 0 <= i < |t| ==> r[i] == DeriveRow(t[i])
  {
    seq(|t|, i requires 0 <= i < |t| => DeriveRow(t[i]))
  }

  /** `df[col].replace(0, nan)` on one row. */
  function ZeroToMissingRow(row: Row, col: string): (r: Row)
    ensures Measure(r, col) == (if Measure(row, col) == Some(0.0) then None else Measure(row, col))
    ensures Get(r, col) == (if Get(row, col) == Some(Num(0.0)) then None else Get(row, col))
    ensures forall c :: c != col ==> Get(r, c) == Get(row, c)
  {
    if Get(row, col) == Some(Num(0.0)) then row[col := None] else row
  }

  /** `df[col] = df[col].replace(0, nan)`: the same rows, with no 0 left in `col`. */
  function ZeroToMissing(t: Table, col: string): (r: Table)
    ensures |r| == |t|
    ensures forall i :: 0 <= i < |t| ==> r[i] == ZeroToMissingRow(t[i], col)
  {
    seq(|t|, i requires 0 <= i < |t| => ZeroToMissingRow(t[i], col))
  }
}
