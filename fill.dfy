/**
 * The missing-value repair of the null-values scenario: numeric columns
 * (pandas dtype kind in "biufc") are filled with their mean, every other
 * column forward-filled and then backward-filled.
 */
module Fill {
  import opened Wrappers
  import opened Artifacts

  type Cells = seq<Option<Cell>>

  /** All present cells are numbers, so pandas infers a numeric dtype (an all-missing column is float). */
  predicate IsNumeric(c: Cells) {
    forall j :: 0 <= j < |c| && c[j].Some? ==> c[j].value.Num?
  }

  function CountPresent(c: Cells): nat {
    if |c| == 0 then 0 else CountPresent(c[..|c| - 1]) + (if c[|c| - 1].Some? then 1 else 0)
  }

  function SumPresent(c: Cells): real {
    if |c| == 0 then 0.0
    else SumPresent(c[..|c| - 1]) + (match c[|c| - 1] case Some(Num(x)) => x case _ => 0.0)
  }

  /** No present cell at all exactly when the count of present cells is zero. */
  lemma {:induction false} CountPresentZero(c: Cells)
    ensures CountPresent(c) == 0 <==> forall j :: 0 <= j < |c| ==> c[j].None?
  {
    if |c| > 0 {
      CountPresentZero(c[..|c| - 1]);
      assert forall j :: 0 <= j < |c| - 1 ==> c[..|c| - 1][j] == c[j];
    }
  }

  /** `col.mean()`, skipping missing cells; none when no cell is present (pandas gives NaN). */
  function Mean(c: Cells): (m: Option<real>)
    ensures m.Some? <==> exists j :: 0 <= j < |c| && c[j].Some?
  {
    CountPresentZero(c);
    var n := CountPresent(c);
    if n == 0 then None else Some(SumPresent(c) / n as real)
  }

  /** `fillna(v)`. */
  function FillNa(c: Cells, v: Cell): (r: Cells)
    ensures |r| == |c|
    ensures forall j :: 0 <= j < |c| ==> r[j] == (if c[j].Some? then c[j] else Some(v))
  {
    if |c| == 0 then [] else FillNa(c[..|c| - 1], v) + [if c[|c| - 1].Some? then c[|c| - 1] else Some(v)]
  }

  /**
   * `fillna(method="ffill")`: a missing cell takes the (filled) value of the
   * cell before it; present cells and a leading missing cell stay as they are.
   */
  function ForwardFill(c: Cells): (r: Cells)
    ensures |r| == |c|
    ensures forall j :: 0 <= j < |c| && c[j].Some? ==> r[j] == c[j]
    ensures forall j :: 0 < j < |c| && c[j].None? ==> r[j] == r[j - 1]
    ensures |c| > 0 ==> r[0] == c[0]
  {
    if |c| == 0 then []
    else
      var init := ForwardFill(c[..|c| - 1]);
      var last := c[|c| - 1];
      init + [if last.Some? || |init| == 0 then last else init[|init| - 1]]
  }

  /**
   * `fillna(method="bfill")`: a missing cell takes the (filled) value of the
   * cell after it; present cells and a trailing missing cell stay as they are.
   */
  function BackwardFill(c: Cells): (r: Cells)
    ensures |r| == |c|
    ensures forall j :: 0 <= j < |c| && c[j].Some? ==> r[j] == c[j]
    ensures forall j :: 0 <= j < |c| - 1 && c[j].None? ==> r[j] == r[j + 1]
    ensures |c| > 0 ==> r[|c| - 1] == c[|c| - 1]
  {
    if |c| == 0 then []
    else
      var rest := BackwardFill(c[1..]);
      [if c[0].Some? || |rest| == 0 then c[0] else rest[0]] + rest
  }

  /** The repair of one column. */
  function FillColumn(col: Column): Column {
    if IsNumeric(col.cells) then
      match Mean(col.cells)
      case Some(m) => col.(cells := FillNa(col.cells, Num(m)))
      case None => col
    else col.(cells := BackwardFill(ForwardFill(col.cells)))
  }

  /** The repaired table: the same rows, each column repaired on its own. */
  function Filled(t: Table): (r: Table)
    ensures r.rows == t.rows && |r.columns| == |t.columns|
  {
    Table(t.rows, seq(|t.columns|, k requires 0 <= k < |t.columns| => FillColumn(t.columns[k])))
  }

  /** The per-column loop of the repair. */
  method FillMissingValues(t: Table) returns (filled: Table)
    ensures filled == Filled(t)
  {
    var columns: seq<Column> := [];
    var k := 0;
    while k < |t.columns|
      invariant 0 <= k <= |t.columns|
      invariant |columns| == k
      invariant forall i :: 0 <= i < k ==> columns[i] == FillColumn(t.columns[i])
    {
      columns := columns + [FillColumn(t.columns[k])];
      k := k + 1;
    }
    filled := Table(t.rows, columns);
  }

  // ---------------------------------------------------------------------
  // Properties of the repair
  // ---------------------------------------------------------------------

  /** A column the repair can complete: it has no rows or at least one present cell. */
  ghost predicate HasValueOrEmpty(col: Column) {
    |col.cells| == 0 || exists j :: 0 <= j < |col.cells| && col.cells[j].Some?
  }

  ghost predicate Complete(c: Cells) {
    forall j :: 0 <= j < |c| ==> c[j].Some?
  }

  /** `c[i]` is the last present cell at or before row `j`. */
  ghost predicate LastPresentAtOrBefore(c: Cells, i: nat, j: nat) {
    i <= j < |c| && c[i].Some? && forall m :: i < m <= j ==> c[m].None?
  }

  /** `c[i]` is the first present cell of the column. */
  ghost predicate FirstPresent(c: Cells, i: nat) {
    i < |c| && c[i].Some? && forall m :: 0 <= m < i ==> c[m].None?
  }

  /**
   * Independent statement of what repairing `col` into `out` means: the name,
   * the length and every present cell are kept; in a numeric column every gap
   * takes the column mean; in any other column a gap takes the nearest present
   * cell above it, or, when there is none, the first present cell below it;
   * a column with rows but no present cell is left as it is (all NaN).
   */
  ghost predicate RepairedFrom(col: Column, out: Column) {
    var c := col.cells;
    && out.name == col.name && |out.cells| == |c|
    && (forall j :: 0 <= j < |c| && c[j].Some? ==> out.cells[j] == c[j])
    && (IsNumeric(c) && Mean(c).Some? ==>
          forall j :: 0 <= j < |c| && c[j].None? ==> out.cells[j] == Some(Num(Mean(c).value)))
    && (!IsNumeric(c) ==>
          forall i, j :: 0 <= i < j < |c| && LastPresentAtOrBefore(c, i, j) ==> out.cells[j] == c[i])
    && (!IsNumeric(c) ==>
          forall i, j :: 0 <= j < i < |c| && FirstPresent(c, i) ==> out.cells[j] == c[i])
    && (!HasValueOrEmpty(col) ==> out == col)
  }

  lemma {:induction false} ForwardFillFrom(c: Cells, i: nat, j: nat)
    requires i <= j < |c| && c[i].Some?
    ensures ForwardFill(c)[j].Some?
    decreases j
  {
    if j > i && c[j].None? {
      ForwardFillFrom(c, i, j - 1);
    }
  }

  lemma {:induction false} BackwardFillUpTo(c: Cells, i: nat, j: nat)
    requires j <= i < |c| && c[i].Some?
    ensures BackwardFill(c)[j].Some?
    decreases i - j
  {
    if j < i && c[j].None? {
      BackwardFillUpTo(c, i, j + 1);
    }
  }

  lemma {:induction false} ForwardFillNone(c: Cells, j: nat)
    requires j < |c| && forall i :: 0 <= i <= j ==> c[i].None?
    ensures ForwardFill(c)[j].None?
  {
    if j > 0 {
      ForwardFillNone(c, j - 1);
    }
  }

  /** Forward filling carries the last present cell `c[i]` down to every gap `j` after it. */
  lemma {:induction false} ForwardFillCarries(c: Cells, i: nat, j: nat)
    requires LastPresentAtOrBefore(c, i, j)
    ensures ForwardFill(c)[j] == c[i]
    decreases j
  {
    if j > i {
      ForwardFillCarries(c, i, j - 1);
    }
  }

  /** Backward filling carries the first present cell `d[i]` up to every gap `j` before it. */
  lemma {:induction false} BackwardFillCarries(d: Cells, i: nat, j: nat)
    requires j <= i < |d| && d[i].Some? && forall m :: j <= m < i ==> d[m].None?
    ensures BackwardFill(d)[j] == d[i]
    decreases i - j
  {
    if j < i {
      BackwardFillCarries(d, i, j + 1);
    }
  }

  lemma PadFromPresent(c: Cells, i: nat)
    requires i < |c| && c[i].Some?
    ensures Complete(BackwardFill(ForwardFill(c)))
  {
    var d := ForwardFill(c);
    forall j | 0 <= j < |c| ensures BackwardFill(d)[j].Some? {
      ForwardFillFrom(c, i, i);
      if j <= i {
        BackwardFillUpTo(d, i, j);
      } else {
        ForwardFillFrom(c, i, j);
      }
    }
  }

  lemma PadAllMissing(c: Cells)
    requires |c| > 0 && forall j :: 0 <= j < |c| ==> c[j].None?
    ensures BackwardFill(ForwardFill(c))[|c| - 1].None?
  {
    ForwardFillNone(c, |c| - 1);
  }

  /** Forward then backward filling leaves no gap exactly when some cell is present (or there are none). */
  lemma PadComplete(c: Cells)
    ensures Complete(BackwardFill(ForwardFill(c))) <==> |c| == 0 || exists j :: 0 <= j < |c| && c[j].Some?
  {
    if i :| 0 <= i < |c| && c[i].Some? {
      PadFromPresent(c, i);
    } else if |c| > 0 {
      PadAllMissing(c);
    }
  }

  /** A column with no gap is left exactly as it is. */
  lemma FillColumnComplete(col: Column)
    requires Complete(col.cells)
    ensures FillColumn(col) == col
  {
    var c := col.cells;
    if !IsNumeric(c) {
      var d := ForwardFill(c);
      assert d == c;
      assert BackwardFill(d) == c;
    } else if |c| > 0 {
      assert c[0].Some?;
      assert FillNa(c, Num(Mean(c).value)) == c;
    }
  }

  /**
   * The repair fills each gap with the value `RepairedFrom` names. After it,
   * a column has no missing cell exactly when it had a present cell or no
   * rows; otherwise it stays all-missing and unchanged.
   */
  lemma FillColumnMeaning(col: Column)
    ensures RepairedFrom(col, FillColumn(col))
    ensures Complete(FillColumn(col).cells) <==> HasValueOrEmpty(col)
    ensures !HasValueOrEmpty(col) ==> FillColumn(col) == col
  {
    var c := col.cells;
    if !IsNumeric(c) {
      PadComplete(c);
      var d := ForwardFill(c);
      var out := BackwardFill(d);
      forall i, j | 0 <= i < j < |c| && LastPresentAtOrBefore(c, i, j) ensures out[j] == c[i] {
        ForwardFillCarries(c, i, j);
      }
      forall i, j | 0 <= j < i < |c| && FirstPresent(c, i) ensures out[j] == c[i] {
        forall m | j <= m < i ensures d[m].None? {
          ForwardFillNone(c, m);
        }
        BackwardFillCarries(d, i, j);
      }
    } else if Mean(c).None? && |c| > 0 {
      assert c[0].None?;
    }
  }

  /**
   * The repaired table keeps its shape; each column is repaired as
   * `RepairedFrom` says (names and present cells kept, gaps filled with the
   * mean or the nearest value); and the table has no missing cell exactly
   * when every column had a present cell or no rows.
   */
  lemma FilledMeaning(t: Table)
    ensures forall k :: 0 <= k < |t.columns| ==> RepairedFrom(t.columns[k], Filled(t).columns[k])
    ensures !AnyMissing(Filled(t)) <==> forall k :: 0 <= k < |t.columns| ==> HasValueOrEmpty(t.columns[k])
    ensures WellFormed(t) ==> WellFormed(Filled(t))
  {
    var r := Filled(t);
    forall k | 0 <= k < |t.columns| ensures r.columns[k] == FillColumn(t.columns[k]) {
    }
    forall k | 0 <= k < |t.columns| ensures Complete(r.columns[k].cells) <==> HasValueOrEmpty(t.columns[k]) {
      FillColumnMeaning(t.columns[k]);
    }
    forall k | 0 <= k < |t.columns| {
      FillColumnMeaning(t.columns[k]);
    }
  }

  /** Repairing a repaired table changes nothing. */
  lemma FilledIdempotent(t: Table)
    ensures Filled(Filled(t)) == Filled(t)
  {
    var r := Filled(t);
    forall k | 0 <= k < |t.columns| ensures FillColumn(r.columns[k]) == r.columns[k] {
      var col := t.columns[k];
      FillColumnMeaning(col);
      if HasValueOrEmpty(col) {
        FillColumnComplete(FillColumn(col));
      }
    }
  }
}
