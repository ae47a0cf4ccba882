/** Pandas data frames as the source uses them: a frame is a height and a
    map from column name to column; a column is a dtype and one cell per row.
    Row labels and column order are not represented. */
module Frames {
  import opened Floats
  import Text

  /** One cell: a number, a piece of text, a timestamp (an instant as an
      integer count), or a missing value (`None`/`NaT`). */
  datatype Cell = Num(x: Float) | Txt(s: string) | Stamp(t: int) | Null

  /** The dtype classes the source asks about: `is_numeric_dtype`,
      `is_object_dtype`, `is_string_dtype`, `is_datetime64_any_dtype` (with
      `is_period_dtype`), and anything else. */
  datatype DType = Numeric | Object | StringDType | Datetime | OtherDType

  datatype Column = Column(dtype: DType, cells: seq<Cell>)

  datatype Frame = Frame(height: nat, cols: map<string, Column>)

  /** Every column has one cell per row. */
  predicate WellFormed(f: Frame) {
    forall c :: c in f.cols ==> |f.cols[c].cells| == f.height
  }

  /** `pd.isna` on a cell: `None`, `NaT` and a NaN number. Infinities are not missing. */
  predicate IsMissing(c: Cell) {
    c.Null? || (c.Num? && c.x.NaN?)
  }

  predicate AnyMissing(cells: seq<Cell>) {
    exists i :: 0 <= i < |cells| && IsMissing(cells[i])
  }

  /** The number a cell holds, NaN for anything that is not a number. */
  function CellFloat(c: Cell): (r: Float)
    ensures c.Num? ==> r == c.x
    ensures !c.Num? ==> r.NaN?
  {
    if c.Num? then c.x else NaN
  }

  /** `pd.to_numeric(..., errors='coerce')` on one cell: numbers stay, text
      that reads as a number is parsed, everything else becomes NaN. */
  function ToNumericCell(c: Cell): (r: Cell)
    ensures r.Num?
    ensures c.Num? ==> r == c
  {
    match c
    case Num(_) => c
    case Txt(s) => (match Text.ParseNumber(s) case Some(f) => Num(f) case None => Num(NaN))
    case _ => Num(NaN)
  }

  /** `pd.to_numeric(column, errors='coerce')`. */
  function ToNumeric(col: Column): (r: Column)
    ensures r.dtype == Numeric && |r.cells| == |col.cells|
    ensures forall i :: 0 <= i < |col.cells| ==> r.cells[i] == ToNumericCell(col.cells[i])
  {
    Column(Numeric, seq(|col.cells|, i requires 0 <= i < |col.cells| => ToNumericCell(col.cells[i])))
  }

  /** The column a numeric computation sees: a numeric column as it is,
      any other column coerced first. */
  function AsNumeric(col: Column): (r: Column)
    ensures r.dtype == Numeric || col.dtype == Numeric
    ensures |r.cells| == |col.cells|
  {
    if col.dtype == Numeric then col else ToNumeric(col)
  }

  /** The values of a column as floats. */
  function FloatValues(cells: seq<Cell>): (r: seq<Float>)
    ensures |r| == |cells|
    ensures forall i :: 0 <= i < |cells| ==> r[i] == CellFloat(cells[i])
  {
    seq(|cells|, i requires 0 <= i < |cells| => CellFloat(cells[i]))
  }

  /** A column of `n` copies of one value, as `df[name] = value` creates. */
  function Constant(dtype: DType, n: nat, c: Cell): (r: Column)
    ensures r.dtype == dtype && |r.cells| == n
    ensures forall i :: 0 <= i < n ==> r.cells[i] == c
  {
    Column(dtype, seq(n, _ => c))
  }
}
