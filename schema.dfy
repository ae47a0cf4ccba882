/** `_ensure_columns` (elite_options_system/core/strategies.py:346-423):
    makes every required column exist with a usable dtype, filling typed
    defaults, and reports whether the frame needed no change at all. */
module Schema {
  import opened Floats
  import opened Frames
  import Text
  import Dates

  /** `string_like_id_cols`. */
  const IdColumns: set<string> := {"opt_kind", "symbol", "underlying_symbol", "expiration_date", "fetch_timestamp"}

  /** `datetime_cols_special_handling`. */
  const DateColumn: string := "date"

  /** How `_ensure_columns` treats a column, by its name. */
  datatype Category = IdText | DateTime | Number

  function CategoryOf(name: string): (k: Category)
    ensures k == IdText <==> name in IdColumns
    ensures k == DateTime <==> name == DateColumn
  {
    if name in IdColumns then IdText else if name == DateColumn then DateTime else Number
  }

  /** The column added for a missing name: `'unknown'` for `opt_kind`,
      `'N/A_DEFAULT'` for the other id columns, `NaT` for `date`, 0.0 otherwise. */
  function DefaultColumn(name: string, n: nat): (col: Column)
    ensures |col.cells| == n
    ensures name == "opt_kind" ==> col.dtype == Object && forall i :: 0 <= i < n ==> col.cells[i] == Txt("unknown")
    ensures name in IdColumns && name != "opt_kind" ==>
      col.dtype == Object && forall i :: 0 <= i < n ==> col.cells[i] == Txt("N/A_DEFAULT")
    ensures name == DateColumn ==> col.dtype == Datetime && forall i :: 0 <= i < n ==> col.cells[i] == Null
    ensures CategoryOf(name) == Number ==> col.dtype == Numeric && forall i :: 0 <= i < n ==> col.cells[i] == Num(Zero)
  {
    if name == "opt_kind" then Constant(Object, n, Txt("unknown"))
    else if name in IdColumns then Constant(Object, n, Txt("N/A_DEFAULT"))
    else if name == DateColumn then Constant(Datetime, n, Null)
    else Constant(Numeric, n, Num(Zero))
  }

  /** Python's `repr` of a float uses positional notation below this
      magnitude and exponent notation (`1e+16`) from it on. */
  const ReprExponentFrom: real := 10_000_000_000_000_000.0

  /** A float that `repr` writes as `<n>.0`: whole and below 1e16 in magnitude. */
  predicate PositionalWhole(v: real) {
    v == v.Floor as real && -ReprExponentFrom < v < ReprExponentFrom
  }

  /** The text `astype(str)` writes for a cell. Text stays, NaN and the
      infinities read as Python writes them, whole numbers below 1e16 as
      `<n>.0`; other numbers (the exponent forms among them) and
      timestamps get a stand-in text. */
  function RenderedText(c: Cell): (r: string)
    ensures c.Txt? ==> r == c.s
    ensures c.Num? && c.x.Finite? && PositionalWhole(c.x.v) ==>
      |r| >= 3 && r[|r| - 2..] == ".0" && r[..|r| - 2] == Text.IntToDecimal(c.x.v.Floor)
    ensures c.Num? && c.x.Finite? && !PositionalWhole(c.x.v) ==> r == "<float>"
    ensures c == Num(NaN) ==> r == "nan"
    ensures c == Num(PosInf) ==> r == "inf"
    ensures c == Num(NegInf) ==> r == "-inf"
  {
    match c
    case Txt(s) => s
    case Null => "None"
    case Stamp(t) => Text.IntToDecimal(t)
    case Num(NaN) => "nan"
    case Num(PosInf) => "inf"
    case Num(NegInf) => "-inf"
    case Num(Finite(v)) => if PositionalWhole(v) then Text.IntToDecimal(v.Floor) + ".0" else "<float>"
  }

  /** `str(1e16)` is `1e+16`, so the model does not write it positionally. */
  lemma LargeWholeNotPositional()
    ensures RenderedText(Num(Finite(1.0e16))) == "<float>"
    ensures RenderedText(Num(Finite(-1.0e16))) == "<float>"
  {
  }

  /** `astype(str)`: every cell becomes text, so none is missing afterwards. */
  function AsText(col: Column): (r: Column)
    ensures r.dtype == Object && |r.cells| == |col.cells|
    ensures forall i :: 0 <= i < |col.cells| ==> r.cells[i] == Txt(RenderedText(col.cells[i]))
  {
    Column(Object, seq(|col.cells|, i requires 0 <= i < |col.cells| => Txt(RenderedText(col.cells[i]))))
  }

  /** `pd.to_datetime(x, errors='coerce')` on one cell. A timestamp stays.
      Text in one of the ISO 8601 forms `Dates.ParseIso` reads becomes its
      stamp in nanoseconds. A whole number counts nanoseconds since
      1970-01-01. A value outside the `datetime64[ns]` range, any other text,
      NaN, an infinity or a missing value becomes `NaT`. */
  function ToDatetimeCell(c: Cell): (r: Cell)
    ensures r.Stamp? || r.Null?
    ensures c.Stamp? ==> r == c
    ensures IsMissing(c) ==> r.Null?
    ensures c.Txt? && Dates.ParseIso(c.s).None? ==> r.Null?
  {
    match c
    case Stamp(_) => c
    case Txt(s) =>
      (match Dates.ParseIso(s)
       case Some(d) => if Dates.InNanosRange(Dates.EpochNanos(d)) then Stamp(Dates.EpochNanos(d)) else Null
       case None => Null)
    case Num(Finite(v)) => if v == v.Floor as real && Dates.InNanosRange(v.Floor) then Stamp(v.Floor) else Null
    case _ => Null
  }

  /** `pd.to_datetime(column, errors='coerce')`: the cells one by one,
      giving a datetime column in which every cell is a stamp or `NaT`. */
  function AsDatetime(col: Column): (r: Column)
    ensures r.dtype == Datetime && |r.cells| == |col.cells|
    ensures forall i :: 0 <= i < |col.cells| ==> r.cells[i] == ToDatetimeCell(col.cells[i])
  {
    Column(Datetime, seq(|col.cells|, i requires 0 <= i < |col.cells| => ToDatetimeCell(col.cells[i])))
  }

  /** Coercing twice is coercing once, and afterwards every cell is a stamp or missing. */
  lemma AsDatetimeIdempotent(col: Column)
    ensures AllStamps(AsDatetime(col).cells)
    ensures AsDatetime(AsDatetime(col)) == AsDatetime(col)
  {
  }

  /** ISO text dates become stamps that keep the order of the dates, so the
      coerced column sorts as the dates do. */
  lemma IsoTextsOrdered(a: Dates.DateTime, b: Dates.DateTime)
    requires Dates.Valid(a) && Dates.Valid(b) && Dates.Earlier(a, b)
    requires Dates.InNanosRange(Dates.EpochNanos(a)) && Dates.InNanosRange(Dates.EpochNanos(b))
    ensures ToDatetimeCell(Txt(Dates.FormatIso(a))).Stamp? && ToDatetimeCell(Txt(Dates.FormatIso(b))).Stamp?
    ensures ToDatetimeCell(Txt(Dates.FormatIso(a))).t < ToDatetimeCell(Txt(Dates.FormatIso(b))).t
  {
    Dates.ParseFormatIso(a);
    Dates.ParseFormatIso(b);
    Dates.EarlierNanos(a, b);
  }

  /** A date written `YYYY-MM-DD` becomes the stamp of its midnight. */
  lemma IsoDateParsed(d: Dates.DateTime)
    requires Dates.Valid(d) && d.hour == 0 && d.minute == 0 && d.second == 0
    requires Dates.InNanosRange(Dates.EpochNanos(d))
    ensures ToDatetimeCell(Txt(Dates.FormatIsoDate(d))) == Stamp(Dates.EpochNanos(d))
  {
    Dates.ParseFormatIsoDate(d);
  }

  /** `fillna(v)`: every missing cell becomes `v`. */
  function FillMissing(col: Column, v: Cell): (r: Column)
    requires !IsMissing(v)
    ensures r.dtype == col.dtype && |r.cells| == |col.cells|
    ensures !AnyMissing(r.cells)
    ensures forall i :: 0 <= i < |col.cells| ==>
      r.cells[i] == if IsMissing(col.cells[i]) then v else col.cells[i]
  {
    Column(col.dtype, seq(|col.cells|, i requires 0 <= i < |col.cells| =>
      if IsMissing(col.cells[i]) then v else col.cells[i]))
  }

  /** Every cell that is present holds a timestamp. */
  predicate AllStamps(cells: seq<Cell>) {
    forall i :: 0 <= i < |cells| ==> IsMissing(cells[i]) || cells[i].Stamp?
  }

  predicate TextDType(d: DType) {
    d == StringDType || d == Object
  }

  /** A present column that `_ensure_columns` leaves as it is without
      lowering the flag. */
  predicate ColumnClean(name: string, col: Column) {
    match CategoryOf(name)
    case IdText => TextDType(col.dtype) && !AnyMissing(col.cells)
    case DateTime => (col.dtype == Datetime || AllStamps(col.cells)) && !AnyMissing(col.cells)
    case Number => col.dtype == Numeric && !AnyMissing(col.cells)
  }

  predicate Clean(f: Frame, name: string) {
    name in f.cols && ColumnClean(name, f.cols[name])
  }

  /** What `_ensure_columns` does to a present column: id columns become
      text and have missing cells filled with `'N/A_FILLED'`; the date column
      is coerced to datetimes unless it already holds them, and is not filled;
      every other column is coerced to numbers and filled with 0.0. */
  function RepairColumn(name: string, col: Column): (r: Column)
    ensures |r.cells| == |col.cells|
    ensures CategoryOf(name) == IdText && TextDType(col.dtype) ==>
      r.dtype == col.dtype &&
      forall i :: 0 <= i < |col.cells| ==> r.cells[i] == if IsMissing(col.cells[i]) then Txt("N/A_FILLED") else col.cells[i]
    ensures CategoryOf(name) == IdText && !TextDType(col.dtype) ==>
      r.dtype == Object && forall i :: 0 <= i < |col.cells| ==> r.cells[i] == Txt(RenderedText(col.cells[i]))
    ensures CategoryOf(name) == DateTime && (col.dtype == Datetime || AllStamps(col.cells)) ==> r == col
    ensures CategoryOf(name) == DateTime && !(col.dtype == Datetime || AllStamps(col.cells)) ==> r == AsDatetime(col)
    ensures CategoryOf(name) == Number ==>
      var typed := AsNumeric(col);
      r.dtype == Numeric &&
      forall i :: 0 <= i < |col.cells| ==> r.cells[i] == if IsMissing(typed.cells[i]) then Num(Zero) else typed.cells[i]
  {
    match CategoryOf(name)
    case IdText =>
      var typed := if TextDType(col.dtype) then col else AsText(col);
      if AnyMissing(typed.cells) then FillMissing(typed, Txt("N/A_FILLED")) else typed
    case DateTime =>
      if col.dtype == Datetime || AllStamps(col.cells) then col else AsDatetime(col)
    case Number =>
      var typed := AsNumeric(col);
      if AnyMissing(typed.cells) then FillMissing(typed, Num(Zero)) else typed
  }

  /** One iteration of the loop over `required_cols`: the new frame and
      whether the column was clean. */
  function Repair(f: Frame, name: string): (r: (Frame, bool))
    ensures r.0.height == f.height && r.0.cols.Keys == f.cols.Keys + {name}
    ensures r.1 <==> name in f.cols && ColumnClean(name, f.cols[name])
  {
    if name !in f.cols then (Frame(f.height, f.cols[name := DefaultColumn(name, f.height)]), false)
    else (Frame(f.height, f.cols[name := RepairColumn(name, f.cols[name])]), ColumnClean(name, f.cols[name]))
  }

  /** The whole loop, one required column after the other. */
  function RepairAll(f: Frame, required: seq<string>): (r: (Frame, bool))
    ensures r.0.height == f.height
    ensures r.0.cols.Keys == f.cols.Keys + set c | c in required
    decreases |required|
  {
    if required == [] then (f, true)
    else
      var (g, ok) := RepairAll(f, required[..|required| - 1]);
      var (h, ok2) := Repair(g, required[|required| - 1]);
      (h, ok && ok2)
  }

  /** `_ensure_columns`: works on a copy of `df` and lowers the flag whenever
      it adds, coerces or fills a column. */
  method EnsureColumns(df: Frame, required: seq<string>) returns (out: Frame, clean: bool)
    ensures (out, clean) == RepairAll(df, required)
  {
    out := df;
    clean := true;
    var i := 0;
    while i < |required|
      invariant 0 <= i <= |required|
      invariant (out, clean) == RepairAll(df, required[..i])
    {
      assert required[..i + 1][..i] == required[..i];
      var name := required[i];
      if name !in out.cols {
        clean := false;
        out := Frame(out.height, out.cols[name := DefaultColumn(name, out.height)]);
      } else {
        var col := out.cols[name];
        var category := CategoryOf(name);
        if category == IdText {
          if !TextDType(col.dtype) {
            clean := false;
            col := AsText(col);
          }
          if AnyMissing(col.cells) {
            clean := false;
            col := FillMissing(col, Txt("N/A_FILLED"));
          }
        } else if category == DateTime {
          if !(col.dtype == Datetime || AllStamps(col.cells)) {
            col := AsDatetime(col);
            clean := false;
          }
          if AnyMissing(col.cells) {
            clean := false;
          }
        } else {
          if col.dtype != Numeric {
            clean := false;
            col := ToNumeric(col);
          }
          if AnyMissing(col.cells) {
            clean := false;
            col := FillMissing(col, Num(Zero));
          }
        }
        out := Frame(out.height, out.cols[name := col]);
      }
      i := i + 1;
    }
    assert required[..|required|] == required;
  }

  // ---------------------------------------------------------------------
  // What the repair guarantees

  /** A clean column is left exactly as it was. */
  lemma CleanColumnKept(name: string, col: Column)
    requires ColumnClean(name, col)
    ensures RepairColumn(name, col) == col
  {
  }

  /** A repaired column passes through a second repair unchanged. */
  lemma RepairColumnIdempotent(name: string, col: Column)
    ensures RepairColumn(name, RepairColumn(name, col)) == RepairColumn(name, col)
  {
    var r := RepairColumn(name, col);
    match CategoryOf(name)
    case IdText =>
      var typed := if TextDType(col.dtype) then col else AsText(col);
      if !AnyMissing(typed.cells) {
        assert r == typed;
      }
      assert !AnyMissing(r.cells);
    case DateTime =>
      if !(col.dtype == Datetime || AllStamps(col.cells)) {
        assert r.dtype == Datetime;
      }
    case Number =>
      var typed := AsNumeric(col);
      assert typed.dtype == Numeric;
      assert !AnyMissing(r.cells);
  }

  /** A column added with its default passes through a repair unchanged. */
  lemma DefaultColumnStable(name: string, n: nat)
    ensures RepairColumn(name, DefaultColumn(name, n)) == DefaultColumn(name, n)
  {
    var d := DefaultColumn(name, n);
    match CategoryOf(name)
    case IdText =>
      assert !AnyMissing(d.cells);
    case DateTime =>
    case Number =>
      assert !AnyMissing(d.cells);
  }

  /** The frame `_ensure_columns` produces, column by column: each required
      column repaired, or added with its default when it was missing; every
      other column as it was. */
  function Expected(df: Frame, required: seq<string>): (f: Frame)
    ensures f.height == df.height
    ensures f.cols.Keys == df.cols.Keys + set c | c in required
  {
    Frame(df.height, map c | c in df.cols.Keys + (set c | c in required) ::
      if c in required then
        if c in df.cols then RepairColumn(c, df.cols[c]) else DefaultColumn(c, df.height)
      else df.cols[c])
  }

  /** The column the next repair step leaves at `c`, given that the earlier
      steps produced `Expected`. */
  lemma StepAtColumn(df: Frame, init: seq<string>, c: string)
    ensures var g := Expected(df, init);
      Repair(g, c).0.cols[c] == Expected(df, init + [c]).cols[c]
  {
    var g := Expected(df, init);
    var req := init + [c];
    assert c in req;
    if c in init {
      if c in df.cols {
        RepairColumnIdempotent(c, df.cols[c]);
      } else {
        DefaultColumnStable(c, df.height);
      }
    }
  }

  /** The flag of the next repair step, given that the earlier steps
      produced `Expected` with flag `ok`. */
  lemma StepFlag(df: Frame, init: seq<string>, c: string, ok: bool)
    requires ok <==> forall x :: x in init ==> Clean(df, x)
    ensures (ok && Repair(Expected(df, init), c).1) <==> forall x :: x in init + [c] ==> Clean(df, x)
  {
    var g := Expected(df, init);
    assert forall x :: x in init + [c] <==> x in init || x == c;
    if ok && c in init {
      CleanColumnKept(c, df.cols[c]);
      assert g.cols[c] == df.cols[c];
    }
  }

  /** The loop computes `Expected`, and its flag is true exactly when every
      required column was present and clean to begin with. */
  lemma {:induction false} RepairAllCharacterized(df: Frame, required: seq<string>)
    ensures RepairAll(df, required).0 == Expected(df, required)
    ensures RepairAll(df, required).1 <==> forall c :: c in required ==> Clean(df, c)
    decreases |required|
  {
    if required != [] {
      var init := required[..|required| - 1];
      var c := required[|required| - 1];
      assert required == init + [c];
      RepairAllCharacterized(df, init);
      StepFrame(df, init, c);
      StepFlag(df, init, c, RepairAll(df, init).1);
    }
  }

  /** One more repair step takes `Expected` for the earlier columns to
      `Expected` for one more column. */
  lemma StepFrame(df: Frame, init: seq<string>, c: string)
    ensures Repair(Expected(df, init), c).0 == Expected(df, init + [c])
  {
    var h := Repair(Expected(df, init), c).0;
    var e := Expected(df, init + [c]);
    assert forall x :: x in init + [c] <==> x in init || x == c;
    assert h.cols.Keys == e.cols.Keys;
    forall x | x in h.cols
      ensures h.cols[x] == e.cols[x]
    {
      if x == c {
        StepAtColumn(df, init, c);
      }
    }
    assert h.cols == e.cols;
  }

  /** What `_ensure_columns` promises of its frame `out`, given the input
      `df`: every required column exists with one cell per row. A missing
      column is added with its default (`'unknown'`, `'N/A_DEFAULT'`, `NaT`
      or 0.0). A present number column is numeric, its missing cells are
      0.0 and its other cells are the numbers coercion gives. A present id
      column is text: one already text has its missing cells set to
      `'N/A_FILLED'` and keeps the others, any other becomes `astype(str)`. A
      present date column is kept when it holds datetimes and coerced
      otherwise. Number and id columns have no missing cell, and every
      column that is not required is unchanged. */
  predicate Ensured(df: Frame, required: seq<string>, out: Frame)
    requires WellFormed(df)
  {
    WellFormed(out) && out.height == df.height &&
    (forall c :: c in required ==> c in out.cols) &&
    (forall c :: c in required && c !in df.cols ==> out.cols[c] == DefaultColumn(c, df.height)) &&
    (forall c :: c in required && CategoryOf(c) == Number ==>
       out.cols[c].dtype == Numeric && !AnyMissing(out.cols[c].cells)) &&
    (forall c :: c in required && CategoryOf(c) == IdText ==>
       TextDType(out.cols[c].dtype) && !AnyMissing(out.cols[c].cells)) &&
    (forall c, i :: c in required && c in df.cols && CategoryOf(c) == Number && 0 <= i < df.height ==>
       out.cols[c].cells[i] ==
         if IsMissing(AsNumeric(df.cols[c]).cells[i]) then Num(Zero) else AsNumeric(df.cols[c]).cells[i]) &&
    (forall c, i | c in required && c in df.cols && CategoryOf(c) == IdText && TextDType(df.cols[c].dtype) &&
                   0 <= i < df.height ::
       out.cols[c].cells[i] == if IsMissing(df.cols[c].cells[i]) then Txt("N/A_FILLED") else df.cols[c].cells[i]) &&
    (forall c, i | c in required && c in df.cols && CategoryOf(c) == IdText && !TextDType(df.cols[c].dtype) &&
                   0 <= i < df.height ::
       out.cols[c].cells[i] == Txt(RenderedText(df.cols[c].cells[i]))) &&
    (DateColumn in required && DateColumn in df.cols ==>
       out.cols[DateColumn] ==
         if df.cols[DateColumn].dtype == Datetime || AllStamps(df.cols[DateColumn].cells) then df.cols[DateColumn]
         else AsDatetime(df.cols[DateColumn])) &&
    (forall c :: c in df.cols && c !in required ==> c in out.cols && out.cols[c] == df.cols[c])
  }

  /** The frame `_ensure_columns` returns keeps all of `Ensured`. */
  lemma EnsureColumnsGuarantees(df: Frame, required: seq<string>)
    requires WellFormed(df)
    ensures Ensured(df, required, RepairAll(df, required).0)
  {
    RepairAllCharacterized(df, required);
    ExpectedGuarantees(df, required);
  }

  /** The frame `Expected` describes keeps all of `Ensured`. */
  lemma ExpectedGuarantees(df: Frame, required: seq<string>)
    requires WellFormed(df)
    ensures Ensured(df, required, Expected(df, required))
  {
    var out := Expected(df, required);
    forall c | c in required && CategoryOf(c) == Number
      ensures out.cols[c].dtype == Numeric && !AnyMissing(out.cols[c].cells)
    {
      if c in df.cols {
        assert AsNumeric(df.cols[c]).dtype == Numeric;
      } else {
        assert !AnyMissing(DefaultColumn(c, df.height).cells);
      }
    }
    forall c | c in required && CategoryOf(c) == IdText
      ensures TextDType(out.cols[c].dtype) && !AnyMissing(out.cols[c].cells)
    {
      if c !in df.cols {
        assert !AnyMissing(DefaultColumn(c, df.height).cells);
      }
    }
  }

  /** When the flag is true the frame comes back unchanged. */
  lemma CleanMeansUnchanged(df: Frame, required: seq<string>)
    requires RepairAll(df, required).1
    ensures RepairAll(df, required).0 == df
  {
    RepairAllCharacterized(df, required);
    var out := RepairAll(df, required).0;
    forall c | c in required
      ensures out.cols[c] == df.cols[c]
    {
      CleanColumnKept(c, df.cols[c]);
    }
    assert out.cols == df.cols;
  }

  /** Even a date column that coerces without loss lowers the flag. */
  lemma DateCoercionLowersFlag(df: Frame)
    requires DateColumn in df.cols && df.cols[DateColumn].dtype != Datetime
    requires !AllStamps(df.cols[DateColumn].cells)
    ensures !RepairAll(df, [DateColumn]).1
  {
    assert RepairAll(df, [DateColumn]) == Repair(df, DateColumn) by {
      assert [DateColumn][..0] == [];
    }
  }
}
