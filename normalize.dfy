/** `_normalize_series` (elite_options_system/core/strategies.py:310-344):
    rescaling a column into [-1, 1] by its largest absolute value. */
module Normalize {
  import opened Floats
  import opened Frames

  /** `MIN_NORMALIZATION_DENOMINATOR`, 1e-9. */
  const MinDenominator: real := 0.000000001

  function AbsReal(x: real): (r: real)
    ensures r >= 0.0 && (r == x || r == -x)
  {
    if x < 0.0 then -x else x
  }

  /** `replace([inf, -inf], nan).fillna(0.0)` on one value. */
  function Cleaned(x: Float): (r: real)
    ensures x.Finite? ==> r == x.v
    ensures !x.Finite? ==> r == 0.0
  {
    if x.Finite? then x.v else 0.0
  }

  function CleanAll(xs: seq<Float>): (r: seq<real>)
    ensures |r| == |xs|
    ensures forall i :: 0 <= i < |xs| ==> r[i] == Cleaned(xs[i])
  {
    seq(|xs|, i requires 0 <= i < |xs| => Cleaned(xs[i]))
  }

  /** `abs().max()`: the largest absolute value, attained by some element. */
  function MaxAbs(xs: seq<real>): (m: real)
    ensures m >= 0.0
    ensures forall i :: 0 <= i < |xs| ==> AbsReal(xs[i]) <= m
    ensures xs != [] ==> exists i :: 0 <= i < |xs| && AbsReal(xs[i]) == m
    ensures xs == [] ==> m == 0.0
  {
    if xs == [] then 0.0
    else
      var m := MaxAbs(xs[..|xs| - 1]);
      var a := AbsReal(xs[|xs| - 1]);
      if a > m then a else m
  }

  function Zeros(n: nat): (r: seq<real>)
    ensures |r| == n && forall i :: 0 <= i < n ==> r[i] == 0.0
  {
    seq(n, _ => 0.0)
  }

  /** The values of the column after numeric coercion. */
  function NumericValues(col: Column): seq<Float> {
    FloatValues(AsNumeric(col).cells)
  }

  predicate AllNaN(xs: seq<Float>) {
    forall i :: 0 <= i < |xs| ==> xs[i].NaN?
  }

  /** `_normalize_series`: empty stays empty; a column with no numbers, or
      whose cleaned values are all below the denominator floor in absolute
      value, becomes zeros; otherwise infinities and NaN become 0 and every
      value is divided by the largest absolute value. */
  function NormalizeSeries(col: Column): (r: seq<real>)
    ensures |r| == |col.cells|
    ensures forall i :: 0 <= i < |r| ==> -1.0 <= r[i] <= 1.0
  {
    if |col.cells| == 0 then []
    else
      var xs := NumericValues(col);
      if AllNaN(xs) then Zeros(|xs|)
      else
        var cleaned := CleanAll(xs);
        var m := MaxAbs(cleaned);
        if m < MinDenominator then Zeros(|xs|)
        else Scale(cleaned, m)
  }

  lemma QuotientBounds(x: real, m: real)
    requires m > 0.0 && AbsReal(x) <= m
    ensures -1.0 <= x / m <= 1.0
  {
    assert -m <= x <= m;
    var q := x / m;
    assert q * m == x;
    assert (q - 1.0) * m == x - m;
    assert (-1.0 - q) * m == -m - x;
    NonPositiveFactor(q - 1.0, m);
    NonPositiveFactor(-1.0 - q, m);
  }

  lemma QuotientUnit(x: real, m: real)
    requires m > 0.0 && AbsReal(x) == m
    ensures AbsReal(x / m) == 1.0
  {
    if x == m {
      assert x / m == 1.0;
    } else {
      assert x == -m;
      assert (-m) / m == -1.0;
    }
  }

  lemma NonPositiveFactor(a: real, m: real)
    requires m > 0.0
    ensures a * m <= 0.0 ==> a <= 0.0
  {
    if a > 0.0 {
      assert a * m > 0.0;
    }
  }

  /** Division of every value by a bound on their absolute values. */
  function Scale(xs: seq<real>, m: real): (r: seq<real>)
    requires m > 0.0
    requires forall i :: 0 <= i < |xs| ==> AbsReal(xs[i]) <= m
    ensures |r| == |xs|
    ensures forall i :: 0 <= i < |xs| ==> r[i] == xs[i] / m && -1.0 <= r[i] <= 1.0
  {
    var r := seq(|xs|, i requires 0 <= i < |xs| => xs[i] / m);
    assert forall i :: 0 <= i < |xs| ==> -1.0 <= r[i] <= 1.0 by {
      forall i | 0 <= i < |xs|
        ensures -1.0 <= r[i] <= 1.0
      {
        QuotientBounds(xs[i], m);
      }
    }
    r
  }

  /** A column is degenerate when its cleaned values are all tiny (this
      includes a column in which nothing is a number). */
  predicate Degenerate(col: Column): (r: bool)
    ensures r <==> var v := CleanAll(NumericValues(col)); forall i :: 0 <= i < |v| ==> AbsReal(v[i]) < MinDenominator
  {
    MaxAbs(CleanAll(NumericValues(col))) < MinDenominator
  }

  /** The degenerate cases give all zeros of the same length. */
  lemma {:induction false} DegenerateGivesZeros(col: Column)
    requires Degenerate(col)
    ensures NormalizeSeries(col) == Zeros(|col.cells|)
  {
    var xs := NumericValues(col);
    if |col.cells| > 0 && AllNaN(xs) {
      assert NormalizeSeries(col) == Zeros(|xs|);
    }
  }

  lemma AllNaNIsDegenerate(col: Column)
    requires AllNaN(NumericValues(col))
    ensures Degenerate(col)
  {
    var c := CleanAll(NumericValues(col));
    assert forall i :: 0 <= i < |c| ==> c[i] == 0.0;
    if c != [] {
      var i :| 0 <= i < |c| && AbsReal(c[i]) == MaxAbs(c);
    }
  }

  /** Otherwise every value is its cleaned value over the largest absolute
      value, and some value reaches 1 or -1. */
  lemma NormalizeScales(col: Column)
    requires !Degenerate(col)
    ensures var c := CleanAll(NumericValues(col));
      forall i :: 0 <= i < |c| ==> NormalizeSeries(col)[i] == c[i] / MaxAbs(c)
    ensures exists i :: 0 <= i < |col.cells| && AbsReal(NormalizeSeries(col)[i]) == 1.0
  {
    var xs := NumericValues(col);
    var c := CleanAll(xs);
    var m := MaxAbs(c);
    assert |col.cells| > 0;
    if AllNaN(xs) {
      AllNaNIsDegenerate(col);
      assert false;
    }
    var r := NormalizeSeries(col);
    var i :| 0 <= i < |c| && AbsReal(c[i]) == m;
    assert r == Scale(c, m);
    QuotientUnit(c[i], m);
  }

  /** A value column holding exactly the given reals. */
  function RealsColumn(r: seq<real>): (col: Column)
    ensures col.dtype == Numeric && |col.cells| == |r|
  {
    Column(Numeric, seq(|r|, i requires 0 <= i < |r| => Num(Finite(r[i]))))
  }

  lemma RealsColumnValues(r: seq<real>)
    ensures CleanAll(NumericValues(RealsColumn(r))) == r
    ensures !AllNaN(NumericValues(RealsColumn(r))) <==> r != []
  {
    var xs := NumericValues(RealsColumn(r));
    assert forall i :: 0 <= i < |r| ==> xs[i] == Finite(r[i]);
    if r != [] {
      assert !xs[0].NaN?;
    }
  }

  /** Normalising a normalised column gives it back. */
  lemma NormalizeIdempotent(col: Column)
    ensures NormalizeSeries(RealsColumn(NormalizeSeries(col))) == NormalizeSeries(col)
  {
    var r := NormalizeSeries(col);
    var col2 := RealsColumn(r);
    RealsColumnValues(r);
    if r == [] {
      return;
    }
    if Degenerate(col) {
      DegenerateGivesZeros(col);
      assert MaxAbs(r) == 0.0 by {
        var i :| 0 <= i < |r| && AbsReal(r[i]) == MaxAbs(r);
      }
      assert NormalizeSeries(col2) == Zeros(|r|);
    } else {
      NormalizeScales(col);
      var i :| 0 <= i < |col.cells| && AbsReal(r[i]) == 1.0;
      assert MaxAbs(r) == 1.0 by {
        var j :| 0 <= j < |r| && AbsReal(r[j]) == MaxAbs(r);
        assert AbsReal(r[j]) <= 1.0;
      }
      assert NormalizeSeries(col2) == r;
    }
  }
}
