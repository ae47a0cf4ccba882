/** `_calculate_dynamic_threshold` and `_calculate_dynamic_threshold_wrapper`
    (elite_options_system/core/strategies.py:644-740): a threshold is a fixed
    value or tier list from the configuration, or a percentile or a scaled
    mean of the finite values of a data series; the wrapper falls back to the
    configured `fallback_value`. */
module Thresholds {
  import opened Outcomes
  import opened Floats
  import opened Json
  import opened Frames
  import Normalize
  import Config
  import DefaultConfig
  import DefaultFacts

  /** A threshold: one number or a list of tiers. */
  datatype Threshold = Scalar(x: Float) | Tiers(xs: seq<Float>)

  predicate AllFinite(xs: seq<Float>) {
    forall i :: 0 <= i < |xs| ==> xs[i].Finite?
  }

  /** The final check of `_calculate_dynamic_threshold`: every number is finite. */
  predicate IsValid(t: Threshold) {
    match t
    case Scalar(x) => x.Finite?
    case Tiers(xs) => AllFinite(xs)
  }

  /** `[float(t) for t in items]`: raises as soon as one item does not convert. */
  function FloatList(items: seq<Json>): (r: Outcome<seq<Float>>)
    ensures r.Returns? <==> forall i :: 0 <= i < |items| ==> ToFloat(items[i]).Returns?
    ensures r.Returns? ==> |r.value| == |items| &&
                           forall i :: 0 <= i < |items| ==> ToFloat(items[i]) == Returns(r.value[i])
  {
    if items == [] then Returns([])
    else
      var x :- ToFloat(items[0]);
      var rest :- FloatList(items[1..]);
      Returns([x] + rest)
  }

  // ---------------------------------------------------------------------
  // `fixed`

  /** `value` when it is set and not `None`, else a non-empty `tiers` list,
      else nothing; a conversion that raises is caught and gives nothing. */
  function FixedThreshold(config: map<string, Json>): (r: Option<Threshold>)
    ensures Get(config, "value", JNull) != JNull ==>
      (r.Some? <==> ToFloat(Get(config, "value", JNull)).Returns?) &&
      (r.Some? ==> r.value == Scalar(ToFloat(Get(config, "value", JNull)).value))
    ensures r.Some? && r.value.Tiers? ==>
      Get(config, "value", JNull) == JNull && Get(config, "tiers", JNull).JList? &&
      FloatList(Get(config, "tiers", JNull).items) == Returns(r.value.xs) && r.value.xs != []
  {
    var value := Get(config, "value", JNull);
    var tiers := Get(config, "tiers", JNull);
    if value != JNull then
      match ToFloat(value)
      case Returns(x) => Some(Scalar(x))
      case Raises(_) => None
    else if tiers.JList? && tiers.items != [] then
      match FloatList(tiers.items)
      case Returns(xs) => Some(Tiers(xs))
      case Raises(_) => None
    else None
  }

  // ---------------------------------------------------------------------
  // The cleaned series

  /** `pd.to_numeric(s, errors='coerce').replace([inf, -inf], nan).dropna()`:
      the finite values of the series, in order. */
  function FiniteValues(xs: seq<Float>): (r: seq<real>)
    ensures forall x :: x in r <==> Finite(x) in xs
    ensures |r| <= |xs|
  {
    if xs == [] then []
    else
      var rest := FiniteValues(xs[1..]);
      assert forall y :: y in xs <==> y == xs[0] || y in xs[1..];
      if xs[0].Finite? then [xs[0].v] + rest else rest
  }

  /** The values a relative threshold is computed from. */
  function Cleaned(series: Column): seq<real> {
    FiniteValues(Normalize.NumericValues(series))
  }

  // ---------------------------------------------------------------------
  // `relative_percentile`

  /** `max(0.0, min(100.0, p))`. Python's `min(100.0, nan)` is `100.0`, so a
      NaN percentile reads as 100. */
  function ClampPercentile(p: Float): (r: real)
    ensures 0.0 <= r <= 100.0
    ensures p.Finite? && 0.0 <= p.v <= 100.0 ==> r == p.v
    ensures (p.Finite? && p.v > 100.0) || p.PosInf? || p.NaN? ==> r == 100.0
    ensures (p.Finite? && p.v < 0.0) || p.NegInf? ==> r == 0.0
  {
    var c := PyMax(Zero, PyMin(Finite(100.0), p));
    c.v
  }

  predicate Sorted(s: seq<real>) {
    forall i, j :: 0 <= i < j < |s| ==> s[i] <= s[j]
  }

  /** Inserting into a sorted sequence, after the values not greater than `x`. */
  function InsertReal(sorted: seq<real>, x: real): (r: seq<real>)
    ensures multiset(r) == multiset(sorted) + multiset{x}
    ensures |r| == |sorted| + 1
  {
    if sorted == [] || sorted[|sorted| - 1] <= x then sorted + [x]
    else
      var last := sorted[|sorted| - 1];
      assert sorted == sorted[..|sorted| - 1] + [last];
      InsertReal(sorted[..|sorted| - 1], x) + [last]
  }

  /** The values in ascending order. */
  function SortReals(xs: seq<real>): (r: seq<real>)
    ensures multiset(r) == multiset(xs) && |r| == |xs|
  {
    if xs == [] then []
    else
      assert xs == xs[..|xs| - 1] + [xs[|xs| - 1]];
      InsertReal(SortReals(xs[..|xs| - 1]), xs[|xs| - 1])
  }

  lemma {:induction false} InsertRealSorted(sorted: seq<real>, x: real)
    requires Sorted(sorted)
    ensures Sorted(InsertReal(sorted, x))
    ensures forall y :: y in InsertReal(sorted, x) ==> y in sorted || y == x
    decreases |sorted|
  {
    if sorted == [] || sorted[|sorted| - 1] <= x {
    } else {
      var init := sorted[..|sorted| - 1];
      var last := sorted[|sorted| - 1];
      InsertRealSorted(init, x);
      var r := InsertReal(init, x);
      assert InsertReal(sorted, x) == r + [last];
      forall y | y in r
        ensures y <= last && (y in sorted || y == x)
      {
        if y != x {
          var k :| 0 <= k < |init| && init[k] == y;
          assert sorted[k] == y;
        }
      }
      var out := r + [last];
      forall i, j | 0 <= i < j < |out|
        ensures out[i] <= out[j]
      {
        if j == |r| {
          assert out[i] == r[i] && r[i] in r;
        }
      }
    }
  }

  lemma {:induction false} SortRealsSorted(xs: seq<real>)
    ensures Sorted(SortReals(xs))
  {
    if xs != [] {
      SortRealsSorted(xs[..|xs| - 1]);
      InsertRealSorted(SortReals(xs[..|xs| - 1]), xs[|xs| - 1]);
    }
  }

  /** Sorting an already sorted sequence leaves it as it is. */
  lemma {:induction false} SortSorted(xs: seq<real>)
    requires Sorted(xs)
    ensures SortReals(xs) == xs
  {
    if xs != [] {
      SortSorted(xs[..|xs| - 1]);
      assert xs == xs[..|xs| - 1] + [xs[|xs| - 1]];
    }
  }

  /** Linear interpolation at the fractional index `h` of a sorted sequence,
      numpy's default `linear` method. */
  function Interpolate(s: seq<real>, h: real): (r: real)
    requires Sorted(s) && s != [] && 0.0 <= h <= (|s| - 1) as real
    ensures s[0] <= r <= s[|s| - 1]
  {
    var lo := h.Floor;
    var hi := UpperIndex(|s|, h);
    var t := h - lo as real;
    FractionBetween(s[lo], s[hi], t);
    Lerp(s[lo], s[hi], t)
  }

  /** The point a fraction `t` of the way from `a` to `b`. */
  function Lerp(a: real, b: real, t: real): real {
    a + t * (b - a)
  }

  lemma FractionBetween(a: real, b: real, t: real)
    requires a <= b && 0.0 <= t <= 1.0
    ensures a <= Lerp(a, b, t) <= b
  {
    ScaleMonotone(0.0, t, b - a);
    ScaleMonotone(t, 1.0, b - a);
    assert Lerp(a, b, t) == a + t * (b - a);
  }

  /** The fractional index `(n - 1) * p / 100` of the `p`-th percentile. */
  function Rank(n: nat, p: real): (h: real)
    requires n > 0 && 0.0 <= p <= 100.0
    ensures 0.0 <= h <= (n - 1) as real
  {
    var m := (n - 1) as real;
    assert m * p <= m * 100.0;
    m * p / 100.0
  }

  /** `np.percentile(values, p)`: the sorted values interpolated at the
      rank of `p`. It lies between the smallest and the largest value. */
  function Percentile(xs: seq<real>, p: real): (r: real)
    requires xs != [] && 0.0 <= p <= 100.0
    ensures exists i :: 0 <= i < |xs| && xs[i] <= r
    ensures exists j :: 0 <= j < |xs| && r <= xs[j]
  {
    var s := SortReals(xs);
    SortRealsSorted(xs);
    var r := Interpolate(s, Rank(|s|, p));
    assert s[0] in multiset(xs) && s[|s| - 1] in multiset(xs);
    r
  }

  // ---------------------------------------------------------------------
  // `relative_mean_factor`

  function Sum(xs: seq<real>): real {
    if xs == [] then 0.0 else xs[0] + Sum(xs[1..])
  }

  /** `Series.mean()`. */
  function Mean(xs: seq<real>): real
    requires xs != []
  {
    Sum(xs) / |xs| as real
  }

  /** `Series.abs()`. */
  function AbsAll(xs: seq<real>): (r: seq<real>)
    ensures |r| == |xs|
    ensures forall i :: 0 <= i < |xs| ==> r[i] == Normalize.AbsReal(xs[i])
  {
    seq(|xs|, i requires 0 <= i < |xs| => Normalize.AbsReal(xs[i]))
  }

  /** The series the mean is taken of: absolute values in the `above_abs` mode. */
  function MeanSeries(values: seq<real>, mode: string): (r: seq<real>)
    ensures |r| == |values|
  {
    if mode == "above_abs" then AbsAll(values) else values
  }

  // ---------------------------------------------------------------------
  // The dispatch

  /** The two relative kinds, given a non-empty cleaned series; any other
      `relative_` kind gives nothing. */
  function RelativeThreshold(kind: string, config: map<string, Json>, values: seq<real>, mode: string): (r: Option<Threshold>)
    requires values != []
    ensures kind != "relative_percentile" && kind != "relative_mean_factor" ==> r.None?
    ensures r.Some? ==> r.value.Scalar?
    ensures kind == "relative_percentile" && r.Some? ==>
      r.value.x.Finite? && (exists i :: 0 <= i < |values| && values[i] <= r.value.x.v) &&
      (exists j :: 0 <= j < |values| && r.value.x.v <= values[j])
  {
    if kind == "relative_percentile" then
      match ToFloat(Get(config, "percentile", Real(50.0)))
      case Returns(p) => Some(Scalar(Finite(Percentile(values, ClampPercentile(p)))))
      case Raises(_) => None
    else if kind == "relative_mean_factor" then
      match ToFloat(Get(config, "factor", Real(1.0)))
      case Returns(f) => Some(Scalar(Mul(f, Finite(Mean(MeanSeries(values, mode))))))
      case Raises(_) => None
    else None
  }

  /** The value computed before the final check. `str()` of a number other
      than an integer or of a container never names a kind, so it is
      unsupported like any other unknown kind. */
  function Computed(config: map<string, Json>, data: Option<Column>, mode: string): (r: Option<Threshold>)
    ensures StrOf(Get(config, "type", Str("fixed"))) == Some("fixed") ==> r == FixedThreshold(config)
    ensures r.Some? ==> StrOf(Get(config, "type", Str("fixed"))).Some?
    ensures r.Some? && StrOf(Get(config, "type", Str("fixed"))) != Some("fixed") ==>
      "relative_" <= StrOf(Get(config, "type", Str("fixed"))).value && data.Some? && Cleaned(data.value) != [] &&
      r.value.Scalar?
  {
    match StrOf(Get(config, "type", Str("fixed")))
    case None => None
    case Some(kind) =>
      if kind == "fixed" then FixedThreshold(config)
      else if "relative_" <= kind then
        if data.None? || |data.value.cells| == 0 then None
        else
          var values := Cleaned(data.value);
          if values == [] then None else RelativeThreshold(kind, config, values, mode)
      else None
  }

  /** `_calculate_dynamic_threshold`: the computed value when every number in
      it is finite, otherwise nothing. */
  function CalculateDynamicThreshold(config: map<string, Json>, data: Option<Column>, mode: string): (r: Option<Threshold>)
    ensures r.Some? <==> Computed(config, data, mode).Some? && IsValid(Computed(config, data, mode).value)
    ensures r.Some? ==> r == Computed(config, data, mode)
  {
    var c := Computed(config, data, mode);
    if c.Some? && IsValid(c.value) then c else None
  }

  // ---------------------------------------------------------------------
  // The wrapper

  const ThresholdsPath: seq<string> := ["strategy_settings", "thresholds"]

  /** The `fallback_value` substitution: `None` gives nothing, a list becomes
      a list of floats, anything else one float; a conversion error gives
      nothing. The converted values are not checked for finiteness. */
  function FallbackThreshold(fallback: Json): (r: Option<Threshold>)
    ensures fallback.JNull? || fallback.JObj? ==> r.None?
    ensures fallback.JInt? ==> r == Some(Scalar(Finite(fallback.i as real)))
    ensures fallback.JNum? ==> r == Some(Scalar(fallback.f))
    ensures fallback.JList? ==> (r.Some? <==> FloatList(fallback.items).Returns?)
    ensures fallback.JList? && r.Some? ==> r == Some(Tiers(FloatList(fallback.items).value))
  {
    if fallback.JNull? then None
    else if fallback.JList? then
      match FloatList(fallback.items)
      case Returns(xs) => Some(Tiers(xs))
      case Raises(_) => None
    else
      match ToFloat(fallback)
      case Returns(x) => Some(Scalar(x))
      case Raises(_) => None
  }

  /** `_calculate_dynamic_threshold_wrapper`: the section at
      `strategy_settings.thresholds + suffix` must be a non-empty dict; the
      calculated threshold, or else the section's fallback. */
  function DynamicThreshold(config: Json, suffix: seq<string>, data: Option<Column>, mode: string): (r: Option<Threshold>)
    ensures !IsNonEmptyObj(Config.GetConfigValue(config, ThresholdsPath + suffix, JObj(map[]))) ==> r.None?
  {
    var section := Config.GetConfigValue(config, ThresholdsPath + suffix, JObj(map[]));
    if !IsNonEmptyObj(section) then None
    else
      match CalculateDynamicThreshold(section.fields, data, mode)
      case Some(t) => Some(t)
      case None => FallbackThreshold(Get(section.fields, "fallback_value", JNull))
  }

  // ---------------------------------------------------------------------
  // Properties of `fixed`

  /** A set `value` wins over `tiers`: a finite one is the threshold, one
      that does not convert or is not finite gives nothing. */
  lemma FixedValueWins(config: map<string, Json>, data: Option<Column>, mode: string)
    requires Get(config, "type", Str("fixed")) == Str("fixed")
    requires "value" in config && config["value"] != JNull
    ensures ToFloat(config["value"]).Returns? && ToFloat(config["value"]).value.Finite? ==>
      CalculateDynamicThreshold(config, data, mode) == Some(Scalar(ToFloat(config["value"]).value))
    ensures !(ToFloat(config["value"]).Returns? && ToFloat(config["value"]).value.Finite?) ==>
      CalculateDynamicThreshold(config, data, mode).None?
  {
  }

  /** Without a value, a non-empty tier list of finite numbers is the
      threshold; a tier that does not convert or is not finite spoils it. */
  lemma FixedTiers(config: map<string, Json>, data: Option<Column>, mode: string)
    requires Get(config, "type", Str("fixed")) == Str("fixed")
    requires Get(config, "value", JNull) == JNull
    requires "tiers" in config && config["tiers"].JList? && config["tiers"].items != []
    ensures var items := config["tiers"].items;
      CalculateDynamicThreshold(config, data, mode).Some? <==>
        forall i :: 0 <= i < |items| ==> ToFloat(items[i]).Returns? && ToFloat(items[i]).value.Finite?
    ensures CalculateDynamicThreshold(config, data, mode).Some? ==>
      CalculateDynamicThreshold(config, data, mode) == Some(Tiers(FloatList(config["tiers"].items).value))
  {
    var items := config["tiers"].items;
    var fl := FloatList(items);
    if fl.Returns? {
      assert AllFinite(fl.value) <==> forall i :: 0 <= i < |items| ==> ToFloat(items[i]).value.Finite? by {
        assert forall i :: 0 <= i < |items| ==> ToFloat(items[i]).value == fl.value[i];
      }
    } else {
      var i :| 0 <= i < |items| && !ToFloat(items[i]).Returns?;
    }
  }

  /** A `fixed` configuration with neither a value nor non-empty tiers gives nothing. */
  lemma FixedNeedsValueOrTiers(config: map<string, Json>, data: Option<Column>, mode: string)
    requires Get(config, "type", Str("fixed")) == Str("fixed")
    requires Get(config, "value", JNull) == JNull
    requires !(Get(config, "tiers", JNull).JList? && Get(config, "tiers", JNull).items != [])
    ensures CalculateDynamicThreshold(config, data, mode) == None
  {
  }

  // ---------------------------------------------------------------------
  // Properties of the relative kinds

  /** A relative kind with no series, an empty one, or one without a finite
      value gives nothing, whatever else is configured. */
  lemma RelativeNeedsData(config: map<string, Json>, data: Option<Column>, mode: string)
    requires StrOf(Get(config, "type", Str("fixed"))).Some?
    requires "relative_" <= StrOf(Get(config, "type", Str("fixed"))).value
    requires data.None? || Cleaned(data.value) == []
    ensures CalculateDynamicThreshold(config, data, mode) == None
  {
  }

  /** Kinds other than `fixed`, `relative_percentile` and `relative_mean_factor` give nothing. */
  lemma UnknownKind(config: map<string, Json>, data: Option<Column>, mode: string)
    requires StrOf(Get(config, "type", Str("fixed"))) !in
      {Some("fixed"), Some("relative_percentile"), Some("relative_mean_factor")}
    ensures CalculateDynamicThreshold(config, data, mode) == None
  {
    var kind := StrOf(Get(config, "type", Str("fixed")));
    if kind.Some? && "relative_" <= kind.value && data.Some? && |data.value.cells| > 0 {
      var values := Cleaned(data.value);
      if values != [] {
        assert RelativeThreshold(kind.value, config, values, mode) == None;
      }
    }
  }

  /** `relative_percentile` is the percentile, at the clamped configured
      rank, of the finite values. */
  lemma PercentileThreshold(config: map<string, Json>, series: Column, mode: string, p: Float)
    requires Get(config, "type", Str("fixed")) == Str("relative_percentile")
    requires ToFloat(Get(config, "percentile", Real(50.0))) == Returns(p)
    requires Cleaned(series) != []
    ensures CalculateDynamicThreshold(config, Some(series), mode) ==
      Some(Scalar(Finite(Percentile(Cleaned(series), ClampPercentile(p)))))
  {
    var values := Cleaned(series);
    ComputedRelative(config, "relative_percentile", series, mode);
    PercentileValue(config, values, mode, p);
    assert IsValid(Scalar(Finite(Percentile(values, ClampPercentile(p)))));
  }

  lemma PercentileValue(config: map<string, Json>, values: seq<real>, mode: string, p: Float)
    requires values != []
    requires ToFloat(Get(config, "percentile", Real(50.0))) == Returns(p)
    ensures RelativeThreshold("relative_percentile", config, values, mode) ==
      Some(Scalar(Finite(Percentile(values, ClampPercentile(p)))))
  {
  }

  /** A relative kind over a series with a finite value is decided by that kind alone. */
  lemma ComputedRelative(config: map<string, Json>, kind: string, series: Column, mode: string)
    requires Get(config, "type", Str("fixed")) == Str(kind)
    requires kind != "fixed" && "relative_" <= kind
    requires Cleaned(series) != []
    ensures Computed(config, Some(series), mode) == RelativeThreshold(kind, config, Cleaned(series), mode)
  {
    assert |series.cells| > 0 by {
      assert |Normalize.NumericValues(series)| == |series.cells|;
    }
  }

  /** `relative_mean_factor` is the factor times the mean of the finite
      values (of their absolute values in the `above_abs` mode) when that
      product is finite, and nothing otherwise. */
  lemma MeanFactorThreshold(config: map<string, Json>, series: Column, mode: string, factor: Float)
    requires Get(config, "type", Str("fixed")) == Str("relative_mean_factor")
    requires ToFloat(Get(config, "factor", Real(1.0))) == Returns(factor)
    requires Cleaned(series) != []
    ensures var t := Mul(factor, Finite(Mean(MeanSeries(Cleaned(series), mode))));
      CalculateDynamicThreshold(config, Some(series), mode) == if t.Finite? then Some(Scalar(t)) else None
  {
    ComputedRelative(config, "relative_mean_factor", series, mode);
    MeanFactorValue(config, Cleaned(series), mode, factor);
  }

  lemma MeanFactorValue(config: map<string, Json>, values: seq<real>, mode: string, factor: Float)
    requires values != []
    requires ToFloat(Get(config, "factor", Real(1.0))) == Returns(factor)
    ensures RelativeThreshold("relative_mean_factor", config, values, mode) ==
      Some(Scalar(Mul(factor, Finite(Mean(MeanSeries(values, mode))))))
  {
  }

  /** Every threshold the calculation produces is finite. */
  lemma CalculatedIsFinite(config: map<string, Json>, data: Option<Column>, mode: string)
    requires CalculateDynamicThreshold(config, data, mode).Some?
    ensures IsValid(CalculateDynamicThreshold(config, data, mode).value)
  {
  }

  lemma RankEnds(n: nat)
    requires n > 0
    ensures Rank(n, 0.0) == 0.0 && Rank(n, 100.0) == (n - 1) as real
  {
  }

  lemma RankMonotone(n: nat, p1: real, p2: real)
    requires n > 0 && 0.0 <= p1 <= p2 <= 100.0
    ensures Rank(n, p1) <= Rank(n, p2)
  {
    var m := (n - 1) as real;
    assert m * p1 <= m * p2;
  }

  lemma InterpolateEnds(s: seq<real>)
    requires Sorted(s) && s != []
    ensures Interpolate(s, 0.0) == s[0]
    ensures Interpolate(s, (|s| - 1) as real) == s[|s| - 1]
  {
    assert (0.0).Floor == 0;
    assert ((|s| - 1) as real).Floor == |s| - 1;
  }

  /** At 0 the percentile is the smallest value and at 100 the largest. */
  lemma PercentileEnds(xs: seq<real>)
    requires xs != []
    ensures Percentile(xs, 0.0) in xs && forall i :: 0 <= i < |xs| ==> Percentile(xs, 0.0) <= xs[i]
    ensures Percentile(xs, 100.0) in xs && forall i :: 0 <= i < |xs| ==> xs[i] <= Percentile(xs, 100.0)
  {
    var s := SortReals(xs);
    var n := |s|;
    SortRealsSorted(xs);
    RankEnds(n);
    InterpolateEnds(s);
    assert Percentile(xs, 0.0) == s[0];
    assert Percentile(xs, 100.0) == s[n - 1];
    assert s[0] in multiset(xs) && s[n - 1] in multiset(xs);
    forall i | 0 <= i < |xs|
      ensures s[0] <= xs[i] <= s[n - 1]
    {
      assert xs[i] in multiset(s);
      var k :| 0 <= k < n && s[k] == xs[i];
    }
  }

  lemma ScaleMonotone(t1: real, t2: real, d: real)
    requires t1 <= t2 && d >= 0.0
    ensures t1 * d <= t2 * d
  {
    assert (t2 - t1) * d >= 0.0;
  }

  /** The index above `h` that numpy interpolates towards. */
  function UpperIndex(n: nat, h: real): (hi: int)
    requires 0.0 <= h <= (n - 1) as real
    ensures h.Floor <= hi < n
  {
    if h.Floor + 1 < n then h.Floor + 1 else n - 1
  }

  /** The interpolated value lies between the two values it interpolates. */
  lemma InterpolateBetween(s: seq<real>, h: real)
    requires Sorted(s) && s != [] && 0.0 <= h <= (|s| - 1) as real
    ensures s[h.Floor] <= Interpolate(s, h) <= s[UpperIndex(|s|, h)]
    ensures Interpolate(s, h) == Lerp(s[h.Floor], s[UpperIndex(|s|, h)], h - h.Floor as real)
  {
    FractionBetween(s[h.Floor], s[UpperIndex(|s|, h)], h - h.Floor as real);
  }

  lemma InterpolateMonotone(s: seq<real>, h1: real, h2: real)
    requires Sorted(s) && s != [] && 0.0 <= h1 <= h2 <= (|s| - 1) as real
    ensures Interpolate(s, h1) <= Interpolate(s, h2)
  {
    var lo1, lo2 := h1.Floor, h2.Floor;
    var hi1, hi2 := UpperIndex(|s|, h1), UpperIndex(|s|, h2);
    InterpolateBetween(s, h1);
    InterpolateBetween(s, h2);
    assert lo1 as real <= h1 <= h2 < lo2 as real + 1.0;
    if lo1 == lo2 {
      var d := s[hi1] - s[lo1];
      var t1, t2 := h1 - lo1 as real, h2 - lo1 as real;
      assert hi1 == hi2 && d >= 0.0;
      calc {
        Interpolate(s, h1);
      ==
        Lerp(s[lo1], s[hi1], t1);
      ==
        s[lo1] + t1 * d;
      <= { ScaleMonotone(t1, t2, d); }
        s[lo1] + t2 * d;
      ==
        Lerp(s[lo1], s[hi2], t2);
      ==
        Interpolate(s, h2);
      }
    } else {
      assert hi1 <= lo2;
      assert s[hi1] <= s[lo2];
    }
  }

  /** A higher rank never gives a lower percentile. */
  lemma PercentileMonotone(xs: seq<real>, p1: real, p2: real)
    requires xs != [] && 0.0 <= p1 <= p2 <= 100.0
    ensures Percentile(xs, p1) <= Percentile(xs, p2)
  {
    var s := SortReals(xs);
    SortRealsSorted(xs);
    RankMonotone(|s|, p1, p2);
    InterpolateMonotone(s, Rank(|s|, p1), Rank(|s|, p2));
  }

  /** The median of 1, 2, 3, 4, 5 is 3. */
  lemma MedianExample()
    ensures Percentile([1.0, 2.0, 3.0, 4.0, 5.0], 50.0) == 3.0
  {
    var xs := [1.0, 2.0, 3.0, 4.0, 5.0];
    OneToFiveSorted();
    assert Rank(|xs|, 50.0) == 2 as real + 0.0;
    PercentileAt(xs, 50.0, 2, 0.0);
  }

  lemma OneToFiveSorted()
    ensures Sorted([1.0, 2.0, 3.0, 4.0, 5.0])
  {
    var xs := [1.0, 2.0, 3.0, 4.0, 5.0];
    forall i, j | 0 <= i < j < |xs|
      ensures xs[i] <= xs[j]
    {
      assert xs[i] == (i + 1) as real && xs[j] == (j + 1) as real;
    }
  }

  /** A percentile of sorted values whose rank has whole part `lo` and
      fraction `t`. */
  lemma PercentileAt(xs: seq<real>, p: real, lo: int, t: real)
    requires Sorted(xs) && xs != [] && 0.0 <= p <= 100.0
    requires 0 <= lo < |xs| && 0.0 <= t < 1.0 && Rank(|xs|, p) == lo as real + t
    ensures Percentile(xs, p) == Lerp(xs[lo], xs[if lo + 1 < |xs| then lo + 1 else |xs| - 1], t)
  {
    var h := Rank(|xs|, p);
    SortSorted(xs);
    assert Percentile(xs, p) == Interpolate(xs, h);
    FloorOf(lo, t);
    assert h.Floor == lo && h - lo as real == t;
    var hi := UpperIndex(|xs|, h);
    assert hi == if lo + 1 < |xs| then lo + 1 else |xs| - 1;
    InterpolateBetween(xs, h);
  }

  lemma FloorOf(lo: int, t: real)
    requires 0.0 <= t < 1.0
    ensures (lo as real + t).Floor == lo
  {
  }

  lemma {:induction false} SumBounds(xs: seq<real>, lo: real, hi: real)
    requires forall i :: 0 <= i < |xs| ==> lo <= xs[i] <= hi
    ensures |xs| as real * lo <= Sum(xs) <= |xs| as real * hi
  {
    if xs != [] {
      SumBounds(xs[1..], lo, hi);
    }
  }

  lemma QuotientWithin(total: real, n: real, lo: real, hi: real)
    requires n > 0.0 && n * lo <= total <= n * hi
    ensures lo <= total / n <= hi
  {
    var q := total / n;
    assert q * n == total;
    if q < lo {
      ScaleMonotone(q, lo, n);
    }
    if q > hi {
      ScaleMonotone(hi, q, n);
    }
  }

  /** The mean lies within any bounds of the values. */
  lemma MeanWithin(xs: seq<real>, lo: real, hi: real)
    requires xs != [] && forall i :: 0 <= i < |xs| ==> lo <= xs[i] <= hi
    ensures lo <= Mean(xs) <= hi
  {
    SumBounds(xs, lo, hi);
    assert |xs| as real * lo == lo * |xs| as real;
    QuotientWithin(Sum(xs), |xs| as real, lo, hi);
  }

  /** In the `above_abs` mode a non-negative factor gives a non-negative threshold. */
  lemma AboveAbsNonNegative(values: seq<real>, f: real)
    requires values != [] && f >= 0.0
    ensures f * Mean(MeanSeries(values, "above_abs")) >= 0.0
  {
    var a := MeanSeries(values, "above_abs");
    MeanWithin(a, 0.0, MaxOf(a));
  }

  function MaxOf(xs: seq<real>): (m: real)
    ensures forall i :: 0 <= i < |xs| ==> xs[i] <= m
  {
    if xs == [] then 0.0
    else
      var m := MaxOf(xs[1..]);
      if xs[0] > m then xs[0] else m
  }

  /** The median example through the whole calculation: a
      `relative_percentile` of 50 over a series whose finite values are 1 to
      5 is 3. */
  lemma RelativePercentileExample(config: map<string, Json>, series: Column, mode: string)
    requires Get(config, "type", Str("fixed")) == Str("relative_percentile")
    requires Get(config, "percentile", Real(50.0)) == Int(50)
    requires Cleaned(series) == [1.0, 2.0, 3.0, 4.0, 5.0]
    ensures CalculateDynamicThreshold(config, Some(series), mode) == Some(Scalar(Finite(3.0)))
  {
    MedianExample();
    PercentileThreshold(config, series, mode, Finite(50.0));
  }

  /** A column holding 1 to 5 is such a series. */
  lemma OneToFive()
    ensures Cleaned(Normalize.RealsColumn([1.0, 2.0, 3.0, 4.0, 5.0])) == [1.0, 2.0, 3.0, 4.0, 5.0]
  {
    CleanedReals([1.0, 2.0, 3.0, 4.0, 5.0]);
  }

  lemma {:induction false} FiniteValuesOfReals(xs: seq<real>)
    ensures FiniteValues(seq(|xs|, i requires 0 <= i < |xs| => Finite(xs[i]))) == xs
  {
    if xs != [] {
      var fs := seq(|xs|, i requires 0 <= i < |xs| => Finite(xs[i]));
      FiniteValuesOfReals(xs[1..]);
      assert fs[1..] == seq(|xs[1..]|, i requires 0 <= i < |xs[1..]| => Finite(xs[1..][i]));
      assert xs == [xs[0]] + xs[1..];
    }
  }

  /** A column of reals cleans to those reals. */
  lemma CleanedReals(xs: seq<real>)
    ensures Cleaned(Normalize.RealsColumn(xs)) == xs
  {
    var fs := Normalize.NumericValues(Normalize.RealsColumn(xs));
    assert fs == seq(|xs|, i requires 0 <= i < |xs| => Finite(xs[i]));
    FiniteValuesOfReals(xs);
  }

  // ---------------------------------------------------------------------
  // Properties of the wrapper

  /** A successful calculation is the wrapper's answer; when it fails the
      section's `fallback_value` is converted instead. */
  lemma WrapperChoice(config: Json, suffix: seq<string>, data: Option<Column>, mode: string)
    requires IsNonEmptyObj(Config.GetConfigValue(config, ThresholdsPath + suffix, JObj(map[])))
    ensures var section := Config.GetConfigValue(config, ThresholdsPath + suffix, JObj(map[])).fields;
      DynamicThreshold(config, suffix, data, mode) ==
        if CalculateDynamicThreshold(section, data, mode).Some? then CalculateDynamicThreshold(section, data, mode)
        else FallbackThreshold(Get(section, "fallback_value", JNull))
  {
  }

  /** The fallback is not checked: when the calculation fails, a configured
      number comes back as the threshold even when it is NaN or infinite. */
  lemma FallbackNotChecked(config: Json, suffix: seq<string>, data: Option<Column>, mode: string, x: Float)
    requires IsNonEmptyObj(Config.GetConfigValue(config, ThresholdsPath + suffix, JObj(map[])))
    requires var section := Config.GetConfigValue(config, ThresholdsPath + suffix, JObj(map[])).fields;
      CalculateDynamicThreshold(section, data, mode).None? && Get(section, "fallback_value", JNull) == JNum(x)
    ensures DynamicThreshold(config, suffix, data, mode) == Some(Scalar(x))
  {
  }

  /** The wrapper once its section is known. */
  lemma WrapperSteps(config: Json, suffix: seq<string>, data: Option<Column>, mode: string, section: map<string, Json>)
    requires Config.GetConfigValue(config, ThresholdsPath + suffix, JObj(map[])) == Obj(section)
    requires section != map[]
    ensures DynamicThreshold(config, suffix, data, mode) ==
      match CalculateDynamicThreshold(section, data, mode)
      case Some(t) => Some(t)
      case None => FallbackThreshold(Get(section, "fallback_value", JNull))
  {
  }

  // ---------------------------------------------------------------------
  // The built-in thresholds

  /** The built-in section of a named threshold. */
  lemma DefaultSection(name: string)
    requires name in DefaultConfig.Thresholds
    ensures Config.GetConfigValue(DefaultConfig.Tree, ThresholdsPath + [name], JObj(map[])) == DefaultConfig.Thresholds[name]
  {
    DefaultFacts.ThresholdsSection();
    ThresholdsNotNull(name);
    Config.ChildValue(DefaultConfig.Tree, ThresholdsPath, DefaultConfig.Thresholds, name, JObj(map[]));
  }

  lemma ThresholdsNotNull(name: string)
    requires name in DefaultConfig.Thresholds
    ensures DefaultConfig.Thresholds[name] != JNull
  {
  }

  /** `ssi_structure_change` without data falls back to 0.3. */
  lemma DefaultSsiStructureChange(mode: string)
    ensures DynamicThreshold(DefaultConfig.Tree, ["ssi_structure_change"], None, mode) == Some(Scalar(Finite(0.3)))
  {
    SsiStructureChangeNoData(mode);
    DefaultFacts.SsiStructureChangeEntry();
    DefaultThreshold("ssi_structure_change", None, mode, Some(Scalar(Finite(0.3))));
  }

  lemma SsiStructureChangeNoData(mode: string)
    ensures "ssi_structure_change" in DefaultConfig.Thresholds
    ensures var section := DefaultConfig.Thresholds["ssi_structure_change"].fields;
      CalculateDynamicThreshold(section, None, mode) == None &&
      FallbackThreshold(Get(section, "fallback_value", JNull)) == Some(Scalar(Finite(0.3)))
  {
    DefaultFacts.SsiStructureChangeEntry();
    var section := DefaultConfig.Thresholds["ssi_structure_change"].fields;
    assert "type" in section;
    RelativeNeedsData(section, None, mode);
    assert Get(section, "fallback_value", JNull) == Real(0.3);
  }

  /** A built-in section's answer, read through the wrapper. */
  lemma DefaultThreshold(name: string, data: Option<Column>, mode: string, t: Option<Threshold>)
    requires name in DefaultConfig.Thresholds && IsNonEmptyObj(DefaultConfig.Thresholds[name])
    requires var section := DefaultConfig.Thresholds[name].fields;
      (match CalculateDynamicThreshold(section, data, mode)
       case Some(x) => Some(x)
       case None => FallbackThreshold(Get(section, "fallback_value", JNull))) == t
    ensures DynamicThreshold(DefaultConfig.Tree, [name], data, mode) == t
  {
    DefaultSection(name);
    WrapperSteps(DefaultConfig.Tree, [name], data, mode, DefaultConfig.Thresholds[name].fields);
  }

  /** `ssi_structure_change` over the series 1 to 5 is its 15th percentile, 1.6. */
  lemma DefaultSsiStructureChangeOnData(series: Column, mode: string)
    requires Cleaned(series) == [1.0, 2.0, 3.0, 4.0, 5.0]
    ensures DynamicThreshold(DefaultConfig.Tree, ["ssi_structure_change"], Some(series), mode) == Some(Scalar(Finite(1.6)))
  {
    SsiStructureChangeOnData(series, mode);
    DefaultFacts.SsiStructureChangeEntry();
    DefaultThreshold("ssi_structure_change", Some(series), mode, Some(Scalar(Finite(1.6))));
  }

  lemma SsiStructureChangeOnData(series: Column, mode: string)
    requires Cleaned(series) == [1.0, 2.0, 3.0, 4.0, 5.0]
    ensures "ssi_structure_change" in DefaultConfig.Thresholds
    ensures CalculateDynamicThreshold(DefaultConfig.Thresholds["ssi_structure_change"].fields, Some(series), mode) ==
      Some(Scalar(Finite(1.6)))
  {
    DefaultFacts.SsiStructureChangeEntry();
    var section := DefaultConfig.Thresholds["ssi_structure_change"].fields;
    assert "type" in section;
    PercentileThreshold(section, series, mode, Finite(15.0));
    Percentile15();
  }

  /** The 15th percentile of 1 to 5 is 1.6. */
  lemma Percentile15()
    ensures Percentile([1.0, 2.0, 3.0, 4.0, 5.0], 15.0) == 1.6
  {
    var xs := [1.0, 2.0, 3.0, 4.0, 5.0];
    OneToFiveSorted();
    assert Rank(|xs|, 15.0) == 0 as real + 0.6;
    PercentileAt(xs, 15.0, 0, 0.6);
    assert Lerp(xs[0], xs[1], 0.6) == 1.6;
  }

  /** `cfi_flow_divergence` is the tier list 0.75, 1.25 whatever the data. */
  lemma DefaultCfiFlowDivergence(data: Option<Column>, mode: string)
    ensures DynamicThreshold(DefaultConfig.Tree, ["cfi_flow_divergence"], data, mode) ==
      Some(Tiers([Finite(0.75), Finite(1.25)]))
  {
    CfiFlowDivergence(data, mode);
    DefaultFacts.CfiFlowDivergenceEntry();
    DefaultThreshold("cfi_flow_divergence", data, mode, Some(Tiers([Finite(0.75), Finite(1.25)])));
  }

  lemma CfiFlowDivergence(data: Option<Column>, mode: string)
    ensures "cfi_flow_divergence" in DefaultConfig.Thresholds
    ensures CalculateDynamicThreshold(DefaultConfig.Thresholds["cfi_flow_divergence"].fields, data, mode) ==
      Some(Tiers([Finite(0.75), Finite(1.25)]))
  {
    DefaultFacts.CfiFlowDivergenceEntry();
    var section := DefaultConfig.Thresholds["cfi_flow_divergence"].fields;
    assert "type" in section;
    FixedTiers(section, data, mode);
    assert section["tiers"].items == [Real(0.75), Real(1.25)];
    DefaultTierList();
  }

  lemma DefaultTierList()
    ensures FloatList([Real(0.75), Real(1.25)]) == Returns([Finite(0.75), Finite(1.25)])
  {
    var items := [Real(0.75), Real(1.25)];
    assert items[1..] == [Real(1.25)];
    assert items[1..][1..] == [];
    assert FloatList([Real(1.25)]) == Returns([Finite(1.25)]) by {
      assert [Real(1.25)][1..] == [];
      assert FloatList([]) == Returns([]);
      assert [Finite(1.25)] + [] == [Finite(1.25)];
    }
    assert [Finite(0.75)] + [Finite(1.25)] == [Finite(0.75), Finite(1.25)];
  }

  /** `sai_high_conviction` is 0.7 whatever the data. */
  lemma DefaultSaiHighConviction(data: Option<Column>, mode: string)
    ensures DynamicThreshold(DefaultConfig.Tree, ["sai_high_conviction"], data, mode) == Some(Scalar(Finite(0.7)))
  {
    SaiHighConviction(data, mode);
    DefaultFacts.SaiHighConvictionEntry();
    DefaultThreshold("sai_high_conviction", data, mode, Some(Scalar(Finite(0.7))));
  }

  lemma SaiHighConviction(data: Option<Column>, mode: string)
    ensures "sai_high_conviction" in DefaultConfig.Thresholds
    ensures CalculateDynamicThreshold(DefaultConfig.Thresholds["sai_high_conviction"].fields, data, mode) ==
      Some(Scalar(Finite(0.7)))
  {
    DefaultFacts.SaiHighConvictionEntry();
    var section := DefaultConfig.Thresholds["sai_high_conviction"].fields;
    assert "type" in section;
    FixedValueWins(section, data, mode);
  }

  /** `vol_expansion_vri_trigger` over the series 1 to 5 is 1.5 times the
      mean, 4.5, in any mode but `above_abs`. */
  lemma DefaultVolExpansionOnData(series: Column, mode: string)
    requires Cleaned(series) == [1.0, 2.0, 3.0, 4.0, 5.0] && mode != "above_abs"
    ensures DynamicThreshold(DefaultConfig.Tree, ["vol_expansion_vri_trigger"], Some(series), mode) ==
      Some(Scalar(Finite(4.5)))
  {
    VolExpansionOnData(series, mode);
    DefaultFacts.VolExpansionVriEntry();
    DefaultThreshold("vol_expansion_vri_trigger", Some(series), mode, Some(Scalar(Finite(4.5))));
  }

  lemma VolExpansionOnData(series: Column, mode: string)
    requires Cleaned(series) == [1.0, 2.0, 3.0, 4.0, 5.0] && mode != "above_abs"
    ensures "vol_expansion_vri_trigger" in DefaultConfig.Thresholds
    ensures CalculateDynamicThreshold(DefaultConfig.Thresholds["vol_expansion_vri_trigger"].fields, Some(series), mode) ==
      Some(Scalar(Finite(4.5)))
  {
    DefaultFacts.VolExpansionVriEntry();
    var section := DefaultConfig.Thresholds["vol_expansion_vri_trigger"].fields;
    assert "type" in section;
    MeanFactorThreshold(section, series, mode, Finite(1.5));
    MeanOneToFive();
    assert Mul(Finite(1.5), Finite(3.0)) == Finite(4.5);
  }

  lemma MeanOneToFive()
    ensures Mean([1.0, 2.0, 3.0, 4.0, 5.0]) == 3.0
  {
    var xs := [1.0, 2.0, 3.0, 4.0, 5.0];
    assert Sum(xs[4..]) == 5.0;
    assert Sum(xs[3..]) == 9.0;
    assert Sum(xs[2..]) == 12.0;
    assert Sum(xs[1..]) == 14.0;
    assert Sum(xs) == 15.0;
  }

  /** A name with no built-in section gives nothing. */
  lemma DefaultUnknownName(name: string, data: Option<Column>, mode: string)
    requires name !in DefaultConfig.Thresholds
    ensures DynamicThreshold(DefaultConfig.Tree, [name], data, mode) == None
  {
    DefaultFacts.ThresholdsSection();
    Config.LookupAppend(DefaultConfig.Tree, ThresholdsPath, [name]);
    assert Config.Lookup(Obj(DefaultConfig.Thresholds), [name]) == None;
  }
}
