/** `_get_atr` (elite_options_system/core/strategies.py:525-612): the average
    true range of a symbol from its daily history, as an exponential moving
    average of true ranges, or a percentage of the current price, floored at
    a configured minimum. */
module Atr {
  import opened Outcomes
  import opened Floats
  import opened Json
  import opened Frames
  import Schema
  import Config
  import DefaultConfig
  import DefaultFacts
  import Normalize

  /** `atr_period`: both the minimum history length and the EMA span. */
  const AtrPeriod: nat := 14

  /** The smoothing factor of `ewm(span=14)`: 2 / (span + 1). */
  const Alpha: real := 2.0 / 15.0

  const AtrColumns: seq<string> := ["high", "low", "close", "date"]

  const FallbackPath: seq<string> := ["data_processor_settings", "approximations", "tdpi_atr_fallback"]

  // ---------------------------------------------------------------------
  // Bars

  /** One row of the history that survived `dropna`. */
  datatype Bar = Bar(date: int, high: Float, low: Float, close: Float)

  /** The cell of column `name` in row `i`, missing when there is none. */
  function CellAt(f: Frame, name: string, i: nat): (c: Cell)
    ensures name in f.cols && i < |f.cols[name].cells| ==> c == f.cols[name].cells[i]
  {
    if name in f.cols && i < |f.cols[name].cells| then f.cols[name].cells[i] else Null
  }

  /** Row `i` as a bar, unless one of the four columns is missing there. */
  function RowBar(f: Frame, i: nat): (b: Option<Bar>)
    ensures b.Some? <==> CellAt(f, "date", i).Stamp? && !IsMissing(CellAt(f, "high", i)) &&
                         !IsMissing(CellAt(f, "low", i)) && !IsMissing(CellAt(f, "close", i))
  {
    var d := CellAt(f, "date", i);
    var h := CellAt(f, "high", i);
    var l := CellAt(f, "low", i);
    var c := CellAt(f, "close", i);
    if d.Stamp? && !IsMissing(h) && !IsMissing(l) && !IsMissing(c) then
      Some(Bar(d.t, CellFloat(h), CellFloat(l), CellFloat(c)))
    else None
  }

  /** `dropna(subset=[high, low, close, date])` over the first `n` rows, in row order. */
  function DropMissing(f: Frame, n: nat): (bars: seq<Bar>)
    ensures |bars| <= n
    ensures forall b :: b in bars ==> exists i :: 0 <= i < n && RowBar(f, i) == Some(b)
  {
    if n == 0 then []
    else
      var prefix := DropMissing(f, n - 1);
      match RowBar(f, n - 1)
      case Some(b) => prefix + [b]
      case None => prefix
  }

  /** Every row whose four cells are present is kept. */
  lemma {:induction false} DropMissingKeeps(f: Frame, n: nat, i: nat)
    requires i < n && RowBar(f, i).Some?
    ensures RowBar(f, i).value in DropMissing(f, n)
  {
    if i < n - 1 {
      DropMissingKeeps(f, n - 1, i);
    }
  }

  /** `pd.to_datetime(df['date'], errors='coerce')` on the frame. */
  function WithDates(f: Frame): (r: Frame)
    ensures r.height == f.height && r.cols.Keys == f.cols.Keys
    ensures forall c :: c in f.cols && c != Schema.DateColumn ==> r.cols[c] == f.cols[c]
    ensures Schema.DateColumn in f.cols ==>
      r.cols[Schema.DateColumn].dtype == Datetime &&
      |r.cols[Schema.DateColumn].cells| == |f.cols[Schema.DateColumn].cells| &&
      Schema.AllStamps(r.cols[Schema.DateColumn].cells)
  {
    if Schema.DateColumn in f.cols then
      Frame(f.height, f.cols[Schema.DateColumn := Schema.AsDatetime(f.cols[Schema.DateColumn])])
    else f
  }

  // ---------------------------------------------------------------------
  // Sorting by date

  predicate SortedByDate(s: seq<Bar>) {
    forall i, j :: 0 <= i < j < |s| ==> s[i].date <= s[j].date
  }

  /** Places `b` after every bar dated no later than it. */
  function Insert(sorted: seq<Bar>, b: Bar): (r: seq<Bar>)
    ensures multiset(r) == multiset(sorted) + multiset{b}
    ensures |r| == |sorted| + 1
  {
    if sorted == [] || sorted[|sorted| - 1].date <= b.date then sorted + [b]
    else
      var last := sorted[|sorted| - 1];
      assert sorted == sorted[..|sorted| - 1] + [last];
      Insert(sorted[..|sorted| - 1], b) + [last]
  }

  /** `sort_values(by='date')`, as an insertion sort: bars with the same
      date keep their input order, which pandas' default quicksort does not
      promise. */
  function SortByDate(s: seq<Bar>): (r: seq<Bar>)
    ensures multiset(r) == multiset(s) && |r| == |s|
  {
    if s == [] then []
    else
      assert s == s[..|s| - 1] + [s[|s| - 1]];
      Insert(SortByDate(s[..|s| - 1]), s[|s| - 1])
  }

  lemma {:induction false} InsertSorted(sorted: seq<Bar>, b: Bar)
    requires SortedByDate(sorted)
    ensures SortedByDate(Insert(sorted, b))
    ensures forall x :: x in Insert(sorted, b) ==> x in sorted || x == b
    decreases |sorted|
  {
    if sorted == [] || sorted[|sorted| - 1].date <= b.date {
    } else {
      var init := sorted[..|sorted| - 1];
      var last := sorted[|sorted| - 1];
      InsertSorted(init, b);
      var r := Insert(init, b);
      forall x | x in r
        ensures x.date <= last.date
      {
        if x != b {
          var k :| 0 <= k < |init| && init[k] == x;
        }
      }
    }
  }

  /** The sorted history is ordered by date and holds the same bars. */
  lemma {:induction false} SortByDateSorted(s: seq<Bar>)
    ensures SortedByDate(SortByDate(s))
  {
    if s != [] {
      SortByDateSorted(s[..|s| - 1]);
      InsertSorted(SortByDate(s[..|s| - 1]), s[|s| - 1]);
    }
  }

  predicate DistinctDates(s: seq<Bar>) {
    forall i, j :: 0 <= i < j < |s| ==> s[i].date != s[j].date
  }

  /** Two date-ordered arrangements of the same bars with no repeated date
      are the same sequence. */
  lemma {:induction false} SortedUnique(a: seq<Bar>, b: seq<Bar>)
    requires SortedByDate(a) && SortedByDate(b) && multiset(a) == multiset(b) && DistinctDates(a)
    ensures a == b
    decreases |a|
  {
    assert |a| == |multiset(a)| == |multiset(b)| == |b|;
    if a != [] {
      var n := |a| - 1;
      LastBarsEqual(a, b);
      var a', b' := a[..n], b[..n];
      assert a == a' + [a[n]] && b == b' + [a[n]];
      DropLastBar(a', b', a[n]);
      PrefixOrdered(a, n);
      PrefixOrdered(b, n);
      PrefixDistinct(a, n);
      SortedUnique(a', b');
    }
  }

  lemma PrefixOrdered(s: seq<Bar>, n: nat)
    requires n <= |s| && SortedByDate(s)
    ensures SortedByDate(s[..n])
  {
  }

  lemma PrefixDistinct(s: seq<Bar>, n: nat)
    requires n <= |s| && DistinctDates(s)
    ensures DistinctDates(s[..n])
  {
  }

  /** The last bar of each arrangement has the latest date, so it is the
      same bar in both. */
  lemma LastBarsEqual(a: seq<Bar>, b: seq<Bar>)
    requires SortedByDate(a) && SortedByDate(b) && multiset(a) == multiset(b) && DistinctDates(a)
    requires a != [] && |a| == |b|
    ensures a[|a| - 1] == b[|b| - 1]
  {
    var n := |a| - 1;
    var x, y := a[n], b[n];
    assert y in multiset(a) && x in multiset(b);
    var k :| 0 <= k < |a| && a[k] == y;
    var m :| 0 <= m < |b| && b[m] == x;
    assert y.date <= x.date && x.date <= y.date;
  }

  lemma DropLastBar(a: seq<Bar>, b: seq<Bar>, x: Bar)
    requires multiset(a + [x]) == multiset(b + [x])
    ensures multiset(a) == multiset(b)
  {
    assert multiset(a + [x]) == multiset(a) + multiset{x};
    assert multiset(b + [x]) == multiset(b) + multiset{x};
    forall e
      ensures multiset(a)[e] == multiset(b)[e]
    {
      assert multiset(a + [x])[e] == multiset(a)[e] + multiset{x}[e];
    }
  }

  /** When no two bars share a date, any date-ordered arrangement of them,
      stable or not, is the one `SortByDate` gives. */
  lemma SortByDateUnique(s: seq<Bar>, t: seq<Bar>)
    requires SortedByDate(t) && multiset(t) == multiset(s) && DistinctDates(t)
    ensures SortByDate(s) == t
  {
    SortByDateSorted(s);
    SortedUnique(t, SortByDate(s));
  }

  // ---------------------------------------------------------------------
  // True range

  /** `max(axis=1, skipna=False)` of non-NaN values; NaN if any is NaN. */
  function Max3(a: Float, b: Float, c: Float): (r: Float)
    ensures r.NaN? <==> a.NaN? || b.NaN? || c.NaN?
    ensures !r.NaN? ==> Ge(r, a) && Ge(r, b) && Ge(r, c) && (r == a || r == b || r == c)
  {
    if a.NaN? || b.NaN? || c.NaN? then NaN
    else
      var ab := if Ge(a, b) then a else b;
      if Ge(ab, c) then ab else c
  }

  /** The three candidates of bar `i > 0`: `high - low`, `|high - prev close|`
      and `|low - prev close|`. */
  function Candidates(bars: seq<Bar>, i: nat): (Float, Float, Float)
    requires 0 < i < |bars|
  {
    (Sub(bars[i].high, bars[i].low), Abs(Sub(bars[i].high, bars[i - 1].close)),
     Abs(Sub(bars[i].low, bars[i - 1].close)))
  }

  /** The true range of every bar: the first bar uses `high - low` alone;
      a later bar is NaN when one of its three candidates is, and otherwise
      the largest of them. */
  function TrueRanges(bars: seq<Bar>): (r: seq<Float>)
    ensures |r| == |bars|
    ensures |bars| > 0 ==> r[0] == Sub(bars[0].high, bars[0].low)
    ensures forall i :: 0 < i < |bars| ==>
      var (a, b, c) := Candidates(bars, i);
      (r[i].NaN? <==> a.NaN? || b.NaN? || c.NaN?) &&
      (!r[i].NaN? ==> Ge(r[i], a) && Ge(r[i], b) && Ge(r[i], c) && (r[i] == a || r[i] == b || r[i] == c))
  {
    seq(|bars|, i requires 0 <= i < |bars| =>
      if i == 0 then Sub(bars[0].high, bars[0].low)
      else Max3(Candidates(bars, i).0, Candidates(bars, i).1, Candidates(bars, i).2))
  }

  /** A bar whose prices are finite with `high >= low`. */
  predicate SaneBar(b: Bar) {
    b.high.Finite? && b.low.Finite? && b.close.Finite? && b.low.v <= b.high.v
  }

  /** Bars with finite prices and `high >= low` have finite, non-negative
      true ranges. */
  lemma SaneBarsSaneRanges(bars: seq<Bar>)
    requires forall i :: 0 <= i < |bars| ==> SaneBar(bars[i])
    ensures forall i :: 0 <= i < |bars| ==> TrueRanges(bars)[i].Finite? && TrueRanges(bars)[i].v >= 0.0
  {
    var r := TrueRanges(bars);
    forall i | 0 <= i < |bars|
      ensures r[i].Finite? && r[i].v >= 0.0
    {
      if i > 0 {
        var (a, b, c) := Candidates(bars, i);
        assert a.Finite? && a.v >= 0.0;
        assert b.Finite? && c.Finite?;
      }
    }
  }

  /** `dropna()` on a series of floats, keeping order. */
  function Present(xs: seq<Float>): (r: seq<Float>)
    ensures |r| <= |xs|
    ensures forall i :: 0 <= i < |r| ==> !r[i].NaN?
    ensures forall x :: x in r ==> x in xs
    ensures forall x :: x in xs && !x.NaN? ==> x in r
  {
    if xs == [] then []
    else
      var prefix := Present(xs[..|xs| - 1]);
      if xs[|xs| - 1].NaN? then prefix else prefix + [xs[|xs| - 1]]
  }

  /** `dropna` works piecewise: on a concatenation it is the concatenation
      of the two results, so the order of the kept values is the input's. */
  lemma {:induction false} PresentAppend(a: seq<Float>, b: seq<Float>)
    ensures Present(a + b) == Present(a) + Present(b)
    decreases |b|
  {
    if b == [] {
      assert a + b == a;
    } else {
      var b' := b[..|b| - 1];
      assert (a + b)[..|a + b| - 1] == a + b';
      assert (a + b)[|a + b| - 1] == b[|b| - 1];
      PresentAppend(a, b');
    }
  }

  /** On one value: a NaN is dropped, anything else kept. */
  lemma PresentOne(x: Float)
    ensures Present([x]) == if x.NaN? then [] else [x]
  {
    assert [x][..0] == [];
  }

  /** A series without NaN loses nothing. */
  lemma {:induction false} PresentKeepsAll(xs: seq<Float>)
    requires forall i :: 0 <= i < |xs| ==> !xs[i].NaN?
    ensures Present(xs) == xs
  {
    if xs != [] {
      PresentKeepsAll(xs[..|xs| - 1]);
      assert xs == xs[..|xs| - 1] + [xs[|xs| - 1]];
    }
  }

  // ---------------------------------------------------------------------
  // Exponential moving average

  predicate NoNaN(xs: seq<Float>) {
    forall i :: 0 <= i < |xs| ==> !xs[i].NaN?
  }

  /** One step of `ewm(adjust=False).mean()` on an observed value: a NaN
      average restarts at the value, an equal value leaves it, otherwise it
      moves a fraction `Alpha` towards the value. */
  function EmaStep(w: Float, cur: Float): Float {
    if w.NaN? then cur
    else if w == cur then w
    else Add(Mul(Finite(1.0 - Alpha), w), Mul(Finite(Alpha), cur))
  }

  /** The running average after the whole series; NaN for an empty one. */
  function EmaFold(xs: seq<Float>): Float {
    if xs == [] then NaN
    else if |xs| == 1 then xs[0]
    else EmaStep(EmaFold(xs[..|xs| - 1]), xs[|xs| - 1])
  }

  /** The last value of `ewm(span=14, adjust=False, min_periods=14).mean()`
      on a series without missing values: NaN before 14 observations. */
  function EwmLast(xs: seq<Float>): Float {
    if |xs| >= AtrPeriod then EmaFold(xs) else NaN
  }

  /** The recurrence as a loop over the series, as the exponential
      weighting runs it. */
  method ExponentialMean(xs: seq<Float>) returns (last: Float)
    requires NoNaN(xs)
    ensures last == EwmLast(xs)
  {
    if |xs| < AtrPeriod {
      return NaN;
    }
    var weighted := xs[0];
    var i := 1;
    while i < |xs|
      invariant 1 <= i <= |xs|
      invariant weighted == EmaFold(xs[..i])
    {
      assert xs[..i + 1][..i] == xs[..i];
      var cur := xs[i];
      if weighted.NaN? {
        weighted := cur;
      } else if weighted != cur {
        weighted := Add(Mul(Finite(1.0 - Alpha), weighted), Mul(Finite(Alpha), cur));
      }
      i := i + 1;
    }
    assert xs[..|xs|] == xs;
    return weighted;
  }

  /** An average of finite values in [lo, hi] is finite and stays in [lo, hi]. */
  lemma {:induction false} EmaBounds(xs: seq<Float>, lo: real, hi: real)
    requires xs != []
    requires forall i :: 0 <= i < |xs| ==> xs[i].Finite? && lo <= xs[i].v <= hi
    ensures EmaFold(xs).Finite? && lo <= EmaFold(xs).v <= hi
  {
    if |xs| > 1 {
      var init := xs[..|xs| - 1];
      EmaBounds(init, lo, hi);
      var w := EmaFold(init);
      var c := xs[|xs| - 1];
      if w != c {
        assert EmaFold(xs) == Finite((1.0 - Alpha) * w.v + Alpha * c.v);
      }
    }
  }

  /** A constant series averages to its value, infinities included. */
  lemma {:induction false} EmaConstant(xs: seq<Float>, c: Float)
    requires xs != [] && !c.NaN?
    requires forall i :: 0 <= i < |xs| ==> xs[i] == c
    ensures EmaFold(xs) == c
  {
    if |xs| > 1 {
      EmaConstant(xs[..|xs| - 1], c);
    }
  }

  // ---------------------------------------------------------------------
  // The estimate

  /** `df.empty`: no rows or no columns. */
  predicate IsEmpty(f: Frame) {
    f.height == 0 || f.cols == map[]
  }

  /** The EMA of the true ranges, if the history gives at least 14 usable
      bars and 14 true ranges. */
  function HistoryEma(history: Frame): (r: Option<Float>)
    ensures r.Some? ==> !IsEmpty(history) && Schema.RepairAll(history, AtrColumns).1
    ensures r.Some? ==> var g := WithDates(Schema.RepairAll(history, AtrColumns).0);
                        |DropMissing(g, g.height)| >= AtrPeriod
  {
    if IsEmpty(history) then None
    else
      var repaired := Schema.RepairAll(history, AtrColumns);
      if !repaired.1 || IsEmpty(repaired.0) then None
      else
        var dated := WithDates(repaired.0);
        var bars := DropMissing(dated, dated.height);
        if |bars| < AtrPeriod then None
        else
          var ranges := Present(TrueRanges(SortByDate(bars)));
          if |ranges| < AtrPeriod then None else Some(EwmLast(ranges))
  }

  /** Whether the history's EMA is used: as written, any non-NaN value above
      1e-9 (so +inf too); with `strict`, only finite ones. */
  predicate Accepted(ema: Float, strict: bool) {
    !ema.NaN? && Gt(ema, Finite(Normalize.MinDenominator)) && (strict ==> ema.Finite?)
  }

  /** `float(min_value)` read through the configuration chain, default 1.0. */
  function MinValue(config: Json): (r: Outcome<Float>)
    ensures r.Raises? ==> r.error == TypeError || r.error == ValueError
  {
    ToFloat(Config.GetConfigValue(config, FallbackPath + ["min_value"], Real(1.0)))
  }

  /** `price is not None and pd.notna(price) and price > 0`; with `strict`,
      also a finite price and a finite product with `pct`. */
  predicate UsablePrice(price: Option<Float>, pct: Float, strict: bool) {
    price.Some? && !price.value.NaN? && Gt(price.value, Zero) &&
    (strict ==> price.value.Finite? && Mul(price.value, pct).Finite?)
  }

  /** The fallback computed from the fallback section: its `min_value`,
      raised to `price * percentage` for the `percentage_of_price` type when
      the price is positive. A section that is not a dict raises
      `AttributeError`; a `min_value` or `percentage` that `float()` rejects
      raises. With `strict` a non-finite price or product is not used. */
  function FallbackOf(section: Json, price: Option<Float>, strict: bool): (r: Outcome<Float>)
    ensures r.Raises? ==> r.error == AttributeError || r.error == TypeError || r.error == ValueError
    ensures !section.JObj? ==> r == Raises(AttributeError)
    ensures r.Returns? && (price.None? || !Gt(price.value, Zero)) ==>
      r == ToFloat(Get(section.fields, "min_value", Real(1.0)))
    ensures section.JObj? ==>
      var floor := ToFloat(Get(section.fields, "min_value", Real(1.0)));
      var pct := ToFloat(Get(section.fields, "percentage", Real(0.005)));
      floor.Returns? && StrOf(Get(section.fields, "type", Str("percentage_of_price"))) == Some("percentage_of_price") &&
      pct.Returns? && UsablePrice(price, pct.value, strict) ==>
        r == Returns(PyMax(Mul(price.value, pct.value), floor.value))
    ensures section.JObj? ==>
      var floor := ToFloat(Get(section.fields, "min_value", Real(1.0)));
      floor.Returns? && StrOf(Get(section.fields, "type", Str("percentage_of_price"))) != Some("percentage_of_price") ==>
        r == floor
  {
    if !section.JObj? then Raises(AttributeError)
    else
    var kind := Get(section.fields, "type", Str("percentage_of_price"));
    var floor :- ToFloat(Get(section.fields, "min_value", Real(1.0)));
    if StrOf(kind) == Some("percentage_of_price") then
      var pct :- ToFloat(Get(section.fields, "percentage", Real(0.005)));
      if UsablePrice(price, pct, strict) then
        Returns(PyMax(Mul(price.value, pct), floor))
      else Returns(floor)
    else Returns(floor)
  }

  /** The fallback of the section the configuration chain gives. */
  function FallbackAtr(config: Json, price: Option<Float>, strict: bool): (r: Outcome<Float>)
    ensures r.Raises? ==> r.error == AttributeError || r.error == TypeError || r.error == ValueError
    ensures !Config.GetConfigValue(config, FallbackPath, JObj(map[])).JObj? ==> r == Raises(AttributeError)
    ensures r.Returns? && (price.None? || !Gt(price.value, Zero)) ==>
      r == ToFloat(Get(Config.GetConfigValue(config, FallbackPath, JObj(map[])).fields, "min_value", Real(1.0)))
    ensures var section := Config.GetConfigValue(config, FallbackPath, JObj(map[]));
      section.JObj? ==>
      var floor := ToFloat(Get(section.fields, "min_value", Real(1.0)));
      var pct := ToFloat(Get(section.fields, "percentage", Real(0.005)));
      floor.Returns? && StrOf(Get(section.fields, "type", Str("percentage_of_price"))) == Some("percentage_of_price") &&
      pct.Returns? && UsablePrice(price, pct.value, strict) ==>
        r == Returns(PyMax(Mul(price.value, pct.value), floor.value))
  {
    FallbackOf(Config.GetConfigValue(config, FallbackPath, JObj(map[])), price, strict)
  }

  function AtrOf(config: Json, price: Option<Float>, history: Option<Frame>, strict: bool): Outcome<Float> {
    var floor :- MinValue(config);
    var ema := if history.Some? then HistoryEma(history.value) else None;
    if ema.Some? && Accepted(ema.value, strict) then Returns(PyMax(ema.value, floor))
    else FallbackAtr(config, price, strict)
  }

  /** `_get_atr` as written. */
  function AtrSpec(config: Json, price: Option<Float>, history: Option<Frame>): (r: Outcome<Float>)
    ensures MinValue(config).Raises? ==> r == Raises(MinValue(config).error)
    ensures history.None? && MinValue(config).Returns? ==> r == FallbackAtr(config, price, false)
  {
    AtrOf(config, price, history, false)
  }

  /** `_get_atr` with finiteness checks on the EMA, the price and the product. */
  function CorrectedAtr(config: Json, price: Option<Float>, history: Option<Frame>): (r: Outcome<Float>)
    ensures MinValue(config).Raises? ==> r == Raises(MinValue(config).error)
    ensures history.None? && MinValue(config).Returns? ==> r == FallbackAtr(config, price, true)
  {
    AtrOf(config, price, history, true)
  }

  /** `_get_atr`: repairs a copy of the history, drops incomplete rows, sorts
      by date, runs the EMA loop over the true ranges, otherwise falls back. */
  method GetAtr(config: Json, price: Option<Float>, history: Option<Frame>) returns (r: Outcome<Float>)
    ensures r == AtrSpec(config, price, history)
  {
    var floorOr := MinValue(config);
    if floorOr.Raises? {
      return Raises(floorOr.error);
    }
    var floor := floorOr.value;
    var ema: Option<Float> := None;
    if history.Some? && !IsEmpty(history.value) {
      var copy, ok := Schema.EnsureColumns(history.value, AtrColumns);
      if ok && !IsEmpty(copy) {
        copy := WithDates(copy);
        var bars := DropMissing(copy, copy.height);
        if |bars| >= AtrPeriod {
          bars := SortByDate(bars);
          var ranges := Present(TrueRanges(bars));
          if |ranges| >= AtrPeriod {
            var last := ExponentialMean(ranges);
            ema := Some(last);
          }
        }
      }
    }
    assert ema == (if history.Some? then HistoryEma(history.value) else None);
    AtrSteps(config, price, history, floor, ema);
    if ema.Some? && Accepted(ema.value, false) {
      return Returns(PyMax(ema.value, floor));
    }
    return FallbackAtr(config, price, false);
  }

  /** `AtrSpec` from the minimum and the history's EMA it reads. */
  lemma AtrSteps(config: Json, price: Option<Float>, history: Option<Frame>, floor: Float, ema: Option<Float>)
    requires MinValue(config) == Returns(floor)
    requires ema == (if history.Some? then HistoryEma(history.value) else None)
    ensures AtrSpec(config, price, history) ==
      if ema.Some? && Accepted(ema.value, false) then Returns(PyMax(ema.value, floor)) else FallbackAtr(config, price, false)
  {
  }

  // ---------------------------------------------------------------------
  // Properties

  /** Where the fallback returns, it used the same minimum as `MinValue`. */
  lemma FallbackFloorMatches(config: Json, price: Option<Float>, strict: bool, m: Float)
    requires MinValue(config) == Returns(m)
    requires FallbackAtr(config, price, strict).Returns?
    ensures var section := Config.GetConfigValue(config, FallbackPath, JObj(map[]));
      section.JObj? && ToFloat(Get(section.fields, "min_value", Real(1.0))) == Returns(m)
  {
    MinValueOfSection(config);
  }

  /** The built-in fallback section and its `min_value` of 1.0. */
  lemma DefaultFallbackMin()
    ensures Config.Lookup(DefaultConfig.Tree, FallbackPath) == Some(Obj(DefaultConfig.AtrFallback))
    ensures Config.Lookup(DefaultConfig.Tree, FallbackPath + ["min_value"]) == Some(Real(1.0))
    ensures Get(DefaultConfig.AtrFallback, "min_value", Real(1.0)) == Real(1.0)
  {
    DefaultFacts.FallbackSection();
    DefaultFacts.FallbackEntries();
    Config.LookupAppend(DefaultConfig.Tree, FallbackPath, ["min_value"]);
    assert Config.Lookup(Obj(DefaultConfig.AtrFallback), ["min_value"]) == Some(Real(1.0)) by {
      assert ["min_value"][1..] == [];
    }
  }

  /** Reading `min_value` through the whole path gives the section's own
      entry, once that entry is one `float()` accepts. */
  lemma MinValueOfSection(config: Json)
    requires var section := Config.GetConfigValue(config, FallbackPath, JObj(map[]));
      section.JObj? && ToFloat(Get(section.fields, "min_value", Real(1.0))).Returns?
    ensures var section := Config.GetConfigValue(config, FallbackPath, JObj(map[]));
      Config.GetConfigValue(config, FallbackPath + ["min_value"], Real(1.0)) == Get(section.fields, "min_value", Real(1.0))
  {
    var full := FallbackPath + ["min_value"];
    DefaultFallbackMin();
    Config.LookupAppend(config, FallbackPath, ["min_value"]);
    var v := Config.Lookup(config, FallbackPath);
    if v.Some? && v.value != JNull {
      MinValueOfLoaded(config, v.value);
    } else {
      assert Config.Lookup(config, full) == None;
    }
  }

  lemma MinValueOfLoaded(config: Json, v: Json)
    requires Config.Lookup(config, FallbackPath) == Some(v) && v.JObj?
    requires ToFloat(Get(v.fields, "min_value", Real(1.0))).Returns?
    requires Config.Lookup(config, FallbackPath + ["min_value"]) == Config.Lookup(v, ["min_value"])
    requires Config.Lookup(DefaultConfig.Tree, FallbackPath + ["min_value"]) == Some(Real(1.0))
    ensures Config.GetConfigValue(config, FallbackPath + ["min_value"], Real(1.0)) == Get(v.fields, "min_value", Real(1.0))
  {
    assert ["min_value"][1..] == [];
    if "min_value" in v.fields {
      assert Config.Lookup(v, ["min_value"]) == Some(v.fields["min_value"]);
      assert v.fields["min_value"] != JNull;
    } else {
      assert Config.Lookup(v, ["min_value"]) == None;
    }
  }

  /** The fallback's result is its minimum or above it, unless the product
      is NaN; with `strict` it is finite when the minimum is. */
  lemma FallbackFloor(config: Json, price: Option<Float>, strict: bool, floor: Float, a: Float)
    requires var section := Config.GetConfigValue(config, FallbackPath, JObj(map[]));
      section.JObj? && ToFloat(Get(section.fields, "min_value", Real(1.0))) == Returns(floor)
    requires !floor.NaN?
    requires FallbackAtr(config, price, strict) == Returns(a)
    ensures Ge(a, floor) || a.NaN?
    ensures strict && floor.Finite? ==> a.Finite? && Ge(a, floor)
  {
    var section := Config.GetConfigValue(config, FallbackPath, JObj(map[]));
    var kind := DictGet(section, "type", Str("percentage_of_price"));
    assert DictGet(section, "min_value", Real(1.0)) == Returns(Get(section.fields, "min_value", Real(1.0)));
    var pctJ := DictGet(section, "percentage", Real(0.005));
    if kind.Returns? && StrOf(kind.value) == Some("percentage_of_price") && pctJ.Returns? && ToFloat(pctJ.value).Returns? {
      var pct := ToFloat(pctJ.value).value;
      if price.Some? && !price.value.NaN? && Gt(price.value, Zero) &&
         (strict ==> price.value.Finite? && Mul(price.value, pct).Finite?) {
        var x := Mul(price.value, pct);
        assert a == PyMax(x, floor);
        PyMaxFloor(x, floor);
      } else {
        assert a == floor;
      }
    } else {
      assert a == floor;
    }
  }

  /** `max(x, floor)` reaches a non-NaN floor unless `x` is NaN. */
  lemma PyMaxFloor(x: Float, floor: Float)
    requires !floor.NaN?
    ensures Ge(PyMax(x, floor), floor) || PyMax(x, floor).NaN?
    ensures x.Finite? && floor.Finite? ==> PyMax(x, floor).Finite?
  {
  }

  /** The estimate is never below the configured minimum; the only way
      around it is a NaN from the fallback's `price * percentage`. */
  lemma {:induction false} AtrFloor(config: Json, price: Option<Float>, history: Option<Frame>, m: Float, a: Float)
    requires MinValue(config) == Returns(m) && !m.NaN?
    requires AtrSpec(config, price, history) == Returns(a)
    ensures Ge(a, m) || a.NaN?
  {
    var ema := if history.Some? then HistoryEma(history.value) else None;
    if !(ema.Some? && Accepted(ema.value, false)) {
      assert FallbackAtr(config, price, false) == Returns(a);
      FallbackFloorMatches(config, price, false, m);
      FallbackFloor(config, price, false, m, a);
    }
  }

  /** The corrected estimate is finite and never below a finite minimum. */
  lemma {:induction false} CorrectedAtrFinite(config: Json, price: Option<Float>, history: Option<Frame>, m: Float, a: Float)
    requires MinValue(config) == Returns(m) && m.Finite?
    requires CorrectedAtr(config, price, history) == Returns(a)
    ensures a.Finite? && Ge(a, m)
  {
    var ema := if history.Some? then HistoryEma(history.value) else None;
    if !(ema.Some? && Accepted(ema.value, true)) {
      assert FallbackAtr(config, price, true) == Returns(a);
      FallbackFloorMatches(config, price, true, m);
      FallbackFloor(config, price, true, m, a);
    }
  }

  lemma DefaultMinValue()
    ensures MinValue(DefaultConfig.Tree) == Returns(Finite(1.0))
  {
    DefaultFallbackMin();
  }

  /** With the built-in configuration and no history: 0.5% of the price,
      at least 1.0. */
  lemma DefaultFallback(price: Option<Float>, strict: bool)
    ensures FallbackAtr(DefaultConfig.Tree, price, strict) ==
      (if price.Some? && !price.value.NaN? && Gt(price.value, Zero) &&
          (strict ==> price.value.Finite? && Mul(price.value, Finite(0.005)).Finite?)
       then Returns(PyMax(Mul(price.value, Finite(0.005)), Finite(1.0)))
       else Returns(Finite(1.0)))
  {
    DefaultSection();
    BuiltInFallback(price, strict);
  }

  /** The built-in configuration's fallback section is `DefaultConfig.AtrFallback`. */
  lemma DefaultSection()
    ensures Config.GetConfigValue(DefaultConfig.Tree, FallbackPath, JObj(map[])) == Obj(DefaultConfig.AtrFallback)
  {
    DefaultFallbackMin();
  }

  /** The built-in fallback section: with a price of 100 it gives 1.0 (0.5
      floored to 1.0), with 1000 it gives 5.0, without a price 1.0, with
      +inf it gives +inf as written and 1.0 with the finiteness checks. */
  lemma BuiltInFallbackExamples()
    ensures FallbackOf(Obj(DefaultConfig.AtrFallback), Some(Finite(100.0)), false) == Returns(Finite(1.0))
    ensures FallbackOf(Obj(DefaultConfig.AtrFallback), Some(Finite(1000.0)), false) == Returns(Finite(5.0))
    ensures FallbackOf(Obj(DefaultConfig.AtrFallback), None, false) == Returns(Finite(1.0))
    ensures FallbackOf(Obj(DefaultConfig.AtrFallback), Some(PosInf), false) == Returns(PosInf)
    ensures FallbackOf(Obj(DefaultConfig.AtrFallback), Some(PosInf), true) == Returns(Finite(1.0))
  {
    BuiltInFallback(Some(Finite(100.0)), false);
    BuiltInFallback(Some(Finite(1000.0)), false);
    BuiltInFallback(None, false);
    BuiltInFallback(Some(PosInf), false);
    BuiltInFallback(Some(PosInf), true);
  }

  /** Without history and with a `min_value` that converts, the estimate is
      the fallback. */
  lemma NoHistoryFallback(config: Json, price: Option<Float>, strict: bool)
    requires MinValue(config).Returns?
    ensures AtrOf(config, price, None, strict) == FallbackOf(Config.GetConfigValue(config, FallbackPath, JObj(map[])), price, strict)
  {
  }

  /** The built-in fallback section: 0.5% of a usable price, at least 1.0. */
  lemma BuiltInFallback(price: Option<Float>, strict: bool)
    ensures FallbackOf(Obj(DefaultConfig.AtrFallback), price, strict) ==
      (if price.Some? && !price.value.NaN? && Gt(price.value, Zero) &&
          (strict ==> price.value.Finite? && Mul(price.value, Finite(0.005)).Finite?)
       then Returns(PyMax(Mul(price.value, Finite(0.005)), Finite(1.0)))
       else Returns(Finite(1.0)))
  {
    DefaultFacts.FallbackEntries();
  }

  /** With the built-in configuration and no history: a price of 100 gives
      1.0, a price of 1000 gives 5.0, no price gives 1.0. */
  lemma DefaultExamples()
    ensures AtrSpec(DefaultConfig.Tree, Some(Finite(100.0)), None) == Returns(Finite(1.0))
    ensures AtrSpec(DefaultConfig.Tree, Some(Finite(1000.0)), None) == Returns(Finite(5.0))
    ensures AtrSpec(DefaultConfig.Tree, None, None) == Returns(Finite(1.0))
  {
    DefaultMinValue();
    DefaultSection();
    NoHistoryFallback(DefaultConfig.Tree, Some(Finite(100.0)), false);
    NoHistoryFallback(DefaultConfig.Tree, Some(Finite(1000.0)), false);
    NoHistoryFallback(DefaultConfig.Tree, None, false);
    BuiltInFallbackExamples();
  }

  /** As written, an infinite price passes `notna` and `> 0` and the
      estimate is infinite. */
  lemma InfinitePriceGivesInfiniteAtr()
    ensures AtrSpec(DefaultConfig.Tree, Some(PosInf), None) == Returns(PosInf)
    ensures CorrectedAtr(DefaultConfig.Tree, Some(PosInf), None) == Returns(Finite(1.0))
  {
    DefaultMinValue();
    DefaultSection();
    NoHistoryFallback(DefaultConfig.Tree, Some(PosInf), false);
    NoHistoryFallback(DefaultConfig.Tree, Some(PosInf), true);
    BuiltInFallbackExamples();
  }

  /** A clean history is used as given: the repair step changes nothing. */
  lemma CleanHistoryUnchanged(history: Frame)
    requires Schema.RepairAll(history, AtrColumns).1
    ensures Schema.RepairAll(history, AtrColumns).0 == history
  {
    Schema.CleanMeansUnchanged(history, AtrColumns);
  }
}
