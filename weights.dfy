/** `get_weights` (elite_options_system/core/strategies.py:425-523): choosing
    the MSPI component weight set by time of day or by implied-volatility
    regime, falling back to the built-in midday set, and reading one weight
    per component key. The current time is a parameter. */
module Weights {
  import opened Outcomes
  import opened Floats
  import opened Json
  import Text
  import Config
  import DefaultConfig
  import DefaultFacts

  // ---------------------------------------------------------------------
  // Time of day

  datatype TimeOfDay = TimeOfDay(hour: nat, minute: nat, second: nat, micro: nat)

  predicate ValidTime(t: TimeOfDay) {
    t.hour < 24 && t.minute < 60 && t.second < 60 && t.micro < 1000000
  }

  /** Microseconds since midnight: the order `datetime.time` compares by. */
  function Micros(t: TimeOfDay): int {
    ((t.hour * 60 + t.minute) * 60 + t.second) * 1000000 + t.micro
  }

  predicate Before(a: TimeOfDay, b: TimeOfDay) {
    Micros(a) < Micros(b)
  }

  /** One numeric field of `%H:%M:%S`: one or two ASCII digits, at most `max`. */
  function ParseField(s: string, max: nat): (r: Option<nat>)
    ensures r.Some? ==> 1 <= |s| <= 2 && Text.AllDigits(s) && r.value == Text.DigitsValue(s) <= max
  {
    if 1 <= |s| <= 2 && Text.AllDigits(s) && Text.DigitsValue(s) <= max then Some(Text.DigitsValue(s)) else None
  }

  /** `datetime.strptime(s, "%H:%M:%S").time()`: three colon-separated
      fields of one or two digits, hour up to 23, minute and second up to 59,
      and nothing else. */
  function ParseClock(s: string): (r: Option<TimeOfDay>)
    ensures r.Some? ==> ValidTime(r.value) && r.value.micro == 0
  {
    var h := Text.LeadingDigits(s);
    if |h| >= |s| || s[|h|] != ':' then None
    else
      var rest := s[|h| + 1..];
      var m := Text.LeadingDigits(rest);
      if |m| >= |rest| || rest[|m|] != ':' then None
      else
        var sec := rest[|m| + 1..];
        match (ParseField(h, 23), ParseField(m, 59), ParseField(sec, 59))
        case (Some(a), Some(b), Some(c)) => Some(TimeOfDay(a, b, c, 0))
        case _ => None
  }

  function FormatClock(t: TimeOfDay): string
    requires ValidTime(t)
  {
    Text.Pad2(t.hour) + ":" + Text.Pad2(t.minute) + ":" + Text.Pad2(t.second)
  }

  lemma LeadingDigitsBeforeColon(d: string, rest: string)
    requires Text.AllDigits(d)
    ensures Text.LeadingDigits(d + ":" + rest) == d
  {
    if d != [] {
      assert (d + ":" + rest)[1..] == d[1..] + ":" + rest;
      LeadingDigitsBeforeColon(d[1..], rest);
    }
  }

  /** Reading back `HH:MM:SS` gives the time of day it was written from. */
  lemma ParseFormatClock(t: TimeOfDay)
    requires ValidTime(t) && t.micro == 0
    ensures ParseClock(FormatClock(t)) == Some(t)
  {
    var h := Text.Pad2(t.hour);
    var m := Text.Pad2(t.minute);
    var sec := Text.Pad2(t.second);
    var s := FormatClock(t);
    assert s == h + ":" + (m + ":" + sec);
    LeadingDigitsBeforeColon(h, m + ":" + sec);
    assert s[|h| + 1..] == m + ":" + sec;
    LeadingDigitsBeforeColon(m, sec);
    assert (m + ":" + sec)[|m| + 1..] == sec;
  }

  /** `str(value)` parsed as a time of day; values whose text is not of the
      `%H:%M:%S` form do not parse. */
  function ClockOf(j: Json): Option<TimeOfDay> {
    match StrOf(j)
    case Some(s) => ParseClock(s)
    case None => None
  }

  const MorningEndDefault: TimeOfDay := TimeOfDay(11, 0, 0, 0)
  const MiddayEndDefault: TimeOfDay := TimeOfDay(14, 0, 0, 0)

  /** The two bucket boundaries from `time_based_definitions`; if either
      fails to parse both fall back to 11:00 and 14:00. A section that is not
      a dict raises `AttributeError`. */
  function Boundaries(defs: Json): (r: Outcome<(TimeOfDay, TimeOfDay)>)
    ensures r.Returns? <==> defs.JObj?
    ensures r.Returns? ==> ValidTime(r.value.0) && ValidTime(r.value.1)
  {
    if !defs.JObj? then Raises(AttributeError)
    else
      var morning := Get(defs.fields, "morning_end", Str("11:00:00"));
      var midday := Get(defs.fields, "midday_end", Str("14:00:00"));
      match (ClockOf(morning), ClockOf(midday))
      case (Some(a), Some(b)) => Returns((a, b))
      case _ => Returns((MorningEndDefault, MiddayEndDefault))
  }

  /** The time period: strictly before the morning end is `morning`, then
      strictly before the midday end is `midday`, otherwise `final`. */
  function Bucket(now: TimeOfDay, morningEnd: TimeOfDay, middayEnd: TimeOfDay): (key: string)
    ensures key == "morning" <==> Before(now, morningEnd)
    ensures key == "midday" <==> !Before(now, morningEnd) && Before(now, middayEnd)
    ensures key == "final" <==> !Before(now, morningEnd) && !Before(now, middayEnd)
  {
    if Before(now, morningEnd) then "morning" else if Before(now, middayEnd) then "midday" else "final"
  }

  function Rank(key: string): nat {
    if key == "morning" then 0 else if key == "midday" then 1 else 2
  }

  /** Later times never fall in an earlier bucket. */
  lemma BucketMonotone(t1: TimeOfDay, t2: TimeOfDay, morningEnd: TimeOfDay, middayEnd: TimeOfDay)
    requires Micros(t1) <= Micros(t2) && Micros(morningEnd) <= Micros(middayEnd)
    ensures Rank(Bucket(t1, morningEnd, middayEnd)) <= Rank(Bucket(t2, morningEnd, middayEnd))
  {
  }

  /** The built-in boundaries read back as 11:00:00 and 14:00:00. */
  lemma DefaultBoundaries()
    ensures Boundaries(Obj(DefaultConfig.TimeBasedDefinitions)) == Returns((MorningEndDefault, MiddayEndDefault))
  {
    DefaultClocks();
    BoundariesRead(DefaultConfig.TimeBasedDefinitions, MorningEndDefault, MiddayEndDefault);
  }

  lemma BoundariesRead(defs: map<string, Json>, a: TimeOfDay, b: TimeOfDay)
    requires ClockOf(Get(defs, "morning_end", Str("11:00:00"))) == Some(a)
    requires ClockOf(Get(defs, "midday_end", Str("14:00:00"))) == Some(b)
    ensures Boundaries(Obj(defs)) == Returns((a, b))
  {
  }

  /** The built-in `morning_end` and `midday_end` texts parse as 11:00 and 14:00. */
  lemma DefaultClocks()
    ensures ClockOf(Get(DefaultConfig.TimeBasedDefinitions, "morning_end", Str("11:00:00"))) == Some(MorningEndDefault)
    ensures ClockOf(Get(DefaultConfig.TimeBasedDefinitions, "midday_end", Str("14:00:00"))) == Some(MiddayEndDefault)
  {
    ClockOfFormatted(MorningEndDefault);
    ClockOfFormatted(MiddayEndDefault);
    DefaultClockTexts();
  }

  lemma ClockOfFormatted(t: TimeOfDay)
    requires ValidTime(t) && t.micro == 0
    ensures ClockOf(Str(FormatClock(t))) == Some(t)
  {
    ParseFormatClock(t);
  }

  lemma DefaultClockTexts()
    ensures Get(DefaultConfig.TimeBasedDefinitions, "morning_end", Str("11:00:00")) == Str(FormatClock(MorningEndDefault))
    ensures Get(DefaultConfig.TimeBasedDefinitions, "midday_end", Str("14:00:00")) == Str(FormatClock(MiddayEndDefault))
  {
    assert FormatClock(MorningEndDefault) == "11:00:00";
    assert FormatClock(MiddayEndDefault) == "14:00:00";
  }

  /** With the default boundaries: 10:59:59.999999 is morning, 11:00:00 and
      13:59:59.999999 are midday, 14:00:00 is final. */
  lemma DefaultBuckets()
    ensures Bucket(TimeOfDay(10, 59, 59, 999999), MorningEndDefault, MiddayEndDefault) == "morning"
    ensures Bucket(TimeOfDay(11, 0, 0, 0), MorningEndDefault, MiddayEndDefault) == "midday"
    ensures Bucket(TimeOfDay(13, 59, 59, 999999), MorningEndDefault, MiddayEndDefault) == "midday"
    ensures Bucket(TimeOfDay(14, 0, 0, 0), MorningEndDefault, MiddayEndDefault) == "final"
  {
  }

  // ---------------------------------------------------------------------
  // Selecting the weight set

  /** `low_iv` when the IV percentile times 100 is strictly below the
      threshold, otherwise (a NaN included) `high_iv`. */
  function Regime(iv: Float, threshold: Float): (key: string)
    ensures key == "low_iv" || key == "high_iv"
    ensures iv.Finite? && threshold.Finite? ==> (key == "low_iv" <==> iv.v * 100.0 < threshold.v)
    ensures iv.NaN? || threshold.NaN? ==> key == "high_iv"
  {
    if Lt(Mul(iv, Finite(100.0)), threshold) then "low_iv" else "high_iv"
  }

  const WeightsPath: seq<string> := ["data_processor_settings", "weights"]

  /** The volatility-based choice: the context must be a dict holding a
      non-null value under the configured key, and the `volatility_based`
      section a dict; a value or threshold that `float()` rejects, or an
      empty or non-dict regime set, selects nothing. */
  function VolatilitySet(config: Json, ivContext: Json): (r: Option<map<string, Json>>)
    ensures r.Some? ==> r.value != map[]
    ensures !ivContext.JObj? ==> r.None?
    ensures r.Some? ==> exists k :: k in ivContext.fields && ivContext.fields[k] != JNull && ToFloat(ivContext.fields[k]).Returns?
  {
    var keyJ := Config.GetConfigValue(config, ["data_processor_settings", "iv_context_parameters", "iv_percentile"],
                                      Str("iv_percentile_30d"));
    var section := Config.GetConfigValue(config, WeightsPath + ["volatility_based"], JObj(map[]));
    match StrOf(keyJ)
    case None => None
    case Some(k) =>
      if ivContext.JObj? && k in ivContext.fields && ivContext.fields[k] != JNull && section.JObj? then
        match ToFloat(ivContext.fields[k])
        case Raises(_) => None
        case Returns(iv) =>
          match ToFloat(Get(section.fields, "iv_percentile_threshold", Real(50.0)))
          case Raises(_) => None
          case Returns(threshold) =>
            var candidate := Get(section.fields, Regime(iv, threshold), JNull);
            if IsNonEmptyObj(candidate) then Some(candidate.fields) else None
      else None
  }

  /** The time-based choice: the set for the current period, if it is a
      non-empty dict. A `time_based_definitions` value that is not a dict
      raises `AttributeError`. */
  function TimeSet(config: Json, now: TimeOfDay): (r: Outcome<Option<map<string, Json>>>)
    ensures r.Returns? && r.value.Some? ==> r.value.value != map[]
  {
    var defs := Config.GetConfigValue(config, WeightsPath + ["time_based_definitions"], JObj(map[]));
    var bounds :- Boundaries(defs);
    var candidate := Config.GetConfigValue(config, WeightsPath + ["time_based", Bucket(now, bounds.0, bounds.1)], JNull);
    Returns(if IsNonEmptyObj(candidate) then Some(candidate.fields) else None)
  }

  /** The weight set the configured selection logic picks, or `None` when it
      picks nothing usable (an unknown logic, a missing or empty set). */
  function SelectedSet(config: Json, now: TimeOfDay, ivContext: Json): (r: Outcome<Option<map<string, Json>>>)
    ensures r.Returns? && r.value.Some? ==> r.value.value != map[]
  {
    var logic :- DictGet(Config.GetConfigValue(config, WeightsPath, JObj(map[])), "selection_logic", Str("time_based"));
    match StrOf(logic)
    case Some("time_based") => TimeSet(config, now)
    case Some("volatility_based") => Returns(VolatilitySet(config, ivContext))
    case _ => Returns(None)
  }

  /** The hard-coded failsafe used only if the built-in midday set were unusable. */
  const Failsafe: map<string, Json> := map["dag_custom" := Real(0.3), "tdpi" := Real(0.3), "vri" := Real(0.2),
                                           "sdag_multiplicative_norm" := Real(0.2)]

  /** The ultimate fallback: `DEFAULT_CONFIG`'s midday set. */
  function UltimateFallback(): (r: map<string, Json>)
    ensures r != map[]
  {
    assert "dag_custom" in Failsafe;
    var candidate := Config.Lookup(DefaultConfig.Tree, WeightsPath + ["time_based", "midday"]).GetOr(JObj(map[]));
    if IsNonEmptyObj(candidate) then candidate.fields else Failsafe
  }

  /** The failsafe branch is dead: the fallback is the built-in midday set. */
  lemma UltimateFallbackIsMidday()
    ensures UltimateFallback() == DefaultConfig.MiddayWeights
  {
    DefaultPeriodSet("midday");
    assert "dag_custom" in DefaultConfig.MiddayWeights;
  }

  /** The built-in set of each period. */
  function DefaultPeriod(key: string): map<string, Json> {
    if key == "morning" then DefaultConfig.MorningWeights
    else if key == "midday" then DefaultConfig.MiddayWeights
    else DefaultConfig.FinalWeights
  }

  lemma DefaultPeriodSet(key: string)
    requires key == "morning" || key == "midday" || key == "final"
    ensures Config.Lookup(DefaultConfig.Tree, WeightsPath + ["time_based", key]) == Some(Obj(DefaultPeriod(key)))
    ensures IsNonEmptyObj(Obj(DefaultPeriod(key)))
  {
    if key == "morning" {
      DefaultMorningSet();
      PeriodSteps(key, DefaultConfig.MorningWeights);
    } else if key == "midday" {
      DefaultMiddaySet();
      PeriodSteps(key, DefaultConfig.MiddayWeights);
    } else {
      DefaultFinalSet();
      PeriodSteps(key, DefaultConfig.FinalWeights);
    }
  }

  /** A period set of the built-in weights section, seen from the root. */
  lemma PeriodSteps(key: string, m: map<string, Json>)
    requires Config.Lookup(Obj(DefaultConfig.Weights), ["time_based", key]) == Some(Obj(m))
    requires "dag_custom" in m
    ensures Config.Lookup(DefaultConfig.Tree, WeightsPath + ["time_based", key]) == Some(Obj(m))
    ensures IsNonEmptyObj(Obj(m))
  {
    DefaultWeightsAt(["time_based", key]);
  }

  lemma DefaultMorningSet()
    ensures Config.Lookup(Obj(DefaultConfig.Weights), ["time_based", "morning"]) == Some(Obj(DefaultConfig.MorningWeights))
    ensures "dag_custom" in DefaultConfig.MorningWeights
  {
    DefaultFacts.TimeBasedEntry();
    assert DefaultConfig.TimeBased["morning"] == Obj(DefaultConfig.MorningWeights);
    assert ["time_based", "morning"][1..] == ["morning"];
    assert ["morning"][1..] == [];
  }

  lemma DefaultMiddaySet()
    ensures Config.Lookup(Obj(DefaultConfig.Weights), ["time_based", "midday"]) == Some(Obj(DefaultConfig.MiddayWeights))
    ensures "dag_custom" in DefaultConfig.MiddayWeights
  {
    DefaultFacts.TimeBasedEntry();
    assert DefaultConfig.TimeBased["midday"] == Obj(DefaultConfig.MiddayWeights);
    assert ["time_based", "midday"][1..] == ["midday"];
    assert ["midday"][1..] == [];
  }

  lemma DefaultFinalSet()
    ensures Config.Lookup(Obj(DefaultConfig.Weights), ["time_based", "final"]) == Some(Obj(DefaultConfig.FinalWeights))
    ensures "dag_custom" in DefaultConfig.FinalWeights
  {
    DefaultFacts.TimeBasedEntry();
    assert DefaultConfig.TimeBased["final"] == Obj(DefaultConfig.FinalWeights);
    assert ["time_based", "final"][1..] == ["final"];
    assert ["final"][1..] == [];
  }

  lemma DefaultDefinitions()
    ensures Config.GetConfigValue(DefaultConfig.Tree, WeightsPath + ["time_based_definitions"], JObj(map[])) ==
            Obj(DefaultConfig.TimeBasedDefinitions)
  {
    DefaultWeightsAt(["time_based_definitions"]);
    assert ["time_based_definitions"][1..] == [];
    assert DefaultConfig.Weights["time_based_definitions"] == Obj(DefaultConfig.TimeBasedDefinitions);
  }

  lemma DefaultLogic()
    ensures DictGet(Config.GetConfigValue(DefaultConfig.Tree, WeightsPath, JObj(map[])), "selection_logic",
                    Str("time_based")) == Returns(Str("time_based"))
  {
    DefaultFacts.WeightsSection();
    assert WeightsPath == ["data_processor_settings", "weights"];
    Config.FoundInLoaded(DefaultConfig.Tree, WeightsPath, JObj(map[]), Obj(DefaultConfig.Weights));
    SelectionLogicEntry();
  }

  lemma SelectionLogicEntry()
    ensures DictGet(Obj(DefaultConfig.Weights), "selection_logic", Str("time_based")) == Returns(Str("time_based"))
  {
    assert DefaultConfig.Weights["selection_logic"] == Str("time_based");
  }

  lemma DefaultTimeSet(now: TimeOfDay)
    ensures TimeSet(DefaultConfig.Tree, now) == Returns(Some(DefaultPeriod(Bucket(now, MorningEndDefault, MiddayEndDefault))))
  {
    DefaultDefinitions();
    DefaultBoundaries();
    var key := Bucket(now, MorningEndDefault, MiddayEndDefault);
    DefaultPeriodSet(key);
    TimeSetSteps(DefaultConfig.Tree, now, Obj(DefaultConfig.TimeBasedDefinitions), (MorningEndDefault, MiddayEndDefault),
                 Obj(DefaultPeriod(key)));
  }

  /** `TimeSet` from the values its steps read. */
  lemma TimeSetSteps(config: Json, now: TimeOfDay, defs: Json, bounds: (TimeOfDay, TimeOfDay), candidate: Json)
    requires Config.GetConfigValue(config, WeightsPath + ["time_based_definitions"], JObj(map[])) == defs
    requires Boundaries(defs) == Returns(bounds)
    requires Config.GetConfigValue(config, WeightsPath + ["time_based", Bucket(now, bounds.0, bounds.1)], JNull) == candidate
    ensures TimeSet(config, now) == Returns(if IsNonEmptyObj(candidate) then Some(candidate.fields) else None)
  {
  }

  /** With the built-in configuration the weights follow the clock: the
      morning set before 11:00, the midday set before 14:00, the final set
      after. */
  lemma DefaultSelection(now: TimeOfDay, ivContext: Json)
    ensures Before(now, MorningEndDefault) ==>
            SelectedSet(DefaultConfig.Tree, now, ivContext) == Returns(Some(DefaultConfig.MorningWeights))
    ensures !Before(now, MorningEndDefault) && Before(now, MiddayEndDefault) ==>
            SelectedSet(DefaultConfig.Tree, now, ivContext) == Returns(Some(DefaultConfig.MiddayWeights))
    ensures !Before(now, MiddayEndDefault) ==>
            SelectedSet(DefaultConfig.Tree, now, ivContext) == Returns(Some(DefaultConfig.FinalWeights))
  {
    DefaultLogic();
    DefaultTimeSet(now);
  }

  /** A path under the built-in `weights` section. */
  lemma DefaultWeightsAt(rest: seq<string>)
    ensures Config.Lookup(DefaultConfig.Tree, WeightsPath + rest) == Config.Lookup(Obj(DefaultConfig.Weights), rest)
  {
    Config.LookupAppend(DefaultConfig.Tree, WeightsPath, rest);
    DefaultFacts.WeightsSection();
    assert WeightsPath == ["data_processor_settings", "weights"];
  }

  // ---------------------------------------------------------------------
  // Component keys

  const BaseKeys: set<string> := {"dag_custom", "tdpi", "vri"}

  function NormKey(name: string): string {
    "sdag_" + name + "_norm"
  }

  /** What one item of `enabled` contributes: an unhashable item raises
      `TypeError`; an item naming a methodology whose config is a dict with
      `weight_in_mspi > 0` gives its normalised key; a weight that cannot be
      compared with 0 raises `TypeError`; anything else gives nothing. */
  function ItemKey(methods: map<string, Json>, item: Json): (r: Outcome<Option<string>>)
    ensures r.Raises? ==> r.error == TypeError
    ensures r.Returns? && r.value.Some? ==> item.JStr? && r.value.value == NormKey(item.s)
  {
    if !Hashable(item) then Raises(TypeError)
    else if !item.JStr? then Returns(None)
    else
      var mc := Get(methods, item.s, JObj(map[]));
      if !mc.JObj? then Returns(None)
      else
        var positive :- GreaterThanZero(Get(mc.fields, "weight_in_mspi", Real(0.0)));
        Returns(if positive then Some(NormKey(item.s)) else None)
  }

  function SdagKeys(methods: map<string, Json>, items: set<Json>): (r: Outcome<set<string>>)
    ensures r.Raises? <==> exists x :: x in items && ItemKey(methods, x).Raises?
    ensures r.Returns? ==> forall k :: k in r.value <==>
      exists x :: x in items && ItemKey(methods, x) == Returns(Some(k))
  {
    if exists x :: x in items && ItemKey(methods, x).Raises? then Raises(TypeError)
    else Returns(set x | x in items && ItemKey(methods, x).value.Some? :: ItemKey(methods, x).value.value)
  }

  const DagPath: seq<string> := ["strategy_settings", "dag_methodologies"]

  /** `mspi_base_components_list` plus the normalised keys of the enabled
      methodologies with positive weight. An `enabled` value that cannot be
      iterated raises `TypeError`. */
  function ComponentKeys(config: Json): (r: Outcome<set<string>>)
    ensures r.Returns? ==> BaseKeys <= r.value
    ensures !Config.GetConfigValue(config, DagPath, JObj(map[])).JObj? ==> r == Returns(BaseKeys)
  {
    var dag := Config.GetConfigValue(config, DagPath, JObj(map[]));
    if !dag.JObj? then Returns(BaseKeys)
    else
      var items :- IterItems(Get(dag.fields, "enabled", JList([])));
      var extra :- SdagKeys(dag.fields, items);
      Returns(BaseKeys + extra)
  }

  /** The keys are exactly the three base keys and `sdag_<m>_norm` for every
      enabled name `m` whose methodology config is a dict with a positive
      weight. */
  lemma ComponentKeysExact(config: Json, dag: map<string, Json>, enabled: seq<Json>, k: string)
    requires Config.GetConfigValue(config, DagPath, JObj(map[])) == JObj(dag)
    requires Get(dag, "enabled", JList([])) == JList(enabled)
    requires ComponentKeys(config).Returns?
    ensures k in ComponentKeys(config).value <==>
      k in BaseKeys || exists m :: JStr(m) in enabled && k == NormKey(m) && PositiveWeight(dag, m)
  {
    var items := set x | x in enabled;
    assert IterItems(JList(enabled)) == Returns(items);
    var extra := SdagKeys(dag, items);
    assert ComponentKeys(config) == Returns(BaseKeys + extra.value);
    if k in extra.value {
      var x :| x in items && ItemKey(dag, x) == Returns(Some(k));
      ItemKeyPositive(dag, x.s);
    }
    if exists m :: JStr(m) in enabled && k == NormKey(m) && PositiveWeight(dag, m) {
      var m :| JStr(m) in enabled && k == NormKey(m) && PositiveWeight(dag, m);
      ItemKeyPositive(dag, m);
      assert JStr(m) in items;
    }
  }

  /** The methodology's config is a dict whose `weight_in_mspi` is above 0. */
  predicate PositiveWeight(methods: map<string, Json>, name: string) {
    name in methods && methods[name].JObj? &&
    GreaterThanZero(Get(methods[name].fields, "weight_in_mspi", Real(0.0))) == Returns(true)
  }

  /** A name contributes its key exactly when its weight is positive. */
  lemma ItemKeyPositive(methods: map<string, Json>, name: string)
    ensures ItemKey(methods, JStr(name)) == Returns(Some(NormKey(name))) <==> PositiveWeight(methods, name)
  {
    if name !in methods {
      assert GreaterThanZero(Real(0.0)) == Returns(false);
    }
  }

  /** The keys the built-in configuration gives: the base keys and the
      three enabled methodologies with weight 0.1 (`directional` has weight
      0.0 and is left out). */
  const DefaultKeys: set<string> := BaseKeys + {NormKey("multiplicative"), NormKey("weighted"),
                                                NormKey("volatility_focused")}

  const DefaultEnabled: seq<Json> := [JStr("multiplicative"), JStr("directional"), JStr("weighted"),
                                      JStr("volatility_focused")]

  lemma DefaultComponentKeys()
    ensures ComponentKeys(DefaultConfig.Tree) == Returns(DefaultKeys)
  {
    DefaultDag();
    DefaultEnabledList();
    DefaultItemKeys();
    var items := set x | x in DefaultEnabled;
    EnabledKeys(DefaultConfig.DagMethodologies, items);
    ComponentKeysSteps(DefaultConfig.Tree, DefaultConfig.DagMethodologies, DefaultEnabled,
                       {NormKey("multiplicative"), NormKey("weighted"), NormKey("volatility_focused")});
  }

  /** `ComponentKeys` from the values its steps read. */
  lemma ComponentKeysSteps(config: Json, dag: map<string, Json>, enabled: seq<Json>, extra: set<string>)
    requires Config.GetConfigValue(config, DagPath, JObj(map[])) == JObj(dag)
    requires Get(dag, "enabled", JList([])) == JList(enabled)
    requires SdagKeys(dag, set x | x in enabled) == Returns(extra)
    ensures ComponentKeys(config) == Returns(BaseKeys + extra)
  {
  }

  lemma EnabledKeys(methods: map<string, Json>, items: set<Json>)
    requires items == set x | x in DefaultEnabled
    requires ItemKey(methods, JStr("multiplicative")) == Returns(Some(NormKey("multiplicative")))
    requires ItemKey(methods, JStr("directional")) == Returns(None)
    requires ItemKey(methods, JStr("weighted")) == Returns(Some(NormKey("weighted")))
    requires ItemKey(methods, JStr("volatility_focused")) == Returns(Some(NormKey("volatility_focused")))
    ensures SdagKeys(methods, items) == Returns({NormKey("multiplicative"), NormKey("weighted"), NormKey("volatility_focused")})
  {
    assert forall x :: x in items <==> x == JStr("multiplicative") || x == JStr("directional") ||
                                       x == JStr("weighted") || x == JStr("volatility_focused");
    var extra := SdagKeys(methods, items);
    assert extra.Returns?;
    var want := {NormKey("multiplicative"), NormKey("weighted"), NormKey("volatility_focused")};
    forall k
      ensures k in extra.value <==> k in want
    {
      if k == NormKey("multiplicative") {
        assert JStr("multiplicative") in items;
      } else if k == NormKey("weighted") {
        assert JStr("weighted") in items;
      } else if k == NormKey("volatility_focused") {
        assert JStr("volatility_focused") in items;
      }
    }
    assert extra.value == want;
  }

  lemma DefaultDag()
    ensures Config.GetConfigValue(DefaultConfig.Tree, DagPath, JObj(map[])) == Obj(DefaultConfig.DagMethodologies)
  {
    DefaultFacts.DagSection();
    assert DagPath == ["strategy_settings", "dag_methodologies"];
  }

  lemma DefaultEnabledList()
    ensures Get(DefaultConfig.DagMethodologies, "enabled", JList([])) == JList(DefaultEnabled)
  {
  }

  lemma DefaultItemKeys()
    ensures ItemKey(DefaultConfig.DagMethodologies, JStr("multiplicative")) == Returns(Some(NormKey("multiplicative")))
    ensures ItemKey(DefaultConfig.DagMethodologies, JStr("directional")) == Returns(None)
    ensures ItemKey(DefaultConfig.DagMethodologies, JStr("weighted")) == Returns(Some(NormKey("weighted")))
    ensures ItemKey(DefaultConfig.DagMethodologies, JStr("volatility_focused")) ==
            Returns(Some(NormKey("volatility_focused")))
  {
    DefaultItemKey("multiplicative", 0.1);
    DefaultItemKey("directional", 0.0);
    DefaultItemKey("weighted", 0.1);
    DefaultItemKey("volatility_focused", 0.1);
  }

  lemma DefaultItemKey(name: string, w: real)
    requires (name == "multiplicative" && w == 0.1) || (name == "directional" && w == 0.0) ||
             (name == "weighted" && w == 0.1) || (name == "volatility_focused" && w == 0.1)
    ensures ItemKey(DefaultConfig.DagMethodologies, JStr(name)) == Returns(if w > 0.0 then Some(NormKey(name)) else None)
  {
    DefaultMethodWeight(name, w);
    assert GreaterThanZero(Real(w)) == Returns(w > 0.0);
  }

  lemma DefaultMethodWeight(name: string, w: real)
    requires (name == "multiplicative" && w == 0.1) || (name == "directional" && w == 0.0) ||
             (name == "weighted" && w == 0.1) || (name == "volatility_focused" && w == 0.1)
    ensures name in DefaultConfig.DagMethodologies && DefaultConfig.DagMethodologies[name].JObj?
    ensures Get(DefaultConfig.DagMethodologies[name].fields, "weight_in_mspi", Real(0.0)) == Real(w)
  {
  }

  // ---------------------------------------------------------------------
  // The weights

  /** `float(selected.get(key, 0.0))`, or 0.0 when `float()` rejects it. */
  function WeightValue(selected: map<string, Json>, key: string): (w: Float)
    ensures key !in selected ==> w == Zero
    ensures key in selected && selected[key].JNum? ==> w == selected[key].f
    ensures key in selected && (selected[key].JNull? || selected[key].JList? || selected[key].JObj?) ==> w == Zero
    ensures key in selected ==>
      w == if ToFloat(selected[key]).Returns? then ToFloat(selected[key]).value else Zero
    ensures key in selected && selected[key].JInt? ==> w == Finite(selected[key].i as real)
    ensures key in selected && selected[key].JBool? ==> w == Finite(if selected[key].b then 1.0 else 0.0)
    ensures key in selected && selected[key].JStr? ==>
      w == match Text.ParseNumber(selected[key].s) case Some(f) => f case None => Zero
  {
    match ToFloat(Get(selected, key, Real(0.0)))
    case Returns(f) => f
    case Raises(_) => Zero
  }

  /** A weight written as the text of a whole number reads as that number. */
  lemma TextWeight(selected: map<string, Json>, key: string, n: nat)
    requires key in selected && selected[key] == JStr(Text.NatToDecimal(n))
    ensures WeightValue(selected, key) == Finite(n as real)
  {
    Text.NatTextParses(n);
  }

  /** The set the weights are read from: the selected one, or the fallback. */
  function Chosen(selected: Option<map<string, Json>>): (r: map<string, Json>)
    ensures selected.Some? ==> r == selected.value
    ensures selected.None? ==> r != map[]
  {
    match selected
    case Some(m) => m
    case None => UltimateFallback()
  }

  /** One weight per key, read from one set. */
  function WeightsFrom(selected: map<string, Json>, keys: set<string>): (r: map<string, Float>)
    ensures r.Keys == keys
  {
    map k | k in keys :: WeightValue(selected, k)
  }

  /** What `get_weights` returns: one weight per component key, read from
      the selected set or the fallback. */
  function WeightsSpec(config: Json, now: TimeOfDay, ivContext: Json): (r: Outcome<map<string, Float>>)
    ensures r.Returns? ==> ComponentKeys(config).Returns? && r.value.Keys == ComponentKeys(config).value
  {
    var selected :- SelectedSet(config, now, ivContext);
    var keys :- ComponentKeys(config);
    Returns(WeightsFrom(Chosen(selected), keys))
  }

  /** `get_weights`: selects the set, derives the keys, then fills the result
      one key at a time. */
  method GetWeights(config: Json, now: TimeOfDay, ivContext: Json) returns (r: Outcome<map<string, Float>>)
    ensures r == WeightsSpec(config, now, ivContext)
  {
    var selectedOr := SelectedSet(config, now, ivContext);
    if selectedOr.Raises? {
      return Raises(selectedOr.error);
    }
    var selected := Chosen(selectedOr.value);
    var keysOr := ComponentKeys(config);
    if keysOr.Raises? {
      return Raises(keysOr.error);
    }
    var keys := keysOr.value;
    var weights := FillWeights(selected, keys);
    return Returns(weights);
  }

  /** The fill loop: `weights[key] = float(...)` for each key. */
  method FillWeights(selected: map<string, Json>, keys: set<string>) returns (weights: map<string, Float>)
    ensures weights == WeightsFrom(selected, keys)
  {
    weights := map[];
    var todo := keys;
    while todo != {}
      invariant todo <= keys
      invariant weights == map k | k in keys - todo :: WeightValue(selected, k)
      decreases todo
    {
      var key :| key in todo;
      weights := weights[key := WeightValue(selected, key)];
      todo := todo - {key};
    }
  }

  /** When nothing usable was selected, every weight comes from the built-in
      midday set. */
  lemma FallbackIsMidday(config: Json, now: TimeOfDay, ivContext: Json, k: string)
    requires SelectedSet(config, now, ivContext) == Returns(None)
    requires WeightsSpec(config, now, ivContext).Returns?
    requires k in WeightsSpec(config, now, ivContext).value
    ensures WeightsSpec(config, now, ivContext).value[k] == WeightValue(DefaultConfig.MiddayWeights, k)
  {
    UltimateFallbackIsMidday();
  }

  /** A selected set provides every weight it has, as `float()` reads it. */
  lemma SelectedSetUsed(config: Json, now: TimeOfDay, ivContext: Json, set_: map<string, Json>, k: string)
    requires SelectedSet(config, now, ivContext) == Returns(Some(set_))
    requires WeightsSpec(config, now, ivContext).Returns?
    requires k in WeightsSpec(config, now, ivContext).value
    ensures WeightsSpec(config, now, ivContext).value[k] == WeightValue(set_, k)
  {
  }

  /** `WeightsSpec` from the set and the keys it reads. */
  lemma WeightsSteps(config: Json, now: TimeOfDay, ivContext: Json, selected: Option<map<string, Json>>, keys: set<string>)
    requires SelectedSet(config, now, ivContext) == Returns(selected)
    requires ComponentKeys(config) == Returns(keys)
    ensures WeightsSpec(config, now, ivContext) == Returns(WeightsFrom(Chosen(selected), keys))
  {
  }

  /** With the built-in configuration every default key gets the weight of
      the current period's set, 0.0 where that set has no entry: in the
      morning `sdag_weighted_norm` weighs 0.1, at midday it weighs 0.0. */
  lemma DefaultWeights(now: TimeOfDay, ivContext: Json)
    ensures WeightsSpec(DefaultConfig.Tree, now, ivContext) ==
            Returns(WeightsFrom(DefaultPeriod(Bucket(now, MorningEndDefault, MiddayEndDefault)), DefaultKeys))
    ensures Before(now, MorningEndDefault) ==>
            WeightsSpec(DefaultConfig.Tree, now, ivContext).value[NormKey("weighted")] == Finite(0.1)
    ensures !Before(now, MorningEndDefault) && Before(now, MiddayEndDefault) ==>
            WeightsSpec(DefaultConfig.Tree, now, ivContext).value[NormKey("weighted")] == Zero
  {
    DefaultTimeSet(now);
    DefaultLogic();
    DefaultComponentKeys();
    var key := Bucket(now, MorningEndDefault, MiddayEndDefault);
    WeightsSteps(DefaultConfig.Tree, now, ivContext, Some(DefaultPeriod(key)), DefaultKeys);
    DefaultWeightedEntries();
  }

  lemma DefaultWeightedEntries()
    ensures NormKey("weighted") in DefaultConfig.MorningWeights
    ensures DefaultConfig.MorningWeights[NormKey("weighted")] == Real(0.1)
    ensures NormKey("weighted") !in DefaultConfig.MiddayWeights
  {
    assert NormKey("weighted") == "sdag_weighted_norm";
  }
}
