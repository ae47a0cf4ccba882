/** The state `IntegratedTradingSystem.__init__` builds
    (elite_options_system/core/strategies.py:212-219): a history of processed
    frames bounded by a configured capacity, an empty list of active
    recommendations and a recommendation id counter at 0. */
module TradingSystem {
  import opened Outcomes
  import opened Json
  import Frames
  import Config
  import DefaultConfig
  import DefaultFacts

  const HistoryMaxlenPath: seq<string> := ["system_settings", "df_history_maxlen"]

  /** The capacity used when the configured one is not a positive int. */
  const DefaultHistoryMaxlen: nat := 5

  /** `isinstance(v, int) and v > 0`: a positive int, or `True`, which is
      the int 1. */
  predicate PositiveInt(v: Json) {
    AsPyInt(v).Some? && AsPyInt(v).value > 0
  }

  /** The capacity of the history deque: the configured value when it is a
      positive int, 5 otherwise. */
  function HistoryCapacity(config: Json): (n: nat)
    ensures n >= 1
    ensures var v := Config.GetConfigValue(config, HistoryMaxlenPath, Int(DefaultHistoryMaxlen));
      (PositiveInt(v) ==> n == AsPyInt(v).value) && (!PositiveInt(v) ==> n == DefaultHistoryMaxlen)
  {
    var v := Config.GetConfigValue(config, HistoryMaxlenPath, Int(DefaultHistoryMaxlen));
    if PositiveInt(v) then AsPyInt(v).value else DefaultHistoryMaxlen
  }

  /** The trading system's own state. */
  class IntegratedTradingSystem {
    /** The history deque: its contents and its `maxlen`. */
    var processedDfHistory: seq<Frames.Frame>
    var historyCapacity: nat
    var activeRecommendations: seq<map<string, Json>>
    var recommendationIdCounter: int
    var currentSymbolBeingManaged: Option<string>

    /** The history never holds more frames than its capacity, which is
        at least 1, and ids are never negative: what `__init__` establishes
        and what an append to the bounded history deque would preserve (the
        appending methods are not part of this model). */
    predicate Valid()
      reads this
    {
      historyCapacity >= 1 && |processedDfHistory| <= historyCapacity && recommendationIdCounter >= 0
    }

    /** `__init__` with the configuration already loaded and validated. */
    constructor (config: Json)
      ensures Valid()
      ensures historyCapacity == HistoryCapacity(config)
      ensures processedDfHistory == [] && activeRecommendations == []
      ensures recommendationIdCounter == 0 && currentSymbolBeingManaged == None
    {
      historyCapacity := HistoryCapacity(config);
      processedDfHistory := [];
      activeRecommendations := [];
      recommendationIdCounter := 0;
      currentSymbolBeingManaged := None;
    }
  }

  /** A loaded value that is not a positive int (0, a negative number, a
      float, text, `False`) is replaced by 5. */
  lemma RejectedCapacity(config: Json, v: Json)
    requires Config.Lookup(config, HistoryMaxlenPath) == Some(v) && v != JNull
    requires !PositiveInt(v)
    ensures HistoryCapacity(config) == 5
  {
    Config.FoundInLoaded(config, HistoryMaxlenPath, Int(DefaultHistoryMaxlen), v);
  }

  /** A loaded positive int is the capacity; `True` counts as 1. */
  lemma AcceptedCapacity(config: Json, v: Json)
    requires Config.Lookup(config, HistoryMaxlenPath) == Some(v)
    requires (v.JInt? && v.i > 0) || v == JBool(true)
    ensures HistoryCapacity(config) == if v.JInt? then v.i else 1
  {
    Config.FoundInLoaded(config, HistoryMaxlenPath, Int(DefaultHistoryMaxlen), v);
  }

  /** A configuration without the entry, or with `None` there, falls back to
      the built-in value, 5. */
  lemma MissingCapacity(config: Json)
    requires Config.Lookup(config, HistoryMaxlenPath).None? || Config.Lookup(config, HistoryMaxlenPath) == Some(JNull)
    ensures HistoryCapacity(config) == 5
  {
    DefaultFacts.HistoryMaxlenSection();
    assert HistoryMaxlenPath == ["system_settings", "df_history_maxlen"];
  }
}
