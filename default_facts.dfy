/** Where the sections of `DEFAULT_CONFIG` (elite_options_system/core/strategies.py:32-163)
    sit in the tree, stated one entry at a time so that each fact about the
    large constant is established on its own. */
module DefaultFacts {
  import opened Outcomes
  import opened Json
  import Config
  import DefaultConfig

  lemma SystemSection()
    ensures "system_settings" in DefaultConfig.Fields
    ensures DefaultConfig.Fields["system_settings"] == Obj(DefaultConfig.SystemSettings)
  {
  }

  lemma HistoryMaxlenEntry()
    ensures "df_history_maxlen" in DefaultConfig.SystemSettings
    ensures DefaultConfig.SystemSettings["df_history_maxlen"] == Int(5)
  {
  }

  /** `system_settings.df_history_maxlen`. */
  lemma HistoryMaxlenSection()
    ensures Config.Lookup(DefaultConfig.Tree, ["system_settings", "df_history_maxlen"]) == Some(Int(5))
  {
    SystemSection();
    HistoryMaxlenEntry();
    Config.LookupPair(DefaultConfig.Fields, "system_settings", "df_history_maxlen");
  }

  lemma ProcessorSection()
    ensures "data_processor_settings" in DefaultConfig.Fields
    ensures DefaultConfig.Fields["data_processor_settings"] == Obj(DefaultConfig.DataProcessorSettings)
  {
  }

  lemma StrategySection()
    ensures "strategy_settings" in DefaultConfig.Fields
    ensures DefaultConfig.Fields["strategy_settings"] == Obj(DefaultConfig.StrategySettings)
  {
  }

  lemma WeightsEntry()
    ensures "weights" in DefaultConfig.DataProcessorSettings
    ensures DefaultConfig.DataProcessorSettings["weights"] == Obj(DefaultConfig.Weights)
  {
  }

  /** `data_processor_settings.weights`. */
  lemma WeightsSection()
    ensures Config.Lookup(DefaultConfig.Tree, ["data_processor_settings", "weights"]) == Some(Obj(DefaultConfig.Weights))
  {
    ProcessorSection();
    WeightsEntry();
    Config.LookupPair(DefaultConfig.Fields, "data_processor_settings", "weights");
  }

  lemma TimeBasedEntry()
    ensures "time_based" in DefaultConfig.Weights
    ensures DefaultConfig.Weights["time_based"] == Obj(DefaultConfig.TimeBased)
  {
  }

  lemma ApproximationsEntry()
    ensures "approximations" in DefaultConfig.DataProcessorSettings
    ensures DefaultConfig.DataProcessorSettings["approximations"] == Obj(DefaultConfig.Approximations)
    ensures "tdpi_atr_fallback" in DefaultConfig.Approximations
    ensures DefaultConfig.Approximations["tdpi_atr_fallback"] == Obj(DefaultConfig.AtrFallback)
  {
  }

  /** `data_processor_settings.approximations.tdpi_atr_fallback`. */
  lemma FallbackSection()
    ensures Config.Lookup(DefaultConfig.Tree, ["data_processor_settings", "approximations", "tdpi_atr_fallback"]) ==
            Some(Obj(DefaultConfig.AtrFallback))
  {
    ProcessorSection();
    ApproximationsEntry();
    var p := ["data_processor_settings", "approximations", "tdpi_atr_fallback"];
    assert p == ["data_processor_settings"] + ["approximations", "tdpi_atr_fallback"];
    Config.LookupCons(DefaultConfig.Fields, "data_processor_settings", ["approximations", "tdpi_atr_fallback"]);
    Config.LookupPair(DefaultConfig.DataProcessorSettings, "approximations", "tdpi_atr_fallback");
  }

  lemma FallbackEntries()
    ensures "min_value" in DefaultConfig.AtrFallback && DefaultConfig.AtrFallback["min_value"] == Real(1.0)
    ensures "type" in DefaultConfig.AtrFallback && DefaultConfig.AtrFallback["type"] == Str("percentage_of_price")
    ensures "percentage" in DefaultConfig.AtrFallback && DefaultConfig.AtrFallback["percentage"] == Real(0.005)
  {
  }

  lemma DagEntry()
    ensures "dag_methodologies" in DefaultConfig.StrategySettings
    ensures DefaultConfig.StrategySettings["dag_methodologies"] == Obj(DefaultConfig.DagMethodologies)
  {
  }

  /** `strategy_settings.dag_methodologies`. */
  lemma DagSection()
    ensures Config.Lookup(DefaultConfig.Tree, ["strategy_settings", "dag_methodologies"]) ==
            Some(Obj(DefaultConfig.DagMethodologies))
  {
    StrategySection();
    DagEntry();
    Config.LookupPair(DefaultConfig.Fields, "strategy_settings", "dag_methodologies");
  }

  lemma RecommendationsEntry()
    ensures "recommendations" in DefaultConfig.StrategySettings
    ensures DefaultConfig.StrategySettings["recommendations"] == Obj(DefaultConfig.Recommendations)
  {
  }

  /** `strategy_settings.recommendations`. */
  lemma RecommendationsSection()
    ensures Config.Lookup(DefaultConfig.Tree, ["strategy_settings", "recommendations"]) ==
            Some(Obj(DefaultConfig.Recommendations))
  {
    StrategySection();
    RecommendationsEntry();
    Config.LookupPair(DefaultConfig.Fields, "strategy_settings", "recommendations");
  }

  lemma CutoffEntries()
    ensures "conviction_map_high" in DefaultConfig.Recommendations
    ensures DefaultConfig.Recommendations["conviction_map_high"] == Real(4.0)
    ensures "conviction_map_high_medium" in DefaultConfig.Recommendations
    ensures DefaultConfig.Recommendations["conviction_map_high_medium"] == Real(3.0)
    ensures "conviction_map_medium" in DefaultConfig.Recommendations
    ensures DefaultConfig.Recommendations["conviction_map_medium"] == Real(2.0)
    ensures "conviction_map_medium_low" in DefaultConfig.Recommendations
    ensures DefaultConfig.Recommendations["conviction_map_medium_low"] == Real(1.0)
    ensures "conviction_map_base_one_star" in DefaultConfig.Recommendations
    ensures DefaultConfig.Recommendations["conviction_map_base_one_star"] == Real(0.5)
  {
  }

  lemma ThresholdsEntry()
    ensures "thresholds" in DefaultConfig.StrategySettings
    ensures DefaultConfig.StrategySettings["thresholds"] == Obj(DefaultConfig.Thresholds)
  {
  }

  /** `strategy_settings.thresholds`. */
  lemma ThresholdsSection()
    ensures Config.Lookup(DefaultConfig.Tree, ["strategy_settings", "thresholds"]) == Some(Obj(DefaultConfig.Thresholds))
  {
    StrategySection();
    ThresholdsEntry();
    Config.LookupPair(DefaultConfig.Fields, "strategy_settings", "thresholds");
  }

  lemma SsiStructureChangeEntry()
    ensures "ssi_structure_change" in DefaultConfig.Thresholds
    ensures DefaultConfig.Thresholds["ssi_structure_change"] ==
      Obj(map["type" := Str("relative_percentile"), "percentile" := Int(15), "fallback_value" := Real(0.3)])
  {
  }

  lemma CfiFlowDivergenceEntry()
    ensures "cfi_flow_divergence" in DefaultConfig.Thresholds
    ensures DefaultConfig.Thresholds["cfi_flow_divergence"] ==
      Obj(map["type" := Str("fixed"), "tiers" := List([Real(0.75), Real(1.25)]), "fallback_value" := Real(0.75)])
  {
  }

  lemma SaiHighConvictionEntry()
    ensures "sai_high_conviction" in DefaultConfig.Thresholds
    ensures DefaultConfig.Thresholds["sai_high_conviction"] ==
      Obj(map["type" := Str("fixed"), "value" := Real(0.7), "fallback_value" := Real(0.7)])
  {
  }

  lemma VolExpansionVriEntry()
    ensures "vol_expansion_vri_trigger" in DefaultConfig.Thresholds
    ensures DefaultConfig.Thresholds["vol_expansion_vri_trigger"] ==
      Obj(map["type" := Str("relative_mean_factor"), "factor" := Real(1.5), "fallback_value" := Real(0.5)])
  {
  }
}
