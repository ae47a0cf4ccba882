/** The built-in configuration tree `DEFAULT_CONFIG` of the trading system
    (elite_options_system/core/strategies.py:32-163), written out section by
    section; numbers written with a decimal point in the source are `Real`,
    the others `Int`. */
module DefaultConfig {
  import opened Json

  const SignalActivation: map<string, Json> := map[
    "directional" := Bool(true), "volatility_expansion" := Bool(true),
    "volatility_contraction" := Bool(true), "time_decay_pin_risk" := Bool(true),
    "time_decay_charm_cascade" := Bool(true), "complex_structure_change" := Bool(true),
    "complex_flow_divergence" := Bool(true), "complex_sdag_conviction" := Bool(true)]

  const SystemSettings: map<string, Json> := map[
    "log_level" := Str("INFO"),
    "df_history_maxlen" := Int(5),
    "signal_activation" := Obj(SignalActivation)]

  const MorningWeights: map<string, Json> := map[
    "dag_custom" := Real(0.3), "tdpi" := Real(0.2), "vri" := Real(0.2),
    "sdag_multiplicative_norm" := Real(0.1), "sdag_weighted_norm" := Real(0.1),
    "sdag_volatility_focused_norm" := Real(0.1)]

  const MiddayWeights: map<string, Json> := map[
    "dag_custom" := Real(0.3), "tdpi" := Real(0.3), "vri" := Real(0.2),
    "sdag_multiplicative_norm" := Real(0.2)]

  const FinalWeights: map<string, Json> := map[
    "dag_custom" := Real(0.2), "tdpi" := Real(0.4), "vri" := Real(0.2),
    "sdag_multiplicative_norm" := Real(0.2)]

  const LowIvWeights: map<string, Json> := map[
    "dag_custom" := Real(0.45), "tdpi" := Real(0.2), "vri" := Real(0.15),
    "sdag_multiplicative_norm" := Real(0.2)]

  const HighIvWeights: map<string, Json> := map[
    "dag_custom" := Real(0.3), "tdpi" := Real(0.25), "vri" := Real(0.25),
    "sdag_multiplicative_norm" := Real(0.2)]

  const TimeBasedDefinitions: map<string, Json> := map[
    "morning_end" := Str("11:00:00"), "midday_end" := Str("14:00:00"),
    "market_open" := Str("09:30:00"), "market_close" := Str("16:00:00")]

  const TimeBased: map<string, Json> := map[
    "morning" := Obj(MorningWeights), "midday" := Obj(MiddayWeights), "final" := Obj(FinalWeights)]

  const VolatilityBased: map<string, Json> := map[
    "iv_percentile_threshold" := Int(50), "low_iv" := Obj(LowIvWeights), "high_iv" := Obj(HighIvWeights)]

  const Weights: map<string, Json> := map[
    "selection_logic" := Str("time_based"),
    "time_based" := Obj(TimeBased),
    "volatility_based" := Obj(VolatilityBased),
    "time_based_definitions" := Obj(TimeBasedDefinitions)]

  function Coefficient(): Json {
    Obj(map["aligned" := Real(1.3), "opposed" := Real(0.7), "neutral" := Real(1.0)])
  }

  const AtrFallback: map<string, Json> := map[
    "type" := Str("percentage_of_price"), "percentage" := Real(0.005), "min_value" := Real(1.0)]

  const Approximations: map<string, Json> := map["tdpi_atr_fallback" := Obj(AtrFallback)]

  const DataProcessorSettings: map<string, Json> := map[
    "weights" := Obj(Weights),
    "coefficients" := Obj(map["dag_alpha" := Coefficient(), "tdpi_beta" := Coefficient(),
                              "vri_gamma" := Coefficient()]),
    "factors" := Obj(map["tdpi_gaussian_width" := Real(-0.5),
                         "vri_vol_trend_fallback_factor" := Real(0.95)]),
    "approximations" := Obj(Approximations),
    "iv_context_parameters" := Obj(map["iv_percentile" := Str("iv_percentile_30d")])]

  function Fixed(value: real): Json {
    Obj(map["type" := Str("fixed"), "value" := Real(value), "fallback_value" := Real(value)])
  }

  const Thresholds: map<string, Json> := map[
    "sai_high_conviction" := Fixed(0.7),
    "ssi_structure_change" := Obj(map["type" := Str("relative_percentile"), "percentile" := Int(15),
                                      "fallback_value" := Real(0.3)]),
    "ssi_vol_contraction" := Obj(map["type" := Str("relative_percentile"), "percentile" := Int(85),
                                     "fallback_value" := Real(0.7)]),
    "ssi_conviction_split" := Fixed(0.2),
    "cfi_flow_divergence" := Obj(map["type" := Str("fixed"), "tiers" := List([Real(0.75), Real(1.25)]),
                                     "fallback_value" := Real(0.75)]),
    "vol_expansion_vri_trigger" := Obj(map["type" := Str("relative_mean_factor"), "factor" := Real(1.5),
                                           "fallback_value" := Real(0.5)]),
    "vol_expansion_vfi_trigger" := Fixed(1.2),
    "vol_contraction_vri_trigger" := Obj(map["type" := Str("relative_mean_factor"), "factor" := Real(0.5),
                                             "fallback_value" := Real(0.2)]),
    "vol_contraction_vfi_trigger" := Fixed(0.8),
    "pin_risk_tdpi_trigger" := Obj(map["type" := Str("relative_mean_factor"), "factor" := Real(1.5),
                                       "fallback_value" := Real(0.4)]),
    "charm_cascade_ctr_trigger" := Fixed(1.2),
    "charm_cascade_tdfi_trigger" := Fixed(1.2),
    "arfi_strong_flow_threshold" := Fixed(1.5),
    "arfi_low_flow_threshold" := Fixed(0.5),
    "sdag_vf_strong_negative_threshold" := Fixed(-0.5)]

  const DagMethodologies: map<string, Json> := map[
    "enabled" := List([Str("multiplicative"), Str("directional"), Str("weighted"), Str("volatility_focused")]),
    "multiplicative" := Obj(map["weight_in_mspi" := Real(0.1), "delta_weight_factor" := Real(0.5)]),
    "directional" := Obj(map["weight_in_mspi" := Real(0.0), "delta_weight_factor" := Real(0.5)]),
    "weighted" := Obj(map["enabled" := Bool(true), "weight_in_mspi" := Real(0.1), "w1_gamma" := Real(0.6),
                          "w2_delta" := Real(0.4)]),
    "volatility_focused" := Obj(map["enabled" := Bool(true), "weight_in_mspi" := Real(0.1),
                                    "delta_weight_factor" := Real(0.5)]),
    "min_agreement_for_conviction_signal" := Int(2)]

  const Recommendations: map<string, Json> := map[
    "min_directional_stars_to_issue" := Int(2), "min_volatility_stars_to_issue" := Int(2),
    "min_pinrisk_stars_to_issue" := Int(2), "min_caution_stars_to_issue" := Int(2),
    "min_reissue_time_seconds" := Int(300),
    "conviction_map_high" := Real(4.0), "conviction_map_high_medium" := Real(3.0),
    "conviction_map_medium" := Real(2.0), "conviction_map_medium_low" := Real(1.0),
    "conviction_map_base_one_star" := Real(0.5),
    "conv_mod_ssi_low" := Real(-1.0), "conv_mod_ssi_high" := Real(0.25),
    "conv_mod_vol_expansion" := Real(-0.5), "conv_mod_sdag_align" := Real(0.75),
    "conv_mod_sdag_oppose" := Real(-1.0)]

  const Exits: map<string, Json> := map[
    "contradiction_stars_threshold" := Int(4), "ssi_exit_stars_threshold" := Int(3),
    "mspi_flip_threshold" := Real(0.7), "arfi_exit_stars_threshold" := Int(4)]

  const Targets: map<string, Json> := map[
    "min_target_atr_distance" := Real(0.75), "nvp_support_quantile" := Real(0.90),
    "nvp_resistance_quantile" := Real(0.10), "target_atr_stop_loss_multiplier" := Real(1.5),
    "target_atr_target1_multiplier_no_sr" := Real(2.0), "target_atr_target2_multiplier_no_sr" := Real(3.5),
    "target_atr_target2_multiplier_from_t1" := Real(2.0)]

  const ColumnSources: map<string, Json> := map[
    "gamma_exposure_source_col" := Str("gxoi"), "delta_exposure_source_col" := Str("dxoi"),
    "skew_adjusted_gamma_source_col" := Str("sgxoi"), "use_skew_adjusted_for_sdag" := Bool(false),
    "direct_delta_buy_col" := Str("deltas_buy"), "direct_delta_sell_col" := Str("deltas_sell"),
    "direct_gamma_buy_col" := Str("gammas_buy"), "direct_gamma_sell_col" := Str("gammas_sell"),
    "direct_vega_buy_col" := Str("vegas_buy"), "direct_vega_sell_col" := Str("vegas_sell"),
    "direct_theta_buy_col" := Str("thetas_buy"), "direct_theta_sell_col" := Str("thetas_sell"),
    "proxy_delta_flow_col" := Str("dxvolm"), "proxy_gamma_flow_col" := Str("gxvolm"),
    "proxy_vega_flow_col" := Str("vxvolm"), "proxy_theta_flow_col" := Str("txvolm"),
    "proxy_charm_flow_col" := Str("charmxvolm"), "proxy_vanna_flow_col" := Str("vannaxvolm"),
    "proxy_vomma_flow_col" := Str("vommaxvolm")]

  const StrategySettings: map<string, Json> := ColumnSources + map[
    "thresholds" := Obj(Thresholds),
    "dag_methodologies" := Obj(DagMethodologies),
    "recommendations" := Obj(Recommendations),
    "exits" := Obj(Exits),
    "targets" := Obj(Targets)]

  const Validation: map<string, Json> := map[
    "required_top_level_sections" := List([Str("system_settings"), Str("data_processor_settings"),
                                          Str("strategy_settings")]),
    "weights_sum_tolerance" := Real(0.01)]

  const Fields: map<string, Json> := map[
    "version" := Str("2.4.1-EliteSchema-Stateful-FullConfig-ProductionReady"),
    "system_settings" := Obj(SystemSettings),
    "data_processor_settings" := Obj(DataProcessorSettings),
    "strategy_settings" := Obj(StrategySettings),
    "visualization_settings" := Obj(map["mspi_visualizer" := Obj(map["column_names" :=
                                   Obj(map["net_value_pressure" := Str("net_value_pressure")])])]),
    "validation" := Obj(Validation)]

  /** `DEFAULT_CONFIG`. */
  const Tree: Json := Obj(Fields)
}
