/** `map_score_to_stars` (elite_options_system/core/strategies.py:614-642):
    a conviction score becomes 0 to 5 stars by five inclusive cutoffs read
    from the `recommendations` section. */
module Stars {
  import opened Outcomes
  import opened Floats
  import opened Json
  import Config
  import DefaultConfig
  import DefaultFacts

  /** The five cutoffs, from the five-star one down to the one-star one. */
  datatype Cutoffs = Cutoffs(high: Float, highMedium: Float, medium: Float, mediumLow: Float, baseOne: Float)

  const RecommendationsPath: seq<string> := ["strategy_settings", "recommendations"]

  /** The score used: an int, a bool or a finite float as it is; anything
      else (None, NaN, an infinity, text, a container) counts as 0.0. */
  function ScoreValue(score: Json): (r: real)
    ensures score.JInt? ==> r == score.i as real
    ensures score.JNum? && score.f.Finite? ==> r == score.f.v
    ensures !score.JInt? && !score.JBool? && !(score.JNum? && score.f.Finite?) ==> r == 0.0
  {
    match score
    case JInt(i) => i as real
    case JBool(b) => if b then 1.0 else 0.0
    case JNum(Finite(v)) => v
    case _ => 0.0
  }

  /** `float(recommendations.get(name, default))` for the five cutoffs; a
      section that is not a dict raises `AttributeError`, a value `float()`
      rejects raises too. */
  function ReadCutoffs(config: Json): (r: Outcome<Cutoffs>)
    ensures !Config.GetConfigValue(config, RecommendationsPath, JObj(map[])).JObj? ==> r == Raises(AttributeError)
    ensures r.Raises? ==> r.error == AttributeError || r.error == TypeError || r.error == ValueError
  {
    var section := Config.GetConfigValue(config, RecommendationsPath, JObj(map[]));
    if !section.JObj? then Raises(AttributeError) else CutoffsFrom(section.fields)
  }

  function CutoffsFrom(section: map<string, Json>): (r: Outcome<Cutoffs>)
    ensures section == map[] ==> r == Returns(Cutoffs(Finite(4.0), Finite(3.0), Finite(2.0), Finite(1.0), Finite(0.5)))
    ensures r.Returns? ==>
      ToFloat(Get(section, "conviction_map_high", Real(4.0))) == Returns(r.value.high) &&
      ToFloat(Get(section, "conviction_map_high_medium", Real(3.0))) == Returns(r.value.highMedium) &&
      ToFloat(Get(section, "conviction_map_medium", Real(2.0))) == Returns(r.value.medium) &&
      ToFloat(Get(section, "conviction_map_medium_low", Real(1.0))) == Returns(r.value.mediumLow) &&
      ToFloat(Get(section, "conviction_map_base_one_star", Real(0.5))) == Returns(r.value.baseOne)
    ensures r.Raises? ==> r.error == TypeError || r.error == ValueError
  {
    var high :- ToFloat(Get(section, "conviction_map_high", Real(4.0)));
    var highMedium :- ToFloat(Get(section, "conviction_map_high_medium", Real(3.0)));
    var medium :- ToFloat(Get(section, "conviction_map_medium", Real(2.0)));
    var mediumLow :- ToFloat(Get(section, "conviction_map_medium_low", Real(1.0)));
    var baseOne :- ToFloat(Get(section, "conviction_map_base_one_star", Real(0.5)));
    Returns(Cutoffs(high, highMedium, medium, mediumLow, baseOne))
  }

  /** The if-chain: the first cutoff, from the top, that the score reaches
      decides the stars. */
  function StarsFor(score: real, c: Cutoffs): (n: nat)
    ensures n <= 5
    ensures n == 5 <==> Ge(Finite(score), c.high)
    ensures n == 0 <==> (!Ge(Finite(score), c.high) && !Ge(Finite(score), c.highMedium) &&
                         !Ge(Finite(score), c.medium) && !Ge(Finite(score), c.mediumLow) &&
                         !Ge(Finite(score), c.baseOne))
  {
    var s := Finite(score);
    if Ge(s, c.high) then 5
    else if Ge(s, c.highMedium) then 4
    else if Ge(s, c.medium) then 3
    else if Ge(s, c.mediumLow) then 2
    else if Ge(s, c.baseOne) then 1
    else 0
  }

  /** `map_score_to_stars`. */
  function MapScoreToStars(config: Json, score: Json): (r: Outcome<nat>)
    ensures r.Returns? ==> r.value <= 5
    ensures r.Returns? <==> ReadCutoffs(config).Returns?
  {
    var c :- ReadCutoffs(config);
    Returns(StarsFor(ScoreValue(score), c))
  }

  /** A higher score never gets fewer stars, whatever the cutoffs. */
  lemma StarsMonotone(s1: real, s2: real, c: Cutoffs)
    requires s1 <= s2
    ensures StarsFor(s1, c) <= StarsFor(s2, c)
  {
  }

  predicate Descending(c: Cutoffs) {
    Ge(c.high, c.highMedium) && Ge(c.highMedium, c.medium) && Ge(c.medium, c.mediumLow) &&
    Ge(c.mediumLow, c.baseOne)
  }

  function Met(s: real, t: Float): nat {
    if Ge(Finite(s), t) then 1 else 0
  }

  /** With descending cutoffs the stars are the number of cutoffs reached. */
  lemma StarsCountCutoffs(s: real, c: Cutoffs)
    requires Descending(c)
    ensures StarsFor(s, c) == Met(s, c.high) + Met(s, c.highMedium) + Met(s, c.medium) +
                              Met(s, c.mediumLow) + Met(s, c.baseOne)
  {
    var x := Finite(s);
    if Ge(x, c.high) {
      LeTransitive(c.highMedium, c.high, x);
      LeTransitive(c.medium, c.highMedium, x);
      LeTransitive(c.mediumLow, c.medium, x);
      LeTransitive(c.baseOne, c.mediumLow, x);
    } else if Ge(x, c.highMedium) {
      LeTransitive(c.medium, c.highMedium, x);
      LeTransitive(c.mediumLow, c.medium, x);
      LeTransitive(c.baseOne, c.mediumLow, x);
    } else if Ge(x, c.medium) {
      LeTransitive(c.mediumLow, c.medium, x);
      LeTransitive(c.baseOne, c.mediumLow, x);
    } else if Ge(x, c.mediumLow) {
      LeTransitive(c.baseOne, c.mediumLow, x);
    }
  }

  const DefaultCutoffs: Cutoffs := Cutoffs(Finite(4.0), Finite(3.0), Finite(2.0), Finite(1.0), Finite(0.5))

  lemma DefaultRecommendations()
    ensures Config.GetConfigValue(DefaultConfig.Tree, RecommendationsPath, JObj(map[])) == Obj(DefaultConfig.Recommendations)
  {
    DefaultFacts.RecommendationsSection();
  }

  /** The built-in cutoffs are 4.0, 3.0, 2.0, 1.0 and 0.5. */
  lemma DefaultReadCutoffs()
    ensures ReadCutoffs(DefaultConfig.Tree) == Returns(DefaultCutoffs)
  {
    DefaultRecommendations();
    DefaultFacts.CutoffEntries();
  }

  /** With the built-in cutoffs: 3.5 gives 4 stars, 4.0 gives 5, 0.4 gives
      0, and a non-finite or non-numeric score counts as 0. */
  lemma DefaultExamples()
    ensures MapScoreToStars(DefaultConfig.Tree, Real(3.5)) == Returns(4)
    ensures MapScoreToStars(DefaultConfig.Tree, Real(4.0)) == Returns(5)
    ensures MapScoreToStars(DefaultConfig.Tree, Real(0.4)) == Returns(0)
    ensures MapScoreToStars(DefaultConfig.Tree, Int(2)) == Returns(3)
    ensures MapScoreToStars(DefaultConfig.Tree, JNum(PosInf)) == Returns(0)
    ensures MapScoreToStars(DefaultConfig.Tree, Str("5")) == Returns(0)
  {
    DefaultReadCutoffs();
    DefaultStars();
    var t := DefaultConfig.Tree;
    ReadStars(t, Real(3.5), DefaultCutoffs);
    ReadStars(t, Real(4.0), DefaultCutoffs);
    ReadStars(t, Real(0.4), DefaultCutoffs);
    ReadStars(t, Int(2), DefaultCutoffs);
    ReadStars(t, JNum(PosInf), DefaultCutoffs);
    ReadStars(t, Str("5"), DefaultCutoffs);
  }

  lemma ReadStars(config: Json, score: Json, c: Cutoffs)
    requires ReadCutoffs(config) == Returns(c)
    ensures MapScoreToStars(config, score) == Returns(StarsFor(ScoreValue(score), c))
  {
  }

  lemma DefaultStars()
    ensures StarsFor(3.5, DefaultCutoffs) == 4 && StarsFor(4.0, DefaultCutoffs) == 5
    ensures StarsFor(0.4, DefaultCutoffs) == 0 && StarsFor(2.0, DefaultCutoffs) == 3
    ensures StarsFor(0.0, DefaultCutoffs) == 0
  {
  }
}
