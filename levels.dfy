/** `_aggregate_for_levels` (elite_options_system/core/strategies.py:742-816):
    per-contract rows become one row per strike, each listed column reduced
    by `sum` or `first`, and the gaps left filled with 0.0 (0.5 for `ssi`).
    The result is a map from strike to the row of aggregated values; row
    order is not represented. */
module Levels {
  import opened Outcomes
  import opened Floats
  import opened Json
  import opened Frames
  import Config
  import DefaultConfig
  import DefaultFacts

  /** The two reductions of the aggregation table. */
  datatype Reduction = Sum | First

  /** The static aggregation table. */
  const BaseLogic: map<string, Reduction> := map[
    "mspi" := Sum, "sai" := First, "ssi" := First, "cfi" := First,
    "dag_custom" := Sum, "tdpi" := Sum, "vri" := Sum,
    "ctr" := First, "tdfi" := First, "vfi" := First, "vvr" := First,
    "price" := First,
    "net_volume_pressure" := First, "net_value_pressure" := First,
    "net_delta_flow_total" := First, "heuristic_net_delta_pressure" := First,
    "net_gamma_flow" := First, "net_vega_flow" := First, "net_theta_exposure" := First,
    "true_net_volume_flow" := First, "true_net_value_flow" := First]

  const DagPath: seq<string> := ["strategy_settings", "dag_methodologies"]

  /** The neutral value of the structure stability index. */
  const SsiNeutral: real := 0.5

  // ---------------------------------------------------------------------
  // The table

  /** The items of `dag_methodologies.enabled` (none when the section is
      not a dict); a value that cannot be iterated raises `TypeError`. */
  function EnabledItems(config: Json): (r: Outcome<set<Json>>)
    ensures r.Raises? ==> r.error == TypeError
  {
    var dag := Config.GetConfigValue(config, DagPath, JObj(map[]));
    if dag.JObj? then IterItems(Get(dag.fields, "enabled", JList([]))) else Returns({})
  }

  /** `f"sdag_{m}"` is the column `c`. */
  predicate NamesSum(m: Json, c: string) {
    StrOf(m).Some? && c == "sdag_" + StrOf(m).value
  }

  /** `f"sdag_{m}_norm"` is the column `c`. */
  predicate NamesNorm(m: Json, c: string) {
    StrOf(m).Some? && c == "sdag_" + StrOf(m).value + "_norm"
  }

  predicate IsSdagSum(items: set<Json>, c: string) {
    exists m :: m in items && NamesSum(m, c)
  }

  predicate IsSdagNorm(items: set<Json>, c: string) {
    exists m :: m in items && NamesNorm(m, c)
  }

  /** The effective table: the static entries and the methodology columns,
      restricted to the columns the frame has. */
  function Logic(items: set<Json>, present: set<string>): (r: map<string, Reduction>)
    ensures r.Keys <= present
    ensures forall c :: c in r <==> c in present && (c in BaseLogic || IsSdagSum(items, c) || IsSdagNorm(items, c))
  {
    map c | c in present && (c in BaseLogic || IsSdagSum(items, c) || IsSdagNorm(items, c)) ::
      if c in BaseLogic then BaseLogic[c] else if IsSdagSum(items, c) then Sum else First
  }

  // ---------------------------------------------------------------------
  // Coercion before the groupby

  /** Columns that are never coerced. */
  function Untouched(group: string): set<string> {
    {group, "opt_kind", "symbol", "underlying_symbol", "expiration_date"}
  }

  /** The frame after the coercion loop: every column of `columns` outside
      the untouched ones that is not numeric goes through `pd.to_numeric`. */
  function Coerced(f: Frame, columns: set<string>, group: string): (g: Frame)
    ensures g.height == f.height && g.cols.Keys == f.cols.Keys
  {
    Frame(f.height, map c | c in f.cols :: CoercedColumn(f, columns, group, c))
  }

  function CoercedColumn(f: Frame, columns: set<string>, group: string, c: string): (r: Column)
    requires c in f.cols
    ensures |r.cells| == |f.cols[c].cells|
    ensures c in columns && c !in Untouched(group) ==> r.dtype == Numeric
    ensures c !in columns || c in Untouched(group) ==> r == f.cols[c]
  {
    if c in columns && c !in Untouched(group) && f.cols[c].dtype != Numeric then ToNumeric(f.cols[c])
    else f.cols[c]
  }

  /** The loop over the table that coerces columns in place. */
  method CoerceColumns(f: Frame, columns: set<string>, group: string) returns (g: Frame)
    ensures g == Coerced(f, columns, group)
  {
    var cols := f.cols;
    var todo := columns;
    while todo != {}
      invariant todo <= columns
      invariant cols.Keys == f.cols.Keys
      invariant forall c :: c in cols ==> cols[c] == if c in columns - todo then CoercedColumn(f, columns, group, c) else f.cols[c]
      decreases todo
    {
      var c :| c in todo;
      if c !in Untouched(group) && c in cols && cols[c].dtype != Numeric {
        cols := cols[c := ToNumeric(cols[c])];
      }
      todo := todo - {c};
    }
    g := Frame(f.height, cols);
  }

  /** After the loop every listed column that may be coerced is numeric and
      holds the coerced cells; every other column is as it was. */
  lemma CoercedColumns(f: Frame, columns: set<string>, group: string, c: string)
    requires c in f.cols
    ensures c in columns && c !in Untouched(group) ==>
      Coerced(f, columns, group).cols[c].dtype == Numeric &&
      Coerced(f, columns, group).cols[c] == AsNumeric(f.cols[c])
    ensures !(c in columns && c !in Untouched(group)) ==> Coerced(f, columns, group).cols[c] == f.cols[c]
  {
  }

  // ---------------------------------------------------------------------
  // Reductions over one group

  /** Each row's strike beside its value in one column. */
  function Pairs(keys: seq<Cell>, vals: seq<Float>): (p: seq<(Cell, Float)>)
    ensures |p| == |keys|
    ensures forall j :: 0 <= j < |keys| ==> p[j] == (keys[j], if j < |vals| then vals[j] else NaN)
  {
    seq(|keys|, j requires 0 <= j < |keys| => (keys[j], if j < |vals| then vals[j] else NaN))
  }

  /** `sum` with NaN skipped: the values of the rows with strike `k` that are
      not NaN, added up from 0. */
  function SumWhere(p: seq<(Cell, Float)>, k: Cell): (r: Float)
    ensures (forall j :: 0 <= j < |p| && p[j].0 == k ==> !p[j].1.PosInf? && !p[j].1.NegInf?) ==> r.Finite?
  {
    if p == [] then Zero
    else
      var rest := SumWhere(p[1..], k);
      assert forall j :: 1 <= j < |p| ==> p[1..][j - 1] == p[j];
      if p[0].0 == k && !p[0].1.NaN? then Add(p[0].1, rest) else rest
  }

  /** `first`: the first value of the rows with strike `k` that is not
      NaN, NaN when there is none. */
  function FirstWhere(p: seq<(Cell, Float)>, k: Cell): (r: Float)
    ensures r.NaN? <==> forall j :: 0 <= j < |p| && p[j].0 == k ==> p[j].1.NaN?
  {
    if p == [] then NaN
    else if p[0].0 == k && !p[0].1.NaN? then p[0].1
    else
      assert forall j :: 1 <= j < |p| ==> p[1..][j - 1] == p[j];
      FirstWhere(p[1..], k)
  }

  /** The value `first` picks is the value of a row with that strike, and
      every earlier row with that strike holds NaN. */
  lemma {:induction false} FirstIsEarliest(p: seq<(Cell, Float)>, k: Cell)
    requires !FirstWhere(p, k).NaN?
    ensures exists j :: 0 <= j < |p| && p[j].0 == k && p[j].1 == FirstWhere(p, k) &&
                        (forall i :: 0 <= i < j && p[i].0 == k ==> p[i].1.NaN?)
  {
    if p[0].0 == k && !p[0].1.NaN? {
      assert p[0].1 == FirstWhere(p, k);
    } else {
      var q := p[1..];
      FirstIsEarliest(q, k);
      var j :| 0 <= j < |q| && q[j].0 == k && q[j].1 == FirstWhere(q, k) &&
        forall i :: 0 <= i < j && q[i].0 == k ==> q[i].1.NaN?;
      assert p[j + 1] == q[j];
      forall i | 0 <= i < j + 1 && p[i].0 == k
        ensures p[i].1.NaN?
      {
        if i > 0 {
          assert q[i - 1] == p[i];
        }
      }
    }
  }

  function Reduce(how: Reduction, p: seq<(Cell, Float)>, k: Cell): Float {
    match how
    case Sum => SumWhere(p, k)
    case First => FirstWhere(p, k)
  }

  /** `fillna` after the groupby: 0.5 for `ssi`, 0.0 for every other column. */
  function Fill(c: string, x: Float): (r: Float)
    ensures !r.NaN?
    ensures !x.NaN? ==> r == x
    ensures x.NaN? ==> r == Finite(if c == "ssi" then SsiNeutral else 0.0)
  {
    if x.NaN? then Finite(if c == "ssi" then SsiNeutral else 0.0) else x
  }

  // ---------------------------------------------------------------------
  // The aggregation

  /** The strikes that survive `dropna`: the cells of the grouping column
      that are not missing. */
  function Strikes(keys: seq<Cell>): (r: set<Cell>)
    ensures forall k :: k in r <==> exists j :: 0 <= j < |keys| && keys[j] == k && !IsMissing(k)
  {
    set j | 0 <= j < |keys| && !IsMissing(keys[j]) :: keys[j]
  }

  /** The aggregated row of one strike. The grouping column is the key, so it
      is not a column of the row. */
  function LevelRow(g: Frame, keys: seq<Cell>, k: Cell, logic: map<string, Reduction>, group: string): (row: map<string, Float>)
    requires logic.Keys <= g.cols.Keys
    ensures row.Keys == logic.Keys - {group}
  {
    map c | c in logic && c != group :: Fill(c, Reduce(logic[c], Pairs(keys, FloatValues(g.cols[c].cells)), k))
  }

  /** `_aggregate_for_levels`. Anything but a non-empty frame holding the
      grouping column and at least one listed column gives the empty result;
      an `enabled` value that cannot be iterated raises. */
  function AggregateForLevels(df: Option<Frame>, group: string, config: Json): (r: Outcome<map<Cell, map<string, Float>>>)
    ensures df.None? || df.value.height == 0 || df.value.cols == map[] || group !in df.value.cols ==> r == Returns(map[])
    ensures r.Raises? ==> r.error == TypeError
  {
    if df.None? || df.value.height == 0 || df.value.cols == map[] || group !in df.value.cols then Returns(map[])
    else
      var f := df.value;
      var keys := f.cols[group].cells;
      var strikes := Strikes(keys);
      if strikes == {} then Returns(map[])
      else
        var items :- EnabledItems(config);
        var logic := Logic(items, f.cols.Keys);
        if logic == map[] then Returns(map[])
        else
          Returns(Rows(f, group, logic))
  }

  /** One aggregated row per strike, over the coerced frame. */
  function Rows(f: Frame, group: string, logic: map<string, Reduction>): (rows: map<Cell, map<string, Float>>)
    requires group in f.cols && logic.Keys <= f.cols.Keys
    ensures rows.Keys == Strikes(f.cols[group].cells)
  {
    var keys := f.cols[group].cells;
    var g := Coerced(f, logic.Keys, group);
    map k | k in Strikes(keys) :: LevelRow(g, keys, k, logic, group)
  }

  // ---------------------------------------------------------------------
  // Properties

  /** A frame with a usable strike and a listed column gives one row per
      distinct non-missing strike, each with exactly the listed columns other
      than the grouping one, and no NaN left. */
  lemma OneRowPerStrike(f: Frame, group: string, config: Json)
    requires f.height > 0 && group in f.cols
    requires AggregateForLevels(Some(f), group, config).Returns?
    requires AggregateForLevels(Some(f), group, config).value != map[]
    ensures var rows := AggregateForLevels(Some(f), group, config).value;
      rows.Keys == Strikes(f.cols[group].cells) &&
      forall k :: k in rows ==>
        rows[k].Keys == Logic(EnabledItems(config).value, f.cols.Keys).Keys - {group} &&
        forall c :: c in rows[k] ==> !rows[k][c].NaN?
  {
    var items := EnabledItems(config).value;
    var logic := Logic(items, f.cols.Keys);
    assert Strikes(f.cols[group].cells) != {} && logic != map[];
    AggregateSteps(f, group, config, items);
  }

  /** Every strike left is a non-missing value of the grouping column. */
  lemma StrikesNotMissing(f: Frame, group: string, config: Json, k: Cell)
    requires AggregateForLevels(Some(f), group, config).Returns?
    requires k in AggregateForLevels(Some(f), group, config).value
    ensures !IsMissing(k) && group in f.cols && k in f.cols[group].cells
  {
    assert group in f.cols && f.height > 0;
    var keys := f.cols[group].cells;
    var items := EnabledItems(config).value;
    assert Strikes(keys) != {} && Logic(items, f.cols.Keys) != map[];
    AggregateSteps(f, group, config, items);
    var j :| 0 <= j < |keys| && keys[j] == k && !IsMissing(k);
  }

  /** A frame whose strikes are all missing gives the empty result. */
  lemma NoStrikesNoRows(f: Frame, group: string, config: Json)
    requires group in f.cols
    requires forall j :: 0 <= j < |f.cols[group].cells| ==> IsMissing(f.cols[group].cells[j])
    ensures AggregateForLevels(Some(f), group, config) == Returns(map[])
  {
    assert Strikes(f.cols[group].cells) == {};
  }

  /** A frame with none of the listed columns gives the empty result. */
  lemma NoListedColumnNoRows(f: Frame, group: string, config: Json)
    requires EnabledItems(config).Returns?
    requires forall c :: c in f.cols ==>
      c !in BaseLogic && !IsSdagSum(EnabledItems(config).value, c) && !IsSdagNorm(EnabledItems(config).value, c)
    ensures AggregateForLevels(Some(f), group, config) == Returns(map[])
  {
    assert Logic(EnabledItems(config).value, f.cols.Keys) == map[];
  }

  /** The value of a column in a strike's row: the reduction the table names
      over the coerced column, then the fill. */
  lemma CellValue(f: Frame, group: string, config: Json, k: Cell, c: string)
    requires AggregateForLevels(Some(f), group, config).Returns?
    requires k in AggregateForLevels(Some(f), group, config).value
    requires c in AggregateForLevels(Some(f), group, config).value[k]
    ensures var logic := Logic(EnabledItems(config).value, f.cols.Keys);
      c in logic && group in f.cols &&
      AggregateForLevels(Some(f), group, config).value[k][c] ==
        Fill(c, Reduce(logic[c], Pairs(f.cols[group].cells, FloatValues(AsNumeric(f.cols[c]).cells)), k))
  {
    assert group in f.cols && f.height > 0;
    var keys := f.cols[group].cells;
    var items := EnabledItems(config).value;
    var logic := Logic(items, f.cols.Keys);
    assert Strikes(keys) != {} && logic != map[];
    AggregateSteps(f, group, config, items);
    assert c in logic && c != group;
    NeverUntouched(items, f.cols.Keys, group, c);
    CoercedColumns(f, logic.Keys, group, c);
  }

  /** The result, from the values its steps compute. */
  lemma AggregateSteps(f: Frame, group: string, config: Json, items: set<Json>)
    requires group in f.cols && EnabledItems(config) == Returns(items)
    requires f.height > 0 && Strikes(f.cols[group].cells) != {} && Logic(items, f.cols.Keys) != map[]
    ensures AggregateForLevels(Some(f), group, config) == Returns(Rows(f, group, Logic(items, f.cols.Keys)))
  {
  }

  /** A listed column other than the grouping one is never one of the
      columns exempt from coercion. */
  lemma NeverUntouched(items: set<Json>, present: set<string>, group: string, c: string)
    requires c in Logic(items, present) && c != group
    ensures c !in Untouched(group)
  {
    NotSdag(items, "opt_kind");
    NotSdag(items, "symbol");
    NotSdag(items, "underlying_symbol");
    NotSdag(items, "expiration_date");
    ExemptNotBase();
    assert c in present && (c in BaseLogic || IsSdagSum(items, c) || IsSdagNorm(items, c));
  }

  lemma ExemptNotBase()
    ensures "opt_kind" !in BaseLogic && "symbol" !in BaseLogic
    ensures "underlying_symbol" !in BaseLogic && "expiration_date" !in BaseLogic
  {
  }

  /** A name that does not start with `sdag_` is no methodology column. */
  lemma NotSdag(items: set<Json>, c: string)
    requires Unprefixed(c)
    ensures !IsSdagSum(items, c) && !IsSdagNorm(items, c)
  {
  }

  /** `c` does not start with `sd`, so not with `sdag_`. */
  predicate Unprefixed(c: string) {
    |c| < 2 || c[0] != 's' || c[1] != 'd'
  }

  /** A methodology column is summed, its normalised column taken first
      (unless it is also another methodology's raw column). */
  lemma SdagReductions(items: set<Json>, present: set<string>, m: Json)
    requires m in items && StrOf(m).Some?
    ensures var c := "sdag_" + StrOf(m).value;
      c in present ==> c in Logic(items, present) && Logic(items, present)[c] == Sum
    ensures var c := "sdag_" + StrOf(m).value + "_norm";
      c in present && !IsSdagSum(items, c) ==> c in Logic(items, present) && Logic(items, present)[c] == First
  {
    var s := StrOf(m).value;
    var c := "sdag_" + s;
    if c in present {
      assert NamesSum(m, c);
      assert c !in BaseLogic by {
        SdagNotBase(c);
      }
    }
    var n := "sdag_" + s + "_norm";
    if n in present && !IsSdagSum(items, n) {
      assert NamesNorm(m, n);
      assert n !in BaseLogic by {
        SdagNotBase(n);
      }
    }
  }

  /** No static entry starts with `sdag_`. */
  lemma SdagNotBase(c: string)
    requires !Unprefixed(c)
    ensures c !in BaseLogic
  {
    BaseNotSdag();
  }

  lemma BaseNotSdag()
    ensures forall b :: b in BaseLogic ==> Unprefixed(b)
  {
  }

  /** A strike whose `ssi` values are all missing gets the neutral 0.5, and
      one whose values of another column are all missing gets 0.0. */
  lemma NeutralFill(p: seq<(Cell, Float)>, k: Cell, c: string)
    requires forall j :: 0 <= j < |p| && p[j].0 == k ==> p[j].1.NaN?
    ensures Fill(c, FirstWhere(p, k)) == Finite(if c == "ssi" then 0.5 else 0.0)
    ensures Fill(c, SumWhere(p, k)) == Zero
  {
    NothingSumsToZero(p, k);
  }

  lemma {:induction false} NothingSumsToZero(p: seq<(Cell, Float)>, k: Cell)
    requires forall j :: 0 <= j < |p| && p[j].0 == k ==> p[j].1.NaN?
    ensures SumWhere(p, k) == Zero
  {
    if p != [] {
      assert forall j :: 1 <= j < |p| ==> p[1..][j - 1] == p[j];
      NothingSumsToZero(p[1..], k);
    }
  }

  /** The real sum of the finite values of the rows with strike `k`. */
  function RealSum(p: seq<(Cell, Float)>, k: Cell): real {
    if p == [] then 0.0
    else (if p[0].0 == k && p[0].1.Finite? then p[0].1.v else 0.0) + RealSum(p[1..], k)
  }

  /** Without infinities the sum is the real sum of the finite values. */
  lemma {:induction false} SumIsRealSum(p: seq<(Cell, Float)>, k: Cell)
    requires forall j :: 0 <= j < |p| && p[j].0 == k ==> !p[j].1.PosInf? && !p[j].1.NegInf?
    ensures SumWhere(p, k) == Finite(RealSum(p, k))
  {
    if p != [] {
      assert forall j :: 1 <= j < |p| ==> p[1..][j - 1] == p[j];
      SumIsRealSum(p[1..], k);
    }
  }

  // ---------------------------------------------------------------------
  // The built-in table

  const DefaultMethods: set<Json> := {JStr("multiplicative"), JStr("directional"), JStr("weighted"), JStr("volatility_focused")}

  /** `enabled` read from the loaded configuration. */
  lemma EnabledSteps(config: Json, dag: map<string, Json>, enabled: seq<Json>)
    requires Config.GetConfigValue(config, DagPath, JObj(map[])) == JObj(dag)
    requires Get(dag, "enabled", JList([])) == JList(enabled)
    ensures EnabledItems(config) == Returns(set x | x in enabled)
  {
  }

  lemma DefaultDag()
    ensures Config.GetConfigValue(DefaultConfig.Tree, DagPath, JObj(map[])) == Obj(DefaultConfig.DagMethodologies)
  {
    DefaultFacts.DagSection();
    assert DagPath == ["strategy_settings", "dag_methodologies"];
  }

  /** With the built-in configuration the enabled methodologies are
      multiplicative, directional, weighted and volatility_focused. */
  lemma DefaultEnabledItems()
    ensures EnabledItems(DefaultConfig.Tree) == Returns(DefaultMethods)
  {
    DefaultDag();
    DefaultEnabledList();
    EnabledSteps(DefaultConfig.Tree, DefaultConfig.DagMethodologies, DefaultList);
    DefaultListItems(DefaultList);
  }

  const DefaultList: seq<Json> := [JStr("multiplicative"), JStr("directional"), JStr("weighted"), JStr("volatility_focused")]

  lemma DefaultEnabledList()
    ensures Get(DefaultConfig.DagMethodologies, "enabled", JList([])) == JList(DefaultList)
  {
  }

  lemma DefaultListItems(xs: seq<Json>)
    requires xs == DefaultList
    ensures (set x | x in xs) == DefaultMethods
  {
  }

  predicate EndsInNorm(s: string) {
    |s| >= 5 && s[|s| - 5..] == "_norm"
  }

  /** When no enabled name ends in `_norm`, no normalised column is also
      a raw methodology column, so every normalised column is taken first. */
  lemma NormNeverSummed(items: set<Json>, present: set<string>, m: Json)
    requires m in items && StrOf(m).Some?
    requires forall x :: x in items && StrOf(x).Some? ==> !EndsInNorm(StrOf(x).value)
    ensures var c := "sdag_" + StrOf(m).value + "_norm";
      c in present ==> c in Logic(items, present) && Logic(items, present)[c] == First
  {
    NormNotSum(items, m);
    SdagReductions(items, present, m);
  }

  lemma NormNotSum(items: set<Json>, m: Json)
    requires StrOf(m).Some?
    requires forall x :: x in items && StrOf(x).Some? ==> !EndsInNorm(StrOf(x).value)
    ensures !IsSdagSum(items, "sdag_" + StrOf(m).value + "_norm")
  {
    var c := "sdag_" + StrOf(m).value + "_norm";
    forall x | x in items
      ensures !NamesSum(x, c)
    {
      RawNameOfNorm(StrOf(x).GetOr(""), StrOf(m).value);
    }
  }

  lemma RawNameOfNorm(t: string, s: string)
    ensures "sdag_" + t == "sdag_" + s + "_norm" ==> EndsInNorm(t)
  {
    if "sdag_" + t == "sdag_" + s + "_norm" {
      assert t == ("sdag_" + t)[5..];
      assert t == s + "_norm";
      assert t[|t| - 5..] == "_norm";
    }
  }

  /** None of the built-in names ends in `_norm`. */
  lemma DefaultNamesPlain()
    ensures forall x :: x in DefaultMethods && StrOf(x).Some? ==> !EndsInNorm(StrOf(x).value)
  {
  }

  /** With the built-in methodologies every raw column is summed and every
      normalised column taken first. */
  lemma DefaultSdagColumns(present: set<string>, m: Json)
    requires m in DefaultMethods
    ensures var c := "sdag_" + m.s;
      c in present ==> c in Logic(DefaultMethods, present) && Logic(DefaultMethods, present)[c] == Sum
    ensures var c := "sdag_" + m.s + "_norm";
      c in present ==> c in Logic(DefaultMethods, present) && Logic(DefaultMethods, present)[c] == First
  {
    DefaultNamesPlain();
    SdagReductions(DefaultMethods, present, m);
    NormNeverSummed(DefaultMethods, present, m);
  }
}
