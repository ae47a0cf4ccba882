/** Loading, merging and reading the trading system's configuration
    (elite_options_system/core/strategies.py:232-306). File reading and JSON
    parsing happen before this model: a loaded file arrives as an already
    parsed value, or as `None` when it was missing or unreadable. */
module Config {
  import opened Outcomes
  import opened Json
  import DefaultConfig

  // ---------------------------------------------------------------------
  // Deep merge

  /** The merge `_deep_merge_dicts(base, updates)` computes: every key of
      either tree is kept; where both values are dicts they are merged
      recursively, otherwise the update's value replaces the base's. */
  function Merge(base: map<string, Json>, updates: map<string, Json>): (r: map<string, Json>)
    ensures r.Keys == base.Keys + updates.Keys
    decreases JObj(updates)
  {
    map k | k in base.Keys + updates.Keys ::
      if k in updates then
        if updates[k].JObj? && k in base && base[k].JObj? then
          JObj(Merge(base[k].fields, updates[k].fields))
        else updates[k]
      else base[k]
  }

  /** `_deep_merge_dicts`: copies `base`, then visits the update keys one by
      one, recursing where both sides hold a dict. */
  method DeepMergeDicts(base: map<string, Json>, updates: map<string, Json>) returns (merged: map<string, Json>)
    ensures merged == Merge(base, updates)
    decreases JObj(updates)
  {
    merged := base;
    var todo := updates.Keys;
    while todo != {}
      invariant todo <= updates.Keys
      invariant merged.Keys == base.Keys + (updates.Keys - todo)
      invariant forall k :: k in merged ==>
        merged[k] == if k in updates && k !in todo then Merge(base, updates)[k] else base[k]
      decreases todo
    {
      var key :| key in todo;
      var value := updates[key];
      if value.JObj? && key in merged && merged[key].JObj? {
        var inner := DeepMergeDicts(merged[key].fields, value.fields);
        merged := merged[key := JObj(inner)];
      } else {
        merged := merged[key := value];
      }
      todo := todo - {key};
    }
    assert merged.Keys == Merge(base, updates).Keys;
  }

  /** An empty override returns the base unchanged. */
  lemma MergeEmpty(base: map<string, Json>)
    ensures Merge(base, map[]) == base
  {
  }

  /** `updates` says something at every key of `base`, and where both sides
      are dicts it does so again one level down. */
  predicate Covers(updates: map<string, Json>, base: map<string, Json>)
    decreases JObj(updates)
  {
    forall k :: k in base ==>
      k in updates && (base[k].JObj? && updates[k].JObj? ==> Covers(updates[k].fields, base[k].fields))
  }

  /** An override that covers every key of the base is taken whole. */
  lemma {:induction false} MergeCovering(base: map<string, Json>, updates: map<string, Json>)
    requires Covers(updates, base)
    ensures Merge(base, updates) == updates
    decreases JObj(updates)
  {
    var m := Merge(base, updates);
    forall k | k in updates
      ensures m[k] == updates[k]
    {
      if updates[k].JObj? && k in base && base[k].JObj? {
        MergeCovering(base[k].fields, updates[k].fields);
      }
    }
  }

  lemma {:induction false} CoversSelf(t: map<string, Json>)
    ensures Covers(t, t)
    decreases JObj(t)
  {
    forall k | k in t && t[k].JObj?
      ensures Covers(t[k].fields, t[k].fields)
    {
      CoversSelf(t[k].fields);
    }
  }

  /** Merging a tree into itself gives the same tree. */
  lemma MergeIdempotent(t: map<string, Json>)
    ensures Merge(t, t) == t
  {
    CoversSelf(t);
    MergeCovering(t, t);
  }

  // ---------------------------------------------------------------------
  // Path lookup

  /** What walking the dicts of `root` along `path` reaches: `None` when a
      key is missing or an intermediate value is not a dict. */
  function Lookup(root: Json, path: seq<string>): (r: Option<Json>)
    ensures path == [] ==> r == Some(root)
    ensures path != [] && !root.JObj? ==> r == None
    decreases path
  {
    if path == [] then Some(root)
    else if root.JObj? && path[0] in root.fields then Lookup(root.fields[path[0]], path[1..])
    else None
  }

  /** `_get_config_value_from_loaded_config`: walks `path` with a
      `current_level` cursor and never raises; a missing key or a non-dict
      on the way gives `default`. */
  method FindPath(root: Json, path: seq<string>, default: Json) returns (value: Json)
    ensures value == Lookup(root, path).GetOr(default)
  {
    var current := root;
    var i := 0;
    while i < |path|
      invariant 0 <= i <= |path|
      invariant Lookup(root, path) == Lookup(current, path[i..])
    {
      assert path[i..][1..] == path[i + 1..];
      if current.JObj? {
        if path[i] in current.fields {
          current := current.fields[path[i]];
        } else {
          return default;
        }
      } else {
        return default;
      }
      i := i + 1;
    }
    return current;
  }

  /** A step of the walk: looking up `k` and then `rest` in `root` is looking up
      `rest` in the value at `k`. */
  lemma LookupCons(root: map<string, Json>, k: string, rest: seq<string>)
    requires k in root
    ensures Lookup(JObj(root), [k] + rest) == Lookup(root[k], rest)
  {
    assert ([k] + rest)[1..] == rest;
  }

  /** A walk of two keys through nested dicts. */
  lemma LookupPair(root: map<string, Json>, k1: string, k2: string)
    requires k1 in root && root[k1].JObj? && k2 in root[k1].fields
    ensures Lookup(JObj(root), [k1, k2]) == Some(root[k1].fields[k2])
  {
    assert [k1, k2][1..] == [k2];
    assert [k2][1..] == [];
  }

  /** Walking `p + q` is walking `p`, then `q` from where `p` ended. */
  lemma {:induction false} LookupAppend(root: Json, p: seq<string>, q: seq<string>)
    ensures Lookup(root, p + q) == (match Lookup(root, p) case Some(v) => Lookup(v, q) case None => None)
    decreases p
  {
    if p != [] {
      assert (p + q)[1..] == p[1..] + q;
      if root.JObj? && p[0] in root.fields {
        LookupAppend(root.fields[p[0]], p[1..], q);
      }
    } else {
      assert p + q == q;
    }
  }

  /** A non-`None` entry of a dictionary the configuration holds at `path`
      is the value at `path` extended by its key. */
  lemma ChildValue(config: Json, path: seq<string>, m: map<string, Json>, name: string, default: Json)
    requires Lookup(config, path) == Some(Obj(m)) && name in m && m[name] != JNull
    ensures GetConfigValue(config, path + [name], default) == m[name]
  {
    LookupAppend(config, path, [name]);
    assert [name][1..] == [];
  }

  /** `_get_config_value`: the loaded configuration's value unless it is
      missing or `None`, then `DEFAULT_CONFIG`'s value (even a stored `None`),
      then the caller's default. */
  function GetConfigValue(config: Json, path: seq<string>, default: Json): (r: Json)
    ensures Lookup(config, path).Some? && Lookup(config, path).value != JNull ==> r == Lookup(config, path).value
    ensures (Lookup(config, path).None? || Lookup(config, path) == Some(JNull)) ==>
      r == Lookup(DefaultConfig.Tree, path).GetOr(default)
  {
    var v := Lookup(config, path).GetOr(JNull);
    if v != JNull then v else Lookup(DefaultConfig.Tree, path).GetOr(default)
  }

  /** A value the loaded configuration holds, other than `None`, is the answer. */
  lemma FoundInLoaded(config: Json, path: seq<string>, default: Json, v: Json)
    requires Lookup(config, path) == Some(v) && v != JNull
    ensures GetConfigValue(config, path, default) == v
  {
  }

  // ---------------------------------------------------------------------
  // What the merge keeps

  /** `path` leads through `updates` only via dicts and ends at a key that
      `updates` does not have. */
  predicate Untouched(updates: map<string, Json>, path: seq<string>)
    decreases path
  {
    path != [] &&
    (path[0] !in updates ||
     (updates[path[0]].JObj? && Untouched(updates[path[0]].fields, path[1..])))
  }

  lemma {:induction false} UntouchedMissing(updates: map<string, Json>, path: seq<string>)
    requires Untouched(updates, path)
    ensures Lookup(JObj(updates), path) == None
    decreases path
  {
    if path[0] in updates {
      UntouchedMissing(updates[path[0]].fields, path[1..]);
    }
  }

  /** Wherever the user's tree holds a value that is not a dict, the merged
      tree holds exactly that value: user values win at every leaf, lists
      included. */
  lemma {:induction false} MergeUserWins(base: map<string, Json>, updates: map<string, Json>, path: seq<string>, v: Json)
    requires Lookup(JObj(updates), path) == Some(v) && !v.JObj?
    ensures Lookup(JObj(Merge(base, updates)), path) == Some(v)
    decreases path
  {
    var k := path[0];
    var m := Merge(base, updates);
    if updates[k].JObj? && k in base && base[k].JObj? {
      MergeUserWins(base[k].fields, updates[k].fields, path[1..], v);
    }
  }

  /** Wherever the user's tree says nothing, the merged tree holds the
      default's value (or nothing, as the default). */
  lemma {:induction false} MergeDefaultSurvives(base: map<string, Json>, updates: map<string, Json>, path: seq<string>)
    requires Untouched(updates, path)
    ensures Lookup(JObj(Merge(base, updates)), path) == Lookup(JObj(base), path)
    decreases path
  {
    var k := path[0];
    var m := Merge(base, updates);
    if k in updates {
      if k in base && base[k].JObj? {
        MergeDefaultSurvives(base[k].fields, updates[k].fields, path[1..]);
      } else {
        UntouchedMissing(updates[k].fields, path[1..]);
      }
    }
  }

  // ---------------------------------------------------------------------
  // Loading and validation

  /** The effective configuration: a copy of `DEFAULT_CONFIG`, with a loaded
      dict merged over it; a loaded value that is not a dict, or nothing
      loaded, leaves the defaults. */
  function LoadConfig(loaded: Option<Json>): (r: Json)
    ensures r.JObj? && DefaultConfig.Fields.Keys <= r.fields.Keys
    ensures loaded.Some? && loaded.value.JObj? ==> r == JObj(Merge(DefaultConfig.Fields, loaded.value.fields))
    ensures !(loaded.Some? && loaded.value.JObj?) ==> r == DefaultConfig.Tree
  {
    if loaded.Some? && loaded.value.JObj? then JObj(Merge(DefaultConfig.Fields, loaded.value.fields))
    else DefaultConfig.Tree
  }

  /** The listed section names that `config` lacks; an item that cannot be a
      dict key raises `TypeError`, and an item that is not text is always
      missing. */
  function MissingFrom(items: seq<Json>, config: map<string, Json>): (r: Outcome<seq<Json>>)
    ensures r.Returns? <==> forall i :: 0 <= i < |items| ==> Hashable(items[i])
    ensures r.Raises? ==> r.error == TypeError
    ensures r.Returns? ==> forall x :: x in r.value <==> x in items && !(x.JStr? && x.s in config)
  {
    if items == [] then Returns([])
    else if !Hashable(items[0]) then Raises(TypeError)
    else
      match MissingFrom(items[1..], config)
      case Raises(e) => Raises(e)
      case Returns(rest) =>
        assert forall x :: x in items <==> x == items[0] || x in items[1..];
        if items[0].JStr? && items[0].s in config then Returns(rest) else Returns([items[0]] + rest)
  }

  /** The required-section check: `validation.required_top_level_sections`,
      when it is a list, names the sections that must exist. A `validation`
      section that is not a dict raises `AttributeError`. */
  function MissingSections(config: map<string, Json>): (r: Outcome<seq<Json>>)
    ensures (Get(config, "validation", JObj(map[])).JObj?) <==> !(r.Raises? && r.error == AttributeError)
  {
    var rules :- DictGet(Get(config, "validation", JObj(map[])), "required_top_level_sections", JList([]));
    if rules.JList? then MissingFrom(rules.items, config) else Returns([])
  }

  /** `_load_and_validate_config`: the effective configuration, unless the
      required-section check raises. */
  function LoadAndValidateConfig(loaded: Option<Json>): (r: Outcome<Json>)
    ensures r.Returns? ==> r.value == LoadConfig(loaded)
    ensures r.Raises? <==> MissingSections(LoadConfig(loaded).fields).Raises?
  {
    var config := LoadConfig(loaded);
    var _ :- MissingSections(config.fields);
    Returns(config)
  }

  const RequiredSections: seq<Json> := [Str("system_settings"), Str("data_processor_settings"), Str("strategy_settings")]

  lemma RequiredPresent(config: map<string, Json>)
    requires "system_settings" in config && "data_processor_settings" in config && "strategy_settings" in config
    ensures MissingFrom(RequiredSections, config) == Returns([])
  {
    var s := RequiredSections;
    assert MissingFrom(s[2..], config) == Returns([]) by {
      assert s[2..][1..] == [];
    }
    assert MissingFrom(s[1..], config) == Returns([]) by {
      assert s[1..][1..] == s[2..];
    }
  }

  /** A configuration whose `validation` section is the default one and which
      has every default section passes the required-section check. */
  lemma DefaultValidationPasses(config: map<string, Json>)
    requires "validation" in config && config["validation"] == Obj(DefaultConfig.Validation)
    requires DefaultConfig.Fields.Keys <= config.Keys
    ensures MissingSections(config) == Returns([])
  {
    DefaultValidationFacts();
    RequiredPresent(config);
  }

  /** Without a user file the configuration validates, and no required
      section is missing. */
  lemma DefaultsValidate()
    ensures LoadAndValidateConfig(None) == Returns(DefaultConfig.Tree)
  {
    assert DefaultConfig.Fields["validation"] == Obj(DefaultConfig.Validation);
    DefaultValidationPasses(DefaultConfig.Fields);
  }

  /** A user file that leaves `validation` alone never makes a required
      section go missing: the merge keeps every default section. */
  lemma UserFileKeepsSections(user: map<string, Json>)
    requires "validation" !in user
    ensures LoadAndValidateConfig(Some(JObj(user))) == Returns(JObj(Merge(DefaultConfig.Fields, user)))
  {
    DefaultValidationFacts();
    MergedValidationPasses(DefaultConfig.Fields, user, DefaultConfig.Validation);
  }

  lemma DefaultValidationFacts()
    ensures "validation" in DefaultConfig.Fields && DefaultConfig.Fields["validation"] == Obj(DefaultConfig.Validation)
    ensures "required_top_level_sections" in DefaultConfig.Validation
    ensures DefaultConfig.Validation["required_top_level_sections"] == JList(RequiredSections)
    ensures "system_settings" in DefaultConfig.Fields && "data_processor_settings" in DefaultConfig.Fields
    ensures "strategy_settings" in DefaultConfig.Fields
  {
  }

  /** Merging a user file that has no `validation` key into a base whose
      `validation` section lists the three required sections, all present
      in the base, passes the required-section check. */
  lemma MergedValidationPasses(base: map<string, Json>, user: map<string, Json>, v: map<string, Json>)
    requires "validation" in base && base["validation"] == Obj(v) && "validation" !in user
    requires "required_top_level_sections" in v && v["required_top_level_sections"] == JList(RequiredSections)
    requires "system_settings" in base && "data_processor_settings" in base && "strategy_settings" in base
    ensures MissingSections(Merge(base, user)) == Returns([])
  {
    var config := Merge(base, user);
    assert config["validation"] == Obj(v);
    RequiredPresent(config);
  }
}
