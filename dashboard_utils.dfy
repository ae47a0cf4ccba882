/** The dashboard utilities (elite_options_system/dashboard/utils.py): the
    configuration lookup that never raises, the cache timeout, the server-side
    cache of data bundles with timestamp expiry, the cache key and the status
    message formatter. The cached configuration and the clock are parameters. */
module DashboardUtils {
  import opened Outcomes
  import opened Floats
  import opened Json
  import opened Text
  import Config

  // ---------------------------------------------------------------------
  // Configuration lookup

  /** `get_config_value` over the cached configuration: the value reached by
      walking dicts along `path` (a stored `None` included), `default` when a
      key is missing, a non-dict is met on the way, or the cache itself is
      not a dict. */
  function ConfigValue(cache: Json, path: seq<string>, default: Json): (r: Json)
    ensures cache.JObj? && Config.Lookup(cache, path).Some? ==> r == Config.Lookup(cache, path).value
    ensures !cache.JObj? || Config.Lookup(cache, path).None? ==> r == default
  {
    if cache.JObj? then Config.Lookup(cache, path).GetOr(default) else default
  }

  /** The loop of `get_config_value`. */
  method GetConfigValue(cache: Json, path: seq<string>, default: Json) returns (value: Json)
    ensures value == ConfigValue(cache, path, default)
  {
    if !cache.JObj? {
      return default;
    }
    var current := cache;
    var i := 0;
    while i < |path|
      invariant 0 <= i <= |path|
      invariant Config.Lookup(cache, path) == Config.Lookup(current, path[i..])
    {
      assert path[i..][1..] == path[i + 1..];
      if !current.JObj? || path[i] !in current.fields {
        return default;
      }
      current := current.fields[path[i]];
      i := i + 1;
    }
    return current;
  }

  /** Unlike the trading system's lookup, a `None` stored in the
      configuration is the answer, not a reason to fall back. */
  lemma StoredNoneReturned(cache: Json, path: seq<string>, default: Json)
    requires cache.JObj? && Config.Lookup(cache, path) == Some(JNull)
    ensures ConfigValue(cache, path, default) == JNull
  {
  }

  /** The empty path gives the whole configuration when it is a dict. */
  lemma EmptyPathWholeConfig(cache: Json, default: Json)
    ensures ConfigValue(cache, [], default) == if cache.JObj? then cache else default
  {
  }

  /** Looking up `p + q` is looking up `q` inside what `p` reaches, when
      that is a dict. */
  lemma ConfigValueAppend(cache: Json, p: seq<string>, q: seq<string>, default: Json)
    requires cache.JObj? && Config.Lookup(cache, p).Some? && Config.Lookup(cache, p).value.JObj?
    ensures ConfigValue(cache, p + q, default) == ConfigValue(Config.Lookup(cache, p).value, q, default)
  {
    Config.LookupAppend(cache, p, q);
  }

  // ---------------------------------------------------------------------
  // Cache timeout

  const CacheTimeoutPath: seq<string> := ["system_settings", "dashboard_cache_timeout_seconds"]
  const DefaultCacheTimeout: nat := 600

  /** `CACHE_TIMEOUT_SECONDS`: the configured value when it is a
      non-negative int (`True` and `False` are the ints 1 and 0), 600
      otherwise. */
  function CacheTimeout(cache: Json): (t: nat)
    ensures var v := ConfigValue(cache, CacheTimeoutPath, Int(DefaultCacheTimeout));
      (AsPyInt(v).Some? && AsPyInt(v).value >= 0 ==> t == AsPyInt(v).value) &&
      (AsPyInt(v).None? || AsPyInt(v).value < 0 ==> t == DefaultCacheTimeout)
  {
    var v := ConfigValue(cache, CacheTimeoutPath, Int(DefaultCacheTimeout));
    if AsPyInt(v).Some? && AsPyInt(v).value >= 0 then AsPyInt(v).value else DefaultCacheTimeout
  }

  /** A configuration without the entry gives 600 seconds; a negative, float,
      text or `None` entry gives 600 too. */
  lemma TimeoutFallback(cache: Json)
    requires Config.Lookup(cache, CacheTimeoutPath).None? ||
             (var v := Config.Lookup(cache, CacheTimeoutPath).value; AsPyInt(v).None? || AsPyInt(v).value < 0)
    ensures CacheTimeout(cache) == 600
  {
  }

  // ---------------------------------------------------------------------
  // The server-side cache

  /** One cache entry: the time it was stored and the bundle. */
  datatype Entry = Entry(stamp: real, bundle: Json)

  /** `not cache_key or not isinstance(cache_key, str)` rejects the key. */
  predicate ValidKey(key: Json) {
    key.JStr? && key.s != ""
  }

  function Age(e: Entry, now: real): real {
    now - e.stamp
  }

  /** `bundle.get("processed_data", {}).get("options_chain")` can be
      evaluated: the bundle has no `processed_data`, or holds a dict there. A
      stored `None`, list or other value has no `.get` and raises
      `AttributeError`. */
  predicate ChainReadable(bundle: map<string, Json>) {
    Get(bundle, "processed_data", JObj(map[])).JObj?
  }

  /** What a read returns for an entry that is present, fresh and a dict:
      the bundle, unless the `options_chain` probe raises. */
  function Hit(bundle: map<string, Json>): (r: Outcome<Option<Json>>)
    ensures r.Returns? <==> ChainReadable(bundle)
    ensures r.Returns? ==> r.value == Some(JObj(bundle))
    ensures r.Raises? ==> r.error == AttributeError
  {
    if ChainReadable(bundle) then Returns(Some(JObj(bundle))) else Raises(AttributeError)
  }

  /** What `get_data_from_server_cache` returns: `None` when the key is
      invalid or absent, the entry is older than the timeout or its bundle is
      not a dict; otherwise the stored bundle, unless its `processed_data`
      is not a dict, which raises `AttributeError`. */
  function CacheRead(entries: map<string, Entry>, key: Json, now: real, timeout: nat): (r: Outcome<Option<Json>>)
    ensures r == Returns(None) <==>
      !ValidKey(key) || key.s !in entries || Age(entries[key.s], now) > timeout as real || !entries[key.s].bundle.JObj?
    ensures r.Raises? <==> ValidKey(key) && key.s in entries && Age(entries[key.s], now) <= timeout as real &&
                           entries[key.s].bundle.JObj? && !ChainReadable(entries[key.s].bundle.fields)
    ensures r.Raises? ==> r.error == AttributeError
    ensures r.Returns? && r.value.Some? ==> r.value.value == entries[key.s].bundle
  {
    if !ValidKey(key) || key.s !in entries then Returns(None)
    else if Age(entries[key.s], now) > timeout as real then Returns(None)
    else if !entries[key.s].bundle.JObj? then Returns(None)
    else Hit(entries[key.s].bundle.fields)
  }

  /** The cache after a read: an expired entry or one whose bundle is not a
      dict is removed; nothing else changes, also when the read raises. */
  function CacheAfterRead(entries: map<string, Entry>, key: Json, now: real, timeout: nat): (r: map<string, Entry>)
    ensures r.Keys <= entries.Keys && forall k :: k in r ==> r[k] == entries[k]
    ensures forall k :: k in entries && k !in r ==> ValidKey(key) && k == key.s
    ensures CacheRead(entries, key, now, timeout) != Returns(None) ==> r == entries
  {
    if !ValidKey(key) || key.s !in entries then entries
    else if Age(entries[key.s], now) > timeout as real || !entries[key.s].bundle.JObj? then entries - {key.s}
    else entries
  }

  /** Whether `store_data_in_server_cache` stores: a valid key and a dict
      bundle whose `options_chain` probe does not raise. */
  predicate Storable(key: Json, bundle: Json) {
    ValidKey(key) && bundle.JObj? && ChainReadable(bundle.fields)
  }

  /** What `store_data_in_server_cache` returns: `None`, or `AttributeError`
      from the `options_chain` probe, raised before anything is stored. */
  function StoreOutcome(key: Json, bundle: Json): (r: Outcome<()>)
    ensures r.Raises? <==> ValidKey(key) && bundle.JObj? && !ChainReadable(bundle.fields)
    ensures r.Raises? ==> r.error == AttributeError
  {
    if ValidKey(key) && bundle.JObj? && !ChainReadable(bundle.fields) then Raises(AttributeError) else Returns(())
  }

  /** The cache after a store: a storable bundle is put under the key as
      `(now, bundle)`; anything else, a raising probe included, leaves the
      cache as it was. */
  function CacheAfterStore(entries: map<string, Entry>, key: Json, bundle: Json, now: real): (r: map<string, Entry>)
    ensures Storable(key, bundle) ==> key.s in r && r[key.s] == Entry(now, bundle)
    ensures forall k :: !(key.JStr? && k == key.s) ==> (k in r <==> k in entries) && (k in r ==> r[k] == entries[k])
    ensures !Storable(key, bundle) ==> r == entries
  {
    if Storable(key, bundle) then entries[key.s := Entry(now, bundle)] else entries
  }

  /** The dict the cache functions update in place. */
  class ServerCache {
    var entries: map<string, Entry>

    constructor ()
      ensures entries == map[]
    {
      entries := map[];
    }

    /** `get_data_from_server_cache` at time `now`. */
    method Get(key: Json, now: real, timeout: nat) returns (bundle: Outcome<Option<Json>>)
      modifies this
      ensures bundle == CacheRead(old(entries), key, now, timeout)
      ensures entries == CacheAfterRead(old(entries), key, now, timeout)
    {
      if !key.JStr? || key.s == "" {
        return Returns(None);
      }
      if key.s !in entries {
        return Returns(None);
      }
      var stored := entries[key.s];
      var age := now - stored.stamp;
      if age > timeout as real {
        entries := entries - {key.s};
        return Returns(None);
      }
      if !stored.bundle.JObj? {
        entries := entries - {key.s};
        return Returns(None);
      }
      if !ChainReadable(stored.bundle.fields) {
        return Raises(AttributeError);
      }
      return Returns(Some(stored.bundle));
    }

    /** `store_data_in_server_cache` at time `now`. */
    method Store(key: Json, bundle: Json, now: real) returns (r: Outcome<()>)
      modifies this
      ensures r == StoreOutcome(key, bundle)
      ensures entries == CacheAfterStore(old(entries), key, bundle, now)
    {
      if !key.JStr? || key.s == "" {
        return Returns(());
      }
      if !bundle.JObj? {
        return Returns(());
      }
      if !ChainReadable(bundle.fields) {
        return Raises(AttributeError);
      }
      entries := entries[key.s := Entry(now, bundle)];
      return Returns(());
    }
  }

  /** A bundle stored under a valid key is read back unchanged at any time up
      to the timeout later, and that read leaves the cache as it is; a dict
      bundle whose `processed_data` is not a dict is refused with
      `AttributeError` and the cache stays as it was. */
  lemma StoreThenRead(entries: map<string, Entry>, key: Json, bundle: Json, stored: real, now: real, timeout: nat)
    requires ValidKey(key) && bundle.JObj?
    requires stored <= now <= stored + timeout as real
    ensures var c := CacheAfterStore(entries, key, bundle, stored);
      if ChainReadable(bundle.fields) then
        StoreOutcome(key, bundle) == Returns(()) &&
        CacheRead(c, key, now, timeout) == Returns(Some(bundle)) && CacheAfterRead(c, key, now, timeout) == c
      else
        StoreOutcome(key, bundle) == Raises(AttributeError) && c == entries
  {
  }

  /** An entry exactly as old as the timeout is still found; one older is
      removed and the read misses. */
  lemma ExpiryBoundary(entries: map<string, Entry>, key: Json, now: real, timeout: nat)
    requires ValidKey(key) && key.s in entries && entries[key.s].bundle.JObj?
    ensures Age(entries[key.s], now) == timeout as real ==>
      CacheRead(entries, key, now, timeout) == Hit(entries[key.s].bundle.fields)
    ensures Age(entries[key.s], now) > timeout as real ==>
      CacheRead(entries, key, now, timeout) == Returns(None) && CacheAfterRead(entries, key, now, timeout) == entries - {key.s}
  {
  }

  /** A miss removes the entry it found, so a second read misses too. */
  lemma MissIsFinal(entries: map<string, Entry>, key: Json, now: real, timeout: nat)
    requires CacheRead(entries, key, now, timeout) == Returns(None)
    ensures var c := CacheAfterRead(entries, key, now, timeout);
      CacheRead(c, key, now, timeout) == Returns(None) && (ValidKey(key) ==> key.s !in c)
  {
  }

  /** Reading twice at the same time is reading once. */
  lemma ReadIdempotent(entries: map<string, Entry>, key: Json, now: real, timeout: nat)
    ensures var c := CacheAfterRead(entries, key, now, timeout);
      CacheRead(c, key, now, timeout) == CacheRead(entries, key, now, timeout)
    ensures var c := CacheAfterRead(entries, key, now, timeout);
      CacheAfterRead(c, key, now, timeout) == c
  {
  }

  /** Storing under one key changes no read of another key. */
  lemma StoreLeavesOtherKeys(entries: map<string, Entry>, key: Json, bundle: Json, stored: real, other: Json, now: real, timeout: nat)
    requires other != key
    ensures CacheRead(CacheAfterStore(entries, key, bundle, stored), other, now, timeout) == CacheRead(entries, other, now, timeout)
  {
  }

  /** Every stored bundle is a dict whose `processed_data`, if any, is a dict. */
  predicate AllStorable(entries: map<string, Entry>) {
    forall k :: k in entries ==> entries[k].bundle.JObj? && ChainReadable(entries[k].bundle.fields)
  }

  /** Reads and stores keep every bundle storable, so a read of a cache only
      ever written by `Store` never raises, and misses only on an invalid,
      absent or expired key. */
  lemma StorablePreserved(entries: map<string, Entry>, key: Json, bundle: Json, now: real, timeout: nat)
    requires AllStorable(entries)
    ensures AllStorable(CacheAfterRead(entries, key, now, timeout))
    ensures AllStorable(CacheAfterStore(entries, key, bundle, now))
    ensures CacheRead(entries, key, now, timeout).Returns?
    ensures CacheRead(entries, key, now, timeout) == Returns(None) <==>
      !ValidKey(key) || key.s !in entries || Age(entries[key.s], now) > timeout as real
  {
  }

  // ---------------------------------------------------------------------
  // Cache key

  /** The current minute, as the clock gives it. */
  datatype Minute = Minute(year: nat, month: nat, day: nat, hour: nat, minute: nat)

  /** The ranges of `datetime`'s fields. */
  predicate ValidMinute(t: Minute) {
    1 <= t.year <= 9999 && 1 <= t.month <= 12 && 1 <= t.day <= 31 && t.hour < 24 && t.minute < 60
  }

  /** `strftime('%Y%m%d%H%M')`. */
  function StampText(t: Minute): (s: string)
    requires ValidMinute(t)
    ensures |s| == 12 && AllDigits(s)
  {
    Pad4(t.year) + Pad2(t.month) + Pad2(t.day) + Pad2(t.hour) + Pad2(t.minute)
  }

  /** Reading the twelve digits back. */
  function ParseStamp(s: string): Minute
    requires |s| == 12 && AllDigits(s)
  {
    Minute(DigitsValue(s[..4]), DigitsValue(s[4..6]), DigitsValue(s[6..8]), DigitsValue(s[8..10]),
           DigitsValue(s[10..]))
  }

  /** The timestamp text determines the minute. */
  lemma StampRoundTrip(t: Minute)
    requires ValidMinute(t)
    ensures ParseStamp(StampText(t)) == t
  {
    var s := StampText(t);
    assert s[..4] == Pad4(t.year);
    assert s[4..6] == Pad2(t.month);
    assert s[6..8] == Pad2(t.day);
    assert s[8..10] == Pad2(t.hour);
    assert s[10..] == Pad2(t.minute);
  }

  /** `int(x)` for a finite float: truncation toward zero. */
  function Truncate(v: real): (i: int)
    ensures v >= 0.0 ==> i as real <= v < i as real + 1.0
    ensures v < 0.0 ==> i as real - 1.0 < v <= i as real
  {
    if v >= 0.0 then v.Floor else -((-v).Floor)
  }

  /** The range part of the key: `int(range_pct)` for an int, a bool or a
      float that is not NaN, 0 otherwise; an infinity makes `int()` raise
      `OverflowError`. */
  function RangeValue(range: Json): (r: Outcome<int>)
    ensures r.Raises? <==> range.JNum? && (range.f.PosInf? || range.f.NegInf?)
    ensures r.Raises? ==> r.error == OverflowError
    ensures !range.JInt? && !range.JBool? && !range.JNum? ==> r == Returns(0)
  {
    match range
    case JInt(i) => Returns(i)
    case JBool(b) => Returns(if b then 1 else 0)
    case JNum(Finite(v)) => Returns(Truncate(v))
    case JNum(NaN) => Returns(0)
    case JNum(_) => Raises(OverflowError)
    case _ => Returns(0)
  }

  /** `generate_cache_key` at the minute `now`. */
  function GenerateCacheKey(symbol: string, dte: string, range: Json, now: Minute): (r: Outcome<string>)
    requires ValidMinute(now)
    ensures r.Returns? <==> RangeValue(range).Returns?
  {
    match RangeValue(range)
    case Raises(e) => Raises(e)
    case Returns(n) => Returns(KeyText(symbol, dte, n, now))
  }

  /** The key text: `f"{SYMBOL}_{dte}_{n}pct_{stamp}"`. */
  function KeyText(symbol: string, dte: string, n: int, now: Minute): string
    requires ValidMinute(now)
  {
    (Upper(Strip(symbol)) + "_") + (Strip(dte) + "_" + IntToDecimal(n) + "pct_") + StampText(now)
  }

  /** The key starts with the stripped, upper-cased symbol and an
      underscore, and its last twelve characters give back the minute. */
  lemma KeyLayout(symbol: string, dte: string, range: Json, now: Minute)
    requires ValidMinute(now) && RangeValue(range).Returns?
    ensures var key := GenerateCacheKey(symbol, dte, range, now).value;
      var head := Upper(Strip(symbol)) + "_";
      |key| > |head| + 12 && key[..|head|] == head &&
      AllDigits(key[|key| - 12..]) && ParseStamp(key[|key| - 12..]) == now
  {
    var head := Upper(Strip(symbol)) + "_";
    var middle := Strip(dte) + "_" + IntToDecimal(RangeValue(range).value) + "pct_";
    var stamp := StampText(now);
    assert GenerateCacheKey(symbol, dte, range, now).value == KeyText(symbol, dte, RangeValue(range).value, now);
    assert KeyText(symbol, dte, RangeValue(range).value, now) == head + middle + stamp;
    KeyShape(head, middle, stamp);
    StampRoundTrip(now);
  }

  /** A missing or non-numeric range and a range of 0 give the same key;
      so does a float range and its truncation. */
  lemma RangeNormalized(symbol: string, dte: string, range: Json, now: Minute)
    requires ValidMinute(now) && RangeValue(range).Returns?
    ensures GenerateCacheKey(symbol, dte, range, now) == GenerateCacheKey(symbol, dte, Int(RangeValue(range).value), now)
  {
  }

  /** Keys made in different minutes differ. */
  lemma KeysChangeEachMinute(symbol: string, dte: string, range: Json, t1: Minute, t2: Minute)
    requires ValidMinute(t1) && ValidMinute(t2) && t1 != t2 && RangeValue(range).Returns?
    ensures GenerateCacheKey(symbol, dte, range, t1) != GenerateCacheKey(symbol, dte, range, t2)
  {
    KeyLayout(symbol, dte, range, t1);
    KeyLayout(symbol, dte, range, t2);
  }

  lemma KeyShape(head: string, middle: string, stamp: string)
    requires |stamp| == 12
    ensures var key := head + middle + stamp;
      |key| >= |head| + 12 && key[..|head|] == head && key[|key| - 12..] == stamp
  {
    var key := head + middle + stamp;
    assert key[..|head|] == head;
    assert key[|key| - 12..] == stamp;
  }

  // ---------------------------------------------------------------------
  // Status messages

  const StatusStylePath: seq<string> := ["visualization_settings", "dashboard", "styles", "status_display"]

  const BaseStyleDefault: map<string, Json> := map[
    "padding" := Str("10px"), "textAlign" := Str("center"), "borderRadius" := Str("5px"),
    "fontSize" := Str("1em"), "minHeight" := Str("30px"), "fontWeight" := Str("500")]

  const ErrorStyleDefault: map<string, Json> := map[
    "color" := Str("#f8d7da"), "backgroundColor" := Str("#721c24"), "border" := Str("1px solid #f5c6cb")]

  const SuccessStyleDefault: map<string, Json> := map[
    "color" := Str("#d4edda"), "backgroundColor" := Str("#155724"), "border" := Str("1px solid #c3e6cb")]

  const InfoStyleDefault: map<string, Json> := map[
    "color" := Str("#bee5eb"), "backgroundColor" := Str("#0c5460"), "border" := Str("1px solid #bee5eb")]

  /** The words that mark an error message as already explicit. */
  const ErrorWords: seq<string> := ["error", "failed", "critical"]

  /** The words that mark a success message; the last is the check mark as
      the source file spells it, three characters decoded the wrong way. */
  const SuccessWords: seq<string> := ["success", "loaded", "completed", "\U{00E2}\U{0153}\U{201C}"]

  /** Some word of `words` occurs in the lower-cased message. */
  predicate Mentions(message: string, words: seq<string>) {
    exists i :: 0 <= i < |words| && Contains(Lower(message), words[i])
  }

  /** A style read from the configuration: the dict found under `name`, or
      the default when the value is not a dict. */
  function StyleFor(cache: Json, name: string, default: map<string, Json>): map<string, Json> {
    var v := ConfigValue(cache, StatusStylePath + [name], Obj(default));
    if v.JObj? then v.fields else default
  }

  /** The category style of a message and the name it is configured under. */
  function CategoryName(message: string, isError: bool): string {
    if isError then "error" else if Mentions(message, SuccessWords) then "success" else "info"
  }

  function CategoryDefault(message: string, isError: bool): map<string, Json> {
    if isError then ErrorStyleDefault else if Mentions(message, SuccessWords) then SuccessStyleDefault else InfoStyleDefault
  }

  /** `format_status_message`: the text shown (the `html.Div` wrapper is left
      out) and the style, the base style overlaid by the category style. */
  function FormatStatusMessage(cache: Json, message: string, isError: bool): (r: (string, map<string, Json>))
    ensures !isError ==> r.0 == message
    ensures isError && Mentions(message, ErrorWords) ==> r.0 == message
    ensures isError && !Mentions(message, ErrorWords) ==> r.0 == "Error: " + message
  {
    var base := StyleFor(cache, "base", BaseStyleDefault);
    var category := StyleFor(cache, CategoryName(message, isError), CategoryDefault(message, isError));
    var prefix := if isError && !Mentions(message, ErrorWords) then "Error: " else "";
    (prefix + message, base + category)
  }

  /** The style holds every key of the base and of the category style; the
      category's value wins, and the base's value stays where the category
      has none. */
  lemma StyleOverlay(cache: Json, message: string, isError: bool)
    ensures var style := FormatStatusMessage(cache, message, isError).1;
      var base := StyleFor(cache, "base", BaseStyleDefault);
      var category := StyleFor(cache, CategoryName(message, isError), CategoryDefault(message, isError));
      style.Keys == base.Keys + category.Keys &&
      (forall k :: k in category ==> style[k] == category[k]) &&
      (forall k :: k in base && k !in category ==> style[k] == base[k])
  {
  }

  /** Formatting an error message twice adds the prefix at most once: the
      prefixed text mentions "error". */
  lemma ErrorPrefixOnce(cache: Json, message: string)
    ensures var once := FormatStatusMessage(cache, message, true).0;
      FormatStatusMessage(cache, once, true).0 == once
  {
    var once := FormatStatusMessage(cache, message, true).0;
    if !Mentions(message, ErrorWords) {
      var low := Lower(once);
      assert low[0] == 'e' && low[1] == 'r' && low[2] == 'r' && low[3] == 'o' && low[4] == 'r';
      assert low[0..5] == "error";
      assert OccursAt(low, ErrorWords[0], 0);
    }
  }

  /** Without styles in the configuration an error message gets the built-in
      error colours over the built-in base style. */
  lemma DefaultErrorStyle(cache: Json, message: string)
    requires !cache.JObj?
    ensures FormatStatusMessage(cache, message, true).1 == BaseStyleDefault + ErrorStyleDefault
    ensures FormatStatusMessage(cache, message, true).1["color"] == Str("#f8d7da")
    ensures FormatStatusMessage(cache, message, true).1["padding"] == Str("10px")
  {
  }

  /** A message that mentions "loaded" is a success message. */
  lemma LoadedIsSuccess(message: string, i: nat)
    requires OccursAt(Lower(message), "loaded", i)
    ensures CategoryName(message, false) == "success"
  {
    assert Contains(Lower(message), SuccessWords[1]);
  }
}
