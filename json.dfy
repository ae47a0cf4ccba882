/** Python values as they appear in parsed JSON configuration trees, IV
    context dictionaries, scores and cached data bundles, together with the
    built-in conversions the source applies to them. Dictionary key order is
    not represented. */
module Json {
  import opened Outcomes
  import opened Floats
  import Text

  datatype Json =
    | JNull
    | JBool(b: bool)
    | JInt(i: int)
    | JNum(f: Float)
    | JStr(s: string)
    | JList(items: seq<Json>)
    | JObj(fields: map<string, Json>)

  /** A non-empty dict, the test `isinstance(x, dict) and x` of the source. */
  predicate IsNonEmptyObj(j: Json) {
    j.JObj? && j.fields != map[]
  }

  /** `isinstance(x, int)`, which in Python is also true of `True` and `False`;
      the integer value when it is. */
  function AsPyInt(j: Json): (r: Option<int>)
    ensures r.Some? <==> j.JInt? || j.JBool?
    ensures j.JInt? ==> r == Some(j.i)
    ensures j.JBool? ==> r == Some(if j.b then 1 else 0)
  {
    match j
    case JInt(i) => Some(i)
    case JBool(b) => Some(if b then 1 else 0)
    case _ => None
  }

  /** Python's `float(x)`: numbers and booleans convert, numeric text is
      parsed, text that is not a number raises `ValueError` and every other
      type raises `TypeError`. */
  function ToFloat(j: Json): (r: Outcome<Float>)
    ensures j.JInt? ==> r == Returns(Finite(j.i as real))
    ensures j.JNum? ==> r == Returns(j.f)
    ensures (j.JNull? || j.JList? || j.JObj?) ==> r == Raises(TypeError)
    ensures r.Raises? ==> r.error == TypeError || r.error == ValueError
  {
    match j
    case JBool(b) => Returns(Finite(if b then 1.0 else 0.0))
    case JInt(i) => Returns(Finite(i as real))
    case JNum(f) => Returns(f)
    case JStr(s) =>
      (match Text.ParseNumber(s)
       case Some(f) => Returns(f)
       case None => Raises(ValueError))
    case _ => Raises(TypeError)
  }

  /** `d.get(key, default)` on a dict. */
  function Get(d: map<string, Json>, key: string, default: Json): (r: Json)
    ensures key in d ==> r == d[key]
    ensures key !in d ==> r == default
  {
    if key in d then d[key] else default
  }

  /** `x.get(key, default)` on any value: only a dict has `.get`, so any other
      value raises `AttributeError`. */
  function DictGet(j: Json, key: string, default: Json): (r: Outcome<Json>)
    ensures r.Returns? <==> j.JObj?
    ensures j.JObj? ==> r.value == Get(j.fields, key, default)
    ensures r.Raises? ==> r.error == AttributeError
  {
    if j.JObj? then Returns(Get(j.fields, key, default)) else Raises(AttributeError)
  }

  /** Whether a value can be a dict key or a set member (lists and dicts cannot). */
  predicate Hashable(j: Json) {
    !j.JList? && !j.JObj?
  }

  /** The items `for x in j` visits: list elements, the characters of a
      string, the keys of a dict; any other value is not iterable. Only which
      items are visited is kept, not their order or repetition. */
  function IterItems(j: Json): (r: Outcome<set<Json>>)
    ensures r.Returns? <==> j.JList? || j.JStr? || j.JObj?
    ensures j.JList? ==> r.value == set x | x in j.items
    ensures j.JObj? ==> r.value == set k | k in j.fields :: JStr(k)
    ensures r.Raises? ==> r.error == TypeError
  {
    match j
    case JList(xs) => Returns(set x | x in xs)
    case JStr(s) => Returns(set c | c in s :: JStr([c]))
    case JObj(m) => Returns(set k | k in m :: JStr(k))
    case _ => Raises(TypeError)
  }

  /** `j > 0`: numbers and booleans compare, every other type raises `TypeError`. */
  function GreaterThanZero(j: Json): (r: Outcome<bool>)
    ensures r.Returns? <==> j.JInt? || j.JBool? || j.JNum?
    ensures j.JInt? ==> r.value == (j.i > 0)
    ensures j.JNum? ==> r.value == Gt(j.f, Zero)
  {
    match j
    case JInt(i) => Returns(i > 0)
    case JBool(b) => Returns(b)
    case JNum(f) => Returns(Gt(f, Zero))
    case _ => Raises(TypeError)
  }

  /** `str(j)` where the model can render it: text, integers, booleans and
      `None`. Floats and containers are not rendered. */
  function StrOf(j: Json): (r: Option<string>)
    ensures j.JStr? ==> r == Some(j.s)
    ensures r.Some? ==> !j.JList? && !j.JObj?
  {
    match j
    case JStr(s) => Some(s)
    case JInt(i) => Some(Text.IntToDecimal(i))
    case JBool(b) => Some(if b then "True" else "False")
    case JNull => Some("None")
    case _ => None
  }

  // Short constructors for writing configuration trees.

  function Real(r: real): Json {
    JNum(Finite(r))
  }

  function Int(i: int): Json {
    JInt(i)
  }

  function Str(s: string): Json {
    JStr(s)
  }

  function Bool(b: bool): Json {
    JBool(b)
  }

  function Obj(m: map<string, Json>): Json {
    JObj(m)
  }

  function List(xs: seq<Json>): Json {
    JList(xs)
  }
}
