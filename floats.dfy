/** The classes of an IEEE double that the source tests for (`pd.notna`,
    `np.isfinite`, comparisons against NaN), with finite values as exact reals.
    Rounding and overflow of finite arithmetic are not modelled. */
module Floats {

  datatype Float = Finite(v: real) | PosInf | NegInf | NaN

  const Zero: Float := Finite(0.0)

  predicate IsFinite(x: Float) {
    x.Finite?
  }

  /** `pd.notna` / `pd.isna` on a float. */
  predicate IsNaN(x: Float) {
    x.NaN?
  }

  /** The IEEE order on non-NaN values; every comparison with NaN is false. */
  predicate Le(x: Float, y: Float) {
    match (x, y)
    case (NaN, _) => false
    case (_, NaN) => false
    case (NegInf, _) => true
    case (_, PosInf) => true
    case (PosInf, _) => false
    case (_, NegInf) => false
    case (Finite(a), Finite(b)) => a <= b
  }

  predicate Lt(x: Float, y: Float) {
    Le(x, y) && !Le(y, x)
  }

  predicate Ge(x: Float, y: Float) {
    Le(y, x)
  }

  predicate Gt(x: Float, y: Float) {
    Lt(y, x)
  }

  function Neg(x: Float): (r: Float)
    ensures r.NaN? <==> x.NaN?
    ensures x.Finite? ==> r == Finite(-x.v)
  {
    match x
    case Finite(a) => Finite(-a)
    case PosInf => NegInf
    case NegInf => PosInf
    case NaN => NaN
  }

  function Abs(x: Float): (r: Float)
    ensures !r.NegInf?
    ensures r.NaN? <==> x.NaN?
    ensures r.Finite? ==> x.Finite? && r.v >= 0.0 && (r.v == x.v || r.v == -x.v)
  {
    match x
    case Finite(a) => Finite(if a < 0.0 then -a else a)
    case NegInf => PosInf
    case _ => x
  }

  /** IEEE addition: NaN is absorbing and infinities of opposite sign give NaN. */
  function Add(x: Float, y: Float): (r: Float)
    ensures r.NaN? <==> x.NaN? || y.NaN? || (x.PosInf? && y.NegInf?) || (x.NegInf? && y.PosInf?)
    ensures x.Finite? && y.Finite? ==> r == Finite(x.v + y.v)
  {
    match (x, y)
    case (NaN, _) => NaN
    case (_, NaN) => NaN
    case (PosInf, NegInf) => NaN
    case (NegInf, PosInf) => NaN
    case (PosInf, _) => PosInf
    case (_, PosInf) => PosInf
    case (NegInf, _) => NegInf
    case (_, NegInf) => NegInf
    case (Finite(a), Finite(b)) => Finite(a + b)
  }

  function Sub(x: Float, y: Float): Float {
    Add(x, Neg(y))
  }

  function SignedInf(positive: bool): Float {
    if positive then PosInf else NegInf
  }

  /** IEEE multiplication: an infinity times zero is NaN, otherwise signs multiply. */
  function Mul(x: Float, y: Float): (r: Float)
    ensures x.Finite? && y.Finite? ==> r == Finite(x.v * y.v)
    ensures x.NaN? || y.NaN? ==> r.NaN?
  {
    if x.NaN? || y.NaN? then NaN
    else if x.Finite? && y.Finite? then Finite(x.v * y.v)
    else if x.Finite? then (if x.v == 0.0 then NaN else SignedInf((x.v > 0.0) == y.PosInf?))
    else if y.Finite? then (if y.v == 0.0 then NaN else SignedInf((y.v > 0.0) == x.PosInf?))
    else SignedInf(x.PosInf? == y.PosInf?)
  }

  /** Python's two-argument `max(a, b)`: `b` only when `b > a`, so a NaN first
      argument is kept and a NaN second argument is ignored. */
  function PyMax(a: Float, b: Float): (r: Float)
    ensures r == a || r == b
    ensures !a.NaN? && !b.NaN? ==> Ge(r, a) && Ge(r, b)
  {
    if Gt(b, a) then b else a
  }

  /** Python's two-argument `min(a, b)`. */
  function PyMin(a: Float, b: Float): (r: Float)
    ensures r == a || r == b
  {
    if Lt(b, a) then b else a
  }

  lemma LeTransitive(x: Float, y: Float, z: Float)
    requires Le(x, y) && Le(y, z)
    ensures Le(x, z)
  {
  }
}
