// The outcome of a float64 division as numpy computes it on scalars: a
// finite quotient, or, when the divisor is zero, +inf, -inf or NaN (with a
// warning, never an exception). Comparisons against a finite threshold follow
// IEEE 754: every comparison with NaN is false.
module Floats {
  import opened Wrappers

  datatype Float = Fin(r: real) | PosInf | NegInf | NaN

  /** numpy's a / b. */
  function Div(a: real, b: real): (q: Float)
    ensures b != 0.0 ==> q == Fin(a / b)
    ensures b == 0.0 ==> (q == PosInf <==> a > 0.0) && (q == NegInf <==> a < 0.0) && (q == NaN <==> a == 0.0)
  {
    if b != 0.0 then Fin(a / b)
    else if a > 0.0 then PosInf
    else if a < 0.0 then NegInf
    else NaN
  }

  /** A missing operand (NaN) makes the quotient NaN. */
  function DivOpt(a: Option<real>, b: Option<real>): (q: Float)
    ensures (a.None? || b.None?) ==> q == NaN
    ensures a.Some? && b.Some? ==> q == Div(a.value, b.value)
  {
    if a.Some? && b.Some? then Div(a.value, b.value) else NaN
  }

  /** Multiplication by a positive finite constant keeps infinities and NaN. */
  function ScaleBy(x: Float, c: real): (y: Float)
    requires c > 0.0
    ensures x.Fin? <==> y.Fin?
    ensures x.Fin? ==> y.r == x.r * c
    ensures x == PosInf <==> y == PosInf
    ensures x == NegInf <==> y == NegInf
  {
    match x
    case Fin(r) => Fin(r * c)
    case _ => x
  }

  /** x > c as IEEE 754 compares a float with a finite constant. */
  predicate Greater(x: Float, c: real) {
    match x
    case Fin(r) => r > c
    case PosInf => true
    case NegInf => false
    case NaN => false
  }

  /** x < c as IEEE 754 compares a float with a finite constant. */
  predicate Less(x: Float, c: real) {
    match x
    case Fin(r) => r < c
    case PosInf => false
    case NegInf => true
    case NaN => false
  }
}
