/** The two places where the reports' float64 arithmetic leaves the reals: a
    division whose divisor is zero, and `math.Ceil`. */
module Floats {

  /** An IEEE 754 double as far as the reports can tell: a finite value, an
      infinity, or NaN. Rounding is not modelled. */
  datatype Float = Finite(v: real) | PosInf | NegInf | NaN

  /** `a / b` on float64 with both operands finite: dividing a non-zero value
      by zero gives an infinity of its sign, and 0/0 gives NaN. */
  function Quotient(a: real, b: real): (q: Float)
    ensures q.Finite? <==> b != 0.0
    ensures q.NaN? <==> a == 0.0 && b == 0.0
    ensures q.Finite? ==> q.v * b == a
  {
    if b != 0.0 then Finite(a / b)
    else if a > 0.0 then PosInf
    else if a < 0.0 then NegInf
    else NaN
  }

  /** `f > 0` on a double: false for NaN and for negative infinity. */
  predicate Positive(f: Float)
  {
    match f
    case Finite(v) => v > 0.0
    case PosInf => true
    case NegInf => false
    case NaN => false
  }

  /** A quotient is positive exactly when its operands have the same strict
      sign, or the divisor is zero and the dividend positive. */
  lemma QuotientPositive(a: real, b: real)
    ensures Positive(Quotient(a, b)) <==> (b > 0.0 && a > 0.0) || (b < 0.0 && a < 0.0) || (b == 0.0 && a > 0.0)
  {
    if b > 0.0 && a <= 0.0 {
      assert a / b <= 0.0;
    }
    if b < 0.0 && a >= 0.0 {
      assert a / b <= 0.0;
    }
  }

  /** `math.Ceil`: the least integer not below `x`. */
  function Ceil(x: real): (n: int)
    ensures n as real >= x
    ensures (n - 1) as real < x
  {
    -((-x).Floor)
  }
}
