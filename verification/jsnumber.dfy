/**
 * The part of JavaScript's IEEE-754 `number` that the player arithmetic can reach:
 * finite values (modelled exactly, without rounding), the two infinities that a
 * division by zero yields, and NaN. Negative zero is not distinguished from zero.
 */
module JsNumber {

  datatype Num = Finite(v: real) | PosInf | NegInf | NaN {

    predicate IsNaN() {
      this.NaN?
    }

    /** Order on the non-NaN values: -Infinity < every finite value < +Infinity. */
    predicate AtMost(other: Num)
      requires !IsNaN() && !other.IsNaN()
    {
      match this
      case NegInf => true
      case PosInf => other.PosInf?
      case Finite(a) => other.PosInf? || (other.Finite? && a <= other.v)
    }
  }

  /** `a / b` on two finite operands. */
  function Div(a: real, b: real): (r: Num)
    ensures r.IsNaN() <==> a == 0.0 && b == 0.0
    ensures b != 0.0 ==> r == Finite(a / b)
    ensures r.PosInf? <==> b == 0.0 && a > 0.0
    ensures r.NegInf? <==> b == 0.0 && a < 0.0
  {
    if b != 0.0 then Finite(a / b)
    else if a > 0.0 then PosInf
    else if a < 0.0 then NegInf
    else NaN
  }

  /** `Math.max(x, y)`: NaN if either argument is NaN. */
  function Max(x: Num, y: Num): (r: Num)
    ensures r.IsNaN() <==> x.IsNaN() || y.IsNaN()
    ensures !r.IsNaN() ==> x.AtMost(r) && y.AtMost(r) && (r == x || r == y)
  {
    if x.IsNaN() || y.IsNaN() then NaN
    else if x.AtMost(y) then y
    else x
  }

  /** `Math.min(x, y)`: NaN if either argument is NaN. */
  function Min(x: Num, y: Num): (r: Num)
    ensures r.IsNaN() <==> x.IsNaN() || y.IsNaN()
    ensures !r.IsNaN() ==> r.AtMost(x) && r.AtMost(y) && (r == x || r == y)
  {
    if x.IsNaN() || y.IsNaN() then NaN
    else if x.AtMost(y) then x
    else y
  }

  /** `Math.min(Math.max(x, 0), 1)`, the clamp both seekbars and both lyric views use. */
  function Clamp01(x: Num): (r: Num)
    ensures r.IsNaN() <==> x.IsNaN()
    ensures !r.IsNaN() ==> r.Finite? && 0.0 <= r.v <= 1.0
    ensures x.Finite? && 0.0 <= x.v <= 1.0 ==> r == x
    ensures x.PosInf? ==> r == Finite(1.0)
    ensures x.NegInf? ==> r == Finite(0.0)
  {
    Min(Max(x, Finite(0.0)), Finite(1.0))
  }

  /** `x * k` for a finite factor `k`. */
  function Mul(x: Num, k: real): (r: Num)
    ensures r.IsNaN() <==> x.IsNaN() || (k == 0.0 && !x.Finite?)
    ensures x.Finite? ==> r == Finite(x.v * k)
  {
    match x
    case Finite(a) => Finite(a * k)
    case NaN => NaN
    case PosInf => if k > 0.0 then PosInf else if k < 0.0 then NegInf else NaN
    case NegInf => if k > 0.0 then NegInf else if k < 0.0 then PosInf else NaN
  }
}
