/** The two pieces of Java arithmetic the overlay renderer depends on: `double`
    values, which may become infinite or NaN instead of throwing, and `int`
    division, which truncates toward zero and throws on a zero divisor. */
module JavaNum {

  /** A Java `double` with its rounding ignored. `NonFinite` stands for both
      infinities and NaN, which the model does not tell apart. */
  datatype Double = Finite(v: real) | NonFinite

  /** `a * b`: infinity times anything, and NaN times anything, is non-finite. */
  function Times(a: Double, b: Double): Double
  {
    if a.Finite? && b.Finite? then Finite(a.v * b.v) else NonFinite
  }

  /** `a + b`: any non-finite operand makes a non-finite sum. */
  function Plus(a: Double, b: Double): Double
  {
    if a.Finite? && b.Finite? then Finite(a.v + b.v) else NonFinite
  }

  /** `a - b`: any non-finite operand makes a non-finite difference. */
  function Minus(a: Double, b: Double): Double
  {
    if a.Finite? && b.Finite? then Finite(a.v - b.v) else NonFinite
  }

  /** `a / b` for a finite divisor: dividing by zero gives an infinity or NaN. */
  function Divide(a: Double, b: real): Double
  {
    if a.Finite? && b != 0.0 then Finite(a.v / b) else NonFinite
  }

  function Abs(x: int): nat
  {
    if x < 0 then -x else x
  }

  /** Java's `a / b` on `int` for a non-negative dividend: the quotient is
      truncated toward zero, so `q * b` never overshoots `a` and falls short of
      it by less than one divisor. (The one overflowing case of Java's
      division needs a negative dividend.) */
  function IntDiv(a: nat, b: int): (q: int)
    requires b != 0
    ensures 0 <= q * b <= a < q * b + Abs(b)
  {
    if b > 0 then a / b
    else
      var n := a / -b;
      assert n * -b <= a < n * -b + -b;
      -n
  }
}
