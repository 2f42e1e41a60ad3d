/**
 * The rounding the calculator applies to its exact results: `math.ceil` on a
 * per-period payment and `int(...)` on the reported overpayment. Floats are
 * modelled as exact reals.
 */
module Rounding {

  /** `math.ceil`: the least integer that is not below `x`. */
  function Ceil(x: real): (r: int)
    ensures x <= r as real < x + 1.0
  {
    -((-x).Floor)
  }

  /** `int(x)` on a float: drops the fraction, rounding toward zero. */
  function Trunc(x: real): (r: int)
    ensures 0.0 <= x ==> 0 <= r && r as real <= x < r as real + 1.0
    ensures x < 0.0 ==> r <= 0 && r as real - 1.0 < x <= r as real
  {
    if x >= 0.0 then x.Floor else -((-x).Floor)
  }

  /**
   * The overpayment every branch reports: `int(total_paid - principal)`,
   * the amount repaid beyond the principal with its fraction dropped.
   */
  function Overpayment(totalPaid: real, principal: real): (r: int)
    ensures principal <= totalPaid ==> 0 <= r && r as real <= totalPaid - principal < r as real + 1.0
    ensures totalPaid < principal ==> r <= 0 && totalPaid - principal <= r as real < totalPaid - principal + 1.0
    ensures 0 <= r <==> principal - 1.0 < totalPaid
  {
    Trunc(totalPaid - principal)
  }

  /** A ceiling never decreases as its argument grows. */
  lemma CeilMonotone(x: real, y: real)
    requires x <= y
    ensures Ceil(x) <= Ceil(y)
  {
  }

  /** When both amounts are whole, nothing is dropped: the overpayment is the exact difference. */
  lemma OverpaymentOfWholeAmounts(totalPaid: int, principal: int)
    ensures Overpayment(totalPaid as real, principal as real) == totalPaid - principal
  {
  }
}
