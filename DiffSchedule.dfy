/**
 * The differentiated payment schedule: for each month 1..n the payment
 * P/n + i*(P - P*(m-1)/n), rounded up, and the overpayment of their sum over
 * the principal.
 *
 * The per-month amount is computed over exact reals. This idealises the
 * float arithmetic of `loan_calculator.py`: a float rounding error just below a
 * whole number can make `math.ceil` land one higher or lower there. The
 * structural facts (length, month order, total equals sum) do not depend
 * on this.
 */
module DiffSchedule {
  import opened Rounding
  import Dispatch

  /** One line of the schedule: "Month {month}: payment is {payment}". */
  datatype Line = Line(month: int, payment: int)

  /**
   * The exact payment due in `month`: an equal share of the principal plus
   * a month's interest on the principal not yet repaid at its start.
   */
  function ExactPayment(principal: real, periods: int, rate: real, month: int): real
    requires 1 <= periods
  {
    principal / periods as real + rate * (principal - principal * (month - 1) as real / periods as real)
  }

  /** How many months `range(1, periods + 1)` runs over. */
  function MonthCount(periods: int): nat
  {
    if periods < 0 then 0 else periods
  }

  /** The schedule the source prints: month m on line m, its exact payment rounded up. */
  function Schedule(principal: real, periods: int, rate: real): (s: seq<Line>)
  {
    seq(MonthCount(periods), k requires 0 <= k < MonthCount(periods) =>
      Line(k + 1, Ceil(ExactPayment(principal, periods, rate, k + 1))))
  }

  /** The sum of the payments on `lines`. */
  function TotalPaid(lines: seq<Line>): int
  {
    if lines == [] then 0 else TotalPaid(lines[..|lines| - 1]) + lines[|lines| - 1].payment
  }

  /**
   * The loop of the source: one line per month, in order, with `totalPaid`
   * always the sum of the payments emitted so far; then the overpayment of
   * that total over the principal.
   */
  method CalculateDiffPayments(principal: real, periods: int, rate: real)
    returns (lines: seq<Line>, overpayment: int)
    ensures lines == Schedule(principal, periods, rate)
    ensures overpayment == Overpayment(TotalPaid(lines) as real, principal)
  {
    var totalPaid := 0;
    lines := [];
    var month := 1;
    while month <= periods
      invariant 1 <= month <= MonthCount(periods) + 1
      invariant lines == Schedule(principal, periods, rate)[..month - 1]
      invariant totalPaid == TotalPaid(lines)
    {
      var payment := ExactPayment(principal, periods, rate, month);
      var roundedPayment := Ceil(payment);
      totalPaid := totalPaid + roundedPayment;
      assert (lines + [Line(month, roundedPayment)])[..|lines|] == lines;
      lines := lines + [Line(month, roundedPayment)];
      month := month + 1;
    }
    assert lines == Schedule(principal, periods, rate);
    overpayment := Overpayment(totalPaid as real, principal);
  }

  /**
   * The shape of the schedule: `periods` lines (none when it is not
   * positive), numbered 1, 2, ... in increasing order, each payment the
   * least whole amount not below the exact one.
   */
  lemma ScheduleShape(principal: real, periods: int, rate: real)
    ensures var s := Schedule(principal, periods, rate);
            && |s| == MonthCount(periods)
            && (forall k :: 0 <= k < |s| ==> s[k].month == k + 1)
            && (forall j, k :: 0 <= j < k < |s| ==> s[j].month < s[k].month)
            && (forall k :: 0 <= k < |s| ==>
                  var exact := ExactPayment(principal, periods, rate, k + 1);
                  exact <= s[k].payment as real < exact + 1.0)
  {
  }

  /** With a non-negative principal and rate, a later month never owes more exactly. */
  lemma ExactPaymentNonIncreasing(principal: real, periods: int, rate: real, m1: int, m2: int)
    requires 0.0 <= principal && 1 <= periods && 0.0 <= rate
    requires m1 <= m2
    ensures ExactPayment(principal, periods, rate, m2) <= ExactPayment(principal, periods, rate, m1)
  {
  }

  /** With a non-negative principal and rate, the rounded payments do not increase from month to month. */
  lemma ScheduleNonIncreasing(principal: real, periods: int, rate: real)
    requires 0.0 <= principal && 0.0 <= rate
    ensures var s := Schedule(principal, periods, rate);
            forall j, k :: 0 <= j < k < |s| ==> s[k].payment <= s[j].payment
  {
    var s := Schedule(principal, periods, rate);
    forall j, k | 0 <= j < k < |s|
      ensures s[k].payment <= s[j].payment
    {
      ExactPaymentNonIncreasing(principal, periods, rate, j + 1, k + 1);
      CeilMonotone(ExactPayment(principal, periods, rate, k + 1), ExactPayment(principal, periods, rate, j + 1));
    }
  }

  /** Every month of the loan repays at least its equal share of the principal. */
  lemma ExactPaymentCoversShare(principal: real, periods: int, rate: real, month: int)
    requires 0.0 <= principal && 1 <= periods && 0.0 <= rate
    requires 1 <= month <= periods
    ensures principal / periods as real <= ExactPayment(principal, periods, rate, month)
  {
  }

  /** Lines that each pay at least `least` together pay at least that many times `least`. */
  lemma {:induction false} TotalPaidAtLeast(lines: seq<Line>, least: real)
    requires forall k :: 0 <= k < |lines| ==> least <= lines[k].payment as real
    ensures |lines| as real * least <= TotalPaid(lines) as real
  {
    if lines != [] {
      var init := lines[..|lines| - 1];
      TotalPaidAtLeast(init, least);
      assert |lines| as real * least == |init| as real * least + least;
    }
  }

  /**
   * With a non-negative principal and rate and at least one month, the
   * payments together repay the whole principal, so the reported
   * overpayment is never negative.
   */
  lemma OverpaymentNonNegative(principal: real, periods: int, rate: real)
    requires 0.0 <= principal && 1 <= periods && 0.0 <= rate
    ensures principal <= TotalPaid(Schedule(principal, periods, rate)) as real
    ensures 0 <= Overpayment(TotalPaid(Schedule(principal, periods, rate)) as real, principal)
  {
    var s := Schedule(principal, periods, rate);
    var share := principal / periods as real;
    forall k | 0 <= k < |s|
      ensures share <= s[k].payment as real
    {
      ExactPaymentCoversShare(principal, periods, rate, k + 1);
    }
    TotalPaidAtLeast(s, share);
    assert periods as real * share == principal;
  }

  /**
   * A differentiated computation that the entry point dispatches runs on a
   * non-negative principal and rate, so its schedule has the properties
   * above: payments that never increase and, when there is at least one
   * month, an overpayment that is not negative.
   */
  lemma DispatchedSchedule(x: Dispatch.LoanInput)
    requires Dispatch.Classify(x).DiffPayments?
    ensures var a := Dispatch.Classify(x);
            var s := Schedule(a.principal, a.periods, a.rate);
            && |s| == a.periods
            && (forall j, k :: 0 <= j < k < |s| ==> s[k].payment <= s[j].payment)
            && (1 <= a.periods ==> 0 <= Overpayment(TotalPaid(s) as real, a.principal))
  {
    var a := Dispatch.Classify(x);
    ScheduleNonIncreasing(a.principal, a.periods, a.rate);
    if 1 <= a.periods {
      OverpaymentNonNegative(a.principal, a.periods, a.rate);
    }
  }
}
