/**
 * The validation and dispatch chain of the calculator's entry point: from
 * the five optional command-line arguments to either a rejection
 * ("Incorrect parameters") or exactly one of the four computations, together
 * with the overpayment each annuity computation reports.
 */
module Dispatch {
  import opened Wrappers
  import opened Rounding

  /** The two values `--type` accepts. */
  datatype Scheme = Annuity | Differentiated

  /** The parsed arguments; `None` is an argument that was not given. */
  datatype LoanInput = LoanInput(
    kind: Option<Scheme>,
    payment: Option<real>,
    principal: Option<real>,
    periods: Option<int>,
    interest: Option<real>)

  /**
   * What the entry point does with its arguments: reject them, or run one
   * computation on the arguments it passes (with the nominal monthly rate).
   */
  datatype Action =
    | Invalid
    | DiffPayments(principal: real, periods: int, rate: real)
    | AnnuityPayment(principal: real, periods: int, rate: real)
    | AnnuityPrincipal(payment: real, periods: int, rate: real)
    | AnnuityPeriods(principal: real, payment: real, rate: real)

  /** The monthly rate as a fraction, from the annual interest in percent. */
  function NominalRate(interest: real): (rate: real)
    ensures rate * 1200.0 == interest
    ensures 0.0 <= interest ==> 0.0 <= rate
  {
    interest / 100.0 / 12.0
  }

  /** Some numeric argument was given and is negative. */
  predicate NegativeSupplied(x: LoanInput)
  {
    || (x.payment.Some? && x.payment.value < 0.0)
    || (x.principal.Some? && x.principal.value < 0.0)
    || (x.periods.Some? && x.periods.value < 0)
    || (x.interest.Some? && x.interest.value < 0.0)
  }

  /** How many of payment, principal and periods were not given. */
  function MissingCount(x: LoanInput): nat
  {
    (if x.payment.None? then 1 else 0)
    + (if x.principal.None? then 1 else 0)
    + (if x.periods.None? then 1 else 0)
  }

  /**
   * The inputs the calculator accepts, stated at once rather than as a chain
   * of early returns: nothing negative, interest and type given, exactly one
   * of payment, principal and periods missing, and for the differentiated
   * scheme the missing one is the payment.
   */
  predicate Admissible(x: LoanInput)
  {
    && !NegativeSupplied(x)
    && x.interest.Some?
    && x.kind.Some?
    && MissingCount(x) == 1
    && (x.kind.value == Differentiated ==> x.payment.None?)
  }

  /** The checks of the entry point, in the order it makes them. */
  function Classify(x: LoanInput): (r: Action)
    // rejection happens exactly on the inputs that are not admissible
    ensures r.Invalid? <==> !Admissible(x)
    // the four computations, each exactly on its own presence pattern
    ensures r.DiffPayments? <==> Admissible(x) && x.kind == Some(Differentiated)
    ensures r.AnnuityPayment? <==> Admissible(x) && x.kind == Some(Annuity) && x.payment.None?
    ensures r.AnnuityPrincipal? <==> Admissible(x) && x.kind == Some(Annuity) && x.principal.None?
    ensures r.AnnuityPeriods? <==> Admissible(x) && x.kind == Some(Annuity) && x.periods.None?
    // every computation receives the arguments as given and the nominal rate
    ensures !r.Invalid? ==> r.rate == NominalRate(x.interest.value) && 0.0 <= r.rate
    ensures (r.DiffPayments? || r.AnnuityPayment? || r.AnnuityPeriods?) ==>
              x.principal == Some(r.principal) && 0.0 <= r.principal
    ensures (r.DiffPayments? || r.AnnuityPayment? || r.AnnuityPrincipal?) ==>
              x.periods == Some(r.periods) && 0 <= r.periods
    ensures (r.AnnuityPrincipal? || r.AnnuityPeriods?) ==>
              x.payment == Some(r.payment) && 0.0 <= r.payment
  {
    if NegativeSupplied(x) then Invalid
    else if x.interest.None? then Invalid
    else if x.kind.None? then Invalid
    else
      match x.kind.value
      case Differentiated =>
        if x.payment.Some? then Invalid
        else if x.principal.None? || x.periods.None? then Invalid
        else DiffPayments(x.principal.value, x.periods.value, NominalRate(x.interest.value))
      case Annuity =>
        var rate := NominalRate(x.interest.value);
        if x.principal.Some? && x.periods.Some? && x.payment.None? then
          AnnuityPayment(x.principal.value, x.periods.value, rate)
        else if x.payment.Some? && x.periods.Some? && x.principal.None? then
          AnnuityPrincipal(x.payment.value, x.periods.value, rate)
        else if x.principal.Some? && x.payment.Some? && x.periods.None? then
          AnnuityPeriods(x.principal.value, x.payment.value, rate)
        else Invalid
  }

  /**
   * The rejection rules one by one: a negative argument, a missing interest
   * or type, a payment given to the differentiated scheme, and an annuity
   * with no argument left to solve for or more than one.
   */
  lemma RejectionRules(x: LoanInput)
    ensures NegativeSupplied(x) ==> Classify(x) == Invalid
    ensures x.interest.None? || x.kind.None? ==> Classify(x) == Invalid
    ensures x.kind == Some(Differentiated) && x.payment.Some? ==> Classify(x) == Invalid
    ensures x.kind == Some(Differentiated) && (x.principal.None? || x.periods.None?) ==> Classify(x) == Invalid
    ensures x.kind == Some(Annuity) && MissingCount(x) != 1 ==> Classify(x) == Invalid
  {
  }

  /**
   * Zero is not negative: an input whose numbers are all zero is routed by
   * its presence pattern alone.
   */
  lemma ZeroesAreAccepted()
    ensures Classify(LoanInput(Some(Differentiated), None, Some(0.0), Some(0), Some(0.0)))
              == DiffPayments(0.0, 0, 0.0)
    ensures Classify(LoanInput(Some(Annuity), None, Some(0.0), Some(0), Some(0.0)))
              == AnnuityPayment(0.0, 0, 0.0)
    ensures Classify(LoanInput(Some(Annuity), Some(0.0), None, Some(0), Some(0.0)))
              == AnnuityPrincipal(0.0, 0, 0.0)
    ensures Classify(LoanInput(Some(Annuity), Some(0.0), Some(0.0), None, Some(0.0)))
              == AnnuityPeriods(0.0, 0.0, 0.0)
  {
  }

  /** A loan with all three of its quantities known. */
  datatype Loan = Loan(principal: real, payment: real, periods: int)

  /**
   * The loan an annuity computation describes once `computed`, the value
   * its closed-form formula returned, is put in the place of the missing
   * argument.
   */
  function Completed(a: Action, computed: int): (l: Loan)
    requires a.AnnuityPayment? || a.AnnuityPrincipal? || a.AnnuityPeriods?
    ensures !a.AnnuityPrincipal? ==> l.principal == a.principal
    ensures !a.AnnuityPayment? ==> l.payment == a.payment
    ensures !a.AnnuityPeriods? ==> l.periods == a.periods
    ensures a.AnnuityPayment? ==> l.payment == computed as real
    ensures a.AnnuityPrincipal? ==> l.principal == computed as real
    ensures a.AnnuityPeriods? ==> l.periods == computed
  {
    match a
    case AnnuityPayment(principal, periods, _) => Loan(principal, computed as real, periods)
    case AnnuityPrincipal(payment, periods, _) => Loan(computed as real, payment, periods)
    case AnnuityPeriods(principal, payment, _) => Loan(principal, payment, computed)
  }

  /**
   * The overpayment an annuity computation reports: what the completed loan
   * repays in all, payment times periods, beyond its principal, with the
   * fraction dropped toward zero.
   */
  function AnnuityOverpayment(a: Action, computed: int): (r: int)
    requires a.AnnuityPayment? || a.AnnuityPrincipal? || a.AnnuityPeriods?
    ensures var l := Completed(a, computed);
            var excess := l.payment * l.periods as real - l.principal;
            && (0.0 <= excess ==> 0 <= r && r as real <= excess < r as real + 1.0)
            && (excess < 0.0 ==> r <= 0 && excess <= r as real < excess + 1.0)
  {
    match a
    case AnnuityPayment(principal, periods, _) =>
      Overpayment(computed as real * periods as real, principal)
    case AnnuityPrincipal(payment, periods, _) =>
      Overpayment(payment * periods as real, computed as real)
    case AnnuityPeriods(principal, payment, _) =>
      Overpayment(payment * computed as real, principal)
  }
}
