# Loan calculator: validation, period formatting and differentiated schedule

A model of the discrete core of a command-line loan calculator
(`loan_calculator.py`). The calculator takes up to five arguments: the scheme
(`annuity` or `differentiated`), the monthly payment, the principal, the
number of monthly periods and the annual interest in percent. It then
rejects them with "Incorrect parameters", or it solves for the one missing
quantity and reports the overpayment.

The project has five modules, one per concern:

- `Wrappers` (Wrappers.dfy): the `Option` type, for an argument that was given or not.
- `Rounding` (Rounding.dfy): `math.ceil`, `int(...)` (truncation toward zero), and the
  overpayment expression `int(total_paid - principal)` that every branch reports.
- `Dispatch` (Dispatch.dfy): the validation chain of `main` as the pure function
  `Classify`. It maps a `LoanInput` to one `Action`: `Invalid`, `DiffPayments`,
  `AnnuityPayment`, `AnnuityPrincipal` or `AnnuityPeriods`. Each computation
  carries the arguments it is called with and the nominal rate `interest / 100 / 12`.
  `Classify`'s contract states acceptance independently of the chain, through
  `Admissible`: nothing negative, interest and type given, exactly one of
  payment/principal/periods missing, and for the differentiated scheme the missing
  one is the payment. `AnnuityOverpayment` models the three annuity overpayment
  lines, with the closed-form formula's result passed in as `computed`.
- `PeriodFormat` (PeriodFormat.dfy): `format_period_output` as the method
  `FormatPeriodOutput`. Like the source, it appends parts to a list and joins them
  with " and ", and it returns the sentence rather than printing it. It is proved
  equal to `Duration`, a case-by-case reference definition of the phrase. The
  decoder `ReadDuration` reads a phrase back. `DurationRoundTrip` shows that every
  non-negative month count is recovered from its phrase, so the phrase is never
  ambiguous.
- `DiffSchedule` (DiffSchedule.dfy): `calculate_diff_payments` as the method
  `CalculateDiffPayments`, with its loop. It returns the `(month, payment)` lines and
  the overpayment, and is proved equal to the specification function `Schedule`.
  Lemmas give the schedule's shape, its non-increasing payments and a non-negative
  overpayment.

Floats are modelled as exact reals. The per-month amount of the differentiated
schedule is an exact-arithmetic idealisation of the float expression.

The model follows `loan_calculator.py` on these points:

- The overpayment is `int(total - principal)`. It truncates toward zero, so it
  equals the exact difference when both amounts are whole
  (`Rounding.OverpaymentOfWholeAmounts`), and it is 0, not negative, when less
  than one unit is missing from the principal.
- `format_period_output` accepts any int, negative ones included. For those,
  Python's floor `//` gives a negative year count, which prints nothing.
- Zero periods are accepted by the validation. A differentiated schedule over zero
  periods has no lines, and its overpayment is `int(-principal)`.

## Model

| member | source | states |
|---|---|---|
| Rounding.Ceil | loan_calculator.py:48 | the rounded payment is the least integer not below the exact one: x <= r < x + 1 |
| Rounding.Trunc | loan_calculator.py:53 | `int()` drops the fraction toward zero: for x >= 0, 0 <= r <= x < r + 1; for x < 0, r - 1 < x <= r <= 0 |
| Rounding.Overpayment | loan_calculator.py:52-53 | the reported overpayment is total paid minus principal truncated toward zero; it is non-negative exactly when the total falls short of the principal by less than 1 (so whenever enough was paid), and is within 1 of the exact difference toward zero |
| Rounding.CeilMonotone | loan_calculator.py:48 | rounding up preserves order |
| Rounding.OverpaymentOfWholeAmounts | loan_calculator.py:52-53 | with a whole total and a whole principal, the overpayment is exactly their difference |
| Dispatch.NominalRate | loan_calculator.py:116-120 | the monthly rate times 1200 is the annual percentage, and it is non-negative when the interest is |
| Dispatch.Classify | loan_calculator.py:88-141 | rejects exactly the inputs that are not admissible; selects each of the four computations exactly on its presence pattern, so they are mutually exclusive and, with rejection, exhaustive; passes the given arguments unchanged and non-negative, with the nominal rate |
| Dispatch.RejectionRules | loan_calculator.py:92-141 | each rejection rule alone forces `Invalid`: a negative argument, missing interest, missing type, a differentiated payment given, a differentiated principal or periods missing, an annuity with other than one missing argument |
| Dispatch.ZeroesAreAccepted | loan_calculator.py:92-94 | zero values pass the negativity check; all-zero inputs are routed by their presence pattern to each of the four computations |
| Dispatch.Completed | loan_calculator.py:124-138 | completing an annuity loan keeps the two supplied quantities and puts the computed value in the place of the solved one |
| Dispatch.AnnuityOverpayment | loan_calculator.py:124-138 | each annuity branch reports payment times periods of the completed loan minus its principal, truncated toward zero |
| PeriodFormat.NatToString | loan_calculator.py:65-70 | the numeral of a count is a non-empty string of digits without a leading zero |
| PeriodFormat.DigitsValueOfNatToString | loan_calculator.py:65-70 | the numeral reads back as the count it was written from |
| PeriodFormat.Split | loan_calculator.py:58-59 | years and months satisfy 12 * years + months == n with 0 <= months < 12 |
| PeriodFormat.FormatPeriodOutput | loan_calculator.py:56-73 | the list-and-join construction yields "It will take " + the case-by-case duration phrase + " to repay this loan!" |
| PeriodFormat.DurationRoundTrip | loan_calculator.py:58-72 | for every n >= 0 the phrase reads back as the (years, months) split of n |
| PeriodFormat.DurationInjective | loan_calculator.py:58-72 | different non-negative month counts never give the same phrase |
| PeriodFormat.DurationExamples | loan_calculator.py:62-72 | 0, 1, 12, 13 and 25 months give "", "1 month", "1 year", "1 year and 1 month" and "2 years and 1 month" |
| DiffSchedule.CalculateDiffPayments | loan_calculator.py:40-53 | the loop emits exactly the specified schedule, and the overpayment is the truncated sum of the emitted payments minus the principal; the loop keeps the running total equal to the sum so far |
| DiffSchedule.ScheduleShape | loan_calculator.py:45-48 | the schedule has `periods` lines (none if not positive), numbered 1, 2, ... in increasing order, each payment within [exact, exact + 1) |
| DiffSchedule.ExactPaymentNonIncreasing | loan_calculator.py:47 | with non-negative principal and rate, the exact payment does not increase with the month |
| DiffSchedule.ScheduleNonIncreasing | loan_calculator.py:45-48 | with non-negative principal and rate, the rounded payments do not increase from line to line |
| DiffSchedule.ExactPaymentCoversShare | loan_calculator.py:47 | every month within the term pays at least principal / periods |
| DiffSchedule.TotalPaidAtLeast | loan_calculator.py:45-49 | lines that each pay at least some amount together pay at least their count times that amount |
| DiffSchedule.OverpaymentNonNegative | loan_calculator.py:45-53 | over at least one month, the payments repay the whole principal and the reported overpayment is not negative |
| DiffSchedule.DispatchedSchedule | loan_calculator.py:107-117 | a dispatched differentiated computation has `periods` lines, non-increasing payments and, over at least one month, a non-negative overpayment |

## Left out

- Argument parsing (loan_calculator.py:77-86) is not modelled: it is I/O. `LoanInput` holds the already parsed values, and `--type` is the enum `Scheme` because the parser only admits its two choices.
- Console output is replaced by returned values: the `Action` tag, the sentence of `FormatPeriodOutput`, and the lines and overpayment of `CalculateDiffPayments`. The "Incorrect parameters" message is the `Invalid` tag.
- `calculate_annuity_payment`, `calculate_principal` and `calculate_periods` (loan_calculator.py:13-37) are not modelled: they are floating-point `pow` and `math.log` numerics. Their results enter `AnnuityOverpayment` as the parameter `computed`.
- Crashes of the source are not modelled: division by zero at a zero rate (loan_calculator.py:16, 24), division by zero at zero periods, where `pow(1 + i, 0) - 1` is 0 (loan_calculator.py:16, 24), division by zero in `math.log(x, 1)` at a zero rate (loan_calculator.py:33), the uncaught `ZeroDivisionError` when payment equals rate times principal (loan_calculator.py:33), and the `float('inf')` sentinel passed to `format_period_output` and `int(...)` (loan_calculator.py:37, 137-138). `Classify` still routes such inputs to their computation, and `AnnuityOverpayment` returns a value for them; it takes the month count as an integer.
- DiffSchedule.CalculateDiffPayments: the per-month amount is exact real arithmetic. Float rounding of loan_calculator.py:47 just below a whole number can move a `math.ceil` by one, and that is not captured.
- Float rounding in general (a float principal, the rate `interest / 100 / 12`) is not modelled: all amounts are exact reals.
