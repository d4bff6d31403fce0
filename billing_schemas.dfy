/**
 * The request validators of the second backend's billing schemas: a due
 * date that is not in the past, a down payment below the plan total, the
 * installment count and frequency of a payment plan, positive payment and
 * refund amounts, and percentages between 0 and 100. Decimal amounts are
 * integer cents and percentages integer hundredths of a percent.
 */
module BillingSchemas {
  import opened Wrappers
  import opened Calendar

  const DueDateError: string := "Due date cannot be in the past"
  const DownPaymentError: string := "Down payment must be less than total amount"
  const RangeError: string := "out of range"

  /** validate_due_date: a due date before today is refused. */
  function ValidateDueDate(v: Date, today: Date): (r: Result<Date>)
    ensures r.Ok? ==> r.value == v
    ensures r.Err? ==> r.message == DueDateError
  {
    if Before(v, today) then Err(DueDateError) else Ok(v)
  }

  /** On real dates a due date is accepted exactly when its day number is today's or later. */
  lemma DueDateNotInPast(v: Date, today: Date)
    requires ValidDate(v) && ValidDate(today) && 1 <= v.year && 1 <= today.year
    ensures ValidateDueDate(v, today).Ok? <==> Ordinal(today) <= Ordinal(v)
  {
    if Before(v, today) {
      OrdinalMonotone(v, today);
    } else if Before(today, v) {
      OrdinalMonotone(today, v);
    }
  }

  /** A `Field(gt=0)` amount: PaymentCreateRequest.amount, RefundRequest.amount, PaymentPlanRequest.total_amount. */
  function ValidatePositiveAmount(cents: int): (r: Result<int>)
    ensures r.Ok? <==> cents > 0
    ensures r.Ok? ==> r.value == cents
  {
    if cents <= 0 then Err(RangeError) else Ok(cents)
  }

  const FullPercent: int := 10000

  /** An optional `Field(ge=0, le=100)` percentage, in hundredths of a percent. */
  function ValidatePercentage(v: Option<int>): (r: Result<Option<int>>)
    ensures r.Ok? <==> v.None? || 0 <= v.value <= FullPercent
    ensures r.Ok? ==> r.value == v
  {
    if v.Some? && (v.value < 0 || v.value > FullPercent) then Err(RangeError) else Ok(v)
  }

  /** The three percentages of a line item request: discount, tax rate and insurance coverage. */
  function LineItemPercentageErrors(discount: Option<int>, taxRate: Option<int>, coverage: Option<int>): (errors: nat)
    ensures errors <= 3
  {
    (if ValidatePercentage(discount).Err? then 1 else 0) +
    (if ValidatePercentage(taxRate).Err? then 1 else 0) +
    (if ValidatePercentage(coverage).Err? then 1 else 0)
  }

  /** A line item's percentages pass exactly when each given one lies between 0 and 100 percent. */
  lemma LineItemPercentagesAccepted(discount: Option<int>, taxRate: Option<int>, coverage: Option<int>)
    ensures LineItemPercentageErrors(discount, taxRate, coverage) == 0 <==>
      (discount.None? || 0 <= discount.value <= FullPercent) &&
      (taxRate.None? || 0 <= taxRate.value <= FullPercent) &&
      (coverage.None? || 0 <= coverage.value <= FullPercent)
  {
  }

  const MinInstallments: int := 2
  const MaxInstallments: int := 24

  const Weekly: string := "weekly"
  const Biweekly: string := "biweekly"
  const Monthly: string := "monthly"

  predicate Frequency(f: string)
  {
    f == Weekly || f == Biweekly || f == Monthly
  }

  /** The pattern `^(weekly|biweekly|monthly)$`, whose `$` also matches before a final newline. */
  predicate ValidFrequency(f: string)
  {
    Frequency(f) || (|f| > 0 && f[|f| - 1] == '\n' && Frequency(f[..|f| - 1]))
  }

  /**
   * validate_down_payment: a truthy (given, non-zero) down payment is
   * compared with the total when the total passed its own check; a total
   * that failed is missing from the values the validator sees.
   */
  function ValidateDownPayment(v: Option<int>, totalAmount: Option<int>): (r: Result<Option<int>>)
    ensures r.Ok? ==> r.value == v
    ensures r.Err? ==> r.message == DownPaymentError
    ensures r.Err? <==> v.Some? && v.value != 0 && totalAmount.Some? && v.value >= totalAmount.value
  {
    if v.Some? && v.value != 0 && totalAmount.Some? && v.value >= totalAmount.value then Err(DownPaymentError) else Ok(v)
  }

  /**
   * The errors of a PaymentPlanRequest's amount and schedule fields, in
   * field order: the total, the down payment's bound and then its
   * validator, the installment count, the frequency.
   */
  function PaymentPlanErrors(totalAmount: int, downPayment: Option<int>, installments: int, frequency: string): (errors: seq<string>)
    ensures |errors| <= 4
  {
    var totalCheck := ValidatePositiveAmount(totalAmount);
    var totalSeen := if totalCheck.Ok? then Some(totalAmount) else None;
    var downBound := downPayment.None? || downPayment.value >= 0;
    var downCheck := ValidateDownPayment(downPayment, totalSeen);
    (if totalCheck.Err? then [totalCheck.message] else []) +
    (if !downBound then [RangeError] else if downCheck.Err? then [downCheck.message] else []) +
    (if installments < MinInstallments || installments > MaxInstallments then [RangeError] else []) +
    (if !ValidFrequency(frequency) then [RangeError] else [])
  }

  /**
   * A plan is accepted exactly when its total is positive, a given down
   * payment is at least 0 and below the total, it has 2 to 24 installments
   * and its frequency is one of the three.
   */
  lemma PaymentPlanAccepted(totalAmount: int, downPayment: Option<int>, installments: int, frequency: string)
    ensures PaymentPlanErrors(totalAmount, downPayment, installments, frequency) == [] <==>
      totalAmount > 0 &&
      (downPayment.None? || 0 <= downPayment.value < totalAmount) &&
      MinInstallments <= installments <= MaxInstallments &&
      ValidFrequency(frequency)
  {
  }

  /** A zero down payment skips the comparison; it is only accepted because a valid total is positive. */
  lemma ZeroDownPaymentSkipsComparison(totalAmount: int)
    ensures ValidateDownPayment(Some(0), Some(totalAmount)).Ok?
    ensures PaymentPlanErrors(totalAmount, Some(0), MinInstallments, Monthly) == [] <==> totalAmount > 0
  {
  }
}
