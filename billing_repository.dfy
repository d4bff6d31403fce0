/**
 * The second backend's billing repositories: invoice numbering, adding a
 * line item and recomputing an invoice's totals from its lines, applying
 * a payment to an invoice, refunds as negative payments, and the monthly
 * statement. Amounts are integer cents; dates are stored as the stamp of
 * their midnight.
 */
module BillingRepo {
  import opened Wrappers
  import opened Text
  import opened Documents
  import Calendar
  import DateText
  import Sorting
  import BaseRepo

  const InvoiceId: string := "invoice_id"
  const InvoiceNumberField: string := "invoice_number"
  const InvoiceDate: string := "invoice_date"
  const LineNumber: string := "line_number"
  const LineId: string := "line_id"
  const Subtotal: string := "subtotal"
  const TaxAmount: string := "tax_amount"
  const DiscountAmount: string := "discount_amount"
  const Total: string := "total"
  const TotalAmount: string := "total_amount"
  const BalanceDue: string := "balance_due"
  const AmountPaid: string := "amount_paid"
  const Status: string := "status"
  const PaymentId: string := "payment_id"
  const PatientId: string := "patient_id"
  const Amount: string := "amount"
  const PaymentMethod: string := "payment_method"
  const IsRefund: string := "is_refund"
  const RefundReason: string := "refund_reason"
  const OriginalPaymentId: string := "original_payment_id"
  const PaymentDate: string := "payment_date"

  const Paid: string := "paid"
  const PartiallyPaid: string := "partially_paid"
  const Pending: string := "pending"
  const Completed: string := "completed"
  const InvoiceLineSequence: string := "InvoiceLine"
  const LinePrefix: string := "LIN"

  // ---------------------------------------------------------------------
  // Invoice numbers
  // ---------------------------------------------------------------------

  /** `f"{year}-{str(count + 1).zfill(4)}"`. */
  function InvoiceNumber(year: nat, count: nat): (n: string)
    ensures |n| > |NatToString(year)| && n[..|NatToString(year)|] == NatToString(year) && n[|NatToString(year)|] == DateText.Dash
  {
    NatToString(year) + [DateText.Dash] + ZeroFill(NatToString(count + 1), 4)
  }

  /** Within a year, different counts give different invoice numbers. */
  lemma InvoiceNumberInjective(year: nat, a: nat, b: nat)
    requires InvoiceNumber(year, a) == InvoiceNumber(year, b)
    ensures a == b
  {
    InvoiceNumberReadsBack(year, a);
    InvoiceNumberReadsBack(year, b);
  }

  /** The number's sequence part reads back as count + 1. */
  lemma InvoiceNumberReadsBack(year: nat, count: nat)
    ensures var n := InvoiceNumber(year, count);
      var p := |NatToString(year)| + 1;
      AllDigits(n[p..]) && ParseNat(n[p..]) == count + 1
  {
    TailAfter(NatToString(year) + [DateText.Dash], ZeroFill(NatToString(count + 1), 4));
    ParseZeroFill(count + 1, 4);
  }

  /** The count's filter `{"invoice_date": {"$gte": date(year, 1, 1)}}`. */
  function IssuedFrom(year: int): Doc -> bool
  {
    d => Get(d, InvoiceDate).Stamp? && Get(d, InvoiceDate).t >= Calendar.Midnight(Calendar.Date(year, 1, 1))
  }

  /** create_invoice: the invoice number from this year's count, then the generic create with an `invoice_id`. */
  method CreateInvoice(invoices: BaseRepo.Repository, invoiceData: Doc, year: nat, now: int) returns (created: Doc)
    modifies invoices
    ensures var numbered := invoiceData[InvoiceNumberField := Str(InvoiceNumber(year, BaseRepo.Count(old(invoices.docs), IssuedFrom(year))))];
      (BaseRepo.NeedsAutoId(numbered, Some(InvoiceId)) ==>
         invoices.counters == old(invoices.counters)[invoices.name := CounterValue(old(invoices.counters), invoices.name) + 1] &&
         created == BaseRepo.Timestamped(numbered[InvoiceId := Str(BaseRepo.AutoId(invoices.name, invoices.counters[invoices.name]))], now)) &&
      (!BaseRepo.NeedsAutoId(numbered, Some(InvoiceId)) ==>
         invoices.counters == old(invoices.counters) && created == BaseRepo.Timestamped(numbered, now))
    ensures invoices.docs == old(invoices.docs) + [created]
  {
    var count := BaseRepo.Count(invoices.docs, IssuedFrom(year));
    var numbered := invoiceData[InvoiceNumberField := Str(InvoiceNumber(year, count))];
    created := invoices.Create(numbered, Some(InvoiceId), now);
  }

  // ---------------------------------------------------------------------
  // Line items and totals
  // ---------------------------------------------------------------------

  /** An amount as `$sum` reads it: integers count, anything else adds nothing. */
  function Cents(v: Value): int
  {
    if v.Int? then v.i else 0
  }

  /** The `$sum` of a field over the invoice's lines. */
  function LineSum(lines: seq<Doc>, invoiceId: Value, field: string): int
  {
    if lines == [] then 0
    else (if Get(lines[0], InvoiceId) == invoiceId then Cents(Get(lines[0], field)) else 0) +
         LineSum(lines[1..], invoiceId, field)
  }

  lemma {:induction false} LineSumAppend(lines: seq<Doc>, line: Doc, invoiceId: Value, field: string)
    ensures LineSum(lines + [line], invoiceId, field) ==
      LineSum(lines, invoiceId, field) + (if Get(line, InvoiceId) == invoiceId then Cents(Get(line, field)) else 0)
  {
    if lines != [] {
      assert (lines + [line])[1..] == lines[1..] + [line];
      LineSumAppend(lines[1..], line, invoiceId, field);
    }
  }

  /**
   * The `$set` of recalculate_invoice_totals, as written: the four sums,
   * and `balance_due` from the group's `amount_paid`, which the group does
   * not compute, so it is the total.
   */
  function RecalculatedTotals(lines: seq<Doc>, invoiceId: Value): Doc
  {
    map[Subtotal := Int(LineSum(lines, invoiceId, Subtotal)),
        TaxAmount := Int(LineSum(lines, invoiceId, TaxAmount)),
        DiscountAmount := Int(LineSum(lines, invoiceId, DiscountAmount)),
        TotalAmount := Int(LineSum(lines, invoiceId, Total)),
        BalanceDue := Int(LineSum(lines, invoiceId, Total) - 0)]
  }

  /** The invoice has lines: the aggregation returns its one group. */
  predicate HasLines(lines: seq<Doc>, invoiceId: Value)
  {
    exists j :: 0 <= j < |lines| && Get(lines[j], InvoiceId) == invoiceId
  }

  /**
   * recalculate_invoice_totals: an invoice without lines is left alone
   * (None); otherwise the sums are written with update_by_id and the
   * updated invoice returned (None when no invoice has that ID).
   */
  method RecalculateInvoiceTotals(lines: seq<Doc>, invoices: BaseRepo.Repository, invoiceId: Value, now: int)
      returns (r: Option<Doc>)
    modifies invoices`docs
    ensures !HasLines(lines, invoiceId) ==> r.None? && invoices.docs == old(invoices.docs)
    ensures HasLines(lines, invoiceId) ==>
      var i := FirstMatch(old(invoices.docs), FieldEquals(InvoiceId, invoiceId));
      (i.None? ==> r.None? && invoices.docs == old(invoices.docs)) &&
      (i.Some? ==>
         invoices.docs == old(invoices.docs)[i.value := BaseRepo.ApplySet(old(invoices.docs)[i.value], RecalculatedTotals(lines, invoiceId), now)] &&
         r == Some(invoices.docs[i.value]))
  {
    if !HasLines(lines, invoiceId) {
      return None;
    }
    r := invoices.UpdateById(invoiceId, InvoiceId, RecalculatedTotals(lines, invoiceId), now);
  }

  /** An invoice's balance is its total less what has been paid. */
  predicate BalanceConsistent(invoice: Doc)
  {
    Get(invoice, TotalAmount).Int? && Get(invoice, BalanceDue).Int? && GetOr(invoice, AmountPaid, Int(0)).Int? &&
    Get(invoice, BalanceDue).i == Get(invoice, TotalAmount).i - GetOr(invoice, AmountPaid, Int(0)).i
  }

  const PartlyPaidInvoice: Doc := map[InvoiceId := Str(InvoiceIdExample), TotalAmount := Int(5000), AmountPaid := Int(1000), BalanceDue := Int(4000)]
  const OneLine: Doc := map[InvoiceId := Str(InvoiceIdExample), Subtotal := Int(5000), Total := Int(5000)]
  const InvoiceIdExample: string := "INV001"

  /**
   * As written, recalculation forgets what has been paid: an invoice of 50.00
   * with 10.00 paid gets a balance of 50.00 again.
   */
  lemma RecalculationForgetsPayments(now: int)
    ensures BalanceConsistent(PartlyPaidInvoice)
    ensures var after := BaseRepo.ApplySet(PartlyPaidInvoice, RecalculatedTotals([OneLine], Str(InvoiceIdExample)), now);
      !BalanceConsistent(after) && Get(after, BalanceDue) == Int(5000) && Get(after, AmountPaid) == Int(1000)
  {
    var id := Str(InvoiceIdExample);
    assert [OneLine][1..] == [];
    assert Get(OneLine, InvoiceId) == id && Get(OneLine, Total) == Int(5000);
    assert LineSum([OneLine], id, Total) == 5000;
  }

  /** The evidently intended `$set`: the balance is the new total less the invoice's own `amount_paid`. */
  function CorrectedTotals(lines: seq<Doc>, invoice: Doc): Doc
    requires GetOr(invoice, AmountPaid, Int(0)).Int?
  {
    var invoiceId := Get(invoice, InvoiceId);
    var total := LineSum(lines, invoiceId, Total);
    map[Subtotal := Int(LineSum(lines, invoiceId, Subtotal)),
        TaxAmount := Int(LineSum(lines, invoiceId, TaxAmount)),
        DiscountAmount := Int(LineSum(lines, invoiceId, DiscountAmount)),
        TotalAmount := Int(total),
        BalanceDue := Int(total - GetOr(invoice, AmountPaid, Int(0)).i)]
  }

  /** The corrected recalculation always leaves the balance consistent with the payments made, and keeps them. */
  lemma CorrectedTotalsKeepBalance(lines: seq<Doc>, invoice: Doc, now: int)
    requires GetOr(invoice, AmountPaid, Int(0)).Int?
    ensures var after := BaseRepo.ApplySet(invoice, CorrectedTotals(lines, invoice), now);
      BalanceConsistent(after) && GetOr(after, AmountPaid, Int(0)) == GetOr(invoice, AmountPaid, Int(0)) &&
      Get(after, TotalAmount) == Int(LineSum(lines, Get(invoice, InvoiceId), Total))
  {
  }

  /** The line as inserted: its number, its invoice and its `LIN` ID. */
  function NewLine(lineItemData: Doc, invoiceId: Value, lineCount: nat, next: nat): Doc
  {
    lineItemData[LineNumber := Int(lineCount + 1)][InvoiceId := invoiceId][LineId := Str(LinePrefix + ZeroFill(NatToString(next), 3))]
  }

  /**
   * add_line_item: the line is numbered after the invoice's line count,
   * gets a `LIN` ID from the "InvoiceLine" counter, is inserted, and the
   * invoice's totals are recalculated; the result is always True.
   */
  method AddLineItem(lines: Collection, invoices: BaseRepo.Repository, invoiceId: Value, lineItemData: Doc, now: int)
      returns (ok: bool)
    modifies lines, invoices
    ensures var next := CounterValue(old(invoices.counters), InvoiceLineSequence) + 1;
      invoices.counters == old(invoices.counters)[InvoiceLineSequence := next] &&
      lines.docs == old(lines.docs) + [NewLine(lineItemData, invoiceId, BaseRepo.Count(old(lines.docs), FieldEquals(InvoiceId, invoiceId)), next)]
    ensures var i := FirstMatch(old(invoices.docs), FieldEquals(InvoiceId, invoiceId));
      (i.None? ==> invoices.docs == old(invoices.docs)) &&
      (i.Some? ==> invoices.docs == old(invoices.docs)[i.value := BaseRepo.ApplySet(old(invoices.docs)[i.value], RecalculatedTotals(lines.docs, invoiceId), now)])
    ensures ok
  {
    ghost var lineCount := BaseRepo.Count(lines.docs, FieldEquals(InvoiceId, invoiceId));
    ghost var next := CounterValue(invoices.counters, InvoiceLineSequence) + 1;
    InsertNewLine(lines, invoices, invoiceId, lineItemData);
    NewLineHasLines(old(lines.docs), lineItemData, invoiceId, lineCount, next);
    var updated := RecalculateInvoiceTotals(lines.docs, invoices, invoiceId, now);
    return true;
  }

  /** The first half of add_line_item: number the line, draw its `LIN` ID and insert it. */
  method InsertNewLine(lines: Collection, invoices: BaseRepo.Repository, invoiceId: Value, lineItemData: Doc)
    modifies lines, invoices`counters
    ensures var next := CounterValue(old(invoices.counters), InvoiceLineSequence) + 1;
      invoices.counters == old(invoices.counters)[InvoiceLineSequence := next] &&
      lines.docs == old(lines.docs) + [NewLine(lineItemData, invoiceId, BaseRepo.Count(old(lines.docs), FieldEquals(InvoiceId, invoiceId)), next)]
  {
    var lineCount := BaseRepo.Count(lines.docs, FieldEquals(InvoiceId, invoiceId));
    assert BaseRepo.SequenceName(Some(InvoiceLineSequence), invoices.name) == InvoiceLineSequence;
    var nextId := invoices.GetNextSequence(Some(InvoiceLineSequence));
    assert lines.docs == old(lines.docs);
    var lineItem := NewLine(lineItemData, invoiceId, lineCount, nextId);
    lines.InsertOne(lineItem);
  }

  /** Once the new line is stored the invoice has lines, so the recalculation writes. */
  lemma NewLineHasLines(docs: seq<Doc>, lineItemData: Doc, invoiceId: Value, lineCount: nat, next: nat)
    ensures HasLines(docs + [NewLine(lineItemData, invoiceId, lineCount, next)], invoiceId)
  {
    var all := docs + [NewLine(lineItemData, invoiceId, lineCount, next)];
    assert Get(all[|docs|], InvoiceId) == invoiceId;
  }

  /** The new line counts towards the invoice's total at once: the recalculated total includes it. */
  lemma AddedLineCountsInTotal(lines: seq<Doc>, lineItemData: Doc, invoiceId: Value, lineCount: nat, next: nat)
    ensures var line := NewLine(lineItemData, invoiceId, lineCount, next);
      RecalculatedTotals(lines + [line], invoiceId)[TotalAmount] ==
      Int(LineSum(lines, invoiceId, Total) + Cents(Get(lineItemData, Total)))
  {
    var line := NewLine(lineItemData, invoiceId, lineCount, next);
    LineSumAppend(lines, line, invoiceId, Total);
    assert Get(line, Total) == Get(lineItemData, Total);
  }

  // ---------------------------------------------------------------------
  // Payments
  // ---------------------------------------------------------------------

  /** What apply_payment_to_invoice reads: a numeric `total_amount` and a numeric or absent `amount_paid`. */
  predicate Payable(invoice: Doc)
  {
    Get(invoice, TotalAmount).Int? && GetOr(invoice, AmountPaid, Int(0)).Int?
  }

  /**
   * Whether the status a payment of `amount` writes can be read: only the
   * branch that keeps the current status reads `invoice["status"]`.
   */
  predicate StatusReadable(invoice: Doc, amount: int)
    requires Payable(invoice)
  {
    var newAmountPaid := GetOr(invoice, AmountPaid, Int(0)).i + amount;
    Get(invoice, TotalAmount).i - newAmountPaid <= 0 || newAmountPaid > 0 || Status in invoice
  }

  /** Everything apply_payment_to_invoice reads from the invoice for a payment of `amount`. */
  predicate PaymentReadable(invoice: Doc, amount: int)
  {
    Payable(invoice) && StatusReadable(invoice, amount)
  }

  predicate PayableIfFound(invoices: seq<Doc>, invoiceId: Value, amount: int)
  {
    var i := FirstMatch(invoices, FieldEquals(InvoiceId, invoiceId));
    i.Some? ==> PaymentReadable(invoices[i.value], amount)
  }

  /** PAID once nothing is owed, else PARTIALLY_PAID once something was paid, else the current status. */
  function StatusAfterPayment(invoice: Doc, newAmountPaid: int, newBalance: int): Value
  {
    if newBalance <= 0 then Str(Paid)
    else if newAmountPaid > 0 then Str(PartiallyPaid)
    else Get(invoice, Status)
  }

  /** The `$set` applying `amount` to the invoice. */
  function PaymentUpdate(invoice: Doc, amount: int, now: int): (u: Doc)
    requires Payable(invoice)
    ensures BalanceConsistent(SetFields(invoice, u))
    ensures GetOr(SetFields(invoice, u), AmountPaid, Int(0)) == Int(GetOr(invoice, AmountPaid, Int(0)).i + amount)
  {
    var newAmountPaid := GetOr(invoice, AmountPaid, Int(0)).i + amount;
    var newBalance := Get(invoice, TotalAmount).i - newAmountPaid;
    map[AmountPaid := Int(newAmountPaid), BalanceDue := Int(newBalance),
        Status := StatusAfterPayment(invoice, newAmountPaid, newBalance), BaseRepo.UpdatedAt := Stamp(now)]
  }

  /** The invoices after applying a payment, as a function of the store: unchanged when the read fails. */
  function AfterPayment(invoices: seq<Doc>, invoiceId: Value, amount: int, now: int): seq<Doc>
  {
    var i := FirstMatch(invoices, FieldEquals(InvoiceId, invoiceId));
    if i.None? || !PaymentReadable(invoices[i.value], amount) then invoices
    else invoices[i.value := SetFields(invoices[i.value], PaymentUpdate(invoices[i.value], amount, now))]
  }

  /** The error of reading a missing or non-numeric `total_amount` or `amount_paid`. */
  const InvoiceAmountsError: string := "total_amount"

  /** The KeyError of reading a missing `status` in the branch that keeps it. */
  const InvoiceStatusError: string := "status"

  /** The error a found but unreadable invoice gives: the amounts are read before the status. */
  function PaymentError(invoice: Doc): string
  {
    if Payable(invoice) then InvoiceStatusError else InvoiceAmountsError
  }

  /**
   * apply_payment_to_invoice: False and no change for a missing invoice; an
   * error and no change when the found invoice's amounts cannot be read
   * (the KeyError on `invoice["total_amount"]`, or a failed `float`), or
   * when the payment leaves a balance, nothing paid, and the invoice has no
   * `status` (the KeyError on `invoice["status"]`); otherwise `amount_paid` grows by the amount, the balance is the total
   * less that, the status follows, and the result says whether the write
   * changed the document.
   */
  method ApplyPaymentToInvoice(invoices: Collection, invoiceId: Value, amount: int, now: int) returns (r: Result<bool>)
    modifies invoices
    ensures invoices.docs == AfterPayment(old(invoices.docs), invoiceId, amount, now)
    ensures r.Err? <==> !PayableIfFound(old(invoices.docs), invoiceId, amount)
    ensures var i := FirstMatch(old(invoices.docs), FieldEquals(InvoiceId, invoiceId));
      r.Err? ==> i.Some? && r.message == PaymentError(old(invoices.docs)[i.value])
    ensures var i := FirstMatch(old(invoices.docs), FieldEquals(InvoiceId, invoiceId));
      r.Ok? ==> (r.value <==> i.Some? && invoices.docs[i.value] != old(invoices.docs)[i.value])
  {
    var i := FirstMatch(invoices.docs, FieldEquals(InvoiceId, invoiceId));
    if i.None? {
      return Ok(false);
    }
    var invoice := invoices.docs[i.value];
    if !Payable(invoice) {
      return Err(InvoiceAmountsError);
    }
    if !StatusReadable(invoice, amount) {
      return Err(InvoiceStatusError);
    }
    var update := PaymentSet(invoice, amount, now);
    var modified := SetFields(invoice, update) != invoice;
    var matched := invoices.UpdateOneSet(FieldEquals(InvoiceId, invoiceId), update);
    return Ok(modified);
  }

  /** The `$set` of apply_payment_to_invoice as the method builds it, with the status chosen step by step. */
  method PaymentSet(invoice: Doc, amount: int, now: int) returns (update: Doc)
    requires Payable(invoice)
    ensures update == PaymentUpdate(invoice, amount, now)
  {
    var newAmountPaid := GetOr(invoice, AmountPaid, Int(0)).i + amount;
    var newBalance := Get(invoice, TotalAmount).i - newAmountPaid;
    var newStatus: Value;
    if newBalance <= 0 {
      newStatus := Str(Paid);
    } else if newAmountPaid > 0 {
      newStatus := Str(PartiallyPaid);
    } else {
      newStatus := Get(invoice, Status);
    }
    update := map[AmountPaid := Int(newAmountPaid), BalanceDue := Int(newBalance),
                  Status := newStatus, BaseRepo.UpdatedAt := Stamp(now)];
  }

  /** The status rule: PAID exactly when the balance is settled, PARTIALLY_PAID when something but not all is paid. */
  lemma PaymentStatusRule(invoice: Doc, amount: int, now: int)
    requires Payable(invoice)
    ensures var after := SetFields(invoice, PaymentUpdate(invoice, amount, now));
      var paid := GetOr(invoice, AmountPaid, Int(0)).i + amount;
      (Get(after, Status) == Str(Paid) <== paid >= Get(invoice, TotalAmount).i) &&
      (paid < Get(invoice, TotalAmount).i && paid > 0 ==> Get(after, Status) == Str(PartiallyPaid)) &&
      (paid < Get(invoice, TotalAmount).i && paid <= 0 ==> Get(after, Status) == Get(invoice, Status))
  {
  }

  /**
   * A refund of an amount already applied undoes it: the paid amount and
   * the balance are back where they were before the payment.
   */
  lemma RefundUndoesPayment(invoice: Doc, amount: int, now: int, later: int)
    requires Payable(invoice)
    ensures var paid := SetFields(invoice, PaymentUpdate(invoice, amount, now));
      Payable(paid) &&
      var refunded := SetFields(paid, PaymentUpdate(paid, -amount, later));
      GetOr(refunded, AmountPaid, Int(0)) == GetOr(invoice, AmountPaid, Int(0)) &&
      Get(refunded, BalanceDue) == Int(Get(invoice, TotalAmount).i - GetOr(invoice, AmountPaid, Int(0)).i)
  {
  }

  /** The fields a payment writes: the new paid amount, the balance, the status; the total is kept. */
  lemma PaymentFields(invoice: Doc, amount: int, now: int, paid: int, balance: int)
    requires Payable(invoice)
    requires paid == GetOr(invoice, AmountPaid, Int(0)).i + amount && balance == Get(invoice, TotalAmount).i - paid
    ensures var after := SetFields(invoice, PaymentUpdate(invoice, amount, now));
      Payable(after) && Get(after, TotalAmount) == Get(invoice, TotalAmount) &&
      GetOr(after, AmountPaid, Int(0)) == Int(paid) && Get(after, BalanceDue) == Int(balance) &&
      Get(after, Status) == StatusAfterPayment(invoice, paid, balance)
  {
    var u := PaymentUpdate(invoice, amount, now);
    assert TotalAmount !in u;
    assert AmountPaid in u && BalanceDue in u && Status in u;
  }

  /** Two payments in turn leave the same amount paid and balance as one payment of their sum. */
  lemma PaymentsAdd(invoice: Doc, a: int, b: int, now: int, later: int)
    requires Payable(invoice)
    ensures var first := SetFields(invoice, PaymentUpdate(invoice, a, now));
      Payable(first) &&
      var both := SetFields(first, PaymentUpdate(first, b, later));
      var once := SetFields(invoice, PaymentUpdate(invoice, a + b, later));
      GetOr(both, AmountPaid, Int(0)) == GetOr(once, AmountPaid, Int(0)) &&
      Get(both, BalanceDue) == Get(once, BalanceDue) &&
      (GetOr(invoice, AmountPaid, Int(0)).i + a + b > 0 ==> Get(both, Status) == Get(once, Status))
  {
    var first := SetFields(invoice, PaymentUpdate(invoice, a, now));
    var p, t := GetOr(invoice, AmountPaid, Int(0)).i, Get(invoice, TotalAmount).i;
    PaymentFields(invoice, a, now, p + a, t - (p + a));
    TwoPaymentAmounts(invoice, first, a, b, now, later, p + a + b, t - (p + a + b));
    if p + a + b > 0 {
      TwoPaymentStatus(invoice, first, a, b, now, later, p + a + b, t - (p + a + b));
    }
  }

  lemma TwoPaymentAmounts(invoice: Doc, first: Doc, a: int, b: int, now: int, later: int, paid: int, balance: int)
    requires Payable(invoice) && Payable(first)
    requires paid == GetOr(first, AmountPaid, Int(0)).i + b == GetOr(invoice, AmountPaid, Int(0)).i + (a + b)
    requires balance == Get(first, TotalAmount).i - paid == Get(invoice, TotalAmount).i - paid
    ensures var both := SetFields(first, PaymentUpdate(first, b, later));
      var once := SetFields(invoice, PaymentUpdate(invoice, a + b, later));
      GetOr(both, AmountPaid, Int(0)) == GetOr(once, AmountPaid, Int(0)) && Get(both, BalanceDue) == Get(once, BalanceDue)
  {
    PaymentFields(first, b, later, paid, balance);
    PaymentFields(invoice, a + b, later, paid, balance);
  }

  lemma TwoPaymentStatus(invoice: Doc, first: Doc, a: int, b: int, now: int, later: int, paid: int, balance: int)
    requires Payable(invoice) && Payable(first) && paid > 0
    requires paid == GetOr(first, AmountPaid, Int(0)).i + b == GetOr(invoice, AmountPaid, Int(0)).i + (a + b)
    requires balance == Get(first, TotalAmount).i - paid == Get(invoice, TotalAmount).i - paid
    ensures Get(SetFields(first, PaymentUpdate(first, b, later)), Status) ==
            Get(SetFields(invoice, PaymentUpdate(invoice, a + b, later)), Status)
  {
    PaymentFields(first, b, later, paid, balance);
    PaymentFields(invoice, a + b, later, paid, balance);
    StatusOfPositivePayment(first, invoice, paid, balance);
  }

  /** Once something is paid, the status a payment writes does not depend on the current one. */
  lemma StatusOfPositivePayment(x: Doc, y: Doc, paid: int, balance: int)
    requires paid > 0
    ensures StatusAfterPayment(x, paid, balance) == StatusAfterPayment(y, paid, balance)
  {
  }

  /** The payment create_payment stores: the data with an assigned payment_id when it had none, and timestamps. */
  predicate StoredAs(before: map<string, nat>, after: map<string, nat>, name: string, paymentData: Doc, payment: Doc, now: int)
  {
    (BaseRepo.NeedsAutoId(paymentData, Some(PaymentId)) ==>
      after == before[name := CounterValue(before, name) + 1] &&
      payment == BaseRepo.Timestamped(paymentData[PaymentId := Str(BaseRepo.AutoId(name, CounterValue(before, name) + 1))], now)) &&
    (!BaseRepo.NeedsAutoId(paymentData, Some(PaymentId)) ==>
      after == before && payment == BaseRepo.Timestamped(paymentData, now))
  }

  /**
   * create_payment: the generic create with a `payment_id`, then the
   * payment is applied to its invoice. The payment is stored even when
   * applying it fails, and the call then ends with that error.
   */
  method CreatePayment(payments: BaseRepo.Repository, invoices: Collection, paymentData: Doc, now: int)
      returns (r: Result<Doc>)
    requires Get(paymentData, Amount).Int?
    modifies payments, invoices
    ensures |payments.docs| == |old(payments.docs)| + 1 && payments.docs[..|old(payments.docs)|] == old(payments.docs)
    ensures var payment := payments.docs[|old(payments.docs)|];
      StoredAs(old(payments.counters), payments.counters, payments.name, paymentData, payment, now) &&
      Get(payment, Amount) == Get(paymentData, Amount) && Get(payment, InvoiceId) == Get(paymentData, InvoiceId) &&
      Get(payment, IsRefund) == Get(paymentData, IsRefund) &&
      invoices.docs == AfterPayment(old(invoices.docs), Get(payment, InvoiceId), Get(payment, Amount).i, now) &&
      (r.Err? <==> !PayableIfFound(old(invoices.docs), Get(payment, InvoiceId), Get(payment, Amount).i)) &&
      (r.Ok? ==> r.value == payment)
  {
    var payment := payments.Create(paymentData, Some(PaymentId), now);
    assert payments.docs[|old(payments.docs)|] == payment;
    assert Get(payment, InvoiceId) == Get(paymentData, InvoiceId) && Get(payment, Amount) == Get(paymentData, Amount);
    assert Get(payment, IsRefund) == Get(paymentData, IsRefund);
    var applied := ApplyPaymentToInvoice(invoices, Get(payment, InvoiceId), Get(payment, Amount).i, now);
    if applied.Err? {
      return Err(applied.message);
    }
    return Ok(payment);
  }

  /** The refund payment: the original's invoice, patient and method, the negated amount, flagged as a refund. */
  function RefundData(original: Doc, originalPaymentId: Value, refundAmount: int, reason: string, now: int): (d: Doc)
    ensures Get(d, Amount) == Int(-refundAmount) && Get(d, IsRefund) == Bool(true)
    ensures Get(d, InvoiceId) == Get(original, InvoiceId) && Get(d, PatientId) == Get(original, PatientId)
  {
    map[InvoiceId := Get(original, InvoiceId), PatientId := Get(original, PatientId), Amount := Int(-refundAmount),
        PaymentMethod := Get(original, PaymentMethod), Status := Str(Completed), IsRefund := Bool(true),
        RefundReason := Str(reason), OriginalPaymentId := originalPaymentId, PaymentDate := Stamp(now)]
  }

  /**
   * process_refund: None and no change when the original payment is not
   * found; otherwise a negative payment for the same invoice and patient
   * is created through create_payment, which stores it and then fails
   * when the invoice's amounts cannot be read.
   */
  method ProcessRefund(payments: BaseRepo.Repository, invoices: Collection, originalPaymentId: Value, refundAmount: int,
                       reason: string, now: int) returns (r: Result<Option<Doc>>)
    modifies payments, invoices
    ensures var original := FindOne(old(payments.docs), FieldEquals(PaymentId, originalPaymentId));
      original.None? ==> r == Ok(None) && payments.docs == old(payments.docs) && invoices.docs == old(invoices.docs) &&
                         payments.counters == old(payments.counters)
    ensures var original := FindOne(old(payments.docs), FieldEquals(PaymentId, originalPaymentId));
      original.Some? ==>
        |payments.docs| == |old(payments.docs)| + 1 && payments.docs[..|old(payments.docs)|] == old(payments.docs) &&
        var refund := payments.docs[|old(payments.docs)|];
        Get(refund, Amount) == Int(-refundAmount) && Get(refund, IsRefund) == Bool(true) &&
        Get(refund, InvoiceId) == Get(original.value, InvoiceId) &&
        invoices.docs == AfterPayment(old(invoices.docs), Get(refund, InvoiceId), Get(refund, Amount).i, now) &&
        (r.Err? <==> !PayableIfFound(old(invoices.docs), Get(refund, InvoiceId), Get(refund, Amount).i)) &&
        (r.Ok? ==> r.value == Some(refund))
  {
    var originalPayment := FindOne(payments.docs, FieldEquals(PaymentId, originalPaymentId));
    if originalPayment.None? {
      return Ok(None);
    }
    var created := CreateRefund(payments, invoices, originalPayment.value, originalPaymentId, refundAmount, reason, now);
    if created.Err? {
      return Err(created.message);
    }
    return Ok(Some(created.value));
  }

  /** The create_payment call of process_refund, for a found original payment. */
  method CreateRefund(payments: BaseRepo.Repository, invoices: Collection, original: Doc, originalPaymentId: Value,
                      refundAmount: int, reason: string, now: int) returns (r: Result<Doc>)
    modifies payments, invoices
    ensures |payments.docs| == |old(payments.docs)| + 1 && payments.docs[..|old(payments.docs)|] == old(payments.docs)
    ensures var refund := payments.docs[|old(payments.docs)|];
      Get(refund, Amount) == Int(-refundAmount) && Get(refund, IsRefund) == Bool(true) &&
      Get(refund, InvoiceId) == Get(original, InvoiceId) &&
      invoices.docs == AfterPayment(old(invoices.docs), Get(refund, InvoiceId), Get(refund, Amount).i, now) &&
      (r.Err? <==> !PayableIfFound(old(invoices.docs), Get(refund, InvoiceId), Get(refund, Amount).i)) &&
      (r.Ok? ==> r.value == refund)
  {
    var refundData := RefundData(original, originalPaymentId, refundAmount, reason, now);
    r := CreatePayment(payments, invoices, refundData, now);
  }

  // ---------------------------------------------------------------------
  // Monthly statement
  // ---------------------------------------------------------------------

  /** The statement period: the first to the last day of the month, December's end in the same year. */
  function StatementPeriod(month: int, year: int): (p: (Calendar.Date, Calendar.Date))
    requires 1 <= month <= 12
    ensures Calendar.ValidDate(p.0) && Calendar.ValidDate(p.1)
    ensures p.0 == Calendar.Date(year, month, 1)
    ensures p.1 == Calendar.Date(year, month, Calendar.DaysInMonth(year, month))
  {
    var startDate := Calendar.Date(year, month, 1);
    var endDate := if month == 12 then Calendar.PrevDay(Calendar.Date(year + 1, 1, 1))
                   else Calendar.PrevDay(Calendar.Date(year, month + 1, 1));
    (startDate, endDate)
  }

  /** A valid date lies in the period exactly when it is in that month. */
  lemma StatementPeriodIsMonth(month: int, year: int, d: Calendar.Date)
    requires 1 <= month <= 12 && Calendar.ValidDate(d)
    ensures var p := StatementPeriod(month, year);
      (Calendar.AtOrBefore(p.0, d) && Calendar.AtOrBefore(d, p.1)) <==> d.year == year && d.month == month
  {
  }

  datatype Statement = Statement(totalCharges: int, totalPayments: int, periodBalance: int, outstandingBalance: int)

  /** The `$gte` / `$lte` date filter of the period, with the patient. */
  function InPeriod(patientId: Value, field: string, month: int, year: int): Doc -> bool
    requires 1 <= month <= 12
  {
    var p := StatementPeriod(month, year);
    d => Get(d, PatientId) == patientId && Get(d, field).Stamp? &&
         Calendar.Midnight(p.0) <= Get(d, field).t <= Calendar.Midnight(p.1)
  }

  /** The sum of a field over documents. */
  function SumOf(docs: seq<Doc>, field: string): int
  {
    if docs == [] then 0 else Cents(Get(docs[0], field)) + SumOf(docs[1..], field)
  }

  /** The patient's pending invoices. */
  function PendingOf(patientId: Value): Doc -> bool
  {
    d => Get(d, PatientId) == patientId && Get(d, Status) == Str(Pending)
  }

  /** find_patient_invoices' `sort=[("invoice_date", -1)]`: newest first. */
  function NewestInvoiceFirst(): (Doc, Doc) -> bool
  {
    DescendingKeys([InvoiceDate])
  }

  /**
   * The month's invoices as the statement reads them: `find_many` without a
   * sort, so at most the first 100 matches in store order.
   */
  function PeriodInvoices(invoices: seq<Doc>, patientId: Value, month: int, year: int): (r: seq<Doc>)
    requires 1 <= month <= 12
    ensures |r| <= BaseRepo.DefaultLimit
    ensures forall i :: 0 <= i < |r| ==> r[i] in invoices && InPeriod(patientId, InvoiceDate, month, year)(r[i])
    ensures |Sorting.Filter(invoices, InPeriod(patientId, InvoiceDate, month, year))| <= BaseRepo.DefaultLimit ==>
              r == Sorting.Filter(invoices, InPeriod(patientId, InvoiceDate, month, year))
  {
    BaseRepo.FindMany(invoices, InPeriod(patientId, InvoiceDate, month, year), 0, BaseRepo.DefaultLimit, None)
  }

  /**
   * The pending invoices as the statement reads them: find_patient_invoices
   * with status pending, so at most 100 of them, newest first.
   */
  function PendingInvoices(invoices: seq<Doc>, patientId: Value): (r: seq<Doc>)
    ensures |r| <= BaseRepo.DefaultLimit
    ensures forall i :: 0 <= i < |r| ==> r[i] in invoices && PendingOf(patientId)(r[i])
  {
    BaseRepo.FindMany(invoices, PendingOf(patientId), 0, BaseRepo.DefaultLimit, Some(NewestInvoiceFirst()))
  }

  /**
   * generate_monthly_statement: charges are the totals of the month's
   * invoices it reads, payments the amounts of all the period's payments
   * (read without a limit), the period balance their difference, and the
   * outstanding balance what the pending invoices it reads owe.
   */
  function MonthlyStatement(invoices: seq<Doc>, payments: seq<Doc>, patientId: Value, month: int, year: int): (s: Statement)
    requires 1 <= month <= 12
    ensures s.periodBalance == s.totalCharges - s.totalPayments
    ensures s.totalCharges == SumOf(PeriodInvoices(invoices, patientId, month, year), TotalAmount)
    ensures s.totalPayments == SumOf(Sorting.Filter(payments, InPeriod(patientId, PaymentDate, month, year)), Amount)
    ensures s.outstandingBalance == SumOf(PendingInvoices(invoices, patientId), BalanceDue)
  {
    var charges := SumOf(PeriodInvoices(invoices, patientId, month, year), TotalAmount);
    var paid := SumOf(Sorting.Filter(payments, InPeriod(patientId, PaymentDate, month, year)), Amount);
    Statement(charges, paid, charges - paid, SumOf(PendingInvoices(invoices, patientId), BalanceDue))
  }

  /**
   * With at most 100 invoices in the month and at most 100 pending, the
   * statement's charges and outstanding balance cover every one of them.
   */
  lemma StatementOfFewInvoices(invoices: seq<Doc>, payments: seq<Doc>, patientId: Value, month: int, year: int)
    requires 1 <= month <= 12
    requires |Sorting.Filter(invoices, InPeriod(patientId, InvoiceDate, month, year))| <= BaseRepo.DefaultLimit
    requires |Sorting.Filter(invoices, PendingOf(patientId))| <= BaseRepo.DefaultLimit
    ensures var s := MonthlyStatement(invoices, payments, patientId, month, year);
      s.totalCharges == SumOf(Sorting.Filter(invoices, InPeriod(patientId, InvoiceDate, month, year)), TotalAmount) &&
      s.outstandingBalance == SumOf(Sorting.Filter(invoices, PendingOf(patientId)), BalanceDue)
  {
    var pending := Sorting.Filter(invoices, PendingOf(patientId));
    var ordered := Sorting.SortBy(pending, NewestInvoiceFirst());
    assert PendingInvoices(invoices, patientId) == BaseRepo.Window(ordered, 0, BaseRepo.DefaultLimit);
    assert PendingInvoices(invoices, patientId) == ordered;
    SumOfPermutation(ordered, pending, BalanceDue);
  }

  /** The sum does not depend on the order of the documents. */
  lemma {:induction false} SumOfPermutation(a: seq<Doc>, b: seq<Doc>, field: string)
    requires multiset(a) == multiset(b)
    ensures SumOf(a, field) == SumOf(b, field)
    decreases |a|
  {
    if a == [] {
      assert |b| == |multiset(b)|;
    } else {
      assert a[0] in multiset(b);
      var k :| 0 <= k < |b| && b[k] == a[0];
      RemoveMatching(a, b, k);
      SumOfPermutation(a[1..], b[..k] + b[k + 1..], field);
      SumOfRemove(b, k, field);
    }
  }

  /** Dropping the same element from two permutations of each other leaves permutations. */
  lemma RemoveMatching<T>(a: seq<T>, b: seq<T>, k: nat)
    requires multiset(a) == multiset(b) && a != [] && k < |b| && b[k] == a[0]
    ensures multiset(a[1..]) == multiset(b[..k] + b[k + 1..])
  {
    assert b == b[..k] + [b[k]] + b[k + 1..];
    assert a == [a[0]] + a[1..];
    assert multiset(b) == multiset(b[..k]) + multiset{b[k]} + multiset(b[k + 1..]);
    assert multiset(b[..k] + b[k + 1..]) == multiset(b[..k]) + multiset(b[k + 1..]);
    assert multiset(a[1..]) == multiset(a) - multiset{a[0]};
    assert multiset(b[..k] + b[k + 1..]) == multiset(b) - multiset{b[k]};
  }

  /** Taking one document out of a run lowers the sum by its value. */
  lemma SumOfRemove(b: seq<Doc>, k: nat, field: string)
    requires k < |b|
    ensures SumOf(b, field) == Cents(Get(b[k], field)) + SumOf(b[..k] + b[k + 1..], field)
  {
    assert b == b[..k] + ([b[k]] + b[k + 1..]);
    SumOfConcat(b[..k], [b[k]] + b[k + 1..], field);
    SumOfConcat(b[..k], b[k + 1..], field);
    assert ([b[k]] + b[k + 1..])[1..] == b[k + 1..];
  }

  lemma {:induction false} SumOfConcat(x: seq<Doc>, y: seq<Doc>, field: string)
    ensures SumOf(x + y, field) == SumOf(x, field) + SumOf(y, field)
    decreases |x|
  {
    if x != [] {
      assert (x + y)[1..] == x[1..] + y;
      SumOfConcat(x[1..], y, field);
    } else {
      assert x + y == y;
    }
  }

  /**
   * A payment stamped on the last day of the month after midnight is
   * outside the period: `$lte` compares with the end date's midnight.
   */
  lemma LastDayAfterMidnightOutside(patientId: Value, month: int, year: int, payment: Doc)
    requires 1 <= month <= 12
    requires Get(payment, PatientId) == patientId
    requires Get(payment, PaymentDate) == Stamp(Calendar.Midnight(StatementPeriod(month, year).1) + 1)
    ensures !InPeriod(patientId, PaymentDate, month, year)(payment)
  {
  }

  /** A refund in the period lowers the period's payments by its amount and raises the period balance by it. */
  lemma RefundInPeriodRaisesBalance(invoices: seq<Doc>, payments: seq<Doc>, refund: Doc, patientId: Value, month: int, year: int)
    requires 1 <= month <= 12
    requires InPeriod(patientId, PaymentDate, month, year)(refund) && Get(refund, Amount).Int?
    ensures MonthlyStatement(invoices, payments + [refund], patientId, month, year).periodBalance ==
            MonthlyStatement(invoices, payments, patientId, month, year).periodBalance - Get(refund, Amount).i
  {
    var f := InPeriod(patientId, PaymentDate, month, year);
    Sorting.FilterAppend(payments, refund, f);
    SumOfAppend(Sorting.Filter(payments, f), refund, Amount);
  }

  lemma {:induction false} SumOfAppend(docs: seq<Doc>, d: Doc, field: string)
    ensures SumOf(docs + [d], field) == SumOf(docs, field) + Cents(Get(d, field))
  {
    if docs != [] {
      assert (docs + [d])[1..] == docs[1..] + [d];
      SumOfAppend(docs[1..], d, field);
    }
  }
}
