/**
 * The invoice services of the clinic API: numbering the lines of an
 * invoice, recording a payment, and the trigger-like status check that
 * marks an invoice paid or partially paid from the payments recorded
 * against it. Amounts are integer cents.
 */
module InvoiceService {
  import opened Wrappers
  import opened Documents

  const InvoiceId: string := "invoice_id"
  const LineNo: string := "line_no"
  const PaymentId: string := "payment_id"
  const Amount: string := "amount"
  const Status: string := "status"
  const PatientPortion: string := "patient_portion"
  const TotalAmount: string := "total_amount"
  const Paid: string := "paid"
  const Partial: string := "partial"

  // ---------------------------------------------------------------------
  // Line numbering
  // ---------------------------------------------------------------------

  /** Every line of the invoice carries an integer `line_no` (as every line this service creates does). */
  predicate NumberedLines(lines: seq<Doc>, invoiceId: Value)
  {
    forall j :: 0 <= j < |lines| && Get(lines[j], InvoiceId) == invoiceId ==> Get(lines[j], LineNo).Int?
  }

  /** The highest `line_no` among the invoice's lines: the first row of the descending sort. */
  function TopLineNo(lines: seq<Doc>, invoiceId: Value): (top: Option<int>)
    requires NumberedLines(lines, invoiceId)
    ensures top.None? <==> forall j :: 0 <= j < |lines| ==> Get(lines[j], InvoiceId) != invoiceId
    ensures top.Some? ==> exists j :: 0 <= j < |lines| && Get(lines[j], InvoiceId) == invoiceId &&
                                      Get(lines[j], LineNo) == Int(top.value)
    ensures top.Some? ==> forall j :: 0 <= j < |lines| && Get(lines[j], InvoiceId) == invoiceId ==>
                                      Get(lines[j], LineNo).i <= top.value
  {
    if lines == [] then None
    else
      var rest := TopLineNo(lines[1..], invoiceId);
      assert forall j :: 1 <= j < |lines| ==> lines[j] == lines[1..][j - 1];
      if Get(lines[0], InvoiceId) != invoiceId then
        rest
      else
        var here := Get(lines[0], LineNo).i;
        if rest.None? || rest.value < here then Some(here) else rest
  }

  /** The line as stored: the submitted fields with the new `line_no`. */
  function NewLine(line: Doc, lineNo: int): Doc
  {
    line[LineNo := Int(lineNo)]
  }

  /**
   * InvoiceLineCRUD.create: the new line's `line_no` is one more than the
   * invoice's highest, or 1 for its first line.
   */
  method CreateLine(lines: Collection, line: Doc) returns (created: Doc)
    requires NumberedLines(lines.docs, Get(line, InvoiceId))
    modifies lines
    ensures var top := TopLineNo(old(lines.docs), Get(line, InvoiceId));
      created == NewLine(line, if top.None? then 1 else top.value + 1)
    ensures lines.docs == old(lines.docs) + [created]
  {
    var existingLines := TopLineNo(lines.docs, Get(line, InvoiceId));
    var lineNo := 1;
    if existingLines.Some? {
      lineNo := existingLines.value + 1;
    }
    var invoiceLineDict := line[LineNo := Int(lineNo)];
    lines.InsertOne(invoiceLineDict);
    return invoiceLineDict;
  }

  /** The invoice's line numbers are pairwise distinct. */
  predicate DistinctLineNos(lines: seq<Doc>, invoiceId: Value)
  {
    forall i, j :: 0 <= i < j < |lines| && Get(lines[i], InvoiceId) == invoiceId && Get(lines[j], InvoiceId) == invoiceId ==>
      Get(lines[i], LineNo) != Get(lines[j], LineNo)
  }

  /**
   * The new line's number is above every existing line of its invoice,
   * so adding it keeps that invoice's numbers numbered and distinct.
   */
  lemma CreateLineKeepsNumbersDistinct(lines: seq<Doc>, line: Doc)
    requires NumberedLines(lines, Get(line, InvoiceId)) && DistinctLineNos(lines, Get(line, InvoiceId))
    ensures var top := TopLineNo(lines, Get(line, InvoiceId));
      var created := NewLine(line, if top.None? then 1 else top.value + 1);
      NumberedLines(lines + [created], Get(line, InvoiceId)) &&
      DistinctLineNos(lines + [created], Get(line, InvoiceId))
  {
    var id := Get(line, InvoiceId);
    var top := TopLineNo(lines, id);
    var created := NewLine(line, if top.None? then 1 else top.value + 1);
    var after := lines + [created];
    assert Get(created, InvoiceId) == id;
    forall i, j | 0 <= i < j < |after| && Get(after[i], InvoiceId) == id && Get(after[j], InvoiceId) == id
      ensures Get(after[i], LineNo) != Get(after[j], LineNo)
    {
      if j == |lines| {
        assert after[i] == lines[i];
      }
    }
  }

  /** When the invoice's lines are numbered 1..n, the next line is number n + 1. */
  lemma {:induction false} CreateLineContinuesNumbering(lines: seq<Doc>, invoiceId: Value, n: nat)
    requires forall j :: 0 <= j < |lines| ==> Get(lines[j], InvoiceId) == invoiceId
    requires |lines| == n && forall j :: 0 <= j < n ==> Get(lines[j], LineNo) == Int(j + 1)
    ensures NumberedLines(lines, invoiceId)
    ensures TopLineNo(lines, invoiceId) == if n == 0 then None else Some(n)
  {
    if n > 0 {
      var top := TopLineNo(lines, invoiceId);
      assert Get(lines[n - 1], LineNo) == Int(n);
      assert top.value >= n;
    }
  }

  // ---------------------------------------------------------------------
  // Payments and the status check
  // ---------------------------------------------------------------------

  /** Every payment for the invoice carries an integer amount. */
  predicate PricedPayments(payments: seq<Doc>, invoiceId: Value)
  {
    forall j :: 0 <= j < |payments| && Get(payments[j], InvoiceId) == invoiceId ==> Get(payments[j], Amount).Int?
  }

  /** `sum(p["amount"] for p in payments)` over the invoice's payments. */
  function TotalPaid(payments: seq<Doc>, invoiceId: Value): (r: int)
    requires PricedPayments(payments, invoiceId)
    ensures (forall j :: 0 <= j < |payments| ==> Get(payments[j], InvoiceId) != invoiceId) ==> r == 0
    ensures (forall j :: 0 <= j < |payments| && Get(payments[j], InvoiceId) == invoiceId ==>
               Get(payments[j], Amount).i >= 0) ==> r >= 0
  {
    if payments == [] then 0
    else
      assert forall j :: 1 <= j < |payments| ==> payments[j] == payments[1..][j - 1];
      (if Get(payments[0], InvoiceId) == invoiceId then Get(payments[0], Amount).i else 0) +
      TotalPaid(payments[1..], invoiceId)
  }

  /** The total over payments with another payment appended. */
  lemma {:induction false} TotalPaidAppend(payments: seq<Doc>, p: Doc, invoiceId: Value)
    requires PricedPayments(payments + [p], invoiceId)
    ensures PricedPayments(payments, invoiceId)
    ensures Get(p, InvoiceId) == invoiceId ==> Get(p, Amount).Int?
    ensures TotalPaid(payments + [p], invoiceId) ==
      TotalPaid(payments, invoiceId) + (if Get(p, InvoiceId) == invoiceId then Get(p, Amount).i else 0)
  {
    var s := payments + [p];
    assert forall j :: 0 <= j < |payments| ==> s[j] == payments[j];
    if payments != [] {
      assert s[1..] == payments[1..] + [p];
      TotalPaidAppend(payments[1..], p, invoiceId);
    }
  }

  /** `invoice.get("patient_portion", invoice.get("total_amount", 0))`. */
  function Target(invoice: Doc): (r: Value)
    ensures PatientPortion in invoice ==> r == invoice[PatientPortion]
    ensures PatientPortion !in invoice && TotalAmount in invoice ==> r == invoice[TotalAmount]
    ensures PatientPortion !in invoice && TotalAmount !in invoice ==> r == Int(0)
  {
    GetOr(invoice, PatientPortion, GetOr(invoice, TotalAmount, Int(0)))
  }

  /**
   * The status the check arrives at: "paid" once the total reaches the
   * target, "partial" for a positive total below it, otherwise the
   * current status.
   */
  function NewStatus(invoice: Doc, totalPaid: int): (status: Value)
    requires Target(invoice).Int?
    ensures totalPaid >= Target(invoice).i ==> status == Str(Paid)
    ensures 0 < totalPaid < Target(invoice).i ==> status == Str(Partial)
    ensures totalPaid <= 0 && totalPaid < Target(invoice).i ==> status == Get(invoice, Status)
  {
    if totalPaid >= Target(invoice).i then Str(Paid)
    else if totalPaid > 0 then Str(Partial)
    else Get(invoice, Status)
  }

  /**
   * What the status check needs to run without raising: a found invoice has
   * a status (`invoice["status"]`), a numeric target, and its payments
   * numeric amounts.
   */
  predicate Checkable(invoices: seq<Doc>, payments: seq<Doc>, invoiceId: Value)
  {
    var found := FindOne(invoices, FieldEquals(InvoiceId, invoiceId));
    found.Some? ==> Status in found.value && Target(found.value).Int? && PricedPayments(payments, invoiceId)
  }

  /** The invoices after the status check, as a function of the store. */
  function StatusChecked(invoices: seq<Doc>, payments: seq<Doc>, invoiceId: Value): (r: seq<Doc>)
    requires Checkable(invoices, payments, invoiceId)
    ensures |r| == |invoices|
  {
    var i := FirstMatch(invoices, FieldEquals(InvoiceId, invoiceId));
    if i.None? then invoices
    else
      var invoice := invoices[i.value];
      var status := NewStatus(invoice, TotalPaid(payments, invoiceId));
      if status == Get(invoice, Status) then invoices
      else invoices[i.value := SetFields(invoice, map[Status := status])]
  }

  /**
   * check_and_update_invoice_status: nothing happens for a missing
   * invoice; otherwise the status is recomputed from all the invoice's
   * payments and written only when it changes.
   */
  method CheckAndUpdateInvoiceStatus(invoices: Collection, payments: seq<Doc>, invoiceId: Value)
    requires Checkable(invoices.docs, payments, invoiceId)
    modifies invoices
    ensures invoices.docs == StatusChecked(old(invoices.docs), payments, invoiceId)
  {
    var invoice := FindOne(invoices.docs, FieldEquals(InvoiceId, invoiceId));
    if invoice.None? {
      return;
    }
    var totalPaid := TotalPaid(payments, invoiceId);
    var newStatus := Get(invoice.value, Status);
    if totalPaid >= Target(invoice.value).i {
      newStatus := Str(Paid);
    } else if totalPaid > 0 {
      newStatus := Str(Partial);
    }
    if newStatus != Get(invoice.value, Status) {
      var matched := invoices.UpdateOneSet(FieldEquals(InvoiceId, invoiceId), map[Status := newStatus]);
    }
  }

  /** The check rewrites at most the invoice's status: every other field and every other invoice is kept. */
  lemma StatusCheckTouchesOnlyStatus(invoices: seq<Doc>, payments: seq<Doc>, invoiceId: Value)
    requires Checkable(invoices, payments, invoiceId)
    ensures var r := StatusChecked(invoices, payments, invoiceId);
      forall j :: 0 <= j < |invoices| ==>
        r[j].Keys <= invoices[j].Keys + {Status} && invoices[j].Keys <= r[j].Keys &&
        forall k :: k in invoices[j] && k != Status ==> r[j][k] == invoices[j][k]
  {
  }

  /** Because the status is recomputed from all payments, running the check twice is running it once. */
  lemma StatusCheckIdempotent(invoices: seq<Doc>, payments: seq<Doc>, invoiceId: Value)
    requires Checkable(invoices, payments, invoiceId)
    ensures Checkable(StatusChecked(invoices, payments, invoiceId), payments, invoiceId)
    ensures StatusChecked(StatusChecked(invoices, payments, invoiceId), payments, invoiceId) ==
            StatusChecked(invoices, payments, invoiceId)
  {
    var i := FirstMatch(invoices, FieldEquals(InvoiceId, invoiceId));
    if i.Some? {
      var invoice := invoices[i.value];
      var status := NewStatus(invoice, TotalPaid(payments, invoiceId));
      if status != Get(invoice, Status) {
        var updated := SetFields(invoice, map[Status := status]);
        var after := invoices[i.value := updated];
        assert Get(updated, InvoiceId) == Get(invoice, InvoiceId);
        assert Target(updated) == Target(invoice);
        FirstMatchAfterSet(invoices, FieldEquals(InvoiceId, invoiceId), i.value, updated);
      }
    }
  }

  /** The payment as stored: the submitted fields with the counter-issued `payment_id`. */
  function StoredPayment(payment: Doc, id: nat): Doc
  {
    payment[PaymentId := Int(id)]
  }

  /**
   * PaymentCRUD.create: the payment gets the next `payment_id` and is
   * stored; only a payment with a set (truthy) `invoice_id` runs the
   * status check, which then sees the new payment.
   */
  method CreatePayment(paymentStore: Collection, invoices: Collection, counters: Counters, payment: Doc)
      returns (created: Doc)
    requires paymentStore != invoices
    requires Truthy(Get(payment, InvoiceId)) ==>
      Checkable(invoices.docs, paymentStore.docs + [StoredPayment(payment, CounterValue(counters.values, PaymentId) + 1)],
                Get(payment, InvoiceId))
    modifies paymentStore, invoices, counters
    ensures var id := CounterValue(old(counters.values), PaymentId) + 1;
      counters.values == old(counters.values)[PaymentId := id] &&
      created == StoredPayment(payment, id) &&
      paymentStore.docs == old(paymentStore.docs) + [created]
    ensures Truthy(Get(payment, InvoiceId)) ==>
      invoices.docs == StatusChecked(old(invoices.docs), paymentStore.docs, Get(payment, InvoiceId))
    ensures !Truthy(Get(payment, InvoiceId)) ==> invoices.docs == old(invoices.docs)
  {
    var paymentId := counters.Next(PaymentId);
    var paymentDict := payment[PaymentId := Int(paymentId)];
    paymentStore.InsertOne(paymentDict);
    if Truthy(Get(payment, InvoiceId)) {
      CheckAndUpdateInvoiceStatus(invoices, paymentStore.docs, Get(payment, InvoiceId));
    }
    return paymentDict;
  }

  /** An invoice with neither `patient_portion` nor `total_amount` has target 0: any non-negative total marks it paid. */
  lemma MissingAmountsMeanPaid(invoice: Doc, totalPaid: int)
    requires PatientPortion !in invoice && TotalAmount !in invoice && totalPaid >= 0
    ensures Target(invoice) == Int(0) && NewStatus(invoice, totalPaid) == Str(Paid)
  {
  }

  const Pending: string := "pending"

  /** The billing scenario: of a 50.00 patient portion, paying 20.00 gives partial and a further 30.00 gives paid. */
  lemma PartialThenPaid(invoice: Doc, p1: Doc, p2: Doc)
    requires Get(invoice, InvoiceId) == Int(1) && Get(invoice, PatientPortion) == Int(5000)
    requires Get(invoice, Status) == Str(Pending)
    requires Get(p1, InvoiceId) == Int(1) && Get(p1, Amount) == Int(2000)
    requires Get(p2, InvoiceId) == Int(1) && Get(p2, Amount) == Int(3000)
    ensures StatusChecked([invoice], [p1], Int(1)) == [invoice[Status := Str(Partial)]]
    ensures StatusChecked(StatusChecked([invoice], [p1], Int(1)), [p1, p2], Int(1)) == [invoice[Status := Str(Paid)]]
  {
    var once := invoice[Status := Str(Partial)];
    assert TotalPaid([p1], Int(1)) == 2000;
    CheckSingle(invoice, [p1], Int(1), 2000);
    SetStatus(invoice, Str(Partial));
    TotalPaidAppend([p1], p2, Int(1));
    assert [p1] + [p2] == [p1, p2];
    assert Get(once, PatientPortion) == Int(5000) && Get(once, InvoiceId) == Int(1);
    CheckSingle(once, [p1, p2], Int(1), 5000);
    SetStatus(once, Str(Paid));
    SetStatusTwice(invoice, Str(Partial), Str(Paid));
  }

  lemma SetStatus(d: Doc, status: Value)
    ensures SetFields(d, map[Status := status]) == d[Status := status]
  {
  }

  lemma SetStatusTwice(d: Doc, first: Value, second: Value)
    ensures d[Status := first][Status := second] == d[Status := second]
  {
  }

  /** The status check on a store holding just the invoice. */
  lemma CheckSingle(invoice: Doc, payments: seq<Doc>, invoiceId: Value, total: int)
    requires Get(invoice, InvoiceId) == invoiceId && Status in invoice && Target(invoice).Int?
    requires PricedPayments(payments, invoiceId)
    requires TotalPaid(payments, invoiceId) == total
    ensures Checkable([invoice], payments, invoiceId)
    ensures var status := NewStatus(invoice, total);
      StatusChecked([invoice], payments, invoiceId) ==
      if status == Get(invoice, Status) then [invoice] else [SetFields(invoice, map[Status := status])]
  {
    assert FirstMatch([invoice], FieldEquals(InvoiceId, invoiceId)) == Some(0);
  }
}
