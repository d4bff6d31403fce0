/**
 * The report service's month window and the Python side of its monthly
 * statements. The store's pipeline hands over the month's invoices, each
 * with its patient, its lines, the sum of its payments and its balance;
 * the statements then group them per patient in order of first
 * appearance, age each invoice, group the lines by description, list the
 * payments by date, classify
 * each patient as paid, partial or unpaid and split the patients into a
 * paid and an unpaid list with their totals. Times are minutes on the
 * ordinal day scale and money is integer cents.
 */
module Reports {
  import opened Wrappers
  import opened Text
  import opened Calendar
  import Sorting

  // ---------------------------------------------------------------------
  // Month window
  // ---------------------------------------------------------------------

  /** `datetime(year, month, 1)` up to the first of the next month, December rolling into January. */
  function MonthWindow(month: int, year: int): (w: (Date, Date))
    requires 1 <= month <= 12
    ensures w.0 == FirstOfMonth(year, month) && ValidDate(w.0) && ValidDate(w.1) && Before(w.0, w.1)
    ensures w.1 == (if month == 12 then Date(year + 1, 1, 1) else Date(year, month + 1, 1))
  {
    (FirstOfMonth(year, month), FirstOfNextMonth(year, month))
  }

  /** `start_date <= t < end_date`. */
  predicate InWindow(t: int, w: (Date, Date))
    requires ValidDate(w.0) && ValidDate(w.1)
  {
    Midnight(w.0) <= t < Midnight(w.1)
  }

  /** A moment falls in the window exactly when its day is in the requested month. */
  lemma MonthWindowHoldsTheMonth(month: int, year: int, d: Date, minute: int)
    requires 1 <= month <= 12 && 1 <= year && ValidDate(d) && 1 <= d.year && 0 <= minute < MinutesPerDay
    ensures InWindow(Midnight(d) + minute, MonthWindow(month, year)) <==> d.year == year && d.month == month
  {
    var w := MonthWindow(month, year);
    MonthWindowExact(year, month, d);
    if Before(w.0, d) { OrdinalMonotone(w.0, d); }
    if Before(d, w.0) { OrdinalMonotone(d, w.0); }
    if Before(d, w.1) { OrdinalMonotone(d, w.1); }
    if Before(w.1, d) { OrdinalMonotone(w.1, d); }
  }

  // ---------------------------------------------------------------------
  // Aging
  // ---------------------------------------------------------------------

  const Paid: string := "paid"
  const Partial: string := "partial"
  const Unpaid: string := "unpaid"
  const Days0To30: string := "0-30"
  const Days31To60: string := "31-60"
  const Days61Plus: string := "61+"

  /** `(now - invoice_date_dt).days`, or 0 when the invoice date is not a datetime. */
  function DaysOutstanding(invoiceDate: Option<int>, now: int): (days: int)
    ensures invoiceDate.Some? ==> days * MinutesPerDay <= now - invoiceDate.value < (days + 1) * MinutesPerDay
    ensures invoiceDate.None? ==> days == 0
  {
    if invoiceDate.Some? then (now - invoiceDate.value) / MinutesPerDay else 0
  }

  /** The aging bucket of one invoice. */
  function AgingBucket(balanceDue: int, days: int): string
  {
    if balanceDue > 0 then
      if days <= 30 then Days0To30 else if days <= 60 then Days31To60 else Days61Plus
    else Paid
  }

  /** The buckets in age order; "paid" is not an age. */
  function BucketRank(b: string): int
  {
    if b == Days0To30 then 0 else if b == Days31To60 then 1 else if b == Days61Plus then 2 else -1
  }

  /**
   * An invoice is in the "paid" bucket exactly when nothing is due, and
   * among unpaid invoices an older one is never in a younger bucket; the
   * buckets are 0-30, 31-60 and 61 days or more.
   */
  lemma AgingBucketsOrdered(balanceDue: int, days1: int, days2: int)
    ensures (AgingBucket(balanceDue, days1) == Paid) <==> balanceDue <= 0
    ensures balanceDue > 0 && days1 <= days2 ==>
      0 <= BucketRank(AgingBucket(balanceDue, days1)) <= BucketRank(AgingBucket(balanceDue, days2))
    ensures balanceDue > 0 ==> (BucketRank(AgingBucket(balanceDue, days1)) == 0 <==> days1 <= 30)
    ensures balanceDue > 0 ==> (BucketRank(AgingBucket(balanceDue, days1)) == 2 <==> days1 > 60)
  {
    assert Days0To30[0] != Paid[0] && Days31To60[0] != Paid[0] && Days61Plus[0] != Paid[0];
    assert Days0To30[0] != Days31To60[0] && Days0To30[0] != Days61Plus[0] && Days31To60[0] != Days61Plus[0];
  }

  // ---------------------------------------------------------------------
  // Records
  // ---------------------------------------------------------------------

  /** An invoice line: a missing quantity counts 1, a missing price 0, a missing description "Unknown". */
  datatype Line = Line(qty: Option<int>, unitPrice: Option<int>, description: Option<string>)

  /** A payment of an invoice as the pipeline's payment lookup returns it: `payMethod` is its "method" key; dates are kept as text. */
  datatype RawPayment = RawPayment(paymentDate: Option<string>, payMethod: Option<string>, paymentMethod: Option<string>,
                                   amount: Option<int>)

  /** One invoice of the month as the pipeline returns it. */
  datatype RawInvoice = RawInvoice(patientId: Option<string>, patientName: Option<string>, invoiceDate: Option<int>,
                                   patientPortion: Option<int>, totalPaid: Option<int>, balanceDue: Option<int>,
                                   lines: seq<Line>, payments: seq<RawPayment>)

  /** A payment as a statement lists it: its date, its method and its amount. */
  datatype PaymentEntry = PaymentEntry(paymentDate: Option<string>, payMethod: Option<string>, amount: Option<int>)

  /** A service total: one description, its quantity and amount summed. */
  datatype Service = Service(description: string, qty: int, amount: int)

  /** The invoice as listed in a statement, with its age and bucket. */
  datatype Snapshot = Snapshot(invoice: RawInvoice, daysOutstanding: int, agingBucket: string)

  /** A patient's statement; status is empty until the statement is finished. */
  datatype Summary = Summary(patientId: Option<string>, patientName: Option<string>, invoices: seq<Snapshot>,
                             totalInvoiced: int, paymentsReceived: int, balance: int, services: seq<Service>,
                             payments: seq<PaymentEntry>, maxAgingDays: int, status: string)

  datatype Totals = Totals(totalInvoiced: int, paymentsReceived: int, balance: int)

  const UnknownService: string := "Unknown"

  function Qty(line: Line): int { line.qty.GetOr(1) }

  function LineTotal(line: Line): int { Qty(line) * line.unitPrice.GetOr(0) }

  function Description(line: Line): string { line.description.GetOr(UnknownService) }

  function BalanceDue(inv: RawInvoice): int { inv.balanceDue.GetOr(0) }

  // ---------------------------------------------------------------------
  // Services
  // ---------------------------------------------------------------------

  function ServiceIndex(services: seq<Service>, d: string): (k: Option<nat>)
    ensures k.Some? ==> k.value < |services| && services[k.value].description == d
    ensures k.None? ==> forall i :: 0 <= i < |services| ==> services[i].description != d
  {
    if services == [] then None
    else if services[0].description == d then Some(0)
    else
      var k := ServiceIndex(services[1..], d);
      if k.Some? then Some(k.value + 1) else None
  }

  lemma {:induction false} ServiceIndexAppend(services: seq<Service>, x: Service, d: string)
    requires ServiceIndex(services, d).None? && x.description == d
    ensures ServiceIndex(services + [x], d) == Some(|services|)
  {
    if services != [] {
      assert (services + [x])[1..] == services[1..] + [x];
      ServiceIndexAppend(services[1..], x, d);
    }
  }

  /** `services.setdefault(desc, ...)` and the two additions. */
  function AddLine(services: seq<Service>, line: Line): seq<Service>
  {
    var d := Description(line);
    var k := ServiceIndex(services, d);
    if k.Some? then
      services[k.value := Service(d, services[k.value].qty + Qty(line), services[k.value].amount + LineTotal(line))]
    else services + [Service(d, Qty(line), LineTotal(line))]
  }

  /** The lines added one after another. */
  function Group(services: seq<Service>, lines: seq<Line>): seq<Service>
  {
    if lines == [] then services else AddLine(Group(services, lines[..|lines| - 1]), lines[|lines| - 1])
  }

  /** Grouping one line more of the invoice adds that line to the grouping so far. */
  lemma GroupStep(services: seq<Service>, lines: seq<Line>, j: nat)
    requires j < |lines|
    ensures Group(services, lines[..j + 1]) == AddLine(Group(services, lines[..j]), lines[j])
  {
    assert lines[..j + 1][..j] == lines[..j];
  }

  predicate DistinctDescriptions(services: seq<Service>)
  {
    forall i, j :: 0 <= i < j < |services| ==> services[i].description != services[j].description
  }

  /** The quantity listed for a description (0 when it is not listed). */
  function ServiceQty(services: seq<Service>, d: string): int
  {
    var k := ServiceIndex(services, d);
    if k.Some? then services[k.value].qty else 0
  }

  function ServiceAmount(services: seq<Service>, d: string): int
  {
    var k := ServiceIndex(services, d);
    if k.Some? then services[k.value].amount else 0
  }

  /** The reference sums: quantity and amount over the lines that carry a description. */
  function QtyOf(lines: seq<Line>, d: string): int
  {
    if lines == [] then 0
    else QtyOf(lines[..|lines| - 1], d) + (if Description(lines[|lines| - 1]) == d then Qty(lines[|lines| - 1]) else 0)
  }

  function AmountOf(lines: seq<Line>, d: string): int
  {
    if lines == [] then 0
    else AmountOf(lines[..|lines| - 1], d) + (if Description(lines[|lines| - 1]) == d then LineTotal(lines[|lines| - 1]) else 0)
  }

  lemma AddLineSums(services: seq<Service>, line: Line, d: string)
    requires DistinctDescriptions(services)
    ensures DistinctDescriptions(AddLine(services, line))
    ensures ServiceQty(AddLine(services, line), d) ==
            ServiceQty(services, d) + (if Description(line) == d then Qty(line) else 0)
    ensures ServiceAmount(AddLine(services, line), d) ==
            ServiceAmount(services, d) + (if Description(line) == d then LineTotal(line) else 0)
    ensures (ServiceIndex(AddLine(services, line), d).Some? <==>
            ServiceIndex(services, d).Some? || Description(line) == d)
  {
    var r := AddLine(services, line);
    var k := ServiceIndex(services, Description(line));
    var kd := ServiceIndex(services, d);
    var rd := ServiceIndex(r, d);
    if k.Some? {
      assert forall i :: 0 <= i < |r| ==> r[i].description == services[i].description;
      if kd.Some? {
        assert rd.Some? && rd.value == kd.value;
      }
    } else {
      assert forall i :: 0 <= i < |services| ==> r[i] == services[i];
      if kd.Some? {
        assert rd.Some? && rd.value == kd.value;
      } else if Description(line) == d {
        ServiceIndexAppend(services, Service(d, Qty(line), LineTotal(line)), d);
      }
    }
  }

  /**
   * Grouping lines into service totals adds each description's quantity
   * and amount and keeps one entry per description.
   */
  lemma {:induction false} GroupSums(services: seq<Service>, lines: seq<Line>, d: string)
    requires DistinctDescriptions(services)
    ensures DistinctDescriptions(Group(services, lines))
    ensures ServiceQty(Group(services, lines), d) == ServiceQty(services, d) + QtyOf(lines, d)
    ensures ServiceAmount(Group(services, lines), d) == ServiceAmount(services, d) + AmountOf(lines, d)
    ensures (ServiceIndex(Group(services, lines), d).Some? <==>
            ServiceIndex(services, d).Some? || exists i :: 0 <= i < |lines| && Description(lines[i]) == d)
    decreases |lines|
  {
    if lines != [] {
      var init := lines[..|lines| - 1];
      GroupSums(services, init, d);
      AddLineSums(Group(services, init), lines[|lines| - 1], d);
      if ServiceIndex(services, d).None? && exists i :: 0 <= i < |lines| && Description(lines[i]) == d {
        var i :| 0 <= i < |lines| && Description(lines[i]) == d;
        if i < |lines| - 1 {
          assert Description(init[i]) == d;
        }
      }
      if exists i :: 0 <= i < |init| && Description(init[i]) == d {
        var i :| 0 <= i < |init| && Description(init[i]) == d;
        assert lines[i] == init[i];
      }
    }
  }

  // ---------------------------------------------------------------------
  // Payments of a statement
  // ---------------------------------------------------------------------

  /** `pay.get("method") or pay.get("payment_method")`: a missing or empty method falls back to payment_method. */
  function Entry(pay: RawPayment): PaymentEntry
  {
    var payMethod := if pay.payMethod.Some? && pay.payMethod.value != "" then pay.payMethod else pay.paymentMethod;
    PaymentEntry(pay.paymentDate, payMethod, pay.amount)
  }

  /** The payments of one invoice, flattened in order. */
  function Entries(pays: seq<RawPayment>): seq<PaymentEntry>
  {
    if pays == [] then [] else Entries(pays[..|pays| - 1]) + [Entry(pays[|pays| - 1])]
  }

  /** One entry per payment, in order, each with the payment's date and amount and the method fallback. */
  lemma {:induction false} EntriesSpec(pays: seq<RawPayment>)
    ensures |Entries(pays)| == |pays|
    ensures forall i :: 0 <= i < |pays| ==>
      var e := Entries(pays)[i];
      e.paymentDate == pays[i].paymentDate && e.amount == pays[i].amount &&
      (pays[i].payMethod.Some? && pays[i].payMethod.value != "" ==> e.payMethod == pays[i].payMethod) &&
      (pays[i].payMethod.None? || pays[i].payMethod == Some("") ==> e.payMethod == pays[i].paymentMethod)
    decreases |pays|
  {
    if pays != [] {
      EntriesSpec(pays[..|pays| - 1]);
      forall i | 0 <= i < |pays| - 1 ensures Entries(pays)[i] == Entries(pays[..|pays| - 1])[i] && pays[i] == pays[..|pays| - 1][i] {
      }
    }
  }

  lemma EntriesStep(pays: seq<RawPayment>, k: nat)
    requires k < |pays|
    ensures Entries(pays[..k + 1]) == Entries(pays[..k]) + [Entry(pays[k])]
  {
    assert pays[..k + 1][..k] == pays[..k];
  }

  /** `key=lambda x: x.get("payment_date") or ""`: a missing date sorts as the empty text. */
  predicate PaymentDateLe(a: PaymentEntry, b: PaymentEntry)
  {
    StrLe(a.paymentDate.GetOr(""), b.paymentDate.GetOr(""))
  }

  lemma PaymentDatePreorder()
    ensures Sorting.TotalPreorder(PaymentDateLe)
  {
    forall a: PaymentEntry, b: PaymentEntry ensures PaymentDateLe(a, b) || PaymentDateLe(b, a) {
      StrLeTotal(a.paymentDate.GetOr(""), b.paymentDate.GetOr(""));
    }
    forall a: PaymentEntry, b: PaymentEntry, c: PaymentEntry | PaymentDateLe(a, b) && PaymentDateLe(b, c)
      ensures PaymentDateLe(a, c)
    {
      StrLeTrans(a.paymentDate.GetOr(""), b.paymentDate.GetOr(""), c.paymentDate.GetOr(""));
    }
  }

  /** `sorted(..., key=lambda x: x["description"])`. */
  predicate DescriptionLe(a: Service, b: Service)
  {
    StrLe(a.description, b.description)
  }

  lemma DescriptionPreorder()
    ensures Sorting.TotalPreorder(DescriptionLe)
  {
    forall a: Service, b: Service ensures DescriptionLe(a, b) || DescriptionLe(b, a) {
      StrLeTotal(a.description, b.description);
    }
    forall a: Service, b: Service, c: Service | DescriptionLe(a, b) && DescriptionLe(b, c) ensures DescriptionLe(a, c) {
      StrLeTrans(a.description, b.description, c.description);
    }
  }

  // ---------------------------------------------------------------------
  // Per-patient statements
  // ---------------------------------------------------------------------

  /** The statement a patient starts with, named after the first of their invoices. */
  function Start(inv: RawInvoice): Summary
  {
    Summary(inv.patientId, inv.patientName, [], 0, 0, 0, [], [], 0, [])
  }

  /** One invoice added to its patient's statement. */
  function AddInvoice(s: Summary, inv: RawInvoice, now: int): Summary
  {
    var days := DaysOutstanding(inv.invoiceDate, now);
    var balanceDue := BalanceDue(inv);
    s.(invoices := s.invoices + [Snapshot(inv, days, AgingBucket(balanceDue, days))],
       totalInvoiced := s.totalInvoiced + inv.patientPortion.GetOr(0),
       paymentsReceived := s.paymentsReceived + inv.totalPaid.GetOr(0),
       balance := s.balance + balanceDue,
       services := Group(s.services, inv.lines),
       payments := s.payments + Entries(inv.payments),
       maxAgingDays := if balanceDue > 0 && days > s.maxAgingDays then days else s.maxAgingDays)
  }

  /** A patient's statement before it is finished: their invoices added in order. */
  function PatientSummary(invs: seq<RawInvoice>, now: int): Summary
    requires invs != []
  {
    if |invs| == 1 then AddInvoice(Start(invs[0]), invs[0], now)
    else AddInvoice(PatientSummary(invs[..|invs| - 1], now), invs[|invs| - 1], now)
  }

  /** The invoices of one patient, in order. */
  function OfPatient(invs: seq<RawInvoice>, pid: Option<string>): (r: seq<RawInvoice>)
    ensures forall i :: 0 <= i < |r| ==> r[i].patientId == pid
  {
    if invs == [] then []
    else OfPatient(invs[..|invs| - 1], pid) + (if invs[|invs| - 1].patientId == pid then [invs[|invs| - 1]] else [])
  }

  /** The patients in order of their first invoice. */
  function FirstAppearances(invs: seq<RawInvoice>): seq<Option<string>>
  {
    if invs == [] then []
    else
      var order := FirstAppearances(invs[..|invs| - 1]);
      if invs[|invs| - 1].patientId in order then order else order + [invs[|invs| - 1].patientId]
  }

  /** The reference sums over a patient's invoices. */
  function PaymentsOver(invs: seq<RawInvoice>): seq<PaymentEntry>
  {
    if invs == [] then [] else PaymentsOver(invs[..|invs| - 1]) + Entries(invs[|invs| - 1].payments)
  }

  function SumPortions(invs: seq<RawInvoice>): int
  {
    if invs == [] then 0 else SumPortions(invs[..|invs| - 1]) + invs[|invs| - 1].patientPortion.GetOr(0)
  }

  function SumPaid(invs: seq<RawInvoice>): int
  {
    if invs == [] then 0 else SumPaid(invs[..|invs| - 1]) + invs[|invs| - 1].totalPaid.GetOr(0)
  }

  function SumBalances(invs: seq<RawInvoice>): int
  {
    if invs == [] then 0 else SumBalances(invs[..|invs| - 1]) + BalanceDue(invs[|invs| - 1])
  }

  function QtyOver(invs: seq<RawInvoice>, d: string): int
  {
    if invs == [] then 0 else QtyOver(invs[..|invs| - 1], d) + QtyOf(invs[|invs| - 1].lines, d)
  }

  function AmountOver(invs: seq<RawInvoice>, d: string): int
  {
    if invs == [] then 0 else AmountOver(invs[..|invs| - 1], d) + AmountOf(invs[|invs| - 1].lines, d)
  }

  /**
   * A patient's statement: its totals are the sums over their invoices, one
   * snapshot per invoice, each service's quantity and amount the sums over
   * the lines of that description, and the maximum aging the largest age
   * among invoices with a positive balance (0 when there is none).
   */
  lemma PatientSummarySpec(invs: seq<RawInvoice>, now: int, d: string)
    requires invs != []
    ensures var s := PatientSummary(invs, now);
      s.patientId == invs[0].patientId && s.patientName == invs[0].patientName &&
      |s.invoices| == |invs| &&
      s.totalInvoiced == SumPortions(invs) && s.paymentsReceived == SumPaid(invs) && s.balance == SumBalances(invs) &&
      DistinctDescriptions(s.services) &&
      ServiceQty(s.services, d) == QtyOver(invs, d) && ServiceAmount(s.services, d) == AmountOver(invs, d) &&
      s.payments == PaymentsOver(invs) &&
      s.maxAgingDays >= 0 &&
      (forall i :: 0 <= i < |invs| && BalanceDue(invs[i]) > 0 ==>
         DaysOutstanding(invs[i].invoiceDate, now) <= s.maxAgingDays) &&
      (s.maxAgingDays == 0 || exists i :: (0 <= i < |invs| && BalanceDue(invs[i]) > 0 &&
         DaysOutstanding(invs[i].invoiceDate, now) == s.maxAgingDays))
  {
    SummaryTotals(invs, now);
    SummaryServices(invs, now, d);
    SummaryPayments(invs, now);
    SummaryAging(invs, now);
  }

  lemma {:induction false} SummaryPayments(invs: seq<RawInvoice>, now: int)
    requires invs != []
    ensures PatientSummary(invs, now).payments == PaymentsOver(invs)
    decreases |invs|
  {
    var init := invs[..|invs| - 1];
    if |invs| == 1 {
      assert init == [];
    } else {
      SummaryPayments(init, now);
    }
  }

  lemma {:induction false} SummaryTotals(invs: seq<RawInvoice>, now: int)
    requires invs != []
    ensures var s := PatientSummary(invs, now);
      s.patientId == invs[0].patientId && s.patientName == invs[0].patientName &&
      |s.invoices| == |invs| &&
      s.totalInvoiced == SumPortions(invs) && s.paymentsReceived == SumPaid(invs) && s.balance == SumBalances(invs)
    decreases |invs|
  {
    var init := invs[..|invs| - 1];
    if |invs| == 1 {
      assert init == [];
    } else {
      SummaryTotals(init, now);
      assert init[0] == invs[0];
    }
  }

  lemma {:induction false} SummaryServices(invs: seq<RawInvoice>, now: int, d: string)
    requires invs != []
    ensures var s := PatientSummary(invs, now);
      DistinctDescriptions(s.services) &&
      ServiceQty(s.services, d) == QtyOver(invs, d) && ServiceAmount(s.services, d) == AmountOver(invs, d)
    decreases |invs|
  {
    var last := invs[|invs| - 1];
    var init := invs[..|invs| - 1];
    if |invs| == 1 {
      assert init == [];
      GroupSums([], last.lines, d);
    } else {
      SummaryServices(init, now, d);
      GroupSums(PatientSummary(init, now).services, last.lines, d);
    }
  }

  lemma {:induction false} SummaryAging(invs: seq<RawInvoice>, now: int)
    requires invs != []
    ensures var s := PatientSummary(invs, now);
      s.maxAgingDays >= 0 &&
      (forall i :: 0 <= i < |invs| && BalanceDue(invs[i]) > 0 ==>
         DaysOutstanding(invs[i].invoiceDate, now) <= s.maxAgingDays) &&
      (s.maxAgingDays == 0 || exists i :: (0 <= i < |invs| && BalanceDue(invs[i]) > 0 &&
         DaysOutstanding(invs[i].invoiceDate, now) == s.maxAgingDays))
    decreases |invs|
  {
    var init := invs[..|invs| - 1];
    if |invs| > 1 {
      SummaryAging(init, now);
      var p := PatientSummary(init, now);
      var s := PatientSummary(invs, now);
      forall i | 0 <= i < |invs| && BalanceDue(invs[i]) > 0
        ensures DaysOutstanding(invs[i].invoiceDate, now) <= s.maxAgingDays
      {
        if i < |invs| - 1 { assert invs[i] == init[i]; }
      }
      if s.maxAgingDays != 0 && s.maxAgingDays == p.maxAgingDays {
        var i :| 0 <= i < |init| && BalanceDue(init[i]) > 0 && DaysOutstanding(init[i].invoiceDate, now) == p.maxAgingDays;
        assert invs[i] == init[i];
      }
    }
  }

  /** `"paid"` for a balance of at most 0, `"partial"` after any payment, otherwise `"unpaid"`. */
  function Status(balance: int, paymentsReceived: int): string
  {
    if balance <= 0 then Paid else if paymentsReceived > 0 then Partial else Unpaid
  }

  /** The statement finished: services sorted by description, payments by date and the status set. */
  function Finish(s: Summary): Summary
  {
    s.(services := Sorting.SortBy(s.services, DescriptionLe), payments := Sorting.SortBy(s.payments, PaymentDateLe),
       status := Status(s.balance, s.paymentsReceived))
  }

  /** The finished statement of one patient of the month. */
  function StatementOf(invs: seq<RawInvoice>, pid: Option<string>, now: int): Summary
  {
    var mine := OfPatient(invs, pid);
    if mine == [] then Finish(Summary(pid, None, [], 0, 0, 0, [], [], 0, [])) else Finish(PatientSummary(mine, now))
  }

  function StatementsFor(invs: seq<RawInvoice>, pids: seq<Option<string>>, now: int): (r: seq<Summary>)
    ensures |r| == |pids|
  {
    if pids == [] then []
    else StatementsFor(invs, pids[..|pids| - 1], now) + [StatementOf(invs, pids[|pids| - 1], now)]
  }

  /** Every patient's finished statement, in order of their first invoice. */
  function Statements(invs: seq<RawInvoice>, now: int): seq<Summary>
  {
    StatementsFor(invs, FirstAppearances(invs), now)
  }

  /**
   * The paid list: the statements whose rounded balance is at most 0 (a
   * balance in cents is already rounded), in order.
   */
  function Settled(ss: seq<Summary>): seq<Summary>
  {
    if ss == [] then []
    else if ss[|ss| - 1].balance <= 0 then Settled(ss[..|ss| - 1]) + [ss[|ss| - 1]]
    else Settled(ss[..|ss| - 1])
  }

  /** The unpaid list: the statements still owing, in order. */
  function Owing(ss: seq<Summary>): seq<Summary>
  {
    if ss == [] then []
    else if ss[|ss| - 1].balance > 0 then Owing(ss[..|ss| - 1]) + [ss[|ss| - 1]]
    else Owing(ss[..|ss| - 1])
  }

  function AddTotals(t: Totals, s: Summary): Totals
  {
    Totals(t.totalInvoiced + s.totalInvoiced, t.paymentsReceived + s.paymentsReceived, t.balance + s.balance)
  }

  function Invoiced(ss: seq<Summary>): int
  {
    if ss == [] then 0 else Invoiced(ss[..|ss| - 1]) + ss[|ss| - 1].totalInvoiced
  }

  function Received(ss: seq<Summary>): int
  {
    if ss == [] then 0 else Received(ss[..|ss| - 1]) + ss[|ss| - 1].paymentsReceived
  }

  function Outstanding(ss: seq<Summary>): int
  {
    if ss == [] then 0 else Outstanding(ss[..|ss| - 1]) + ss[|ss| - 1].balance
  }

  /** The totals of a list of statements, each field summed over the list. */
  function TotalsOf(ss: seq<Summary>): Totals
  {
    Totals(Invoiced(ss), Received(ss), Outstanding(ss))
  }

  // ---------------------------------------------------------------------
  // get_monthly_statements
  // ---------------------------------------------------------------------

  /** One invoice added to its patient's statement: the aging, the line loop and the running sums. */
  method AddToStatement(s: Summary, inv: RawInvoice, now: int) returns (r: Summary)
    ensures r == AddInvoice(s, inv, now)
  {
    var days := DaysOutstanding(inv.invoiceDate, now);
    var balanceDue := BalanceDue(inv);
    var maxAging := s.maxAgingDays;
    if balanceDue > 0 && days > maxAging {
      maxAging := days;
    }
    var bucket := AgingBucket(balanceDue, days);
    var services := s.services;
    var j := 0;
    while j < |inv.lines|
      invariant 0 <= j <= |inv.lines|
      invariant services == Group(s.services, inv.lines[..j])
    {
      GroupStep(s.services, inv.lines, j);
      services := AddLine(services, inv.lines[j]);
      j := j + 1;
    }
    assert inv.lines[..|inv.lines|] == inv.lines;
    var payments := s.payments;
    var k := 0;
    while k < |inv.payments|
      invariant 0 <= k <= |inv.payments|
      invariant payments == s.payments + Entries(inv.payments[..k])
    {
      EntriesStep(inv.payments, k);
      payments := payments + [Entry(inv.payments[k])];
      k := k + 1;
    }
    assert inv.payments[..|inv.payments|] == inv.payments;
    r := s.(invoices := s.invoices + [Snapshot(inv, days, bucket)],
            totalInvoiced := s.totalInvoiced + inv.patientPortion.GetOr(0),
            paymentsReceived := s.paymentsReceived + inv.totalPaid.GetOr(0),
            balance := s.balance + balanceDue,
            services := services,
            payments := payments,
            maxAgingDays := maxAging);
  }

  lemma OfPatientAppend(invs: seq<RawInvoice>, x: RawInvoice, q: Option<string>)
    ensures OfPatient(invs + [x], q) == OfPatient(invs, q) + (if x.patientId == q then [x] else [])
    ensures FirstAppearances(invs + [x]) ==
      if x.patientId in FirstAppearances(invs) then FirstAppearances(invs) else FirstAppearances(invs) + [x.patientId]
  {
    assert (invs + [x])[..|invs|] == invs;
  }

  lemma PatientSummaryAppend(invs: seq<RawInvoice>, x: RawInvoice, now: int)
    requires invs != []
    ensures PatientSummary(invs + [x], now) == AddInvoice(PatientSummary(invs, now), x, now)
  {
    assert (invs + [x])[..|invs|] == invs;
  }

  /**
   * The state of the statement loop after the invoices `invs`: the
   * patients in first-appearance order, and for each of them the statement
   * of their invoices so far.
   */
  ghost predicate Tracks(invs: seq<RawInvoice>, order: seq<Option<string>>, patients: map<Option<string>, Summary>, now: int)
  {
    order == FirstAppearances(invs) &&
    (forall pid :: pid in patients <==> pid in order) &&
    (forall pid :: pid in patients ==>
       OfPatient(invs, pid) != [] && patients[pid] == PatientSummary(OfPatient(invs, pid), now)) &&
    (forall pid :: pid !in patients ==> OfPatient(invs, pid) == [])
  }

  /** One more invoice: its patient's statement, started if new, takes the invoice. */
  lemma TracksStep(invs: seq<RawInvoice>, inv: RawInvoice, order: seq<Option<string>>,
                   patients: map<Option<string>, Summary>, now: int)
    requires Tracks(invs, order, patients, now)
    ensures var pid := inv.patientId;
      var s := if pid in patients then patients[pid] else Start(inv);
      Tracks(invs + [inv], if pid in patients then order else order + [pid], patients[pid := AddInvoice(s, inv, now)], now)
  {
    var pid := inv.patientId;
    var s := if pid in patients then patients[pid] else Start(inv);
    var after := patients[pid := AddInvoice(s, inv, now)];
    var order' := if pid in patients then order else order + [pid];
    OfPatientAppend(invs, inv, pid);
    assert order' == FirstAppearances(invs + [inv]);
    assert forall q :: q in after <==> q in order';
    forall q | q in after
      ensures OfPatient(invs + [inv], q) != [] && after[q] == PatientSummary(OfPatient(invs + [inv], q), now)
    {
      TrackedAfterStep(invs, inv, order, patients, now, q);
    }
    forall q | q !in after ensures OfPatient(invs + [inv], q) == [] {
      OfPatientAppend(invs, inv, q);
    }
    assert Tracks(invs + [inv], order', after, now);
  }

  /** One patient's statement after the step: the invoice added when it is theirs, else unchanged. */
  lemma TrackedAfterStep(invs: seq<RawInvoice>, inv: RawInvoice, order: seq<Option<string>>,
                         patients: map<Option<string>, Summary>, now: int, q: Option<string>)
    requires Tracks(invs, order, patients, now)
    requires q in patients || q == inv.patientId
    ensures var pid := inv.patientId;
      var s := if pid in patients then patients[pid] else Start(inv);
      var after := patients[pid := AddInvoice(s, inv, now)];
      OfPatient(invs + [inv], q) != [] && after[q] == PatientSummary(OfPatient(invs + [inv], q), now)
  {
    var pid := inv.patientId;
    OfPatientAppend(invs, inv, q);
    if q == pid && pid in patients {
      PatientSummaryAppend(OfPatient(invs, q), inv, now);
      assert OfPatient(invs + [inv], q) == OfPatient(invs, q) + [inv];
    } else if q == pid {
      assert OfPatient(invs + [inv], q) == [inv];
      assert PatientSummary([inv], now) == AddInvoice(Start(inv), inv, now);
    } else {
      assert OfPatient(invs + [inv], q) == OfPatient(invs, q);
    }
  }

  /** The statement loop over the month's invoices: one statement per patient, keyed in first-appearance order. */
  method AccumulatePatients(invoices: seq<RawInvoice>, now: int)
      returns (order: seq<Option<string>>, patients: map<Option<string>, Summary>)
    ensures order == FirstAppearances(invoices)
    ensures forall pid :: pid in patients <==> pid in order
    ensures forall pid :: pid in patients ==>
      OfPatient(invoices, pid) != [] && patients[pid] == PatientSummary(OfPatient(invoices, pid), now)
  {
    order, patients := [], map[];
    var i := 0;
    while i < |invoices|
      invariant 0 <= i <= |invoices|
      invariant Tracks(invoices[..i], order, patients, now)
    {
      var inv := invoices[i];
      var pid := inv.patientId;
      Sorting.PrefixExtend(invoices, i);
      TracksStep(invoices[..i], inv, order, patients, now);
      var s := Start(inv);
      if pid in patients {
        s := patients[pid];
      } else {
        order := order + [pid];
      }
      var r := AddToStatement(s, inv, now);
      patients := patients[pid := r];
      i := i + 1;
    }
    assert invoices[..|invoices|] == invoices;
  }

  /** A tracked statement, finished, is that patient's statement of the month. */
  lemma FinishTracked(invs: seq<RawInvoice>, pid: Option<string>, p: Summary, now: int)
    requires OfPatient(invs, pid) != [] && p == PatientSummary(OfPatient(invs, pid), now)
    ensures Finish(p) == StatementOf(invs, pid, now)
  {
  }

  /** The loop that finishes each statement, in the patients' order. */
  method FinishStatements(invoices: seq<RawInvoice>, now: int, order: seq<Option<string>>,
                          patients: map<Option<string>, Summary>) returns (statements: seq<Summary>)
    requires forall pid :: pid in order ==> pid in patients
    requires forall pid :: pid in patients ==>
      OfPatient(invoices, pid) != [] && patients[pid] == PatientSummary(OfPatient(invoices, pid), now)
    ensures statements == StatementsFor(invoices, order, now)
  {
    statements := [];
    var k := 0;
    while k < |order|
      invariant 0 <= k <= |order|
      invariant statements == StatementsFor(invoices, order[..k], now)
    {
      var p := patients[order[k]];
      var sortedServices := Sorting.SortBy(p.services, DescriptionLe);
      var sortedPayments := Sorting.SortBy(p.payments, PaymentDateLe);
      var status := if p.balance <= 0 then Paid else if p.paymentsReceived > 0 then Partial else Unpaid;
      var finished := p.(services := sortedServices, payments := sortedPayments, status := status);
      StatementsForStep(invoices, order, k, p, finished, now);
      statements := statements + [finished];
      k := k + 1;
    }
    assert order[..|order|] == order;
  }

  /** Finishing the tracked statement of the next patient extends the statements by that patient's. */
  lemma StatementsForStep(invoices: seq<RawInvoice>, order: seq<Option<string>>, k: nat, p: Summary, finished: Summary,
                          now: int)
    requires k < |order| && OfPatient(invoices, order[k]) != [] && p == PatientSummary(OfPatient(invoices, order[k]), now)
    requires finished == p.(services := Sorting.SortBy(p.services, DescriptionLe),
                            payments := Sorting.SortBy(p.payments, PaymentDateLe),
                            status := if p.balance <= 0 then Paid else if p.paymentsReceived > 0 then Partial else Unpaid)
    ensures StatementsFor(invoices, order[..k + 1], now) == StatementsFor(invoices, order[..k], now) + [finished]
  {
    assert order[..k + 1][..k] == order[..k];
    FinishTracked(invoices, order[k], p, now);
    assert finished == Finish(p);
  }

  lemma TotalsAppend(ss: seq<Summary>, s: Summary)
    ensures Invoiced(ss + [s]) == Invoiced(ss) + s.totalInvoiced
    ensures Received(ss + [s]) == Received(ss) + s.paymentsReceived
    ensures Outstanding(ss + [s]) == Outstanding(ss) + s.balance
  {
    assert (ss + [s])[..|ss|] == ss;
  }

  /** One more statement joins the paid list when its balance is settled, and the unpaid list otherwise. */
  lemma SplitStep(ss: seq<Summary>, n: nat)
    requires n < |ss|
    ensures Settled(ss[..n + 1]) == if ss[n].balance <= 0 then Settled(ss[..n]) + [ss[n]] else Settled(ss[..n])
    ensures Owing(ss[..n + 1]) == if ss[n].balance > 0 then Owing(ss[..n]) + [ss[n]] else Owing(ss[..n])
  {
    var t := ss[..n + 1];
    assert t[..|t| - 1] == ss[..n] && t[|t| - 1] == ss[n];
  }

  /** The loop that sorts finished statements into the paid and unpaid lists and sums each. */
  method SplitStatements(statements: seq<Summary>)
      returns (paid: seq<Summary>, unpaid: seq<Summary>, paidTotals: Totals, unpaidTotals: Totals)
    ensures paid == Settled(statements) && unpaid == Owing(statements)
    ensures paidTotals == TotalsOf(paid) && unpaidTotals == TotalsOf(unpaid)
  {
    paid, unpaid := [], [];
    paidTotals, unpaidTotals := Totals(0, 0, 0), Totals(0, 0, 0);
    var n := 0;
    while n < |statements|
      invariant 0 <= n <= |statements|
      invariant paid == Settled(statements[..n]) && unpaid == Owing(statements[..n])
      invariant paidTotals == TotalsOf(paid) && unpaidTotals == TotalsOf(unpaid)
    {
      var p := statements[n];
      SplitStep(statements, n);
      if p.balance <= 0 {
        TotalsAppend(paid, p);
        paid := paid + [p];
        paidTotals := AddTotals(paidTotals, p);
      } else {
        TotalsAppend(unpaid, p);
        unpaid := unpaid + [p];
        unpaidTotals := AddTotals(unpaidTotals, p);
      }
      n := n + 1;
    }
    assert statements[..|statements|] == statements;
  }

  /**
   * get_monthly_statements after the pipeline: every patient's finished
   * statement in first-appearance order, split into those whose balance is
   * settled and those still owing, with the totals of each list.
   */
  method MonthlyStatements(invoices: seq<RawInvoice>, now: int)
      returns (paid: seq<Summary>, unpaid: seq<Summary>, paidTotals: Totals, unpaidTotals: Totals)
    ensures paid == Settled(Statements(invoices, now)) && unpaid == Owing(Statements(invoices, now))
    ensures paidTotals == TotalsOf(paid) && unpaidTotals == TotalsOf(unpaid)
  {
    var order, patients := AccumulatePatients(invoices, now);
    var statements := FinishStatements(invoices, now, order, patients);
    paid, unpaid, paidTotals, unpaidTotals := SplitStatements(statements);
  }

  // ---------------------------------------------------------------------
  // Properties of the statements
  // ---------------------------------------------------------------------

  /** Each patient with an invoice in the month appears once, in order of their first invoice. */
  lemma {:induction false} FirstAppearancesSpec(invs: seq<RawInvoice>)
    ensures forall pid :: pid in FirstAppearances(invs) <==> exists i :: 0 <= i < |invs| && invs[i].patientId == pid
    ensures forall i, j :: 0 <= i < j < |FirstAppearances(invs)| ==> FirstAppearances(invs)[i] != FirstAppearances(invs)[j]
  {
    if invs != [] {
      var init := invs[..|invs| - 1];
      FirstAppearancesSpec(init);
      forall pid | pid in FirstAppearances(invs) ensures exists i :: 0 <= i < |invs| && invs[i].patientId == pid {
        if pid in FirstAppearances(init) {
          var i :| 0 <= i < |init| && init[i].patientId == pid;
          assert invs[i] == init[i];
        } else {
          assert invs[|invs| - 1].patientId == pid;
        }
      }
      forall pid | exists i :: 0 <= i < |invs| && invs[i].patientId == pid ensures pid in FirstAppearances(invs) {
        var i :| 0 <= i < |invs| && invs[i].patientId == pid;
        if i < |invs| - 1 {
          assert init[i] == invs[i];
        }
      }
    }
  }

  /** A patient has invoices exactly when one of the invoices names them. */
  lemma {:induction false} OfPatientNonEmpty(invs: seq<RawInvoice>, pid: Option<string>)
    ensures OfPatient(invs, pid) != [] <==> exists i :: 0 <= i < |invs| && invs[i].patientId == pid
  {
    if invs != [] {
      var init := invs[..|invs| - 1];
      OfPatientNonEmpty(init, pid);
      if exists i :: 0 <= i < |init| && init[i].patientId == pid {
        var i :| 0 <= i < |init| && init[i].patientId == pid;
        assert invs[i] == init[i];
      }
      if exists i :: 0 <= i < |invs| && invs[i].patientId == pid {
        var i :| 0 <= i < |invs| && invs[i].patientId == pid;
        if i < |invs| - 1 { assert init[i] == invs[i]; }
      }
    }
  }

  /**
   * The finished statement of a patient with invoices in the month: the
   * totals are sums over exactly that patient's invoices, the services are
   * sorted by description, the payments of those invoices are all listed,
   * sorted by date, and the status is paid for a settled balance,
   * otherwise partial after a payment, otherwise unpaid.
   */
  lemma StatementOfPatient(invs: seq<RawInvoice>, pid: Option<string>, now: int, d: string)
    requires exists i :: 0 <= i < |invs| && invs[i].patientId == pid
    ensures var s := StatementOf(invs, pid, now); var mine := OfPatient(invs, pid);
      mine != [] && s.patientId == pid &&
      s.totalInvoiced == SumPortions(mine) && s.paymentsReceived == SumPaid(mine) && s.balance == SumBalances(mine) &&
      Sorting.SortedBy(s.services, DescriptionLe) &&
      ServiceQty(PatientSummary(mine, now).services, d) == QtyOver(mine, d) &&
      multiset(s.services) == multiset(PatientSummary(mine, now).services) &&
      Sorting.SortedBy(s.payments, PaymentDateLe) && multiset(s.payments) == multiset(PaymentsOver(mine)) &&
      (s.status == Paid <==> s.balance <= 0) &&
      (s.status == Partial <==> s.balance > 0 && s.paymentsReceived > 0)
  {
    var mine := OfPatient(invs, pid);
    OfPatientNonEmpty(invs, pid);
    PatientSummarySpec(mine, now, d);
    FinishFacts(PatientSummary(mine, now));
  }

  /** Finishing keeps the totals, sorts the services and sets the status from the balance and payments. */
  lemma FinishFacts(s: Summary)
    ensures var f := Finish(s);
      f.patientId == s.patientId && f.totalInvoiced == s.totalInvoiced &&
      f.paymentsReceived == s.paymentsReceived && f.balance == s.balance &&
      Sorting.SortedBy(f.services, DescriptionLe) && multiset(f.services) == multiset(s.services) &&
      Sorting.SortedBy(f.payments, PaymentDateLe) && multiset(f.payments) == multiset(s.payments) &&
      (f.status == Paid <==> f.balance <= 0) &&
      (f.status == Partial <==> f.balance > 0 && f.paymentsReceived > 0)
  {
    DescriptionPreorder();
    Sorting.SortBySorted(s.services, DescriptionLe);
    PaymentDatePreorder();
    Sorting.SortBySorted(s.payments, PaymentDateLe);
    assert Partial[2] != Paid[2] && Unpaid[0] != Paid[0] && Unpaid[0] != Partial[0];
  }

  /**
   * Every statement is in exactly one of the two lists: the paid list when
   * its balance is settled, the unpaid list otherwise; together the lists
   * are as long as the list of statements, and their totals add up to the
   * totals over all statements.
   */
  lemma {:induction false} SplitIsPartition(ss: seq<Summary>)
    ensures forall s :: s in Settled(ss) <==> s in ss && s.balance <= 0
    ensures forall s :: s in Owing(ss) <==> s in ss && s.balance > 0
    ensures |Settled(ss)| + |Owing(ss)| == |ss|
    ensures Invoiced(Settled(ss)) + Invoiced(Owing(ss)) == Invoiced(ss)
    ensures Received(Settled(ss)) + Received(Owing(ss)) == Received(ss)
    ensures Outstanding(Settled(ss)) + Outstanding(Owing(ss)) == Outstanding(ss)
  {
    SplitMembers(ss);
    SplitTotals(ss);
  }

  lemma {:induction false} SplitMembers(ss: seq<Summary>)
    ensures forall s :: s in Settled(ss) <==> s in ss && s.balance <= 0
    ensures forall s :: s in Owing(ss) <==> s in ss && s.balance > 0
    ensures |Settled(ss)| + |Owing(ss)| == |ss|
  {
    if ss != [] {
      var init, last := ss[..|ss| - 1], ss[|ss| - 1];
      SplitMembers(init);
      forall s ensures s in ss <==> s in init || s == last {
        if s in ss {
          var i :| 0 <= i < |ss| && ss[i] == s;
          if i < |ss| - 1 { assert init[i] == s; }
        }
      }
    }
  }

  lemma {:induction false} SplitTotals(ss: seq<Summary>)
    ensures Invoiced(Settled(ss)) + Invoiced(Owing(ss)) == Invoiced(ss)
    ensures Received(Settled(ss)) + Received(Owing(ss)) == Received(ss)
    ensures Outstanding(Settled(ss)) + Outstanding(Owing(ss)) == Outstanding(ss)
  {
    if ss != [] {
      var init, last := ss[..|ss| - 1], ss[|ss| - 1];
      SplitTotals(init);
      if last.balance <= 0 {
        TotalsAppend(Settled(init), last);
      } else {
        TotalsAppend(Owing(init), last);
      }
    }
  }
}
