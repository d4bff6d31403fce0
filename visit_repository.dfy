/**
 * The visit repository of the second backend: the patient-visit filter
 * built from optional dates and status, the staff and active-visit
 * finders, the check-in / start / complete transitions (none checks the
 * status before), the invoice command issued when a completed visit was
 * found, procedure fees, and the billed flags. `visit_date` is a date,
 * stored as its midnight stamp; fees are integer cents.
 */
module VisitRepo {
  import opened Wrappers
  import opened Documents
  import BaseRepo

  const VisitId: string := "visit_id"
  const PatientId: string := "patient_id"
  const StaffId: string := "staff_id"
  const VisitDate: string := "visit_date"
  const Status: string := "status"
  const CheckInTime: string := "check_in_time"
  const Vitals: string := "vitals"
  const StartTime: string := "start_time"
  const EndTime: string := "end_time"
  const AssessmentPlan: string := "assessment_plan"
  const FollowUpRequired: string := "follow_up_required"
  const IsBilled: string := "is_billed"
  const BilledAt: string := "billed_at"
  const InvoiceId: string := "invoice_id"
  const ProcedureId: string := "procedure_id"
  const PerformedBy: string := "performed_by"
  const PerformedAt: string := "performed_at"
  const Quantity: string := "quantity"
  const Fee: string := "fee"
  const FinalFee: string := "final_fee"
  const Notes: string := "notes"

  datatype VisitStatus = CheckedIn | InProgress | AwaitingLab | AwaitingPrescription | AwaitingProcedure
                       | Completed | Cancelled | NoShow

  const CheckedInText: string := "checked_in"
  const InProgressText: string := "in_progress"
  const AwaitingLabText: string := "awaiting_lab"
  const AwaitingPrescriptionText: string := "awaiting_prescription"
  const AwaitingProcedureText: string := "awaiting_procedure"
  const CompletedText: string := "completed"
  const CancelledText: string := "cancelled"
  const NoShowText: string := "no_show"

  function StatusText(s: VisitStatus): string
  {
    match s
    case CheckedIn => CheckedInText
    case InProgress => InProgressText
    case AwaitingLab => AwaitingLabText
    case AwaitingPrescription => AwaitingPrescriptionText
    case AwaitingProcedure => AwaitingProcedureText
    case Completed => CompletedText
    case Cancelled => CancelledText
    case NoShow => NoShowText
  }

  function ParseStatus(t: string): (r: Option<VisitStatus>)
    ensures r.Some? ==> StatusText(r.value) == t
  {
    if t == CheckedInText then Some(CheckedIn)
    else if t == InProgressText then Some(InProgress)
    else if t == AwaitingLabText then Some(AwaitingLab)
    else if t == AwaitingPrescriptionText then Some(AwaitingPrescription)
    else if t == AwaitingProcedureText then Some(AwaitingProcedure)
    else if t == CompletedText then Some(Completed)
    else if t == CancelledText then Some(Cancelled)
    else if t == NoShowText then Some(NoShow)
    else None
  }

  lemma ParseStatusText(s: VisitStatus)
    ensures ParseStatus(StatusText(s)) == Some(s)
  {
  }

  /** create_visit: create with an automatic `visit_id`. */
  method CreateVisit(visits: BaseRepo.Repository, data: Doc, now: int) returns (created: Doc)
    modifies visits
    ensures BaseRepo.CreatedAs(old(visits.counters), visits.counters, visits.name, data, Some(VisitId), created, now)
    ensures visits.docs == old(visits.docs) + [created]
  {
    created := visits.Create(data, Some(VisitId), now);
  }

  // ---------------------------------------------------------------------
  // find_patient_visits
  // ---------------------------------------------------------------------

  /** The `visit_date` sub-filter: `$gte` and `$lte` bounds, as days. */
  datatype DateRange = DateRange(gte: Option<int>, lte: Option<int>)

  /** The `filter_dict` of find_patient_visits. */
  datatype VisitQuery = VisitQuery(patientId: string, visitDate: Option<DateRange>, status: Option<string>)

  /** A date comparison matches only a stored date. */
  predicate RangeMatches(r: DateRange, v: Value)
  {
    (r.gte.Some? ==> v.Stamp? && v.t >= BaseRepo.DayStamp(r.gte.value).t) &&
    (r.lte.Some? ==> v.Stamp? && v.t <= BaseRepo.DayStamp(r.lte.value).t)
  }

  /** What the database matches for a query. */
  predicate QueryMatches(q: VisitQuery, d: Doc)
  {
    Get(d, PatientId) == Str(q.patientId) &&
    (q.visitDate.Some? ==> RangeMatches(q.visitDate.value, Get(d, VisitDate))) &&
    (q.status.Some? ==> Get(d, Status) == Str(q.status.value))
  }

  function QueryFilter(q: VisitQuery): Doc -> bool
  {
    d => QueryMatches(q, d)
  }

  /** The intended meaning: the patient, on or after a given start, on or before a given end, with a given status. */
  predicate PatientVisitSpec(patientId: string, fromDate: Option<int>, toDate: Option<int>, status: Option<VisitStatus>,
                             d: Doc)
  {
    Get(d, PatientId) == Str(patientId) &&
    (fromDate.Some? ==> Get(d, VisitDate).Stamp? && Get(d, VisitDate).t >= BaseRepo.DayStamp(fromDate.value).t) &&
    (toDate.Some? ==> Get(d, VisitDate).Stamp? && Get(d, VisitDate).t <= BaseRepo.DayStamp(toDate.value).t) &&
    (status.Some? ==> Get(d, Status) == Str(StatusText(status.value)))
  }

  /**
   * The filter of find_patient_visits, built step by step: `$gte` for a
   * start date, `$lte` added to the same sub-filter (or a new one) for an
   * end date, then the status.
   */
  method PatientVisitFilter(patientId: string, fromDate: Option<int>, toDate: Option<int>, status: Option<VisitStatus>)
      returns (q: VisitQuery)
    ensures q.patientId == patientId
    ensures q.visitDate.Some? <==> fromDate.Some? || toDate.Some?
    ensures forall d :: QueryMatches(q, d) <==> PatientVisitSpec(patientId, fromDate, toDate, status, d)
  {
    q := VisitQuery(patientId, None, None);
    if fromDate.Some? {
      q := q.(visitDate := Some(DateRange(fromDate, None)));
    }
    if toDate.Some? {
      if q.visitDate.Some? {
        q := q.(visitDate := Some(q.visitDate.value.(lte := toDate)));
      } else {
        q := q.(visitDate := Some(DateRange(None, toDate)));
      }
    }
    if status.Some? {
      q := q.(status := Some(StatusText(status.value)));
    }
  }

  /** For a visit dated `day`, both bounds together select exactly the days from the start to the end. */
  lemma DateRangeMeaning(patientId: string, fromDay: int, toDay: int, d: Doc, day: int)
    requires Get(d, VisitDate) == BaseRepo.DayStamp(day)
    ensures PatientVisitSpec(patientId, Some(fromDay), Some(toDay), None, d) <==>
      Get(d, PatientId) == Str(patientId) && fromDay <= day <= toDay
  {
    BaseRepo.DayStampOrder(fromDay, day);
    BaseRepo.DayStampOrder(day, toDay);
  }

  /** `.sort([("visit_date", -1)])`: newest first. */
  function NewestFirst(): (Doc, Doc) -> bool
  {
    DescendingKeys([VisitDate])
  }

  /** find_patient_visits: the first page of the query's matches, newest first. */
  function FindPatientVisits(docs: seq<Doc>, q: VisitQuery): (r: seq<Doc>)
    ensures |r| <= BaseRepo.DefaultLimit
    ensures forall i :: 0 <= i < |r| ==> r[i] in docs && QueryMatches(q, r[i])
    ensures BaseRepo.SortedPage(r, docs, QueryFilter(q), BaseRepo.DefaultLimit, NewestFirst())
  {
    DescendingKeysPreorder([VisitDate]);
    BaseRepo.FindManySortedSpec(docs, QueryFilter(q), BaseRepo.DefaultLimit, NewestFirst());
    BaseRepo.FindMany(docs, QueryFilter(q), 0, BaseRepo.DefaultLimit, Some(NewestFirst()))
  }

  // ---------------------------------------------------------------------
  // Staff and active visits
  // ---------------------------------------------------------------------

  /** The filter of find_staff_visits: the staff member's visits that day whose status is not CANCELLED. */
  function StaffVisitFilter(staffId: string, day: int): Doc -> bool
  {
    d => Get(d, StaffId) == Str(staffId) && Get(d, VisitDate) == BaseRepo.DayStamp(day) &&
         Get(d, Status) != Str(CancelledText)
  }

  /** find_staff_visits: the first page, ordered by check-in time. */
  function FindStaffVisits(docs: seq<Doc>, staffId: string, day: int): (r: seq<Doc>)
    ensures |r| <= BaseRepo.DefaultLimit
    ensures forall i :: 0 <= i < |r| ==>
      r[i] in docs && Get(r[i], StaffId) == Str(staffId) && Get(r[i], VisitDate) == BaseRepo.DayStamp(day) &&
      Get(r[i], Status) != Str(CancelledText)
    ensures BaseRepo.SortedPage(r, docs, StaffVisitFilter(staffId, day), BaseRepo.DefaultLimit, SortKeys([CheckInTime]))
  {
    SortKeysPreorder([CheckInTime]);
    BaseRepo.FindManySortedSpec(docs, StaffVisitFilter(staffId, day), BaseRepo.DefaultLimit, SortKeys([CheckInTime]));
    BaseRepo.FindMany(docs, StaffVisitFilter(staffId, day), 0, BaseRepo.DefaultLimit, Some(SortKeys([CheckInTime])))
  }

  /** The filter of find_active_visits: status `$in` the four ongoing statuses. */
  predicate ActiveFilter(d: Doc)
  {
    Get(d, Status) in [Str(CheckedInText), Str(InProgressText), Str(AwaitingLabText), Str(AwaitingPrescriptionText)]
  }

  predicate IsActive(s: VisitStatus)
  {
    s == CheckedIn || s == InProgress || s == AwaitingLab || s == AwaitingPrescription
  }

  /** A stored visit is active exactly when its status names an active status. */
  lemma ActiveMeaning(d: Doc)
    ensures ActiveFilter(d) <==>
      Get(d, Status).Str? && ParseStatus(Get(d, Status).s).Some? && IsActive(ParseStatus(Get(d, Status).s).value)
  {
  }

  /** find_active_visits: the first page of active visits, in store order. */
  function FindActiveVisits(docs: seq<Doc>): (r: seq<Doc>)
    ensures |r| <= BaseRepo.DefaultLimit
    ensures forall i :: 0 <= i < |r| ==> r[i] in docs && ActiveFilter(r[i])
  {
    BaseRepo.FindMany(docs, ActiveFilter, 0, BaseRepo.DefaultLimit, None)
  }

  // ---------------------------------------------------------------------
  // Transitions
  // ---------------------------------------------------------------------

  function CheckInUpdate(vitals: Value, now: int): Doc
  {
    map[CheckInTime := Stamp(now), Status := Str(CheckedInText), Vitals := vitals]
  }

  function StartUpdate(staffId: string, now: int): Doc
  {
    map[StartTime := Stamp(now), Status := Str(InProgressText), StaffId := Str(staffId)]
  }

  function CompleteUpdate(assessmentPlan: string, followUpRequired: bool, now: int): Doc
  {
    map[EndTime := Stamp(now), Status := Str(CompletedText), AssessmentPlan := Str(assessmentPlan),
        FollowUpRequired := Bool(followUpRequired)]
  }

  /** check_in_patient: CHECKED_IN with the vitals, whatever the visit's status was. */
  method CheckInPatient(visits: BaseRepo.Repository, visitId: string, vitals: Value, now: int) returns (r: Option<Doc>)
    modifies visits`docs
    ensures BaseRepo.UpdatedById(old(visits.docs), visits.docs, Str(visitId), VisitId, CheckInUpdate(vitals, now), now, r)
  {
    r := visits.UpdateById(Str(visitId), VisitId, CheckInUpdate(vitals, now), now);
  }

  /** start_visit: IN_PROGRESS with the practitioner, whatever the visit's status was. */
  method StartVisit(visits: BaseRepo.Repository, visitId: string, staffId: string, now: int) returns (r: Option<Doc>)
    modifies visits`docs
    ensures BaseRepo.UpdatedById(old(visits.docs), visits.docs, Str(visitId), VisitId, StartUpdate(staffId, now), now, r)
  {
    r := visits.UpdateById(Str(visitId), VisitId, StartUpdate(staffId, now), now);
  }

  /**
   * complete_visit: COMPLETED with the end time; the invoice-generation
   * command is issued exactly when the update found the visit.
   */
  method CompleteVisit(visits: BaseRepo.Repository, visitId: string, assessmentPlan: string, followUpRequired: bool,
                       now: int) returns (r: Option<Doc>, invoiceCommand: Option<string>)
    modifies visits`docs
    ensures BaseRepo.UpdatedById(old(visits.docs), visits.docs, Str(visitId), VisitId,
      CompleteUpdate(assessmentPlan, followUpRequired, now), now, r)
    ensures invoiceCommand.Some? <==> r.Some?
    ensures invoiceCommand.Some? ==> invoiceCommand.value == visitId
  {
    r := visits.UpdateById(Str(visitId), VisitId, CompleteUpdate(assessmentPlan, followUpRequired, now), now);
    if r.Some? {
      invoiceCommand := Some(visitId);
    } else {
      invoiceCommand := None;
    }
  }

  /** Check-in sets CHECKED_IN, the time and the vitals from any prior state; the visit is then active. */
  lemma CheckInEffect(d: Doc, vitals: Value, now: int)
    ensures var e := BaseRepo.ApplySet(d, CheckInUpdate(vitals, now), now);
      Get(e, Status) == Str(StatusText(CheckedIn)) && Get(e, CheckInTime) == Stamp(now) && Get(e, Vitals) == vitals &&
      ActiveFilter(e)
  {
    var u := CheckInUpdate(vitals, now);
    assert Status in u && CheckInTime in u && Vitals in u;
    assert Status != BaseRepo.UpdatedAt && CheckInTime != BaseRepo.UpdatedAt && Vitals != BaseRepo.UpdatedAt;
  }

  /** Starting sets IN_PROGRESS, the time and the practitioner from any prior state; the visit is then active. */
  lemma StartEffect(d: Doc, staffId: string, now: int)
    ensures var e := BaseRepo.ApplySet(d, StartUpdate(staffId, now), now);
      Get(e, Status) == Str(StatusText(InProgress)) && Get(e, StartTime) == Stamp(now) &&
      Get(e, StaffId) == Str(staffId) && ActiveFilter(e)
  {
    var u := StartUpdate(staffId, now);
    assert Status in u && StartTime in u && StaffId in u;
    assert Status != BaseRepo.UpdatedAt && StartTime != BaseRepo.UpdatedAt && StaffId != BaseRepo.UpdatedAt;
  }

  /** Completing sets COMPLETED and the end time from any prior state; the visit is then no longer active. */
  lemma CompleteEffect(d: Doc, assessmentPlan: string, followUpRequired: bool, now: int)
    ensures var e := BaseRepo.ApplySet(d, CompleteUpdate(assessmentPlan, followUpRequired, now), now);
      Get(e, Status) == Str(StatusText(Completed)) && Get(e, EndTime) == Stamp(now) && !ActiveFilter(e)
  {
    var u := CompleteUpdate(assessmentPlan, followUpRequired, now);
    assert Status in u && EndTime in u;
    assert Status != BaseRepo.UpdatedAt && EndTime != BaseRepo.UpdatedAt;
  }

  // ---------------------------------------------------------------------
  // Procedures and billing
  // ---------------------------------------------------------------------

  /** The record add_procedure_to_visit inserts; `final_fee` is the fee times the quantity. */
  function ProcedureRecord(visitId: string, procedureId: string, performedBy: string, feeCents: int, quantity: int,
                           notes: Option<string>, now: int): (r: Doc)
    ensures Fee in r && Quantity in r && FinalFee in r
    ensures r[Fee] == Int(feeCents) && r[Quantity] == Int(quantity)
    ensures r[FinalFee] == Int(feeCents * quantity)
  {
    map[VisitId := Str(visitId), ProcedureId := Str(procedureId), PerformedBy := Str(performedBy),
        PerformedAt := Stamp(now), Quantity := Int(quantity), Fee := Int(feeCents), FinalFee := Int(feeCents * quantity),
        Notes := if notes.Some? then Str(notes.value) else Null]
  }

  /** A procedure performed once costs its fee, and one performed more often costs at least that for a non-negative fee. */
  lemma FinalFeeBounds(visitId: string, procedureId: string, performedBy: string, feeCents: int, quantity: int,
                       notes: Option<string>, now: int)
    ensures quantity == 1 ==>
      ProcedureRecord(visitId, procedureId, performedBy, feeCents, quantity, notes, now)[FinalFee] == Int(feeCents)
    ensures feeCents >= 0 && quantity >= 1 ==>
      ProcedureRecord(visitId, procedureId, performedBy, feeCents, quantity, notes, now)[FinalFee].i >= feeCents
  {
    if feeCents >= 0 && quantity >= 1 {
      assert feeCents * quantity == feeCents + feeCents * (quantity - 1);
    }
  }

  /** add_procedure_to_visit: inserts the record; the insert always reports an ID. */
  method AddProcedureToVisit(procedures: Collection, visitId: string, procedureId: string, performedBy: string,
                             feeCents: int, quantity: int, notes: Option<string>, now: int) returns (added: bool)
    modifies procedures
    ensures added
    ensures procedures.docs ==
      old(procedures.docs) + [ProcedureRecord(visitId, procedureId, performedBy, feeCents, quantity, notes, now)]
  {
    procedures.InsertOne(ProcedureRecord(visitId, procedureId, performedBy, feeCents, quantity, notes, now));
    added := true;
  }

  /** The filter of find_unbilled_visits: COMPLETED and `is_billed` stored as false. */
  predicate UnbilledFilter(d: Doc)
  {
    Get(d, Status) == Str(CompletedText) && Get(d, IsBilled) == Bool(false)
  }

  /** find_unbilled_visits. */
  function FindUnbilledVisits(docs: seq<Doc>): (r: seq<Doc>)
    ensures |r| <= BaseRepo.DefaultLimit
    ensures forall i :: 0 <= i < |r| ==> r[i] in docs && UnbilledFilter(r[i])
  {
    BaseRepo.FindMany(docs, UnbilledFilter, 0, BaseRepo.DefaultLimit, None)
  }

  function BilledUpdate(invoiceId: string, now: int): Doc
  {
    map[IsBilled := Bool(true), BilledAt := Stamp(now), InvoiceId := Str(invoiceId)]
  }

  /** mark_visit_billed. */
  method MarkVisitBilled(visits: BaseRepo.Repository, visitId: string, invoiceId: string, now: int)
      returns (r: Option<Doc>)
    modifies visits`docs
    ensures BaseRepo.UpdatedById(old(visits.docs), visits.docs, Str(visitId), VisitId, BilledUpdate(invoiceId, now), now, r)
  {
    r := visits.UpdateById(Str(visitId), VisitId, BilledUpdate(invoiceId, now), now);
  }

  /**
   * The billing cycle: completing a visit stored as not billed makes it
   * unbilled, and marking it billed records the invoice and takes it off
   * the unbilled list, keeping its status.
   */
  lemma BillingCycle(d: Doc, assessmentPlan: string, followUpRequired: bool, invoiceId: string, now: int)
    requires Get(d, IsBilled) == Bool(false)
    ensures UnbilledFilter(BaseRepo.ApplySet(d, CompleteUpdate(assessmentPlan, followUpRequired, now), now))
    ensures var e := BaseRepo.ApplySet(d, BilledUpdate(invoiceId, now), now);
      !UnbilledFilter(e) && Get(e, InvoiceId) == Str(invoiceId) && Get(e, Status) == Get(d, Status)
  {
    var u := CompleteUpdate(assessmentPlan, followUpRequired, now);
    assert Status in u && IsBilled !in u && Status != BaseRepo.UpdatedAt && IsBilled != BaseRepo.UpdatedAt;
    var b := BilledUpdate(invoiceId, now);
    assert IsBilled in b && InvoiceId in b && Status !in b && InvoiceId != BaseRepo.UpdatedAt;
    assert Status != BaseRepo.UpdatedAt;
  }
}
