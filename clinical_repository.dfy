/**
 * The lab-order and recovery-room repositories of the second backend:
 * lab order numbers counted per year, the pending filter and its sort,
 * the three lab transitions (specimen collected, result entered with a
 * follow-up flag for critical values, result reviewed), admission to and
 * discharge from recovery, the active-stay filter, and observations
 * numbered per stay, a critical one marking the stay DETERIORATING.
 * Date-times are minutes; `now` and the year are parameters.
 */
module ClinicalRepo {
  import opened Wrappers
  import opened Text
  import opened Documents
  import Calendar
  import Sorting
  import BaseRepo
  import Recovery

  const Status: string := "status"

  // ---------------------------------------------------------------------
  // Lab test orders
  // ---------------------------------------------------------------------

  const LabTestId: string := "lab_test_id"
  const OrderNumber: string := "order_number"
  const OrderedAt: string := "ordered_at"
  const Priority: string := "priority"
  const SpecimenTypeField: string := "specimen_type"
  const SpecimenId: string := "specimen_id"
  const SpecimenCollectedBy: string := "specimen_collected_by"
  const SpecimenCollectedAt: string := "specimen_collected_at"
  const CollectionNotes: string := "collection_notes"
  const ResultField: string := "result"
  const ResultDate: string := "result_date"
  const ResultStatus: string := "result_status"
  const PerformedBy: string := "performed_by"
  const PerformedAt: string := "performed_at"
  const CriticalValues: string := "critical_values"
  const RequiresFollowUp: string := "requires_follow_up"
  const ReviewedBy: string := "reviewed_by"
  const ReviewedAt: string := "reviewed_at"
  const Interpretation: string := "interpretation"

  const LabPrefix: string := "LAB"

  datatype TestStatus = Ordered | Scheduled | SpecimenCollected | InProgress | Completed | Cancelled | Failed | PendingReview

  const OrderedText: string := "ordered"
  const ScheduledText: string := "scheduled"
  const SpecimenCollectedText: string := "specimen_collected"
  const InProgressText: string := "in_progress"
  const CompletedText: string := "completed"
  const CancelledText: string := "cancelled"
  const FailedText: string := "failed"
  const PendingReviewText: string := "pending_review"

  /** The stored text of a lab test status. */
  function TestStatusText(s: TestStatus): string
  {
    match s
    case Ordered => OrderedText
    case Scheduled => ScheduledText
    case SpecimenCollected => SpecimenCollectedText
    case InProgress => InProgressText
    case Completed => CompletedText
    case Cancelled => CancelledText
    case Failed => FailedText
    case PendingReview => PendingReviewText
  }

  function ParseTestStatus(t: string): (r: Option<TestStatus>)
    ensures r.Some? ==> TestStatusText(r.value) == t
  {
    if t == OrderedText then Some(Ordered)
    else if t == ScheduledText then Some(Scheduled)
    else if t == SpecimenCollectedText then Some(SpecimenCollected)
    else if t == InProgressText then Some(InProgress)
    else if t == CompletedText then Some(Completed)
    else if t == CancelledText then Some(Cancelled)
    else if t == FailedText then Some(Failed)
    else if t == PendingReviewText then Some(PendingReview)
    else None
  }

  lemma ParseTestStatusText(s: TestStatus)
    ensures ParseTestStatus(TestStatusText(s)) == Some(s)
  {
  }

  /** The statuses find_pending_lab_tests lists: the test is not yet done. */
  predicate IsPending(s: TestStatus)
  {
    s == Ordered || s == Scheduled || s == SpecimenCollected || s == InProgress
  }

  /** The count's filter `{"ordered_at": {"$gte": datetime(year, 1, 1)}}`. */
  function OrderedFrom(year: int): Doc -> bool
  {
    d => Get(d, OrderedAt).Stamp? && Get(d, OrderedAt).t >= Calendar.Midnight(Calendar.Date(year, 1, 1))
  }

  /** The order create_lab_order hands to create: the data with its order number. */
  function NewLabOrder(data: Doc, year: nat, count: nat): (r: Doc)
    ensures r.Keys == data.Keys + {OrderNumber}
    ensures r[OrderNumber] == Str(BaseRepo.SerialNumber(LabPrefix, year, count))
    ensures forall k :: k in data && k != OrderNumber ==> r[k] == data[k]
  {
    data[OrderNumber := Str(BaseRepo.SerialNumber(LabPrefix, year, count))]
  }

  /** create_lab_order: this year's count numbers the order, then create gives it a `lab_test_id`. */
  method CreateLabOrder(labs: BaseRepo.Repository, data: Doc, year: nat, now: int) returns (created: Doc)
    modifies labs
    ensures BaseRepo.CreatedAs(old(labs.counters), labs.counters, labs.name,
      NewLabOrder(data, year, BaseRepo.Count(old(labs.docs), OrderedFrom(year))), Some(LabTestId), created, now)
    ensures labs.docs == old(labs.docs) + [created]
  {
    var count := BaseRepo.Count(labs.docs, OrderedFrom(year));
    created := labs.Create(NewLabOrder(data, year, count), Some(LabTestId), now);
  }

  /**
   * An order placed this year adds one to the year's count, so the next
   * order of the year is numbered one higher and gets a different number.
   */
  lemma LabCountAdvances(docs: seq<Doc>, d: Doc, year: nat)
    requires OrderedFrom(year)(d)
    ensures BaseRepo.Count(docs + [d], OrderedFrom(year)) == BaseRepo.Count(docs, OrderedFrom(year)) + 1
    ensures BaseRepo.SerialNumber(LabPrefix, year, BaseRepo.Count(docs + [d], OrderedFrom(year))) !=
            BaseRepo.SerialNumber(LabPrefix, year, BaseRepo.Count(docs, OrderedFrom(year)))
  {
    Sorting.FilterAppend(docs, d, OrderedFrom(year));
    var a := BaseRepo.Count(docs, OrderedFrom(year));
    if BaseRepo.SerialNumber(LabPrefix, year, a + 1) == BaseRepo.SerialNumber(LabPrefix, year, a) {
      BaseRepo.SerialNumberInjective(LabPrefix, year, a + 1, a);
    }
  }

  /** The filter of find_pending_lab_tests: status `$in` the four not-yet-done statuses. */
  predicate PendingFilter(d: Doc)
  {
    Get(d, Status) in [Str(OrderedText), Str(ScheduledText), Str(SpecimenCollectedText), Str(InProgressText)]
  }

  /** A stored test is pending exactly when its status names a pending status. */
  lemma PendingMeaning(d: Doc)
    ensures PendingFilter(d) <==>
      Get(d, Status).Str? && ParseTestStatus(Get(d, Status).s).Some? && IsPending(ParseTestStatus(Get(d, Status).s).value)
  {
  }

  /** A test whose status is the text of a status is pending exactly when that status is. */
  lemma PendingByStatus(d: Doc, t: TestStatus)
    requires Get(d, Status) == Str(TestStatusText(t))
    ensures PendingFilter(d) <==> IsPending(t)
  {
    PendingMeaning(d);
    ParseTestStatusText(t);
  }

  /** `.sort([("priority", -1), ("ordered_at", 1)])`: priority descending, then oldest first. */
  predicate PendingLe(a: Doc, b: Doc)
  {
    if ValueLe(Get(a, Priority), Get(b, Priority)) && ValueLe(Get(b, Priority), Get(a, Priority))
    then ValueLe(Get(a, OrderedAt), Get(b, OrderedAt))
    else ValueLe(Get(b, Priority), Get(a, Priority))
  }

  function PendingOrder(): (Doc, Doc) -> bool
  {
    (a: Doc, b: Doc) => PendingLe(a, b)
  }

  /** Priority descending, then ordered_at ascending, is a valid sort order. */
  lemma PendingOrderPreorder()
    ensures Sorting.TotalPreorder(PendingOrder())
  {
    forall a: Doc, b: Doc ensures PendingLe(a, b) || PendingLe(b, a) {
      ValueLeTotal(Get(a, Priority), Get(b, Priority));
      ValueLeTotal(Get(a, OrderedAt), Get(b, OrderedAt));
    }
    forall a: Doc, b: Doc, c: Doc | PendingLe(a, b) && PendingLe(b, c) ensures PendingLe(a, c) {
      PendingLeTrans(a, b, c);
    }
  }

  lemma PendingLeTrans(a: Doc, b: Doc, c: Doc)
    requires PendingLe(a, b) && PendingLe(b, c)
    ensures PendingLe(a, c)
  {
    var x, y, z := Get(a, Priority), Get(b, Priority), Get(c, Priority);
    ValueLeTotal(x, y);
    ValueLeTotal(y, z);
    ValueLeTotal(x, z);
    if ValueLe(y, x) && ValueLe(z, y) { ValueLeTrans(z, y, x); }
    if ValueLe(x, y) && ValueLe(y, z) { ValueLeTrans(x, y, z); }
    if ValueLe(y, x) && ValueLe(x, z) { ValueLeTrans(y, x, z); }
    if ValueLe(z, x) && ValueLe(x, y) { ValueLeTrans(z, x, y); }
    if ValueLe(x, z) && ValueLe(z, y) { ValueLeTrans(x, z, y); }
    if ValueLe(y, z) && ValueLe(z, x) { ValueLeTrans(y, z, x); }
    var p, q, t := Get(a, OrderedAt), Get(b, OrderedAt), Get(c, OrderedAt);
    if ValueLe(p, q) && ValueLe(q, t) { ValueLeTrans(p, q, t); }
  }

  /** find_pending_lab_tests: the first page of pending tests, in the sort order above. */
  function FindPendingLabTests(docs: seq<Doc>): (r: seq<Doc>)
    ensures |r| <= BaseRepo.DefaultLimit
    ensures forall i :: 0 <= i < |r| ==> r[i] in docs && PendingFilter(r[i])
    ensures BaseRepo.SortedPage(r, docs, PendingFilter, BaseRepo.DefaultLimit, PendingOrder())
  {
    PendingOrderPreorder();
    BaseRepo.FindManySortedSpec(docs, PendingFilter, BaseRepo.DefaultLimit, PendingOrder());
    BaseRepo.FindMany(docs, PendingFilter, 0, BaseRepo.DefaultLimit, Some(PendingOrder()))
  }

  const Routine: string := "routine"
  const Urgent: string := "urgent"
  const Stat: string := "stat"

  /**
   * Priorities are sorted as text, descending: "urgent" > "stat" >
   * "routine", so an URGENT test is listed before a STAT one.
   */
  lemma PendingOrderPutsUrgentBeforeStat(a: Doc, b: Doc)
    requires Get(a, Priority) == Str(Urgent) && Get(b, Priority) == Str(Stat)
    ensures PendingLe(a, b) && !PendingLe(b, a)
  {
    assert Urgent[0] == 'u' && Stat[0] == 's';
  }

  /** The `$set` of collect_specimen; absent notes are written as null. */
  function CollectUpdate(specimenType: string, specimenId: string, collectedBy: string, notes: Option<string>,
                         now: int): (u: Doc)
    ensures u.Keys == {Status, SpecimenTypeField, SpecimenId, SpecimenCollectedBy, SpecimenCollectedAt, CollectionNotes}
    ensures u[Status] == Str(TestStatusText(SpecimenCollected)) && u[SpecimenCollectedAt] == Stamp(now)
    ensures notes.None? ==> u[CollectionNotes] == Null
  {
    map[Status := Str(SpecimenCollectedText), SpecimenTypeField := Str(specimenType), SpecimenId := Str(specimenId),
        SpecimenCollectedBy := Str(collectedBy), SpecimenCollectedAt := Stamp(now),
        CollectionNotes := if notes.Some? then Str(notes.value) else Null]
  }

  /** collect_specimen. */
  method CollectSpecimen(labs: BaseRepo.Repository, labTestId: string, specimenType: string, specimenId: string,
                         collectedBy: string, notes: Option<string>, now: int) returns (r: Option<Doc>)
    modifies labs`docs
    ensures BaseRepo.UpdatedById(old(labs.docs), labs.docs, Str(labTestId), LabTestId,
      CollectUpdate(specimenType, specimenId, collectedBy, notes, now), now, r)
  {
    r := labs.UpdateById(Str(labTestId), LabTestId, CollectUpdate(specimenType, specimenId, collectedBy, notes, now), now);
  }

  /** After collection the test is SPECIMEN_COLLECTED, still pending, and the notes are overwritten. */
  lemma CollectEffect(d: Doc, specimenType: string, specimenId: string, collectedBy: string, notes: Option<string>,
                      now: int)
    ensures var e := BaseRepo.ApplySet(d, CollectUpdate(specimenType, specimenId, collectedBy, notes, now), now);
      Get(e, Status) == Str(TestStatusText(SpecimenCollected)) && PendingFilter(e) &&
      Get(e, SpecimenCollectedAt) == Stamp(now) &&
      Get(e, CollectionNotes) == (if notes.Some? then Str(notes.value) else Null)
  {
    var u := CollectUpdate(specimenType, specimenId, collectedBy, notes, now);
    assert Status in u && Status != BaseRepo.UpdatedAt;
    assert SpecimenCollectedAt in u && SpecimenCollectedAt != BaseRepo.UpdatedAt;
    assert CollectionNotes in u && CollectionNotes != BaseRepo.UpdatedAt;
  }

  /** `if critical_values:` — given and non-empty. */
  predicate HasCriticalValues(criticalValues: Option<seq<string>>)
  {
    criticalValues.Some? && criticalValues.value != []
  }

  function StrArray(items: seq<string>): (r: Value)
    ensures r.Arr? && |r.items| == |items|
    ensures forall i :: 0 <= i < |items| ==> r.items[i] == Str(items[i])
  {
    Arr(seq(|items|, i requires 0 <= i < |items| => Str(items[i])))
  }

  /** The fields enter_result always writes. */
  const ResultKeys: set<string> := {Status, ResultField, ResultDate, ResultStatus, PerformedBy, PerformedAt}

  /** The `$set` of enter_result: COMPLETED, and with critical values the values and the follow-up flag. */
  function ResultUpdate(result: Value, resultStatus: string, performedBy: string, criticalValues: Option<seq<string>>,
                        now: int): (u: Doc)
    ensures u.Keys == ResultKeys + (if HasCriticalValues(criticalValues) then {CriticalValues, RequiresFollowUp} else {})
    ensures u[Status] == Str(TestStatusText(Completed)) && u[ResultField] == result
    ensures HasCriticalValues(criticalValues) ==>
      u[RequiresFollowUp] == Bool(true) && u[CriticalValues] == StrArray(criticalValues.value)
    ensures !HasCriticalValues(criticalValues) ==> RequiresFollowUp !in u && CriticalValues !in u
  {
    var update := map[Status := Str(CompletedText), ResultField := result, ResultDate := Stamp(now),
                      ResultStatus := Str(resultStatus), PerformedBy := Str(performedBy), PerformedAt := Stamp(now)];
    if HasCriticalValues(criticalValues)
    then update[CriticalValues := StrArray(criticalValues.value)][RequiresFollowUp := Bool(true)]
    else update
  }

  /** enter_result. */
  method EnterResult(labs: BaseRepo.Repository, labTestId: string, result: Value, resultStatus: string,
                     performedBy: string, criticalValues: Option<seq<string>>, now: int) returns (r: Option<Doc>)
    modifies labs`docs
    ensures BaseRepo.UpdatedById(old(labs.docs), labs.docs, Str(labTestId), LabTestId,
      ResultUpdate(result, resultStatus, performedBy, criticalValues, now), now, r)
  {
    r := labs.UpdateById(Str(labTestId), LabTestId, ResultUpdate(result, resultStatus, performedBy, criticalValues, now), now);
  }

  /**
   * After a result the test is COMPLETED and no longer pending; critical
   * values are stored and flag a follow-up, while without them the stored
   * values and flag are left as they were.
   */
  lemma ResultEffect(d: Doc, result: Value, resultStatus: string, performedBy: string,
                     criticalValues: Option<seq<string>>, now: int)
    ensures var e := BaseRepo.ApplySet(d, ResultUpdate(result, resultStatus, performedBy, criticalValues, now), now);
      Get(e, Status) == Str(TestStatusText(Completed)) && !PendingFilter(e) && Get(e, ResultField) == result
    ensures var e := BaseRepo.ApplySet(d, ResultUpdate(result, resultStatus, performedBy, criticalValues, now), now);
      HasCriticalValues(criticalValues) ==>
        Get(e, RequiresFollowUp) == Bool(true) && Get(e, CriticalValues) == StrArray(criticalValues.value)
    ensures var e := BaseRepo.ApplySet(d, ResultUpdate(result, resultStatus, performedBy, criticalValues, now), now);
      !HasCriticalValues(criticalValues) ==>
        Get(e, RequiresFollowUp) == Get(d, RequiresFollowUp) && Get(e, CriticalValues) == Get(d, CriticalValues)
  {
    var u := ResultUpdate(result, resultStatus, performedBy, criticalValues, now);
    SetWrites(d, u, now, Status);
    SetWrites(d, u, now, ResultField);
    PendingByStatus(BaseRepo.ApplySet(d, u, now), Completed);
    if HasCriticalValues(criticalValues) {
      SetWrites(d, u, now, RequiresFollowUp);
      SetWrites(d, u, now, CriticalValues);
    } else {
      SetKeeps(d, u, now, RequiresFollowUp);
      SetKeeps(d, u, now, CriticalValues);
    }
  }

  /** A field the `$set` names reads back as written. */
  lemma SetWrites(d: Doc, u: Doc, now: int, k: string)
    requires k in u && k != BaseRepo.UpdatedAt
    ensures Get(BaseRepo.ApplySet(d, u, now), k) == u[k]
  {
  }

  /** A field the `$set` does not name reads back as before. */
  lemma SetKeeps(d: Doc, u: Doc, now: int, k: string)
    requires k !in u && k != BaseRepo.UpdatedAt
    ensures Get(BaseRepo.ApplySet(d, u, now), k) == Get(d, k)
  {
  }

  /** The `$set` of mark_result_reviewed; an absent interpretation is written as null. */
  function ReviewUpdate(reviewedBy: string, interpretation: Option<string>, now: int): (u: Doc)
    ensures u.Keys == {ReviewedBy, ReviewedAt, Interpretation, Status}
    ensures u[Status] == Str(TestStatusText(PendingReview)) && u[ReviewedBy] == Str(reviewedBy)
    ensures interpretation.None? ==> u[Interpretation] == Null
  {
    map[ReviewedBy := Str(reviewedBy), ReviewedAt := Stamp(now),
        Interpretation := if interpretation.Some? then Str(interpretation.value) else Null,
        Status := Str(PendingReviewText)]
  }

  /** mark_result_reviewed. */
  method MarkResultReviewed(labs: BaseRepo.Repository, labTestId: string, reviewedBy: string,
                            interpretation: Option<string>, now: int) returns (r: Option<Doc>)
    modifies labs`docs
    ensures BaseRepo.UpdatedById(old(labs.docs), labs.docs, Str(labTestId), LabTestId,
      ReviewUpdate(reviewedBy, interpretation, now), now, r)
  {
    r := labs.UpdateById(Str(labTestId), LabTestId, ReviewUpdate(reviewedBy, interpretation, now), now);
  }

  /** After review the test is PENDING_REVIEW, which is not one of the pending statuses. */
  lemma ReviewEffect(d: Doc, reviewedBy: string, interpretation: Option<string>, now: int)
    ensures var e := BaseRepo.ApplySet(d, ReviewUpdate(reviewedBy, interpretation, now), now);
      Get(e, Status) == Str(TestStatusText(PendingReview)) && !PendingFilter(e) &&
      Get(e, ReviewedBy) == Str(reviewedBy) && Get(e, ReviewedAt) == Stamp(now)
  {
    var u := ReviewUpdate(reviewedBy, interpretation, now);
    assert Status in u && Status != BaseRepo.UpdatedAt;
    assert ReviewedBy in u && ReviewedBy != BaseRepo.UpdatedAt;
    assert ReviewedAt in u && ReviewedAt != BaseRepo.UpdatedAt;
  }

  // ---------------------------------------------------------------------
  // Recovery stays
  // ---------------------------------------------------------------------

  const StayId: string := "stay_id"
  const PatientId: string := "patient_id"
  const VisitId: string := "visit_id"
  const AdmitTime: string := "admit_time"
  const AdmitFrom: string := "admit_from"
  const AdmitReason: string := "admit_reason"
  const AdmitDiagnosis: string := "admit_diagnosis"
  const BedNumber: string := "bed_number"
  const AdmittingStaffId: string := "admitting_staff_id"
  const InitialVitals: string := "initial_vitals"
  const InitialPainScore: string := "initial_pain_score"
  const InitialConsciousness: string := "initial_consciousness"
  const MonitoringFrequencyMinutes: string := "monitoring_frequency_minutes"
  const DischargeTime: string := "discharge_time"
  const DischargeTo: string := "discharge_to"
  const DischargeStatus: string := "discharge_status"
  const DischargeInstructions: string := "discharge_instructions"
  const DischargeVitals: string := "discharge_vitals"
  const SignedOffBy: string := "signed_off_by"

  /** The keys of `admit_data` and `discharge_data` the handlers read. */
  const FromKey: string := "from"
  const ReasonKey: string := "reason"
  const DiagnosisKey: string := "diagnosis"
  const BedNumberKey: string := "bed_number"
  const StaffIdKey: string := "staff_id"
  const VitalsKey: string := "vitals"
  const PainScoreKey: string := "pain_score"
  const ConsciousnessKey: string := "consciousness"
  const MonitoringFrequencyKey: string := "monitoring_frequency"
  const ToKey: string := "to"
  const StatusKey: string := "status"
  const InstructionsKey: string := "instructions"

  /** The default initial consciousness and monitoring interval of an admission. */
  const DefaultConsciousness: string := "alert"
  const DefaultMonitoringMinutes: int := 15

  /** The KeyError a missing required key raises. */
  const MissingKeyError: string := "KeyError"

  /** The filter of find_active_stays: status `$in` ADMITTED, STABLE, IMPROVING, DETERIORATING. */
  predicate ActiveFilter(d: Doc)
  {
    Get(d, Status) in [Str(Recovery.AdmittedText), Str(Recovery.StableText), Str(Recovery.ImprovingText),
                       Str(Recovery.DeterioratingText)]
  }

  /** The statuses of a stay still in the recovery room. */
  predicate IsActive(s: Recovery.RecoveryStatus)
  {
    s == Recovery.Admitted || s == Recovery.Stable || s == Recovery.Improving || s == Recovery.Deteriorating
  }

  /** A stored stay is active exactly when its status names one of the four active statuses. */
  lemma ActiveMeaning(d: Doc)
    ensures ActiveFilter(d) <==>
      Get(d, Status).Str? && Recovery.ParseStatus(Get(d, Status).s).Some? &&
      IsActive(Recovery.ParseStatus(Get(d, Status).s).value)
  {
  }

  /** find_active_stays: the first page of active stays, in store order. */
  function FindActiveStays(docs: seq<Doc>): (r: seq<Doc>)
    ensures |r| <= BaseRepo.DefaultLimit
    ensures forall i :: 0 <= i < |r| ==> r[i] in docs && ActiveFilter(r[i])
  {
    BaseRepo.FindMany(docs, ActiveFilter, 0, BaseRepo.DefaultLimit, None)
  }

  /**
   * The status a stay reads back as through the RecoveryStay model: absent
   * is the default ADMITTED, a text must name a status.
   */
  function ModelStatus(d: Doc): (r: Result<Recovery.RecoveryStatus>)
    ensures Status !in d ==> r == Ok(Recovery.DefaultStatus)
    ensures Status in d && r.Ok? ==> d[Status] == Str(Recovery.StatusText(r.value))
  {
    if Status !in d then Recovery.StayStatus(None)
    else if d[Status].Str? then Recovery.StayStatus(Some(d[Status].s))
    else Err(Recovery.InvalidStatusError)
  }

  /** create_recovery_stay: create with an automatic `stay_id`. */
  method CreateRecoveryStay(stays: BaseRepo.Repository, stayData: Doc, now: int) returns (created: Doc)
    modifies stays
    ensures BaseRepo.CreatedAs(old(stays.counters), stays.counters, stays.name, stayData, Some(StayId), created, now)
    ensures stays.docs == old(stays.docs) + [created]
  {
    created := stays.Create(stayData, Some(StayId), now);
  }

  predicate AdmitDataComplete(admitData: Doc)
  {
    FromKey in admitData && ReasonKey in admitData && DiagnosisKey in admitData && BedNumberKey in admitData &&
    StaffIdKey in admitData && VitalsKey in admitData
  }

  /** The stay admit_to_recovery builds; it sets no status. */
  function StayData(patientId: string, visitId: string, admitData: Doc, now: int): (r: Doc)
    requires AdmitDataComplete(admitData)
    ensures Status !in r
    ensures {PatientId, VisitId, AdmitTime, InitialConsciousness, MonitoringFrequencyMinutes} <= r.Keys
    ensures r[PatientId] == Str(patientId) && r[VisitId] == Str(visitId) && r[AdmitTime] == Stamp(now)
    ensures r[InitialConsciousness] == GetOr(admitData, ConsciousnessKey, Str(DefaultConsciousness))
    ensures r[MonitoringFrequencyMinutes] == GetOr(admitData, MonitoringFrequencyKey, Int(DefaultMonitoringMinutes))
  {
    map[PatientId := Str(patientId), VisitId := Str(visitId), AdmitTime := Stamp(now),
        AdmitFrom := admitData[FromKey], AdmitReason := admitData[ReasonKey], AdmitDiagnosis := admitData[DiagnosisKey],
        BedNumber := admitData[BedNumberKey], AdmittingStaffId := admitData[StaffIdKey],
        InitialVitals := admitData[VitalsKey], InitialPainScore := Get(admitData, PainScoreKey),
        InitialConsciousness := GetOr(admitData, ConsciousnessKey, Str(DefaultConsciousness)),
        MonitoringFrequencyMinutes := GetOr(admitData, MonitoringFrequencyKey, Int(DefaultMonitoringMinutes))]
  }

  /** admit_to_recovery: a missing required key raises before anything is stored. */
  method AdmitToRecovery(stays: BaseRepo.Repository, patientId: string, visitId: string, admitData: Doc, now: int)
      returns (r: Result<Doc>)
    modifies stays
    ensures !AdmitDataComplete(admitData) ==>
      r == Err(MissingKeyError) && stays.docs == old(stays.docs) && stays.counters == old(stays.counters)
    ensures AdmitDataComplete(admitData) ==> (r.Ok? &&
      BaseRepo.CreatedAs(old(stays.counters), stays.counters, stays.name, StayData(patientId, visitId, admitData, now),
        Some(StayId), r.value, now) &&
      stays.docs == old(stays.docs) + [r.value])
  {
    if !AdmitDataComplete(admitData) {
      return Err(MissingKeyError);
    }
    var created := CreateRecoveryStay(stays, StayData(patientId, visitId, admitData, now), now);
    r := Ok(created);
  }

  /**
   * A stay stored by admit_to_recovery reads back as ADMITTED through the
   * model's default, yet carries no status, so find_active_stays does not
   * list it.
   */
  lemma AdmittedStayNotListedActive(counters: map<string, nat>, after: map<string, nat>, name: string,
                                    patientId: string, visitId: string, admitData: Doc, created: Doc, now: int)
    requires AdmitDataComplete(admitData)
    requires BaseRepo.CreatedAs(counters, after, name, StayData(patientId, visitId, admitData, now), Some(StayId),
                                created, now)
    ensures ModelStatus(created) == Ok(Recovery.Admitted) && IsActive(Recovery.Admitted)
    ensures !ActiveFilter(created)
  {
    assert Status != StayId && Status != BaseRepo.CreatedAt && Status != BaseRepo.UpdatedAt;
    assert Status !in created;
  }

  /** The stay as the model's default intends it: with the ADMITTED status stored. */
  function CorrectedStayData(patientId: string, visitId: string, admitData: Doc, now: int): (r: Doc)
    requires AdmitDataComplete(admitData)
    ensures r.Keys == StayData(patientId, visitId, admitData, now).Keys + {Status}
    ensures r[Status] == Str(Recovery.StatusText(Recovery.DefaultStatus))
    ensures forall k :: k in StayData(patientId, visitId, admitData, now) ==> r[k] == StayData(patientId, visitId, admitData, now)[k]
  {
    StayData(patientId, visitId, admitData, now)[Status := Str(Recovery.StatusText(Recovery.DefaultStatus))]
  }

  /** A stay created from the corrected data is listed as active and reads back as ADMITTED. */
  lemma CorrectedAdmittedStayListedActive(counters: map<string, nat>, after: map<string, nat>, name: string,
                                          patientId: string, visitId: string, admitData: Doc, created: Doc, now: int)
    requires AdmitDataComplete(admitData)
    requires BaseRepo.CreatedAs(counters, after, name, CorrectedStayData(patientId, visitId, admitData, now),
                                Some(StayId), created, now)
    ensures ActiveFilter(created)
    ensures ModelStatus(created) == Ok(Recovery.Admitted)
  {
    var d := CorrectedStayData(patientId, visitId, admitData, now);
    assert Status != StayId;
    assert Status in d;
    assert created[Status] == Str(Recovery.AdmittedText);
  }

  predicate DischargeDataComplete(data: Doc)
  {
    ToKey in data && StatusKey in data && InstructionsKey in data && VitalsKey in data && StaffIdKey in data
  }

  /** The `$set` of discharge_from_recovery: the discharge details and DISCHARGED. */
  function DischargeUpdate(data: Doc, now: int): (u: Doc)
    requires DischargeDataComplete(data)
    ensures u.Keys == {DischargeTime, DischargeTo, DischargeStatus, DischargeInstructions, DischargeVitals,
                       SignedOffBy, Status}
    ensures u[Status] == Str(Recovery.DischargedText) && u[DischargeTime] == Stamp(now)
    ensures u[SignedOffBy] == data[StaffIdKey] && u[DischargeTo] == data[ToKey]
  {
    map[DischargeTime := Stamp(now), DischargeTo := data[ToKey], DischargeStatus := data[StatusKey],
        DischargeInstructions := data[InstructionsKey], DischargeVitals := data[VitalsKey],
        SignedOffBy := data[StaffIdKey], Status := Str(Recovery.DischargedText)]
  }

  /** discharge_from_recovery: a missing key raises before the write; otherwise update_by_id. */
  method DischargeFromRecovery(stays: BaseRepo.Repository, stayId: string, data: Doc, now: int)
      returns (r: Result<Option<Doc>>)
    modifies stays`docs
    ensures !DischargeDataComplete(data) ==> r == Err(MissingKeyError) && stays.docs == old(stays.docs)
    ensures DischargeDataComplete(data) ==> (r.Ok? &&
      BaseRepo.UpdatedById(old(stays.docs), stays.docs, Str(stayId), StayId, DischargeUpdate(data, now), now, r.value))
  {
    if !DischargeDataComplete(data) {
      return Err(MissingKeyError);
    }
    var updated := stays.UpdateById(Str(stayId), StayId, DischargeUpdate(data, now), now);
    r := Ok(updated);
  }

  /** A discharged stay is DISCHARGED, has its discharge time, and is no longer active. */
  lemma DischargeEndsStay(d: Doc, data: Doc, now: int)
    requires DischargeDataComplete(data)
    ensures var e := BaseRepo.ApplySet(d, DischargeUpdate(data, now), now);
      ModelStatus(e) == Ok(Recovery.Discharged) && !ActiveFilter(e) && Get(e, DischargeTime) == Stamp(now)
  {
    var u := DischargeUpdate(data, now);
    assert Status in u && Status != BaseRepo.UpdatedAt;
    assert DischargeTime in u && DischargeTime != BaseRepo.UpdatedAt;
    Recovery.ParseStatusText(Recovery.Discharged);
  }

  // ---------------------------------------------------------------------
  // Observations
  // ---------------------------------------------------------------------

  const ObservationIdField: string := "observation_id"
  const SequenceNumber: string := "sequence_number"
  const ObservationTime: string := "observation_time"
  const ObservationType: string := "observation_type"
  const ObservedBy: string := "observed_by"
  const TypeKey: string := "type"
  const IsCritical: string := "is_critical"

  const ObsPrefix: string := "OBS"
  const Dash: char := '-'

  /** `f"OBS{stay_id}-{n}"`. */
  function ObservationId(stayId: string, n: nat): (id: string)
    ensures |id| > |ObsPrefix| + |stayId| && id[|ObsPrefix| + |stayId|] == Dash
  {
    ObsPrefix + stayId + [Dash] + NatToString(n)
  }

  lemma NatToStringInjective(a: nat, b: nat)
    requires NatToString(a) == NatToString(b)
    ensures a == b
  {
    ParseNatToString(a);
    ParseNatToString(b);
  }

  /** The number after the last dash is all digits, so an observation ID names one stay and one number. */
  lemma ObservationIdInjective(s1: string, n1: nat, s2: string, n2: nat)
    requires ObservationId(s1, n1) == ObservationId(s2, n2)
    ensures s1 == s2 && n1 == n2
  {
    var id := ObservationId(s1, n1);
    var d1 := NatToString(n1);
    var d2 := NatToString(n2);
    var len := |id|;
    assert len == |ObsPrefix| + |s1| + 1 + |d1| == |ObsPrefix| + |s2| + 1 + |d2|;
    assert |d1| == |d2|;
      assert s1 == id[|ObsPrefix|..|ObsPrefix| + |s1|] == ObservationId(s2, n2)[|ObsPrefix|..|ObsPrefix| + |s2|] == s2;
      assert d1 == id[len - |d1|..] == ObservationId(s2, n2)[len - |d2|..] == d2;
      NatToStringInjective(n1, n2);
  }

  /** The count's filter `{"stay_id": stay_id}`. */
  function ForStay(stayId: string): Doc -> bool
  {
    FieldEquals(StayId, Str(stayId))
  }

  /** The observation add_observation inserts; `**observation_data` comes last and wins on a clash. */
  function NewObservation(stayId: string, data: Doc, observedBy: string, count: nat, now: int): (r: Doc)
    requires TypeKey in data
    ensures r.Keys == data.Keys + {StayId, ObservationIdField, SequenceNumber, ObservationTime, ObservationType, ObservedBy}
    ensures forall k :: k in data ==> r[k] == data[k]
  {
    map[StayId := Str(stayId), ObservationIdField := Str(ObservationId(stayId, count + 1)),
        SequenceNumber := Int(count + 1), ObservationTime := Stamp(now), ObservationType := data[TypeKey],
        ObservedBy := Str(observedBy)] + data
  }

  /** Data that does not override the generated fields. */
  predicate KeepsGeneratedFields(data: Doc)
  {
    StayId !in data && ObservationIdField !in data && SequenceNumber !in data
  }

  /** Without an override, the observation belongs to the stay and is number count + 1, with the matching ID. */
  lemma NewObservationNumbered(stayId: string, data: Doc, observedBy: string, count: nat, now: int)
    requires TypeKey in data && KeepsGeneratedFields(data)
    ensures var o := NewObservation(stayId, data, observedBy, count, now);
      o[StayId] == Str(stayId) && o[SequenceNumber] == Int(count + 1) &&
      o[ObservationIdField] == Str(ObservationId(stayId, count + 1)) &&
      o[ObservationType] == (if ObservationType in data then data[ObservationType] else data[TypeKey]) &&
      Recovery.ValidateSequence(count + 1).Ok?
  {
  }

  /**
   * Each observation inserted for a stay adds one to the stay's count, so
   * consecutive observations are numbered 1, 2, 3, ... with distinct IDs.
   */
  lemma ObservationCountAdvances(docs: seq<Doc>, stayId: string, data: Doc, observedBy: string, now: int)
    requires TypeKey in data && KeepsGeneratedFields(data)
    ensures var o := NewObservation(stayId, data, observedBy, BaseRepo.Count(docs, ForStay(stayId)), now);
      BaseRepo.Count(docs + [o], ForStay(stayId)) == BaseRepo.Count(docs, ForStay(stayId)) + 1
  {
    var o := NewObservation(stayId, data, observedBy, BaseRepo.Count(docs, ForStay(stayId)), now);
    assert ForStay(stayId)(o);
    Sorting.FilterAppend(docs, o, ForStay(stayId));
  }

  /** The `$set` a critical observation makes on its stay. */
  function DeterioratingUpdate(): Doc
  {
    map[Status := Str(Recovery.DeterioratingText)]
  }

  /** A stay marked DETERIORATING reads back as such and is still active. */
  lemma DeterioratingStillActive(d: Doc, now: int)
    ensures var e := BaseRepo.ApplySet(d, DeterioratingUpdate(), now);
      ModelStatus(e) == Ok(Recovery.Deteriorating) && ActiveFilter(e)
  {
    var u := DeterioratingUpdate();
    assert Status in u && Status != BaseRepo.UpdatedAt;
    Recovery.ParseStatusText(Recovery.Deteriorating);
  }

  /**
   * add_observation: the insert counts the stay's observations first; a
   * truthy `is_critical` then marks the stay DETERIORATING, and otherwise
   * the stay is untouched. The result is whether the insert got an ID,
   * which it always does; a missing "type" raises before the insert.
   */
  method AddObservation(stays: BaseRepo.Repository, observations: Collection, stayId: string, data: Doc,
                        observedBy: string, now: int) returns (r: Result<bool>)
    modifies stays`docs, observations
    ensures TypeKey !in data ==>
      r == Err(MissingKeyError) && observations.docs == old(observations.docs) && stays.docs == old(stays.docs)
    ensures TypeKey in data ==> (r == Ok(true) &&
      observations.docs == old(observations.docs) +
        [NewObservation(stayId, data, observedBy, BaseRepo.Count(old(observations.docs), ForStay(stayId)), now)])
    ensures TypeKey in data && Truthy(Get(data, IsCritical)) ==>
      exists u :: BaseRepo.UpdatedById(old(stays.docs), stays.docs, Str(stayId), StayId, DeterioratingUpdate(), now, u)
    ensures TypeKey in data && !Truthy(Get(data, IsCritical)) ==> stays.docs == old(stays.docs)
  {
    var count := BaseRepo.Count(observations.docs, ForStay(stayId));
    if TypeKey !in data {
      return Err(MissingKeyError);
    }
    observations.InsertOne(NewObservation(stayId, data, observedBy, count, now));
    if Truthy(Get(data, IsCritical)) {
      var updated := stays.UpdateById(Str(stayId), StayId, DeterioratingUpdate(), now);
      assert BaseRepo.UpdatedById(old(stays.docs), stays.docs, Str(stayId), StayId, DeterioratingUpdate(), now, updated);
    }
    r := Ok(true);
  }
}
