/**
 * The prescription and drug repositories of the second backend:
 * prescription numbers counted per year, the default expiry one year
 * ahead, the patient and expiring-prescription filters, filling and
 * refilling (refills never go below zero), cancelling, and the drug stock
 * update. A date-only value is its midnight stamp; today is a day ordinal.
 */
module PrescriptionRepo {
  import opened Wrappers
  import opened Documents
  import Calendar
  import BaseRepo

  const PrescriptionId: string := "prescription_id"
  const PrescriptionNumberField: string := "prescription_number"
  const PrescriptionDate: string := "prescription_date"
  const ExpiryDate: string := "expiry_date"
  const PatientId: string := "patient_id"
  const Status: string := "status"
  const QuantityPrescribed: string := "quantity_prescribed"
  const QuantityDispensed: string := "quantity_dispensed"
  const DispensedBy: string := "dispensed_by"
  const DispensedAt: string := "dispensed_at"
  const PharmacyId: string := "pharmacy_id"
  const PharmacyNotes: string := "pharmacy_notes"
  const RefillsRemaining: string := "refills_remaining"
  const DrugId: string := "drug_id"
  const QuantityInStock: string := "quantity_in_stock"
  const InStock: string := "in_stock"

  const RxPrefix: string := "RX"
  const CancelledPrefix: string := "Cancelled: "

  /** The prescription statuses the repository writes or filters on. */
  const Active: string := "active"
  const Filled: string := "filled"
  const PartiallyFilled: string := "partially_filled"
  const Cancelled: string := "cancelled"

  /** A prescription is valid for a year unless an expiry date is given. */
  const DefaultValidityDays: int := 365

  /** `timedelta(days=30)`, the default look-ahead for expiring prescriptions. */
  const DefaultDaysAhead: int := 30

  // ---------------------------------------------------------------------
  // create_prescription
  // ---------------------------------------------------------------------

  /** The count's filter `{"prescription_date": {"$gte": datetime(year, 1, 1)}}`. */
  function IssuedFrom(year: int): Doc -> bool
  {
    d => Get(d, PrescriptionDate).Stamp? && Get(d, PrescriptionDate).t >= Calendar.Midnight(Calendar.Date(year, 1, 1))
  }

  /** The prescription number "RX{year}-" followed by the year's count + 1, zero-filled to four digits. */
  function RxNumber(year: nat, count: nat): Value
  {
    Str(BaseRepo.SerialNumber(RxPrefix, year, count))
  }

  /** The document create_prescription hands to create: the number, and the expiry only when absent. */
  function NewPrescription(data: Doc, year: nat, count: nat, today: int): (r: Doc)
    ensures r.Keys == data.Keys + {PrescriptionNumberField, ExpiryDate}
    ensures r[PrescriptionNumberField] == RxNumber(year, count)
    ensures ExpiryDate in data ==> r[ExpiryDate] == data[ExpiryDate]
    ensures ExpiryDate !in data ==> r[ExpiryDate] == BaseRepo.DayStamp(today + DefaultValidityDays)
    ensures forall k :: k in data && k != PrescriptionNumberField ==> r[k] == data[k]
  {
    var number, expiry := RxNumber(year, count), BaseRepo.DayStamp(today + DefaultValidityDays);
    NumberedFields(data, number, expiry);
    var numbered := data[PrescriptionNumberField := number];
    if ExpiryDate in numbered then numbered
    else numbered[ExpiryDate := expiry]
  }

  /** The fields of the numbered document, for any number and default expiry. */
  lemma NumberedFields(data: Doc, number: Value, expiry: Value)
    ensures var numbered := data[PrescriptionNumberField := number];
      var r := if ExpiryDate in numbered then numbered else numbered[ExpiryDate := expiry];
      r.Keys == data.Keys + {PrescriptionNumberField, ExpiryDate} && r[PrescriptionNumberField] == number &&
      (ExpiryDate in data ==> r[ExpiryDate] == data[ExpiryDate]) &&
      (ExpiryDate !in data ==> r[ExpiryDate] == expiry) &&
      forall k :: k in data && k != PrescriptionNumberField ==> r[k] == data[k]
  {
  }

  /**
   * create_prescription: this year's count numbers the prescription, then
   * the generic create gives it a `prescription_id`. The billing command it
   * sends afterwards is not part of this model.
   */
  method CreatePrescription(prescriptions: BaseRepo.Repository, data: Doc, year: nat, today: int, now: int)
      returns (created: Doc)
    modifies prescriptions
    ensures BaseRepo.CreatedAs(old(prescriptions.counters), prescriptions.counters, prescriptions.name,
      NewPrescription(data, year, BaseRepo.Count(old(prescriptions.docs), IssuedFrom(year)), today),
      Some(PrescriptionId), created, now)
    ensures prescriptions.docs == old(prescriptions.docs) + [created]
  {
    var count := BaseRepo.Count(prescriptions.docs, IssuedFrom(year));
    created := prescriptions.Create(NewPrescription(data, year, count, today), Some(PrescriptionId), now);
  }

  // ---------------------------------------------------------------------
  // Finders
  // ---------------------------------------------------------------------

  /** A stored date-only field on or after (`$gte`) a day. */
  predicate OnOrAfter(d: Doc, field: string, day: int)
  {
    Get(d, field).Stamp? && Get(d, field).t >= BaseRepo.DayStamp(day).t
  }

  /** A stored date-only field on or before (`$lte`) a day. */
  predicate OnOrBefore(d: Doc, field: string, day: int)
  {
    Get(d, field).Stamp? && Get(d, field).t <= BaseRepo.DayStamp(day).t
  }

  /**
   * The filter of find_patient_prescriptions: the patient, a given status,
   * and with `active_only` the status ACTIVE (replacing any given one) and
   * an expiry on or after today.
   */
  function PatientFilter(patientId: string, status: Option<string>, activeOnly: bool, today: int): Doc -> bool
  {
    d =>
      Get(d, PatientId) == Str(patientId) &&
      (if activeOnly then Get(d, Status) == Str(Active) && OnOrAfter(d, ExpiryDate, today)
       else status.Some? ==> Get(d, Status) == Str(status.value))
  }

  /** `active_only` wins over the status argument; without it a given status is matched exactly. */
  lemma PatientFilterMeaning(patientId: string, status: Option<string>, activeOnly: bool, today: int, d: Doc)
    ensures activeOnly ==>
      (PatientFilter(patientId, status, activeOnly, today)(d) <==>
        Get(d, PatientId) == Str(patientId) && Get(d, Status) == Str(Active) && OnOrAfter(d, ExpiryDate, today))
    ensures !activeOnly && status.Some? ==>
      (PatientFilter(patientId, status, activeOnly, today)(d) <==>
        Get(d, PatientId) == Str(patientId) && Get(d, Status) == Str(status.value))
    ensures !activeOnly && status.None? ==>
      (PatientFilter(patientId, status, activeOnly, today)(d) <==> Get(d, PatientId) == Str(patientId))
    ensures PatientFilter(patientId, status, true, today)(d) == PatientFilter(patientId, None, true, today)(d)
  {
  }

  /** `.sort([("prescription_date", -1)])`: newest first. */
  function NewestFirst(): (Doc, Doc) -> bool
  {
    DescendingKeys([PrescriptionDate])
  }

  /** find_patient_prescriptions: the first page of the patient's matching prescriptions, newest first. */
  function FindPatientPrescriptions(docs: seq<Doc>, patientId: string, status: Option<string>, activeOnly: bool,
                                    today: int): (r: seq<Doc>)
    ensures |r| <= BaseRepo.DefaultLimit
    ensures forall i :: 0 <= i < |r| ==>
      r[i] in docs && Get(r[i], PatientId) == Str(patientId) &&
      (activeOnly ==> Get(r[i], Status) == Str(Active) && OnOrAfter(r[i], ExpiryDate, today))
    ensures BaseRepo.SortedPage(r, docs, PatientFilter(patientId, status, activeOnly, today), BaseRepo.DefaultLimit,
                                NewestFirst())
  {
    DescendingKeysPreorder([PrescriptionDate]);
    BaseRepo.FindManySortedSpec(docs, PatientFilter(patientId, status, activeOnly, today), BaseRepo.DefaultLimit,
                                NewestFirst());
    BaseRepo.FindMany(docs, PatientFilter(patientId, status, activeOnly, today), 0, BaseRepo.DefaultLimit, Some(NewestFirst()))
  }

  /** The filter of find_expiring_prescriptions: ACTIVE, expiring between today and `days_ahead` days on. */
  function ExpiringFilter(today: int, daysAhead: int): Doc -> bool
  {
    d => Get(d, Status) == Str(Active) && OnOrBefore(d, ExpiryDate, today + daysAhead) && OnOrAfter(d, ExpiryDate, today)
  }

  /** For an expiry stored as a day, the filter is exactly "active and today <= expiry <= today + days_ahead". */
  lemma ExpiringMeaning(today: int, daysAhead: int, d: Doc, expiry: int)
    requires Get(d, ExpiryDate) == BaseRepo.DayStamp(expiry)
    ensures ExpiringFilter(today, daysAhead)(d) <==>
      Get(d, Status) == Str(Active) && today <= expiry <= today + daysAhead
  {
    BaseRepo.DayStampOrder(expiry, today + daysAhead);
    BaseRepo.DayStampOrder(today, expiry);
  }

  /** A look-ahead that is negative matches nothing. */
  lemma ExpiringNegativeWindowEmpty(today: int, daysAhead: int, d: Doc)
    requires daysAhead < 0
    ensures !ExpiringFilter(today, daysAhead)(d)
  {
    BaseRepo.DayStampOrder(today, today + daysAhead);
  }

  /** find_expiring_prescriptions: the first page of the matching prescriptions, in store order. */
  function FindExpiringPrescriptions(docs: seq<Doc>, today: int, daysAhead: int): (r: seq<Doc>)
    ensures |r| <= BaseRepo.DefaultLimit
    ensures forall i :: 0 <= i < |r| ==> r[i] in docs && ExpiringFilter(today, daysAhead)(r[i])
  {
    BaseRepo.FindMany(docs, ExpiringFilter(today, daysAhead), 0, BaseRepo.DefaultLimit, None)
  }

  // ---------------------------------------------------------------------
  // fill, refill, cancel
  // ---------------------------------------------------------------------

  /** Building the Prescription model needs the integer quantity and refill count the handlers read. */
  predicate Readable(d: Doc)
  {
    Get(d, QuantityPrescribed).Int? && Get(d, RefillsRemaining).Int?
  }

  /** find_by_prescription_id: the first document with the ID, or None when there is none or it does not parse. */
  function FindPrescription(docs: seq<Doc>, prescriptionId: string): (r: Option<Doc>)
    ensures r.Some? ==> (FirstMatch(docs, FieldEquals(PrescriptionId, Str(prescriptionId))).Some? &&
      r.value == docs[FirstMatch(docs, FieldEquals(PrescriptionId, Str(prescriptionId))).value] && Readable(r.value))
    ensures r.None? ==> (FirstMatch(docs, FieldEquals(PrescriptionId, Str(prescriptionId))).None? ||
      !Readable(docs[FirstMatch(docs, FieldEquals(PrescriptionId, Str(prescriptionId))).value]))
  {
    var m := FirstMatch(docs, FieldEquals(PrescriptionId, Str(prescriptionId)));
    if m.Some? && Readable(docs[m.value]) then Some(docs[m.value]) else None
  }

  /** FILLED once at least the prescribed quantity is dispensed, PARTIALLY_FILLED below it. */
  function FillStatus(dispensed: int, prescribed: int): (s: string)
    ensures s == Filled <==> dispensed >= prescribed
    ensures s == PartiallyFilled <==> dispensed < prescribed
  {
    assert Filled[0] != PartiallyFilled[0];
    if dispensed < prescribed then PartiallyFilled else Filled
  }

  /** An optional text as written: None is stored as null. */
  function OptionalText(v: Option<string>): Value
  {
    if v.Some? then Str(v.value) else Null
  }

  function FillUpdate(status: string, quantity: int, dispensedBy: string, pharmacyId: Option<string>, now: int): Doc
  {
    map[Status := Str(status), QuantityDispensed := Int(quantity), DispensedBy := Str(dispensedBy),
        DispensedAt := Stamp(now), PharmacyId := OptionalText(pharmacyId)]
  }

  /** fill_prescription: None for a missing prescription; otherwise the status from the quantity and the dispensing record. */
  method FillPrescription(prescriptions: BaseRepo.Repository, prescriptionId: string, quantityDispensed: int,
                          dispensedBy: string, pharmacyId: Option<string>, now: int) returns (r: Option<Doc>)
    modifies prescriptions`docs
    ensures FindPrescription(old(prescriptions.docs), prescriptionId).None? ==>
      r.None? && prescriptions.docs == old(prescriptions.docs)
    ensures FindPrescription(old(prescriptions.docs), prescriptionId).Some? ==>
      var i := FirstMatch(old(prescriptions.docs), FieldEquals(PrescriptionId, Str(prescriptionId))).value;
      var p := old(prescriptions.docs)[i];
      var update := FillUpdate(FillStatus(quantityDispensed, Get(p, QuantityPrescribed).i), quantityDispensed,
                               dispensedBy, pharmacyId, now);
      prescriptions.docs == old(prescriptions.docs)[i := BaseRepo.ApplySet(p, update, now)] &&
      r == Some(prescriptions.docs[i])
  {
    var found := FindPrescription(prescriptions.docs, prescriptionId);
    if found.None? {
      return None;
    }
    var status := Filled;
    if quantityDispensed < Get(found.value, QuantityPrescribed).i {
      status := PartiallyFilled;
    }
    r := prescriptions.UpdateById(Str(prescriptionId), PrescriptionId,
                                  FillUpdate(status, quantityDispensed, dispensedBy, pharmacyId, now), now);
  }

  /** The refill count after a refill: none is possible from 0 or below, otherwise one fewer. */
  function RefillsAfter(remaining: int): (r: Option<int>)
    ensures r.Some? <==> remaining > 0
    ensures r.Some? ==> r.value == remaining - 1 && r.value >= 0
  {
    if remaining <= 0 then None else Some(remaining - 1)
  }

  function RefillUpdate(remaining: int, dispensedBy: string, now: int): Doc
  {
    map[RefillsRemaining := Int(remaining), Status := Str(Filled), DispensedBy := Str(dispensedBy),
        DispensedAt := Stamp(now)]
  }

  /** The invariant refills keep: no prescription stores a negative refill count. */
  predicate RefillsNonNegative(docs: seq<Doc>)
  {
    forall j :: 0 <= j < |docs| ==> Get(docs[j], RefillsRemaining).Int? ==> Get(docs[j], RefillsRemaining).i >= 0
  }

  /** Whether refill_prescription refills: the prescription is found and has a refill left. */
  predicate CanRefill(docs: seq<Doc>, prescriptionId: string)
  {
    FindPrescription(docs, prescriptionId).Some? && Get(FindPrescription(docs, prescriptionId).value, RefillsRemaining).i > 0
  }

  /** The state after a refill of the first prescription with the ID: one refill fewer, FILLED, dispensed now. */
  predicate Refilled(before: seq<Doc>, after: seq<Doc>, prescriptionId: string, dispensedBy: string, now: int, r: Option<Doc>)
    requires CanRefill(before, prescriptionId)
  {
    var i := FirstMatch(before, FieldEquals(PrescriptionId, Str(prescriptionId))).value;
    var remaining := Get(before[i], RefillsRemaining).i - 1;
    after == before[i := BaseRepo.ApplySet(before[i], RefillUpdate(remaining, dispensedBy, now), now)] &&
    r == Some(after[i]) &&
    Get(r.value, RefillsRemaining) == Int(remaining) && remaining >= 0 && Get(r.value, Status) == Str(Filled)
  }

  /**
   * refill_prescription: None and no change for a missing prescription or
   * one with no refills left; otherwise one refill fewer and FILLED.
   */
  method RefillPrescription(prescriptions: BaseRepo.Repository, prescriptionId: string, dispensedBy: string, now: int)
      returns (r: Option<Doc>)
    modifies prescriptions`docs
    ensures !CanRefill(old(prescriptions.docs), prescriptionId) ==> r.None? && prescriptions.docs == old(prescriptions.docs)
    ensures CanRefill(old(prescriptions.docs), prescriptionId) ==>
      Refilled(old(prescriptions.docs), prescriptions.docs, prescriptionId, dispensedBy, now, r)
  {
    var found := FindPrescription(prescriptions.docs, prescriptionId);
    if found.None? || Get(found.value, RefillsRemaining).i <= 0 {
      return None;
    }
    ghost var before := prescriptions.docs;
    ghost var i := FirstMatch(before, FieldEquals(PrescriptionId, Str(prescriptionId))).value;
    assert found.value == before[i];
    assert CanRefill(before, prescriptionId);
    var remaining := Get(found.value, RefillsRemaining).i - 1;
    r := prescriptions.UpdateById(Str(prescriptionId), PrescriptionId, RefillUpdate(remaining, dispensedBy, now), now);
    assert prescriptions.docs == before[i := BaseRepo.ApplySet(before[i], RefillUpdate(remaining, dispensedBy, now), now)];
    RefillWritten(before, prescriptions.docs, prescriptionId, dispensedBy, now, r, i, remaining);
  }

  /** The write refill_prescription makes is the refilled state. */
  lemma RefillWritten(before: seq<Doc>, after: seq<Doc>, prescriptionId: string, dispensedBy: string, now: int, r: Option<Doc>,
                      i: nat, remaining: int)
    requires CanRefill(before, prescriptionId)
    requires i < |before| && FirstMatch(before, FieldEquals(PrescriptionId, Str(prescriptionId))) == Some(i)
    requires remaining == Get(before[i], RefillsRemaining).i - 1
    requires after == before[i := BaseRepo.ApplySet(before[i], RefillUpdate(remaining, dispensedBy, now), now)]
    requires r == Some(after[i])
    ensures Refilled(before, after, prescriptionId, dispensedBy, now, r)
  {
    var u := RefillUpdate(remaining, dispensedBy, now);
    var d := BaseRepo.ApplySet(before[i], u, now);
    assert RefillsRemaining in u && RefillsRemaining != BaseRepo.UpdatedAt;
    assert Status in u && Status != BaseRepo.UpdatedAt;
    assert Get(d, RefillsRemaining) == Int(remaining) && Get(d, Status) == Str(Filled);
    assert FindPrescription(before, prescriptionId).value == before[i];
  }

  /** A refill never takes a stored refill count below zero: the invariant holds after every refill. */
  lemma RefillKeepsRefillsNonNegative(before: seq<Doc>, after: seq<Doc>, prescriptionId: string, dispensedBy: string,
                                      now: int, r: Option<Doc>)
    requires RefillsNonNegative(before)
    requires !CanRefill(before, prescriptionId) ==> after == before
    requires CanRefill(before, prescriptionId) ==> Refilled(before, after, prescriptionId, dispensedBy, now, r)
    ensures RefillsNonNegative(after)
  {
    if CanRefill(before, prescriptionId) {
      var i := FirstMatch(before, FieldEquals(PrescriptionId, Str(prescriptionId))).value;
      forall j | 0 <= j < |after| && Get(after[j], RefillsRemaining).Int?
        ensures Get(after[j], RefillsRemaining).i >= 0
      {
        if j != i {
          assert after[j] == before[j];
        }
      }
    }
  }

  function CancelUpdate(reason: string): Doc
  {
    map[Status := Str(Cancelled), PharmacyNotes := Str(CancelledPrefix + reason)]
  }

  /** cancel_prescription: CANCELLED with the reason in the pharmacy notes, or None for an unknown ID. */
  method CancelPrescription(prescriptions: BaseRepo.Repository, prescriptionId: string, reason: string, now: int)
      returns (r: Option<Doc>)
    modifies prescriptions`docs
    ensures FirstMatch(old(prescriptions.docs), FieldEquals(PrescriptionId, Str(prescriptionId))).None? ==>
      r.None? && prescriptions.docs == old(prescriptions.docs)
    ensures FirstMatch(old(prescriptions.docs), FieldEquals(PrescriptionId, Str(prescriptionId))).Some? ==>
      var i := FirstMatch(old(prescriptions.docs), FieldEquals(PrescriptionId, Str(prescriptionId))).value;
      prescriptions.docs == old(prescriptions.docs)[i := BaseRepo.ApplySet(old(prescriptions.docs)[i], CancelUpdate(reason), now)] &&
      r == Some(prescriptions.docs[i]) && Get(r.value, Status) == Str(Cancelled)
  {
    r := prescriptions.UpdateById(Str(prescriptionId), PrescriptionId, CancelUpdate(reason), now);
  }

  // ---------------------------------------------------------------------
  // update_drug_stock
  // ---------------------------------------------------------------------

  /** `(drug.quantity_in_stock or 0) + quantity_change`. */
  function NewStock(stored: Value, change: int): int
  {
    (if stored.Int? then stored.i else 0) + change
  }

  /** The stock `$set`: the new quantity, and in stock exactly when it is positive. */
  function StockUpdate(stored: Value, change: int): (u: Doc)
    ensures u.Keys == {QuantityInStock, InStock}
    ensures u[QuantityInStock] == Int(NewStock(stored, change))
    ensures u[InStock] == Bool(NewStock(stored, change) > 0)
  {
    var q := NewStock(stored, change);
    map[QuantityInStock := Int(q), InStock := Bool(q > 0)]
  }

  /** The stock count of a drug model: an integer or none. */
  predicate DrugReadable(d: Doc)
  {
    Get(d, QuantityInStock).Int? || Get(d, QuantityInStock).Null?
  }

  function FindDrug(docs: seq<Doc>, drugId: string): (r: Option<Doc>)
    ensures r.Some? ==> (FirstMatch(docs, FieldEquals(DrugId, Str(drugId))).Some? &&
      r.value == docs[FirstMatch(docs, FieldEquals(DrugId, Str(drugId))).value] && DrugReadable(r.value))
    ensures r.None? ==> (FirstMatch(docs, FieldEquals(DrugId, Str(drugId))).None? ||
      !DrugReadable(docs[FirstMatch(docs, FieldEquals(DrugId, Str(drugId))).value]))
  {
    var m := FirstMatch(docs, FieldEquals(DrugId, Str(drugId)));
    if m.Some? && DrugReadable(docs[m.value]) then Some(docs[m.value]) else None
  }

  /** update_drug_stock: None for a missing drug; otherwise the new quantity and in-stock flag. */
  method UpdateDrugStock(drugs: BaseRepo.Repository, drugId: string, change: int, now: int) returns (r: Option<Doc>)
    modifies drugs`docs
    ensures FindDrug(old(drugs.docs), drugId).None? ==> r.None? && drugs.docs == old(drugs.docs)
    ensures FindDrug(old(drugs.docs), drugId).Some? ==>
      var i := FirstMatch(old(drugs.docs), FieldEquals(DrugId, Str(drugId))).value;
      var stored := Get(old(drugs.docs)[i], QuantityInStock);
      drugs.docs == old(drugs.docs)[i := BaseRepo.ApplySet(old(drugs.docs)[i], StockUpdate(stored, change), now)] &&
      r == Some(drugs.docs[i]) &&
      Get(r.value, QuantityInStock) == Int(NewStock(stored, change)) &&
      (Get(r.value, InStock) == Bool(true) <==> NewStock(stored, change) > 0)
  {
    var found := FindDrug(drugs.docs, drugId);
    if found.None? {
      return None;
    }
    r := drugs.UpdateById(Str(drugId), DrugId, StockUpdate(Get(found.value, QuantityInStock), change), now);
  }

  /** Two stock changes add up: the quantity after both is the stored one plus their sum. */
  lemma StockChangesAdd(stored: Value, a: int, b: int)
    ensures NewStock(Int(NewStock(stored, a)), b) == NewStock(stored, a + b)
  {
  }
}
