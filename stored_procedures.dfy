/**
 * The Python side of the clinic API's aggregation helpers: the age of a
 * patient computed from the date of birth (the fallback used when the
 * database cannot compute it), the availability test for a practitioner's
 * time range, and the validation run before an appointment is created.
 */
module StoredProcedures {
  import opened Wrappers
  import opened Documents
  import opened Calendar
  import opened Intervals
  import DateText

  // ---------------------------------------------------------------------
  // Age
  // ---------------------------------------------------------------------

  /** The anniversary of dob in year y (as a day triple) has arrived by today. */
  predicate AnniversaryReached(dob: Date, y: int, today: Date)
  {
    AtOrBefore(Date(y, dob.month, dob.day), today)
  }

  /**
   * calculate_patient_age, Python fallback: an empty date of birth, or one
   * strptime rejects, gives None; otherwise the year difference, less one
   * when this year's birthday is still to come.
   */
  method CalculatePatientAge(dateOfBirth: string, today: Date) returns (r: Option<int>)
    ensures r.None? <==> dateOfBirth == [] || DateText.ParseYmd(dateOfBirth).None?
    ensures r.Some? ==>
      var dob := DateText.ParseYmd(dateOfBirth).value;
      AnniversaryReached(dob, dob.year + r.value, today) && !AnniversaryReached(dob, dob.year + r.value + 1, today)
  {
    if dateOfBirth == [] {
      return None;
    }
    var parsed := DateText.ParseYmd(dateOfBirth);
    if parsed.None? {
      return None;
    }
    var dob := parsed.value;
    var age := today.year - dob.year;
    if today.month < dob.month || (today.month == dob.month && today.day < dob.day) {
      age := age - 1;
    }
    return Some(age);
  }

  /** The anniversaries reached form a prefix of the years: the completed-years count is unique. */
  lemma AgeUnique(dob: Date, today: Date, a: int, b: int)
    requires AnniversaryReached(dob, dob.year + a, today) && !AnniversaryReached(dob, dob.year + a + 1, today)
    requires AnniversaryReached(dob, dob.year + b, today) && !AnniversaryReached(dob, dob.year + b + 1, today)
    ensures a == b
  {
  }

  /** A patient born on or before today has a non-negative age. */
  lemma AgeNonNegative(dob: Date, today: Date, age: int)
    requires AtOrBefore(dob, today)
    requires AnniversaryReached(dob, dob.year + age, today) && !AnniversaryReached(dob, dob.year + age + 1, today)
    ensures age >= 0
  {
  }

  // ---------------------------------------------------------------------
  // Availability
  // ---------------------------------------------------------------------

  const StaffId: string := "staff_id"
  const ScheduledStart: string := "scheduled_start"
  const ScheduledEnd: string := "scheduled_end"
  const Active: string := "active"
  const FirstName: string := "first_name"
  const LastName: string := "last_name"

  /**
   * The `$match` of the availability check: the same practitioner and one
   * of the three overlap cases. Only date-time bounds compare with the
   * date-time query, and there is no status filter.
   */
  predicate Conflicts(d: Doc, staffId: Value, start: int, end: int)
  {
    Get(d, StaffId) == staffId && Get(d, ScheduledStart).Stamp? && Get(d, ScheduledEnd).Stamp? &&
    ThreeCaseConflict(start, end, Get(d, ScheduledStart).t, Get(d, ScheduledEnd).t)
  }

  /** The `$count` stage: how many appointments conflict. */
  function ConflictCount(appointments: seq<Doc>, staffId: Value, start: int, end: int): (n: nat)
    ensures n <= |appointments|
  {
    if appointments == [] then 0
    else (if Conflicts(appointments[0], staffId, start, end) then 1 else 0) +
         ConflictCount(appointments[1..], staffId, start, end)
  }

  /** The count is zero exactly when no appointment conflicts. */
  lemma {:induction false} ConflictCountZero(appointments: seq<Doc>, staffId: Value, start: int, end: int)
    ensures ConflictCount(appointments, staffId, start, end) == 0 <==>
            forall i :: 0 <= i < |appointments| ==> !Conflicts(appointments[i], staffId, start, end)
  {
    if appointments != [] {
      ConflictCountZero(appointments[1..], staffId, start, end);
      assert forall i :: 1 <= i < |appointments| ==> appointments[i] == appointments[1..][i - 1];
    }
  }

  /**
   * A time bound as the check receives it: a date-time as it is, a string
   * through `datetime.fromisoformat` (after 'Z' becomes "+00:00"), passed
   * in as `fromIso`, with None for the ValueError it raises. Any other
   * value is handed to the store's `$match` as it is, where the store
   * compares it by type; the model gives None for it.
   */
  function Moment(v: Value, fromIso: string -> Option<int>): Option<int>
  {
    match v
    case Stamp(t) => Some(t)
    case Str(s) => fromIso(s)
    case _ => None
  }

  /**
   * is_appointment_available: False when an argument is missing (falsy) or
   * cannot be read as a date-time; otherwise True exactly when no
   * appointment of that practitioner conflicts.
   */
  function IsAppointmentAvailable(appointments: seq<Doc>, staffId: Value, startTime: Value, endTime: Value,
                                  fromIso: string -> Option<int>): (ok: bool)
    ensures ok <==>
      Truthy(staffId) && Truthy(startTime) && Truthy(endTime) &&
      Moment(startTime, fromIso).Some? && Moment(endTime, fromIso).Some? &&
      forall i :: 0 <= i < |appointments| ==>
        !Conflicts(appointments[i], staffId, Moment(startTime, fromIso).value, Moment(endTime, fromIso).value)
  {
    if !Truthy(staffId) || !Truthy(startTime) || !Truthy(endTime) then false
    else
      var start, end := Moment(startTime, fromIso), Moment(endTime, fromIso);
      if start.None? || end.None? then false
      else
        ConflictCountZero(appointments, staffId, start.value, end.value);
        ConflictCount(appointments, staffId, start.value, end.value) == 0
  }

  /**
   * For a non-empty requested range and existing appointments with
   * non-empty ranges, availability is the half-open rule: no appointment
   * of that practitioner overlaps [start, end).
   */
  lemma AvailableIsNoOverlap(appointments: seq<Doc>, staffId: Value, start: int, end: int)
    requires start < end
    requires forall i :: 0 <= i < |appointments| ==>
      Get(appointments[i], ScheduledStart).Stamp? && Get(appointments[i], ScheduledEnd).Stamp? &&
      Get(appointments[i], ScheduledStart).t < Get(appointments[i], ScheduledEnd).t
    ensures (forall i :: 0 <= i < |appointments| ==> !Conflicts(appointments[i], staffId, start, end)) <==>
            (forall i :: 0 <= i < |appointments| && Get(appointments[i], StaffId) == staffId ==>
               !Overlaps(start, end, Get(appointments[i], ScheduledStart).t, Get(appointments[i], ScheduledEnd).t))
  {
    forall i | 0 <= i < |appointments| {
      ThreeCaseIsOverlap(start, end, Get(appointments[i], ScheduledStart).t, Get(appointments[i], ScheduledEnd).t);
    }
  }

  // ---------------------------------------------------------------------
  // Validation before booking
  // ---------------------------------------------------------------------

  const StaffMissing: string := "Staff member not found or inactive"
  const SlotTaken: string := "Time slot conflict - appointment already exists in this time range"

  datatype Validation = Invalid(reason: string) | Valid(staffName: string)

  /** The staff lookup `{'staff_id': id, 'active': True}`. */
  function ActiveStaff(staffId: Value): Doc -> bool
  {
    d => Get(d, StaffId) == staffId && Get(d, Active) == Bool(true)
  }

  /**
   * validate_appointment: first the practitioner must exist and be active,
   * then the range must be available; a valid result carries the
   * practitioner's first and last name.
   */
  function ValidateAppointment(staff: seq<Doc>, appointments: seq<Doc>, staffId: Value, startTime: Value,
                               endTime: Value, fromIso: string -> Option<int>): (r: Validation)
    ensures r.Valid? <==>
      FindOne(staff, ActiveStaff(staffId)).Some? &&
      IsAppointmentAvailable(appointments, staffId, startTime, endTime, fromIso)
    ensures FindOne(staff, ActiveStaff(staffId)).None? ==> r == Invalid(StaffMissing)
    ensures FindOne(staff, ActiveStaff(staffId)).Some? && !IsAppointmentAvailable(appointments, staffId, startTime, endTime, fromIso) ==>
      r == Invalid(SlotTaken)
    ensures r.Valid? ==>
      var s := FindOne(staff, ActiveStaff(staffId)).value;
      r.staffName == Display(GetOr(s, FirstName, Str([]))) + [' '] + Display(GetOr(s, LastName, Str([])))
  {
    var found := FindOne(staff, ActiveStaff(staffId));
    if found.None? then Invalid(StaffMissing)
    else if !IsAppointmentAvailable(appointments, staffId, startTime, endTime, fromIso) then Invalid(SlotTaken)
    else Valid(Display(GetOr(found.value, FirstName, Str([]))) + [' '] + Display(GetOr(found.value, LastName, Str([]))))
  }
}
