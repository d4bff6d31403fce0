/**
 * The request validators of the second backend's appointment schemas:
 * starts on 10-minute boundaries, an end after the start, a recurrence
 * that ends after the first date, coverage weeks that start on a Monday,
 * and the numeric bounds of the walk-in, slot-search and schedule requests.
 * Dates are Python ordinals, as in the scheduling repository.
 */
module AppointmentSchemas {
  import opened Wrappers
  import Calendar
  import AppointmentRepo

  /** A `datetime.time` to the second (microseconds are not modelled). */
  datatype TimeOfDay = TimeOfDay(hour: int, minute: int, second: int)

  predicate ValidTime(t: TimeOfDay)
  {
    0 <= t.hour < 24 && 0 <= t.minute < 60 && 0 <= t.second < 60
  }

  /** Python's `<` on times: lexicographic on (hour, minute, second). */
  predicate TimeLt(a: TimeOfDay, b: TimeOfDay)
  {
    a.hour < b.hour || (a.hour == b.hour && (a.minute < b.minute || (a.minute == b.minute && a.second < b.second)))
  }

  function SecondsOf(t: TimeOfDay): int
  {
    t.hour * 3600 + t.minute * 60 + t.second
  }

  /** The time at a whole number of minutes after midnight. */
  function FromMinutes(m: int): (t: TimeOfDay)
    requires 0 <= m < 1440
    ensures ValidTime(t) && t.second == 0 && SecondsOf(t) == 60 * m
  {
    TimeOfDay(m / 60, m % 60, 0)
  }

  /** On valid times the comparison orders by seconds since midnight. */
  lemma TimeLtIsEarlier(a: TimeOfDay, b: TimeOfDay)
    requires ValidTime(a) && ValidTime(b)
    ensures TimeLt(a, b) <==> SecondsOf(a) < SecondsOf(b)
  {
    if a.hour < b.hour {
      assert SecondsOf(a) < (a.hour + 1) * 3600 <= SecondsOf(b);
    } else if a.hour > b.hour {
      assert SecondsOf(b) < (b.hour + 1) * 3600 <= SecondsOf(a);
    }
  }

  const TimeSlotError: string := "Appointments must start at 10-minute intervals (00, 10, 20, 30, 40, 50)"
  const EndTimeError: string := "End time must be after start time"
  const RecurrenceEndError: string := "Recurrence end date must be after appointment date"
  const MondayError: string := "Week start must be a Monday"

  /** validate_time_slot: the start's minute must be a multiple of 10. */
  function ValidateTimeSlot(v: TimeOfDay): (r: Result<TimeOfDay>)
    ensures r.Ok? ==> r.value == v
    ensures r.Err? ==> r.message == TimeSlotError
  {
    if v.minute % 10 != 0 then Err(TimeSlotError) else Ok(v)
  }

  /** A start on the whole minute is accepted exactly when it lies on the 10-minute grid from midnight. */
  lemma TimeSlotIsTenMinuteGrid(v: TimeOfDay)
    requires ValidTime(v) && v.second == 0
    ensures ValidateTimeSlot(v).Ok? <==> (v.hour * 60 + v.minute) % 10 == 0
  {
    assert v.hour * 60 + v.minute == 10 * (v.hour * 6) + v.minute;
  }

  /**
   * Every slot the slot search offers from a shift that starts on a
   * 10-minute boundary is a start this validator accepts.
   */
  lemma OfferedSlotsPassTimeSlot(shiftStart: int, slotStart: int)
    requires 0 <= shiftStart && shiftStart % 10 == 0 && AppointmentRepo.OnGrid(slotStart, shiftStart) && slotStart < 1440
    ensures ValidateTimeSlot(FromMinutes(slotStart)).Ok?
  {
    var q := (slotStart - shiftStart) / 10;
    assert slotStart == shiftStart + 10 * q;
    assert slotStart % 10 == 0;
    TimeSlotIsTenMinuteGrid(FromMinutes(slotStart));
  }

  /**
   * validate_end_time: a given end must be strictly after the start; the
   * check is skipped when the start is absent or failed its own validator.
   */
  function ValidateEndTime(v: Option<TimeOfDay>, start: Option<TimeOfDay>): (r: Result<Option<TimeOfDay>>)
    ensures r.Ok? ==> r.value == v
    ensures r.Err? ==> r.message == EndTimeError
  {
    if v.Some? && start.Some? && !TimeLt(start.value, v.value) then Err(EndTimeError) else Ok(v)
  }

  /** With both times given and valid, the end is accepted exactly when the appointment lasts a positive time. */
  lemma EndTimeMeansPositiveLength(start: TimeOfDay, end: TimeOfDay)
    requires ValidTime(start) && ValidTime(end)
    ensures ValidateEndTime(Some(end), Some(start)).Ok? <==> SecondsOf(end) - SecondsOf(start) > 0
  {
    TimeLtIsEarlier(start, end);
  }

  /** validate_recurrence_end: a given recurrence end must be strictly after the appointment date. */
  function ValidateRecurrenceEnd(v: Option<int>, scheduledDate: Option<int>): (r: Result<Option<int>>)
    ensures r.Ok? <==> v.None? || scheduledDate.None? || v.value > scheduledDate.value
    ensures r.Ok? ==> r.value == v
    ensures r.Err? ==> r.message == RecurrenceEndError
  {
    if v.Some? && scheduledDate.Some? && v.value <= scheduledDate.value then Err(RecurrenceEndError) else Ok(v)
  }

  /** validate_monday: `week_start.weekday()` must be 0. */
  function ValidateMonday(v: int): (r: Result<int>)
    ensures r.Ok? ==> r.value == v
    ensures r.Err? ==> r.message == MondayError
  {
    if Calendar.Weekday(v) != 0 then Err(MondayError) else Ok(v)
  }

  /**
   * A week start is accepted exactly when it is the Monday the coverage
   * lookup computes for it, so every looked-up week start is accepted.
   */
  lemma MondayIsCoverageWeekStart(v: int, d: int)
    ensures ValidateMonday(v).Ok? <==> AppointmentRepo.CoverageWeekStart(v) == v
    ensures ValidateMonday(AppointmentRepo.CoverageWeekStart(d)).Ok?
  {
    if Calendar.Weekday(v) == 0 {
      Calendar.MondayOfWeekDays(v, v);
    }
  }

  /**
   * The errors of an AppointmentCreateRequest's time fields, in field order.
   * A start that fails its validator is missing from the values later
   * validators see, so the end check is then skipped.
   */
  function CreateRequestErrors(scheduledDate: int, scheduledStart: TimeOfDay, scheduledEnd: Option<TimeOfDay>,
                               recurrenceEndDate: Option<int>): (errors: seq<string>)
    ensures |errors| <= 3
  {
    var startCheck := ValidateTimeSlot(scheduledStart);
    var startSeen := if startCheck.Ok? then Some(scheduledStart) else None;
    var endCheck := ValidateEndTime(scheduledEnd, startSeen);
    var recurrenceCheck := ValidateRecurrenceEnd(recurrenceEndDate, Some(scheduledDate));
    (if startCheck.Err? then [startCheck.message] else []) +
    (if endCheck.Err? then [endCheck.message] else []) +
    (if recurrenceCheck.Err? then [recurrenceCheck.message] else [])
  }

  /**
   * A request is accepted exactly when its start is on the grid, a given
   * end follows the start and a given recurrence end follows the date.
   */
  lemma CreateRequestAccepted(scheduledDate: int, scheduledStart: TimeOfDay, scheduledEnd: Option<TimeOfDay>,
                              recurrenceEndDate: Option<int>)
    ensures CreateRequestErrors(scheduledDate, scheduledStart, scheduledEnd, recurrenceEndDate) == [] <==>
      scheduledStart.minute % 10 == 0 &&
      (scheduledEnd.None? || TimeLt(scheduledStart, scheduledEnd.value)) &&
      (recurrenceEndDate.None? || recurrenceEndDate.value > scheduledDate)
  {
  }

  /** An off-grid start hides an end that comes before it: only the start is reported. */
  lemma OffGridStartHidesEndError()
    ensures CreateRequestErrors(0, TimeOfDay(9, 15, 0), Some(TimeOfDay(9, 0, 0)), None) == [TimeSlotError]
  {
  }

  // ---------------------------------------------------------------------
  // Numeric bounds
  // ---------------------------------------------------------------------

  /** A `Field(ge=lo, le=hi)` bound. */
  function CheckBound(x: int, lo: int, hi: int): (r: Result<int>)
    ensures r.Ok? <==> lo <= x <= hi
    ensures r.Ok? ==> r.value == x
  {
    if x < lo || x > hi then Err("out of range") else Ok(x)
  }

  const WalkInDurationMin: int := 10
  const WalkInDurationMax: int := 60
  const WalkInDurationDefault: int := 10
  const SlotDurationMin: int := 10
  const SlotDurationMax: int := 120
  const SlotDurationDefault: int := 10
  const MaxWalkInsMin: int := 0
  const MaxWalkInsMax: int := 20

  /** WalkInRegistrationRequest.estimated_duration_minutes. */
  function ValidateWalkInDuration(minutes: int): (r: Result<int>)
    ensures r.Ok? <==> WalkInDurationMin <= minutes <= WalkInDurationMax
    ensures r.Ok? ==> r.value == minutes
  {
    CheckBound(minutes, WalkInDurationMin, WalkInDurationMax)
  }

  /** AvailableSlotRequest.duration_minutes. */
  function ValidateSlotDuration(minutes: int): (r: Result<int>)
    ensures r.Ok? <==> SlotDurationMin <= minutes <= SlotDurationMax
    ensures r.Ok? ==> r.value == minutes
  {
    CheckBound(minutes, SlotDurationMin, SlotDurationMax)
  }

  /** PractitionerScheduleUpdateRequest.max_walk_ins, optional. */
  function ValidateMaxWalkIns(v: Option<int>): (r: Result<Option<int>>)
    ensures r.Ok? <==> v.None? || MaxWalkInsMin <= v.value <= MaxWalkInsMax
  {
    if v.None? then Ok(v) else if CheckBound(v.value, MaxWalkInsMin, MaxWalkInsMax).Ok? then Ok(v) else Err("out of range")
  }

  /**
   * The defaults are accepted, and any accepted walk-in duration is also
   * an accepted slot-search duration: the walk-in range lies inside it.
   */
  lemma DurationBounds(minutes: int)
    ensures ValidateWalkInDuration(WalkInDurationDefault).Ok? && ValidateSlotDuration(SlotDurationDefault).Ok?
    ensures ValidateWalkInDuration(minutes).Ok? ==> ValidateSlotDuration(minutes).Ok?
    ensures !ValidateWalkInDuration(minutes).Ok? && ValidateSlotDuration(minutes).Ok? ==> 60 < minutes <= 120
  {
  }
}
