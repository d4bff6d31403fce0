/**
 * The appointment, weekly-coverage and practitioner-daily-schedule
 * repositories: slot generation, the half-open conflict check, walk-in
 * allocation, booked-slot capacity, blocked slots and on-call lookup.
 * Times are minutes since midnight and dates are day ordinals.
 */
module AppointmentRepo {
  import opened Wrappers
  import opened Intervals
  import Calendar
  import BaseRepo
  import Documents
  import Text
  import Sorting

  datatype AppointmentStatus =
    Scheduled | Confirmed | InProgress | Completed | Cancelled | NoShow | Rescheduled

  datatype AppointmentType =
    Regular | WalkIn | Emergency | FollowUp | Checkup | Immunization
    | Prenatal | Postnatal | Consultation | Procedure

  datatype Appointment = Appointment(
    appointmentId: string,
    patientId: string,
    staffId: string,
    scheduledDate: int,
    scheduledStart: int,
    scheduledEnd: int,
    appointmentType: AppointmentType,
    status: AppointmentStatus,
    reasonForVisit: string,
    isWalkIn: bool,
    walkInArrivalTime: Option<int>,
    createdAt: int,
    updatedAt: int)

  /** A `{"start", "end"}` entry of break_slots. */
  datatype Range = Range(start: int, end: int)

  /** A `{"start", "end", "reason"}` entry pushed onto blocked_slots. */
  datatype BlockedSlot = BlockedSlot(start: int, end: int, reason: string)

  datatype DailySchedule = DailySchedule(
    staffId: string,
    scheduleDate: int,
    startTime: int,
    endTime: int,
    isAvailable: bool,
    availableForWalkIns: bool,
    currentWalkIns: int,
    maxWalkIns: int,
    totalSlots: int,
    bookedSlots: int,
    breakSlots: seq<Range>,
    blockedSlots: seq<BlockedSlot>,
    updatedAt: int)

  datatype Slot = Slot(startTime: int, endTime: int, staffId: string, date: int)

  datatype OnCallAssignment = OnCallAssignment(date: int, staffId: string)

  datatype WeeklyCoverage = WeeklyCoverage(
    coverageId: string,
    weekStart: int,
    onCallAssignments: seq<OnCallAssignment>)

  /** The default slot length of find_available_slots, also used by walk-in allocation. */
  const DefaultDuration: int := 10

  /** The collection name create passes to auto_id, so IDs read "APP001", "APP002", ... */
  const AppointmentSequence: string := "Appointment"
  /** The prefix create gives the Appointment collection's IDs. */
  const AppointmentIdPrefix: string := "APP"

  /** Candidate starts advance by this many minutes whatever the duration. */
  const SlotStep: int := 10

  // ---------------------------------------------------------------------
  // Queries
  // ---------------------------------------------------------------------

  /** The filter of find_staff_appointments: that staff member and date, not cancelled. */
  predicate BooksStaffOn(a: Appointment, staffId: string, date: int)
  {
    a.staffId == staffId && a.scheduledDate == date && a.status != Cancelled
  }

  /** Every stored appointment the filter of find_staff_appointments matches, in store order. */
  function BookedOn(appointments: seq<Appointment>, staffId: string, date: int): seq<Appointment>
  {
    Sorting.Filter(appointments, a => BooksStaffOn(a, staffId, date))
  }

  /** `sort=[("scheduled_start", 1)]`. */
  function ByStart(): (Appointment, Appointment) -> bool
  {
    (a: Appointment, b: Appointment) => a.scheduledStart <= b.scheduledStart
  }

  /**
   * find_staff_appointments goes through find_many with its default limit:
   * the matches sorted by scheduled_start, then the first 100 of them.
   */
  function StaffAppointments(appointments: seq<Appointment>, staffId: string, date: int): (r: seq<Appointment>)
    ensures |r| <= BaseRepo.DefaultLimit
    ensures |BookedOn(appointments, staffId, date)| <= BaseRepo.DefaultLimit ==>
      |r| == |BookedOn(appointments, staffId, date)|
  {
    BaseRepo.Take(Sorting.SortBy(BookedOn(appointments, staffId, date), ByStart()), BaseRepo.DefaultLimit)
  }

  /**
   * What find_staff_appointments returns: matching stored appointments in
   * start order; all of them when there are at most 100, and otherwise the
   * 100 earliest, so that every match left out starts no earlier than any
   * match returned.
   */
  lemma StaffAppointmentsSpec(appointments: seq<Appointment>, staffId: string, date: int)
    ensures var r := StaffAppointments(appointments, staffId, date);
      (forall i :: 0 <= i < |r| ==> BooksStaffOn(r[i], staffId, date) && r[i] in appointments) &&
      Sorting.SortedBy(r, ByStart())
    ensures var r := StaffAppointments(appointments, staffId, date);
      var all := BookedOn(appointments, staffId, date);
      multiset(r) <= multiset(all) &&
      (|all| <= BaseRepo.DefaultLimit ==> multiset(r) == multiset(all)) &&
      forall x, i :: x in multiset(all) - multiset(r) && 0 <= i < |r| ==> r[i].scheduledStart <= x.scheduledStart
  {
    var all := BookedOn(appointments, staffId, date);
    var r := StaffAppointments(appointments, staffId, date);
    StaffAppointmentsMatch(appointments, staffId, date);
    ByStartPreorder();
    BaseRepo.TakeSortedSpec(all, ByStart(), BaseRepo.DefaultLimit);
    forall x, i | x in multiset(all) - multiset(r) && 0 <= i < |r| ensures r[i].scheduledStart <= x.scheduledStart {
      assert ByStart()(r[i], x);
    }
  }

  /** Every appointment returned is a stored booking of that staff member and date. */
  lemma StaffAppointmentsMatch(appointments: seq<Appointment>, staffId: string, date: int)
    ensures var r := StaffAppointments(appointments, staffId, date);
      forall i :: 0 <= i < |r| ==> BooksStaffOn(r[i], staffId, date) && r[i] in appointments
  {
    var all := BookedOn(appointments, staffId, date);
    var sorted := Sorting.SortBy(all, ByStart());
    var r := StaffAppointments(appointments, staffId, date);
    forall i | 0 <= i < |r| ensures BooksStaffOn(r[i], staffId, date) && r[i] in appointments {
      assert r[i] == sorted[i];
      assert r[i] in multiset(sorted);
      var j :| 0 <= j < |all| && all[j] == r[i];
    }
  }

  lemma ByStartPreorder()
    ensures Sorting.TotalPreorder(ByStart())
  {
  }

  /** find_by_staff_and_date: the first schedule of that staff member for that date. */
  function FindSchedule(schedules: seq<DailySchedule>, staffId: string, date: int): (r: Option<nat>)
    ensures r.Some? ==> (r.value < |schedules| &&
                         schedules[r.value].staffId == staffId && schedules[r.value].scheduleDate == date)
    ensures r.Some? ==> forall j :: 0 <= j < r.value ==>
      !(schedules[j].staffId == staffId && schedules[j].scheduleDate == date)
    ensures r.None? ==> forall j :: 0 <= j < |schedules| ==>
      !(schedules[j].staffId == staffId && schedules[j].scheduleDate == date)
  {
    if schedules == [] then None
    else if schedules[0].staffId == staffId && schedules[0].scheduleDate == date then Some(0)
    else
      var r := FindSchedule(schedules[1..], staffId, date);
      if r.Some? then Some(r.value + 1) else None
  }

  predicate ClashesWithAppointment(start: int, end: int, booked: seq<Appointment>)
  {
    exists j :: 0 <= j < |booked| && Overlaps(start, end, booked[j].scheduledStart, booked[j].scheduledEnd)
  }

  predicate ClashesWithBreak(start: int, end: int, breaks: seq<Range>)
  {
    exists j :: 0 <= j < |breaks| && Overlaps(start, end, breaks[j].start, breaks[j].end)
  }

  /** A candidate is kept when it overlaps no booked appointment and no break. */
  predicate Free(start: int, end: int, booked: seq<Appointment>, breaks: seq<Range>)
  {
    !ClashesWithAppointment(start, end, booked) && !ClashesWithBreak(start, end, breaks)
  }

  /** The slots the generation loop emits from candidate start `current` on. */
  function SlotsFrom(current: int, windowEnd: int, duration: int, booked: seq<Appointment>,
                     breaks: seq<Range>, staffId: string, date: int): seq<Slot>
    decreases windowEnd - duration - current + SlotStep
  {
    if current + duration > windowEnd then []
    else
      (if Free(current, current + duration, booked, breaks)
       then [Slot(current, current + duration, staffId, date)] else [])
      + SlotsFrom(current + SlotStep, windowEnd, duration, booked, breaks, staffId, date)
  }

  /** Specification of find_available_slots. */
  function AvailableSlots(appointments: seq<Appointment>, schedules: seq<DailySchedule>,
                          staffId: string, date: int, duration: int): seq<Slot>
  {
    var found := FindSchedule(schedules, staffId, date);
    if found.None? || !schedules[found.value].isAvailable then []
    else
      var s := schedules[found.value];
      SlotsFrom(s.startTime, s.endTime, duration, StaffAppointments(appointments, staffId, date),
                s.breakSlots, staffId, date)
  }

  /** A time `t` is one of the loop's candidate starts from `from`. */
  predicate OnGrid(t: int, from: int)
  {
    t >= from && (t - from) % SlotStep == 0
  }

  /** Each slot has the requested length, starts on the grid from `from`, ends by `windowEnd` and is free. */
  predicate SlotsWellFormed(r: seq<Slot>, from: int, windowEnd: int, duration: int,
                            booked: seq<Appointment>, breaks: seq<Range>, staffId: string, date: int)
  {
    forall k :: 0 <= k < |r| ==>
      r[k].endTime == r[k].startTime + duration && OnGrid(r[k].startTime, from) &&
      r[k].endTime <= windowEnd && r[k].staffId == staffId && r[k].date == date &&
      Free(r[k].startTime, r[k].endTime, booked, breaks)
  }

  predicate StrictlyAscending(r: seq<Slot>)
  {
    forall i, j :: 0 <= i < j < |r| ==> r[i].startTime < r[j].startTime
  }

  lemma {:induction false} SlotsFromSound(current: int, windowEnd: int, duration: int,
                                          booked: seq<Appointment>, breaks: seq<Range>,
                                          staffId: string, date: int)
    ensures SlotsWellFormed(SlotsFrom(current, windowEnd, duration, booked, breaks, staffId, date),
                            current, windowEnd, duration, booked, breaks, staffId, date)
    ensures StrictlyAscending(SlotsFrom(current, windowEnd, duration, booked, breaks, staffId, date))
    decreases windowEnd - duration - current + SlotStep
  {
    if current + duration <= windowEnd {
      SlotsFromSound(current + SlotStep, windowEnd, duration, booked, breaks, staffId, date);
      var rest := SlotsFrom(current + SlotStep, windowEnd, duration, booked, breaks, staffId, date);
      forall k | 0 <= k < |rest| ensures OnGrid(rest[k].startTime, current) && rest[k].startTime > current {
        GridStep(rest[k].startTime, current);
      }
      var head := if Free(current, current + duration, booked, breaks)
                  then [Slot(current, current + duration, staffId, date)] else [];
      assert SlotsFrom(current, windowEnd, duration, booked, breaks, staffId, date) == head + rest;
    }
  }

  lemma GridStep(t: int, from: int)
    requires OnGrid(t, from + SlotStep)
    ensures OnGrid(t, from)
  {
    var q := (t - from - SlotStep) / SlotStep;
    assert t - from - SlotStep == SlotStep * q;
    assert t - from == SlotStep * (q + 1);
  }

  lemma {:induction false} SlotsFromComplete(current: int, windowEnd: int, duration: int,
                                             booked: seq<Appointment>, breaks: seq<Range>,
                                             staffId: string, date: int, t: int)
    requires OnGrid(t, current) && t + duration <= windowEnd
    requires Free(t, t + duration, booked, breaks)
    ensures Slot(t, t + duration, staffId, date) in
            SlotsFrom(current, windowEnd, duration, booked, breaks, staffId, date)
    decreases windowEnd - duration - current + SlotStep
  {
    if t != current {
      assert (t - (current + SlotStep)) % SlotStep == 0 by {
        assert t - (current + SlotStep) == (t - current) - SlotStep;
      }
      SlotsFromComplete(current + SlotStep, windowEnd, duration, booked, breaks, staffId, date, t);
    }
  }

  /**
   * find_available_slots, what it returns: nothing without an available
   * schedule; otherwise exactly the free slots [t, t + duration) for the
   * candidate starts t = start, start + 10, ... that end by the shift end,
   * ascending by start, for that staff member and date.
   */
  lemma AvailableSlotsCharacterised(appointments: seq<Appointment>, schedules: seq<DailySchedule>,
                                    staffId: string, date: int, duration: int)
    ensures FindSchedule(schedules, staffId, date).None? ==>
      AvailableSlots(appointments, schedules, staffId, date, duration) == []
    ensures FindSchedule(schedules, staffId, date).Some? &&
            !schedules[FindSchedule(schedules, staffId, date).value].isAvailable ==>
      AvailableSlots(appointments, schedules, staffId, date, duration) == []
    ensures FindSchedule(schedules, staffId, date).Some? &&
            schedules[FindSchedule(schedules, staffId, date).value].isAvailable ==>
      SlotsOfSchedule(AvailableSlots(appointments, schedules, staffId, date, duration),
                      schedules[FindSchedule(schedules, staffId, date).value],
                      StaffAppointments(appointments, staffId, date), duration)
  {
    var found := FindSchedule(schedules, staffId, date);
    if found.Some? && schedules[found.value].isAvailable {
      var s := schedules[found.value];
      var booked := StaffAppointments(appointments, staffId, date);
      var r := AvailableSlots(appointments, schedules, staffId, date, duration);
      SlotsFromSound(s.startTime, s.endTime, duration, booked, s.breakSlots, staffId, date);
      forall t | OnGrid(t, s.startTime) && t + duration <= s.endTime && Free(t, t + duration, booked, s.breakSlots)
        ensures Slot(t, t + duration, staffId, date) in r
      {
        SlotsFromComplete(s.startTime, s.endTime, duration, booked, s.breakSlots, staffId, date, t);
      }
    }
  }

  /**
   * The slots of an available schedule: well formed, strictly ascending, and
   * containing every free grid slot of the shift.
   */
  ghost predicate SlotsOfSchedule(r: seq<Slot>, s: DailySchedule, booked: seq<Appointment>, duration: int)
  {
    SlotsWellFormed(r, s.startTime, s.endTime, duration, booked, s.breakSlots, s.staffId, s.scheduleDate) &&
    StrictlyAscending(r) &&
    (forall t :: (OnGrid(t, s.startTime) && t + duration <= s.endTime &&
                  Free(t, t + duration, booked, s.breakSlots)) ==>
       Slot(t, t + duration, s.staffId, s.scheduleDate) in r)
  }

  /** A returned slot overlaps none of the staff member's non-cancelled appointments that day. */
  lemma AvailableSlotAvoidsBookings(appointments: seq<Appointment>, schedules: seq<DailySchedule>,
                                    staffId: string, date: int, duration: int, k: nat, a: Appointment)
    requires k < |AvailableSlots(appointments, schedules, staffId, date, duration)|
    requires a in StaffAppointments(appointments, staffId, date)
    ensures var slot := AvailableSlots(appointments, schedules, staffId, date, duration)[k];
      !Overlaps(slot.startTime, slot.endTime, a.scheduledStart, a.scheduledEnd)
  {
    AvailableSlotsCharacterised(appointments, schedules, staffId, date, duration);
    var booked := StaffAppointments(appointments, staffId, date);
    var i :| 0 <= i < |booked| && booked[i] == a;
  }

  /** With at most 100 bookings that day, a returned slot overlaps none of them. */
  lemma AvailableSlotAvoidsAllWhenFew(appointments: seq<Appointment>, schedules: seq<DailySchedule>,
                                      staffId: string, date: int, duration: int, k: nat, a: Appointment)
    requires |BookedOn(appointments, staffId, date)| <= BaseRepo.DefaultLimit
    requires k < |AvailableSlots(appointments, schedules, staffId, date, duration)|
    requires a in appointments && BooksStaffOn(a, staffId, date)
    ensures var slot := AvailableSlots(appointments, schedules, staffId, date, duration)[k];
      !Overlaps(slot.startTime, slot.endTime, a.scheduledStart, a.scheduledEnd)
  {
    StaffAppointmentsSpec(appointments, staffId, date);
    var all := BookedOn(appointments, staffId, date);
    assert a in all;
    assert a in multiset(StaffAppointments(appointments, staffId, date));
    AvailableSlotAvoidsBookings(appointments, schedules, staffId, date, duration, k, a);
  }

  /** Slots are generated from break_slots only: blocked_slots never change the result. */
  lemma BlockedSlotsIgnored(appointments: seq<Appointment>, schedules: seq<DailySchedule>,
                            staffId: string, date: int, duration: int, i: nat, blocked: seq<BlockedSlot>)
    requires i < |schedules|
    ensures AvailableSlots(appointments, schedules[i := schedules[i].(blockedSlots := blocked)], staffId, date, duration)
            == AvailableSlots(appointments, schedules, staffId, date, duration)
  {
    var changed := schedules[i := schedules[i].(blockedSlots := blocked)];
    FindScheduleSameKeys(schedules, changed, staffId, date);
  }

  lemma {:induction false} FindScheduleSameKeys(a: seq<DailySchedule>, b: seq<DailySchedule>, staffId: string, date: int)
    requires |a| == |b|
    requires forall j :: 0 <= j < |a| ==> a[j].staffId == b[j].staffId && a[j].scheduleDate == b[j].scheduleDate
    requires forall j :: 0 <= j < |a| ==> (a[j].isAvailable == b[j].isAvailable && a[j].startTime == b[j].startTime
                                          && a[j].endTime == b[j].endTime && a[j].breakSlots == b[j].breakSlots)
    ensures FindSchedule(a, staffId, date) == FindSchedule(b, staffId, date)
  {
    if a != [] {
      FindScheduleSameKeys(a[1..], b[1..], staffId, date);
    }
  }

  /** The inner scan over the day's appointments, stopping at the first overlap. */
  method ScanAppointments(currentTime: int, slotEnd: int, booked: seq<Appointment>) returns (isAvailable: bool)
    ensures isAvailable <==> !ClashesWithAppointment(currentTime, slotEnd, booked)
  {
    isAvailable := true;
    var i := 0;
    while i < |booked|
      invariant 0 <= i <= |booked|
      invariant forall j :: 0 <= j < i ==> !Overlaps(currentTime, slotEnd, booked[j].scheduledStart, booked[j].scheduledEnd)
    {
      if Overlaps(currentTime, slotEnd, booked[i].scheduledStart, booked[i].scheduledEnd) {
        isAvailable := false;
        break;
      }
      i := i + 1;
    }
  }

  /** The inner scan over break_slots; it runs whatever the appointment scan found. */
  method ScanBreaks(currentTime: int, slotEnd: int, breaks: seq<Range>, wasAvailable: bool) returns (isAvailable: bool)
    ensures isAvailable <==> wasAvailable && !ClashesWithBreak(currentTime, slotEnd, breaks)
  {
    isAvailable := wasAvailable;
    var b := 0;
    while b < |breaks|
      invariant 0 <= b <= |breaks|
      invariant isAvailable == wasAvailable
      invariant forall j :: 0 <= j < b ==> !Overlaps(currentTime, slotEnd, breaks[j].start, breaks[j].end)
    {
      if Overlaps(currentTime, slotEnd, breaks[b].start, breaks[b].end) {
        isAvailable := false;
        return;
      }
      b := b + 1;
    }
  }

  /** find_available_slots: look up the schedule, then run the candidate loop over its shift. */
  method FindAvailableSlots(appointments: seq<Appointment>, schedules: seq<DailySchedule>,
                            staffId: string, date: int, durationMinutes: int)
    returns (availableSlots: seq<Slot>)
    ensures availableSlots == AvailableSlots(appointments, schedules, staffId, date, durationMinutes)
  {
    var found := FindSchedule(schedules, staffId, date);
    if found.None? || !schedules[found.value].isAvailable {
      return [];
    }
    var schedule := schedules[found.value];
    var booked := StaffAppointments(appointments, staffId, date);
    availableSlots := CollectSlots(schedule.startTime, schedule.endTime, durationMinutes, booked,
                                   schedule.breakSlots, staffId, date);
  }

  /** The 10-minute candidate loop of find_available_slots. */
  method CollectSlots(startTime: int, endTime: int, durationMinutes: int, booked: seq<Appointment>,
                      breaks: seq<Range>, staffId: string, date: int)
    returns (availableSlots: seq<Slot>)
    ensures availableSlots == SlotsFrom(startTime, endTime, durationMinutes, booked, breaks, staffId, date)
  {
    availableSlots := [];
    var currentTime := startTime;
    while currentTime + durationMinutes <= endTime
      invariant availableSlots + SlotsFrom(currentTime, endTime, durationMinutes, booked, breaks, staffId, date)
             == SlotsFrom(startTime, endTime, durationMinutes, booked, breaks, staffId, date)
      decreases endTime - durationMinutes - currentTime + SlotStep
    {
      var slotEnd := currentTime + durationMinutes;
      var isAvailable := ScanAppointments(currentTime, slotEnd, booked);
      isAvailable := ScanBreaks(currentTime, slotEnd, breaks, isAvailable);
      assert isAvailable == Free(currentTime, slotEnd, booked, breaks);
      ghost var head := if isAvailable then [Slot(currentTime, slotEnd, staffId, date)] else [];
      assert SlotsFrom(currentTime, endTime, durationMinutes, booked, breaks, staffId, date)
          == head + SlotsFrom(currentTime + SlotStep, endTime, durationMinutes, booked, breaks, staffId, date);
      if isAvailable {
        availableSlots := availableSlots + [Slot(currentTime, slotEnd, staffId, date)];
      }
      currentTime := currentTime + SlotStep;
    }
  }

  /** The filter of check_appointment_conflict, with the optional exclusion (an empty ID excludes nothing). */
  predicate ConflictCandidate(a: Appointment, staffId: string, date: int, exclude: Option<string>)
  {
    BooksStaffOn(a, staffId, date) &&
    (exclude.Some? && exclude.value != "" ==> a.appointmentId != exclude.value)
  }

  /** find_many's first page (100 documents, store order) of that filter. */
  function ConflictCandidates(appointments: seq<Appointment>, staffId: string, date: int,
                              exclude: Option<string>): seq<Appointment>
  {
    BaseRepo.Take(Sorting.Filter(appointments, a => ConflictCandidate(a, staffId, date, exclude)), BaseRepo.DefaultLimit)
  }

  /**
   * check_appointment_conflict: true exactly when one of those appointments
   * overlaps [start, end) under the half-open test.
   */
  method CheckAppointmentConflict(appointments: seq<Appointment>, staffId: string, date: int,
                                  startTime: int, endTime: int, exclude: Option<string>)
    returns (conflict: bool)
    ensures conflict <==> ClashesWithAppointment(startTime, endTime, ConflictCandidates(appointments, staffId, date, exclude))
  {
    var candidates := ConflictCandidates(appointments, staffId, date, exclude);
    var i := 0;
    while i < |candidates|
      invariant 0 <= i <= |candidates|
      invariant forall j :: 0 <= j < i ==> !Overlaps(startTime, endTime, candidates[j].scheduledStart, candidates[j].scheduledEnd)
    {
      if Overlaps(startTime, endTime, candidates[i].scheduledStart, candidates[i].scheduledEnd) {
        return true;
      }
      i := i + 1;
    }
    return false;
  }

  /** When fewer than 100 appointments qualify, the check sees all of them. */
  lemma ConflictSeesAllWhenFew(appointments: seq<Appointment>, staffId: string, date: int,
                               startTime: int, endTime: int, exclude: Option<string>, a: Appointment)
    requires |Sorting.Filter(appointments, x => ConflictCandidate(x, staffId, date, exclude))| <= BaseRepo.DefaultLimit
    requires a in appointments && ConflictCandidate(a, staffId, date, exclude)
    requires Overlaps(startTime, endTime, a.scheduledStart, a.scheduledEnd)
    ensures ClashesWithAppointment(startTime, endTime, ConflictCandidates(appointments, staffId, date, exclude))
  {
    var c := ConflictCandidates(appointments, staffId, date, exclude);
    var j :| 0 <= j < |appointments| && appointments[j] == a;
    assert a in c;
    var k :| 0 <= k < |c| && c[k] == a;
  }

  // ---------------------------------------------------------------------
  // Walk-in allocation
  // ---------------------------------------------------------------------

  /** The filter of find_available_for_walk_ins. */
  predicate TakesWalkIns(s: DailySchedule, date: int)
  {
    s.scheduleDate == date && s.isAvailable && s.availableForWalkIns && s.currentWalkIns < s.maxWalkIns
  }

  function WalkInPractitioners(schedules: seq<DailySchedule>, date: int): seq<DailySchedule>
  {
    BaseRepo.Take(Sorting.Filter(schedules, s => TakesWalkIns(s, date)), BaseRepo.DefaultLimit)
  }

  /** `[s for s in slots if s["start_time"] >= now][0]`, when there is one. */
  function FirstSlotFrom(slots: seq<Slot>, now: int): (r: Option<Slot>)
    ensures r.Some? ==> r.value in slots && r.value.startTime >= now
    ensures r.None? <==> forall k :: 0 <= k < |slots| ==> slots[k].startTime < now
    ensures r.Some? ==> exists k :: 0 <= k < |slots| && FirstFromAt(slots, now, k, r.value)
  {
    if slots == [] then None
    else if slots[0].startTime >= now then (assert FirstFromAt(slots, now, 0, slots[0]); Some(slots[0]))
    else
      var r := FirstSlotFrom(slots[1..], now);
      if r.Some? then
        var k :| 0 <= k < |slots[1..]| && FirstFromAt(slots[1..], now, k, r.value);
        assert FirstFromAt(slots, now, k + 1, r.value);
        r
      else r
  }

  /** `slot` sits at index k and every earlier slot starts before now. */
  predicate FirstFromAt(slots: seq<Slot>, now: int, k: int, slot: Slot)
  {
    0 <= k < |slots| && slots[k] == slot && forall j :: 0 <= j < k ==> slots[j].startTime < now
  }

  /** The slot the walk-in search takes for one practitioner: their first 10-minute slot at or after now. */
  function FirstFreeSlot(appointments: seq<Appointment>, schedules: seq<DailySchedule>,
                         staffId: string, today: int, now: int): Option<Slot>
  {
    FirstSlotFrom(AvailableSlots(appointments, schedules, staffId, today, DefaultDuration), now)
  }

  /** The search's view of each practitioner: their first slot at or after now, if any. */
  function FreeSlotOf(appointments: seq<Appointment>, schedules: seq<DailySchedule>, today: int, now: int)
    : string -> Option<Slot>
  {
    staffId => FirstFreeSlot(appointments, schedules, staffId, today, now)
  }

  /** The first practitioner, in the order given, for whom `pick` finds a slot, with that slot. */
  function FirstPicked(practitioners: seq<DailySchedule>, pick: string -> Option<Slot>): Option<(string, Slot)>
  {
    if practitioners == [] then None
    else if pick(practitioners[0].staffId).Some? then Some((practitioners[0].staffId, pick(practitioners[0].staffId).value))
    else FirstPicked(practitioners[1..], pick)
  }

  /** Practitioner k is the first for whom `pick` finds a slot, and that slot is `c`. */
  predicate PickedAt(practitioners: seq<DailySchedule>, pick: string -> Option<Slot>, k: int, c: (string, Slot))
  {
    0 <= k < |practitioners| && practitioners[k].staffId == c.0 && pick(c.0) == Some(c.1) &&
    forall j :: 0 <= j < k ==> pick(practitioners[j].staffId).None?
  }

  lemma {:induction false} FirstPickedSpec(practitioners: seq<DailySchedule>, pick: string -> Option<Slot>)
    ensures FirstPicked(practitioners, pick).None? <==>
      forall k :: 0 <= k < |practitioners| ==> pick(practitioners[k].staffId).None?
    ensures FirstPicked(practitioners, pick).Some? ==> exists k :: PickedAt(practitioners, pick, k, FirstPicked(practitioners, pick).value)
  {
    if practitioners != [] {
      var tail := practitioners[1..];
      FirstPickedSpec(tail, pick);
      var r := FirstPicked(practitioners, pick);
      if pick(practitioners[0].staffId).Some? {
        assert PickedAt(practitioners, pick, 0, r.value);
      } else {
        if r.Some? {
          var k :| PickedAt(tail, pick, k, r.value);
          assert PickedAt(practitioners, pick, k + 1, r.value);
        }
        assert forall k :: 0 < k < |practitioners| ==> practitioners[k] == tail[k - 1];
      }
    }
  }

  /** The first practitioner, in the order returned, with a slot at or after now. */
  function FirstPractitionerWithSlot(appointments: seq<Appointment>, schedules: seq<DailySchedule>,
                                     practitioners: seq<DailySchedule>, today: int, now: int)
    : Option<(string, Slot)>
  {
    FirstPicked(practitioners, FreeSlotOf(appointments, schedules, today, now))
  }

  /** The practitioner and slot create_walk_in_appointment books, or None. */
  function WalkInChoice(appointments: seq<Appointment>, schedules: seq<DailySchedule>,
                        preferredStaffId: Option<string>, today: int, now: int): Option<(string, Slot)>
  {
    if preferredStaffId.Some? && preferredStaffId.value != "" then
      var pick := FirstFreeSlot(appointments, schedules, preferredStaffId.value, today, now);
      if pick.Some? then Some((preferredStaffId.value, pick.value)) else None
    else
      FirstPractitionerWithSlot(appointments, schedules, WalkInPractitioners(schedules, today), today, now)
  }

  /** No practitioner before index k has a slot left, and practitioner k's first slot is `c`. */
  predicate ChosenAt(appointments: seq<Appointment>, schedules: seq<DailySchedule>,
                     practitioners: seq<DailySchedule>, today: int, now: int, k: int, c: (string, Slot))
  {
    0 <= k < |practitioners| && practitioners[k].staffId == c.0 &&
    FirstFreeSlot(appointments, schedules, c.0, today, now) == Some(c.1) &&
    forall j :: 0 <= j < k ==> FirstFreeSlot(appointments, schedules, practitioners[j].staffId, today, now).None?
  }

  lemma FirstPractitionerWithSlotSpec(appointments: seq<Appointment>, schedules: seq<DailySchedule>,
                                      practitioners: seq<DailySchedule>, today: int, now: int)
    ensures FirstPractitionerWithSlot(appointments, schedules, practitioners, today, now).None? <==>
      forall k :: 0 <= k < |practitioners| ==>
        FirstFreeSlot(appointments, schedules, practitioners[k].staffId, today, now).None?
    ensures FirstPractitionerWithSlot(appointments, schedules, practitioners, today, now).Some? ==>
      exists k :: ChosenAt(appointments, schedules, practitioners, today, now, k,
                           FirstPractitionerWithSlot(appointments, schedules, practitioners, today, now).value)
  {
    var pick := FreeSlotOf(appointments, schedules, today, now);
    FirstPickedSpec(practitioners, pick);
    var r := FirstPicked(practitioners, pick);
    if r.Some? {
      var k :| PickedAt(practitioners, pick, k, r.value);
      assert ChosenAt(appointments, schedules, practitioners, today, now, k, r.value);
    }
  }

  /** A booking the walk-in search may make: a free 10-minute slot at or after now of that practitioner today. */
  predicate BookableWalkIn(appointments: seq<Appointment>, schedules: seq<DailySchedule>,
                           today: int, now: int, c: (string, Slot))
  {
    c.1 in AvailableSlots(appointments, schedules, c.0, today, DefaultDuration) &&
    c.1.startTime >= now && c.1.endTime == c.1.startTime + DefaultDuration &&
    c.1.staffId == c.0 && c.1.date == today
  }

  /**
   * Walk-in allocation, what it promises: with a preferred practitioner the
   * booking is that practitioner's first slot at or after now and there is no
   * fallback to anyone else; without one it is the first slot at or after now
   * of the first walk-in practitioner that has one; the booked slot is always
   * a free 10-minute slot of that practitioner's day.
   */
  lemma WalkInChoiceSpec(appointments: seq<Appointment>, schedules: seq<DailySchedule>,
                         preferredStaffId: Option<string>, today: int, now: int)
    ensures preferredStaffId.Some? && preferredStaffId.value != "" ==>
      WalkInChoice(appointments, schedules, preferredStaffId, today, now) ==
        (if FirstFreeSlot(appointments, schedules, preferredStaffId.value, today, now).Some?
         then Some((preferredStaffId.value, FirstFreeSlot(appointments, schedules, preferredStaffId.value, today, now).value))
         else None)
    ensures !(preferredStaffId.Some? && preferredStaffId.value != "") &&
            WalkInChoice(appointments, schedules, preferredStaffId, today, now).Some? ==>
      exists k :: ChosenAt(appointments, schedules, WalkInPractitioners(schedules, today), today, now, k,
                           WalkInChoice(appointments, schedules, preferredStaffId, today, now).value) &&
                  TakesWalkIns(WalkInPractitioners(schedules, today)[k], today)
    ensures !(preferredStaffId.Some? && preferredStaffId.value != "") ==>
      (WalkInChoice(appointments, schedules, preferredStaffId, today, now).None? <==>
       forall k :: 0 <= k < |WalkInPractitioners(schedules, today)| ==>
         FirstFreeSlot(appointments, schedules, WalkInPractitioners(schedules, today)[k].staffId, today, now).None?)
    ensures WalkInChoice(appointments, schedules, preferredStaffId, today, now).Some? ==>
      BookableWalkIn(appointments, schedules, today, now, WalkInChoice(appointments, schedules, preferredStaffId, today, now).value)
  {
    var r := WalkInChoice(appointments, schedules, preferredStaffId, today, now);
    var ps := WalkInPractitioners(schedules, today);
    if !(preferredStaffId.Some? && preferredStaffId.value != "") {
      FirstPractitionerWithSlotSpec(appointments, schedules, ps, today, now);
      if r.Some? {
        var k :| ChosenAt(appointments, schedules, ps, today, now, k, r.value);
        var all := Sorting.Filter(schedules, s => TakesWalkIns(s, today));
        assert ps[k] == all[k];
      }
    }
    if r.Some? {
      var slots := AvailableSlots(appointments, schedules, r.value.0, today, DefaultDuration);
      assert FirstSlotFrom(slots, now) == Some(r.value.1);
      AvailableSlotsCharacterised(appointments, schedules, r.value.0, today, DefaultDuration);
      var k :| 0 <= k < |slots| && slots[k] == r.value.1;
    }
  }

  /** The walk-in search: the preferred practitioner only, else a for/else over walk-in practitioners. */
  method ChooseWalkInSlot(appointments: seq<Appointment>, schedules: seq<DailySchedule>,
                          preferredStaffId: Option<string>, today: int, now: int)
    returns (choice: Option<(string, Slot)>)
    ensures choice == WalkInChoice(appointments, schedules, preferredStaffId, today, now)
  {
    if preferredStaffId.Some? && preferredStaffId.value != "" {
      var slots := FindAvailableSlots(appointments, schedules, preferredStaffId.value, today, DefaultDuration);
      var first := FirstSlotFrom(slots, now);
      assert first == FirstFreeSlot(appointments, schedules, preferredStaffId.value, today, now);
      if first.Some? {
        return Some((preferredStaffId.value, first.value));
      }
      return None;
    }
    var practitioners := WalkInPractitioners(schedules, today);
    if |practitioners| == 0 {
      return None;
    }
    choice := ScanPractitioners(appointments, schedules, practitioners, today, now);
  }

  /** The for/else over the walk-in practitioners: the first with a slot at or after now. */
  method ScanPractitioners(appointments: seq<Appointment>, schedules: seq<DailySchedule>,
                           practitioners: seq<DailySchedule>, today: int, now: int)
    returns (choice: Option<(string, Slot)>)
    ensures choice == FirstPractitionerWithSlot(appointments, schedules, practitioners, today, now)
  {
    ghost var pick := FreeSlotOf(appointments, schedules, today, now);
    var i := 0;
    while i < |practitioners|
      invariant 0 <= i <= |practitioners|
      invariant FirstPicked(practitioners, pick) == FirstPicked(practitioners[i..], pick)
    {
      FirstPickedStep(practitioners, pick, i);
      var slots := FindAvailableSlots(appointments, schedules, practitioners[i].staffId, today, DefaultDuration);
      var first := FirstSlotFrom(slots, now);
      assert first == pick(practitioners[i].staffId);
      if first.Some? {
        return Some((practitioners[i].staffId, first.value));
      }
      i := i + 1;
    }
    assert practitioners[i..] == [];
    return None;
  }

  /** One step of the for/else: the practitioner at i is taken when its pick succeeds, else the search goes on. */
  lemma FirstPickedStep(practitioners: seq<DailySchedule>, pick: string -> Option<Slot>, i: nat)
    requires i < |practitioners|
    ensures FirstPicked(practitioners[i..], pick) ==
      if pick(practitioners[i].staffId).Some? then Some((practitioners[i].staffId, pick(practitioners[i].staffId).value))
      else FirstPicked(practitioners[i + 1..], pick)
  {
    assert practitioners[i..][0] == practitioners[i];
    assert practitioners[i..][1..] == practitioners[i + 1..];
  }

  /** The document create_walk_in_appointment inserts: a confirmed walk-in for the chosen slot, stamped now. */
  function WalkInRecord(id: string, patientId: string, c: (string, Slot), today: int, reason: string, clock: int)
    : (a: Appointment)
    ensures a.appointmentType == WalkIn && a.status == Confirmed && a.isWalkIn
    ensures a.staffId == c.0 && a.scheduledDate == today
    ensures a.scheduledStart == c.1.startTime && a.scheduledEnd == c.1.endTime
    ensures a.walkInArrivalTime == Some(clock)
  {
    Appointment(id, patientId, c.0, today, c.1.startTime, c.1.endTime, WalkIn, Confirmed, reason, true, Some(clock),
                clock, clock)
  }

  // ---------------------------------------------------------------------
  // Booked-slot capacity and weekly coverage
  // ---------------------------------------------------------------------

  /** The new booked_slots update_booked_slots would write, or None when it would exceed total_slots. */
  function BookedAfter(s: DailySchedule, increment: int): (r: Option<int>)
    ensures r.Some? <==> s.bookedSlots + increment <= s.totalSlots
    ensures r.Some? ==> r.value == s.bookedSlots + increment && r.value <= s.totalSlots
  {
    if s.bookedSlots + increment <= s.totalSlots then Some(s.bookedSlots + increment) else None
  }

  /** Accepted increments never take a schedule past its capacity. */
  lemma {:induction false} IncrementsStayWithinCapacity(s: DailySchedule, increments: seq<int>)
    requires s.bookedSlots <= s.totalSlots
    ensures ApplyIncrements(s, increments).bookedSlots <= s.totalSlots
    ensures ApplyIncrements(s, increments).totalSlots == s.totalSlots
    decreases |increments|
  {
    if increments != [] {
      var b := BookedAfter(s, increments[0]);
      var next := if b.Some? then s.(bookedSlots := b.value) else s;
      IncrementsStayWithinCapacity(next, increments[1..]);
    }
  }

  /** A schedule after a run of update_booked_slots calls, the rejected ones leaving it unchanged. */
  function ApplyIncrements(s: DailySchedule, increments: seq<int>): DailySchedule
    decreases |increments|
  {
    if increments == [] then s
    else
      var b := BookedAfter(s, increments[0]);
      ApplyIncrements(if b.Some? then s.(bookedSlots := b.value) else s, increments[1..])
  }

  /** `find_coverage_for_date` looks up the coverage of `date - date.weekday()`, the Monday of its week. */
  function CoverageWeekStart(date: int): (m: int)
    ensures Calendar.Weekday(m) == 0 && m <= date < m + 7
  {
    Calendar.MondayOf(date)
  }

  /** find_by_week: the first coverage document with that week_start. */
  function FindByWeek(coverages: seq<WeeklyCoverage>, weekStart: int): (r: Option<WeeklyCoverage>)
    ensures r.Some? ==> r.value in coverages && r.value.weekStart == weekStart
    ensures r.None? ==> forall j :: 0 <= j < |coverages| ==> coverages[j].weekStart != weekStart
  {
    if coverages == [] then None
    else if coverages[0].weekStart == weekStart then Some(coverages[0])
    else FindByWeek(coverages[1..], weekStart)
  }

  function FindCoverageForDate(coverages: seq<WeeklyCoverage>, date: int): (r: Option<WeeklyCoverage>)
    ensures r.Some? ==> (r.value in coverages && r.value.weekStart <= date < r.value.weekStart + 7 &&
                         Calendar.Weekday(r.value.weekStart) == 0)
  {
    FindByWeek(coverages, CoverageWeekStart(date))
  }

  /** Specification of get_on_call_staff: the first on-call assignment dated that day in that week's coverage. */
  function FirstAssignmentOn(assignments: seq<OnCallAssignment>, date: int): (r: Option<OnCallAssignment>)
    ensures r.Some? ==> r.value.date == date
    ensures r.Some? ==> exists k :: FirstOnAt(assignments, date, k, r.value)
    ensures r.None? <==> forall j :: 0 <= j < |assignments| ==> assignments[j].date != date
  {
    if assignments == [] then None
    else if assignments[0].date == date then (assert FirstOnAt(assignments, date, 0, assignments[0]); Some(assignments[0]))
    else
      var r := FirstAssignmentOn(assignments[1..], date);
      if r.Some? then
        var k :| FirstOnAt(assignments[1..], date, k, r.value);
        assert FirstOnAt(assignments, date, k + 1, r.value);
        r
      else r
  }

  /** `a` sits at index k and no earlier assignment is dated `date`. */
  predicate FirstOnAt(assignments: seq<OnCallAssignment>, date: int, k: int, a: OnCallAssignment)
  {
    0 <= k < |assignments| && assignments[k] == a && forall j :: 0 <= j < k ==> assignments[j].date != date
  }

  /** get_on_call_staff: look up the week's coverage, then scan its on-call assignments. */
  method GetOnCallStaff(coverages: seq<WeeklyCoverage>, date: int) returns (r: Option<OnCallAssignment>)
    ensures FindCoverageForDate(coverages, date).None? ==> r.None?
    ensures FindCoverageForDate(coverages, date).Some? ==>
      r == FirstAssignmentOn(FindCoverageForDate(coverages, date).value.onCallAssignments, date)
  {
    var coverage := FindCoverageForDate(coverages, date);
    if coverage.Some? {
      var assignments := coverage.value.onCallAssignments;
      var i := 0;
      while i < |assignments|
        invariant 0 <= i <= |assignments|
        invariant forall j :: 0 <= j < i ==> assignments[j].date != date
      {
        if assignments[i].date == date {
          assert FirstAssignmentOn(assignments, date) == Some(assignments[i]) by {
            FirstAssignmentUnique(assignments, date, i);
          }
          return Some(assignments[i]);
        }
        i := i + 1;
      }
    }
    return None;
  }

  lemma {:induction false} FirstAssignmentUnique(assignments: seq<OnCallAssignment>, date: int, i: nat)
    requires i < |assignments| && assignments[i].date == date
    requires forall j :: 0 <= j < i ==> assignments[j].date != date
    ensures FirstAssignmentOn(assignments, date) == Some(assignments[i])
  {
    if i > 0 {
      FirstAssignmentUnique(assignments[1..], date, i - 1);
    }
  }

  // ---------------------------------------------------------------------
  // The stored collections
  // ---------------------------------------------------------------------

  /** The walk-in IDs are the IDs create issues in the Appointment collection. */
  lemma AppointmentIdIsAutoId(n: nat)
    ensures BaseRepo.AutoIdFrom(AppointmentIdPrefix, n) == BaseRepo.AutoId(AppointmentSequence, n)
  {
    AppointmentPrefix();
  }

  lemma AppointmentPrefix()
    ensures BaseRepo.IdPrefix(AppointmentSequence) == AppointmentIdPrefix
  {
    var s := AppointmentSequence;
    BaseRepo.IdPrefixOfLong(s);
    assert s[0] == 'A' && s[1] == 'p' && s[2] == 'p';
    assert Text.ToUpperChar('p') == 'P' && Text.ToUpperChar('A') == 'A';
  }

  /**
   * The state after create_walk_in_appointment booked choice `c`: the
   * appointment counter advanced by one, and the walk-in record under the
   * "APP" ID of the new counter value appended.
   */
  predicate WalkInBooked(before: seq<Appointment>, countersBefore: map<string, nat>, after: seq<Appointment>,
                         countersAfter: map<string, nat>, a: Appointment, patientId: string, c: (string, Slot),
                         today: int, reason: string, clock: int)
  {
    var n := Documents.CounterValue(countersBefore, AppointmentSequence) + 1;
    countersAfter == countersBefore[AppointmentSequence := n] &&
    a == WalkInRecord(BaseRepo.AutoIdFrom(AppointmentIdPrefix, n), patientId, c, today, reason, clock) &&
    after == before + [a]
  }

  /** The Appointment, PractitionerDailySchedule and WeeklyCoverage collections and the counters. */
  class AppointmentStore {
    var appointments: seq<Appointment>
    var schedules: seq<DailySchedule>
    var coverages: seq<WeeklyCoverage>
    var counters: map<string, nat>

    constructor ()
      ensures appointments == [] && schedules == [] && coverages == [] && counters == map[]
    {
      appointments := [];
      schedules := [];
      coverages := [];
      counters := map[];
    }

    /**
     * create_walk_in_appointment: books the chosen slot as a confirmed
     * walk-in for today through create (ID "APP" + counter), or changes
     * nothing and returns None.
     */
    method CreateWalkInAppointment(patientId: string, reason: string, preferredStaffId: Option<string>,
                                   today: int, now: int, clock: int)
      returns (created: Option<Appointment>)
      modifies this
      ensures schedules == old(schedules) && coverages == old(coverages)
      ensures created.Some? <==> WalkInChoice(old(appointments), old(schedules), preferredStaffId, today, now).Some?
      ensures created.None? ==> appointments == old(appointments) && counters == old(counters)
      ensures created.Some? ==>
        WalkInBooked(old(appointments), old(counters), appointments, counters, created.value, patientId,
                     WalkInChoice(old(appointments), old(schedules), preferredStaffId, today, now).value, today, reason, clock)
    {
      var choice := ChooseWalkInSlot(appointments, schedules, preferredStaffId, today, now);
      if choice.None? {
        return None;
      }
      var n := Documents.CounterValue(counters, AppointmentSequence) + 1;
      counters := counters[AppointmentSequence := n];
      var a := WalkInRecord(BaseRepo.AutoIdFrom(AppointmentIdPrefix, n), patientId, choice.value, today, reason, clock);
      appointments := appointments + [a];
      created := Some(a);
    }

    /**
     * update_booked_slots: with a schedule for that staff member and date and
     * room for the increment, writes the new booked_slots (and updated_at);
     * otherwise returns None and writes nothing.
     */
    method UpdateBookedSlots(staffId: string, date: int, increment: int, clock: int)
      returns (r: Option<DailySchedule>)
      modifies this
      ensures appointments == old(appointments) && coverages == old(coverages) && counters == old(counters)
      ensures var found := FindSchedule(old(schedules), staffId, date);
        (found.None? || BookedAfter(old(schedules)[found.value], increment).None?) ==>
          r.None? && schedules == old(schedules)
      ensures var found := FindSchedule(old(schedules), staffId, date);
        found.Some? && BookedAfter(old(schedules)[found.value], increment).Some? ==>
          var s := old(schedules)[found.value];
          r == Some(s.(bookedSlots := s.bookedSlots + increment, updatedAt := clock)) &&
          schedules == old(schedules)[found.value := r.value]
    {
      var found := FindSchedule(schedules, staffId, date);
      if found.Some? {
        var s := schedules[found.value];
        var newBooked := s.bookedSlots + increment;
        if newBooked <= s.totalSlots {
          var updated := s.(bookedSlots := newBooked, updatedAt := clock);
          schedules := schedules[found.value := updated];
          return Some(updated);
        }
      }
      return None;
    }

    /** block_time_slot: pushes the slot onto blocked_slots of that schedule, or returns None when there is none. */
    method BlockTimeSlot(staffId: string, date: int, startTime: int, endTime: int, reason: string)
      returns (r: Option<DailySchedule>)
      modifies this
      ensures appointments == old(appointments) && coverages == old(coverages) && counters == old(counters)
      ensures var found := FindSchedule(old(schedules), staffId, date);
        found.None? ==> r.None? && schedules == old(schedules)
      ensures var found := FindSchedule(old(schedules), staffId, date);
        found.Some? ==>
          var s := old(schedules)[found.value];
          r == Some(s.(blockedSlots := s.blockedSlots + [BlockedSlot(startTime, endTime, reason)])) &&
          schedules == old(schedules)[found.value := r.value]
    {
      var found := FindSchedule(schedules, staffId, date);
      if found.None? {
        return None;
      }
      var s := schedules[found.value];
      var updated := s.(blockedSlots := s.blockedSlots + [BlockedSlot(startTime, endTime, reason)]);
      schedules := schedules[found.value := updated];
      return Some(updated);
    }
  }
}
