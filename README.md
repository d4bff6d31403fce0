# Clinic backend: a verified model

This project models the core of a clinic-management backend in Dafny. The backend stores its records in a document
database and is written in two generations.

- **The first backend** has HTTP handlers and small document helpers. It covers patients, staff, appointments, walk-ins,
  on-call coverage, invoices and monthly statements.
- **The second backend** has repositories over a shared base repository, plus request and response schemas. It covers
  appointment slots and walk-ins, billing, prescriptions, lab orders, recovery stays, visits, staff roles, patients,
  passwords and user roles.

The model works as follows:

- A stored document is a map from field names to values (`Documents.Value`).
- A collection is a class whose `docs` sequence the operations reassign.
- The counters collection that issues sequence numbers is a map from names to naturals.
- Handlers and repository methods that change the store are methods with `modifies` clauses. Their postconditions give
  the whole new state.
- Selection, formatting and validation logic is written as functions. Lemmas prove the properties the code promises:
  - the three appointment-conflict rules agree;
  - slots lie on the grid and avoid bookings;
  - at most one primary role per staff member;
  - full names stay consistent;
  - refills never go negative;
  - IDs are fresh and injective;
  - serial numbers read back;
  - postal codes are formatted idempotently;
  - password rules hold;
  - invoice status follows the payments.

Units and conventions:

- Times of day are minutes since midnight.
- Dates are Python proleptic-Gregorian ordinals, so `date(1, 1, 1)` is day 1.
- A date-only value is stored as the stamp of its midnight. A date-time is a minute count on the same scale.
- Money is integer cents. Percentages are integer hundredths of a percent.
- `now`, `today` and the current year are parameters.

Every member listed below carries its own contract. A row's source cell gives the lines the member models.

## Model

| member | source | states |
|---|---|---|
| Documents.FindOne | backend/services/patient.py:55 | the result is a stored matching document, and None exactly when no document matches |
| Documents.SetFields | backend/services/patient.py:170-174 | `$set` replaces or adds the update's fields and keeps every other field |
| Documents.WithoutNulls | backend2/repositories/patient_repository.py:224 | a key is kept exactly when its value is not None, with its value |
| Documents.WithoutNullsExtend | backend2/repositories/patient_repository.py:224 | one more argument reaches the update exactly when it is not None |
| Documents.FindSortedSpec | backend/services/patient.py:15 | a sorted find returns exactly the matching documents, each as often as stored, in key order |
| Documents.DescendingKeysPreorder | backend2/repositories/base_repository.py:150-153 | a sort specification of keys all descending is a total preorder |
| Documents.Collection.FindOneAndSet | backend/services/patient.py:170-174 | the first match gets the `$set` and is returned after the update; with no match nothing changes and None is returned |
| Documents.Collection.UpdateOneSet | backend/patient2.py:97-100 | the first match gets the `$set`; the result is whether a document matched |
| Documents.Collection.UpsertOneSet | backend/staff2.py:69-75 | the first match gets the `$set`; with no match a document holding the filter's field and the update is inserted |
| Documents.Collection.DeleteOne | backend/patient2.py:114-118 | true exactly when a match existed, and then only the first match is removed |
| Documents.NextIdFresh | backend/database.py:10-25 | while no stored ID is above its counter, the next counter value is an ID no stored document has, and storing it keeps that property |
| DateText.ParseYmd | backend/patient2.py:19 | a parsed date exists in the calendar and has a year from 1 to 9999 |
| DateText.ParseFormatYmd | backend/patient2.py:19 | every existing date written YYYY-MM-DD parses back to itself |
| DateText.RejectsMissingSeparator | backend/patient2.py:19 | a text without a dash after the four-digit year is rejected |
| DateText.ParseIsoDate | backend/clinic_api/services/weekly_coverage.py:34 | an accepted text is ten characters with dashes at positions 4 and 7 and names an existing day of years 1 to 9999 |
| DateText.ParseIsoFormat | backend/clinic_api/services/weekly_coverage.py:20-34 | `date.fromisoformat(d.isoformat())` is d for every date of years 1 to 9999 |
| Calendar.Weekday | backend2/repositories/appointment_repository.py:413 | weekday numbers run from 0 (Monday) to 6 (Sunday) |
| Calendar.MondayOf | backend2/repositories/appointment_repository.py:413 | the result is a Monday and the given day lies in the seven days starting there |
| Calendar.MondayOfWeekDays | backend2/repositories/appointment_repository.py:413 | every day of a week maps to that week's Monday |
| Calendar.FirstOfNextMonth | backend/clinic_api/services/reports.py:143 | the first of the next month is a valid date after the first of the month, December rolling into January |
| Calendar.MonthWindowExact | backend/clinic_api/services/reports.py:142-144 | a date lies in [first of month, first of next month) exactly when it is in that month |
| Calendar.PrevDay | backend2/repositories/billing_repository.py:312-315 | the day before a valid date is a valid earlier date |
| Calendar.PrevDayAdjacent | backend2/repositories/billing_repository.py:312-315 | a date is before d exactly when it is at or before the day before d |
| Sorting.SortBySorted | backend/services/patient.py:15 | the sort orders its result |
| Sorting.SortBy | backend/services/patient.py:15 | the sort keeps the length and the multiset of elements |
| Sorting.Filter | backend/services/patient.py:15 | the filter keeps exactly the elements that pass, in order |
| Sorting.FilterAppend | backend/services/patient.py:15 | filtering distributes over appending one element |
| Text.Upper | backend2/repositories/base_repository.py:70 | each character is mapped to upper case, keeping the length |
| Text.Digits | backend2/repositories/patient_repository.py:78 | the result keeps only digits and is no longer than the input |
| Text.DigitsOfDigitString | backend2/repositories/patient_repository.py:78 | normalising a digit string changes nothing |
| Text.NatToString | backend2/repositories/base_repository.py:70 | str(n) is a non-empty digit string, one digit long exactly when n < 10 |
| Text.ParseNatToString | backend2/repositories/base_repository.py:70 | str(n) reads back as n |
| Text.ZeroFill | backend2/repositories/base_repository.py:70 | zfill pads on the left with zeros up to the width and keeps the text as its suffix |
| Text.ZeroFillNatInjective | backend2/repositories/base_repository.py:70 | different counters give different zero-filled texts |
| Text.ParseZeroFill | backend2/repositories/base_repository.py:70 | a zero-filled counter is all digits and reads back as the counter |
| AppointmentRepo.StaffAppointments | backend2/repositories/appointment_repository.py:75-97 | find_many caps the day's bookings at 100, and returns all of them when there are at most 100 |
| AppointmentRepo.StaffAppointmentsSpec | backend2/repositories/appointment_repository.py:75-97 | every appointment returned is a stored non-cancelled one of that staff member and date; they are in scheduled_start order, drawn without repetition from those bookings, all of them when there are at most 100, and a booking left out starts no earlier than any returned one |
| BaseRepo.TakeSortedSpec | backend2/repositories/base_repository.py:150-155 | a sorted page from the start of a sorted query is sorted, drawn without repetition from the matches, all of them when they fit, and no match left out sorts before a returned one |
| BaseRepo.FindManySortedSpec | backend2/repositories/base_repository.py:148-155 | find_many with no skip, limit 100 and a sort order is sorted, drawn without repetition from the matches, all of them when they fit, and no match left out sorts before a returned one |
| AppointmentRepo.FindSchedule | backend2/repositories/appointment_repository.py:454-463 | find_by_staff_and_date returns the first schedule of that staff member and date, and None only when there is none |
| AppointmentRepo.SlotsFromSound | backend2/repositories/appointment_repository.py:155-189 | every slot the candidate loop produces is on the 10-minute grid from the shift start, lasts `duration` minutes, ends by the shift end, is free, and the slots are strictly ascending |
| AppointmentRepo.GridStep | backend2/repositories/appointment_repository.py:159-189 | a start on the grid from the next candidate is on the grid from the current one |
| AppointmentRepo.SlotsFromComplete | backend2/repositories/appointment_repository.py:159-189 | every free grid start whose slot ends by the shift end is returned |
| AppointmentRepo.AvailableSlotsCharacterised | backend2/repositories/appointment_repository.py:126-191 | no schedule or an unavailable one gives []; otherwise the result is exactly the grid slots of the shift that are free of the breaks and of the first 100 bookings by start, ascending |
| AppointmentRepo.AvailableSlotAvoidsBookings | backend2/repositories/appointment_repository.py:164-170 | a returned slot overlaps none of the first 100 non-cancelled bookings by start of that staff member and date under the half-open test |
| AppointmentRepo.AvailableSlotAvoidsAllWhenFew | backend2/repositories/appointment_repository.py:90-97 | with at most 100 bookings that day, a returned slot overlaps none of them |
| AppointmentRepo.BlockedSlotsIgnored | backend2/repositories/appointment_repository.py:173-179 | changing a schedule's blocked_slots never changes the slots returned: only break_slots are consulted |
| AppointmentRepo.FindScheduleSameKeys | backend2/repositories/appointment_repository.py:454-463 | the schedule lookup depends only on the staff ID and date of each schedule |
| AppointmentRepo.ScanAppointments | backend2/repositories/appointment_repository.py:163-170 | the inner loop with its break reports the slot free exactly when it overlaps no booked appointment |
| AppointmentRepo.ScanBreaks | backend2/repositories/appointment_repository.py:172-179 | the break loop keeps the slot free exactly when it was free and overlaps no break |
| AppointmentRepo.FindAvailableSlots | backend2/repositories/appointment_repository.py:126-191 | the method returns exactly the characterised slot list |
| AppointmentRepo.CollectSlots | backend2/repositories/appointment_repository.py:155-191 | the 10-minute while loop returns exactly the reference slot list for the shift |
| AppointmentRepo.CheckAppointmentConflict | backend2/repositories/appointment_repository.py:193-230 | true exactly when one of the first 100 non-cancelled appointments of that staff member and date, other than the excluded ID, overlaps [start, end) |
| AppointmentRepo.ConflictSeesAllWhenFew | backend2/repositories/appointment_repository.py:214-230 | with at most 100 candidates, any overlapping candidate makes the check report a conflict |
| AppointmentRepo.FirstSlotFrom | backend2/repositories/appointment_repository.py:256-277 | the first slot starting at or after now, None exactly when every slot starts before now |
| AppointmentRepo.FirstPickedSpec | backend2/repositories/appointment_repository.py:271-281 | a for/else over practitioners gives None exactly when every pick fails, and otherwise the pick of the first practitioner whose pick succeeds |
| AppointmentRepo.FirstPractitionerWithSlotSpec | backend2/repositories/appointment_repository.py:271-281 | the for/else picks the first practitioner in list order with a slot at or after now, and gives None exactly when none has one |
| AppointmentRepo.WalkInChoiceSpec | backend2/repositories/appointment_repository.py:253-281 | a preferred practitioner gets that practitioner's first slot at or after now or None, with no fallback; otherwise the first walk-in practitioner with such a slot; the booked slot is a slot of that practitioner's day free of the breaks and of the first 100 bookings by start |
| AppointmentRepo.ChooseWalkInSlot | backend2/repositories/appointment_repository.py:253-281 | the imperative choice returns exactly the specified walk-in choice |
| AppointmentRepo.ScanPractitioners | backend2/repositories/appointment_repository.py:271-281 | the for/else loop over the walk-in practitioners returns exactly the first practitioner with a slot at or after now, or None |
| AppointmentRepo.FirstPickedStep | backend2/repositories/appointment_repository.py:271-279 | one pass of the for/else takes the current practitioner when it has a slot and otherwise goes on with the rest |
| AppointmentRepo.WalkInRecord | backend2/repositories/appointment_repository.py:283-295 | the inserted appointment is a confirmed WALK_IN with is_walk_in set, for the chosen practitioner, today and the slot's bounds, with walk_in_arrival_time the clock |
| AppointmentRepo.BookedAfter | backend2/repositories/appointment_repository.py:499-503 | the increment is accepted exactly when booked + increment stays within total_slots |
| AppointmentRepo.IncrementsStayWithinCapacity | backend2/repositories/appointment_repository.py:497-507 | any sequence of accepted increments keeps booked_slots within total_slots |
| AppointmentRepo.CoverageWeekStart | backend2/repositories/appointment_repository.py:411-414 | `date - weekday` is a Monday at most six days before the date |
| AppointmentRepo.FindByWeek | backend2/repositories/appointment_repository.py:407-409 | the first coverage with that week_start, None when there is none |
| AppointmentRepo.FindCoverageForDate | backend2/repositories/appointment_repository.py:411-414 | a found coverage starts on the Monday of the date's week |
| AppointmentRepo.FirstAssignmentOn | backend2/repositories/appointment_repository.py:436-441 | the first on-call assignment dated that day, None exactly when none is |
| AppointmentRepo.GetOnCallStaff | backend2/repositories/appointment_repository.py:432-441 | None without a coverage for the week; otherwise the first assignment of that day |
| AppointmentRepo.FirstAssignmentUnique | backend2/repositories/appointment_repository.py:437-439 | the assignment returned is the earliest one with that date |
| AppointmentRepo.AppointmentStore.constructor | backend2/repositories/appointment_repository.py:18-19 | a new store holds no appointments, schedules, coverages or counters |
| AppointmentRepo.AppointmentStore.CreateWalkInAppointment | backend2/repositories/appointment_repository.py:232-297 | with a choice, exactly one walk-in record is appended with ID "APP" + the next counter value and the clock as walk_in_arrival_time; without one nothing changes and None is returned |
| AppointmentRepo.AppointmentIdIsAutoId | backend2/repositories/appointment_repository.py:18-31 | the walk-in IDs "APP" + the zero-padded counter are the IDs create makes for the Appointment collection |
| AppointmentRepo.AppointmentStore.UpdateBookedSlots | backend2/repositories/appointment_repository.py:490-507 | with a schedule and room, booked_slots becomes booked + increment and is returned; otherwise None and no write |
| AppointmentRepo.AppointmentStore.BlockTimeSlot | backend2/repositories/appointment_repository.py:521-540 | the slot is appended to the first matching schedule's blocked_slots; without a schedule None and no write |
| Intervals.OverlapsSymmetric | backend2/repositories/appointment_repository.py:227 | the half-open overlap test `not (end <= s or start >= e)` is symmetric in its two ranges |
| Intervals.TouchingDoNotOverlap | backend2/repositories/appointment_repository.py:227 | ranges that only touch, one ending where the other starts, do not overlap |
| Intervals.ThreeCaseIsOverlap | backend/clinic_api/services/stored_procedures_aggregation.py:395-411 | on non-empty ranges the three-case conflict test agrees with the half-open overlap test |
| Intervals.ThreeCaseDiffersOnEmptyRange | backend/clinic_api/services/stored_procedures_aggregation.py:397-400 | with an empty new range the three-case test reports a conflict where the half-open test sees none |
| Intervals.SameStartImpliesOverlap | backend/services/appointment.py:154-158 | on non-empty ranges the identical-start rule is implied by overlap, so it is no stronger |
| Intervals.OverlapWithoutSameStart | backend/services/appointment.py:154-158 | overlapping bookings with different starts exist, so the identical-start rule is strictly weaker |
| LegacyAppointment.CoverageRecord | backend/appointment.py:12-18 | the stored coverage document has exactly the five fields, Notes being None when not given |
| LegacyAppointment.ScheduleRecord | backend/appointment.py:31-38 | the stored schedule document has exactly the six fields |
| LegacyAppointment.InsertWeeklyCoverage | backend/appointment.py:5-20 | the Coverage_Id counter advances by one and exactly one record with that ID is appended |
| LegacyAppointment.InsertPractitionerSchedule | backend/appointment.py:24-40 | the Sched_Id counter advances by one and exactly one record with that ID is appended |
| LegacyAppointment.CoverageUpdateFields | backend/appointment.py:56-64 | the coverage update holds only the four named fields, never Coverage_Id, and no None value |
| LegacyAppointment.CoverageUpdateValues | backend/appointment.py:56-64 | each argument is in the update exactly when it is not None, with its own value |
| LegacyAppointment.ScheduleUpdateFields | backend/appointment.py:90-100 | the schedule update holds only the five named fields, never Sched_Id, and no None value |
| LegacyAppointment.ScheduleUpdateValues | backend/appointment.py:90-100 | each argument is in the update exactly when it is not None, with its own value |
| LegacyAppointment.EmptyUpdateKeepsRecord | backend/appointment.py:66-110 | an update with no argument given leaves the coverage record or schedule row unchanged |
| LegacyAppointment.UpdateWeeklyCoverage | backend/appointment.py:44-76 | False and no write for an unknown Coverage_Id; otherwise True, with the given fields `$set` on the first match |
| LegacyAppointment.UpdatePractitionerSchedule | backend/appointment.py:78-112 | False and no write for an unknown Sched_Id; otherwise True, with the given fields `$set` on the first match |
| StoredProcedures.CalculatePatientAge | backend/clinic_api/services/stored_procedures_aggregation.py:45-90 | None for an empty or unparsable date of birth; otherwise the number of completed years: the birthday of that year is reached and the next one is not |
| StoredProcedures.AgeUnique | backend/clinic_api/services/stored_procedures_aggregation.py:82-86 | the completed-years count is unique |
| StoredProcedures.AgeNonNegative | backend/clinic_api/services/stored_procedures_aggregation.py:82-86 | someone born on or before today has a non-negative age |
| StoredProcedures.ConflictCount | backend/clinic_api/services/stored_procedures_aggregation.py:391-415 | the `$count` of conflicting appointments is at most the number of appointments |
| StoredProcedures.ConflictCountZero | backend/clinic_api/services/stored_procedures_aggregation.py:414-420 | the count is zero exactly when no appointment conflicts |
| StoredProcedures.IsAppointmentAvailable | backend/clinic_api/services/stored_procedures_aggregation.py:375-424 | False when an argument is falsy or unreadable as a date-time; otherwise True exactly when no appointment of the practitioner, whatever its status, conflicts |
| StoredProcedures.AvailableIsNoOverlap | backend/clinic_api/services/stored_procedures_aggregation.py:392-411 | for non-empty ranges, availability is exactly "no appointment of that practitioner overlaps [start, end)" |
| StoredProcedures.ValidateAppointment | backend/clinic_api/services/stored_procedures_aggregation.py:566-597 | a missing or inactive practitioner is invalid, then a conflict is invalid, else valid with "first last" as the name |
| AppointmentService.Lookup | backend/services/appointment.py:12-42 | the value of the field in the first record with the key, Null when no record matches |
| AppointmentService.StaffIdByName | backend/services/appointment.py:12-18 | None when no staff member has that full name; a non-None ID is the staff_id of a stored member with that name |
| AppointmentService.IdByNameSound | backend/services/appointment.py:12-26 | a truthy ID found by full name is the ID of a stored record with that full name |
| AppointmentService.NameById | backend/services/appointment.py:28-42 | the fallback text when no record has that ID; otherwise the full name of a stored record with that ID |
| AppointmentService.Format | backend/services/appointment.py:44-67 | the practitioner and patient names are those of stored records with the appointment's IDs, or "Unknown Practitioner" / "Unknown Patient" when there is none; patient_details defaults to "" |
| AppointmentService.FormatAll | backend/services/appointment.py:44-72 | one formatted entry per appointment, in the same order |
| AppointmentService.FormatCursor | backend/services/appointment.py:90-92 | the cursor loop (also that of the practitioner schedule) yields the formatted appointments in cursor order |
| AppointmentService.MasterScheduleSpec | backend/services/appointment.py:84-88 | the master schedule is the date's appointments, each as often as stored, in (start_time, staff_id) order |
| AppointmentService.HandleGetMasterSchedule | backend/services/appointment.py:74-98 | answers 200 with the formatted master schedule of the date |
| AppointmentService.PractitionerScheduleSpec | backend/services/appointment.py:113-117 | the practitioner view is exactly that practitioner's appointments of the date, by start_time |
| AppointmentService.HandleGetPractitionerSchedule | backend/services/appointment.py:100-128 | 404 with nothing when the name does not resolve, else 200 with that practitioner's formatted schedule |
| AppointmentService.SameStartIsFindOne | backend/services/appointment.py:153-158 | the conflict query finds a document exactly when an appointment of the practitioner has that date and start |
| AppointmentService.AddDecideSpec | backend/services/appointment.py:138-160 | a booking is accepted exactly when all fields are present, both names resolve and no appointment of the practitioner has that date and exact start |
| AppointmentService.HandleAddAppointment | backend/services/appointment.py:130-190 | a refusal writes nothing; an acceptance advances appointment_id by one and appends the scheduled appointment with that ID, returning it formatted |
| AppointmentService.CheckAddAppointment | backend/services/appointment.py:138-160 | the handler's checks, made in order, reach exactly the decision AddDecide defines |
| AppointmentService.ApplyAdd | backend/services/appointment.py:162-188 | after the checks: a booking advances appointment_id, inserts the scheduled appointment under the new value and returns it formatted with code 201; any other decision writes nothing |
| AppointmentService.BookAppointment | backend/services/appointment.py:162-183 | an accepted booking takes the next appointment_id, appends the scheduled appointment under it and returns that appointment formatted |
| AppointmentService.AddedIdFresh | backend/services/appointment.py:163-166 | the new appointment's ID differs from every stored one while no stored ID exceeds the counter, and the bound is kept |
| AppointmentService.FirstFreeRow | backend/services/appointment.py:233-238 | the first row whose (staff_id, slot_start) is not taken, or None when every row is taken |
| AppointmentService.CollectTaken | backend/services/appointment.py:222-231 | the set built is the (staff_id, start_time) pairs of that date's appointments |
| AppointmentService.FindFreeRow | backend/services/appointment.py:233-238 | the loop with break finds the first free row |
| AppointmentService.FirstFreeRowIs | backend/services/appointment.py:233-238 | a free row with every earlier row taken is the one found |
| AppointmentService.FirstFreeRowNone | backend/services/appointment.py:240-241 | with every row taken no row is found |
| AppointmentService.WalkInRowFree | backend/services/appointment.py:213-238 | the row a walk-in takes is a walk-in row of the date whose practitioner and start no appointment of the date has |
| AppointmentService.HandleAddWalkIn | backend/services/appointment.py:192-272 | refusals write nothing; a row without its fields still advances the counter; otherwise the walk-in appointment is appended with the next ID |
| AppointmentService.CheckAddWalkIn | backend/services/appointment.py:200-241 | the handler's checks, made in order, reach exactly the decision WalkInDecide defines |
| AppointmentService.ApplyWalkIn | backend/services/appointment.py:243-272 | after the checks: the counter advances before the row's fields are read; only a complete row is inserted and returned formatted, with code 201 |
| AppointmentService.BookWalkIn | backend/services/appointment.py:243-265 | a complete row takes the next appointment_id, appends the walk-in appointment with the row's practitioner and times and returns it formatted |
| AppointmentService.InsertWalkIn | backend/services/appointment.py:246-263 | the walk-in document under the given ID is appended and returned formatted |
| AppointmentService.CopyPresentSpec | backend/services/appointment.py:301-304 | each listed field present in the request is copied with its value, and nothing else is added |
| AppointmentService.UpdateFieldsSpec | backend/services/appointment.py:285-304 | the update holds only the resolved IDs and the four direct fields with the request's values, never appointment_id |
| AppointmentService.HandleUpdateAppointment | backend/services/appointment.py:274-329 | 400 for empty data or no valid field, 404 for an unresolved name or unknown ID, else 200 with the fields set on the first match and no conflict check |
| AppointmentService.HandleDeleteAppointment | backend/services/appointment.py:331-352 | 404 and no change for an unknown ID, else 200 with the first match removed |
| AppointmentSchemas.FromMinutes | backend2/repositories/appointment_repository.py:193-230 | the time of day a whole number of minutes after midnight, with no seconds |
| AppointmentSchemas.TimeLtIsEarlier | backend2/schemas/appointment.py:77 | the comparison of valid times is the comparison of their seconds since midnight |
| AppointmentSchemas.ValidateTimeSlot | backend2/schemas/appointment.py:67-72 | accepted values come back unchanged; refusals carry the 10-minute message |
| AppointmentSchemas.TimeSlotIsTenMinuteGrid | backend2/schemas/appointment.py:67-72 | a whole-minute start is accepted exactly when it lies on the 10-minute grid from midnight |
| AppointmentSchemas.OfferedSlotsPassTimeSlot | backend2/repositories/appointment_repository.py:214-230 | every slot offered from a shift starting on a 10-minute boundary passes validate_time_slot |
| AppointmentSchemas.ValidateEndTime | backend2/schemas/appointment.py:74-80 | accepted values come back unchanged; refusals carry the end-time message |
| AppointmentSchemas.EndTimeMeansPositiveLength | backend2/schemas/appointment.py:74-80 | with both times valid, the end is accepted exactly when the appointment lasts a positive time |
| AppointmentSchemas.ValidateRecurrenceEnd | backend2/schemas/appointment.py:82-88 | accepted exactly when the end or the date is missing or the end is after the date |
| AppointmentSchemas.ValidateMonday | backend2/schemas/appointment.py:248-254 | accepted values come back unchanged; refusals carry the Monday message |
| AppointmentSchemas.MondayIsCoverageWeekStart | backend2/schemas/appointment.py:248-254 | a week start is accepted exactly when it is its own Monday, so every looked-up week start is accepted |
| AppointmentSchemas.CreateRequestErrors | backend2/schemas/appointment.py:47-88 | at most one error per validated time field |
| AppointmentSchemas.CreateRequestAccepted | backend2/schemas/appointment.py:47-88 | the request is accepted exactly when its start is on the grid, a given end follows it and a given recurrence end follows the date |
| AppointmentSchemas.OffGridStartHidesEndError | backend2/schemas/appointment.py:74-80 | an off-grid start is reported alone, hiding an end that precedes it |
| AppointmentSchemas.CheckBound | backend2/schemas/appointment.py:65 | a `Field(ge, le)` bound accepts exactly the values within it, unchanged |
| AppointmentSchemas.ValidateWalkInDuration | backend2/schemas/appointment.py:128 | estimated_duration_minutes is accepted exactly from 10 to 60 minutes, unchanged |
| AppointmentSchemas.ValidateSlotDuration | backend2/schemas/appointment.py:194 | duration_minutes is accepted exactly from 10 to 120 minutes, unchanged |
| AppointmentSchemas.ValidateMaxWalkIns | backend2/schemas/appointment.py:281 | max_walk_ins is accepted when absent or between 0 and 20 |
| AppointmentSchemas.DurationBounds | backend2/schemas/appointment.py:128 | the defaults are accepted and every accepted walk-in duration (10 to 60) is also an accepted availability duration (10 to 120) |
| CoverageService.Entry | backend/services/weekly_coverage.py:27-34 | a listing entry has exactly the six roster fields, each the stored value or None |
| CoverageService.Entries | backend/services/weekly_coverage.py:24-34 | one entry per assignment, in the same order |
| CoverageService.HandleGetStaffAssignments | backend/services/weekly_coverage.py:5-45 | answers 200 with the entries of the sorted roster |
| CoverageService.EntriesAppend | backend/services/weekly_coverage.py:24-34 | the listing of a longer cursor ends with the new entry |
| CoverageService.EntryKeysLe | backend/services/weekly_coverage.py:18-34 | an entry sorts where its assignment does, since it keeps date and on_call_start |
| CoverageService.RosterSpec | backend/services/weekly_coverage.py:18-21 | the roster holds every stored assignment as often as stored, ascending by date and on_call_start |
| CoverageService.ListingSorted | backend/services/weekly_coverage.py:18-34 | the listing has one entry per stored assignment and is in (date, on_call_start) order |
| CoverageService.FilterAllKeepsAll | backend/services/weekly_coverage.py:18 | `find()` without a filter keeps every assignment |
| CoverageService.NewAssignment | backend/services/weekly_coverage.py:71-78 | the stored assignment has the new ID and exactly the five request fields with the request's values |
| CoverageService.AddCode | backend/services/weekly_coverage.py:55-63 | the add succeeds exactly when all five fields are present, with no check of start before end or of overlap |
| CoverageService.HandleAddStaffAssignment | backend/services/weekly_coverage.py:47-94 | 400 writes nothing; 201 advances assignment_id and appends exactly the new assignment |
| CoverageService.UpdateDataSpec | backend/services/weekly_coverage.py:106-119 | the `$set` holds exactly the five fields whose request value is not None, with those values |
| CoverageService.UpdateChangesOnlySupplied | backend/services/weekly_coverage.py:106-130 | after the update each field holds the supplied value or its old one, and assignment_id never changes |
| CoverageService.HandleUpdateStaffAssignment | backend/services/weekly_coverage.py:96-147 | 400 with no write for no data or no field, 404 for an unknown ID, else 200 with the first match updated and returned |
| CoverageService.HandleDeleteStaffAssignment | backend/services/weekly_coverage.py:149-173 | 404 and no change for an unknown ID, else 200 with the first match removed |
| StaffAssignmentCrud.Stored | backend/clinic_api/services/weekly_coverage.py:17-20 | the stored record is the submitted fields plus the counter-issued assignment_id and the date as its `isoformat()` text |
| StaffAssignmentCrud.Read | backend/clinic_api/services/weekly_coverage.py:33-35 | `date.fromisoformat(data["date"])` succeeds exactly when the date is present, is text and is a YYYY-MM-DD day of years 1 to 9999; otherwise the KeyError, TypeError or ValueError case it raises |
| StaffAssignmentCrud.StoredReadsBack | backend/clinic_api/services/weekly_coverage.py:20-34 | what create stores reads back with the submitted date |
| StaffAssignmentCrud.Create | backend/clinic_api/services/weekly_coverage.py:10-25 | the counter advances by one, the record with that ID and the ISO date text is appended, and the returned assignment carries the submitted date and the other stored fields |
| StaffAssignmentCrud.InsertAssignment | backend/clinic_api/services/weekly_coverage.py:17-25 | the dictionary under the given ID is appended to the collection and returned with its date |
| StaffAssignmentCrud.Get | backend/clinic_api/services/weekly_coverage.py:27-36 | None without a record with that ID; otherwise the first one read back, or the error its date raises |
| StaffAssignmentCrud.GetAll | backend/clinic_api/services/weekly_coverage.py:38-57 | the records in (date, on_call_start) order, as often as stored, each read back through fromisoformat; the first record whose date cannot be read makes the call fail with that error, and it fails exactly when some stored record cannot be read |
| StaffAssignmentCrud.ReadCursor | backend/clinic_api/services/weekly_coverage.py:52-57 | the loop reads each cursor record in turn, all of them in order when each can be read, and otherwise stops with the first failing record's error |
| StaffAssignmentCrud.UpdateDict | backend/clinic_api/services/weekly_coverage.py:64-68 | the non-None update fields, with a given date written as its ISO text |
| StaffAssignmentCrud.Update | backend/clinic_api/services/weekly_coverage.py:59-80 | None fields are dropped and a new date is written as ISO text; with nothing left the stored record is read back unchanged; otherwise the first match is set and read back, None for an unknown ID, an error when the date read back is not ISO text |
| StaffAssignmentCrud.UpdateReadsBackUpdated | backend/clinic_api/services/weekly_coverage.py:73-79 | when the ID is not changed, get after a matched update reads back the updated record, with the same date outcome |
| StaffAssignmentCrud.UpdatedDateReadsBack | backend/clinic_api/services/weekly_coverage.py:67-79 | after an update with a new date the record reads back with that date; without one it reads back exactly when it did before |
| StaffAssignmentCrud.Delete | backend/clinic_api/services/weekly_coverage.py:82-87 | true exactly when a record with that ID existed, and then the first one is removed |
| CommonSchemas.PageCountIsCeiling | backend2/schemas/common.py:60-64 | `(total + page_size - 1) // page_size` is the fewest pages that hold every item |
| CommonSchemas.PageCountOfValidSize | backend2/schemas/common.py:60-64 | with a page size of 1 to 100, no items means no pages, and there are never more pages than items |
| CommonSchemas.ValidPagination | backend2/schemas/common.py:20-23 | the defaults (page 1, page size 20) are valid; a valid pair has a positive page size of at most 100 and a non-negative skip |
| CommonSchemas.PageCount | backend2/schemas/common.py:62-63 | a positive total needs at least one page, and no items need none |
| CommonSchemas.ListResponse.constructor | backend2/schemas/common.py:52-58 | the defaults: total 0, page 1, page size 20, one page |
| CommonSchemas.ListResponse.CalculateTotalPages | backend2/schemas/common.py:60-64 | total_pages is recomputed when page_size is positive and left alone otherwise; nothing else changes |
| CommonSchemas.ValidateDateRange | backend2/schemas/common.py:33-37 | true whenever a bound is missing |
| CommonSchemas.DateRangeIsChronological | backend2/schemas/common.py:33-37 | for two dates the check holds exactly when the first is not after the second in the calendar |
| CommonSchemas.MatchesTimePattern | backend2/schemas/common.py:189-190 | a matching text has four or five characters, a one- or two-digit hour and two minute digits |
| CommonSchemas.MinutesOfText | backend2/schemas/common.py:189-190 | a text matching the TimeSlot pattern names a minute of the day |
| CommonSchemas.ValidateTimeOrder | backend2/schemas/common.py:193-195 | as written: Python's string `<`, so true exactly when the end text is not at or before the start text, and never for equal texts |
| CommonSchemas.TimeOrderRejectsOneDigitHour | backend2/schemas/common.py:189-195 | "9:30" and "10:00" both match the pattern and 9:30 is earlier, yet the string comparison refuses them |
| CommonSchemas.ValidateTimeOrderByClock | backend2/schemas/common.py:193-195 | the intended check: the start is earlier than the end by hour first and then by minute |
| CommonSchemas.PaddedTimesOrderByClock | backend2/schemas/common.py:193-195 | on zero-padded "HH:MM" texts the string comparison is the clock comparison |
| CommonSchemas.StrLtFive | backend2/schemas/common.py:193-195 | string order on two "DD:DD" texts is the order of their clock values |
| CommonSchemas.BloodPressure | backend2/schemas/common.py:170-175 | a text exactly when both readings are set and non-zero |
| CommonSchemas.BloodPressureReadsBack | backend2/schemas/common.py:170-175 | the text splits at its only '/' into the decimal forms of the two readings |
| InvoiceService.TopLineNo | backend/clinic_api/services/invoice.py:128-131 | the highest line_no among the invoice's lines, and None exactly when the invoice has no line |
| InvoiceService.CreateLine | backend/clinic_api/services/invoice.py:122-138 | the new line's line_no is one more than the invoice's highest, or 1 for its first line, and it is appended |
| InvoiceService.CreateLineKeepsNumbersDistinct | backend/clinic_api/services/invoice.py:128-136 | the new number is above every existing one of the invoice, so the invoice's line numbers stay distinct |
| InvoiceService.CreateLineContinuesNumbering | backend/clinic_api/services/invoice.py:128-131 | lines numbered 1..n are continued with n + 1 |
| InvoiceService.TotalPaidAppend | backend/clinic_api/services/invoice.py:189-190 | one more payment of the invoice adds its amount to the total paid, one of another invoice adds nothing |
| InvoiceService.TotalPaid | backend/clinic_api/services/invoice.py:189-190 | zero when no payment is for the invoice, and non-negative when none of its payments is negative |
| InvoiceService.Target | backend/clinic_api/services/invoice.py:193 | patient_portion when present, else total_amount when present, else 0 |
| InvoiceService.NewStatus | backend/clinic_api/services/invoice.py:192-199 | "paid" once the total reaches patient_portion (else total_amount, else 0), "partial" for a positive total below it, otherwise the current status |
| InvoiceService.StatusChecked | backend/clinic_api/services/invoice.py:179-205 | the check keeps the number of invoices |
| InvoiceService.CheckAndUpdateInvoiceStatus | backend/clinic_api/services/invoice.py:179-205 | the loop over payments and the conditional write leave the invoices as the status-check function describes |
| InvoiceService.StatusCheckTouchesOnlyStatus | backend/clinic_api/services/invoice.py:201-205 | the check rewrites at most the status of one invoice; every other field and invoice is kept |
| InvoiceService.StatusCheckIdempotent | backend/clinic_api/services/invoice.py:189-205 | running the check twice is running it once |
| InvoiceService.CreatePayment | backend/clinic_api/services/invoice.py:159-176 | the payment gets the next payment_id and is stored; only a truthy invoice_id runs the status check, which sees the new payment |
| InvoiceService.MissingAmountsMeanPaid | backend/clinic_api/services/invoice.py:193-197 | with neither patient_portion nor total_amount the target is 0, so any non-negative total marks the invoice paid |
| InvoiceService.PartialThenPaid | backend/clinic_api/services/invoice.py:189-205 | of a 50.00 portion, paying 20.00 gives "partial" and a further 30.00 gives "paid" |
| BillingRepo.InvoiceNumber | backend2/repositories/billing_repository.py:37 | the number starts with the year and a dash |
| BillingRepo.InvoiceNumberInjective | backend2/repositories/billing_repository.py:36-37 | within a year, different counts give different invoice numbers |
| BillingRepo.InvoiceNumberReadsBack | backend2/repositories/billing_repository.py:37 | the part after the dash is all digits and reads back as count + 1 |
| BillingRepo.CreateInvoice | backend2/repositories/billing_repository.py:24-39 | the number comes from this year's count, then the generic create with an invoice_id appends the invoice |
| BillingRepo.LineSumAppend | backend2/repositories/billing_repository.py:142-153 | the `$sum` over one more line adds that line's value when it belongs to the invoice |
| BillingRepo.RecalculateInvoiceTotals | backend2/repositories/billing_repository.py:132-171 | None and no write without lines; otherwise the sums are written with update_by_id and the updated invoice returned, None for an unknown ID |
| BillingRepo.RecalculationForgetsPayments | backend2/repositories/billing_repository.py:157-167 | an invoice of 50.00 with 10.00 paid gets a balance of 50.00 again: the grouped totals have no amount_paid |
| BillingRepo.CorrectedTotalsKeepBalance | backend2/repositories/billing_repository.py:157-167 | recalculating with the invoice's own amount_paid keeps the balance consistent with the payments and keeps them |
| BillingRepo.AddLineItem | backend2/repositories/billing_repository.py:99-130 | the line is numbered after the invoice's line count, gets the next "InvoiceLine" counter value as `LIN` ID, is inserted, the totals are recalculated, and the result is True |
| BillingRepo.InsertNewLine | backend2/repositories/billing_repository.py:114-123 | the line gets number count + 1, the invoice's ID and the `LIN` ID of the next "InvoiceLine" counter value, and is appended; only that counter changes |
| BillingRepo.NewLineHasLines | backend2/repositories/billing_repository.py:123-127 | once the new line is stored its invoice has lines, so the recalculation that follows always writes |
| BillingRepo.AddedLineCountsInTotal | backend2/repositories/billing_repository.py:123-127 | the recalculated total includes the new line |
| BillingRepo.PaymentUpdate | backend2/repositories/billing_repository.py:455-475 | the `$set` adds the amount to amount_paid and sets the balance to total_amount less it |
| BillingRepo.PaymentSet | backend2/repositories/billing_repository.py:455-475 | the step-by-step computation of the new amount paid, balance and status arrives at exactly the `$set` that PaymentUpdate describes |
| BillingRepo.ApplyPaymentToInvoice | backend2/repositories/billing_repository.py:435-478 | no change and False for a missing invoice; an error and no change when the found invoice has no numeric total_amount or amount_paid, or when the fall-through branch would read a status the invoice lacks; otherwise the payment is applied to the first match, and the result says whether the document changed |
| BillingRepo.PaymentStatusRule | backend2/repositories/billing_repository.py:458-464 | PAID when the new balance is settled, PARTIALLY_PAID when something but not all is paid, else the old status |
| BillingRepo.RefundUndoesPayment | backend2/repositories/billing_repository.py:455-456 | a refund, applied as a negative payment amount, brings amount_paid and the balance back to what they were |
| BillingRepo.PaymentsAdd | backend2/repositories/billing_repository.py:455-464 | two payments in turn leave the same amount paid and balance as one payment of their sum |
| BillingRepo.CreatePayment | backend2/repositories/billing_repository.py:417-433 | the payment is stored with a payment_id and then applied to its invoice; the call fails, with the payment already stored, exactly when applying it to the found invoice raises |
| BillingRepo.RefundData | backend2/repositories/billing_repository.py:554-564 | the refund has the original's invoice and patient, the negated amount and is_refund set |
| BillingRepo.ProcessRefund | backend2/repositories/billing_repository.py:542-566 | None and no change for an unknown payment; otherwise a negative payment of the refund amount for the same invoice is stored and applied, failing as create_payment does |
| BillingRepo.CreateRefund | backend2/repositories/billing_repository.py:554-566 | the refund of the original payment is stored as a negative payment for the original's invoice and applied to it, failing as create_payment does |
| BillingRepo.StatementPeriod | backend2/repositories/billing_repository.py:311-315 | the period runs from the first to the last day of the month, December ending in the same year |
| BillingRepo.StatementPeriodIsMonth | backend2/repositories/billing_repository.py:311-315 | a date lies in the period exactly when it is in that month of that year |
| BillingRepo.MonthlyStatement | backend2/repositories/billing_repository.py:294-350 | charges are the totals of the first 100 of the month's invoices, payments the amounts of all the period's payments, the period balance their difference, and the outstanding balance what the 100 newest pending invoices owe |
| BillingRepo.PeriodInvoices | backend2/repositories/billing_repository.py:317-321 | at most 100 of the patient's invoices dated in the period, all of them when there are at most 100 |
| BillingRepo.PendingInvoices | backend2/repositories/billing_repository.py:49-74 | at most 100 stored invoices, each the patient's and pending |
| BillingRepo.StatementOfFewInvoices | backend2/repositories/billing_repository.py:317-340 | with at most 100 invoices in the month and at most 100 pending, the charges and the outstanding balance are over all of them |
| BillingRepo.LastDayAfterMidnightOutside | backend2/repositories/billing_repository.py:324-327 | a payment stamped after midnight on the last day falls outside the period, as `$lte` compares with the end date's midnight |
| BillingRepo.RefundInPeriodRaisesBalance | backend2/repositories/billing_repository.py:324-349 | a refund in the period raises the period balance by its amount |
| BillingRepo.SumOfAppend | backend2/repositories/billing_repository.py:330-331 | the sum over one more document adds its value |
| BillingRepo.SumOfPermutation | backend2/repositories/billing_repository.py:340 | the outstanding sum does not depend on the order the invoices come in |
| BillingRepo.SumOfConcat | backend2/repositories/billing_repository.py:330-340 | a sum over two runs of documents is the sum of their sums |
| BillingSchemas.ValidateDueDate | backend2/schemas/billing.py:102-107 | accepted values come back unchanged; refusals carry the past-due-date message |
| BillingSchemas.DueDateNotInPast | backend2/schemas/billing.py:102-107 | a due date is accepted exactly when it is today or later in the calendar |
| BillingSchemas.ValidatePositiveAmount | backend2/schemas/billing.py:122 | a `gt=0` amount (payment, refund and plan total alike) is accepted exactly when positive, unchanged |
| BillingSchemas.ValidatePercentage | backend2/schemas/billing.py:69-72 | an optional percentage is accepted exactly when absent or between 0 and 100 |
| BillingSchemas.LineItemPercentageErrors | backend2/schemas/billing.py:69-72 | at most one error per percentage field |
| BillingSchemas.LineItemPercentagesAccepted | backend2/schemas/billing.py:69-72 | the line item passes exactly when each given percentage is between 0 and 100 |
| BillingSchemas.ValidateDownPayment | backend2/schemas/billing.py:196-202 | refused exactly when a non-zero down payment is at least a total that passed its own check |
| BillingSchemas.PaymentPlanErrors | backend2/schemas/billing.py:186-202 | at most four errors, one per checked field or validator |
| BillingSchemas.PaymentPlanAccepted | backend2/schemas/billing.py:186-202 | accepted exactly when the total is positive, a given down payment is at least 0 and below the total, there are 2 to 24 installments and the frequency matches |
| BillingSchemas.ZeroDownPaymentSkipsComparison | backend2/schemas/billing.py:199 | a zero down payment is not compared with the total, and the plan is accepted because a valid total is positive |
| Reports.MonthWindow | backend/clinic_api/services/reports.py:142-143 | the window starts on the first of the month and ends on the first of the next, December rolling into January |
| Reports.MonthWindowHoldsTheMonth | backend/clinic_api/services/reports.py:142-147 | a moment falls in `[start, end)` exactly when its day is in the requested month |
| Reports.DaysOutstanding | backend/clinic_api/services/reports.py:184-185 | the whole days elapsed since the invoice date, or 0 without a date |
| Reports.AgingBucketsOrdered | backend/clinic_api/services/reports.py:189-197 | "paid" exactly when nothing is due; otherwise 0-30, 31-60 and 61+ by age, an older invoice never in a younger bucket |
| Reports.ServiceIndex | backend/clinic_api/services/reports.py:206 | the position of the service with that description, None when there is none |
| Reports.ServiceIndexAppend | backend/clinic_api/services/reports.py:206 | a new description is found at the end |
| Reports.AddLineSums | backend/clinic_api/services/reports.py:200-208 | one line adds its quantity and total to its description's entry, keeping one entry per description |
| Reports.GroupSums | backend/clinic_api/services/reports.py:200-208 | grouping the lines adds each description's quantities and amounts and keeps one entry per description |
| Reports.DescriptionPreorder | backend/clinic_api/services/reports.py:230 | ordering services by description is a total preorder |
| Reports.EntriesSpec | backend/clinic_api/services/reports.py:210-216 | one entry per payment in order, with its date and amount, and its method or, when that is missing or empty, its payment_method |
| Reports.PaymentDatePreorder | backend/clinic_api/services/reports.py:230 | ordering payments by date, a missing date as the empty text, is a total preorder |
| Reports.OfPatient | backend/clinic_api/services/reports.py:168-170 | the invoices kept all belong to that patient |
| Reports.PatientSummarySpec | backend/clinic_api/services/reports.py:166-226 | a patient's totals are the sums over their invoices, one snapshot per invoice, service sums per description, the payments of every invoice flattened in order, and the maximum aging over unpaid invoices |
| Reports.StatementsFor | backend/clinic_api/services/reports.py:229-232 | one statement per patient |
| Reports.AddToStatement | backend/clinic_api/services/reports.py:183-226 | the loop body for one invoice computes the statement update the specification function describes |
| Reports.OfPatientAppend | backend/clinic_api/services/reports.py:168-181 | one more invoice extends its patient's list and, for a new patient, the first-appearance order |
| Reports.PatientSummaryAppend | backend/clinic_api/services/reports.py:183-226 | the statement of one more invoice is the previous statement with that invoice added |
| Reports.TracksStep | backend/clinic_api/services/reports.py:168-226 | one more invoice keeps every patient's running statement equal to the statement of their invoices so far |
| Reports.AccumulatePatients | backend/clinic_api/services/reports.py:166-226 | after the loop there is one statement per patient, in first-appearance order, each the statement of that patient's invoices |
| Reports.FinishTracked | backend/clinic_api/services/reports.py:229-232 | a finished running statement is that patient's statement of the month |
| Reports.FinishStatements | backend/clinic_api/services/reports.py:229-232 | the finishing loop yields each patient's statement in order |
| Reports.TotalsAppend | backend/clinic_api/services/reports.py:242-247 | adding a statement adds its three amounts to the totals |
| Reports.SplitStatements | backend/clinic_api/services/reports.py:234-247 | the split loop yields the settled and owing lists and the totals of each |
| Reports.MonthlyStatements | backend/clinic_api/services/reports.py:139-255 | every patient's statement in first-appearance order, split into settled and owing with the totals of each |
| Reports.FirstAppearancesSpec | backend/clinic_api/services/reports.py:168-181 | each patient with an invoice appears once, in order of their first invoice |
| Reports.OfPatientNonEmpty | backend/clinic_api/services/reports.py:168-170 | a patient has invoices exactly when one names them |
| Reports.StatementOfPatient | backend/clinic_api/services/reports.py:224-232 | totals over exactly that patient's invoices, services sorted by description, the payments of those invoices all listed and sorted by date, and status paid, partial or unpaid by balance and payments |
| Reports.SplitIsPartition | backend/clinic_api/services/reports.py:238-247 | every statement is in exactly one list, the paid one when settled, and the lists' totals add up to the overall totals |
| Reports.SplitMembers | backend/clinic_api/services/reports.py:238-247 | membership of the two lists is decided by the balance, and their lengths add up |
| Reports.SplitTotals | backend/clinic_api/services/reports.py:242-247 | the two lists' totals add up to the totals over all statements |
| Reports.SummaryPayments | backend/clinic_api/services/reports.py:210-216 | a patient's running statement lists the payments of each of their invoices in turn |
| ReportSanitize.SanitizeIsJson | backend/clinic_api/services/reports.py:8-23 | every sanitized value is JSON: no store types, tuples, sets or "_id" at any level |
| ReportSanitize.FilterKeepsAll | backend/clinic_api/services/reports.py:20 | a filter every entry passes keeps all of them |
| ReportSanitize.SanitizeKeepsJson | backend/clinic_api/services/reports.py:8-23 | a value that already is JSON comes back unchanged |
| ReportSanitize.SanitizeIdempotent | backend/clinic_api/services/reports.py:8-23 | sanitizing twice is sanitizing once |
| ReportSanitize.SanitizeShape | backend/clinic_api/services/reports.py:19-22 | a mapping keeps its other keys with sanitized values; a list, tuple or set keeps its length and order |
| ReportSanitize.NestedIdDropped | backend/clinic_api/services/reports.py:19-22 | an "_id" nested in a list is dropped too |
| ReportSanitize.DateTimeExtendsDay | backend/clinic_api/services/reports.py:17-18 | a date-time's ISO text is its date's text, a T and the time of day, with microseconds only when there are some |
| PrescriptionRepo.NewPrescription | backend2/repositories/prescription_repository.py:33-39 | the number "RX{year}-" with the padded count + 1 is set, the expiry defaults to today + 365 only when absent, and every other field is kept |
| PrescriptionRepo.CreatePrescription | backend2/repositories/prescription_repository.py:22-50 | this year's count numbers the prescription, then the generic create appends it with a prescription_id |
| PrescriptionRepo.PatientFilterMeaning | backend2/repositories/prescription_repository.py:77-84 | active_only overrides the status with ACTIVE and an expiry not before today; otherwise a given status is matched exactly |
| PrescriptionRepo.FindPatientPrescriptions | backend2/repositories/prescription_repository.py:60-86 | each returned prescription is the patient's and meets the active_only condition when asked; the page is newest prescription_date first, drawn without repetition from the matches, all of them when at most 100, and none left out is newer than a returned one |
| PrescriptionRepo.ExpiringMeaning | backend2/repositories/prescription_repository.py:113-118 | a prescription matches exactly when ACTIVE with today <= expiry <= today + days_ahead |
| PrescriptionRepo.ExpiringNegativeWindowEmpty | backend2/repositories/prescription_repository.py:113-118 | a negative look-ahead matches nothing |
| PrescriptionRepo.FindExpiringPrescriptions | backend2/repositories/prescription_repository.py:108-118 | at most a page of stored prescriptions, each matching the expiry window |
| PrescriptionRepo.FindPrescription | backend2/repositories/prescription_repository.py:52-54 | the first document with the ID when it reads as a prescription, otherwise None |
| PrescriptionRepo.FillStatus | backend2/repositories/prescription_repository.py:144-147 | FILLED exactly when at least the prescribed quantity is dispensed, PARTIALLY_FILLED exactly when less |
| PrescriptionRepo.FillPrescription | backend2/repositories/prescription_repository.py:120-160 | None and no change for a missing prescription; otherwise the status and dispensing fields are set on it and it is returned |
| PrescriptionRepo.RefillsAfter | backend2/repositories/prescription_repository.py:179-186 | a refill is possible exactly when refills remain, and leaves one fewer, never below zero |
| PrescriptionRepo.RefillPrescription | backend2/repositories/prescription_repository.py:162-192 | None and no change for a missing prescription or one without refills; otherwise one refill fewer and FILLED |
| PrescriptionRepo.RefillWritten | backend2/repositories/prescription_repository.py:183-192 | the write made is the refilled state |
| PrescriptionRepo.RefillKeepsRefillsNonNegative | backend2/repositories/prescription_repository.py:179-186 | a refill keeps every stored refill count non-negative |
| PrescriptionRepo.CancelPrescription | backend2/repositories/prescription_repository.py:194-207 | None for an unknown ID; otherwise CANCELLED with the reason in the pharmacy notes |
| PrescriptionRepo.StockUpdate | backend2/repositories/prescription_repository.py:412-420 | the `$set` holds the new quantity `(old or 0) + change` and in_stock exactly when it is positive |
| PrescriptionRepo.FindDrug | backend2/repositories/prescription_repository.py:348-350 | the first drug with the ID when it reads as a drug, otherwise None |
| PrescriptionRepo.UpdateDrugStock | backend2/repositories/prescription_repository.py:401-422 | None and no change for a missing drug; otherwise the new quantity and in-stock flag are written and returned |
| PrescriptionRepo.StockChangesAdd | backend2/repositories/prescription_repository.py:412 | two stock changes in turn equal one change of their sum |
| ClinicalRepo.ParseTestStatus | backend2/schemas/clinical.py:174-183 | a text parses to the status whose text it is |
| ClinicalRepo.ParseTestStatusText | backend2/schemas/clinical.py:174-183 | every test status reads back from its text |
| ClinicalRepo.NewLabOrder | backend2/repositories/clinical_repository.py:23-25 | the data with the order number "LAB{year}-" and the padded count + 1, every other field kept |
| ClinicalRepo.CreateLabOrder | backend2/repositories/clinical_repository.py:20-27 | this year's count numbers the order, then the generic create appends it with a lab_test_id |
| ClinicalRepo.LabCountAdvances | backend2/repositories/clinical_repository.py:24-25 | an order of this year raises the count by one, so the next order gets a different number |
| ClinicalRepo.PendingMeaning | backend2/repositories/clinical_repository.py:52-58 | a test is pending exactly when its status is ORDERED, SCHEDULED, SPECIMEN_COLLECTED or IN_PROGRESS |
| ClinicalRepo.FindPendingLabTests | backend2/repositories/clinical_repository.py:50-59 | the first page of stored pending tests by priority descending then ordered_at: sorted, drawn without repetition from the pending tests, all of them when at most 100, and none left out sorting before a returned one |
| ClinicalRepo.PendingOrderPreorder | backend2/repositories/clinical_repository.py:59 | priority descending then ordered_at ascending is a total preorder |
| ClinicalRepo.PendingOrderPutsUrgentBeforeStat | backend2/repositories/clinical_repository.py:59 | priorities sort as text, descending, so an URGENT test comes before a STAT one |
| ClinicalRepo.CollectSpecimen | backend2/repositories/clinical_repository.py:68-88 | update_by_id with the specimen fields and SPECIMEN_COLLECTED |
| ClinicalRepo.CollectUpdate | backend2/repositories/clinical_repository.py:79-86 | the `$set` names exactly the status and the five specimen fields: SPECIMEN_COLLECTED, the collection time, and null notes when none are given |
| ClinicalRepo.CollectEffect | backend2/repositories/clinical_repository.py:77-86 | after collection the test is SPECIMEN_COLLECTED, still pending, with the collection time and notes, None overwriting old notes |
| ClinicalRepo.StrArray | backend2/repositories/clinical_repository.py:108-110 | the stored list holds the critical values in order |
| ClinicalRepo.EnterResult | backend2/repositories/clinical_repository.py:90-112 | update_by_id with COMPLETED and the result fields |
| ClinicalRepo.ResultEffect | backend2/repositories/clinical_repository.py:99-110 | the test is COMPLETED and no longer pending; critical values are stored with the follow-up flag, and without them both are left as they were |
| ClinicalRepo.ResultUpdate | backend2/repositories/clinical_repository.py:99-110 | the `$set` names the status, result and its four companions, and critical_values with requires_follow_up true exactly when critical values are given and non-empty |
| ClinicalRepo.MarkResultReviewed | backend2/repositories/clinical_repository.py:114-130 | update_by_id with the review fields and PENDING_REVIEW |
| ClinicalRepo.ReviewEffect | backend2/repositories/clinical_repository.py:121-129 | after review the test is PENDING_REVIEW, which is not pending, recording who reviewed it and when |
| ClinicalRepo.ReviewUpdate | backend2/repositories/clinical_repository.py:121-129 | the `$set` names exactly reviewed_by, reviewed_at, interpretation (null when none) and PENDING_REVIEW |
| ClinicalRepo.ActiveMeaning | backend2/repositories/clinical_repository.py:464-471 | a stay is active exactly when its status is ADMITTED, STABLE, IMPROVING or DETERIORATING |
| ClinicalRepo.FindActiveStays | backend2/repositories/clinical_repository.py:462-471 | at most a page of stored stays, each active |
| ClinicalRepo.ModelStatus | backend2/models/recovery.py:79 | a stay without a status reads back as ADMITTED; a stored text must name the status |
| ClinicalRepo.CreateRecoveryStay | backend2/repositories/clinical_repository.py:454-456 | create with an automatic stay_id |
| ClinicalRepo.StayData | backend2/repositories/clinical_repository.py:480-493 | the stay built holds the patient, visit and admit time and the defaulted consciousness and monitoring frequency, and no status |
| ClinicalRepo.AdmitToRecovery | backend2/repositories/clinical_repository.py:473-495 | a missing required key is an error with nothing stored; otherwise the built stay is created |
| ClinicalRepo.AdmittedStayNotListedActive | backend2/repositories/clinical_repository.py:462-495 | an admitted stay reads back as ADMITTED through the default, yet has no stored status and is not listed as active |
| ClinicalRepo.CorrectedStayData | backend2/models/recovery.py:79 | the stay with the default ADMITTED status stored |
| ClinicalRepo.CorrectedAdmittedStayListedActive | backend2/repositories/clinical_repository.py:462-471 | a stay created from the corrected data is listed as active and reads back as ADMITTED |
| ClinicalRepo.DischargeFromRecovery | backend2/repositories/clinical_repository.py:529-547 | a missing key is an error with no write; otherwise update_by_id with the discharge fields |
| ClinicalRepo.DischargeUpdate | backend2/repositories/clinical_repository.py:535-546 | the `$set` names exactly the discharge time, the four discharge details and signed_off_by, copied from the request, and DISCHARGED |
| ClinicalRepo.DischargeEndsStay | backend2/repositories/clinical_repository.py:535-545 | a discharged stay is DISCHARGED, has its discharge time, and is no longer active |
| ClinicalRepo.ObservationId | backend2/repositories/clinical_repository.py:509 | the ID starts "OBS" and the stay ID, followed by a dash |
| ClinicalRepo.NatToStringInjective | backend2/repositories/clinical_repository.py:509 | different numbers have different decimal texts |
| ClinicalRepo.ObservationIdInjective | backend2/repositories/clinical_repository.py:509 | an observation ID names one stay and one number |
| ClinicalRepo.NewObservation | backend2/repositories/clinical_repository.py:507-515 | the generated fields plus the data, whose own fields win on a clash |
| ClinicalRepo.NewObservationNumbered | backend2/repositories/clinical_repository.py:505-512 | without an override the observation belongs to the stay, is number count + 1 with the matching ID, and passes validate_sequence |
| ClinicalRepo.ObservationCountAdvances | backend2/repositories/clinical_repository.py:505 | each observation of a stay raises its count by one |
| ClinicalRepo.DeterioratingStillActive | backend2/repositories/clinical_repository.py:520-525 | a stay marked DETERIORATING reads back as such and is still active |
| ClinicalRepo.AddObservation | backend2/repositories/clinical_repository.py:497-527 | a missing "type" is an error with no write; otherwise the numbered observation is inserted, a truthy is_critical marks the stay DETERIORATING, and the result is True |
| Recovery.ParseStatus | backend2/models/recovery.py:21-29 | a text parses to the status whose text it is |
| Recovery.ParseStatusText | backend2/models/recovery.py:21-29 | every status reads back from its text |
| Recovery.StatusTextInjective | backend2/models/recovery.py:21-29 | different statuses have different texts |
| Recovery.StayStatus | backend2/models/recovery.py:79 | ADMITTED when absent; otherwise accepted exactly when the text names a status |
| Recovery.ParsePain | backend2/models/recovery.py:47-53 | a text parses to the pain rating whose text it is |
| Recovery.ParsePainText | backend2/models/recovery.py:47-53 | every pain rating reads back from its text |
| Recovery.ParseConsciousness | backend2/models/recovery.py:56-62 | a text parses to the level whose text it is |
| Recovery.ParseConsciousnessText | backend2/models/recovery.py:56-62 | every level reads back from its text |
| Recovery.ValidateDischargeAfterAdmit | backend2/models/recovery.py:130-134 | refused exactly when a given discharge is not after an admission time that passed validation |
| Recovery.AcceptedStayHasPositiveLength | backend2/models/recovery.py:130-134 | an accepted stay with both times has a positive length |
| Recovery.ValidateSequence | backend2/models/recovery.py:237-241 | accepted exactly when the sequence number is at least 1 |
| Recovery.CriticalIndicators | backend2/models/recovery.py:246-251 | the list has the four indicators |
| Recovery.AnyTrueIff | backend2/models/recovery.py:252 | `any` is true exactly when some element is |
| Recovery.RequiresInterventionIff | backend2/models/recovery.py:243-252 | intervention is needed exactly when critical, pain SEVERE or WORST, STUPOROUS or UNCONSCIOUS, or the physician was alerted |
| VisitRepo.ParseStatus | backend2/schemas/visit.py:28-37 | a text parses to the visit status whose text it is |
| VisitRepo.ParseStatusText | backend2/schemas/visit.py:28-37 | every visit status reads back from its text |
| VisitRepo.CreateVisit | backend2/repositories/visit_repository.py:24-34 | create with an automatic visit_id |
| VisitRepo.PatientVisitFilter | backend2/repositories/visit_repository.py:59-71 | the filter built step by step matches exactly the patient's visits within the given bounds and with the given status |
| VisitRepo.DateRangeMeaning | backend2/repositories/visit_repository.py:61-68 | with both bounds a visit matches exactly when its day lies from the start to the end |
| VisitRepo.FindPatientVisits | backend2/repositories/visit_repository.py:40-73 | each returned visit matches the filter; the page is newest visit_date first, drawn without repetition from the matches, all of them when at most 100, and none left out is newer than a returned one |
| VisitRepo.FindStaffVisits | backend2/repositories/visit_repository.py:75-85 | the practitioner's non-CANCELLED visits of the day by check_in_time: sorted, drawn without repetition from the matches, all of them when at most 100, none left out earlier than a returned one |
| VisitRepo.ActiveMeaning | backend2/repositories/visit_repository.py:89-96 | a visit is active exactly when CHECKED_IN, IN_PROGRESS, AWAITING_LAB or AWAITING_PRESCRIPTION |
| VisitRepo.FindActiveVisits | backend2/repositories/visit_repository.py:87-96 | at most a page of stored visits, each active |
| VisitRepo.CheckInPatient | backend2/repositories/visit_repository.py:98-121 | update_by_id with CHECKED_IN, the time and the vitals, from any status |
| VisitRepo.StartVisit | backend2/repositories/visit_repository.py:123-133 | update_by_id with IN_PROGRESS, the time and the practitioner, from any status |
| VisitRepo.CompleteVisit | backend2/repositories/visit_repository.py:135-170 | update_by_id with COMPLETED; the invoice command for that visit is issued exactly when the visit was found |
| VisitRepo.CheckInEffect | backend2/repositories/visit_repository.py:113-121 | after check-in the visit is CHECKED_IN with the time and vitals, and active |
| VisitRepo.StartEffect | backend2/repositories/visit_repository.py:125-133 | after starting the visit is IN_PROGRESS with the time and practitioner, and active |
| VisitRepo.CompleteEffect | backend2/repositories/visit_repository.py:152-161 | after completion the visit is COMPLETED with the end time, and no longer active |
| VisitRepo.ProcedureRecord | backend2/repositories/visit_repository.py:227-236 | the record holds the fee and quantity and a final fee of fee times quantity |
| VisitRepo.FinalFeeBounds | backend2/repositories/visit_repository.py:234 | one performance costs the fee, and more cost at least that for a non-negative fee |
| VisitRepo.AddProcedureToVisit | backend2/repositories/visit_repository.py:205-240 | the record is appended and the result is True |
| VisitRepo.FindUnbilledVisits | backend2/repositories/visit_repository.py:325-330 | at most a page of stored visits, each COMPLETED and not billed |
| VisitRepo.MarkVisitBilled | backend2/repositories/visit_repository.py:332-346 | update_by_id with is_billed, the time and the invoice ID |
| VisitRepo.BillingCycle | backend2/repositories/visit_repository.py:325-346 | completing an unbilled visit lists it as unbilled; marking it billed records the invoice, takes it off the list and keeps its status |
| StaffRepo.CreateStaff | backend2/repositories/staff_repository.py:20-30 | create with an automatic staff_id |
| StaffRepo.FindByEmail | backend2/repositories/staff_repository.py:44-54 | a stored member whose email equals the lower-cased input, None exactly when there is none |
| StaffRepo.FindByEmailCaseInsensitive | backend2/repositories/staff_repository.py:54 | the input's case makes no difference, and only an email stored without capitals is found |
| StaffRepo.FindActiveStaff | backend2/repositories/staff_repository.py:68-78 | the active members by last name then first name: sorted, drawn without repetition from the active members, all of them when at most 100, none left out sorting before a returned one |
| StaffRepo.ActiveStaffByName | backend2/repositories/staff_repository.py:77 | the active-staff page is in (last name, first name) order |
| StaffRepo.ClearPrimary | backend2/repositories/staff_repository.py:159-163 | every assignment of the member gets is_primary false; the others are kept |
| StaffRepo.NewStaffRole | backend2/repositories/staff_repository.py:165-172 | the new assignment names the pair and carries the primary flag asked for |
| StaffRepo.AssignRoleToStaff | backend2/repositories/staff_repository.py:130-175 | False and no change for an existing pair; otherwise the flags are cleared when primary and the assignment appended |
| StaffRepo.AssignPrimaryIsOnlyPrimary | backend2/repositories/staff_repository.py:159-172 | a new primary role is afterwards the member's only primary role |
| StaffRepo.AssignKeepsOtherStaff | backend2/repositories/staff_repository.py:159-175 | other members' assignments are left as they were |
| StaffRepo.AssignKeepsPairsUnique | backend2/repositories/staff_repository.py:150-156 | since an existing pair is refused, no pair is ever assigned twice |
| StaffRepo.RemoveRoleFromStaff | backend2/repositories/staff_repository.py:177-192 | the first matching pair is deleted, True exactly when there was one |
| StaffRepo.RemoveLeavesNoPair | backend2/repositories/staff_repository.py:188-192 | with unique pairs no assignment of the pair is left |
| StaffRepo.DeactivateStaff | backend2/repositories/staff_repository.py:194-208 | update_by_id with is_active false |
| StaffRepo.DeactivateEffect | backend2/repositories/staff_repository.py:204-208 | a soft delete: every field is kept but is_active, which becomes false, and the member leaves the active list |
| PatientRepo.CreatePatient | backend2/repositories/patient_repository.py:19-29 | create with an automatic patient_id |
| PatientRepo.FindByPhone | backend2/repositories/patient_repository.py:67-86 | a patient whose phone or alternate phone contains the input's digits, None exactly when there is none |
| PatientRepo.FindByPhoneIgnoresFormatting | backend2/repositories/patient_repository.py:78 | only the input's digits matter |
| PatientRepo.FindByPhoneFindsExactNumber | backend2/repositories/patient_repository.py:78-86 | a patient stored with exactly those digits as phone means the lookup finds someone |
| PatientRepo.FindByPhoneWithoutDigits | backend2/repositories/patient_repository.py:78-86 | an input without digits gives the empty pattern, which matches the first patient with a string phone |
| PatientRepo.BuildSearchFilter | backend2/repositories/patient_repository.py:98-125 | the filter built step by step matches exactly the patients meeting the request; a phone replaces the search term |
| PatientRepo.SearchPatients | backend2/repositories/patient_repository.py:88-130 | the first page of patients meeting the request, by last and then first name |
| PatientRepo.SearchResultsMeetRequest | backend2/repositories/patient_repository.py:127-130 | every result meets the request, there are at most 100, and they are in name order |
| PatientRepo.PhoneReplacesSearchTerm | backend2/repositories/patient_repository.py:101-119 | with a phone given, the search term does not change the result |
| PatientRepo.SearchIgnoresEmailAndCity | backend2/repositories/patient_repository.py:98-125 | the request's email and city are never filtered on |
| PatientRepo.SearchDefaultsToActive | backend2/repositories/patient_repository.py:124-125 | with the default is_active True an inactive patient is never found |
| PatientRepo.InsuranceUpdate | backend2/repositories/patient_repository.py:217-224 | the update holds exactly the supplied insurance fields, renamed, with their values |
| PatientRepo.UpdatePatientInsurance | backend2/repositories/patient_repository.py:202-226 | update_by_id with the insurance update |
| PatientRepo.InsuranceUpdateEffect | backend2/repositories/patient_repository.py:217-226 | a supplied field is written, a missing or None one keeps the stored value, and every other field is kept |
| PatientRepo.ConditionUpdate | backend2/repositories/patient_repository.py:289-296 | the update writes chronic_conditions and nothing else |
| PatientRepo.AddChronicCondition | backend2/repositories/patient_repository.py:270-298 | None for an unknown patient; an absent condition is appended and written; a present one leaves the patient unchanged |
| PatientRepo.AddConditionEffect | backend2/repositories/patient_repository.py:285-298 | the condition is afterwards present, the list gains at most one entry, and other patients are unchanged |
| PatientRepo.AddConditionIdempotent | backend2/repositories/patient_repository.py:289-298 | adding the same condition again changes nothing |
| PatientRepo.AddConditionKeepsNoRepeats | backend2/repositories/patient_repository.py:289-296 | conditions added one call at a time never repeat |
| BaseRepo.SequenceName | backend2/repositories/base_repository.py:46 | an absent or empty sequence name falls back to the collection's name |
| BaseRepo.CountersCountCalls | backend2/repositories/base_repository.py:36-53 | each get_next_sequence call adds one to its own counter only, so a name's counter equals its starting value plus the number of calls for it |
| BaseRepo.IdPrefix | backend2/repositories/base_repository.py:70 | the prefix is the first three characters of the upper-cased collection name, or all of them when shorter |
| BaseRepo.AutoId | backend2/repositories/base_repository.py:70 | the auto ID starts with the prefix and carries at least three digits after it |
| BaseRepo.AutoIdInjective | backend2/repositories/base_repository.py:68-70 | two counter values that give the same auto ID in one collection are equal |
| BaseRepo.Timestamped | backend2/repositories/base_repository.py:73-75 | created_at and updated_at keep supplied values and default to now; every other field is kept |
| BaseRepo.DayStampOrder | backend2/repositories/clinical_repository.py:134-135 | the midnight stamps of two days compare exactly as the days do |
| BaseRepo.SerialNumber | backend2/repositories/prescription_repository.py:35 | the serial number starts with the prefix and has a dash right after the year |
| BaseRepo.SerialNumberInjective | backend2/repositories/billing_repository.py:37 | within one prefix and year, equal serial numbers come from equal counts |
| BaseRepo.SerialNumberReadsBack | backend2/repositories/clinical_repository.py:25 | the part after the dash has at least four digits and reads back as count + 1 |
| BaseRepo.ApplySet | backend2/repositories/base_repository.py:180-192 | the `$set` overwrites the update's fields, keeps all other fields and sets updated_at to now |
| BaseRepo.FindMany | backend2/repositories/base_repository.py:127-159 | at most limit documents, all stored and matching; an empty page for a negative skip; with no skip or sort and few matches, exactly the matches in stored order |
| BaseRepo.FindManySorted | backend2/repositories/base_repository.py:150-153 | with a valid sort order the returned page is sorted by it |
| BaseRepo.Take | backend2/repositories/base_repository.py:153-155 | the page is the first limit elements, or all of them when fewer |
| BaseRepo.Repository.GetNextSequence | backend2/repositories/base_repository.py:36-53 | returns the counter's old value plus one and stores it; no other counter changes |
| BaseRepo.Repository.Create | backend2/repositories/base_repository.py:55-84 | draws an auto ID only when the field is requested and absent, then stamps and appends the document |
| BaseRepo.Repository.UpdateOne | backend2/repositories/base_repository.py:199-223 | `$set` on the first match, which is returned; with no match nothing changes and None is returned |
| BaseRepo.Repository.UpdateById | backend2/repositories/base_repository.py:161-197 | the same as UpdateOne, on the first document whose ID field equals the ID |
| BaseRepo.Repository.UpdateMany | backend2/repositories/base_repository.py:225-248 | every match gets the `$set`, every other document is kept; the count is of documents the write changed |
| BaseRepo.Repository.DeleteOne | backend2/repositories/base_repository.py:274-289 | true exactly when a match existed, and then only the first match is removed |
| PatientService.PatientsWellFormed | backend/services/patient.py:87-145 | a patient needs first name, last name and date of birth; an update may write exactly the eight listed fields, neither of which is the ID or full_name |
| StaffService.StaffWellFormed | backend/services/staff.py:85-140 | a staff member needs first name, last name and role; an update may write exactly the six listed fields, neither of which is the ID or full_name |
| PersonRecords.Project | backend/services/patient.py:21-31 | a listing entry has exactly the listed fields, each holding the record's value or null |
| PersonRecords.Entries | backend/services/patient.py:17-32 | one entry per record, in the same order |
| PersonRecords.HandleGetAll | backend/services/patient.py:5-43 | code 200 and one projected entry per stored record, sorted by ID |
| PersonRecords.EntriesAppend | backend/services/patient.py:17-32 | adding a record at the end adds its entry at the end |
| PersonRecords.ListingSortedById | backend/services/patient.py:15 | the listing has one entry per stored record and their IDs ascend |
| PersonRecords.FilterAllKeepsAll | backend/services/patient.py:15 | the empty filter keeps every record |
| PersonRecords.HandleGetById | backend/services/patient.py:45-73 | the first record with the ID and code 200, or code 404 when there is none |
| PersonRecords.NewRecordSpec | backend/services/patient.py:95-117 | a new record carries the issued ID, the required fields, the optional fields or null, and a full name made of the two names |
| PersonRecords.AddCode | backend/services/patient.py:82-91 | code 201 exactly when every required field is present, otherwise 400 |
| PersonRecords.HandleAdd | backend/services/patient.py:75-129 | a 400 writes nothing; a 201 advances the counter by one and appends the new record under that ID |
| PersonRecords.CopySupplied | backend/services/patient.py:147-149 | the update holds each allowed field that was supplied with a non-null value, with that value |
| PersonRecords.HandleUpdate | backend/services/patient.py:131-191 | 400 for no data or nothing to update, 404 for an unknown ID, otherwise the first match gets the update and is returned with 200 |
| PersonRecords.UpdateKeepsNameConsistent | backend/services/patient.py:151-163 | an applied update keeps full_name equal to "first last" and never changes the ID |
| PersonRecords.AddKeepsAllConsistent | backend/services/patient.py:100 | adding a record keeps every stored full_name consistent with its names |
| PersonRecords.UpdateKeepsAllConsistent | backend/services/patient.py:151-175 | an applied update keeps every stored full_name consistent with its names |
| PersonRecords.UpdateWritesOnlyAllowed | backend/services/patient.py:144-163 | an update writes only allowed, supplied fields with their values, plus possibly full_name |
| PersonRecords.HandleDelete | backend/services/patient.py:193-217 | the first record with the ID is removed and 200 is returned, or 404 is returned and nothing changes |
| Patient2.NewPatient | backend/patient2.py:36-51 | the inserted patient has exactly the eight fields: the new ID, the arguments, and the date of birth as a midnight stamp |
| Patient2.AddPatient | backend/patient2.py:6-53 | a bad date of birth or a duplicate card writes nothing; otherwise the counter advances and the patient is appended under that ID |
| Patient2.AddKeepsStoreConsistent | backend/patient2.py:24-51 | an admitted patient keeps every stored ID at or below the counter and the cards unique, and its ID is new |
| Patient2.PatientUpdateFields | backend/patient2.py:79-93 | the update names only patient fields other than the ID and holds no null |
| Patient2.PatientUpdateValues | backend/patient2.py:79-93 | each argument is written exactly when it is given, with its own value |
| Patient2.UpdatePatient | backend/patient2.py:56-106 | false with no write for an unknown ID; otherwise true, and any given fields are `$set` on the first match |
| Patient2.CollectPatientUpdate | backend/patient2.py:79-93 | the chain of `is not None` tests builds exactly the update dictionary PatientUpdate describes |
| Patient2.UpdateKeepsIds | backend/patient2.py:96-100 | an update never moves a patient's ID, so IDs stay at or below the counter |
| Patient2.UpdateCanDuplicateCard | backend/patient2.py:90-91 | the card check guards only add_patient: an update can give one patient another's government card |
| Patient2.DeletePatient | backend/patient2.py:109-121 | true exactly when a patient with the ID existed, and then only the first such patient is removed |
| Staff2.StaffDoc | backend/staff2.py:14-20 | the staff document has exactly the ID, names, email and active flag |
| Staff2.StaffRoleDoc | backend/staff2.py:26-29 | the role link has exactly the staff ID and the role ID |
| Staff2.Ids | backend/staff2.py:44 | the set holds exactly the Staff_Id values of the collection |
| Staff2.AppendFresh | backend/staff2.py:23 | appending a document whose ID is new keeps IDs unique and adds exactly that ID |
| Staff2.SetKeepsIds | backend/staff2.py:61-65 | a `$set` that leaves Staff_Id alone keeps the collection's IDs and their uniqueness |
| Staff2.RemoveKeepsOthers | backend/staff2.py:93-96 | removing the one document with an ID removes exactly that ID and keeps the rest unique |
| Staff2.RemoveKeepsUnique | backend/staff2.py:93 | removing any document keeps IDs unique |
| Staff2.RemoveDropsId | backend/staff2.py:93 | removing a document removes its ID and no other |
| Staff2.AddNewStaff | backend/staff2.py:5-35 | the next counter value is returned and used by one new staff document and one role link; the pairing is kept |
| Staff2.AddKeepsPaired | backend/staff2.py:11-32 | a staff document and a role link under the next counter value keep the two collections paired |
| Staff2.StaffUpdateSpec | backend/staff2.py:50-58 | the update writes exactly the given arguments with their values and never Staff_Id |
| Staff2.CollectStaffUpdate | backend/staff2.py:50-58 | the loop builds exactly the update dictionary StaffUpdate describes |
| Staff2.UpdateStaff | backend/staff2.py:38-78 | false with no write for an unknown ID; otherwise true, the given fields are `$set` and a given role is upserted into StaffRole |
| Staff2.UpdateKeepsPaired | backend/staff2.py:61-75 | an update keeps the two collections paired: the role upsert finds the existing link instead of adding a second one |
| Staff2.DeleteStaff | backend/staff2.py:81-104 | false with no write for an unknown ID; otherwise true, and the first staff document and the first role link with the ID are removed |
| Staff2.DeleteKeepsPaired | backend/staff2.py:87-96 | deleting a paired staff member removes the ID from both collections, which stay paired |
| AuthSchemas.AnyCharIff | backend2/schemas/auth.py:90-97 | `any` over the characters holds exactly when some character passes the test |
| AuthSchemas.ValidatePasswordStrength | backend2/schemas/auth.py:85-98 | accepts exactly the strong passwords and returns them unchanged; otherwise gives the first failing check's message, beginning with length and then upper case |
| AuthSchemas.PasswordsMatch | backend2/schemas/auth.py:100-105 | an error exactly when new_password was validated and differs from the confirmation |
| AuthSchemas.LengthBounded | backend2/schemas/auth.py:81-83 | accepts exactly the lengths from 8 to 100 |
| AuthSchemas.ValidateChangePassword | backend2/schemas/auth.py:79-105 | a change request is accepted exactly when the current password's length is in bounds, the new password is at most 100 characters and strong, and the confirmation equals it |
| AuthSchemas.ValidateResetPassword | backend2/schemas/auth.py:113-124 | a reset request is accepted exactly when the new password's length is in bounds and the confirmation equals it |
| AuthSchemas.ResetAcceptsWeakPassword | backend2/schemas/auth.py:113-124 | a reset accepts a weak password that a change refuses |
| AuthSchemas.FullName | backend2/schemas/auth.py:154-157 | the first name, one space, then the last name |
| AuthSchemas.RoleNames | backend2/schemas/auth.py:159-162 | the names of the user's roles, in order |
| AuthSchemas.HasRole | backend2/schemas/auth.py:164-166 | true exactly when some role has the name |
| AuthSchemas.HasPermission | backend2/schemas/auth.py:168-173 | true exactly when some permission names the resource and lists the action |
| AuthSchemas.AnyRoleHeldIff | backend2/schemas/auth.py:175-178 | `any` over the candidate roles holds exactly when the user has one of them |
| AuthSchemas.CanPrescribeIff | backend2/schemas/auth.py:175-183 | can_prescribe and can_admit_patients hold exactly for a physician or a nurse practitioner |
| PatientSchemas.Compact | backend2/schemas/patient.py:105 | the compact code has no space and no lower-case letter |
| PatientSchemas.FormatPostalCode | backend2/schemas/patient.py:102-108 | a six-character compact code gains a space after its third character; any other code stays compact; no lower-case letter remains |
| PatientSchemas.RemoveSplitSpace | backend2/schemas/patient.py:105-107 | removing the space from "XXX XXX" gives back the six characters |
| PatientSchemas.FormatPostalCodeIdempotent | backend2/schemas/patient.py:102-108 | formatting an already formatted code changes nothing |
| PatientSchemas.PostalCodeField | backend2/schemas/patient.py:62 | accepted exactly when the pattern matches, and the result is then the formatted code |
| PatientSchemas.CompactOfShape | backend2/schemas/patient.py:62 | a code of pattern shape compacts to its six characters without the space |
| PatientSchemas.PostalCodeFieldKeepsCode | backend2/schemas/patient.py:62-108 | a code of the pattern's shape is stored exactly as given |
| PatientSchemas.PostalCodeFieldTrailingNewline | backend2/schemas/patient.py:62-108 | a valid code plus a newline is accepted and stored compact with the newline, not in "XXX XXX" form |
| PatientSchemas.ValidateAge | backend2/schemas/patient.py:92-100 | accepts exactly ages from 0 to 150 years; a future date gives "cannot be in the future", more than 54787 days gives "Invalid date of birth" |
| PatientSchemas.PhoneShapeDigits | backend2/schemas/patient.py:54 | a matching phone's normalised digits are the phone without its plus, from two to fifteen digits |
| PatientSchemas.PhonePatternDigits | backend2/schemas/patient.py:54-55 | every phone the pattern accepts, a trailing newline included, has two to fifteen digits |
| PatientSchemas.StoredPhoneIsFound | backend2/repositories/patient_repository.py:67-85 | a patient stored with a valid phone is found by find_by_phone with that same phone |
| PatientSchemas.FullNameParts | backend2/schemas/patient.py:208-213 | the full name is the first name, a space, the middle name and a space when it is non-empty, then the last name |
| PatientSchemas.FullNameMatchesStoredFullName | backend2/schemas/patient.py:208-213 | without a middle name it equals the full_name the first backend stores |

## Left out

- I/O and plumbing are not modelled: database connections, configuration, routes, middleware, logging and `print`. The
  "Database not connected" 500 responses and every `except Exception` path that returns 500, None, False or [] are also
  left out, because the model's store never fails. The one exception is find_many's empty page for a negative skip.
- Concurrency is not modelled. Every check-then-insert runs as one sequential step.
- The clock (`datetime.now()`, `utcnow()`, `date.today()`) is a parameter, as is the current year.
- Database-evaluated pipelines are not modelled: the views, the `$facet` / `$lookup` statistics and utilization methods,
  the `$dateDiff` branch of calculate_patient_age, and the JavaScript stored procedures. For the monthly statement, the
  pipeline's output is taken as the statement builder's input.
- The billing and invoice commands that visit completion and prescription creation issue are not modelled, because they
  are carried out by the database.
- Floating point is replaced:
  - money is integer cents and percentages are hundredths of a percent;
  - Decimal128 conversion and `round(..., 2)` are replaced by exact integers;
  - BMI, length-of-stay hours and averages are not modelled.
- PatientSchemas.ValidateAge replaces `days / 365.25` with an exact integer comparison. For whole days the two agree at
  both bounds.
- Dates and times are simplified:
  - BSON date encoding is not modelled. BillingRepo.MonthlyStatement, PrescriptionRepo.NewPrescription,
    PrescriptionRepo.FindPatientPrescriptions, PrescriptionRepo.FindExpiringPrescriptions, AppointmentRepo.FindSchedule
    and AppointmentRepo.StaffAppointments send Python `date` values to the store, which the BSON encoder refuses; the
    model assumes a store that accepts dates and compares them as their midnights. The same holds for the members
    listed next, where the source's base repository catches the encoder's error, so that the call as written returns
    [], 0 or None whatever the store holds;
  - a date-only value is the stamp of its midnight;
  - a date-time is a minute count, so seconds and microseconds are dropped; only ReportSanitize's store values keep
    them, for their ISO text.
- BillingRepo.CreateInvoice: the year count `{"invoice_date": {"$gte": date(year, 1, 1)}}` is refused by the encoder,
  so count gives 0 and every invoice number is "{year}-0001" as written (billing_repository.py:35-36); the model counts
  the stored invoices of the year.
- AppointmentRepo.CheckAppointmentConflict: the `scheduled_date` criterion is a `date`, so find_many gives [] and the
  check reports no conflict as written (appointment_repository.py:214-230); the model checks the stored bookings.
- AppointmentRepo.ConflictSeesAllWhenFew: states the modelled check, which the encoder failure above makes vacuous as
  written.
- AppointmentRepo.WalkInChoiceSpec: the walk-in practitioner query filters on a `date` schedule_date, so it gives [] and
  no practitioner is offered as written (appointment_repository.py:478-488); the model answers from the stored schedules.
- AppointmentRepo.FindByWeek: week_start is a `date`, so find_one gives None as written (appointment_repository.py:407-409);
  the model finds the stored coverage.
- AppointmentRepo.FindCoverageForDate: gives None as written for the same reason (appointment_repository.py:411-414).
- AppointmentRepo.GetOnCallStaff: reads the coverage through find_by_week, so it gives None as written.
- VisitRepo.FindPatientVisits: a from_date or to_date bound puts a `date` into the filter, and the call then gives []
  as written (visit_repository.py:58-68); without bounds the model and the source agree.
- VisitRepo.FindStaffVisits: the `visit_date` criterion is always a `date`, so the call gives [] as written
  (visit_repository.py:75-85).
- PatientRepo.SearchPatients: a date_of_birth in the request is a `date` (schemas/patient.py:222), and the search then
  gives [] as written (patient_repository.py:121-122).
- AppointmentRepo.FindAvailableSlots: a break whose "start" or "end" is not a time text makes `time.fromisoformat` raise
  ValueError, and the handler fails (appointment_repository.py:172-174); the model's breaks are minute ranges already
  parsed.
- AppointmentRepo.AvailableSlotsCharacterised: states the slots over parsed breaks, as FindAvailableSlots does.
- BillingRepo.MonthlyStatement: `sum(pay["amount"] for pay in payments)` raises KeyError on a payment without an amount
  and TypeError on a non-numeric one (billing_repository.py:331); the model counts such a payment as 0.
- StaffAssignmentCrud.Read: fromisoformat is modelled on the strict YYYY-MM-DD form that isoformat writes; the further
  forms Python 3.11 accepts (week dates, the compact form) are read as errors. pydantic's validation of the other
  fields when the StaffAssignment is built is not modelled.
- InvoiceService.CreatePayment: the payment_date is stored as its `isoformat()` text (invoice.py:168); the model stores
  the payment's fields as given, so dates are not re-encoded.
- Reports.Snapshot: the loop writes each line's `line_total` into the pipeline's line dictionaries, which the statement's
  invoice entries share (reports.py:203-204); the model's snapshot keeps the lines as handed over, and a line's total is
  `Reports.LineTotal` of it.
- Python's `str.upper`, `lower`, `isupper`, `islower` and `isdigit` are modelled on ASCII letters and digits only.
- MongoDB `$regex` criteria are modelled as substring search, case-insensitive where the source passes the `i` option.
  Regex metacharacters in a search term are not interpreted.
- CommonSchemas.MatchesTimePattern: the trailing newline that `$` admits is not modelled. The postal-code, phone and
  installment-frequency patterns do model it.
- pydantic's own machinery is not modelled: its error aggregation across fields, the text of its constraint messages,
  type coercion, and model construction from stored documents. A failed field is missing from the values later validators
  see, and the model shows this where it changes a result. Returned model instances are modelled as the stored
  documents.
- A `KeyError` on a missing request key (the admission, discharge and observation data) is modelled as an error result
  that writes nothing.
- AppointmentRepo.StaffAppointments: bookings that tie on scheduled_start at the 100th place are cut in store order; the
  store leaves the order among ties open.
- AppointmentRepo.WalkInRecord: walk_in_arrival_time is `datetime.now()`, local time, while created_at and updated_at are
  UTC; the model stamps all three with the one clock it is given.
- BillingRepo.ApplyPaymentToInvoice: a missing or non-numeric total_amount or amount_paid raises KeyError, TypeError or
  ValueError in the source; the model returns one error result for all of them, and it also treats a numeric text,
  which `float` would read, as an error. The KeyError of `invoice["status"]` in the fall-through branch, for an invoice
  without a status that stays below its total with nothing paid, is a second error result.
- BillingRepo.CreatePayment requires a numeric amount, as the typed Payment model that create returns guarantees.
- StoredProcedures.IsAppointmentAvailable: a bound that is neither text nor a date-time is handed to the store's `$match`
  unchanged, where it is compared by type; the model answers False for it.
- Reports.StatementOfPatient: payment dates are compared as text. A stored date-time payment_date beside a missing one,
  for which Python's sort raises, is not modelled, and neither is the stability of that sort among equal dates.
- TestStatus takes its values from backend2/schemas/clinical.py, because the lab model file is a stub without the enum.
- These operations are not modelled; each is a plain `find` / `$set` pass-through with no rule of its own:
  - the other finders and by-ID lookups of every repository, for example find_by_health_card, patient find_by_email,
    the birthday-range, chronic-condition and insurance-provider finders, the drug finders and drug search, the diagnosis
    and procedure catalogues, find_by_license_number and the role finders;
  - update_patient_medications, update_patient_allergies, deactivate_patient, update_drug_price, update_procedure_fee,
    update_role_permissions and update_staff_schedule_preference;
  - cancel_appointment, mark_no_show, approve_coverage, mark_invoice_sent, add_diagnosis_to_visit, the insurance and
    government claim and payment methods, and apply_insurance_coverage;
  - get_*_with_details and generate_prescription_label;
  - the base repository's find_by_id, delete_by_id, delete_many, count, exists, aggregate, bulk_create and
    find_with_text_search.
- The delivery-room operations of the clinical repository are not modelled. They are status updates of the same kind
  as the recovery stays, and no property was stated about them.
- `increment_walk_ins` is not modelled. Walk-in creation never calls it.
- The search request's gender, has_insurance and has_chronic_conditions fields are not part of the modelled request,
  because search_patients never reads them. It reads only the search term, health card, phone, date of birth and active
  flag.
- The thin datetime-to-ISO wrappers of the clinic API's appointment, visit, patient, staff, billing, scheduling and
  other services are not modelled.
- The tests that post to routes the application does not define, or send `phone_number` where the handler reads
  `phone`, are not used as specifications.

## Findings

| source | as written | input that shows it | evidently intended | confidence | as-written member | corrected member |
|---|---|---|---|---|---|---|
| backend2/schemas/common.py:193-195 | validate_time_order compares the two times as strings, while the pattern admits a one-digit hour | start "9:30", end "10:00": both match the pattern and the range is refused | compare the times of day | not executed | CommonSchemas.TimeOrderRejectsOneDigitHour | CommonSchemas.ValidateTimeOrderByClock |
| backend2/repositories/billing_repository.py:142-167 | recalculate_invoice_totals sets balance_due to the summed total, because amount_paid is not among the grouped fields | an invoice of 50.00 with 10.00 paid and one 50.00 line gets balance_due 50.00 | balance_due = total − amount_paid | not executed | BillingRepo.RecalculationForgetsPayments | BillingRepo.CorrectedTotalsKeepBalance |
| backend2/repositories/clinical_repository.py:473-495 | admit_to_recovery stores the stay without a status, and find_active_stays filters on a stored status | any complete admission: the stored stay has no status field and is not listed active | store the model's default status, ADMITTED | not executed | ClinicalRepo.AdmittedStayNotListedActive | ClinicalRepo.CorrectedAdmittedStayListedActive |
