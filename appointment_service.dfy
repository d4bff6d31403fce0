/**
 * The appointment handlers of the first backend: the master and
 * per-practitioner schedules, booking by practitioner and patient name,
 * walk-in booking against the practitioners' walk-in rows, partial update
 * and hard delete. Documents keep the request's values as given; the
 * handlers return an HTTP status code and the formatted appointment(s).
 */
module AppointmentService {
  import opened Wrappers
  import opened Documents
  import Sorting

  /** One entry of a schedule or a booking response, with names in place of IDs. */
  datatype Formatted = Formatted(
    appointmentId: Value,
    practitionerName: Value,
    patientName: Value,
    date: Value,
    startTime: Value,
    endTime: Value,
    kind: Value,
    patientDetails: Value)

  /** Field names of requests and stored documents. */
  const AppointmentId: string := "appointment_id"
  const StaffId: string := "staff_id"
  const PatientId: string := "patient_id"
  const FullName: string := "full_name"
  const Date: string := "date"
  const StartTime: string := "start_time"
  const EndTime: string := "end_time"
  const Type: string := "type"
  const PatientDetails: string := "patient_details"
  const CreatedAt: string := "created_at"
  const CreatedBy: string := "created_by"
  const PractitionerName: string := "practitioner_name"
  const PatientName: string := "patient_name"
  const WorkDate: string := "work_date"
  const IsWalkin: string := "is_walkin"
  const SlotStart: string := "slot_start"
  const SlotEnd: string := "slot_end"
  const ScheduledBy: string := "scheduled_by"

  /** Values the service writes into the "type" and "created_by" fields. */
  const ScheduledKind: string := "scheduled"
  const WalkInKind: string := "walk-in"
  const SystemUser: string := "System"

  /** The names format_appointment_response shows when the practitioner or patient record is missing. */
  const UnknownPractitioner: string := "Unknown Practitioner"
  const UnknownPatient: string := "Unknown Patient"

  // ---------------------------------------------------------------------
  // Name and ID lookups
  // ---------------------------------------------------------------------

  /** `find_one({byKey: v})` and then `.get(field)` of the match; None when nothing matches. */
  function Lookup(docs: seq<Doc>, byKey: string, v: Value, field: string): (r: Value)
    ensures FindOne(docs, FieldEquals(byKey, v)).None? ==> r == Null
    ensures FindOne(docs, FieldEquals(byKey, v)).Some? ==> r == Get(FindOne(docs, FieldEquals(byKey, v)).value, field)
  {
    var found := FindOne(docs, FieldEquals(byKey, v));
    if found.Some? then Get(found.value, field) else Null
  }

  /** get_staff_id_by_name / get_patient_id_by_name. */
  function StaffIdByName(staff: seq<Doc>, name: Value): (r: Value)
    ensures (forall d | d in staff :: Get(d, FullName) != name) ==> r == Null
    ensures r != Null ==> exists d | d in staff :: Get(d, FullName) == name && Get(d, StaffId) == r
  {
    Lookup(staff, FullName, name, StaffId)
  }

  function PatientIdByName(patients: seq<Doc>, name: Value): Value
  {
    Lookup(patients, FullName, name, PatientId)
  }

  /** A truthy ID returned by a name lookup belongs to a stored record with that full name. */
  lemma IdByNameSound(docs: seq<Doc>, name: Value, field: string)
    requires Truthy(Lookup(docs, FullName, name, field))
    ensures exists j :: 0 <= j < |docs| && Get(docs[j], FullName) == name &&
                        Get(docs[j], field) == Lookup(docs, FullName, name, field)
  {
    var m := FirstMatch(docs, FieldEquals(FullName, name));
    assert FieldEquals(FullName, name)(docs[m.value]);
  }

  /** get_staff_name_by_id / get_patient_name_by_id: the full name, or the fallback text when there is no record. */
  function NameById(docs: seq<Doc>, idKey: string, id: Value, fallback: string): (r: Value)
    ensures FindOne(docs, FieldEquals(idKey, id)).None? ==> r == Str(fallback)
    ensures (forall d | d in docs :: Get(d, idKey) != id) ==> r == Str(fallback)
    ensures r == Str(fallback) || exists d | d in docs :: Get(d, idKey) == id && Get(d, FullName) == r
  {
    var found := FindOne(docs, FieldEquals(idKey, id));
    if found.Some? then Get(found.value, FullName) else Str(fallback)
  }

  /** format_appointment_response. */
  function Format(staff: seq<Doc>, patients: seq<Doc>, appt: Doc): (f: Formatted)
    ensures (forall d | d in staff :: Get(d, StaffId) != Get(appt, StaffId)) ==>
      f.practitionerName == Str(UnknownPractitioner)
    ensures f.practitionerName == Str(UnknownPractitioner) ||
      exists d | d in staff :: Get(d, StaffId) == Get(appt, StaffId) && Get(d, FullName) == f.practitionerName
    ensures (forall d | d in patients :: Get(d, PatientId) != Get(appt, PatientId)) ==>
      f.patientName == Str(UnknownPatient)
    ensures f.patientName == Str(UnknownPatient) ||
      exists d | d in patients :: Get(d, PatientId) == Get(appt, PatientId) && Get(d, FullName) == f.patientName
    ensures f.patientDetails == if PatientDetails in appt then appt[PatientDetails] else Str("")
  {
    Formatted(
      Get(appt, AppointmentId),
      NameById(staff, StaffId, Get(appt, StaffId), UnknownPractitioner),
      NameById(patients, PatientId, Get(appt, PatientId), UnknownPatient),
      Get(appt, Date), Get(appt, StartTime), Get(appt, EndTime), Get(appt, Type),
      GetOr(appt, PatientDetails, Str("")))
  }

  function FormatAll(staff: seq<Doc>, patients: seq<Doc>, appts: seq<Doc>): (r: seq<Formatted>)
    ensures |r| == |appts|
    ensures forall i :: 0 <= i < |appts| ==> r[i] == Format(staff, patients, appts[i])
  {
    if appts == [] then [] else [Format(staff, patients, appts[0])] + FormatAll(staff, patients, appts[1..])
  }

  /** The cursor loop of both schedule handlers: format each document in cursor order. */
  method FormatCursor(staff: seq<Doc>, patients: seq<Doc>, cursor: seq<Doc>) returns (scheduleList: seq<Formatted>)
    ensures scheduleList == FormatAll(staff, patients, cursor)
  {
    scheduleList := [];
    var i := 0;
    while i < |cursor|
      invariant 0 <= i <= |cursor|
      invariant scheduleList == FormatAll(staff, patients, cursor[..i])
    {
      Sorting.PrefixExtend(cursor, i);
      scheduleList := scheduleList + [Format(staff, patients, cursor[i])];
      i := i + 1;
    }
    assert cursor[..i] == cursor;
  }

  // ---------------------------------------------------------------------
  // Schedules
  // ---------------------------------------------------------------------

  const MasterOrder: seq<string> := [StartTime, StaffId]
  const PractitionerOrder: seq<string> := [StartTime]

  /** The appointments the master schedule lists: every one on that date, by (start_time, staff_id). */
  function MasterScheduleDocs(appts: seq<Doc>, date: Value): seq<Doc>
  {
    FindSorted(appts, FieldEquals(Date, date), MasterOrder)
  }

  /** The master schedule holds each appointment of the date exactly as often as stored, in (start_time, staff_id) order. */
  lemma MasterScheduleSpec(appts: seq<Doc>, date: Value)
    ensures Sorting.SortedBy(MasterScheduleDocs(appts, date), SortKeys(MasterOrder))
    ensures multiset(MasterScheduleDocs(appts, date)) == multiset(Sorting.Filter(appts, FieldEquals(Date, date)))
    ensures forall d :: d in MasterScheduleDocs(appts, date) <==> d in appts && Get(d, Date) == date
  {
    FindSortedSpec(appts, FieldEquals(Date, date), MasterOrder);
  }

  method HandleGetMasterSchedule(appointments: Collection, staff: seq<Doc>, patients: seq<Doc>, date: Value)
    returns (code: int, schedule: seq<Formatted>)
    ensures code == 200
    ensures schedule == FormatAll(staff, patients, MasterScheduleDocs(appointments.docs, date))
  {
    var cursor := FindSorted(appointments.docs, FieldEquals(Date, date), MasterOrder);
    schedule := FormatCursor(staff, patients, cursor);
    code := 200;
  }

  predicate OnDateWith(d: Doc, date: Value, staffId: Value)
  {
    Get(d, Date) == date && Get(d, StaffId) == staffId
  }

  function PractitionerScheduleDocs(appts: seq<Doc>, date: Value, staffId: Value): seq<Doc>
  {
    FindSorted(appts, d => OnDateWith(d, date, staffId), PractitionerOrder)
  }

  /** The practitioner view holds exactly that practitioner's appointments of the date, by start_time. */
  lemma PractitionerScheduleSpec(appts: seq<Doc>, date: Value, staffId: Value)
    ensures Sorting.SortedBy(PractitionerScheduleDocs(appts, date, staffId), SortKeys(PractitionerOrder))
    ensures forall d :: d in PractitionerScheduleDocs(appts, date, staffId) <==> d in appts && OnDateWith(d, date, staffId)
  {
    FindSortedSpec(appts, d => OnDateWith(d, date, staffId), PractitionerOrder);
  }

  method HandleGetPractitionerSchedule(appointments: Collection, staff: seq<Doc>, patients: seq<Doc>,
                                       date: Value, practitionerName: Value)
    returns (code: int, schedule: seq<Formatted>)
    ensures !Truthy(StaffIdByName(staff, practitionerName)) ==> code == 404 && schedule == []
    ensures Truthy(StaffIdByName(staff, practitionerName)) ==>
      code == 200 &&
      schedule == FormatAll(staff, patients,
                            PractitionerScheduleDocs(appointments.docs, date, StaffIdByName(staff, practitionerName)))
  {
    var staffId := StaffIdByName(staff, practitionerName);
    if !Truthy(staffId) {
      return 404, [];
    }
    var cursor := FindSorted(appointments.docs, d => OnDateWith(d, date, staffId), PractitionerOrder);
    schedule := FormatCursor(staff, patients, cursor);
    code := 200;
  }

  // ---------------------------------------------------------------------
  // Booking
  // ---------------------------------------------------------------------

  /** The required fields of a booking request are all present. */
  predicate HasAddFields(data: Doc)
  {
    PractitionerName in data && PatientName in data && Date in data && StartTime in data && EndTime in data
  }

  predicate HasWalkInFields(data: Doc)
  {
    PatientName in data && Date in data
  }

  /** handle_add_appointment's conflict rule: an appointment with the same staff, date and exact start time. */
  predicate SameStartBooked(appts: seq<Doc>, staffId: Value, date: Value, start: Value)
  {
    exists j | 0 <= j < |appts| ::
      Get(appts[j], StaffId) == staffId && Get(appts[j], Date) == date && Get(appts[j], StartTime) == start
  }

  function AppointmentKey(staffId: Value, date: Value, start: Value): Doc -> bool
  {
    d => Get(d, StaffId) == staffId && Get(d, Date) == date && Get(d, StartTime) == start
  }

  lemma SameStartIsFindOne(appts: seq<Doc>, staffId: Value, date: Value, start: Value)
    ensures SameStartBooked(appts, staffId, date, start) <==> FindOne(appts, AppointmentKey(staffId, date, start)).Some?
  {
    if SameStartBooked(appts, staffId, date, start) {
      var j :| 0 <= j < |appts| && Get(appts[j], StaffId) == staffId && Get(appts[j], Date) == date &&
               Get(appts[j], StartTime) == start;
      assert AppointmentKey(staffId, date, start)(appts[j]);
    }
  }

  /** The document a successful booking inserts. */
  function NewAppointment(id: nat, staffId: Value, patientId: Value, data: Doc, kind: string,
                          start: Value, end: Value, now: int): Doc
    requires Date in data
  {
    map[AppointmentId := Int(id), StaffId := staffId, PatientId := patientId, Date := data[Date],
        StartTime := start, EndTime := end, Type := Str(kind),
        PatientDetails := GetOr(data, PatientDetails, Str("")), CreatedAt := Stamp(now)]
  }

  /** What handle_add_appointment decides, before any write. */
  datatype AddDecision = MissingFields | NoPractitioner | NoPatient | SlotTaken | Book(staffId: Value, patientId: Value)

  function AddDecide(appts: seq<Doc>, staff: seq<Doc>, patients: seq<Doc>, data: Doc): AddDecision
  {
    if !HasAddFields(data) then MissingFields
    else
      var staffId := StaffIdByName(staff, data[PractitionerName]);
      var patientId := PatientIdByName(patients, data[PatientName]);
      if !Truthy(staffId) then NoPractitioner
      else if !Truthy(patientId) then NoPatient
      else if SameStartBooked(appts, staffId, data[Date], data[StartTime]) then SlotTaken
      else Book(staffId, patientId)
  }

  /**
   * A booking is accepted exactly when every field is there, both names
   * resolve, and no appointment of that practitioner has that date and
   * exact start; an overlapping one with another start does not stop it.
   */
  lemma AddDecideSpec(appts: seq<Doc>, staff: seq<Doc>, patients: seq<Doc>, data: Doc)
    ensures AddDecide(appts, staff, patients, data).Book? <==>
      HasAddFields(data) &&
      Truthy(StaffIdByName(staff, data[PractitionerName])) &&
      Truthy(PatientIdByName(patients, data[PatientName])) &&
      forall j :: (0 <= j < |appts| && Get(appts[j], StaffId) == StaffIdByName(staff, data[PractitionerName]) &&
                   Get(appts[j], Date) == data[Date]) ==> Get(appts[j], StartTime) != data[StartTime]
  {
  }

  function ResponseCode(d: AddDecision): int
  {
    match d
    case MissingFields => 400
    case NoPractitioner => 404
    case NoPatient => 404
    case SlotTaken => 409
    case Book(_, _) => 201
  }

  /**
   * The effect of handle_add_appointment once the checks have decided: the
   * decision's status code; a refusal writes nothing; a booking advances
   * appointment_id by one and appends the scheduled appointment under the
   * new value, returned formatted.
   */
  ghost predicate AddHandled(docs: seq<Doc>, values: map<string, nat>, docs': seq<Doc>, values': map<string, nat>,
                             staff: seq<Doc>, patients: seq<Doc>, decision: AddDecision, data: Doc, now: int,
                             code: int, created: Option<Formatted>)
    requires decision.Book? ==> HasAddFields(data)
  {
    code == ResponseCode(decision) &&
    (!decision.Book? ==> created.None? && docs' == docs && values' == values) &&
    (decision.Book? ==>
       var id := CounterValue(values, AppointmentId) + 1;
       var doc := NewAppointment(id, decision.staffId, decision.patientId, data, ScheduledKind,
                                 data[StartTime], data[EndTime], now);
       values' == values[AppointmentId := id] && docs' == docs + [doc] &&
       created == Some(Format(staff, patients, doc)))
  }

  /** handle_add_appointment. */
  method HandleAddAppointment(appointments: Collection, staff: seq<Doc>, patients: seq<Doc>,
                              counters: Counters, data: Doc, now: int)
    returns (code: int, created: Option<Formatted>)
    modifies appointments, counters
    ensures var decision := AddDecide(old(appointments.docs), staff, patients, data);
      (decision.Book? ==> HasAddFields(data)) &&
      AddHandled(old(appointments.docs), old(counters.values), appointments.docs, counters.values,
                 staff, patients, decision, data, now, code, created)
  {
    var decision := CheckAddAppointment(appointments.docs, staff, patients, data);
    code, created := ApplyAdd(appointments, staff, patients, counters, decision, data, now);
  }

  /** The writes of handle_add_appointment once the checks have decided. */
  method ApplyAdd(appointments: Collection, staff: seq<Doc>, patients: seq<Doc>, counters: Counters,
                  decision: AddDecision, data: Doc, now: int)
    returns (code: int, created: Option<Formatted>)
    requires decision.Book? ==> HasAddFields(data)
    modifies appointments, counters
    ensures AddHandled(old(appointments.docs), old(counters.values), appointments.docs, counters.values,
                       staff, patients, decision, data, now, code, created)
  {
    code, created := ResponseCode(decision), None;
    if decision.Book? {
      var formatted := BookAppointment(appointments, staff, patients, counters, decision.staffId, decision.patientId,
                                       data, now);
      created := Some(formatted);
    }
  }

  /** The writes of an accepted booking: the next appointment_id, the insert, and the formatted response. */
  method BookAppointment(appointments: Collection, staff: seq<Doc>, patients: seq<Doc>, counters: Counters,
                         staffId: Value, patientId: Value, data: Doc, now: int)
    returns (formatted: Formatted)
    requires HasAddFields(data)
    modifies appointments, counters
    ensures var id := CounterValue(old(counters.values), AppointmentId) + 1;
      var doc := NewAppointment(id, staffId, patientId, data, ScheduledKind, data[StartTime], data[EndTime], now);
      counters.values == old(counters.values)[AppointmentId := id] &&
      appointments.docs == old(appointments.docs) + [doc] && formatted == Format(staff, patients, doc)
  {
    var newId := counters.Next(AppointmentId);
    var doc := NewAppointment(newId, staffId, patientId, data, ScheduledKind, data[StartTime], data[EndTime], now);
    appointments.InsertOne(doc);
    formatted := Format(staff, patients, doc);
  }

  /** The checks of handle_add_appointment, in the order the handler makes them, up to the first write. */
  method CheckAddAppointment(appts: seq<Doc>, staff: seq<Doc>, patients: seq<Doc>, data: Doc)
    returns (decision: AddDecision)
    ensures decision == AddDecide(appts, staff, patients, data)
    ensures decision.Book? ==> HasAddFields(data)
  {
    if !HasAddFields(data) {
      return MissingFields;
    }
    var staffId := StaffIdByName(staff, data[PractitionerName]);
    if !Truthy(staffId) {
      return NoPractitioner;
    }
    var patientId := PatientIdByName(patients, data[PatientName]);
    if !Truthy(patientId) {
      return NoPatient;
    }
    var conflict := FindOne(appts, AppointmentKey(staffId, data[Date], data[StartTime]));
    SameStartIsFindOne(appts, staffId, data[Date], data[StartTime]);
    if conflict.Some? {
      return SlotTaken;
    }
    return Book(staffId, patientId);
  }

  /** The booked appointment gets an ID no stored appointment has, as long as none exceeds the counter. */
  lemma AddedIdFresh(appts: seq<Doc>, counters: map<string, nat>, doc: Doc)
    requires NoIdAbove(appts, AppointmentId, CounterValue(counters, AppointmentId))
    requires Get(doc, AppointmentId) == Int(CounterValue(counters, AppointmentId) + 1)
    ensures forall j :: 0 <= j < |appts| ==> Get(appts[j], AppointmentId) != Get(doc, AppointmentId)
    ensures NoIdAbove(appts + [doc], AppointmentId, CounterValue(counters, AppointmentId) + 1)
  {
    NextIdFresh(appts, AppointmentId, CounterValue(counters, AppointmentId), doc);
  }

  // ---------------------------------------------------------------------
  // Walk-ins
  // ---------------------------------------------------------------------

  predicate IsWalkInRow(row: Doc, date: Value)
  {
    Get(row, WorkDate) == date && Get(row, IsWalkin) == Bool(true)
  }

  /** The walk-in rows of the date, in slot_start order. */
  function WalkInRows(schedules: seq<Doc>, date: Value): seq<Doc>
  {
    FindSorted(schedules, d => IsWalkInRow(d, date), [SlotStart])
  }

  /** `taken_slots`: the (staff_id, start_time) pairs of the date's appointments. */
  function TakenSlots(appts: seq<Doc>, date: Value): set<(Value, Value)>
  {
    set j | 0 <= j < |appts| && Get(appts[j], Date) == date :: (Get(appts[j], StaffId), Get(appts[j], StartTime))
  }

  function RowKey(row: Doc): (Value, Value)
  {
    (Get(row, StaffId), Get(row, SlotStart))
  }

  /** The index of the first row whose key is not taken. */
  function FirstFreeRow(rows: seq<Doc>, taken: set<(Value, Value)>): (r: Option<nat>)
    ensures r.Some? ==> r.value < |rows| && RowKey(rows[r.value]) !in taken
    ensures r.Some? ==> forall j :: 0 <= j < r.value ==> RowKey(rows[j]) in taken
    ensures r.None? ==> forall j :: 0 <= j < |rows| ==> RowKey(rows[j]) in taken
  {
    if rows == [] then None
    else if RowKey(rows[0]) !in taken then Some(0)
    else
      var r := FirstFreeRow(rows[1..], taken);
      if r.Some? then Some(r.value + 1) else None
  }

  /** The set-building loop over the date's appointments. */
  method CollectTaken(appts: seq<Doc>, date: Value) returns (taken: set<(Value, Value)>)
    ensures taken == TakenSlots(appts, date)
  {
    var dayAppointments := Sorting.Filter(appts, d => Get(d, Date) == date);
    taken := {};
    var i := 0;
    while i < |dayAppointments|
      invariant 0 <= i <= |dayAppointments|
      invariant taken == set j | 0 <= j < i :: (Get(dayAppointments[j], StaffId), Get(dayAppointments[j], StartTime))
    {
      taken := taken + {(Get(dayAppointments[i], StaffId), Get(dayAppointments[i], StartTime))};
      i := i + 1;
    }
    forall p | p in TakenSlots(appts, date) ensures p in taken {
      var j :| 0 <= j < |appts| && Get(appts[j], Date) == date &&
               p == (Get(appts[j], StaffId), Get(appts[j], StartTime));
      var k :| 0 <= k < |dayAppointments| && dayAppointments[k] == appts[j];
    }
  }

  /** The search loop: the first row whose key is not taken, with break. */
  method FindFreeRow(rows: seq<Doc>, taken: set<(Value, Value)>) returns (found: Option<nat>)
    ensures found == FirstFreeRow(rows, taken)
  {
    found := None;
    var i := 0;
    while i < |rows|
      invariant 0 <= i <= |rows|
      invariant forall j :: 0 <= j < i ==> RowKey(rows[j]) in taken
    {
      if RowKey(rows[i]) !in taken {
        found := Some(i);
        FirstFreeRowIs(rows, taken, i);
        break;
      }
      i := i + 1;
    }
    if found.None? {
      FirstFreeRowNone(rows, taken);
    }
  }

  lemma {:induction false} FirstFreeRowIs(rows: seq<Doc>, taken: set<(Value, Value)>, i: nat)
    requires i < |rows| && RowKey(rows[i]) !in taken
    requires forall j :: 0 <= j < i ==> RowKey(rows[j]) in taken
    ensures FirstFreeRow(rows, taken) == Some(i)
  {
    if i > 0 {
      FirstFreeRowIs(rows[1..], taken, i - 1);
    }
  }

  lemma {:induction false} FirstFreeRowNone(rows: seq<Doc>, taken: set<(Value, Value)>)
    requires forall j :: 0 <= j < |rows| ==> RowKey(rows[j]) in taken
    ensures FirstFreeRow(rows, taken).None?
  {
    if rows != [] {
      FirstFreeRowNone(rows[1..], taken);
    }
  }

  /**
   * The row a walk-in takes is free: no appointment of that date has its
   * practitioner and start time, and every row before it in slot_start
   * order is taken.
   */
  lemma WalkInRowFree(appts: seq<Doc>, schedules: seq<Doc>, date: Value)
    requires FirstFreeRow(WalkInRows(schedules, date), TakenSlots(appts, date)).Some?
    ensures var rows := WalkInRows(schedules, date);
      var k := FirstFreeRow(rows, TakenSlots(appts, date)).value;
      IsWalkInRow(rows[k], date) &&
      forall j :: 0 <= j < |appts| && Get(appts[j], Date) == date ==>
        (Get(appts[j], StaffId), Get(appts[j], StartTime)) != RowKey(rows[k])
  {
    var rows := WalkInRows(schedules, date);
    var k := FirstFreeRow(rows, TakenSlots(appts, date)).value;
    FindSortedSpec(schedules, d => IsWalkInRow(d, date), [SlotStart]);
    assert rows[k] in rows;
  }

  /** What handle_add_walk_in decides before any write. */
  datatype WalkInDecision =
    | WalkInMissingFields
    | WalkInNoPatient
    | NoRows
    | AllTaken
    | IncompleteRow
    | TakeRow(row: Doc, patientId: Value)

  /** A chosen row can be copied into an appointment only with all three fields; otherwise the copy raises. */
  predicate CompleteRow(row: Doc)
  {
    StaffId in row && SlotStart in row && SlotEnd in row
  }

  function WalkInDecide(appts: seq<Doc>, patients: seq<Doc>, schedules: seq<Doc>, data: Doc): WalkInDecision
  {
    if !HasWalkInFields(data) then WalkInMissingFields
    else
      var patientId := PatientIdByName(patients, data[PatientName]);
      var rows := WalkInRows(schedules, data[Date]);
      var pick := FirstFreeRow(rows, TakenSlots(appts, data[Date]));
      if !Truthy(patientId) then WalkInNoPatient
      else if rows == [] then NoRows
      else if pick.None? then AllTaken
      else if !CompleteRow(rows[pick.value]) then IncompleteRow
      else TakeRow(rows[pick.value], patientId)
  }

  function WalkInCode(d: WalkInDecision): int
  {
    match d
    case WalkInMissingFields => 400
    case WalkInNoPatient => 404
    case NoRows => 404
    case AllTaken => 409
    case IncompleteRow => 500
    case TakeRow(_, _) => 201
  }

  /** The walk-in appointment: practitioner and times from the row, type "walk-in", created_by defaulting to "System". */
  function WalkInAppointment(id: nat, row: Doc, patientId: Value, data: Doc, now: int): Doc
    requires CompleteRow(row) && Date in data
  {
    NewAppointment(id, row[StaffId], patientId, data, WalkInKind, row[SlotStart], row[SlotEnd], now)
      [CreatedBy := GetOr(data, ScheduledBy, Str(SystemUser))]
  }

  /**
   * The effect of handle_add_walk_in once the checks have decided: the
   * decision's status code; the counter advanced exactly when a row was
   * chosen (complete or not); and for a complete row the walk-in
   * appointment under the new ID appended and returned formatted.
   */
  ghost predicate WalkInHandled(docs: seq<Doc>, values: map<string, nat>, docs': seq<Doc>, values': map<string, nat>,
                                staff: seq<Doc>, patients: seq<Doc>, decision: WalkInDecision, data: Doc, now: int,
                                code: int, created: Option<Formatted>)
    requires decision.TakeRow? ==> CompleteRow(decision.row) && Date in data
  {
    var id := CounterValue(values, AppointmentId) + 1;
    code == WalkInCode(decision) &&
    (!decision.TakeRow? ==> created.None? && docs' == docs) &&
    (!decision.TakeRow? && !decision.IncompleteRow? ==> values' == values) &&
    (decision.IncompleteRow? ==> values' == values[AppointmentId := id]) &&
    (decision.TakeRow? ==>
       var doc := WalkInAppointment(id, decision.row, decision.patientId, data, now);
       values' == values[AppointmentId := id] && docs' == docs + [doc] &&
       created == Some(Format(staff, patients, doc)))
  }

  /** handle_add_walk_in. The counter is advanced before the row's fields are read, so a row without them costs an ID. */
  method HandleAddWalkIn(appointments: Collection, staff: seq<Doc>, patients: seq<Doc>,
                         schedules: seq<Doc>, counters: Counters, data: Doc, now: int)
    returns (code: int, created: Option<Formatted>)
    modifies appointments, counters
    ensures var decision := WalkInDecide(old(appointments.docs), patients, schedules, data);
      (decision.TakeRow? ==> CompleteRow(decision.row) && Date in data) &&
      WalkInHandled(old(appointments.docs), old(counters.values), appointments.docs, counters.values,
                    staff, patients, decision, data, now, code, created)
  {
    var decision := CheckAddWalkIn(appointments.docs, patients, schedules, data);
    code, created := ApplyWalkIn(appointments, staff, patients, counters, decision, data, now);
  }

  /** The rest of handle_add_walk_in once the checks have decided: advance the counter, then insert and format. */
  method ApplyWalkIn(appointments: Collection, staff: seq<Doc>, patients: seq<Doc>, counters: Counters,
                     decision: WalkInDecision, data: Doc, now: int)
    returns (code: int, created: Option<Formatted>)
    requires decision.TakeRow? ==> CompleteRow(decision.row) && Date in data
    modifies appointments, counters
    ensures WalkInHandled(old(appointments.docs), old(counters.values), appointments.docs, counters.values,
                          staff, patients, decision, data, now, code, created)
  {
    code, created := WalkInCode(decision), None;
    if decision.TakeRow? {
      var formatted := BookWalkIn(appointments, staff, patients, counters, decision.row, decision.patientId, data, now);
      created := Some(formatted);
    } else if decision.IncompleteRow? {
      // The ID is drawn, then reading the row's missing field fails.
      var _ := counters.Next(AppointmentId);
    }
  }

  /** The writes for a complete row: the next appointment_id, the insert, and the formatted response. */
  method BookWalkIn(appointments: Collection, staff: seq<Doc>, patients: seq<Doc>, counters: Counters,
                    row: Doc, patientId: Value, data: Doc, now: int)
    returns (formatted: Formatted)
    requires CompleteRow(row) && Date in data
    modifies appointments, counters
    ensures var id := CounterValue(old(counters.values), AppointmentId) + 1;
      var doc := WalkInAppointment(id, row, patientId, data, now);
      counters.values == old(counters.values)[AppointmentId := id] &&
      appointments.docs == old(appointments.docs) + [doc] && formatted == Format(staff, patients, doc)
  {
    var newId := counters.Next(AppointmentId);
    formatted := InsertWalkIn(appointments, staff, patients, newId, row, patientId, data, now);
  }

  /** The insert of handle_add_walk_in under the new ID, and the formatted appointment it answers with. */
  method InsertWalkIn(appointments: Collection, staff: seq<Doc>, patients: seq<Doc>, id: nat,
                      row: Doc, patientId: Value, data: Doc, now: int)
    returns (formatted: Formatted)
    requires CompleteRow(row) && Date in data
    modifies appointments
    ensures var doc := WalkInAppointment(id, row, patientId, data, now);
      appointments.docs == old(appointments.docs) + [doc] && formatted == Format(staff, patients, doc)
  {
    var doc := WalkInAppointment(id, row, patientId, data, now);
    appointments.InsertOne(doc);
    formatted := Format(staff, patients, doc);
  }

  /** The checks of handle_add_walk_in, in the handler's order, up to the counter advance. */
  method CheckAddWalkIn(appts: seq<Doc>, patients: seq<Doc>, schedules: seq<Doc>, data: Doc)
    returns (decision: WalkInDecision)
    ensures decision == WalkInDecide(appts, patients, schedules, data)
    ensures decision.TakeRow? ==> CompleteRow(decision.row) && Date in data
  {
    if !HasWalkInFields(data) {
      return WalkInMissingFields;
    }
    var patientId := PatientIdByName(patients, data[PatientName]);
    if !Truthy(patientId) {
      return WalkInNoPatient;
    }
    var walkInSlots := FindSorted(schedules, d => IsWalkInRow(d, data[Date]), [SlotStart]);
    assert walkInSlots == WalkInRows(schedules, data[Date]);
    if |walkInSlots| == 0 {
      return NoRows;
    }
    var takenSlots := CollectTaken(appts, data[Date]);
    var found := FindFreeRow(walkInSlots, takenSlots);
    if found.None? {
      return AllTaken;
    }
    var row := walkInSlots[found.value];
    if !CompleteRow(row) {
      return IncompleteRow;
    }
    return TakeRow(row, patientId);
  }

  // ---------------------------------------------------------------------
  // Update and delete
  // ---------------------------------------------------------------------

  const DirectFields: seq<string> := [Date, StartTime, EndTime, PatientDetails]

  /** The resolved practitioner and patient IDs of the update, or the 404 of a name that does not resolve. */
  function NamedFields(staff: seq<Doc>, patients: seq<Doc>, data: Doc): Result<Doc>
  {
    var staffPart: Result<Doc> :=
      if PractitionerName in data then
        (var id := StaffIdByName(staff, data[PractitionerName]);
         if Truthy(id) then Ok(map[StaffId := id]) else Err("Practitioner not found"))
      else Ok(map[]);
    if staffPart.Err? then staffPart
    else if PatientName in data then
      (var id := PatientIdByName(patients, data[PatientName]);
       if Truthy(id) then Ok(staffPart.value[PatientId := id]) else Err("Patient not found"))
    else staffPart
  }

  /** The `$set` handle_update_appointment builds: the resolved IDs, then the direct fields present in the request. */
  function UpdateFields(staff: seq<Doc>, patients: seq<Doc>, data: Doc): Result<Doc>
  {
    var named := NamedFields(staff, patients, data);
    if named.Err? then named else Ok(CopyPresent(named.value, data, DirectFields))
  }

  /** `for field in fields: if field in data: update[field] = data[field]`. */
  function CopyPresent(update: Doc, data: Doc, fields: seq<string>): Doc
    decreases |fields|
  {
    if fields == [] then update
    else
      var next := if fields[0] in data then update[fields[0] := data[fields[0]]] else update;
      CopyPresent(next, data, fields[1..])
  }

  /** The copy adds exactly the listed fields the request has, with the request's values, and keeps the rest. */
  lemma {:induction false} CopyPresentSpec(update: Doc, data: Doc, fields: seq<string>)
    ensures var r := CopyPresent(update, data, fields);
      (forall k :: k in r <==> k in update || (k in fields && k in data)) &&
      (forall k :: k in r ==> r[k] == if k in fields && k in data then data[k] else update[k])
    decreases |fields|
  {
    if fields != [] {
      var next := if fields[0] in data then update[fields[0] := data[fields[0]]] else update;
      CopyPresentSpec(next, data, fields[1..]);
      assert forall k :: k in fields <==> k == fields[0] || k in fields[1..];
    }
  }

  /** One field of the copy: copying from position i on is copying field i, then the fields after it. */
  lemma CopyPresentStep(update: Doc, next: Doc, data: Doc, fields: seq<string>, i: nat)
    requires i < |fields|
    requires next == if fields[i] in data then update[fields[i] := data[fields[i]]] else update
    ensures CopyPresent(update, data, fields[i..]) == CopyPresent(next, data, fields[i + 1..])
  {
    assert fields[i..][0] == fields[i] && fields[i..][1..] == fields[i + 1..];
  }

  /**
   * The update only ever writes the resolved IDs and the four direct fields,
   * each with the request's value, and never appointment_id.
   */
  lemma UpdateFieldsSpec(staff: seq<Doc>, patients: seq<Doc>, data: Doc)
    requires UpdateFields(staff, patients, data).Ok?
    ensures var u := UpdateFields(staff, patients, data).value;
      (forall k :: k in u ==> k in {StaffId, PatientId, Date, StartTime, EndTime, PatientDetails}) &&
      (forall k :: k in DirectFields ==> (k in u <==> k in data) && (k in data ==> u[k] == data[k])) &&
      (StaffId in u <==> PractitionerName in data) &&
      (PatientId in u <==> PatientName in data) &&
      (StaffId in u ==> u[StaffId] == StaffIdByName(staff, data[PractitionerName]) && Truthy(u[StaffId])) &&
      (PatientId in u ==> u[PatientId] == PatientIdByName(patients, data[PatientName]) && Truthy(u[PatientId]))
  {
    var named := NamedFields(staff, patients, data).value;
    CopyPresentSpec(named, data, DirectFields);
    assert StaffId !in DirectFields && PatientId !in DirectFields;
  }

  /** handle_update_appointment: no conflict check is made before the write. */
  method HandleUpdateAppointment(appointments: Collection, staff: seq<Doc>, patients: seq<Doc>,
                                 appointmentId: Value, data: Doc)
    returns (code: int, updated: Option<Formatted>)
    modifies appointments
    ensures data == map[] ==> code == 400 && appointments.docs == old(appointments.docs)
    ensures data != map[] && UpdateFields(staff, patients, data).Err? ==>
      code == 404 && appointments.docs == old(appointments.docs)
    ensures data != map[] && UpdateFields(staff, patients, data) == Ok(map[]) ==>
      code == 400 && appointments.docs == old(appointments.docs)
    ensures data != map[] && UpdateFields(staff, patients, data).Ok? &&
            UpdateFields(staff, patients, data).value != map[] ==>
      var i := FirstMatch(old(appointments.docs), FieldEquals(AppointmentId, appointmentId));
      (i.None? ==> code == 404 && appointments.docs == old(appointments.docs)) &&
      (i.Some? ==>
         (code == 200 &&
          appointments.docs == old(appointments.docs)[i.value :=
            SetFields(old(appointments.docs)[i.value], UpdateFields(staff, patients, data).value)] &&
          updated == Some(Format(staff, patients, appointments.docs[i.value]))))
  {
    if data == map[] {
      return 400, None;
    }
    var fields := CollectUpdateFields(staff, patients, data);
    if fields.Err? {
      return 404, None;
    }
    if fields.value == map[] {
      return 400, None;
    }
    var result := appointments.FindOneAndSet(FieldEquals(AppointmentId, appointmentId), fields.value);
    if result.None? {
      return 404, None;
    }
    return 200, Some(Format(staff, patients, result.value));
  }

  /** The update dictionary of handle_update_appointment: the name lookups first, then the direct fields in order. */
  method CollectUpdateFields(staff: seq<Doc>, patients: seq<Doc>, data: Doc) returns (r: Result<Doc>)
    ensures r == UpdateFields(staff, patients, data)
  {
    var updateFields: Doc := map[];
    if PractitionerName in data {
      var staffId := StaffIdByName(staff, data[PractitionerName]);
      if !Truthy(staffId) {
        return Err("Practitioner not found");
      }
      updateFields := updateFields[StaffId := staffId];
    }
    if PatientName in data {
      var patientId := PatientIdByName(patients, data[PatientName]);
      if !Truthy(patientId) {
        return Err("Patient not found");
      }
      updateFields := updateFields[PatientId := patientId];
    }
    ghost var goal := CopyPresent(updateFields, data, DirectFields);
    assert UpdateFields(staff, patients, data) == Ok(goal);
    var i := 0;
    while i < |DirectFields|
      invariant 0 <= i <= |DirectFields|
      invariant CopyPresent(updateFields, data, DirectFields[i..]) == goal
    {
      ghost var before := updateFields;
      var field := DirectFields[i];
      if field in data {
        updateFields := updateFields[field := data[field]];
      }
      CopyPresentStep(before, updateFields, data, DirectFields, i);
      i := i + 1;
    }
    r := Ok(updateFields);
  }

  /** handle_delete_appointment: a hard delete of the first appointment with that ID. */
  method HandleDeleteAppointment(appointments: Collection, appointmentId: Value) returns (code: int)
    modifies appointments
    ensures FirstMatch(old(appointments.docs), FieldEquals(AppointmentId, appointmentId)).None? ==>
      code == 404 && appointments.docs == old(appointments.docs)
    ensures FirstMatch(old(appointments.docs), FieldEquals(AppointmentId, appointmentId)).Some? ==>
      code == 200 &&
      appointments.docs == RemoveAt(old(appointments.docs),
                                    FirstMatch(old(appointments.docs), FieldEquals(AppointmentId, appointmentId)).value)
  {
    var deleted := appointments.DeleteOne(FieldEquals(AppointmentId, appointmentId));
    code := if deleted then 200 else 404;
  }
}
