/**
 * The early scheduling helpers of the first backend: inserting a weekly
 * coverage record or a practitioner's daily schedule row under an ID from
 * a named counter, and updating either from optional arguments, of which
 * only those given (not None) are written.
 */
module LegacyAppointment {
  import opened Documents

  const CoverageId: string := "Coverage_Id"
  const StaffId: string := "Staff_Id"
  const WeekStart: string := "Week_Start"
  const OnCallPhone: string := "On_Call_Phone"
  const Notes: string := "Notes"

  const SchedId: string := "Sched_Id"
  const WorkDate: string := "Work_Date"
  const SlotStart: string := "Slot_Start"
  const SlotEnd: string := "Slot_End"
  const IsWalkin: string := "Is_Walkin"

  /** The stored coverage record; `notes` is None when not given. */
  function CoverageRecord(id: nat, staffId: Value, weekStart: Value, onCallPhone: Value, notes: Value): (d: Doc)
    ensures d.Keys == {CoverageId, StaffId, WeekStart, OnCallPhone, Notes}
    ensures d[CoverageId] == Int(id) && d[StaffId] == staffId && d[WeekStart] == weekStart
    ensures d[OnCallPhone] == onCallPhone && d[Notes] == notes
  {
    map[CoverageId := Int(id), StaffId := staffId, WeekStart := weekStart, OnCallPhone := onCallPhone, Notes := notes]
  }

  function ScheduleRecord(id: nat, staffId: Value, workDate: Value, slotStart: Value, slotEnd: Value,
                          isWalkin: Value): (d: Doc)
    ensures d.Keys == {SchedId, StaffId, WorkDate, SlotStart, SlotEnd, IsWalkin}
    ensures d[SchedId] == Int(id) && d[StaffId] == staffId && d[WorkDate] == workDate
    ensures d[SlotStart] == slotStart && d[SlotEnd] == slotEnd && d[IsWalkin] == isWalkin
  {
    map[SchedId := Int(id), StaffId := staffId, WorkDate := workDate, SlotStart := slotStart,
        SlotEnd := slotEnd, IsWalkin := isWalkin]
  }

  /** insert_weekly_coverage. */
  method InsertWeeklyCoverage(coverage: Collection, counters: Counters,
                              staffId: Value, weekStart: Value, onCallPhone: Value, notes: Value)
    modifies coverage, counters
    ensures var id := CounterValue(old(counters.values), CoverageId) + 1;
      counters.values == old(counters.values)[CoverageId := id] &&
      coverage.docs == old(coverage.docs) + [CoverageRecord(id, staffId, weekStart, onCallPhone, notes)]
  {
    var coverageId := counters.Next(CoverageId);
    var newCoverage := CoverageRecord(coverageId, staffId, weekStart, onCallPhone, notes);
    coverage.InsertOne(newCoverage);
  }

  /** insert_practitioner_schedule. */
  method InsertPractitionerSchedule(schedules: Collection, counters: Counters, staffId: Value, workDate: Value,
                                    slotStart: Value, slotEnd: Value, isWalkin: Value)
    modifies schedules, counters
    ensures var id := CounterValue(old(counters.values), SchedId) + 1;
      counters.values == old(counters.values)[SchedId := id] &&
      schedules.docs == old(schedules.docs) + [ScheduleRecord(id, staffId, workDate, slotStart, slotEnd, isWalkin)]
  {
    var schedId := counters.Next(SchedId);
    var newSchedule := ScheduleRecord(schedId, staffId, workDate, slotStart, slotEnd, isWalkin);
    schedules.InsertOne(newSchedule);
  }

  /** The `$set` of update_weekly_coverage: the arguments that were given. */
  function CoverageUpdate(staffId: Value, weekStart: Value, onCallPhone: Value, notes: Value): Doc
  {
    SetGiven(SetGiven(SetGiven(SetGiven(map[], StaffId, staffId), WeekStart, weekStart),
                      OnCallPhone, onCallPhone), Notes, notes)
  }

  function ScheduleUpdate(staffId: Value, workDate: Value, slotStart: Value, slotEnd: Value, isWalkin: Value): Doc
  {
    SetGiven(SetGiven(SetGiven(SetGiven(SetGiven(map[], StaffId, staffId), WorkDate, workDate),
                               SlotStart, slotStart), SlotEnd, slotEnd), IsWalkin, isWalkin)
  }

  /** The update holds only the named fields, never the record's own ID, and only given (not None) values. */
  lemma CoverageUpdateFields(staffId: Value, weekStart: Value, onCallPhone: Value, notes: Value)
    ensures var u := CoverageUpdate(staffId, weekStart, onCallPhone, notes);
      u.Keys <= {StaffId, WeekStart, OnCallPhone, Notes} && CoverageId !in u &&
      forall k :: k in u ==> u[k] != Null
  {
  }

  /**
   * Each argument is written exactly when given, with its value: reading
   * the update gives the argument itself, None standing for "not written".
   */
  lemma CoverageUpdateValues(staffId: Value, weekStart: Value, onCallPhone: Value, notes: Value)
    ensures var u := CoverageUpdate(staffId, weekStart, onCallPhone, notes);
      Get(u, StaffId) == staffId && Get(u, WeekStart) == weekStart &&
      Get(u, OnCallPhone) == onCallPhone && Get(u, Notes) == notes
  {
    var u1 := SetGiven(map[], StaffId, staffId);
    var u2 := SetGiven(u1, WeekStart, weekStart);
    var u3 := SetGiven(u2, OnCallPhone, onCallPhone);
    assert Get(u3, StaffId) == staffId && Get(u3, WeekStart) == weekStart && Get(u3, OnCallPhone) == onCallPhone;
  }

  lemma ScheduleUpdateFields(staffId: Value, workDate: Value, slotStart: Value, slotEnd: Value, isWalkin: Value)
    ensures var u := ScheduleUpdate(staffId, workDate, slotStart, slotEnd, isWalkin);
      u.Keys <= {StaffId, WorkDate, SlotStart, SlotEnd, IsWalkin} && SchedId !in u &&
      forall k :: k in u ==> u[k] != Null
  {
    GivenFive(StaffId, WorkDate, SlotStart, SlotEnd, IsWalkin, staffId, workDate, slotStart, slotEnd, isWalkin);
    assert SchedId !in {StaffId, WorkDate, SlotStart, SlotEnd, IsWalkin};
  }

  lemma ScheduleUpdateValues(staffId: Value, workDate: Value, slotStart: Value, slotEnd: Value, isWalkin: Value)
    ensures var u := ScheduleUpdate(staffId, workDate, slotStart, slotEnd, isWalkin);
      Get(u, StaffId) == staffId && Get(u, WorkDate) == workDate && Get(u, SlotStart) == slotStart &&
      Get(u, SlotEnd) == slotEnd && Get(u, IsWalkin) == isWalkin
  {
    GivenFive(StaffId, WorkDate, SlotStart, SlotEnd, IsWalkin, staffId, workDate, slotStart, slotEnd, isWalkin);
  }

  /** A SetGiven step adds at most its key and never a None value. */
  lemma GivenKeeps(u: Doc, key: string, v: Value, keys: set<string>)
    requires u.Keys <= keys && forall k :: k in u ==> u[k] != Null
    ensures var r := SetGiven(u, key, v); r.Keys <= keys + {key} && forall k :: k in r ==> r[k] != Null
    ensures key !in keys ==> Get(SetGiven(u, key, v), key) == v
  {
  }

  /** Five SetGiven steps over distinct keys: each key reads back its argument, and only given values are kept. */
  lemma GivenFive(k1: string, k2: string, k3: string, k4: string, k5: string,
                  v1: Value, v2: Value, v3: Value, v4: Value, v5: Value)
    requires k1 != k2 && k1 != k3 && k1 != k4 && k1 != k5 && k2 != k3 && k2 != k4 && k2 != k5
    requires k3 != k4 && k3 != k5 && k4 != k5
    ensures var u := SetGiven(SetGiven(SetGiven(SetGiven(SetGiven(map[], k1, v1), k2, v2), k3, v3), k4, v4), k5, v5);
      Get(u, k1) == v1 && Get(u, k2) == v2 && Get(u, k3) == v3 && Get(u, k4) == v4 && Get(u, k5) == v5 &&
      u.Keys <= {k1, k2, k3, k4, k5} && forall k :: k in u ==> u[k] != Null
  {
    var u1 := SetGiven(map[], k1, v1);
    var u2 := SetGiven(u1, k2, v2);
    var u3 := SetGiven(u2, k3, v3);
    var u4 := SetGiven(u3, k4, v4);
    GivenKeeps(map[], k1, v1, {});
    GivenKeeps(u1, k2, v2, {k1});
    GivenKeeps(u2, k3, v3, {k1, k2});
    GivenKeeps(u3, k4, v4, {k1, k2, k3});
    GivenKeeps(u4, k5, v5, {k1, k2, k3, k4});
    assert Get(u2, k1) == v1;
    assert Get(u3, k1) == v1 && Get(u3, k2) == v2;
    assert Get(u4, k1) == v1 && Get(u4, k2) == v2 && Get(u4, k3) == v3;
  }

  /** An update with no argument given leaves the record as it is. */
  lemma EmptyUpdateKeepsRecord(d: Doc)
    ensures SetFields(d, CoverageUpdate(Null, Null, Null, Null)) == d
    ensures SetFields(d, ScheduleUpdate(Null, Null, Null, Null, Null)) == d
  {
    assert CoverageUpdate(Null, Null, Null, Null) == map[];
    assert ScheduleUpdate(Null, Null, Null, Null, Null) == map[];
  }

  /**
   * update_weekly_coverage: False and no write when no record has the ID;
   * otherwise the given fields are `$set` on the first match (nothing is
   * written when none was given) and the result is True.
   */
  method UpdateWeeklyCoverage(coverage: Collection, coverageId: Value,
                              staffId: Value, weekStart: Value, onCallPhone: Value, notes: Value)
    returns (ok: bool)
    modifies coverage
    ensures var i := FirstMatch(old(coverage.docs), FieldEquals(CoverageId, coverageId));
      (ok <==> i.Some?) &&
      (i.None? || CoverageUpdate(staffId, weekStart, onCallPhone, notes) == map[] ==> coverage.docs == old(coverage.docs)) &&
      (i.Some? && CoverageUpdate(staffId, weekStart, onCallPhone, notes) != map[] ==>
         coverage.docs == old(coverage.docs)[i.value :=
           SetFields(old(coverage.docs)[i.value], CoverageUpdate(staffId, weekStart, onCallPhone, notes))])
  {
    var found := FindOne(coverage.docs, FieldEquals(CoverageId, coverageId));
    if found.None? {
      return false;
    }
    var updateFields: Doc := map[];
    updateFields := SetGiven(updateFields, StaffId, staffId);
    updateFields := SetGiven(updateFields, WeekStart, weekStart);
    updateFields := SetGiven(updateFields, OnCallPhone, onCallPhone);
    updateFields := SetGiven(updateFields, Notes, notes);
    assert updateFields == CoverageUpdate(staffId, weekStart, onCallPhone, notes);
    if updateFields != map[] {
      var _ := coverage.UpdateOneSet(FieldEquals(CoverageId, coverageId), updateFields);
    }
    return true;
  }

  /** update_practitioner_schedule: the same contract, keyed by Sched_Id. */
  method UpdatePractitionerSchedule(schedules: Collection, schedId: Value, staffId: Value, workDate: Value,
                                    slotStart: Value, slotEnd: Value, isWalkin: Value)
    returns (ok: bool)
    modifies schedules
    ensures var i := FirstMatch(old(schedules.docs), FieldEquals(SchedId, schedId));
      (ok <==> i.Some?) &&
      (i.None? || ScheduleUpdate(staffId, workDate, slotStart, slotEnd, isWalkin) == map[] ==>
         schedules.docs == old(schedules.docs)) &&
      (i.Some? && ScheduleUpdate(staffId, workDate, slotStart, slotEnd, isWalkin) != map[] ==>
         schedules.docs == old(schedules.docs)[i.value :=
           SetFields(old(schedules.docs)[i.value], ScheduleUpdate(staffId, workDate, slotStart, slotEnd, isWalkin))])
  {
    var found := FindOne(schedules.docs, FieldEquals(SchedId, schedId));
    if found.None? {
      return false;
    }
    var updateFields: Doc := map[];
    updateFields := SetGiven(updateFields, StaffId, staffId);
    updateFields := SetGiven(updateFields, WorkDate, workDate);
    updateFields := SetGiven(updateFields, SlotStart, slotStart);
    updateFields := SetGiven(updateFields, SlotEnd, slotEnd);
    updateFields := SetGiven(updateFields, IsWalkin, isWalkin);
    assert updateFields == ScheduleUpdate(staffId, workDate, slotStart, slotEnd, isWalkin);
    if updateFields != map[] {
      var _ := schedules.UpdateOneSet(FieldEquals(SchedId, schedId), updateFields);
    }
    return true;
  }
}
