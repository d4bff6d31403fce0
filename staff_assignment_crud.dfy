/**
 * The staff assignment store of the clinic API (StaffAssignmentCRUD): the
 * same on-call roster as the first backend, read and written through typed
 * records. The typed record's `date` is a date; it is written as its
 * `isoformat()` text and parsed back with `date.fromisoformat` on every
 * read, so a record whose `date` is missing or not such a text (the first
 * backend's handlers write whatever text they are sent) makes the read
 * fail. The other submitted fields form a document; fields the update
 * model leaves unset arrive as None.
 */
module StaffAssignmentCrud {
  import opened Wrappers
  import opened Documents
  import Calendar
  import DateText
  import Sorting
  import CoverageService

  const AssignmentId: string := "assignment_id"
  const DateField: string := CoverageService.Date

  /** A StaffAssignment as the class hands it out: its date as a date, and its other stored fields. */
  datatype Assignment = Assignment(date: Calendar.Date, fields: Doc)

  /** A value Python's `date` can hold: an existing day of the years 1 to 9999. */
  predicate PythonDate(d: Calendar.Date)
  {
    Calendar.ValidDate(d) && 1 <= d.year <= 9999
  }

  /** `data["date"]` on a record without one. */
  const MissingDateError: string := "KeyError: 'date'"
  /** `date.fromisoformat` given something other than a str. */
  const DateNotTextError: string := "TypeError: fromisoformat: argument must be str"
  /** `date.fromisoformat` given a str that is not a YYYY-MM-DD date. */
  const DateNotIsoError: string := "ValueError: Invalid isoformat string"

  /** Reading a stored record back: its `date` parsed with fromisoformat, or the error that raises. */
  function Read(data: Doc): (r: Result<Assignment>)
    ensures r.Ok? <==> DateField in data && data[DateField].Str? && DateText.ParseIsoDate(data[DateField].s).Some?
    ensures r.Ok? ==> r.value.fields == data - {DateField} && PythonDate(r.value.date)
    ensures DateField !in data ==> r == Err(MissingDateError)
    ensures DateField in data && !data[DateField].Str? ==> r == Err(DateNotTextError)
    ensures DateField in data && data[DateField].Str? && DateText.ParseIsoDate(data[DateField].s).None? ==>
      r == Err(DateNotIsoError)
  {
    if DateField !in data then Err(MissingDateError)
    else if !data[DateField].Str? then Err(DateNotTextError)
    else
      var day := DateText.ParseIsoDate(data[DateField].s);
      if day.None? then Err(DateNotIsoError)
      else
        assert day.value.year <= 9999 by {
          DateText.ParseNatBound(data[DateField].s[..4]);
        }
        Ok(Assignment(day.value, data - {DateField}))
  }

  /**
   * The assignment as stored: the submitted fields with the counter-issued
   * ID and the date's ISO text.
   */
  function Stored(assignment: Doc, date: Calendar.Date, id: nat): (d: Doc)
    requires PythonDate(date)
    ensures d.Keys == assignment.Keys + {AssignmentId, DateField}
    ensures d[AssignmentId] == Int(id) && d[DateField] == Str(DateText.FormatYmd(date))
    ensures forall k :: k in assignment && k != AssignmentId && k != DateField ==> d[k] == assignment[k]
  {
    var text := DateText.FormatYmd(date);
    WithIdAndDate(assignment, text, id);
    assignment[AssignmentId := Int(id)][DateField := Str(text)]
  }

  /** The fields of a record given its ID and its date text. */
  lemma WithIdAndDate(assignment: Doc, text: string, id: nat)
    ensures var d := assignment[AssignmentId := Int(id)][DateField := Str(text)];
      d.Keys == assignment.Keys + {AssignmentId, DateField} &&
      d[AssignmentId] == Int(id) && d[DateField] == Str(text) &&
      forall k :: k in assignment && k != AssignmentId && k != DateField ==> d[k] == assignment[k]
  {
  }

  /** What create stores reads back through fromisoformat with the submitted date. */
  lemma StoredReadsBack(assignment: Doc, date: Calendar.Date, id: nat)
    requires PythonDate(date)
    ensures Read(Stored(assignment, date, id)) == Ok(Assignment(date, Stored(assignment, date, id) - {DateField}))
  {
    ReadIsoText(Stored(assignment, date, id), date);
  }

  /** A record whose `date` is a date's ISO text reads back with that date. */
  lemma ReadIsoText(data: Doc, date: Calendar.Date)
    requires PythonDate(date)
    requires DateField in data && data[DateField] == Str(DateText.FormatYmd(date))
    ensures Read(data) == Ok(Assignment(date, data - {DateField}))
  {
    DateText.ParseIsoFormat(date);
  }

  /**
   * create: the record gets the next `assignment_id` and the date's ISO
   * text, keeps every other submitted field, and is returned with its date.
   */
  method Create(coverage: Collection, counters: Counters, assignment: Doc, date: Calendar.Date)
      returns (created: Assignment)
    requires PythonDate(date)
    modifies coverage, counters
    ensures AssignmentId in counters.values &&
      counters.values[AssignmentId] == CounterValue(old(counters.values), AssignmentId) + 1
    ensures counters.values == old(counters.values)[AssignmentId := counters.values[AssignmentId]]
    ensures coverage.docs == old(coverage.docs) + [Stored(assignment, date, counters.values[AssignmentId])]
    ensures created == Assignment(date, Stored(assignment, date, counters.values[AssignmentId]) - {DateField})
  {
    var assignmentId := counters.Next(AssignmentId);
    created := InsertAssignment(coverage, assignment, date, assignmentId);
  }

  /** The dictionary create builds under a given ID, inserted and returned with its date. */
  method InsertAssignment(coverage: Collection, assignment: Doc, date: Calendar.Date, assignmentId: nat)
      returns (created: Assignment)
    requires PythonDate(date)
    modifies coverage
    ensures coverage.docs == old(coverage.docs) + [Stored(assignment, date, assignmentId)]
    ensures created == Assignment(date, Stored(assignment, date, assignmentId) - {DateField})
  {
    var assignmentDict := assignment[AssignmentId := Int(assignmentId)];
    assignmentDict := assignmentDict[DateField := Str(DateText.FormatYmd(date))];
    ghost var stored := Stored(assignment, date, assignmentId);
    assert assignmentDict == stored;
    coverage.InsertOne(assignmentDict);
    created := Assignment(date, assignmentDict - {DateField});
    assert created.fields == stored - {DateField};
  }

  /** A record found by get, read back. */
  function Found(data: Doc): (r: Result<Option<Assignment>>)
    ensures r.Ok? <==> Read(data).Ok?
    ensures r.Ok? ==> r.value == Some(Read(data).value)
    ensures r.Err? ==> r.message == Read(data).message
  {
    var a := Read(data);
    if a.Ok? then Ok(Some(a.value)) else Err(a.message)
  }

  /** get: None without a record with that ID; otherwise the first one, unless its date cannot be read. */
  function Get(docs: seq<Doc>, assignmentId: Value): (r: Result<Option<Assignment>>)
    ensures var found := FindOne(docs, FieldEquals(AssignmentId, assignmentId));
      (found.None? ==> r == Ok(None)) &&
      (found.Some? ==> (r.Ok? <==> Read(found.value).Ok?) &&
                       (r.Ok? ==> r.value == Some(Read(found.value).value)) &&
                       (r.Err? ==> r.message == Read(found.value).message))
  {
    var data := FindOne(docs, FieldEquals(AssignmentId, assignmentId));
    if data.Some? then Found(data.value) else Ok(None)
  }

  /**
   * get_all: the records in roster order, each read back; the first record
   * whose date cannot be read ends the call with its error.
   */
  method GetAll(coverage: seq<Doc>) returns (r: Result<seq<Assignment>>)
    ensures var cursor := CoverageService.Roster(coverage);
      multiset(cursor) == multiset(coverage) && Sorting.SortedBy(cursor, SortKeys(CoverageService.RosterOrder)) &&
      (r.Ok? <==> forall i :: 0 <= i < |cursor| ==> Read(cursor[i]).Ok?) &&
      (r.Ok? ==> |r.value| == |cursor| && forall i :: 0 <= i < |cursor| ==> Read(cursor[i]) == Ok(r.value[i])) &&
      (r.Err? ==> exists i :: 0 <= i < |cursor| && Read(cursor[i]) == Err(r.message) &&
                              forall j :: 0 <= j < i ==> Read(cursor[j]).Ok?)
    ensures r.Ok? <==> forall d :: d in coverage ==> Read(d).Ok?
  {
    var dataCursor := FindSorted(coverage, CoverageService.AllDocs(), CoverageService.RosterOrder);
    CoverageService.RosterSpec(coverage);
    r := ReadCursor(dataCursor);
    ReadsOfPermutation(dataCursor, coverage);
  }

  /** The loop of get_all: each record of the cursor read back in turn, stopping at the first that fails. */
  method ReadCursor(cursor: seq<Doc>) returns (r: Result<seq<Assignment>>)
    ensures r.Ok? <==> forall i :: 0 <= i < |cursor| ==> Read(cursor[i]).Ok?
    ensures r.Ok? ==> |r.value| == |cursor| && forall i :: 0 <= i < |cursor| ==> Read(cursor[i]) == Ok(r.value[i])
    ensures r.Err? ==> exists i :: 0 <= i < |cursor| && Read(cursor[i]) == Err(r.message) &&
                                   forall j :: 0 <= j < i ==> Read(cursor[j]).Ok?
  {
    var assignments := [];
    var i := 0;
    while i < |cursor|
      invariant 0 <= i <= |cursor| && |assignments| == i
      invariant forall j :: 0 <= j < i ==> Read(cursor[j]) == Ok(assignments[j])
    {
      var a := Read(cursor[i]);
      if a.Err? {
        return Err(a.message);
      }
      assignments := assignments + [a.value];
      i := i + 1;
    }
    return Ok(assignments);
  }

  /** Reading succeeds on every record of a sequence exactly when it does on every record of a permutation of it. */
  lemma ReadsOfPermutation(a: seq<Doc>, b: seq<Doc>)
    requires multiset(a) == multiset(b)
    ensures (forall i :: 0 <= i < |a| ==> Read(a[i]).Ok?) <==> (forall d :: d in b ==> Read(d).Ok?)
  {
    if forall i :: 0 <= i < |a| ==> Read(a[i]).Ok? {
      forall d | d in b ensures Read(d).Ok? {
        assert d in multiset(a);
      }
    }
    if forall d :: d in b ==> Read(d).Ok? {
      forall i | 0 <= i < |a| ensures Read(a[i]).Ok? {
        assert a[i] in multiset(b);
      }
    }
  }

  /**
   * The `$set` of update: the fields not given as None, and the date's ISO
   * text when a date is given.
   */
  function UpdateDict(updateData: Doc, date: Option<Calendar.Date>): (u: Doc)
    requires date.Some? ==> PythonDate(date.value)
    requires DateField !in updateData
    ensures u.Keys == WithoutNulls(updateData).Keys + (if date.Some? then {DateField} else {})
    ensures forall k :: k in WithoutNulls(updateData) ==> u[k] == updateData[k]
    ensures date.Some? ==> u[DateField] == Str(DateText.FormatYmd(date.value))
  {
    var u := WithoutNulls(updateData);
    if date.Some? then u[DateField := Str(DateText.FormatYmd(date.value))] else u
  }

  /**
   * update: with nothing to set, the stored record is read as it is;
   * otherwise the first match is `$set` and read back, and None means no
   * record has that ID.
   */
  method Update(coverage: Collection, assignmentId: Value, updateData: Doc, date: Option<Calendar.Date>)
      returns (r: Result<Option<Assignment>>)
    requires date.Some? ==> PythonDate(date.value)
    requires DateField !in updateData
    modifies coverage
    ensures UpdateDict(updateData, date) == map[] ==>
      coverage.docs == old(coverage.docs) && r == Get(old(coverage.docs), assignmentId)
    ensures UpdateDict(updateData, date) != map[] ==>
      var i := FirstMatch(old(coverage.docs), FieldEquals(AssignmentId, assignmentId));
      (i.None? ==> r == Ok(None) && coverage.docs == old(coverage.docs)) &&
      (i.Some? ==>
         coverage.docs == old(coverage.docs)[i.value := SetFields(old(coverage.docs)[i.value], UpdateDict(updateData, date))] &&
         r == Get(coverage.docs, assignmentId))
  {
    var updateDict := WithoutNulls(updateData);
    if date.Some? {
      updateDict := updateDict[DateField := Str(DateText.FormatYmd(date.value))];
    }
    if updateDict == map[] {
      return Get(coverage.docs, assignmentId);
    }
    var matched := coverage.UpdateOneSet(FieldEquals(AssignmentId, assignmentId), updateDict);
    if matched {
      return Get(coverage.docs, assignmentId);
    }
    return Ok(None);
  }

  /**
   * When the update leaves the ID alone, reading back after a matched
   * update reads exactly the updated record.
   */
  lemma UpdateReadsBackUpdated(docs: seq<Doc>, assignmentId: Value, update: Doc)
    requires AssignmentId !in update
    requires FirstMatch(docs, FieldEquals(AssignmentId, assignmentId)).Some?
    ensures var i := FirstMatch(docs, FieldEquals(AssignmentId, assignmentId)).value;
      Get(docs[i := SetFields(docs[i], update)], assignmentId) == Found(SetFields(docs[i], update))
  {
    var i := FirstMatch(docs, FieldEquals(AssignmentId, assignmentId)).value;
    var after := docs[i := SetFields(docs[i], update)];
    assert Documents.Get(after[i], AssignmentId) == Documents.Get(docs[i], AssignmentId);
    FirstMatchSame(docs, after, FieldEquals(AssignmentId, assignmentId), i);
  }

  /**
   * An update that gives a date reads back with that date, whatever the
   * record held before; one that gives none reads back only if the stored
   * date could already be read.
   */
  lemma UpdatedDateReadsBack(data: Doc, updateData: Doc, date: Option<Calendar.Date>)
    requires date.Some? ==> PythonDate(date.value)
    requires DateField !in updateData
    ensures var after := SetFields(data, UpdateDict(updateData, date));
      (date.Some? ==> Read(after) == Ok(Assignment(date.value, after - {DateField}))) &&
      (date.None? ==> (Read(after).Ok? <==> Read(data).Ok?))
  {
    var after := SetFields(data, UpdateDict(updateData, date));
    if date.Some? {
      DateText.ParseIsoFormat(date.value);
    } else {
      assert DateField in after <==> DateField in data;
      assert DateField in data ==> after[DateField] == data[DateField];
    }
  }

  /** Two sequences that agree outside index i and on whether i matches have the same first match. */
  lemma {:induction false} FirstMatchSame(a: seq<Doc>, b: seq<Doc>, filter: Doc -> bool, i: nat)
    requires |a| == |b| && i < |a|
    requires forall j :: 0 <= j < |a| && j != i ==> a[j] == b[j]
    requires filter(a[i]) == filter(b[i])
    ensures FirstMatch(a, filter) == FirstMatch(b, filter)
  {
    if i > 0 {
      FirstMatchSame(a[1..], b[1..], filter, i - 1);
    }
    else if !filter(a[0]) {
      assert a[1..] == b[1..];
    }
  }

  /** delete: true exactly when a record with that ID was removed. */
  method Delete(coverage: Collection, assignmentId: Value) returns (deleted: bool)
    modifies coverage
    ensures deleted <==> FindOne(old(coverage.docs), FieldEquals(AssignmentId, assignmentId)).Some?
    ensures deleted ==>
      coverage.docs == RemoveAt(old(coverage.docs), FirstMatch(old(coverage.docs), FieldEquals(AssignmentId, assignmentId)).value)
    ensures !deleted ==> coverage.docs == old(coverage.docs)
  {
    deleted := coverage.DeleteOne(FieldEquals(AssignmentId, assignmentId));
  }
}
