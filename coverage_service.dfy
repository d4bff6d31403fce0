/**
 * The on-call staff assignment handlers of the first backend (the weekly
 * coverage roster): the sorted list, add with five required fields and a
 * counter-issued ID, partial update of the supplied fields and delete.
 */
module CoverageService {
  import opened Wrappers
  import opened Documents
  import Sorting

  const AssignmentId: string := "assignment_id"
  const Date: string := "date"
  const StaffName: string := "staff_name"
  const OnCallStart: string := "on_call_start"
  const OnCallEnd: string := "on_call_end"
  const Phone: string := "phone"

  /** The five fields a request supplies, in the order the handlers name them. */
  const RequestFields: seq<string> := [Date, StaffName, OnCallStart, OnCallEnd, Phone]

  /** The roster order: by date, then by the start of the on-call period. */
  const RosterOrder: seq<string> := [Date, OnCallStart]

  // ---------------------------------------------------------------------
  // Listing
  // ---------------------------------------------------------------------

  /** One entry of the listing: the six fields of the assignment, None where absent. */
  function Entry(d: Doc): (e: Doc)
    ensures e.Keys == {AssignmentId, Date, StaffName, OnCallStart, OnCallEnd, Phone}
    ensures forall k :: k in e ==> e[k] == Get(d, k)
  {
    map[AssignmentId := Get(d, AssignmentId), Date := Get(d, Date), StaffName := Get(d, StaffName),
        OnCallStart := Get(d, OnCallStart), OnCallEnd := Get(d, OnCallEnd), Phone := Get(d, Phone)]
  }

  function Entries(docs: seq<Doc>): (r: seq<Doc>)
    ensures |r| == |docs|
    ensures forall i :: 0 <= i < |docs| ==> r[i] == Entry(docs[i])
  {
    if docs == [] then [] else [Entry(docs[0])] + Entries(docs[1..])
  }

  function AllDocs(): Doc -> bool
  {
    d => true
  }

  /** `find().sort([("date", 1), ("on_call_start", 1)])` on the roster. */
  function Roster(coverage: seq<Doc>): seq<Doc>
  {
    FindSorted(coverage, AllDocs(), RosterOrder)
  }

  /** handle_get_staff_assignments: the entries of the sorted roster, in cursor order. */
  method HandleGetStaffAssignments(coverage: seq<Doc>) returns (code: int, assignments: seq<Doc>)
    ensures code == 200
    ensures assignments == Entries(Roster(coverage))
  {
    var cursor := FindSorted(coverage, AllDocs(), RosterOrder);
    assignments := [];
    var i := 0;
    while i < |cursor|
      invariant 0 <= i <= |cursor|
      invariant assignments == Entries(cursor[..i])
    {
      Sorting.PrefixExtend(cursor, i);
      EntriesAppend(cursor[..i], cursor[i]);
      assignments := assignments + [Entry(cursor[i])];
      i := i + 1;
    }
    assert cursor[..i] == cursor;
    return 200, assignments;
  }

  lemma {:induction false} EntriesAppend(docs: seq<Doc>, d: Doc)
    ensures Entries(docs + [d]) == Entries(docs) + [Entry(d)]
  {
    assert |Entries(docs + [d])| == |Entries(docs) + [Entry(d)]|;
  }

  /** An entry sorts exactly where its assignment does. */
  lemma EntryKeysLe(a: Doc, b: Doc)
    ensures KeysLe(Entry(a), Entry(b), RosterOrder) == KeysLe(a, b, RosterOrder)
  {
    assert Get(Entry(a), Date) == Get(a, Date) && Get(Entry(b), Date) == Get(b, Date);
    assert Get(Entry(a), OnCallStart) == Get(a, OnCallStart) && Get(Entry(b), OnCallStart) == Get(b, OnCallStart);
    assert RosterOrder[1..] == [OnCallStart];
    assert KeysLe(Entry(a), Entry(b), [OnCallStart]) == KeysLe(a, b, [OnCallStart]);
  }

  /** The roster holds every stored assignment, as often as stored, ascending by date and then by on-call start. */
  lemma RosterSpec(coverage: seq<Doc>)
    ensures multiset(Roster(coverage)) == multiset(coverage)
    ensures Sorting.SortedBy(Roster(coverage), SortKeys(RosterOrder))
  {
    FindSortedSpec(coverage, AllDocs(), RosterOrder);
    FilterAllKeepsAll(coverage);
  }

  /** The listing holds one entry per stored assignment, in roster order. */
  lemma ListingSorted(coverage: seq<Doc>)
    ensures |Entries(Roster(coverage))| == |coverage|
    ensures Sorting.SortedBy(Entries(Roster(coverage)), SortKeys(RosterOrder))
  {
    RosterSpec(coverage);
    var r := Roster(coverage);
    assert |multiset(r)| == |multiset(coverage)|;
    var e := Entries(r);
    forall i, j | 0 <= i < j < |e| ensures KeysLe(e[i], e[j], RosterOrder) {
      EntryKeysLe(r[i], r[j]);
    }
  }

  lemma {:induction false} FilterAllKeepsAll(s: seq<Doc>)
    ensures Sorting.Filter(s, AllDocs()) == s
  {
    if s != [] {
      FilterAllKeepsAll(s[1..]);
    }
  }

  // ---------------------------------------------------------------------
  // Add
  // ---------------------------------------------------------------------

  predicate HasRequestFields(data: Doc)
  {
    Date in data && StaffName in data && OnCallStart in data && OnCallEnd in data && Phone in data
  }

  /** The stored assignment: the new ID and the five request fields, nothing else. */
  function NewAssignment(id: nat, data: Doc): (d: Doc)
    requires HasRequestFields(data)
    ensures d.Keys == {AssignmentId, Date, StaffName, OnCallStart, OnCallEnd, Phone}
    ensures d[AssignmentId] == Int(id)
    ensures forall k :: k in RequestFields ==> d[k] == data[k]
  {
    map[AssignmentId := Int(id), Date := data[Date], StaffName := data[StaffName],
        OnCallStart := data[OnCallStart], OnCallEnd := data[OnCallEnd], Phone := data[Phone]]
  }

  /**
   * Outcome code of an add, decided before any write: it succeeds exactly
   * when all five fields are present, so neither the order of start and end
   * nor an overlap with another assignment is checked.
   */
  function AddCode(data: Doc): (code: int)
    ensures code == 201 <==> HasRequestFields(data)
    ensures code != 201 ==> code == 400
  {
    if data == map[] || !HasRequestFields(data) then 400 else 201
  }

  /** handle_add_staff_assignment. */
  method HandleAddStaffAssignment(coverage: Collection, counters: Counters, data: Doc)
    returns (code: int, created: Option<Doc>)
    modifies coverage, counters
    ensures code == AddCode(data)
    ensures code == 400 ==>
      created.None? && coverage.docs == old(coverage.docs) && counters.values == old(counters.values)
    ensures code == 201 ==>
      var id := CounterValue(old(counters.values), AssignmentId) + 1;
      counters.values == old(counters.values)[AssignmentId := id] &&
      coverage.docs == old(coverage.docs) + [NewAssignment(id, data)] &&
      created == Some(NewAssignment(id, data))
  {
    if data == map[] {
      return 400, None;
    }
    if !HasRequestFields(data) {
      return 400, None;
    }
    var newId := counters.Next(AssignmentId);
    var newAssignment := NewAssignment(newId, data);
    coverage.InsertOne(newAssignment);
    return 201, Some(newAssignment);
  }

  // ---------------------------------------------------------------------
  // Update and delete
  // ---------------------------------------------------------------------

  /** The `$set` document: each of the five fields whose request value is not None. */
  function UpdateData(data: Doc): Doc
  {
    Pick(Pick(Pick(Pick(Pick(map[], data, Date), data, StaffName), data, OnCallStart), data, OnCallEnd), data, Phone)
  }

  /** The `$set` document holds exactly the supplied request fields, with their request values. */
  lemma UpdateDataSpec(data: Doc)
    ensures var u := UpdateData(data);
      (forall k :: k in u <==> k in RequestFields && Supplied(data, k)) &&
      (forall k :: k in u ==> k in data && u[k] == data[k])
  {
    var u1 := Pick(map[], data, Date);
    var u2 := Pick(u1, data, StaffName);
    var u3 := Pick(u2, data, OnCallStart);
    var u4 := Pick(u3, data, OnCallEnd);
    assert forall k :: k in u2 ==> k in data && u2[k] == data[k];
    assert forall k :: k in u4 ==> k in data && u4[k] == data[k];
  }

  /** The update with field k copied from the request when it is supplied there. */
  function Pick(update: Doc, data: Doc, k: string): (r: Doc)
    ensures forall f :: f in r <==> f in update || (f == k && Supplied(data, k))
    ensures forall f :: f in r ==> r[f] == if f == k && Supplied(data, k) then data[k] else update[f]
  {
    if Supplied(data, k) then update[k := data[k]] else update
  }

  /**
   * After the update a field holds the request's value when that was
   * supplied and one of the five, and its old value otherwise; in
   * particular assignment_id never changes.
   */
  lemma UpdateChangesOnlySupplied(d: Doc, data: Doc)
    ensures forall k :: Get(SetFields(d, UpdateData(data)), k) ==
                        if k in RequestFields && Supplied(data, k) then data[k] else Get(d, k)
    ensures Get(SetFields(d, UpdateData(data)), AssignmentId) == Get(d, AssignmentId)
  {
    UpdateDataSpec(data);
  }

  /** handle_update_staff_assignment. */
  method HandleUpdateStaffAssignment(coverage: Collection, assignmentId: Value, data: Doc)
    returns (code: int, updated: Option<Doc>)
    modifies coverage
    ensures data == map[] || UpdateData(data) == map[] ==>
      code == 400 && updated.None? && coverage.docs == old(coverage.docs)
    ensures data != map[] && UpdateData(data) != map[] ==>
      var i := FirstMatch(old(coverage.docs), FieldEquals(AssignmentId, assignmentId));
      (i.None? ==> code == 404 && updated.None? && coverage.docs == old(coverage.docs)) &&
      (i.Some? ==>
         code == 200 &&
         coverage.docs == old(coverage.docs)[i.value := SetFields(old(coverage.docs)[i.value], UpdateData(data))] &&
         updated == Some(coverage.docs[i.value]))
  {
    if data == map[] {
      return 400, None;
    }
    var updateData: Doc := map[];
    ghost var step := updateData;
    if Supplied(data, Date) {
      updateData := updateData[Date := data[Date]];
    }
    assert updateData == Pick(step, data, Date);
    step := updateData;
    if Supplied(data, StaffName) {
      updateData := updateData[StaffName := data[StaffName]];
    }
    assert updateData == Pick(step, data, StaffName);
    step := updateData;
    if Supplied(data, OnCallStart) {
      updateData := updateData[OnCallStart := data[OnCallStart]];
    }
    assert updateData == Pick(step, data, OnCallStart);
    step := updateData;
    if Supplied(data, OnCallEnd) {
      updateData := updateData[OnCallEnd := data[OnCallEnd]];
    }
    assert updateData == Pick(step, data, OnCallEnd);
    step := updateData;
    if Supplied(data, Phone) {
      updateData := updateData[Phone := data[Phone]];
    }
    assert updateData == Pick(step, data, Phone);
    assert updateData == UpdateData(data);
    if updateData == map[] {
      return 400, None;
    }
    var result := coverage.FindOneAndSet(FieldEquals(AssignmentId, assignmentId), updateData);
    if result.None? {
      return 404, None;
    }
    return 200, result;
  }

  /** handle_delete_staff_assignment. */
  method HandleDeleteStaffAssignment(coverage: Collection, assignmentId: Value) returns (code: int)
    modifies coverage
    ensures FirstMatch(old(coverage.docs), FieldEquals(AssignmentId, assignmentId)).None? ==>
      code == 404 && coverage.docs == old(coverage.docs)
    ensures FirstMatch(old(coverage.docs), FieldEquals(AssignmentId, assignmentId)).Some? ==>
      code == 200 &&
      coverage.docs == RemoveAt(old(coverage.docs),
                                FirstMatch(old(coverage.docs), FieldEquals(AssignmentId, assignmentId)).value)
  {
    var deleted := coverage.DeleteOne(FieldEquals(AssignmentId, assignmentId));
    code := if deleted then 200 else 404;
  }
}
