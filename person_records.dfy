/**
 * The patient and staff handlers of the first backend share one shape: a
 * record kind names its ID field (also the name of its counter), a third
 * required field besides first and last name, and its optional fields.
 * Both keep `full_name` as first name, a space and last name, on add and
 * on every update that touches a name.
 */
module PersonRecords {
  import opened Wrappers
  import opened Documents
  import Sorting

  const FirstName: string := "first_name"
  const LastName: string := "last_name"
  const FullName: string := "full_name"

  /** A record kind: its ID field, its third required field and its optional fields, in the handlers' order. */
  datatype Kind = Kind(idField: string, third: string, optional: seq<string>)

  /** The fields an add requires. */
  function Required(kind: Kind): seq<string>
  {
    [FirstName, LastName, kind.third]
  }

  /** The fields an update may write. */
  function Allowed(kind: Kind): seq<string>
  {
    Required(kind) + kind.optional
  }

  /** The fields of a listing entry. */
  function ListingFields(kind: Kind): seq<string>
  {
    [kind.idField, FirstName, LastName, FullName, kind.third] + kind.optional
  }

  /** Neither the ID nor full_name can be written by an update, and they are different fields. */
  predicate WellFormed(kind: Kind)
  {
    kind.idField != FullName && kind.idField !in Allowed(kind) && FullName !in Allowed(kind)
  }

  /** `f"{first} {last}"`. */
  function FullNameOf(first: Value, last: Value): Value
  {
    Str(Display(first) + " " + Display(last))
  }

  /** The invariant the handlers maintain: the stored full name is made of the stored names. */
  predicate NameConsistent(d: Doc)
  {
    Get(d, FullName) == FullNameOf(Get(d, FirstName), Get(d, LastName))
  }

  function IdFilter(kind: Kind, id: Value): Doc -> bool
  {
    FieldEquals(kind.idField, id)
  }

  // ---------------------------------------------------------------------
  // Listing and lookup
  // ---------------------------------------------------------------------

  /** `{field: doc.get(field) for field in fields}`. */
  function Project(d: Doc, fields: seq<string>): (e: Doc)
    ensures e.Keys == set k | k in fields
    ensures forall k :: k in e ==> e[k] == Get(d, k)
  {
    map k | k in fields :: Get(d, k)
  }

  function Entries(kind: Kind, docs: seq<Doc>): (r: seq<Doc>)
    ensures |r| == |docs|
    ensures forall i :: 0 <= i < |docs| ==> r[i] == Project(docs[i], ListingFields(kind))
  {
    if docs == [] then [] else [Project(docs[0], ListingFields(kind))] + Entries(kind, docs[1..])
  }

  function AllDocs(): Doc -> bool
  {
    d => true
  }

  /** `find().sort(id_field, 1)`. */
  function ById(kind: Kind, docs: seq<Doc>): seq<Doc>
  {
    FindSorted(docs, AllDocs(), [kind.idField])
  }

  /** handle_get_all_patients / handle_get_all_staff: one entry per record, in ID order. */
  method HandleGetAll(kind: Kind, docs: seq<Doc>) returns (code: int, entries: seq<Doc>)
    ensures code == 200
    ensures entries == Entries(kind, ById(kind, docs))
  {
    var cursor := FindSorted(docs, AllDocs(), [kind.idField]);
    entries := [];
    var i := 0;
    while i < |cursor|
      invariant 0 <= i <= |cursor|
      invariant entries == Entries(kind, cursor[..i])
    {
      Sorting.PrefixExtend(cursor, i);
      EntriesAppend(kind, cursor[..i], cursor[i]);
      entries := entries + [Project(cursor[i], ListingFields(kind))];
      i := i + 1;
    }
    assert cursor[..i] == cursor;
    return 200, entries;
  }

  lemma {:induction false} EntriesAppend(kind: Kind, docs: seq<Doc>, d: Doc)
    ensures Entries(kind, docs + [d]) == Entries(kind, docs) + [Project(d, ListingFields(kind))]
  {
    assert |Entries(kind, docs + [d])| == |Entries(kind, docs) + [Project(d, ListingFields(kind))]|;
  }

  /** The listing has one entry per stored record, and their IDs ascend. */
  lemma ListingSortedById(kind: Kind, docs: seq<Doc>)
    ensures |Entries(kind, ById(kind, docs))| == |docs|
    ensures var e := Entries(kind, ById(kind, docs));
      forall i, j :: 0 <= i < j < |e| ==> ValueLe(Get(e[i], kind.idField), Get(e[j], kind.idField))
  {
    FindSortedSpec(docs, AllDocs(), [kind.idField]);
    FilterAllKeepsAll(docs);
    var r := ById(kind, docs);
    assert |multiset(r)| == |multiset(docs)|;
    var e := Entries(kind, r);
    forall i, j | 0 <= i < j < |e| ensures ValueLe(Get(e[i], kind.idField), Get(e[j], kind.idField)) {
      assert KeysLe(r[i], r[j], [kind.idField]);
      assert kind.idField in ListingFields(kind);
    }
  }

  lemma {:induction false} FilterAllKeepsAll(s: seq<Doc>)
    ensures Sorting.Filter(s, AllDocs()) == s
  {
    if s != [] {
      FilterAllKeepsAll(s[1..]);
    }
  }

  /** handle_get_patient_by_id / handle_get_staff_by_id. */
  method HandleGetById(kind: Kind, docs: seq<Doc>, id: Value) returns (code: int, record: Option<Doc>)
    ensures record == FindOne(docs, IdFilter(kind, id))
    ensures code == if record.Some? then 200 else 404
  {
    record := FindOne(docs, IdFilter(kind, id));
    code := if record.Some? then 200 else 404;
  }

  // ---------------------------------------------------------------------
  // Add
  // ---------------------------------------------------------------------

  predicate HasRequired(kind: Kind, data: Doc)
  {
    FirstName in data && LastName in data && kind.third in data
  }

  /** The new record: ID, the required fields as given, the full name, and each optional field or None. */
  function NewRecord(kind: Kind, id: nat, data: Doc): (d: Doc)
    requires HasRequired(kind, data)
  {
    (map k | k in kind.optional :: Get(data, k))
      [kind.idField := Int(id)][FirstName := data[FirstName]][LastName := data[LastName]]
      [FullName := FullNameOf(data[FirstName], data[LastName])][kind.third := data[kind.third]]
  }

  /**
   * A new record of a well-formed kind carries the issued ID, the given
   * required fields, a full name consistent with them, and exactly the
   * listing fields.
   */
  lemma NewRecordSpec(kind: Kind, id: nat, data: Doc)
    requires WellFormed(kind) && HasRequired(kind, data)
    ensures var d := NewRecord(kind, id, data);
      d.Keys == (set k | k in ListingFields(kind)) &&
      d[kind.idField] == Int(id) &&
      d[FirstName] == data[FirstName] && d[LastName] == data[LastName] && d[kind.third] == data[kind.third] &&
      (forall k :: k in kind.optional && k !in Required(kind) ==> d[k] == Get(data, k)) &&
      NameConsistent(d)
  {
    assert FirstName in Allowed(kind) && LastName in Allowed(kind) && kind.third in Allowed(kind);
  }

  function AddCode(kind: Kind, data: Doc): (code: int)
    ensures code == 201 <==> HasRequired(kind, data)
    ensures code != 201 ==> code == 400
  {
    if data == map[] || !HasRequired(kind, data) then 400 else 201
  }

  /** handle_add_patient / handle_add_staff. */
  method HandleAdd(kind: Kind, records: Collection, counters: Counters, data: Doc)
    returns (code: int, created: Option<Doc>)
    modifies records, counters
    ensures code == AddCode(kind, data)
    ensures code == 400 ==>
      created.None? && records.docs == old(records.docs) && counters.values == old(counters.values)
    ensures code == 201 ==>
      var id := CounterValue(old(counters.values), kind.idField) + 1;
      counters.values == old(counters.values)[kind.idField := id] &&
      records.docs == old(records.docs) + [NewRecord(kind, id, data)] &&
      created == Some(NewRecord(kind, id, data))
  {
    if data == map[] {
      return 400, None;
    }
    if !HasRequired(kind, data) {
      return 400, None;
    }
    var newId := counters.Next(kind.idField);
    var newRecord := NewRecord(kind, newId, data);
    records.InsertOne(newRecord);
    return 201, Some(newRecord);
  }

  // ---------------------------------------------------------------------
  // Update
  // ---------------------------------------------------------------------

  /** `for field in fields: if data.get(field) is not None: update[field] = data.get(field)`. */
  function CopySupplied(update: Doc, data: Doc, fields: seq<string>): (r: Doc)
    ensures forall k :: k in r <==> k in update || (k in fields && Supplied(data, k))
    ensures forall k :: k in r ==> r[k] == if k in fields && Supplied(data, k) then data[k] else update[k]
    decreases |fields|
  {
    if fields == [] then update
    else
      var next := if Supplied(data, fields[0]) then update[fields[0] := data[fields[0]]] else update;
      CopySupplied(next, data, fields[1..])
  }

  /** What an update does, decided before the write. */
  datatype UpdatePlan = NoData | NothingToUpdate | NotFound | Apply(update: Doc)

  function UpdateData(kind: Kind, data: Doc): Doc
  {
    CopySupplied(map[], data, Allowed(kind))
  }

  /** The `$set` when a name changes: the allowed fields plus the full name from the merged names. */
  function WithFullName(update: Doc, current: Doc): Doc
  {
    update[FullName := FullNameOf(GetOr(update, FirstName, Get(current, FirstName)),
                                  GetOr(update, LastName, Get(current, LastName)))]
  }

  function PlanUpdate(kind: Kind, docs: seq<Doc>, id: Value, data: Doc): UpdatePlan
  {
    if data == map[] then NoData
    else
      var u := UpdateData(kind, data);
      if FirstName in u || LastName in u then
        var current := FindOne(docs, IdFilter(kind, id));
        if current.None? then NotFound else Apply(WithFullName(u, current.value))
      else if u == map[] then NothingToUpdate
      else Apply(u)
  }

  /** handle_update_patient / handle_update_staff. */
  method HandleUpdate(kind: Kind, records: Collection, id: Value, data: Doc) returns (code: int, updated: Option<Doc>)
    modifies records
    ensures PlanUpdate(kind, old(records.docs), id, data).NoData? ==>
      code == 400 && updated.None? && records.docs == old(records.docs)
    ensures PlanUpdate(kind, old(records.docs), id, data).NothingToUpdate? ==>
      code == 400 && updated.None? && records.docs == old(records.docs)
    ensures PlanUpdate(kind, old(records.docs), id, data).NotFound? ==>
      code == 404 && updated.None? && records.docs == old(records.docs)
    ensures PlanUpdate(kind, old(records.docs), id, data).Apply? ==>
      var i := FirstMatch(old(records.docs), IdFilter(kind, id));
      var u := PlanUpdate(kind, old(records.docs), id, data).update;
      (i.None? ==> code == 404 && updated.None? && records.docs == old(records.docs)) &&
      (i.Some? ==>
         code == 200 &&
         records.docs == old(records.docs)[i.value := SetFields(old(records.docs)[i.value], u)] &&
         updated == Some(records.docs[i.value]))
  {
    if data == map[] {
      return 400, None;
    }
    var updateData: Doc := map[];
    var allowedFields := Allowed(kind);
    var j := 0;
    while j < |allowedFields|
      invariant 0 <= j <= |allowedFields|
      invariant CopySupplied(updateData, data, allowedFields[j..]) == UpdateData(kind, data)
    {
      if Supplied(data, allowedFields[j]) {
        updateData := updateData[allowedFields[j] := data[allowedFields[j]]];
      }
      j := j + 1;
    }
    if FirstName in updateData || LastName in updateData {
      var currentRecord := FindOne(records.docs, IdFilter(kind, id));
      if currentRecord.None? {
        return 404, None;
      }
      updateData := WithFullName(updateData, currentRecord.value);
    }
    if updateData == map[] {
      return 400, None;
    }
    var result := records.FindOneAndSet(IdFilter(kind, id), updateData);
    if result.None? {
      return 404, None;
    }
    return 200, result;
  }

  /**
   * An applied update keeps the full name consistent with the names, and
   * never touches the record's ID: every update path maintains the
   * invariant that add establishes.
   */
  lemma UpdateKeepsNameConsistent(kind: Kind, docs: seq<Doc>, id: Value, data: Doc)
    requires WellFormed(kind)
    requires PlanUpdate(kind, docs, id, data).Apply?
    requires FirstMatch(docs, IdFilter(kind, id)).Some?
    requires NameConsistent(docs[FirstMatch(docs, IdFilter(kind, id)).value])
    ensures var d := docs[FirstMatch(docs, IdFilter(kind, id)).value];
      var after := SetFields(d, PlanUpdate(kind, docs, id, data).update);
      NameConsistent(after) && Get(after, kind.idField) == Get(d, kind.idField)
  {
    var d := docs[FirstMatch(docs, IdFilter(kind, id)).value];
    var u := UpdateData(kind, data);
    assert FindOne(docs, IdFilter(kind, id)) == Some(d);
    var after := SetFields(d, PlanUpdate(kind, docs, id, data).update);
    if FirstName in u || LastName in u {
      assert Get(after, FirstName) == GetOr(u, FirstName, Get(d, FirstName));
      assert Get(after, LastName) == GetOr(u, LastName, Get(d, LastName));
    } else {
      assert FullName !in u;
      assert Get(after, FirstName) == Get(d, FirstName) && Get(after, LastName) == Get(d, LastName);
    }
  }

  /** Every stored record has a consistent full name. */
  predicate AllConsistent(docs: seq<Doc>)
  {
    forall j :: 0 <= j < |docs| ==> NameConsistent(docs[j])
  }

  /** Add and applied updates keep every stored full name consistent. */
  lemma AddKeepsAllConsistent(kind: Kind, docs: seq<Doc>, id: nat, data: Doc)
    requires WellFormed(kind) && HasRequired(kind, data) && AllConsistent(docs)
    ensures AllConsistent(docs + [NewRecord(kind, id, data)])
  {
    NewRecordSpec(kind, id, data);
  }

  lemma UpdateKeepsAllConsistent(kind: Kind, docs: seq<Doc>, id: Value, data: Doc)
    requires WellFormed(kind) && AllConsistent(docs)
    requires PlanUpdate(kind, docs, id, data).Apply?
    requires FirstMatch(docs, IdFilter(kind, id)).Some?
    ensures var i := FirstMatch(docs, IdFilter(kind, id)).value;
      AllConsistent(docs[i := SetFields(docs[i], PlanUpdate(kind, docs, id, data).update)])
  {
    UpdateKeepsNameConsistent(kind, docs, id, data);
  }

  /** An update writes only allowed fields that were supplied, with their values, and possibly full_name. */
  lemma UpdateWritesOnlyAllowed(kind: Kind, docs: seq<Doc>, id: Value, data: Doc)
    requires PlanUpdate(kind, docs, id, data).Apply?
    ensures var u := PlanUpdate(kind, docs, id, data).update;
      forall k :: k in u && k != FullName ==> k in Allowed(kind) && Supplied(data, k) && u[k] == data[k]
  {
  }

  // ---------------------------------------------------------------------
  // Delete
  // ---------------------------------------------------------------------

  /** handle_delete_patient / handle_delete_staff: hard delete of the first record with that ID. */
  method HandleDelete(kind: Kind, records: Collection, id: Value) returns (code: int)
    modifies records
    ensures FirstMatch(old(records.docs), IdFilter(kind, id)).None? ==>
      code == 404 && records.docs == old(records.docs)
    ensures FirstMatch(old(records.docs), IdFilter(kind, id)).Some? ==>
      code == 200 &&
      records.docs == RemoveAt(old(records.docs), FirstMatch(old(records.docs), IdFilter(kind, id)).value)
  {
    var deleted := records.DeleteOne(IdFilter(kind, id));
    code := if deleted then 200 else 404;
  }
}
