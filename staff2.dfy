/**
 * The staff helpers of the first backend's document layer. Every staff
 * member is a Staff document and a StaffRole document linking the same
 * `Staff_Id` to a `Role_Id`; add, update and delete keep the two
 * collections in step.
 */
module Staff2 {
  import opened Documents

  const StaffId: string := "Staff_Id"
  const FirstName: string := "First_Name"
  const LastName: string := "Last_Name"
  const Email: string := "Email"
  const Active: string := "Active"
  const RoleId: string := "Role_Id"

  /** The counter that numbers staff (spelled with a lower-case "id", unlike the field). */
  const StaffCounter: string := "Staff_id"

  function StaffDoc(id: nat, firstName: Value, lastName: Value, email: Value, active: Value): (d: Doc)
    ensures d.Keys == {StaffId, FirstName, LastName, Email, Active}
    ensures d[StaffId] == Int(id) && d[FirstName] == firstName && d[LastName] == lastName
    ensures d[Email] == email && d[Active] == active
  {
    map[StaffId := Int(id), FirstName := firstName, LastName := lastName, Email := email, Active := active]
  }

  function StaffRoleDoc(id: nat, roleId: Value): (d: Doc)
    ensures d.Keys == {StaffId, RoleId} && d[StaffId] == Int(id) && d[RoleId] == roleId
  {
    map[StaffId := Int(id), RoleId := roleId]
  }

  // ---------------------------------------------------------------------
  // The pairing of Staff and StaffRole
  // ---------------------------------------------------------------------

  /** The `Staff_Id` values held by a collection. */
  function Ids(docs: seq<Doc>): (r: set<Value>)
    ensures forall i :: 0 <= i < |docs| ==> Get(docs[i], StaffId) in r
    ensures forall v :: v in r ==> exists i :: 0 <= i < |docs| && Get(docs[i], StaffId) == v
  {
    set i | 0 <= i < |docs| :: Get(docs[i], StaffId)
  }

  /** No two documents of a collection carry the same `Staff_Id`. */
  predicate UniqueIds(docs: seq<Doc>)
  {
    forall i, j :: 0 <= i < j < |docs| ==> Get(docs[i], StaffId) != Get(docs[j], StaffId)
  }

  /**
   * Staff and StaffRole describe the same people: each collection holds
   * every `Staff_Id` once, and the two hold the same ones.
   */
  predicate Paired(staff: seq<Doc>, roles: seq<Doc>)
  {
    UniqueIds(staff) && UniqueIds(roles) && Ids(staff) == Ids(roles)
  }

  /** Appending a document whose ID is new keeps the IDs unique and adds that ID. */
  lemma AppendFresh(docs: seq<Doc>, d: Doc)
    requires UniqueIds(docs) && Get(d, StaffId) !in Ids(docs)
    ensures UniqueIds(docs + [d]) && Ids(docs + [d]) == Ids(docs) + {Get(d, StaffId)}
  {
    var s := docs + [d];
    forall v | v in Ids(s) ensures v in Ids(docs) + {Get(d, StaffId)} {
      var i :| 0 <= i < |s| && Get(s[i], StaffId) == v;
      if i < |docs| {
        assert Get(docs[i], StaffId) == v;
      }
    }
    forall v | v in Ids(docs) ensures v in Ids(s) {
      var i :| 0 <= i < |docs| && Get(docs[i], StaffId) == v;
      assert s[i] == docs[i];
    }
    assert s[|docs|] == d;
  }

  /** A `$set` that leaves `Staff_Id` alone keeps the collection's IDs. */
  lemma SetKeepsIds(docs: seq<Doc>, i: nat, u: Doc)
    requires i < |docs| && StaffId !in u
    ensures Ids(docs[i := SetFields(docs[i], u)]) == Ids(docs)
    ensures UniqueIds(docs) ==> UniqueIds(docs[i := SetFields(docs[i], u)])
  {
    var s := docs[i := SetFields(docs[i], u)];
    assert forall j :: 0 <= j < |s| ==> Get(s[j], StaffId) == Get(docs[j], StaffId);
    forall v | v in Ids(docs) ensures v in Ids(s) {
      var j :| 0 <= j < |docs| && Get(docs[j], StaffId) == v;
      assert Get(s[j], StaffId) == v;
    }
  }

  /** Removing the one document with an ID from a collection of unique IDs removes exactly that ID. */
  lemma RemoveKeepsOthers(docs: seq<Doc>, v: Value)
    requires UniqueIds(docs)
    requires FirstMatch(docs, FieldEquals(StaffId, v)).Some?
    ensures var s := RemoveAt(docs, FirstMatch(docs, FieldEquals(StaffId, v)).value);
      UniqueIds(s) && Ids(s) == Ids(docs) - {v}
  {
    var k := FirstMatch(docs, FieldEquals(StaffId, v)).value;
    RemoveKeepsUnique(docs, k);
    RemoveDropsId(docs, k);
  }

  lemma RemoveKeepsUnique(docs: seq<Doc>, k: nat)
    requires UniqueIds(docs) && k < |docs|
    ensures UniqueIds(RemoveAt(docs, k))
  {
    var s := RemoveAt(docs, k);
    forall i, j | 0 <= i < j < |s| ensures Get(s[i], StaffId) != Get(s[j], StaffId) {
      var i', j' := if i < k then i else i + 1, if j < k then j else j + 1;
      assert s[i] == docs[i'] && s[j] == docs[j'] && i' < j';
    }
  }

  lemma RemoveDropsId(docs: seq<Doc>, k: nat)
    requires UniqueIds(docs) && k < |docs|
    ensures Ids(RemoveAt(docs, k)) == Ids(docs) - {Get(docs[k], StaffId)}
  {
    RemovedIdsWithin(docs, k);
    RemovedIdsKept(docs, k);
  }

  /** With unique IDs, every ID left after the removal is an old one other than the removed one. */
  lemma RemovedIdsWithin(docs: seq<Doc>, k: nat)
    requires UniqueIds(docs) && k < |docs|
    ensures Ids(RemoveAt(docs, k)) <= Ids(docs) - {Get(docs[k], StaffId)}
  {
    var s := RemoveAt(docs, k);
    forall w | w in Ids(s) ensures w in Ids(docs) - {Get(docs[k], StaffId)} {
      var i :| 0 <= i < |s| && Get(s[i], StaffId) == w;
      var i' := if i < k then i else i + 1;
      assert s[i] == docs[i'];
      assert Get(docs[i'], StaffId) in Ids(docs);
      if i' < k {
        assert Get(docs[i'], StaffId) != Get(docs[k], StaffId);
      } else {
        assert Get(docs[k], StaffId) != Get(docs[i'], StaffId);
      }
    }
  }

  /** Every other old ID is still there after the removal. */
  lemma RemovedIdsKept(docs: seq<Doc>, k: nat)
    requires k < |docs|
    ensures Ids(docs) - {Get(docs[k], StaffId)} <= Ids(RemoveAt(docs, k))
  {
    var s := RemoveAt(docs, k);
    forall w | w in Ids(docs) - {Get(docs[k], StaffId)} ensures w in Ids(s) {
      var i :| 0 <= i < |docs| && Get(docs[i], StaffId) == w;
      var j := if i < k then i else i - 1;
      assert s[j] == docs[i];
    }
  }

  // ---------------------------------------------------------------------
  // Add
  // ---------------------------------------------------------------------

  /**
   * add_new_staff: one Staff document and one StaffRole link, sharing the
   * next `Staff_Id`, which is returned. While no stored ID runs ahead of
   * the counter the new ID is fresh and the pairing is kept.
   */
  method AddNewStaff(staff: Collection, roles: Collection, counters: Counters,
                     firstName: Value, lastName: Value, email: Value, roleId: Value, active: Value)
    returns (staffId: nat)
    requires staff != roles
    modifies staff, roles, counters
    ensures staffId == CounterValue(old(counters.values), StaffCounter) + 1
    ensures counters.values == old(counters.values)[StaffCounter := staffId]
    ensures staff.docs == old(staff.docs) + [StaffDoc(staffId, firstName, lastName, email, active)]
    ensures roles.docs == old(roles.docs) + [StaffRoleDoc(staffId, roleId)]
    ensures Paired(old(staff.docs), old(roles.docs)) &&
            NoIdAbove(old(staff.docs), StaffId, CounterValue(old(counters.values), StaffCounter)) ==>
      Paired(staff.docs, roles.docs) && NoIdAbove(staff.docs, StaffId, CounterValue(counters.values, StaffCounter))
  {
    ghost var before := counters.values;
    staffId := counters.Next(StaffCounter);
    var staffDoc := StaffDoc(staffId, firstName, lastName, email, active);
    staff.InsertOne(staffDoc);
    var staffRoleDoc := StaffRoleDoc(staffId, roleId);
    roles.InsertOne(staffRoleDoc);
    if Paired(old(staff.docs), old(roles.docs)) && NoIdAbove(old(staff.docs), StaffId, CounterValue(before, StaffCounter)) {
      AddKeepsPaired(old(staff.docs), old(roles.docs), CounterValue(before, StaffCounter), staffDoc, staffRoleDoc);
    }
  }

  /** Adding a staff document and its role link under the next counter value keeps the pairing. */
  lemma AddKeepsPaired(staff: seq<Doc>, roles: seq<Doc>, n: nat, s: Doc, r: Doc)
    requires Paired(staff, roles) && NoIdAbove(staff, StaffId, n)
    requires Get(s, StaffId) == Int(n + 1) && Get(r, StaffId) == Int(n + 1)
    ensures Paired(staff + [s], roles + [r]) && NoIdAbove(staff + [s], StaffId, n + 1)
  {
    NextIdFresh(staff, StaffId, n, s);
    assert Int(n + 1) !in Ids(staff);
    AppendFresh(staff, s);
    AppendFresh(roles, r);
  }

  // ---------------------------------------------------------------------
  // Update
  // ---------------------------------------------------------------------

  /** The `$set` of update_staff on Staff: the arguments given (not None). */
  function StaffUpdate(firstName: Value, lastName: Value, email: Value, active: Value): Doc
  {
    WithoutNulls(map[FirstName := firstName, LastName := lastName, Email := email, Active := active])
  }

  /** The update writes the given arguments with their values and never `Staff_Id`. */
  lemma StaffUpdateSpec(firstName: Value, lastName: Value, email: Value, active: Value)
    ensures var u := StaffUpdate(firstName, lastName, email, active);
      u.Keys <= {FirstName, LastName, Email, Active} && StaffId !in u &&
      Get(u, FirstName) == firstName && Get(u, LastName) == lastName &&
      Get(u, Email) == email && Get(u, Active) == active
  {
  }

  /** The dictionary update_staff builds, one `is not None` test per argument. */
  method CollectStaffUpdate(firstName: Value, lastName: Value, email: Value, active: Value) returns (updateFields: Doc)
    ensures updateFields == StaffUpdate(firstName, lastName, email, active)
  {
    updateFields := map[];
    ghost var given: Doc := map[];
    if firstName != Null {
      updateFields := updateFields[FirstName := firstName];
    }
    WithoutNullsExtend(given, FirstName, firstName);
    given := given[FirstName := firstName];
    if lastName != Null {
      updateFields := updateFields[LastName := lastName];
    }
    WithoutNullsExtend(given, LastName, lastName);
    given := given[LastName := lastName];
    if email != Null {
      updateFields := updateFields[Email := email];
    }
    WithoutNullsExtend(given, Email, email);
    given := given[Email := email];
    if active != Null {
      updateFields := updateFields[Active := active];
    }
    WithoutNullsExtend(given, Active, active);
    given := given[Active := active];
  }

  /** The StaffRole collection after update_staff's upsert of a given role. */
  function RoleUpsert(roles: seq<Doc>, staffId: Value, roleId: Value): seq<Doc>
  {
    var i := FirstMatch(roles, FieldEquals(StaffId, staffId));
    if i.Some? then roles[i.value := SetFields(roles[i.value], map[RoleId := roleId])]
    else roles + [SetFields(map[StaffId := staffId], map[RoleId := roleId])]
  }

  /**
   * update_staff: False and no write when no staff member has the ID;
   * otherwise the given staff fields are `$set` (no write when none was
   * given), a given role is upserted into StaffRole, and the result is True.
   */
  method UpdateStaff(staff: Collection, roles: Collection, staffId: Value,
                     firstName: Value, lastName: Value, email: Value, roleId: Value, active: Value)
    returns (ok: bool)
    requires staff != roles
    modifies staff, roles
    ensures var i := FirstMatch(old(staff.docs), FieldEquals(StaffId, staffId));
      var u := StaffUpdate(firstName, lastName, email, active);
      (ok <==> i.Some?) &&
      (i.None? ==> staff.docs == old(staff.docs) && roles.docs == old(roles.docs)) &&
      (i.Some? && u == map[] ==> staff.docs == old(staff.docs)) &&
      (i.Some? && u != map[] ==> staff.docs == old(staff.docs)[i.value := SetFields(old(staff.docs)[i.value], u)]) &&
      (i.Some? && roleId == Null ==> roles.docs == old(roles.docs)) &&
      (i.Some? && roleId != Null ==> roles.docs == RoleUpsert(old(roles.docs), staffId, roleId))
  {
    var found := FindOne(staff.docs, FieldEquals(StaffId, staffId));
    if found.None? {
      return false;
    }
    var updateFields := CollectStaffUpdate(firstName, lastName, email, active);
    if updateFields != map[] {
      var _ := staff.UpdateOneSet(FieldEquals(StaffId, staffId), updateFields);
    }
    if roleId != Null {
      roles.UpsertOneSet(StaffId, staffId, map[RoleId := roleId]);
    }
    return true;
  }

  /**
   * Updating a paired staff member keeps the pairing: the staff `$set`
   * never touches `Staff_Id`, and the role upsert finds the existing link
   * rather than inserting a second one.
   */
  lemma UpdateKeepsPaired(staff: seq<Doc>, roles: seq<Doc>, staffId: Value, u: Doc, roleId: Value)
    requires Paired(staff, roles) && StaffId !in u
    requires FirstMatch(staff, FieldEquals(StaffId, staffId)).Some?
    ensures var i := FirstMatch(staff, FieldEquals(StaffId, staffId)).value;
      Paired(staff[i := SetFields(staff[i], u)], roles) &&
      Paired(staff[i := SetFields(staff[i], u)], RoleUpsert(roles, staffId, roleId))
  {
    var i := FirstMatch(staff, FieldEquals(StaffId, staffId)).value;
    SetKeepsIds(staff, i, u);
    assert staffId in Ids(roles);
    var j :| 0 <= j < |roles| && Get(roles[j], StaffId) == staffId;
    assert FieldEquals(StaffId, staffId)(roles[j]);
    var k := FirstMatch(roles, FieldEquals(StaffId, staffId)).value;
    SetKeepsIds(roles, k, map[RoleId := roleId]);
  }

  // ---------------------------------------------------------------------
  // Delete
  // ---------------------------------------------------------------------

  /**
   * delete_staff: False and no write when no staff member has the ID;
   * otherwise the first Staff document and the first StaffRole link with
   * the ID are removed (if a link exists) and the result is True.
   */
  method DeleteStaff(staff: Collection, roles: Collection, staffId: Value) returns (ok: bool)
    requires staff != roles
    modifies staff, roles
    ensures var i := FirstMatch(old(staff.docs), FieldEquals(StaffId, staffId));
      var j := FirstMatch(old(roles.docs), FieldEquals(StaffId, staffId));
      (ok <==> i.Some?) &&
      (i.None? ==> staff.docs == old(staff.docs) && roles.docs == old(roles.docs)) &&
      (i.Some? ==> staff.docs == RemoveAt(old(staff.docs), i.value)) &&
      (i.Some? && j.Some? ==> roles.docs == RemoveAt(old(roles.docs), j.value)) &&
      (i.Some? && j.None? ==> roles.docs == old(roles.docs))
  {
    var found := FindOne(staff.docs, FieldEquals(StaffId, staffId));
    if found.None? {
      return false;
    }
    var staffResult := staff.DeleteOne(FieldEquals(StaffId, staffId));
    var roleResult := roles.DeleteOne(FieldEquals(StaffId, staffId));
    return true;
  }

  /** Deleting a paired staff member removes the ID from both collections, so they stay paired. */
  lemma DeleteKeepsPaired(staff: seq<Doc>, roles: seq<Doc>, staffId: Value)
    requires Paired(staff, roles)
    requires FirstMatch(staff, FieldEquals(StaffId, staffId)).Some?
    ensures FirstMatch(roles, FieldEquals(StaffId, staffId)).Some?
    ensures var s := RemoveAt(staff, FirstMatch(staff, FieldEquals(StaffId, staffId)).value);
      var r := RemoveAt(roles, FirstMatch(roles, FieldEquals(StaffId, staffId)).value);
      Paired(s, r) && staffId !in Ids(s) && staffId !in Ids(r)
  {
    assert staffId in Ids(roles);
    var j :| 0 <= j < |roles| && Get(roles[j], StaffId) == staffId;
    assert FieldEquals(StaffId, staffId)(roles[j]);
    RemoveKeepsOthers(staff, staffId);
    RemoveKeepsOthers(roles, staffId);
  }
}
