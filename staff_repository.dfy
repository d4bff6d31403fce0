/**
 * The staff repository of the second backend: staff creation, lookup by
 * lower-cased email, the active-staff list in name order, and the
 * staff-role assignments (no duplicate pair, one primary role per staff
 * member, removal of a pair), and deactivation as a soft delete.
 */
module StaffRepo {
  import opened Wrappers
  import opened Text
  import opened Documents
  import Sorting
  import BaseRepo

  const StaffId: string := "staff_id"
  const RoleId: string := "role_id"
  const AssignedBy: string := "assigned_by"
  const AssignedDate: string := "assigned_date"
  const IsPrimary: string := "is_primary"
  const Email: string := "email"
  const IsActive: string := "is_active"
  const LastName: string := "last_name"
  const FirstName: string := "first_name"

  /** create_staff: create with an automatic `staff_id`. */
  method CreateStaff(staff: BaseRepo.Repository, data: Doc, now: int) returns (created: Doc)
    modifies staff
    ensures BaseRepo.CreatedAs(old(staff.counters), staff.counters, staff.name, data, Some(StaffId), created, now)
    ensures staff.docs == old(staff.docs) + [created]
  {
    created := staff.Create(data, Some(StaffId), now);
  }

  // ---------------------------------------------------------------------
  // Finders
  // ---------------------------------------------------------------------

  /** find_by_email: the first staff member whose stored email equals the lower-cased input. */
  function FindByEmail(docs: seq<Doc>, email: string): (r: Option<Doc>)
    ensures r.Some? ==> r.value in docs && Get(r.value, Email) == Str(Lower(email))
    ensures r.None? <==> forall j :: 0 <= j < |docs| ==> Get(docs[j], Email) != Str(Lower(email))
  {
    FindOne(docs, FieldEquals(Email, Str(Lower(email))))
  }

  /**
   * The lookup ignores the input's case, and only finds a member whose
   * stored email has no upper-case letter.
   */
  lemma FindByEmailCaseInsensitive(docs: seq<Doc>, email: string)
    ensures FindByEmail(docs, Upper(email)) == FindByEmail(docs, Lower(email)) == FindByEmail(docs, email)
    ensures FindByEmail(docs, email).Some? ==>
      var stored := Get(FindByEmail(docs, email).value, Email).s;
      forall i :: 0 <= i < |stored| ==> !IsUpper(stored[i])
  {
    LowerIgnoresCase(email);
    LowerHasNoUpper(email);
  }

  predicate ActiveStaffFilter(d: Doc)
  {
    Get(d, IsActive) == Bool(true)
  }

  /** `.sort([("last_name", 1), ("first_name", 1)])`. */
  function ByName(): (Doc, Doc) -> bool
  {
    SortKeys([LastName, FirstName])
  }

  /** find_active_staff: the first page of active members, by last name and then first name. */
  function FindActiveStaff(docs: seq<Doc>): (r: seq<Doc>)
    ensures |r| <= BaseRepo.DefaultLimit
    ensures forall i :: 0 <= i < |r| ==> r[i] in docs && ActiveStaffFilter(r[i])
    ensures BaseRepo.SortedPage(r, docs, ActiveStaffFilter, BaseRepo.DefaultLimit, ByName())
  {
    SortKeysPreorder([LastName, FirstName]);
    BaseRepo.FindManySortedSpec(docs, ActiveStaffFilter, BaseRepo.DefaultLimit, ByName());
    BaseRepo.FindMany(docs, ActiveStaffFilter, 0, BaseRepo.DefaultLimit, Some(ByName()))
  }

  /** The active-staff page is in (last name, first name) order. */
  lemma ActiveStaffByName(docs: seq<Doc>)
    ensures Sorting.SortedBy(FindActiveStaff(docs), ByName())
  {
    SortKeysPreorder([LastName, FirstName]);
    BaseRepo.FindManySorted(docs, ActiveStaffFilter, 0, BaseRepo.DefaultLimit, ByName());
  }

  // ---------------------------------------------------------------------
  // Staff-role assignments
  // ---------------------------------------------------------------------

  /** The filter `{"staff_id": staff_id, "role_id": role_id}`. */
  function PairFilter(staffId: string, roleId: string): Doc -> bool
  {
    d => Get(d, StaffId) == Str(staffId) && Get(d, RoleId) == Str(roleId)
  }

  function StaffFilter(staffId: string): Doc -> bool
  {
    FieldEquals(StaffId, Str(staffId))
  }

  const NotPrimary: Doc := map[IsPrimary := Bool(false)]

  /** The update_many that clears every primary flag of the staff member. */
  function ClearPrimary(docs: seq<Doc>, staffId: string): (r: seq<Doc>)
    ensures |r| == |docs|
    ensures forall i :: 0 <= i < |docs| ==>
      r[i] == if StaffFilter(staffId)(docs[i]) then SetFields(docs[i], NotPrimary) else docs[i]
  {
    seq(|docs|, i requires 0 <= i < |docs| =>
      if StaffFilter(staffId)(docs[i]) then SetFields(docs[i], NotPrimary) else docs[i])
  }

  function NewStaffRole(staffId: string, roleId: string, assignedBy: string, isPrimary: bool, now: int): (r: Doc)
    ensures PairFilter(staffId, roleId)(r)
    ensures Get(r, IsPrimary) == Bool(isPrimary)
  {
    map[StaffId := Str(staffId), RoleId := Str(roleId), AssignedBy := Str(assignedBy), AssignedDate := Stamp(now),
        IsPrimary := Bool(isPrimary)]
  }

  /** The assignments after assign_role_to_staff: unchanged for an existing pair, else flags cleared as asked and the new one added. */
  function AssignedRoles(docs: seq<Doc>, staffId: string, roleId: string, assignedBy: string, isPrimary: bool,
                         now: int): seq<Doc>
  {
    if FindOne(docs, PairFilter(staffId, roleId)).Some? then docs
    else (if isPrimary then ClearPrimary(docs, staffId) else docs) + [NewStaffRole(staffId, roleId, assignedBy, isPrimary, now)]
  }

  /** assign_role_to_staff. */
  method AssignRoleToStaff(roles: Collection, staffId: string, roleId: string, assignedBy: string, isPrimary: bool,
                           now: int) returns (added: bool)
    modifies roles
    ensures added <==> FindOne(old(roles.docs), PairFilter(staffId, roleId)).None?
    ensures roles.docs == AssignedRoles(old(roles.docs), staffId, roleId, assignedBy, isPrimary, now)
  {
    var existing := FindOne(roles.docs, PairFilter(staffId, roleId));
    if existing.Some? {
      return false;
    }
    if isPrimary {
      ghost var before := roles.docs;
      roles.UpdateManySet(StaffFilter(staffId), NotPrimary);
      assert roles.docs == ClearPrimary(before, staffId);
    }
    roles.InsertOne(NewStaffRole(staffId, roleId, assignedBy, isPrimary, now));
    added := true;
  }

  /** A new primary role is afterwards the staff member's only primary role. */
  lemma AssignPrimaryIsOnlyPrimary(docs: seq<Doc>, staffId: string, roleId: string, assignedBy: string, now: int)
    requires FindOne(docs, PairFilter(staffId, roleId)).None?
    ensures var after := AssignedRoles(docs, staffId, roleId, assignedBy, true, now);
      |after| == |docs| + 1 && Get(after[|docs|], IsPrimary) == Bool(true) &&
      forall i :: 0 <= i < |docs| && Get(after[i], StaffId) == Str(staffId) ==> Get(after[i], IsPrimary) == Bool(false)
  {
    var after := AssignedRoles(docs, staffId, roleId, assignedBy, true, now);
    var cleared := ClearPrimary(docs, staffId);
    forall i | 0 <= i < |docs| && Get(after[i], StaffId) == Str(staffId)
      ensures Get(after[i], IsPrimary) == Bool(false)
    {
      assert after[i] == cleared[i];
    }
  }

  /** An assignment leaves every other staff member's assignments as they were. */
  lemma AssignKeepsOtherStaff(docs: seq<Doc>, staffId: string, roleId: string, assignedBy: string, isPrimary: bool,
                              now: int)
    ensures var after := AssignedRoles(docs, staffId, roleId, assignedBy, isPrimary, now);
      |after| >= |docs| &&
      forall i :: 0 <= i < |docs| && Get(docs[i], StaffId) != Str(staffId) ==> after[i] == docs[i]
  {
  }

  /** The (staff, role) pair of an assignment. */
  function PairOf(d: Doc): (Value, Value)
  {
    (Get(d, StaffId), Get(d, RoleId))
  }

  /** No pair is assigned twice. */
  predicate PairsUnique(docs: seq<Doc>)
  {
    forall i, j :: 0 <= i < j < |docs| ==> PairOf(docs[i]) != PairOf(docs[j])
  }

  /** Because an existing pair is refused, assignments never duplicate a pair. */
  lemma AssignKeepsPairsUnique(docs: seq<Doc>, staffId: string, roleId: string, assignedBy: string, isPrimary: bool,
                               now: int)
    requires PairsUnique(docs)
    ensures PairsUnique(AssignedRoles(docs, staffId, roleId, assignedBy, isPrimary, now))
  {
    if FindOne(docs, PairFilter(staffId, roleId)).None? {
      var base := if isPrimary then ClearPrimary(docs, staffId) else docs;
      var after := base + [NewStaffRole(staffId, roleId, assignedBy, isPrimary, now)];
      assert IsPrimary != StaffId && IsPrimary != RoleId;
      forall i | 0 <= i < |docs| ensures PairOf(base[i]) == PairOf(docs[i]) {
      }
      forall i, j | 0 <= i < j < |after| ensures PairOf(after[i]) != PairOf(after[j]) {
        if j == |docs| {
          assert !PairFilter(staffId, roleId)(docs[i]);
        }
      }
    }
  }

  /** remove_role_from_staff: deletes the first matching pair; true exactly when one was deleted. */
  method RemoveRoleFromStaff(roles: Collection, staffId: string, roleId: string) returns (removed: bool)
    modifies roles
    ensures removed <==> FirstMatch(old(roles.docs), PairFilter(staffId, roleId)).Some?
    ensures removed ==> roles.docs == RemoveAt(old(roles.docs), FirstMatch(old(roles.docs), PairFilter(staffId, roleId)).value)
    ensures !removed ==> roles.docs == old(roles.docs)
  {
    removed := roles.DeleteOne(PairFilter(staffId, roleId));
  }

  /** With unique pairs, a removal leaves no assignment of the pair. */
  lemma RemoveLeavesNoPair(docs: seq<Doc>, staffId: string, roleId: string)
    requires PairsUnique(docs)
    requires FirstMatch(docs, PairFilter(staffId, roleId)).Some?
    ensures var after := RemoveAt(docs, FirstMatch(docs, PairFilter(staffId, roleId)).value);
      forall j :: 0 <= j < |after| ==> !PairFilter(staffId, roleId)(after[j])
  {
    var k := FirstMatch(docs, PairFilter(staffId, roleId)).value;
    var after := RemoveAt(docs, k);
    forall j | 0 <= j < |after| ensures !PairFilter(staffId, roleId)(after[j]) {
      if j >= k {
        assert after[j] == docs[j + 1];
        assert PairOf(docs[k]) != PairOf(docs[j + 1]);
      }
    }
  }

  const Deactivated: Doc := map[IsActive := Bool(false)]

  /** deactivate_staff: update_by_id with `is_active` false. */
  method DeactivateStaff(staff: BaseRepo.Repository, staffId: string, now: int) returns (r: Option<Doc>)
    modifies staff`docs
    ensures BaseRepo.UpdatedById(old(staff.docs), staff.docs, Str(staffId), StaffId, Deactivated, now, r)
  {
    r := staff.UpdateById(Str(staffId), StaffId, Deactivated, now);
  }

  /**
   * Deactivation is a soft delete: the member keeps every field except
   * `is_active`, which becomes false (and the update time), and drops out
   * of the active list.
   */
  lemma DeactivateEffect(d: Doc, now: int)
    ensures var e := BaseRepo.ApplySet(d, Deactivated, now);
      e.Keys == d.Keys + {IsActive, BaseRepo.UpdatedAt} && e[IsActive] == Bool(false) && !ActiveStaffFilter(e) &&
      forall k :: k in d && k != IsActive && k != BaseRepo.UpdatedAt ==> e[k] == d[k]
  {
    assert IsActive in Deactivated && IsActive != BaseRepo.UpdatedAt;
  }
}
