/**
 * The staff handlers of the first backend: staff records keyed and counted
 * by `staff_id`, with the role as the third required field.
 */
module StaffService {
  import opened PersonRecords

  const StaffId: string := "staff_id"
  const Role: string := "role"
  const Phone: string := "phone"
  const Email: string := "email"
  const Specialization: string := "specialization"

  const Staff: Kind := Kind(StaffId, Role, [Phone, Email, Specialization])

  /**
   * The staff kind requires first name, last name and role, lets an update
   * write exactly the six listed fields, and none of them is the ID or the
   * full name.
   */
  lemma StaffWellFormed()
    ensures Required(Staff) == [FirstName, LastName, Role]
    ensures Allowed(Staff) == [FirstName, LastName, Role, Phone, Email, Specialization]
    ensures WellFormed(Staff)
  {
    assert StaffId[0] == 's' && FullName[0] == 'f' && FirstName[0] == 'f' && LastName[0] == 'l';
    assert Role[0] == 'r' && Phone[0] == 'p' && Email[0] == 'e' && Specialization[1] == 'p';
  }
}
