/**
 * The patient handlers of the first backend: patient records keyed and
 * counted by `patient_id`, with date of birth as the third required field.
 */
module PatientService {
  import opened PersonRecords

  const PatientId: string := "patient_id"
  const DateOfBirth: string := "date_of_birth"
  const Phone: string := "phone"
  const Email: string := "email"
  const Address: string := "address"
  const EmergencyContact: string := "emergency_contact"
  const EmergencyPhone: string := "emergency_phone"

  const Patients: Kind := Kind(PatientId, DateOfBirth, [Phone, Email, Address, EmergencyContact, EmergencyPhone])

  /**
   * The patient kind requires first name, last name and date of birth,
   * lets an update write exactly the eight listed fields, and none of
   * them is the ID or the full name.
   */
  lemma PatientsWellFormed()
    ensures Required(Patients) == [FirstName, LastName, DateOfBirth]
    ensures Allowed(Patients) == [FirstName, LastName, DateOfBirth, Phone, Email, Address, EmergencyContact, EmergencyPhone]
    ensures WellFormed(Patients)
  {
    assert PatientId[0] == 'p' && FullName[0] == 'f' && FirstName[1] == 'i';
    assert LastName[0] == 'l' && DateOfBirth[0] == 'd' && Phone[1] == 'h';
    assert Email[0] == 'e' && Address[0] == 'a' && EmergencyContact[0] == 'e' && EmergencyPhone[0] == 'e';
  }
}
