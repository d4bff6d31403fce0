/**
 * The patient helpers of the first backend's document layer: add a patient
 * under a counter-issued `Patient_Id` after checking the date of birth and
 * that no patient already holds the same government or insurance card,
 * update the given fields, and delete by ID.
 */
module Patient2 {
  import opened Wrappers
  import opened Documents
  import opened Calendar
  import DateText

  const PatientId: string := "Patient_Id"
  const FirstName: string := "First_Name"
  const LastName: string := "Last_Name"
  const DateOfBirth: string := "Date_Of_Birth"
  const Phone: string := "Phone"
  const Email: string := "Email"
  const GovCardNo: string := "Gov_Card_no"
  const InsuranceNo: string := "Insurance_no"

  /** The counter that numbers patients (spelled with a lower-case "id", unlike the field). */
  const PatientCounter: string := "Patient_id"

  /**
   * How add_patient ends: ValueError for a malformed date of birth, None
   * for a duplicate card (nothing inserted), or the insert of a new patient.
   */
  datatype AddOutcome = BadDateOfBirth | DuplicateCard | Added(patientId: nat)

  /** The find_one filter `{"$or": [{Gov_Card_no: gov}, {Insurance_no: ins}]}`. */
  function SameCard(govCardNo: Value, insuranceNo: Value): Doc -> bool
  {
    d => Get(d, GovCardNo) == govCardNo || Get(d, InsuranceNo) == insuranceNo
  }

  /** The inserted patient: the new ID, the arguments, and the parsed date of birth as a midnight date-time. */
  function NewPatient(id: nat, firstName: Value, lastName: Value, dob: Date, phone: Value, email: Value,
                      govCardNo: Value, insuranceNo: Value): (d: Doc)
    requires ValidDate(dob)
    ensures d.Keys == {PatientId, FirstName, LastName, DateOfBirth, Phone, Email, GovCardNo, InsuranceNo}
    ensures d[PatientId] == Int(id) && d[DateOfBirth] == Stamp(Midnight(dob))
    ensures d[FirstName] == firstName && d[LastName] == lastName && d[Phone] == phone && d[Email] == email
    ensures d[GovCardNo] == govCardNo && d[InsuranceNo] == insuranceNo
  {
    map[PatientId := Int(id), FirstName := firstName, LastName := lastName, DateOfBirth := Stamp(Midnight(dob)),
        Phone := phone, Email := email, GovCardNo := govCardNo, InsuranceNo := insuranceNo]
  }

  /**
   * add_patient: the date of birth is parsed first, then the card check
   * runs, and only then is a `Patient_Id` drawn and the patient inserted.
   * The function itself raises ValueError on a bad date and returns None
   * on both other paths; the outcome is an abstraction that names which
   * path was taken, `Added(id)` carrying the ID of the inserted patient.
   */
  method AddPatient(patients: Collection, counters: Counters, firstName: Value, lastName: Value,
                    dateOfBirth: string, phone: Value, email: Value, govCardNo: Value, insuranceNo: Value)
    returns (outcome: AddOutcome)
    modifies patients, counters
    ensures DateText.ParseYmd(dateOfBirth).None? ==>
      outcome == BadDateOfBirth && patients.docs == old(patients.docs) && counters.values == old(counters.values)
    ensures DateText.ParseYmd(dateOfBirth).Some? && FindOne(old(patients.docs), SameCard(govCardNo, insuranceNo)).Some? ==>
      outcome == DuplicateCard && patients.docs == old(patients.docs) && counters.values == old(counters.values)
    ensures DateText.ParseYmd(dateOfBirth).Some? && FindOne(old(patients.docs), SameCard(govCardNo, insuranceNo)).None? ==>
      var id := CounterValue(old(counters.values), PatientCounter) + 1;
      outcome == Added(id) &&
      counters.values == old(counters.values)[PatientCounter := id] &&
      patients.docs == old(patients.docs) +
        [NewPatient(id, firstName, lastName, DateText.ParseYmd(dateOfBirth).value, phone, email, govCardNo, insuranceNo)]
  {
    var dob := DateText.ParseYmd(dateOfBirth);
    if dob.None? {
      return BadDateOfBirth;
    }
    var existing := FindOne(patients.docs, SameCard(govCardNo, insuranceNo));
    if existing.Some? {
      return DuplicateCard;
    }
    var patientId := counters.Next(PatientCounter);
    var newPatient := NewPatient(patientId, firstName, lastName, dob.value, phone, email, govCardNo, insuranceNo);
    patients.InsertOne(newPatient);
    return Added(patientId);
  }

  /** No two stored patients share a government card number or an insurance number. */
  ghost predicate CardsUnique(docs: seq<Doc>)
  {
    forall i, j :: 0 <= i < j < |docs| ==>
      Get(docs[i], GovCardNo) != Get(docs[j], GovCardNo) && Get(docs[i], InsuranceNo) != Get(docs[j], InsuranceNo)
  }

  /**
   * The state add_patient keeps: stored IDs do not run ahead of the counter
   * and cards are unique. A patient admitted by the card check keeps both.
   */
  lemma AddKeepsStoreConsistent(docs: seq<Doc>, n: nat, d: Doc)
    requires NoIdAbove(docs, PatientId, n) && CardsUnique(docs)
    requires FindOne(docs, SameCard(Get(d, GovCardNo), Get(d, InsuranceNo))).None?
    requires Get(d, PatientId) == Int(n + 1)
    ensures NoIdAbove(docs + [d], PatientId, n + 1) && CardsUnique(docs + [d])
    ensures forall j :: 0 <= j < |docs| ==> Get(docs[j], PatientId) != Get(d, PatientId)
  {
    NextIdFresh(docs, PatientId, n, d);
    var s := docs + [d];
    forall i, j | 0 <= i < j < |s|
      ensures Get(s[i], GovCardNo) != Get(s[j], GovCardNo) && Get(s[i], InsuranceNo) != Get(s[j], InsuranceNo)
    {
      if j == |docs| {
        assert !SameCard(Get(d, GovCardNo), Get(d, InsuranceNo))(docs[i]);
      }
    }
  }

  /** The `$set` of update_patient: the arguments given (not None), never `Patient_Id`. */
  function PatientUpdate(firstName: Value, lastName: Value, dateOfBirth: Value, phone: Value, email: Value,
                         govCardNo: Value, insuranceNo: Value): Doc
  {
    WithoutNulls(map[FirstName := firstName, LastName := lastName, DateOfBirth := dateOfBirth, Phone := phone,
                     Email := email, GovCardNo := govCardNo, InsuranceNo := insuranceNo])
  }

  lemma PatientUpdateFields(firstName: Value, lastName: Value, dateOfBirth: Value, phone: Value, email: Value,
                            govCardNo: Value, insuranceNo: Value)
    ensures var u := PatientUpdate(firstName, lastName, dateOfBirth, phone, email, govCardNo, insuranceNo);
      u.Keys <= {FirstName, LastName, DateOfBirth, Phone, Email, GovCardNo, InsuranceNo} && PatientId !in u &&
      forall k :: k in u ==> u[k] != Null
  {
  }

  /** Each argument is written exactly when given, with its own value. */
  lemma PatientUpdateValues(firstName: Value, lastName: Value, dateOfBirth: Value, phone: Value, email: Value,
                            govCardNo: Value, insuranceNo: Value)
    ensures var u := PatientUpdate(firstName, lastName, dateOfBirth, phone, email, govCardNo, insuranceNo);
      Get(u, FirstName) == firstName && Get(u, LastName) == lastName && Get(u, DateOfBirth) == dateOfBirth &&
      Get(u, Phone) == phone && Get(u, Email) == email && Get(u, GovCardNo) == govCardNo &&
      Get(u, InsuranceNo) == insuranceNo
  {
  }

  /**
   * update_patient: False and no write when no patient has the ID;
   * otherwise the given fields are `$set` on the first match (no write
   * when none was given) and the result is True.
   */
  method UpdatePatient(patients: Collection, patientId: Value, firstName: Value, lastName: Value,
                       dateOfBirth: Value, phone: Value, email: Value, govCardNo: Value, insuranceNo: Value)
    returns (ok: bool)
    modifies patients
    ensures var i := FirstMatch(old(patients.docs), FieldEquals(PatientId, patientId));
      var u := PatientUpdate(firstName, lastName, dateOfBirth, phone, email, govCardNo, insuranceNo);
      (ok <==> i.Some?) &&
      (i.None? || u == map[] ==> patients.docs == old(patients.docs)) &&
      (i.Some? && u != map[] ==>
         patients.docs == old(patients.docs)[i.value := SetFields(old(patients.docs)[i.value], u)])
  {
    var patient := FindOne(patients.docs, FieldEquals(PatientId, patientId));
    if patient.None? {
      return false;
    }
    var updateFields := CollectPatientUpdate(firstName, lastName, dateOfBirth, phone, email, govCardNo, insuranceNo);
    if updateFields != map[] {
      var _ := patients.UpdateOneSet(FieldEquals(PatientId, patientId), updateFields);
    }
    return true;
  }

  /** The dictionary update_patient builds, one `is not None` test per argument. */
  method CollectPatientUpdate(firstName: Value, lastName: Value, dateOfBirth: Value, phone: Value, email: Value,
                              govCardNo: Value, insuranceNo: Value)
    returns (updateFields: Doc)
    ensures updateFields == PatientUpdate(firstName, lastName, dateOfBirth, phone, email, govCardNo, insuranceNo)
  {
    updateFields := map[];
    ghost var u: Doc := map[];
    if firstName != Null {
      updateFields := updateFields[FirstName := firstName];
    }
    u := SetGiven(u, FirstName, firstName);
    assert updateFields == u;
    if lastName != Null {
      updateFields := updateFields[LastName := lastName];
    }
    u := SetGiven(u, LastName, lastName);
    assert updateFields == u;
    if dateOfBirth != Null {
      updateFields := updateFields[DateOfBirth := dateOfBirth];
    }
    u := SetGiven(u, DateOfBirth, dateOfBirth);
    assert updateFields == u;
    if phone != Null {
      updateFields := updateFields[Phone := phone];
    }
    u := SetGiven(u, Phone, phone);
    assert updateFields == u;
    if email != Null {
      updateFields := updateFields[Email := email];
    }
    u := SetGiven(u, Email, email);
    assert updateFields == u;
    if govCardNo != Null {
      updateFields := updateFields[GovCardNo := govCardNo];
    }
    u := SetGiven(u, GovCardNo, govCardNo);
    assert updateFields == u;
    if insuranceNo != Null {
      updateFields := updateFields[InsuranceNo := insuranceNo];
    }
    u := SetGiven(u, InsuranceNo, insuranceNo);
    assert updateFields == u;
    GivenChainIsUpdate(firstName, lastName, dateOfBirth, phone, email, govCardNo, insuranceNo);
  }

  /** Filtering the None arguments out at the end is the same as adding each argument when it is given. */
  lemma GivenChainIsUpdate(firstName: Value, lastName: Value, dateOfBirth: Value, phone: Value, email: Value,
                           govCardNo: Value, insuranceNo: Value)
    ensures SetGiven(SetGiven(SetGiven(SetGiven(SetGiven(SetGiven(SetGiven(map[], FirstName, firstName),
      LastName, lastName), DateOfBirth, dateOfBirth), Phone, phone), Email, email), GovCardNo, govCardNo),
      InsuranceNo, insuranceNo) == PatientUpdate(firstName, lastName, dateOfBirth, phone, email, govCardNo, insuranceNo)
  {
    UpdateKeysDistinct();
    var g: Doc := map[];
    assert map[] == WithoutNulls(g);
    GivenSteps(g, map[], FirstName, LastName, DateOfBirth, firstName, lastName, dateOfBirth);
    g := g[FirstName := firstName][LastName := lastName][DateOfBirth := dateOfBirth];
    var u := SetGiven(SetGiven(SetGiven(map[], FirstName, firstName), LastName, lastName), DateOfBirth, dateOfBirth);
    GivenSteps(g, u, Phone, Email, GovCardNo, phone, email, govCardNo);
    g := g[Phone := phone][Email := email][GovCardNo := govCardNo];
    u := SetGiven(SetGiven(SetGiven(u, Phone, phone), Email, email), GovCardNo, govCardNo);
    GivenStep(g, u, InsuranceNo, insuranceNo);
  }

  /** The seven field names of update_patient are distinct. */
  lemma UpdateKeysDistinct()
    ensures FirstName != LastName && FirstName != DateOfBirth && FirstName != Phone && FirstName != Email
    ensures FirstName != GovCardNo && FirstName != InsuranceNo
    ensures LastName != DateOfBirth && LastName != Phone && LastName != Email && LastName != GovCardNo
    ensures LastName != InsuranceNo
    ensures DateOfBirth != Phone && DateOfBirth != Email && DateOfBirth != GovCardNo && DateOfBirth != InsuranceNo
    ensures Phone != Email && Phone != GovCardNo && Phone != InsuranceNo
    ensures Email != GovCardNo && Email != InsuranceNo && GovCardNo != InsuranceNo
  {
    assert Phone[0] != Email[0];
  }

  /** Three more distinct keys, none of them already present. */
  lemma GivenSteps(g: Doc, u: Doc, k1: string, k2: string, k3: string, v1: Value, v2: Value, v3: Value)
    requires u == WithoutNulls(g) && k1 !in g && k2 !in g && k3 !in g
    requires k1 != k2 && k1 != k3 && k2 != k3
    ensures SetGiven(SetGiven(SetGiven(u, k1, v1), k2, v2), k3, v3) == WithoutNulls(g[k1 := v1][k2 := v2][k3 := v3])
  {
    GivenStep(g, u, k1, v1);
    GivenStep(g[k1 := v1], SetGiven(u, k1, v1), k2, v2);
    GivenStep(g[k1 := v1][k2 := v2], SetGiven(SetGiven(u, k1, v1), k2, v2), k3, v3);
  }

  lemma GivenStep(g: Doc, u: Doc, key: string, v: Value)
    requires key !in g && u == WithoutNulls(g)
    ensures SetGiven(u, key, v) == WithoutNulls(g[key := v])
  {
    WithoutNullsExtend(g, key, v);
  }

  /** An update never moves a patient's ID, so the IDs stay behind the counter. */
  lemma UpdateKeepsIds(docs: seq<Doc>, n: int, i: nat, u: Doc)
    requires NoIdAbove(docs, PatientId, n) && i < |docs| && PatientId !in u
    ensures Get(SetFields(docs[i], u), PatientId) == Get(docs[i], PatientId)
    ensures NoIdAbove(docs[i := SetFields(docs[i], u)], PatientId, n)
  {
    var s := docs[i := SetFields(docs[i], u)];
    assert forall j :: 0 <= j < |s| ==> Get(s[j], PatientId) == Get(docs[j], PatientId);
  }

  const G1: string := "G1"
  const G2: string := "G2"
  const I1: string := "I1"
  const I2: string := "I2"

  function Card(id: int, gov: string, ins: string): Doc
  {
    map[PatientId := Int(id), GovCardNo := Str(gov), InsuranceNo := Str(ins)]
  }

  /**
   * The card check guards only add_patient: an update may give a patient
   * the government card another patient already holds.
   */
  lemma UpdateCanDuplicateCard()
    ensures var docs := [Card(1, G1, I1), Card(2, G2, I2)];
      var u := PatientUpdate(Null, Null, Null, Null, Null, Str(G1), Null);
      CardsUnique(docs) && !CardsUnique(docs[1 := SetFields(docs[1], u)])
  {
    var docs := [Card(1, G1, I1), Card(2, G2, I2)];
    var u := PatientUpdate(Null, Null, Null, Null, Null, Str(G1), Null);
    PatientUpdateValues(Null, Null, Null, Null, Null, Str(G1), Null);
    var after := docs[1 := SetFields(docs[1], u)];
    assert Get(after[0], GovCardNo) == Get(after[1], GovCardNo);
  }

  /** delete_patient: True exactly when a patient with the ID was removed. */
  method DeletePatient(patients: Collection, patientId: Value) returns (deleted: bool)
    modifies patients
    ensures deleted <==> FirstMatch(old(patients.docs), FieldEquals(PatientId, patientId)).Some?
    ensures deleted ==>
      patients.docs == RemoveAt(old(patients.docs), FirstMatch(old(patients.docs), FieldEquals(PatientId, patientId)).value)
    ensures !deleted ==> patients.docs == old(patients.docs)
  {
    deleted := patients.DeleteOne(FieldEquals(PatientId, patientId));
  }
}
