/**
 * The patient repository of the second backend: creation with an
 * automatic `patient_id`, the phone lookup on digits only, the
 * multi-criteria search whose filter is built step by step, the insurance
 * update that writes only the supplied fields, and the idempotent
 * addition of a chronic condition.
 */
module PatientRepo {
  import opened Wrappers
  import opened Text
  import opened Documents
  import Sorting
  import BaseRepo

  const PatientId: string := "patient_id"
  const Phone: string := "phone"
  const AlternatePhone: string := "alternate_phone"
  const FirstName: string := "first_name"
  const LastName: string := "last_name"
  const Email: string := "email"
  const HealthCardNumber: string := "health_card_number"
  const DateOfBirth: string := "date_of_birth"
  const IsActive: string := "is_active"
  const ChronicConditions: string := "chronic_conditions"
  const InsuranceProvider: string := "insurance_provider"
  const InsurancePolicyNumber: string := "insurance_policy_number"
  const InsuranceGroupNumber: string := "insurance_group_number"
  /** The keys of the insurance_data argument. */
  const Provider: string := "provider"
  const PolicyNumber: string := "policy_number"
  const GroupNumber: string := "group_number"

  /** create_patient: create with an automatic `patient_id`. */
  method CreatePatient(patients: BaseRepo.Repository, data: Doc, now: int) returns (created: Doc)
    modifies patients
    ensures BaseRepo.CreatedAs(old(patients.counters), patients.counters, patients.name, data, Some(PatientId), created, now)
    ensures patients.docs == old(patients.docs) + [created]
  {
    created := patients.Create(data, Some(PatientId), now);
  }

  // ---------------------------------------------------------------------
  // Phone lookup
  // ---------------------------------------------------------------------

  /**
   * `{field: {"$regex": digits}}`: an unanchored pattern of digits alone
   * matches a stored string that contains them; other values never match.
   */
  predicate FieldContains(d: Doc, field: string, needle: string)
  {
    Get(d, field).Str? && Contains(Get(d, field).s, needle)
  }

  /** The `$or` of the phone and the alternate phone. */
  predicate PhoneMatches(d: Doc, digits: string)
  {
    FieldContains(d, Phone, digits) || FieldContains(d, AlternatePhone, digits)
  }

  function PhoneFilter(digits: string): Doc -> bool
  {
    d => PhoneMatches(d, digits)
  }

  /** find_by_phone: the first patient whose phone or alternate phone contains the input's digits. */
  function FindByPhone(docs: seq<Doc>, phone: string): (r: Option<Doc>)
    ensures r.Some? ==> r.value in docs && PhoneMatches(r.value, Digits(phone))
    ensures r.None? <==> forall j :: 0 <= j < |docs| ==> !PhoneMatches(docs[j], Digits(phone))
  {
    FindOne(docs, PhoneFilter(Digits(phone)))
  }

  /** The lookup depends only on the digits of the input: punctuation and spaces make no difference. */
  lemma FindByPhoneIgnoresFormatting(docs: seq<Doc>, phone: string)
    ensures FindByPhone(docs, phone) == FindByPhone(docs, Digits(phone))
  {
    DigitsOfDigitString(Digits(phone));
  }

  /** A patient stored with exactly the input's digits as phone is found (possibly after an earlier match). */
  lemma FindByPhoneFindsExactNumber(docs: seq<Doc>, phone: string, j: nat)
    requires j < |docs|
    requires Get(docs[j], Phone) == Str(Digits(phone))
    ensures FindByPhone(docs, phone).Some?
  {
    assert OccursAt(Digits(phone), Digits(phone), 0);
    assert PhoneMatches(docs[j], Digits(phone));
  }

  /** An input without any digit gives the empty pattern, which matches the first patient with a string phone. */
  lemma FindByPhoneWithoutDigits(docs: seq<Doc>, phone: string)
    requires Digits(phone) == ""
    requires |docs| > 0 && Get(docs[0], Phone).Str?
    ensures FindByPhone(docs, phone) == Some(docs[0])
  {
    assert OccursAt(Get(docs[0], Phone).s, "", 0);
  }

  // ---------------------------------------------------------------------
  // search_patients
  // ---------------------------------------------------------------------

  /** The fields of PatientSearchRequest; `isActive` defaults to Some(true) and dates are day numbers. */
  datatype SearchRequest = SearchRequest(
    searchTerm: Option<string>,
    healthCardNumber: Option<string>,
    phone: Option<string>,
    email: Option<string>,
    dateOfBirth: Option<int>,
    city: Option<string>,
    isActive: Option<bool>)

  /** `if search_params.x:` on an optional string: given and non-empty. */
  predicate Given(s: Option<string>)
  {
    s.Some? && s.value != ""
  }

  /** The `$or` clause of the filter: the text search, or the phone search that overwrote it. */
  datatype OrClause = TermSearch(term: string) | PhoneSearch(digits: string)

  /** The filter dictionary search_patients builds. */
  datatype SearchQuery = SearchQuery(
    orClause: Option<OrClause>,
    healthCardNumber: Option<string>,
    dateOfBirth: Option<int>,
    isActive: Option<bool>)

  /**
   * `{"$regex": term, "$options": "i"}` on one field, for a term without
   * regular-expression operators: a case-insensitive substring test.
   */
  predicate FieldContainsIgnoringCase(d: Doc, field: string, term: string)
  {
    Get(d, field).Str? && Contains(Lower(Get(d, field).s), Lower(term))
  }

  /** The text search over first name, last name, email and phone. */
  predicate TermMatches(d: Doc, term: string)
  {
    FieldContainsIgnoringCase(d, FirstName, term) || FieldContainsIgnoringCase(d, LastName, term) ||
    FieldContainsIgnoringCase(d, Email, term) || FieldContainsIgnoringCase(d, Phone, term)
  }

  /** What a document must satisfy to match the built filter. */
  predicate QueryMatches(q: SearchQuery, d: Doc)
  {
    (match q.orClause
     case None => true
     case Some(TermSearch(term)) => TermMatches(d, term)
     case Some(PhoneSearch(digits)) => PhoneMatches(d, digits)) &&
    (q.healthCardNumber.Some? ==> Get(d, HealthCardNumber) == Str(q.healthCardNumber.value)) &&
    (q.dateOfBirth.Some? ==> Get(d, DateOfBirth) == BaseRepo.DayStamp(q.dateOfBirth.value)) &&
    (q.isActive.Some? ==> Get(d, IsActive) == Bool(q.isActive.value))
  }

  /**
   * The search as a reference definition over the request: a given phone
   * restricts by its digits and the search term then plays no part; else a
   * given term restricts by name, email or phone; each of the health card,
   * the date of birth and the active flag restricts when given.
   */
  predicate SearchSpec(p: SearchRequest, d: Doc)
  {
    (Given(p.phone) ==> PhoneMatches(d, Digits(p.phone.value))) &&
    (!Given(p.phone) && Given(p.searchTerm) ==> TermMatches(d, p.searchTerm.value)) &&
    (Given(p.healthCardNumber) ==> Get(d, HealthCardNumber) == Str(p.healthCardNumber.value)) &&
    (p.dateOfBirth.Some? ==> Get(d, DateOfBirth) == BaseRepo.DayStamp(p.dateOfBirth.value)) &&
    (p.isActive.Some? ==> Get(d, IsActive) == Bool(p.isActive.value))
  }

  function SpecFilter(p: SearchRequest): Doc -> bool
  {
    d => SearchSpec(p, d)
  }

  function QueryFilter(q: SearchQuery): Doc -> bool
  {
    d => QueryMatches(q, d)
  }

  /** The filter-building part of search_patients, one criterion at a time. */
  method BuildSearchFilter(p: SearchRequest) returns (q: SearchQuery)
    ensures q.orClause.Some? <==> Given(p.phone) || Given(p.searchTerm)
    ensures Given(p.phone) ==> q.orClause == Some(PhoneSearch(Digits(p.phone.value)))
    ensures forall d :: QueryMatches(q, d) <==> SearchSpec(p, d)
  {
    q := SearchQuery(None, None, None, None);
    if Given(p.searchTerm) {
      q := q.(orClause := Some(TermSearch(p.searchTerm.value)));
    }
    if Given(p.healthCardNumber) {
      q := q.(healthCardNumber := p.healthCardNumber);
    }
    if Given(p.phone) {
      q := q.(orClause := Some(PhoneSearch(Digits(p.phone.value))));
    }
    if p.dateOfBirth.Some? {
      q := q.(dateOfBirth := p.dateOfBirth);
    }
    if p.isActive.Some? {
      q := q.(isActive := p.isActive);
    }
  }

  /** `sort=[("last_name", 1), ("first_name", 1)]`. */
  function ByName(): (Doc, Doc) -> bool
  {
    SortKeys([LastName, FirstName])
  }

  /** search_patients: the first page of patients meeting the request, by last name and then first name. */
  method SearchPatients(patients: BaseRepo.Repository, p: SearchRequest) returns (r: seq<Doc>)
    ensures r == BaseRepo.FindMany(patients.docs, SpecFilter(p), 0, BaseRepo.DefaultLimit, Some(ByName()))
  {
    var q := BuildSearchFilter(p);
    r := BaseRepo.FindMany(patients.docs, QueryFilter(q), 0, BaseRepo.DefaultLimit, Some(ByName()));
    Sorting.FilterSame(patients.docs, QueryFilter(q), SpecFilter(p));
  }

  /** Every result meets the request, the page holds at most 100 patients and is in name order. */
  lemma SearchResultsMeetRequest(docs: seq<Doc>, p: SearchRequest)
    ensures var r := BaseRepo.FindMany(docs, SpecFilter(p), 0, BaseRepo.DefaultLimit, Some(ByName()));
      |r| <= BaseRepo.DefaultLimit && (forall i :: 0 <= i < |r| ==> r[i] in docs && SearchSpec(p, r[i])) &&
      Sorting.SortedBy(r, ByName())
  {
    SortKeysPreorder([LastName, FirstName]);
    BaseRepo.FindManySorted(docs, SpecFilter(p), 0, BaseRepo.DefaultLimit, ByName());
  }

  /** A phone criterion replaces the search term: with a phone given, the term does not change the result. */
  lemma PhoneReplacesSearchTerm(p: SearchRequest, term: Option<string>, d: Doc)
    requires Given(p.phone)
    ensures SearchSpec(p.(searchTerm := term), d) == SearchSpec(p, d)
  {
  }

  /** The request's email and city are accepted but never filtered on. */
  lemma SearchIgnoresEmailAndCity(p: SearchRequest, email: Option<string>, city: Option<string>, d: Doc)
    ensures SearchSpec(p.(email := email, city := city), d) == SearchSpec(p, d)
  {
  }

  /** With the default `is_active = True`, an inactive patient is never found. */
  lemma SearchDefaultsToActive(p: SearchRequest, d: Doc)
    requires p.isActive == Some(true)
    requires Get(d, IsActive) != Bool(true)
    ensures !SearchSpec(p, d)
  {
  }

  // ---------------------------------------------------------------------
  // update_patient_insurance
  // ---------------------------------------------------------------------

  /** The update dictionary with None values removed. */
  function InsuranceUpdate(data: Doc): (u: Doc)
    ensures u.Keys <= {InsuranceProvider, InsurancePolicyNumber, InsuranceGroupNumber}
    ensures InsuranceProvider in u <==> Supplied(data, Provider)
    ensures InsurancePolicyNumber in u <==> Supplied(data, PolicyNumber)
    ensures InsuranceGroupNumber in u <==> Supplied(data, GroupNumber)
    ensures InsuranceProvider in u ==> u[InsuranceProvider] == data[Provider]
    ensures InsurancePolicyNumber in u ==> u[InsurancePolicyNumber] == data[PolicyNumber]
    ensures InsuranceGroupNumber in u ==> u[InsuranceGroupNumber] == data[GroupNumber]
  {
    WithoutNulls(map[InsuranceProvider := Get(data, Provider), InsurancePolicyNumber := Get(data, PolicyNumber),
                     InsuranceGroupNumber := Get(data, GroupNumber)])
  }

  /** update_patient_insurance. */
  method UpdatePatientInsurance(patients: BaseRepo.Repository, patientId: string, data: Doc, now: int)
    returns (r: Option<Doc>)
    modifies patients`docs
    ensures BaseRepo.UpdatedById(old(patients.docs), patients.docs, Str(patientId), PatientId, InsuranceUpdate(data), now, r)
  {
    r := patients.UpdateById(Str(patientId), PatientId, InsuranceUpdate(data), now);
  }

  /**
   * A supplied insurance field is written; one that is missing or None
   * keeps the stored value (or stays absent); every other field except the
   * update time is kept.
   */
  lemma InsuranceUpdateEffect(d: Doc, data: Doc, now: int)
    ensures var e := BaseRepo.ApplySet(d, InsuranceUpdate(data), now);
      (Supplied(data, Provider) ==> Get(e, InsuranceProvider) == data[Provider]) &&
      (!Supplied(data, Provider) ==> Get(e, InsuranceProvider) == Get(d, InsuranceProvider)) &&
      (Supplied(data, PolicyNumber) ==> Get(e, InsurancePolicyNumber) == data[PolicyNumber]) &&
      (!Supplied(data, PolicyNumber) ==> Get(e, InsurancePolicyNumber) == Get(d, InsurancePolicyNumber)) &&
      (Supplied(data, GroupNumber) ==> Get(e, InsuranceGroupNumber) == data[GroupNumber]) &&
      (!Supplied(data, GroupNumber) ==> Get(e, InsuranceGroupNumber) == Get(d, InsuranceGroupNumber)) &&
      forall k :: (k in d && k != InsuranceProvider && k != InsurancePolicyNumber && k != InsuranceGroupNumber &&
                   k != BaseRepo.UpdatedAt) ==> e[k] == d[k]
  {
    var u := InsuranceUpdate(data);
    assert InsuranceProvider != BaseRepo.UpdatedAt && InsurancePolicyNumber != BaseRepo.UpdatedAt &&
      InsuranceGroupNumber != BaseRepo.UpdatedAt;
  }

  // ---------------------------------------------------------------------
  // add_chronic_condition
  // ---------------------------------------------------------------------

  /** The patient's chronic conditions; the model's default is the empty list. */
  function Conditions(d: Doc): seq<Value>
  {
    if Get(d, ChronicConditions).Arr? then Get(d, ChronicConditions).items else []
  }

  function ConditionUpdate(d: Doc, condition: string): (u: Doc)
    ensures u.Keys == {ChronicConditions}
  {
    map[ChronicConditions := Arr(Conditions(d) + [Str(condition)])]
  }

  function PatientFilter(patientId: string): Doc -> bool
  {
    FieldEquals(PatientId, Str(patientId))
  }

  /** The patients after add_chronic_condition: only an absent condition of a found patient is written. */
  function WithCondition(docs: seq<Doc>, patientId: string, condition: string, now: int): seq<Doc>
  {
    var m := FirstMatch(docs, PatientFilter(patientId));
    if m.None? || Str(condition) in Conditions(docs[m.value]) then docs
    else docs[m.value := BaseRepo.ApplySet(docs[m.value], ConditionUpdate(docs[m.value], condition), now)]
  }

  /** What add_chronic_condition returns: None for an unknown patient, otherwise the patient as stored afterwards. */
  function ConditionResult(docs: seq<Doc>, patientId: string, condition: string, now: int): Option<Doc>
  {
    var m := FirstMatch(docs, PatientFilter(patientId));
    if m.None? then None else Some(WithCondition(docs, patientId, condition, now)[m.value])
  }

  /** add_chronic_condition. */
  method AddChronicCondition(patients: BaseRepo.Repository, patientId: string, condition: string, now: int)
    returns (r: Option<Doc>)
    modifies patients`docs
    ensures patients.docs == WithCondition(old(patients.docs), patientId, condition, now)
    ensures r == ConditionResult(old(patients.docs), patientId, condition, now)
  {
    var patient := FindOne(patients.docs, PatientFilter(patientId));
    if patient.None? {
      return None;
    }
    var conditions := Conditions(patient.value);
    if Str(condition) !in conditions {
      conditions := conditions + [Str(condition)];
      r := patients.UpdateById(Str(patientId), PatientId, map[ChronicConditions := Arr(conditions)], now);
      return;
    }
    r := patient;
  }

  /**
   * For a found patient the condition is afterwards among the conditions,
   * appended only when it was absent, so the list gains at most one entry;
   * every other patient is unchanged.
   */
  lemma AddConditionEffect(docs: seq<Doc>, patientId: string, condition: string, now: int)
    requires FirstMatch(docs, PatientFilter(patientId)).Some?
    ensures var i := FirstMatch(docs, PatientFilter(patientId)).value;
      var after := WithCondition(docs, patientId, condition, now);
      |after| == |docs| &&
      Conditions(after[i]) == (if Str(condition) in Conditions(docs[i]) then Conditions(docs[i])
                               else Conditions(docs[i]) + [Str(condition)]) &&
      Str(condition) in Conditions(after[i]) &&
      Get(after[i], PatientId) == Str(patientId) &&
      forall j :: 0 <= j < |docs| && j != i ==> after[j] == docs[j]
  {
    var i := FirstMatch(docs, PatientFilter(patientId)).value;
    assert ChronicConditions != BaseRepo.UpdatedAt && PatientId != ChronicConditions && PatientId != BaseRepo.UpdatedAt;
    assert ChronicConditions in ConditionUpdate(docs[i], condition);
  }

  /** Adding the same condition again changes nothing and returns the patient as the first call left it. */
  lemma AddConditionIdempotent(docs: seq<Doc>, patientId: string, condition: string, now: int, later: int)
    ensures var after := WithCondition(docs, patientId, condition, now);
      WithCondition(after, patientId, condition, later) == after &&
      ConditionResult(after, patientId, condition, later) == ConditionResult(docs, patientId, condition, now)
  {
    var m := FirstMatch(docs, PatientFilter(patientId));
    var after := WithCondition(docs, patientId, condition, now);
    if m.Some? {
      AddConditionEffect(docs, patientId, condition, now);
      if Str(condition) !in Conditions(docs[m.value]) {
        FirstMatchAfterSet(docs, PatientFilter(patientId), m.value, after[m.value]);
      }
    }
  }

  /** A list of conditions in which no entry appears twice. */
  predicate NoRepeats(cs: seq<Value>)
  {
    forall i, j :: 0 <= i < j < |cs| ==> cs[i] != cs[j]
  }

  /** Adding conditions one call at a time never repeats a condition. */
  lemma AddConditionKeepsNoRepeats(docs: seq<Doc>, patientId: string, condition: string, now: int)
    requires FirstMatch(docs, PatientFilter(patientId)).Some?
    requires NoRepeats(Conditions(docs[FirstMatch(docs, PatientFilter(patientId)).value]))
    ensures var i := FirstMatch(docs, PatientFilter(patientId)).value;
      NoRepeats(Conditions(WithCondition(docs, patientId, condition, now)[i]))
  {
    AddConditionEffect(docs, patientId, condition, now);
  }
}
