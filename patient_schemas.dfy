/**
 * The patient schemas of the second backend: the postal-code formatter
 * behind its field pattern, the date-of-birth validator, the phone
 * pattern, and the response's full name. Dates are day numbers; character
 * classes are ASCII. A pattern `^...$` is matched as Python's `re.match`
 * does, so `$` also accepts one trailing newline.
 */
module PatientSchemas {
  import opened Wrappers
  import opened Text
  import opened Documents
  import PersonRecords
  import PatientRepo

  const Space: char := ' '
  const Newline: char := '\n'
  const Plus: char := '+'

  // ---------------------------------------------------------------------
  // Postal codes
  // ---------------------------------------------------------------------

  /** `v.upper().replace(' ', '')`. */
  function Compact(v: string): (s: string)
    ensures forall i :: 0 <= i < |s| ==> s[i] != Space && !IsLower(s[i])
  {
    Remove(Upper(v), Space)
  }

  /** format_postal_code: the compact code, split as "XXX XXX" when it has six characters. */
  function FormatPostalCode(v: string): (r: string)
    ensures |Compact(v)| == 6 ==>
      |r| == 7 && r[3] == Space && r[..3] == Compact(v)[..3] && r[4..] == Compact(v)[3..]
    ensures |Compact(v)| != 6 ==> r == Compact(v)
    ensures forall i :: 0 <= i < |r| ==> !IsLower(r[i])
  {
    var s := Compact(v);
    if |s| == 6 then s[..3] + [Space] + s[3..] else s
  }

  lemma UpperWithoutLower(s: string)
    requires forall i :: 0 <= i < |s| ==> !IsLower(s[i])
    ensures Upper(s) == s
  {
  }

  lemma {:induction false} RemoveAbsent(s: string, c: char)
    requires forall i :: 0 <= i < |s| ==> s[i] != c
    ensures Remove(s, c) == s
  {
    if s != [] {
      RemoveAbsent(s[1..], c);
    }
  }

  lemma {:induction false} RemoveConcat(a: string, b: string, c: char)
    ensures Remove(a + b, c) == Remove(a, c) + Remove(b, c)
  {
    if a != [] {
      assert (a + b)[1..] == a[1..] + b;
      RemoveConcat(a[1..], b, c);
    } else {
      assert a + b == b;
    }
  }

  /** Removing the space of "XXX XXX" leaves the six other characters. */
  lemma RemoveSplitSpace(s: string)
    requires |s| == 6 && forall i :: 0 <= i < |s| ==> s[i] != Space
    ensures Remove(s[..3] + [Space] + s[3..], Space) == s
  {
    RemoveConcat(s[..3] + [Space], s[3..], Space);
    RemoveConcat(s[..3], [Space], Space);
    RemoveAbsent(s[..3], Space);
    RemoveAbsent(s[3..], Space);
    assert Remove([Space], Space) == [];
    assert s[..3] + s[3..] == s;
  }

  /** Formatting an already formatted code changes nothing. */
  lemma FormatPostalCodeIdempotent(v: string)
    ensures FormatPostalCode(FormatPostalCode(v)) == FormatPostalCode(v)
  {
    var s := Compact(v);
    var r := FormatPostalCode(v);
    UpperWithoutLower(r);
    if |s| == 6 {
      RemoveSplitSpace(s);
    } else {
      RemoveAbsent(s, Space);
    }
    assert Compact(r) == s;
  }

  /** `^[A-Z]\d[A-Z] \d[A-Z]\d` on exactly seven characters. */
  predicate PostalShape(v: string)
  {
    |v| == 7 && IsUpper(v[0]) && IsDigit(v[1]) && IsUpper(v[2]) && v[3] == Space &&
    IsDigit(v[4]) && IsUpper(v[5]) && IsDigit(v[6])
  }

  /** The field's pattern, whose `$` also matches before a final newline. */
  predicate PostalPattern(v: string)
  {
    PostalShape(v) || (|v| == 8 && v[7] == Newline && PostalShape(v[..7]))
  }

  const PostalPatternError: string := "string does not match regex"

  /** The postal_code field: its pattern first, then format_postal_code. */
  function PostalCodeField(v: string): (r: Result<string>)
    ensures r.Ok? <==> PostalPattern(v)
    ensures r.Ok? ==> r.value == FormatPostalCode(v)
  {
    if PostalPattern(v) then Ok(FormatPostalCode(v)) else Err(PostalPatternError)
  }

  /** The code of a "XXX XXX" shape without its space. */
  lemma CompactOfShape(v: string)
    requires PostalShape(v)
    ensures Compact(v) == v[..3] + v[4..]
  {
    UpperWithoutLower(v);
    var s := v[..3] + v[4..];
    assert v == s[..3] + [Space] + s[3..];
    RemoveSplitSpace(s);
  }

  /** Behind the pattern the formatter only ever sees a code already in its final form, and keeps it. */
  lemma PostalCodeFieldKeepsCode(v: string)
    requires PostalShape(v)
    ensures PostalCodeField(v) == Ok(v)
  {
    CompactOfShape(v);
    assert v == v[..3] + [Space] + v[4..];
  }

  /** A code followed by a newline passes the pattern and is stored unspaced, keeping the newline. */
  lemma PostalCodeFieldTrailingNewline(v: string)
    requires PostalShape(v)
    ensures PostalCodeField(v + [Newline]) == Ok(v[..3] + v[4..] + [Newline])
  {
    var w := v + [Newline];
    assert w[..7] == v;
    UpperWithoutLower(w);
    UpperWithoutLower(v);
    CompactOfShape(v);
    RemoveConcat(v, [Newline], Space);
    assert Remove([Newline], Space) == [Newline];
    assert Compact(w) == v[..3] + v[4..] + [Newline];
  }

  // ---------------------------------------------------------------------
  // Date of birth
  // ---------------------------------------------------------------------

  const FutureBirthError: string := "Date of birth cannot be in the future"
  const InvalidBirthError: string := "Invalid date of birth"

  /**
   * validate_age: the age is days / 365.25, that is 4 * days / 1461, and
   * must lie in [0, 150]. For whole days the quotient is never within
   * rounding distance of either bound, so the comparisons are exact.
   */
  function ValidateAge(dateOfBirth: int, today: int): (r: Result<int>)
    ensures r.Ok? <==> 0 <= 4 * (today - dateOfBirth) <= 150 * 1461
    ensures r.Ok? ==> r.value == dateOfBirth
    ensures r == Err(FutureBirthError) <==> dateOfBirth > today
    ensures r == Err(InvalidBirthError) <==> today - dateOfBirth > 54787
  {
    var days := today - dateOfBirth;
    if days < 0 then Err(FutureBirthError)
    else if 4 * days > 219150 then Err(InvalidBirthError)
    else Ok(dateOfBirth)
  }

  // ---------------------------------------------------------------------
  // Phone numbers
  // ---------------------------------------------------------------------

  /** `[1-9]\d{1,14}`: two to fifteen digits, the first not zero. */
  predicate PhoneDigits(s: string)
  {
    2 <= |s| <= 15 && '1' <= s[0] <= '9' && AllDigits(s)
  }

  /** `\+?[1-9]\d{1,14}` over the whole string. */
  predicate PhoneShape(s: string)
  {
    PhoneDigits(s) || (|s| > 0 && s[0] == Plus && PhoneDigits(s[1..]))
  }

  /** The phone fields' pattern `^\+?[1-9]\d{1,14}$`. */
  predicate PhonePattern(s: string)
  {
    PhoneShape(s) || (|s| > 0 && s[|s| - 1] == Newline && PhoneShape(s[..|s| - 1]))
  }

  /** A valid phone keeps all its digits after normalisation: between two and fifteen of them. */
  lemma PhoneShapeDigits(s: string)
    requires PhoneShape(s)
    ensures Digits(s) == if s[0] == Plus then s[1..] else s
    ensures 2 <= |Digits(s)| <= 15
  {
    if s[0] == Plus {
      DigitsOfDigitString(s[1..]);
    } else {
      DigitsOfDigitString(s);
    }
  }

  lemma {:induction false} DigitsDropsNewline(s: string)
    ensures Digits(s + [Newline]) == Digits(s)
  {
    if s != [] {
      assert (s + [Newline])[1..] == s[1..] + [Newline];
      DigitsDropsNewline(s[1..]);
    } else {
      assert Digits([Newline][1..]) == [];
    }
  }

  /** Every phone the field pattern accepts, a trailing newline included, has two to fifteen digits. */
  lemma PhonePatternDigits(s: string)
    requires PhonePattern(s)
    ensures 2 <= |Digits(s)| <= 15
  {
    if PhoneShape(s) {
      PhoneShapeDigits(s);
    } else {
      var t := s[..|s| - 1];
      assert s == t + [Newline];
      PhoneShapeDigits(t);
      DigitsDropsNewline(t);
    }
  }

  /** A patient stored with a valid phone is found by find_by_phone with that same phone. */
  lemma StoredPhoneIsFound(docs: seq<Doc>, phone: string, j: nat)
    requires PhoneShape(phone)
    requires j < |docs| && Get(docs[j], PatientRepo.Phone) == Str(phone)
    ensures PatientRepo.FindByPhone(docs, phone).Some?
  {
    PhoneShapeDigits(phone);
    if phone[0] == Plus {
      assert OccursAt(phone, Digits(phone), 1);
    } else {
      assert OccursAt(phone, Digits(phone), 0);
    }
    assert PatientRepo.PhoneMatches(docs[j], Digits(phone));
  }

  // ---------------------------------------------------------------------
  // Full name
  // ---------------------------------------------------------------------

  /** PatientResponse.full_name: "first middle last" with a non-empty middle name, else "first last". */
  function FullName(firstName: string, middleName: Option<string>, lastName: string): string
  {
    if middleName.Some? && middleName.value != "" then firstName + [Space] + middleName.value + [Space] + lastName
    else firstName + [Space] + lastName
  }

  /** The full name starts with the first name and ends with the last, the middle name between spaces. */
  lemma FullNameParts(firstName: string, middleName: Option<string>, lastName: string)
    ensures var r := FullName(firstName, middleName, lastName);
      var hasMiddle := middleName.Some? && middleName.value != "";
      |r| == |firstName| + 1 + |lastName| + (if hasMiddle then |middleName.value| + 1 else 0) &&
      r[..|firstName|] == firstName && r[|firstName|] == Space && r[|r| - |lastName|..] == lastName &&
      r[|r| - |lastName| - 1] == Space &&
      (hasMiddle ==> r[|firstName| + 1..|firstName| + 1 + |middleName.value|] == middleName.value)
  {
  }

  /** Without a middle name it is the full_name the first backend stores for a patient. */
  lemma FullNameMatchesStoredFullName(firstName: string, lastName: string)
    ensures Str(FullName(firstName, None, lastName)) == PersonRecords.FullNameOf(Str(firstName), Str(lastName))
  {
  }
}
