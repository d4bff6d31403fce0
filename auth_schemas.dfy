/**
 * The authentication schemas of the second backend: the password-strength
 * and password-confirmation validators of the change- and reset-password
 * requests, and the role and permission queries of the current user.
 * Character classes are ASCII.
 */
module AuthSchemas {
  import opened Wrappers
  import opened Text

  // ---------------------------------------------------------------------
  // Passwords
  // ---------------------------------------------------------------------

  /** The special characters a strong password must draw one from. */
  const SpecialChars: string := "!@#$%^&*()_+-=[]{}|;:,.<>?"

  const MinPasswordLength: nat := 8
  const MaxPasswordLength: nat := 100

  const TooShortError: string := "Password must be at least 8 characters long"
  const NoUpperError: string := "Password must contain at least one uppercase letter"
  const NoLowerError: string := "Password must contain at least one lowercase letter"
  const NoDigitError: string := "Password must contain at least one digit"
  const NoSpecialError: string := "Password must contain at least one special character"
  const MismatchError: string := "Passwords do not match"
  const LengthError: string := "ensure this value has between 8 and 100 characters"

  predicate IsSpecial(c: char)
  {
    c in SpecialChars
  }

  /** Python's `any(p(c) for c in s)`, left to right. */
  function AnyChar(s: string, p: char -> bool): bool
  {
    if s == [] then false else p(s[0]) || AnyChar(s[1..], p)
  }

  /** `any` holds exactly when some character satisfies the test. */
  lemma {:induction false} AnyCharIff(s: string, p: char -> bool)
    ensures AnyChar(s, p) <==> exists i :: 0 <= i < |s| && p(s[i])
  {
    if s != [] {
      AnyCharIff(s[1..], p);
      if AnyChar(s[1..], p) {
        var i :| 0 <= i < |s[1..]| && p(s[1..][i]);
        assert p(s[i + 1]);
      }
      if exists i :: 0 <= i < |s| && p(s[i]) {
        var i :| 0 <= i < |s| && p(s[i]);
        if i > 0 {
          assert p(s[1..][i - 1]);
        }
      }
    }
  }

  /** A strong password: at least 8 characters, with an upper-case letter, a lower-case letter, a digit and a special character. */
  predicate Strong(v: string)
  {
    |v| >= MinPasswordLength &&
    (exists i :: 0 <= i < |v| && IsUpper(v[i])) &&
    (exists i :: 0 <= i < |v| && IsLower(v[i])) &&
    (exists i :: 0 <= i < |v| && IsDigit(v[i])) &&
    (exists i :: 0 <= i < |v| && IsSpecial(v[i]))
  }

  /** validate_password_strength: the checks in validate_password_strength's order, each with its message. */
  function ValidatePasswordStrength(v: string): (r: Result<string>)
    ensures r.Ok? <==> Strong(v)
    ensures r.Ok? ==> r.value == v
    ensures |v| < MinPasswordLength ==> r == Err(TooShortError)
    ensures |v| >= MinPasswordLength && (forall i :: 0 <= i < |v| ==> !IsUpper(v[i])) ==> r == Err(NoUpperError)
    ensures r.Err? ==> r.message in {TooShortError, NoUpperError, NoLowerError, NoDigitError, NoSpecialError}
  {
    AnyCharIff(v, c => IsUpper(c));
    AnyCharIff(v, c => IsLower(c));
    AnyCharIff(v, c => IsDigit(c));
    AnyCharIff(v, c => IsSpecial(c));
    if |v| < MinPasswordLength then Err(TooShortError)
    else if !AnyChar(v, c => IsUpper(c)) then Err(NoUpperError)
    else if !AnyChar(v, c => IsLower(c)) then Err(NoLowerError)
    else if !AnyChar(v, c => IsDigit(c)) then Err(NoDigitError)
    else if !AnyChar(v, c => IsSpecial(c)) then Err(NoSpecialError)
    else Ok(v)
  }

  /**
   * passwords_match: `newPassword` is None when `new_password` failed its
   * own validation and so is missing from the values seen here.
   */
  function PasswordsMatch(v: string, newPassword: Option<string>): (r: Result<string>)
    ensures r.Err? <==> newPassword.Some? && v != newPassword.value
    ensures r.Ok? ==> r.value == v
    ensures r.Err? ==> r.message == MismatchError
  {
    if newPassword.Some? && v != newPassword.value then Err(MismatchError) else Ok(v)
  }

  /** `Field(..., min_length=8, max_length=100)`. */
  function LengthBounded(v: string): (r: Result<string>)
    ensures r.Ok? <==> MinPasswordLength <= |v| <= MaxPasswordLength
    ensures r.Ok? ==> r.value == v
  {
    if MinPasswordLength <= |v| <= MaxPasswordLength then Ok(v) else Err(LengthError)
  }

  /** The value a validated field leaves for the validators of later fields. */
  function Validated(r: Result<string>): Option<string>
  {
    if r.Ok? then Some(r.value) else None
  }

  datatype PasswordChange = PasswordChange(currentPassword: string, newPassword: string, confirmPassword: string)

  /** The `new_password` field of ChangePasswordRequest: its bounds, then the strength validator. */
  function ChangeNewPassword(v: string): Result<string>
  {
    var bounded := LengthBounded(v);
    if bounded.Err? then bounded else ValidatePasswordStrength(v)
  }

  /** The `confirm_password` field of either request: its bounds, then passwords_match. */
  function ConfirmPassword(v: string, newPassword: Option<string>): Result<string>
  {
    var bounded := LengthBounded(v);
    if bounded.Err? then bounded else PasswordsMatch(v, newPassword)
  }

  /** ChangePasswordRequest: the fields in declaration order; the first error is kept. */
  function ValidateChangePassword(current: string, newPassword: string, confirm: string): (r: Result<PasswordChange>)
    ensures r.Ok? <==>
      MinPasswordLength <= |current| <= MaxPasswordLength && |newPassword| <= MaxPasswordLength && Strong(newPassword) &&
      |confirm| <= MaxPasswordLength && confirm == newPassword
    ensures r.Ok? ==> r.value == PasswordChange(current, newPassword, confirm)
  {
    var c := LengthBounded(current);
    var n := ChangeNewPassword(newPassword);
    var f := ConfirmPassword(confirm, Validated(n));
    if c.Err? then Err(c.message)
    else if n.Err? then Err(n.message)
    else if f.Err? then Err(f.message)
    else Ok(PasswordChange(current, newPassword, confirm))
  }

  datatype PasswordReset = PasswordReset(token: string, newPassword: string, confirmPassword: string)

  /** ResetPasswordRequest: the same confirmation, but `new_password` has only its length bounds. */
  function ValidateResetPassword(token: string, newPassword: string, confirm: string): (r: Result<PasswordReset>)
    ensures r.Ok? <==> MinPasswordLength <= |newPassword| <= MaxPasswordLength && confirm == newPassword
    ensures r.Ok? ==> r.value == PasswordReset(token, newPassword, confirm)
  {
    var n := LengthBounded(newPassword);
    var f := ConfirmPassword(confirm, Validated(n));
    if n.Err? then Err(n.message)
    else if f.Err? then Err(f.message)
    else Ok(PasswordReset(token, newPassword, confirm))
  }

  const WeakPassword: string := "abcdefgh"

  /** A reset accepts a password that a change refuses: the reset request has no strength validator. */
  lemma ResetAcceptsWeakPassword(current: string, token: string)
    requires MinPasswordLength <= |current| <= MaxPasswordLength
    ensures ValidateResetPassword(token, WeakPassword, WeakPassword).Ok?
    ensures ValidateChangePassword(current, WeakPassword, WeakPassword).Err?
  {
    assert forall i :: 0 <= i < |WeakPassword| ==> !IsUpper(WeakPassword[i]);
  }

  // ---------------------------------------------------------------------
  // The current user
  // ---------------------------------------------------------------------

  datatype UserPermission = UserPermission(resource: string, actions: seq<string>)

  datatype UserRole = UserRole(roleId: string, roleName: string, permissions: seq<string>, isPrimary: bool)

  datatype CurrentUser = CurrentUser(
    userId: string,
    email: string,
    firstName: string,
    lastName: string,
    isActive: bool,
    roles: seq<UserRole>,
    permissions: seq<UserPermission>)

  /** full_name: the first name, one space, the last name. */
  function FullName(u: CurrentUser): (r: string)
    ensures |r| == |u.firstName| + 1 + |u.lastName|
    ensures r[..|u.firstName|] == u.firstName && r[|u.firstName|] == ' ' && r[|u.firstName| + 1..] == u.lastName
  {
    u.firstName + " " + u.lastName
  }

  /** role_names: the names of the user's roles, in order. */
  function RoleNames(u: CurrentUser): (r: seq<string>)
    ensures |r| == |u.roles|
    ensures forall i :: 0 <= i < |r| ==> r[i] == u.roles[i].roleName
  {
    seq(|u.roles|, i requires 0 <= i < |u.roles| => u.roles[i].roleName)
  }

  /** has_role: the name is among the role names. */
  function HasRole(u: CurrentUser, roleName: string): (r: bool)
    ensures r <==> exists i :: 0 <= i < |u.roles| && u.roles[i].roleName == roleName
  {
    var names := RoleNames(u);
    assert forall i :: 0 <= i < |u.roles| ==> names[i] == u.roles[i].roleName;
    roleName in names
  }

  /** A permission that names the resource and lists the action. */
  predicate Grants(p: UserPermission, resource: string, action: string)
  {
    p.resource == resource && action in p.actions
  }

  /** has_permission: the scan over the permissions, returning at the first that grants. */
  method HasPermission(u: CurrentUser, resource: string, action: string) returns (allowed: bool)
    ensures allowed <==> exists i :: 0 <= i < |u.permissions| && Grants(u.permissions[i], resource, action)
  {
    var i := 0;
    while i < |u.permissions|
      invariant 0 <= i <= |u.permissions|
      invariant forall j :: 0 <= j < i ==> !Grants(u.permissions[j], resource, action)
    {
      var permission := u.permissions[i];
      if permission.resource == resource && action in permission.actions {
        return true;
      }
      i := i + 1;
    }
    return false;
  }

  const Physician: string := "physician"
  const NursePractitioner: string := "nurse_practitioner"

  /** prescribing_roles, and admitting_roles, which is the same list. */
  const PrescribingRoles: seq<string> := [Physician, NursePractitioner]
  const AdmittingRoles: seq<string> := [Physician, NursePractitioner]

  /** `any(role in self.role_names for role in candidates)`. */
  function AnyRoleHeld(u: CurrentUser, candidates: seq<string>): bool
  {
    if candidates == [] then false else HasRole(u, candidates[0]) || AnyRoleHeld(u, candidates[1..])
  }

  /** `any` over the candidate roles holds exactly when the user has one of them. */
  lemma {:induction false} AnyRoleHeldIff(u: CurrentUser, candidates: seq<string>)
    ensures AnyRoleHeld(u, candidates) <==> exists k :: 0 <= k < |candidates| && HasRole(u, candidates[k])
  {
    if candidates != [] {
      AnyRoleHeldIff(u, candidates[1..]);
      if AnyRoleHeld(u, candidates[1..]) {
        var k :| 0 <= k < |candidates[1..]| && HasRole(u, candidates[1..][k]);
        assert HasRole(u, candidates[k + 1]);
      }
      if exists k :: 0 <= k < |candidates| && HasRole(u, candidates[k]) {
        var k :| 0 <= k < |candidates| && HasRole(u, candidates[k]);
        if k > 0 {
          assert HasRole(u, candidates[1..][k - 1]);
        }
      }
    }
  }

  function CanPrescribe(u: CurrentUser): bool
  {
    AnyRoleHeld(u, PrescribingRoles)
  }

  function CanAdmitPatients(u: CurrentUser): bool
  {
    AnyRoleHeld(u, AdmittingRoles)
  }

  /** can_prescribe and can_admit_patients both hold exactly for a physician or a nurse practitioner. */
  lemma CanPrescribeIff(u: CurrentUser)
    ensures CanPrescribe(u) <==> HasRole(u, Physician) || HasRole(u, NursePractitioner)
    ensures CanAdmitPatients(u) <==> CanPrescribe(u)
  {
    AnyRoleHeldIff(u, PrescribingRoles);
    if HasRole(u, Physician) {
      assert HasRole(u, PrescribingRoles[0]);
    }
    if HasRole(u, NursePractitioner) {
      assert HasRole(u, PrescribingRoles[1]);
    }
  }
}
