/**
 * The signup form: its field checks before submission and the roles its menu
 * offers. The password length is counted in UTF-16 code units, as the
 * browser's `length` does.
 */
module SignupForm {
  import opened Wrappers
  import opened Text
  import opened FormRules
  import opened Roles
  import AuthValidation

  const PasswordRequiredMsg: string := "Password is required"
  const PasswordShortMsg: string := "Password must be at least 8 characters long"
  const PasswordNumberMsg: string := "Password must contain at least one number"
  const PasswordLetterMsg: string := "Password must contain at least one letter"
  const ConfirmRequiredMsg: string := "Please confirm your password"
  const MismatchMsg: string := "Passwords do not match"
  const RoleRequiredMsg: string := "Please select a role"

  /** The form's fields; `role` starts as "Dentist". */
  datatype Fields = Fields(email: string, password: string, confirmPassword: string, role: string)

  /** One message per field; "" means the field is fine. */
  datatype Errors = Errors(email: string, password: string, confirmPassword: string, role: string)

  const NoErrors: Errors := Errors("", "", "", "")

  /** The password rules the form enforces, in the browser's length measure. */
  predicate FormStrong(p: string) {
    Utf16Length(p) >= 8 && HasDigit(p) && HasLetter(p)
  }

  /** The first failing password rule's message, in the order the form checks them. */
  function PasswordError(p: string): (e: string)
    ensures e == "" <==> FormStrong(p)
    ensures e == PasswordRequiredMsg <==> p == ""
    ensures e == PasswordShortMsg <==> p != "" && Utf16Length(p) < 8
    ensures e == PasswordNumberMsg <==> Utf16Length(p) >= 8 && !HasDigit(p)
    ensures e == PasswordLetterMsg <==> Utf16Length(p) >= 8 && HasDigit(p) && !HasLetter(p)
  {
    if p == "" then PasswordRequiredMsg
    else if Utf16Length(p) < 8 then PasswordShortMsg
    else if !HasDigit(p) then PasswordNumberMsg
    else if !HasLetter(p) then PasswordLetterMsg
    else ""
  }

  function ConfirmError(p: string, c: string): (e: string)
    ensures e == "" <==> c != "" && c == p
    ensures e == ConfirmRequiredMsg <==> c == ""
  {
    if c == "" then ConfirmRequiredMsg else if p != c then MismatchMsg else ""
  }

  /** `validateForm`: the per-field messages and whether the form may be submitted. */
  function Validate(f: Fields): (r: (bool, Errors))
    ensures r.0 <==> r.1 == NoErrors
    ensures r.0 <==> EmailShape(f.email) && FormStrong(f.password) && f.confirmPassword == f.password && f.role != ""
    ensures r.1.role == RoleRequiredMsg <==> f.role == ""
  {
    var errors := Errors(EmailError(f.email), PasswordError(f.password),
                         ConfirmError(f.password, f.confirmPassword),
                         if f.role == "" then RoleRequiredMsg else "");
    (errors == NoErrors, errors)
  }

  /** The role menu: Admin is not offered. */
  const Menu: seq<Role> := [Dentist, Patient]

  /** The request body the form sends on submission. */
  function Submission(f: Fields): (b: AuthValidation.SignupBody)
    ensures b.email == f.email && b.password == f.password && b.role == Some(f.role)
  {
    AuthValidation.SignupBody(f.email, f.password, Some(f.role))
  }

  /** Each role the menu offers is one the server accepts, and none of them is Admin. */
  lemma MenuRolesAccepted()
    ensures forall i | 0 <= i < |Menu| :: AuthValidation.RoleAccepted(Some(Name(Menu[i]))) && Menu[i] != Admin
  {
  }

  /** Every password the server counts as strong also satisfies the form. */
  lemma ServerStrongIsFormStrong(p: string)
    ensures AuthValidation.StrongPassword(p) ==> PasswordError(p) == ""
  {
  }

  /**
   * The two checks part ways on characters outside the Basic Multilingual
   * Plane: the browser counts them twice, the server once.
   */
  lemma FormAcceptsShortAstralPassword()
    ensures var p := "abcde1\U{1F600}";
      PasswordError(p) == "" && !AuthValidation.StrongPassword(p)
  {
    var p := "abcde1\U{1F600}";
    assert IsDigit(p[5]) && IsLetter(p[0]);
  }

  /**
   * A form the client submits with a menu role passes the server's role check,
   * and its password check whenever every character is in the Basic
   * Multilingual Plane and none is a presentation selector.
   */
  lemma SubmissionPassesServerRules(f: Fields)
    requires Validate(f).0 && Roles.Parse(f.role).Some?
    requires forall i | 0 <= i < |f.password| :: f.password[i] as int < 0x10000
    requires forall i | 0 <= i < |f.password| :: !AuthValidation.IsPresentationSelector(f.password[i])
    ensures AuthValidation.RoleAccepted(Submission(f).role)
    ensures AuthValidation.PasswordErrors(Submission(f).password) == []
  {
    BmpLength(f.password);
    AuthValidation.PlainValidatorLength(f.password);
  }

  /**
   * The checks also part ways on a presentation selector: the browser counts
   * it, `isLength` does not.
   */
  lemma FormAcceptsSelectorPadding()
    ensures var p := "abcdef1\U{FE0F}";
      PasswordError(p) == "" && !AuthValidation.StrongPassword(p)
  {
    var p := "abcdef1\U{FE0F}";
    assert IsDigit(p[6]) && IsLetter(p[0]);
    assert p[1..][1..][1..][1..][1..][1..][1..] == "\U{FE0F}";
  }

  /** Without astral characters the UTF-16 length is the character count. */
  lemma {:induction false} BmpLength(s: string)
    requires forall i | 0 <= i < |s| :: s[i] as int < 0x10000
    ensures Utf16Length(s) == |s|
  {
    if |s| > 0 {
      BmpLength(s[1..]);
    }
  }
}
