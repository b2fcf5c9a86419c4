/**
 * The request validators of the authentication routes (`validateSignup`,
 * `validateLogin`). Each validator that fails adds one entry, in rule order;
 * an absent string field reads as the empty string.
 */
module AuthValidation {
  import opened Wrappers
  import opened Text
  import opened Http
  import Roles

  /** `isEmail()` and `normalizeEmail()`, which the model does not open up. */
  datatype EmailRules = EmailRules(isEmail: string -> bool, normalize: string -> string)

  datatype SignupBody = SignupBody(email: string, password: string, role: Option<string>)

  datatype LoginBody = LoginBody(email: string, password: string)

  const EmailMsg: string := "Please enter a valid email"
  const LengthMsg: string := "Password must be at least 8 characters long"
  const NumberMsg: string := "Password must contain at least one number"
  const LetterMsg: string := "Password must contain at least one letter"
  const RoleMsg: string := "Invalid role specified"
  const PasswordRequiredMsg: string := "Password is required"

  /** The text and emoji presentation selectors, U+FE0E and U+FE0F. */
  predicate IsPresentationSelector(c: char) {
    c == '\U{FE0E}' || c == '\U{FE0F}'
  }

  /**
   * `isLength`'s measure: code points, less one for every presentation
   * selector, so that an emoji written with its selector counts once.
   */
  function ValidatorLength(s: string): (n: nat)
    ensures n <= |s|
  {
    if s == [] then 0
    else (if IsPresentationSelector(s[0]) then 0 else 1) + ValidatorLength(s[1..])
  }

  /** Without presentation selectors `isLength` counts every character. */
  lemma {:induction false} PlainValidatorLength(s: string)
    requires forall i | 0 <= i < |s| :: !IsPresentationSelector(s[i])
    ensures ValidatorLength(s) == |s|
  {
    if s != [] {
      PlainValidatorLength(s[1..]);
    }
  }

  /** Each presentation selector makes `isLength` count one character less than the string holds. */
  lemma {:induction false} SelectorsNotCounted(s: string)
    ensures ValidatorLength(s) + multiset(s)['\U{FE0E}'] + multiset(s)['\U{FE0F}'] == |s|
  {
    if s != [] {
      SelectorsNotCounted(s[1..]);
      assert s == [s[0]] + s[1..];
    }
  }

  /** The signup strength rule: at least 8 characters by `isLength`'s measure, a digit and an ASCII letter. */
  predicate StrongPassword(p: string) {
    ValidatorLength(p) >= 8 && HasDigit(p) && HasLetter(p)
  }

  /** The password chain of `validateSignup`: every failing rule is reported, in order. */
  function PasswordErrors(p: string): (errs: seq<FieldError>)
    ensures errs == [] <==> StrongPassword(p)
    ensures FieldError("password", LengthMsg) in errs <==> ValidatorLength(p) < 8
    ensures FieldError("password", NumberMsg) in errs <==> !HasDigit(p)
    ensures FieldError("password", LetterMsg) in errs <==> !HasLetter(p)
    ensures forall e | e in errs :: e.path == "password"
  {
    (if ValidatorLength(p) >= 8 then [] else [FieldError("password", LengthMsg)])
    + (if HasDigit(p) then [] else [FieldError("password", NumberMsg)])
    + (if HasLetter(p) then [] else [FieldError("password", LetterMsg)])
  }

  /** The optional role is accepted when absent or when it names a role. */
  predicate RoleAccepted(role: Option<string>) {
    role.None? || Roles.Parse(role.value).Some?
  }

  /** `validateSignup`. */
  function SignupErrors(rules: EmailRules, b: SignupBody): (errs: seq<FieldError>)
    ensures errs == [] <==> rules.isEmail(b.email) && StrongPassword(b.password) && RoleAccepted(b.role)
    ensures FieldError("email", EmailMsg) in errs <==> !rules.isEmail(b.email)
    ensures FieldError("role", RoleMsg) in errs <==> !RoleAccepted(b.role)
  {
    (if rules.isEmail(b.email) then [] else [FieldError("email", EmailMsg)])
    + PasswordErrors(b.password)
    + (if RoleAccepted(b.role) then [] else [FieldError("role", RoleMsg)])
  }

  /** `validateLogin`: a syntactically valid email and a non-empty password. */
  function LoginErrors(rules: EmailRules, b: LoginBody): (errs: seq<FieldError>)
    ensures errs == [] <==> rules.isEmail(b.email) && b.password != ""
    ensures FieldError("password", PasswordRequiredMsg) in errs <==> b.password == ""
  {
    (if rules.isEmail(b.email) then [] else [FieldError("email", EmailMsg)])
    + (if b.password != "" then [] else [FieldError("password", PasswordRequiredMsg)])
  }
}
