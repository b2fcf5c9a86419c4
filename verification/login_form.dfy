/**
 * The login form: its field checks before submission, and where it sends the
 * user after a successful login.
 */
module LoginForm {
  import opened Wrappers
  import opened FormRules
  import ProtectedRoute
  import Roles
  import AuthValidation
  import Http

  const PasswordRequiredMsg: string := "Password is required"

  datatype Fields = Fields(email: string, password: string)

  /** One message per field; "" means the field is fine. */
  datatype Errors = Errors(email: string, password: string)

  /** `validateForm`: the per-field messages and whether the form may be submitted. */
  function Validate(f: Fields): (r: (bool, Errors))
    ensures r.0 <==> r.1 == Errors("", "")
    ensures r.0 <==> EmailShape(f.email) && f.password != ""
    ensures r.1.email == EmailRequiredMsg <==> f.email == ""
    ensures r.1.password == PasswordRequiredMsg <==> f.password == ""
  {
    var errors := Errors(EmailError(f.email), if f.password == "" then PasswordRequiredMsg else "");
    (errors == Errors("", ""), errors)
  }

  const Dashboard: ProtectedRoute.Location := ProtectedRoute.Location("/dashboard", "", "")

  /** Where a successful login navigates: the page the guard turned the user away from, else the dashboard. */
  function AfterLogin(from: Option<ProtectedRoute.Location>): (to: ProtectedRoute.Location)
    ensures from.Some? ==> to == from.value
    ensures from.None? ==> to == Dashboard
  {
    from.GetOr(Dashboard)
  }

  /**
   * A visitor the guard sends to the login page comes back, after logging in,
   * to the very page they asked for.
   */
  lemma LoginReturnsToGuardedPage(allowed: Option<seq<Roles.Role>>, here: ProtectedRoute.Location)
    ensures var s := ProtectedRoute.Guard(false, None, allowed, here);
      s.ToLogin? && AfterLogin(Some(s.from)) == here
  {
  }

  /** A form the client submits never draws the server's missing-password error. */
  lemma SubmittedPasswordPassesServer(rules: AuthValidation.EmailRules, f: Fields)
    requires Validate(f).0
    ensures Http.FieldError("password", AuthValidation.PasswordRequiredMsg)
      !in AuthValidation.LoginErrors(rules, AuthValidation.LoginBody(f.email, f.password))
  {
  }
}
