/**
 * The client-side route guard: a spinner while the session is being restored,
 * a redirect to the login page (remembering where the visitor was going) when
 * nobody is signed in, a redirect to the unauthorized page when the role is
 * not listed, and the protected page otherwise.
 */
module ProtectedRoute {
  import opened Wrappers
  import opened Roles
  import AuthMiddleware

  /** The router location: path, query string and fragment. */
  datatype Location = Location(pathname: string, search: string, hash: string)

  /** What the guard renders. */
  datatype Screen = Spinner | ToLogin(from: Location) | ToUnauthorized | Children

  /**
   * The guard for the signed-in role `user` (if any) at `here`. A missing
   * `allowed` list admits every signed-in user; an empty one admits nobody.
   */
  function Guard(loading: bool, user: Option<Role>, allowed: Option<seq<Role>>, here: Location): (s: Screen)
    ensures loading <==> s == Spinner
    ensures s.ToLogin? <==> !loading && user.None?
    ensures s.ToLogin? ==> s.from == here
    ensures s == Children <==> !loading && user.Some? && (allowed.None? || user.value in allowed.value)
  {
    if loading then Spinner
    else if user.None? then ToLogin(here)
    else if allowed.Some? && user.value !in allowed.value then ToUnauthorized
    else Children
  }

  /** The set of roles a role list names. */
  function RoleSet(roles: seq<Role>): (rs: set<Role>)
    ensures forall r :: r in rs <==> r in roles
  {
    set r | r in roles
  }

  /**
   * Client and server agree: once the session is loaded, a page guarded by a
   * role list is shown exactly when the server's `authorize` with the same
   * roles lets the user's requests through.
   */
  lemma GuardAgreesWithServer(user: Option<AuthMiddleware.User>, allowed: seq<Role>, here: Location)
    ensures var role := if user.Some? then Some(user.value.role) else None;
      var g := Guard(false, role, Some(allowed), here);
      var a := AuthMiddleware.Authorize(user, RoleSet(allowed));
      && (g == Children <==> a == AuthMiddleware.Proceed)
      && (g.ToLogin? <==> a == AuthMiddleware.Unauthenticated)
      && (g == ToUnauthorized <==> a == AuthMiddleware.Denied)
  {
  }

  /** An empty role list shuts every signed-in user out. */
  lemma EmptyListAdmitsNobody(user: Role, here: Location)
    ensures Guard(false, Some(user), Some([]), here) == ToUnauthorized
  {
  }
}
