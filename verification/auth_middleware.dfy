/**
 * Request authentication and role gating (`authenticateToken` and
 * `authorize(...roles)`): an `Authorization: Bearer <token>` header is turned
 * into the stored user it names, or into a 401 with a message saying which
 * check failed; a resolved user is then admitted only with a listed role.
 */
module AuthMiddleware {
  import opened Wrappers
  import opened Text
  import opened Http
  import opened Roles
  import opened Tokens
  import Store

  /** A stored account; `passwordHash` is what the password hasher produced at signup. */
  datatype User = User(id: UserId, email: string, passwordHash: string, role: Role)

  type Users = Store.Collection<User>

  /** Ids are fresh and every account is stored under its own id. */
  ghost predicate UsersValid(users: Users) {
    Store.Valid(users) && forall id | id in users.docs :: users.docs[id].id == id
  }

  /** The four ways `authenticateToken` answers 401. */
  datatype AuthFailure = TokenRequired | TokenExpired | InvalidToken | UserNotFound

  function FailureMessage(f: AuthFailure): string {
    match f
    case TokenRequired => "Authorization token required"
    case TokenExpired => "Token expired"
    case InvalidToken => "Invalid token"
    case UserNotFound => "User not found"
  }

  const BearerPrefix: string := "Bearer "

  /**
   * The token of an `Authorization` header: `None` unless the header starts
   * with `Bearer `, else the second space-separated segment (`split(' ')[1]`).
   */
  function BearerToken(header: Option<string>): (t: Option<string>)
    ensures t.Some? <==> header.Some? && BearerPrefix <= header.value
    ensures t.Some? ==> ' ' !in t.value
  {
    match header
    case None => None
    case Some(h) =>
      if |h| >= |BearerPrefix| && h[..|BearerPrefix|] == BearerPrefix then
        assert h[6] == ' ';
        Some(Split(h, ' ')[1])
      else None
  }

  /** A header `Bearer <t>` with a space-free `t` yields exactly `t`. */
  lemma BearerTokenOfHeader(t: string)
    requires ' ' !in t
    ensures BearerToken(Some(BearerPrefix + t)) == Some(t)
  {
    var h := BearerPrefix + t;
    assert h[..|BearerPrefix|] == BearerPrefix;
    assert h == Join(["Bearer", t], ' ');
    SplitJoin(["Bearer", t], ' ');
  }

  /**
   * `authenticateToken`: header check, then token verification at time `now`,
   * then lookup of the token's subject in `users`.
   */
  function Authenticate(cfg: TokenConfig, codec: TokenCodec, now: int, users: Users, header: Option<string>)
    : (r: Result<User, AuthFailure>)
    ensures r == Failure(TokenRequired) <==> BearerToken(header).None?
    ensures r.Success? ==> r.value in users.docs.Values
    ensures r.Success? && UsersValid(users) ==>
      Verify(cfg, codec, BearerToken(header).value, now) == Valid(r.value.id)
    ensures r == Failure(UserNotFound) ==>
      exists sub :: Verify(cfg, codec, BearerToken(header).value, now) == Valid(sub) && sub !in users.docs
    ensures r == Failure(TokenExpired) <==>
      BearerToken(header).Some? && Verify(cfg, codec, BearerToken(header).value, now) == Expired
    ensures r == Failure(InvalidToken) <==>
      BearerToken(header).Some? && Verify(cfg, codec, BearerToken(header).value, now) == Malformed
    ensures BearerToken(header).Some? && Verify(cfg, codec, BearerToken(header).value, now).Valid? ==>
      var sub := Verify(cfg, codec, BearerToken(header).value, now).sub;
      sub in users.docs ==> r == Success(users.docs[sub])
  {
    match BearerToken(header)
    case None => Failure(TokenRequired)
    case Some(token) =>
      match Verify(cfg, codec, token, now)
      case Expired => Failure(TokenExpired)
      case Malformed => Failure(InvalidToken)
      case Valid(sub) => if sub in users.docs then Success(users.docs[sub]) else Failure(UserNotFound)
  }

  /** The 401 response of a failed authentication. */
  function Unauthorized<T>(f: AuthFailure): Reply<T> {
    Rejected(401, FailureMessage(f))
  }

  /** The three answers of `authorize(...roles)`. */
  datatype Gate = Proceed | Unauthenticated | Denied

  /** `authorize(...roles)` applied to the request's user. */
  function Authorize(user: Option<User>, roles: set<Role>): (g: Gate)
    ensures g == Proceed <==> user.Some? && user.value.role in roles
    ensures g == Unauthenticated <==> user.None?
  {
    match user
    case None => Unauthenticated
    case Some(u) => if u.role in roles then Proceed else Denied
  }

  /** The response `authorize` sends when it does not proceed. */
  function GateReply<T>(g: Gate): Reply<T> {
    if g == Unauthenticated then Rejected(401, "User not authenticated")
    else Rejected(403, "Access denied: insufficient permissions")
  }
}
