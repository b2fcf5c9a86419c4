/**
 * Account registration, login and profile lookup (`signup`, `login`,
 * `getProfile`), each behind its route's validator. Password hashing is
 * abstract: `hash` is applied when an account is saved, and `matches` is
 * `comparePassword`.
 */
module AuthController {
  import opened Wrappers
  import opened Http
  import opened Roles
  import opened Tokens
  import opened AuthMiddleware
  import opened AuthValidation
  import Store

  datatype Hasher = Hasher(hash: string -> string, matches: (string, string) -> bool)

  /** A password always matches its own hash. */
  ghost predicate Sound(h: Hasher) {
    forall p {:trigger h.hash(p)} :: h.matches(p, h.hash(p))
  }

  /** Everything the handlers consult besides the user store; `now` is the request time. */
  datatype AuthEnv = AuthEnv(rules: EmailRules, hasher: Hasher, config: TokenConfig, codec: TokenCodec, now: int)

  /** The `{ user, token }` body of a successful signup or login. */
  datatype Session = Session(user: User, token: string)

  const DuplicateMsg: string := "User already exists with this email"
  const BadCredentialsMsg: string := "Invalid email or password"

  /** No two accounts share an email. */
  ghost predicate UniqueEmails(users: Users) {
    forall a, b | a in users.docs && b in users.docs && users.docs[a].email == users.docs[b].email :: a == b
  }

  /** `User.findOne({ email })`. */
  function FindByEmail(users: Users, email: string): (r: Option<User>)
    ensures r.Some? ==> r.value in users.docs.Values && r.value.email == email
    ensures Store.Valid(users) && r.None? ==> forall id | id in users.docs :: users.docs[id].email != email
  {
    match Store.FindOne(users, (u: User) => u.email == email)
    case None => None
    case Some(id) => Some(users.docs[id])
  }

  /** The role of a new account: `role = 'Dentist'` when the body has none. */
  function SignupRole(role: Option<string>): (r: Option<Role>)
    ensures r.Some? <==> RoleAccepted(role)
    ensures role.None? ==> r == Some(Dentist)
    ensures role.Some? && r.Some? ==> Name(r.value) == role.value
  {
    match role
    case None => Some(Dentist)
    case Some(s) => Parse(s)
  }

  /**
   * `POST /api/auth/signup`: validation, duplicate check on the normalized
   * email, save, then token issue. The account stays saved even when issuing
   * the token fails afterwards.
   */
  function Signup(env: AuthEnv, users: Users, b: SignupBody): (r: (Reply<Session>, Users))
    ensures r.0.Status() == 400 ==> r.1 == users
    ensures r.0.Status() != 400 ==>
      && SignupErrors(env.rules, b) == []
      && FindByEmail(users, env.rules.normalize(b.email)).None?
      && var u := User(users.next, env.rules.normalize(b.email), env.hasher.hash(b.password), SignupRole(b.role).value);
         r.1 == Store.Collection(users.docs[users.next := u], users.next + 1)
    ensures r.0.Done? ==> r.0.code == 201 && r.0.value.user == r.1.docs[users.next]
    ensures SignupErrors(env.rules, b) != [] ==> r.0 == Invalid(SignupErrors(env.rules, b))
    ensures SignupErrors(env.rules, b) == [] && FindByEmail(users, env.rules.normalize(b.email)).Some? ==>
      r.0 == Rejected(400, DuplicateMsg)
    ensures SignupErrors(env.rules, b) == [] && FindByEmail(users, env.rules.normalize(b.email)).None? ==>
      (r.0.Done? <==> CanSign(env.config)) && (!r.0.Done? ==> r.0.Status() == 500)
    ensures UsersValid(users) ==> UsersValid(r.1)
    ensures Store.Valid(users) && UniqueEmails(users) ==> UniqueEmails(r.1)
  {
    var errs := SignupErrors(env.rules, b);
    if errs != [] then (Invalid(errs), users)
    else
      var email := env.rules.normalize(b.email);
      if FindByEmail(users, email).Some? then (Rejected(400, DuplicateMsg), users)
      else
        var user := User(users.next, email, env.hasher.hash(b.password), SignupRole(b.role).value);
        var (stored, id) := Store.Insert(users, user);
        match Issue(env.config, env.codec, id, env.now)
        case None => (Rejected(500, "Error creating user"), stored)
        case Some(token) => (Done(201, Session(user, token)), stored)
  }

  /** `POST /api/auth/login`: validation, lookup by normalized email, password check, token issue. */
  function Login(env: AuthEnv, users: Users, b: LoginBody): (r: Reply<Session>)
    ensures r.Done? ==>
      && r.code == 200
      && r.value.user in users.docs.Values
      && r.value.user.email == env.rules.normalize(b.email)
      && env.hasher.matches(b.password, r.value.user.passwordHash)
  {
    var errs := LoginErrors(env.rules, b);
    if errs != [] then Invalid(errs)
    else
      match FindByEmail(users, env.rules.normalize(b.email))
      case None => Rejected(401, BadCredentialsMsg)
      case Some(user) =>
        if !env.hasher.matches(b.password, user.passwordHash) then Rejected(401, BadCredentialsMsg)
        else
          match Issue(env.config, env.codec, user.id, env.now)
          case None => Rejected(500, "Error during login")
          case Some(token) => Done(200, Session(user, token))
  }

  /** An account as `select('-password')` returns it: everything but the password hash. */
  datatype Account = Account(id: UserId, email: string, role: Role)

  /** `getProfile` for the authenticated id: 404 when the account is gone. */
  function Profile(users: Users, id: UserId): (r: Reply<Account>)
    ensures r.Status() == 404 <==> id !in users.docs
    ensures r.Done? <==> id in users.docs
    ensures r.Done? ==>
      && r.code == 200
      && r.value.id == id
      && r.value.email == users.docs[id].email
      && r.value.role == users.docs[id].role
  {
    if id in users.docs then
      var u := users.docs[id];
      Done(200, Account(id, u.email, u.role))
    else Rejected(404, "User not found")
  }

  /** `GET /api/auth/profile`: `authenticateToken`, then `getProfile`. */
  function ProfileRoute(env: AuthEnv, users: Users, header: Option<string>): (r: Reply<Account>)
    ensures r.Status() == 401 <==> Authenticate(env.config, env.codec, env.now, users, header).Failure?
    ensures r.Status() == 404 <==>
      Authenticate(env.config, env.codec, env.now, users, header).Success?
      && Authenticate(env.config, env.codec, env.now, users, header).value.id !in users.docs
    ensures r.Done? ==>
      && Authenticate(env.config, env.codec, env.now, users, header).Success?
      && r.value.id == Authenticate(env.config, env.codec, env.now, users, header).value.id
  {
    match Authenticate(env.config, env.codec, env.now, users, header)
    case Failure(f) => Unauthorized(f)
    case Success(u) => Profile(users, u.id)
  }

  /** Without a role in the body the new account is a Dentist, whatever happens to the token. */
  lemma SignupDefaultsToDentist(env: AuthEnv, users: Users, b: SignupBody)
    requires b.role.None?
    requires Signup(env, users, b).0.Status() != 400
    ensures users.next in Signup(env, users, b).1.docs
    ensures Signup(env, users, b).1.docs[users.next].role == Dentist
  {
  }

  /** An email already registered (after normalization) is refused with 400 and the store is unchanged. */
  lemma SignupRejectsDuplicate(env: AuthEnv, users: Users, b: SignupBody, existing: UserId)
    requires SignupErrors(env.rules, b) == []
    requires Store.Valid(users)
    requires existing in users.docs && users.docs[existing].email == env.rules.normalize(b.email)
    ensures Signup(env, users, b) == (Rejected(400, DuplicateMsg), users)
  {
    assert FindByEmail(users, env.rules.normalize(b.email)).Some?;
  }

  /**
   * The token handed out at signup authenticates the new account, through an
   * `Authorization: Bearer` header, for as long as the token lives.
   */
  lemma SignupThenAuthenticate(env: AuthEnv, users: Users, b: SignupBody, later: int)
    requires Faithful(env.codec)
    requires Signup(env, users, b).0.Done?
    requires env.config.ttl.Some? && env.now <= later < env.now + env.config.ttl.value
    ensures var (reply, stored) := Signup(env, users, b);
      Authenticate(env.config, env.codec, later, stored, Some(BearerPrefix + reply.value.token))
        == Success(reply.value.user)
  {
    var (reply, stored) := Signup(env, users, b);
    var id := users.next;
    IssueThenVerify(env.config, env.codec, id, env.now, later);
    BearerTokenOfHeader(reply.value.token);
  }

  /** An account made at signup can log in with the same email and password and keeps its role. */
  lemma SignupThenLogin(env: AuthEnv, users: Users, b: SignupBody)
    requires Sound(env.hasher)
    requires Store.Valid(users) && UniqueEmails(users)
    requires Signup(env, users, b).0.Done?
    ensures var (reply, stored) := Signup(env, users, b);
      var r := Login(env, stored, LoginBody(b.email, b.password));
      && r.Done?
      && r.value.user == reply.value.user
      && r.value.user.role == SignupRole(b.role).value
  {
    var (reply, stored) := Signup(env, users, b);
    var u := reply.value.user;
    assert |b.password| >= 8;
    assert LoginErrors(env.rules, LoginBody(b.email, b.password)) == [];
    var found := FindByEmail(stored, u.email);
    assert u.email == stored.docs[users.next].email;
    assert found.Some?;
    var k :| k in stored.docs && stored.docs[k] == found.value;
    assert k == users.next;
  }

  /** A valid signup for an unused email succeeds whenever tokens can be signed, and its credentials then log in. */
  lemma ValidSignupCanLogIn(env: AuthEnv, users: Users, b: SignupBody)
    requires Sound(env.hasher) && CanSign(env.config)
    requires Store.Valid(users) && UniqueEmails(users)
    requires SignupErrors(env.rules, b) == []
    requires forall id | id in users.docs :: users.docs[id].email != env.rules.normalize(b.email)
    ensures Signup(env, users, b).0.Done?
    ensures Login(env, Signup(env, users, b).1, LoginBody(b.email, b.password)).Done?
  {
    SignupThenLogin(env, users, b);
  }

  /**
   * A login with an unknown email and one with a wrong password get the very
   * same response, so a caller cannot tell which accounts exist.
   */
  lemma LoginFailureIsUniform(env: AuthEnv, users: Users, unknown: LoginBody, wrong: LoginBody)
    requires LoginErrors(env.rules, unknown) == [] && LoginErrors(env.rules, wrong) == []
    requires Store.Valid(users)
    requires forall id | id in users.docs :: users.docs[id].email != env.rules.normalize(unknown.email)
    requires forall id | id in users.docs && users.docs[id].email == env.rules.normalize(wrong.email) ::
      !env.hasher.matches(wrong.password, users.docs[id].passwordHash)
    ensures Login(env, users, unknown) == Login(env, users, wrong) == Rejected(401, BadCredentialsMsg)
  {
    var found := FindByEmail(users, env.rules.normalize(wrong.email));
    if found.Some? {
      var k :| k in users.docs && users.docs[k] == found.value;
    }
  }

  /** The profile route returns exactly the account its token names. */
  lemma ProfileOfAuthenticatedUser(env: AuthEnv, users: Users, header: Option<string>)
    requires UsersValid(users)
    requires Authenticate(env.config, env.codec, env.now, users, header).Success?
    ensures var u := Authenticate(env.config, env.codec, env.now, users, header).value;
      ProfileRoute(env, users, header) == Done(200, Account(u.id, u.email, u.role))
  {
  }

  /**
   * The token handed out at login authenticates the account that logged in,
   * through an `Authorization: Bearer` header, for as long as the token lives.
   */
  lemma LoginThenAuthenticate(env: AuthEnv, users: Users, b: LoginBody, later: int)
    requires Faithful(env.codec)
    requires UsersValid(users)
    requires Login(env, users, b).Done?
    requires env.config.ttl.Some? && env.now <= later < env.now + env.config.ttl.value
    ensures var s := Login(env, users, b).value;
      Authenticate(env.config, env.codec, later, users, Some(BearerPrefix + s.token)) == Success(s.user)
  {
    var s := Login(env, users, b).value;
    IssueThenVerify(env.config, env.codec, s.user.id, env.now, later);
    BearerTokenOfHeader(s.token);
    var k :| k in users.docs && users.docs[k] == s.user;
  }
}
