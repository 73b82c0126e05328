/** `POST /api/auth/login`: configuration checks, body parsing, the field
    check, the lookup by email, the password check, then the signed token
    in a cookie. Connection and lookup failures, the password comparison
    and the environment are inputs; the user store is only read. */
module Login {
  import opened Http
  import opened Users

  /** The request body: parsing throws, or an object whose `email` and
      `password` may be missing. */
  datatype Body = Unparseable | Credentials(email: Option<string>, password: Option<string>)

  /** Seven days, in seconds. */
  const LoginMaxAge: nat := 60 * 60 * 24 * 7

  /** The cookie a successful login sets for `u`. */
  function LoginCookie(env: Env, u: User): (c: Cookie)
    ensures c.name == "token" && c.token == TokenFor(u)
    ensures c.httpOnly && c.secure == Production(env)
    ensures c.sameSite == Lax && c.path == Some("/") && c.maxAge == 604800
  {
    Cookie("token", TokenFor(u), true, Production(env), Lax, Some("/"), LoginMaxAge)
  }

  /** The handler's answer. `connectError` is the message `connectToDb`
      throws, `lookupError` the one `findOne` throws, and
      `matches(hash, password)` is `comparePassword`. */
  function Login(env: Env, connectError: Option<string>, lookupError: Option<string>, body: Body,
                 users: map<string, User>, matches: (string, string) -> bool): (r: AuthResponse)
    requires KeyedByEmail(users)
    ensures !Truthy(env.databaseUri) ==>
      r == Error(500, "Server misconfiguration: missing database URI", None)
    ensures Truthy(env.databaseUri) && !Truthy(env.jwtSecret) ==>
      r == Error(500, "Server misconfiguration: missing JWT secret", None)
    ensures Truthy(env.databaseUri) && Truthy(env.jwtSecret) && connectError.Some? ==>
      r == Error(500, "Login failed", connectError)
    ensures Truthy(env.databaseUri) && Truthy(env.jwtSecret) && connectError.None? && body.Unparseable? ==>
      r == Error(400, "Invalid request body", None)
    ensures Truthy(env.databaseUri) && Truthy(env.jwtSecret) && connectError.None? && body.Credentials?
            && !(Truthy(body.email) && Truthy(body.password)) ==>
      r == Error(400, "Email and password are required", None)
    ensures Truthy(env.databaseUri) && Truthy(env.jwtSecret) && connectError.None? && body.Credentials?
            && Truthy(body.email) && Truthy(body.password) && lookupError.Some? ==>
      r == Error(500, "Login failed", lookupError)
    ensures r.Error? && r.status == 401 <==>
      && Truthy(env.databaseUri) && Truthy(env.jwtSecret) && connectError.None? && body.Credentials?
      && Truthy(body.email) && Truthy(body.password) && lookupError.None?
      && (body.email.value !in users || !matches(users[body.email.value].passwordHash, body.password.value))
    ensures r.Error? && r.status == 401 ==> r == Error(401, "Invalid credentials", None)
    ensures r.Success? <==>
      && Truthy(env.databaseUri) && Truthy(env.jwtSecret) && connectError.None? && body.Credentials?
      && Truthy(body.email) && Truthy(body.password) && lookupError.None?
      && body.email.value in users && matches(users[body.email.value].passwordHash, body.password.value)
    ensures r.Success? ==>
      var u := users[body.email.value];
      r.user == Summary(u) && r.cookie == LoginCookie(env, u) && u.email == body.email.value
  {
    if !Truthy(env.databaseUri) then Error(500, "Server misconfiguration: missing database URI", None)
    else if !Truthy(env.jwtSecret) then Error(500, "Server misconfiguration: missing JWT secret", None)
    else if connectError.Some? then Error(500, "Login failed", connectError)
    else if body.Unparseable? then Error(400, "Invalid request body", None)
    else if !Truthy(body.email) || !Truthy(body.password) then
      Error(400, "Email and password are required", None)
    else if lookupError.Some? then Error(500, "Login failed", lookupError)
    else
      match FindByEmail(users, body.email.value)
      case None => Error(401, "Invalid credentials", None)
      case Some(u) =>
        if !matches(u.passwordHash, body.password.value) then Error(401, "Invalid credentials", None)
        else Success(Summary(u), LoginCookie(env, u))
  }

  /** An unknown email and a wrong password for a known one get the same
      answer, so a caller cannot tell which accounts exist. */
  lemma UnknownEmailLooksLikeWrongPassword(env: Env, users: map<string, User>, matches: (string, string) -> bool,
                                           unknown: string, known: string, password: string, wrong: string)
    requires KeyedByEmail(users)
    requires Truthy(env.databaseUri) && Truthy(env.jwtSecret)
    requires unknown != "" && known != "" && password != "" && wrong != ""
    requires unknown !in users
    requires known in users && !matches(users[known].passwordHash, wrong)
    ensures Login(env, None, None, Credentials(Some(unknown), Some(password)), users, matches)
         == Login(env, None, None, Credentials(Some(known), Some(wrong)), users, matches)
  {
    var a := Login(env, None, None, Credentials(Some(unknown), Some(password)), users, matches);
    var b := Login(env, None, None, Credentials(Some(known), Some(wrong)), users, matches);
    assert a.Error? && a.status == 401;
    assert b.Error? && b.status == 401;
  }

  /** The configuration is checked before anything of the request: with a
      variable missing, the answer depends on nothing else. */
  lemma ConfigurationComesFirst(env: Env, c1: Option<string>, l1: Option<string>, b1: Body, u1: map<string, User>,
                                c2: Option<string>, l2: Option<string>, b2: Body, u2: map<string, User>,
                                matches: (string, string) -> bool)
    requires KeyedByEmail(u1) && KeyedByEmail(u2)
    requires !Truthy(env.databaseUri) || !Truthy(env.jwtSecret)
    ensures Login(env, c1, l1, b1, u1, matches) == Login(env, c2, l2, b2, u2, matches)
    ensures Login(env, c1, l1, b1, u1, matches).Error? && Login(env, c1, l1, b1, u1, matches).status == 500
  {
  }
}
