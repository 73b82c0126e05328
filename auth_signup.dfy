/** `POST /api/auth/signup`: body parsing, the field check and the
    duplicate-email check, then `create` and the signed token in a cookie.
    It is the only handler that changes the user store. */
module Signup {
  import opened Http
  import opened Users

  /** The request body: parsing throws, or an object whose fields may be
      missing. */
  datatype Body = Unparseable | Fields(email: Option<string>, password: Option<string>, name: Option<string>)

  /** One day, in seconds. */
  const SignupMaxAge: nat := 60 * 60 * 24

  /** The message `createToken` throws when the signing secret is missing. */
  const MissingSecret: string := "JWT_SECRET environment variable is not configured"

  /** The cookie a successful signup sets for `u`: no explicit path. */
  function SignupCookie(env: Env, u: User): (c: Cookie)
    ensures c.name == "token" && c.token == TokenFor(u)
    ensures c.httpOnly && c.secure == Production(env)
    ensures c.sameSite == Strict && c.path == None && c.maxAge == 86400
  {
    Cookie("token", TokenFor(u), true, Production(env), Strict, None, SignupMaxAge)
  }

  /** The account fields a request passes the checks with. */
  datatype NewAccount = NewAccount(email: string, password: string, name: string)

  /** The early returns before `create`, or the fields to create the
      account from. `connectError` and `lookupError` are the messages
      `connectToDb` and `findOne` throw. */
  function Screen(connectError: Option<string>, lookupError: Option<string>, body: Body,
                  users: map<string, User>): (r: Result<NewAccount, AuthResponse>)
    ensures connectError.Some? ==> r == Err(Error(500, "Registration failed", connectError))
    ensures connectError.None? && body.Unparseable? ==> r == Err(Error(400, "Invalid request body", None))
    ensures connectError.None? && body.Fields?
            && !(Truthy(body.email) && Truthy(body.password) && Truthy(body.name)) ==>
      r == Err(Error(400, "Email, password, and name are required", None))
    ensures connectError.None? && body.Fields?
            && Truthy(body.email) && Truthy(body.password) && Truthy(body.name) && lookupError.Some? ==>
      r == Err(Error(500, "Registration failed", lookupError))
    ensures connectError.None? && body.Fields?
            && Truthy(body.email) && Truthy(body.password) && Truthy(body.name) && lookupError.None?
            && body.email.value in users ==>
      r == Err(Error(400, "Email already exists", None))
    ensures r.Ok? <==>
      && connectError.None? && body.Fields?
      && Truthy(body.email) && Truthy(body.password) && Truthy(body.name) && lookupError.None?
      && body.email.value !in users
    ensures r.Ok? ==>
      r.value == NewAccount(body.email.value, body.password.value, body.name.value)
      && r.value.email != "" && r.value.password != "" && r.value.name != ""
  {
    if connectError.Some? then Err(Error(500, "Registration failed", connectError))
    else if body.Unparseable? then Err(Error(400, "Invalid request body", None))
    else if !Truthy(body.email) || !Truthy(body.password) || !Truthy(body.name) then
      Err(Error(400, "Email, password, and name are required", None))
    else if lookupError.Some? then Err(Error(500, "Registration failed", lookupError))
    else if body.email.value in users then Err(Error(400, "Email already exists", None))
    else Ok(NewAccount(body.email.value, body.password.value, body.name.value))
  }

  /** The account `create` stores for the screened fields. */
  function NewUser(a: NewAccount, id: string, hash: string -> string): (u: User)
    ensures u.id == id && u.email == a.email && u.name == a.name && u.passwordHash == hash(a.password)
  {
    User(id, a.email, a.name, hash(a.password))
  }

  /** The store after a successful signup keeps every other account and
      stays keyed by email; it has exactly one more account. */
  lemma SignupAddsOneAccount(users: map<string, User>, a: NewAccount, id: string, hash: string -> string)
    requires KeyedByEmail(users)
    requires a.email !in users
    ensures var after := users[a.email := NewUser(a, id, hash)];
      && KeyedByEmail(after)
      && |after| == |users| + 1
      && after.Keys == users.Keys + {a.email}
      && (forall e :: e in users ==> after[e] == users[e])
  {
  }

  /** Once an account is stored, the same request is refused as a
      duplicate, so a signup answered with a 500 for a missing signing
      secret cannot be retried: its account is already there. */
  lemma SecondSignupIsRefused(users: map<string, User>, body: Body, id: string, hash: string -> string)
    requires Screen(None, None, body, users).Ok?
    ensures var a := Screen(None, None, body, users).value;
      Screen(None, None, body, users[a.email := NewUser(a, id, hash)])
      == Err(Error(400, "Email already exists", None))
  {
  }

  /** `POST /api/auth/signup` on `store`, with `id` the identifier the store
      assigns. When the signing secret is missing, `createToken` throws
      after the account is stored: the caller gets a 500 and the account
      stays. */
  method Signup(store: UserStore, env: Env, connectError: Option<string>, lookupError: Option<string>,
                body: Body, id: string, hash: string -> string) returns (r: AuthResponse)
    requires store.Valid()
    modifies store
    ensures store.Valid()
    ensures var s := Screen(connectError, lookupError, body, old(store.users));
      s.Err? ==> r == s.error && store.users == old(store.users)
    ensures var s := Screen(connectError, lookupError, body, old(store.users));
      s.Ok? ==>
        var u := NewUser(s.value, id, hash);
        store.users == old(store.users)[s.value.email := u]
        && (Truthy(env.jwtSecret) ==> r == Success(Summary(u), SignupCookie(env, u)))
        && (!Truthy(env.jwtSecret) ==> r == Error(500, "Registration failed", Some(MissingSecret)))
  {
    var s := Screen(connectError, lookupError, body, store.users);
    if s.Err? {
      return s.error;
    }
    var created := store.Create(id, s.value.email, s.value.password, s.value.name, hash);
    assert created.Ok?;
    var u := created.value;
    if !Truthy(env.jwtSecret) {
      return Error(500, "Registration failed", Some(MissingSecret));
    }
    r := Success(Summary(u), SignupCookie(env, u));
  }
}
