/** The user store the authentication handlers share: accounts keyed by
    their unique email. Password hashing happens inside the store when an
    account is created; the hash function is a parameter. */
module Users {
  import opened Http

  /** A stored account. `passwordHash` is what the store keeps in place of
      the password. */
  datatype User = User(id: string, email: string, name: string, passwordHash: string)

  /** The `{id, email, name}` a successful signup or login returns. */
  datatype UserSummary = UserSummary(id: string, email: string, name: string)

  function Summary(u: User): (s: UserSummary)
    ensures s.id == u.id && s.email == u.email && s.name == u.name
  {
    UserSummary(u.id, u.email, u.name)
  }

  /** What the login and signup handlers answer: a JSON error (with the
      exception's message as `details` on a 500), or the account's summary
      with the token cookie. */
  datatype AuthResponse =
    | Error(status: nat, error: string, details: Option<string>)
    | Success(user: UserSummary, cookie: Cookie)

  /** The token payload `{id: user._id, email: user.email}`. */
  function TokenFor(u: User): (t: Identity)
    ensures t.id == u.id && t.email == u.email
  {
    Identity(u.id, u.email)
  }

  /** Each account is stored under its own email, so no two accounts share
      one. */
  predicate KeyedByEmail(users: map<string, User>)
  {
    forall e :: e in users ==> users[e].email == e
  }

  /** `User.findOne({email})`. */
  function FindByEmail(users: map<string, User>, email: string): (r: Option<User>)
    requires KeyedByEmail(users)
    ensures r.Some? <==> email in users
    ensures r.Some? ==> r.value.email == email && r.value == users[email]
  {
    if email in users then Some(users[email]) else None
  }

  /** Keying by email is the uniqueness of emails: two stored accounts with
      the same email are the same account. */
  lemma EmailsAreUnique(users: map<string, User>, e1: string, e2: string)
    requires KeyedByEmail(users)
    requires e1 in users && e2 in users
    requires users[e1].email == users[e2].email
    ensures e1 == e2 && users[e1] == users[e2]
  {
  }

  /** The one failure `create` can meet here: the unique index on `email`. */
  datatype CreateError = DuplicateEmail(email: string)

  /** The user collection. */
  class UserStore {
    var users: map<string, User>

    ghost predicate Valid()
      reads this
    {
      KeyedByEmail(users)
    }

    constructor ()
      ensures Valid() && users == map[]
    {
      users := map[];
    }

    /** `User.create({email, password, name})`: stores one account, with
        the hash of the password, under a fresh email; an email already
        present is refused and the store is unchanged. */
    method Create(id: string, email: string, password: string, name: string, hash: string -> string)
      returns (r: Result<User, CreateError>)
      requires Valid()
      modifies this
      ensures Valid()
      ensures r.Err? <==> email in old(users)
      ensures r.Err? ==> r.error == DuplicateEmail(email) && users == old(users)
      ensures r.Ok? ==>
        r.value == User(id, email, name, hash(password))
        && users == old(users)[email := r.value]
    {
      if email in users {
        return Err(DuplicateEmail(email));
      }
      var u := User(id, email, name, hash(password));
      users := users[email := u];
      r := Ok(u);
    }
  }
}
