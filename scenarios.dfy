/** Properties that span two handlers: an account that signs up can log in
    with the same credentials, and a blog that is created is listed for its
    owner. */
module Scenarios {
  import opened Http
  import opened Users
  import Login
  import Signup
  import opened BlogModel
  import opened BlogRoutes

  /** After a signup that passes the checks, logging in with the same email
      and password succeeds, returns the new account and carries the same
      token payload as the signup cookie, provided the password comparison
      accepts a password against its own hash. */
  lemma SignupThenLogin(users: map<string, User>, env: Env, body: Signup.Body, id: string,
                        hash: string -> string, matches: (string, string) -> bool)
    requires KeyedByEmail(users)
    requires Signup.Screen(None, None, body, users).Ok?
    requires Truthy(env.databaseUri) && Truthy(env.jwtSecret)
    requires matches(hash(body.password.value), body.password.value)
    ensures var a := Signup.Screen(None, None, body, users).value;
      var u := Signup.NewUser(a, id, hash);
      var after := users[a.email := u];
      KeyedByEmail(after)
      && Login.Login(env, None, None, Login.Credentials(body.email, body.password), after, matches)
         == AuthResponse.Success(UserSummary(id, a.email, a.name), Login.LoginCookie(env, u))
      && Login.LoginCookie(env, u).token == Signup.SignupCookie(env, u).token
  {
    var a := Signup.Screen(None, None, body, users).value;
    Signup.SignupAddsOneAccount(users, a, id, hash);
  }

  /** The blog a successful POST creates is listed by the caller's next GET,
      once more than before, and the list is otherwise the earlier one. */
  lemma PostThenGet(identity: Option<Identity>, req: Request, id: string, now: int, blogs: seq<Blog>)
    requires PostCheck(identity, None, req).Ok?
    requires Validate(PostCheck(identity, None, req).value, id, now).Ok?
    ensures var b := Validate(PostCheck(identity, None, req).value, id, now).value;
      var before := Get(identity, None, blogs);
      var after := Get(identity, None, blogs + [b]);
      before.List? && after.List?
      && b in after.blogs
      && multiset(after.blogs) == multiset(before.blogs) + multiset{b}
  {
    var b := Validate(PostCheck(identity, None, req).value, id, now).value;
    var before := Get(identity, None, blogs);
    var after := Get(identity, None, blogs + [b]);
    assert b.userId == identity.value.id;
    assert multiset(blogs + [b]) == multiset(blogs) + multiset{b};
    assert multiset(after.blogs)[b] > 0;
  }
}
