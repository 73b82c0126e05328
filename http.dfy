/** Types shared by the request handlers: optional values, results, the
    identity token payload, cookies and the process environment. */
module Http {

  /** A JavaScript value that may be `undefined`. */
  datatype Option<+T> = None | Some(value: T)

  /** The outcome of an operation that can throw. */
  datatype Result<+T, +E> = Ok(value: T) | Err(error: E)

  /** JavaScript truthiness of an optional string: present and not empty. */
  predicate Truthy(s: Option<string>)
  {
    s.Some? && s.value != ""
  }

  /** The payload `{id, email}` of the signed identity token; `getUser`
      yields it, or nothing. */
  datatype Identity = Identity(id: string, email: string)

  datatype SameSite = Lax | Strict

  /** A cookie set on a response. The token it carries is represented by
      its payload: signing is not modelled. */
  datatype Cookie = Cookie(
    name: string,
    token: Identity,
    httpOnly: bool,
    secure: bool,
    sameSite: SameSite,
    path: Option<string>,
    maxAge: nat)

  /** The process environment variables the handlers read. */
  datatype Env = Env(databaseUri: Option<string>, jwtSecret: Option<string>, nodeEnv: Option<string>)

  /** `process.env.NODE_ENV === 'production'`, which decides the cookie's
      `secure` flag. */
  predicate Production(env: Env)
  {
    env.nodeEnv == Some("production")
  }
}
