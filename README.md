# Blog editor: request gate, blog collection and authentication handlers

This project models the server-side core of a small multi-user blogging
application built on Next.js and MongoDB. It has five parts:

- **Request gate** (`src/middleware.ts`). Every protected request first
  meets an in-memory fixed-window rate limiter, which allows 100 requests
  per 60000 ms per client address. The gate then checks identity. An
  unauthenticated request to `/api/...` gets a 401; any other
  unauthenticated request is redirected to `/login?redirect=<path>`. An
  authenticated request passes with three security headers.
  - The limiter is a class (`RateLimit.RateLimiter`) holding a map that its
    method updates in place.
  - The decision it takes is the function `RateLimit.Check`.
  - The lemmas prove the window bound: per window start, a client gets
    at most `limit` requests through.
- **Blog collection** (`src/app/api/blogs/route.ts`).
  - GET lists the caller's blogs, most recently updated first. It is
    proved to return exactly the caller's blogs, sorted, as a permutation.
  - POST checks the caller and the required fields, and normalises the
    comma-separated tag string. It forces the owner to the caller and
    creates the record through the store.
  - `String.prototype.split` and `trim` are modelled in `Text`, with their
    inverse and uniqueness properties.
- **Blog schema** (`src/lib/models/Blog.ts`). It gives the required fields,
  the status enumeration with its `draft` default, and the timestamps the
  store fills. It is modelled as a validation function and a store class
  whose `Create` appends exactly one valid record or nothing.
- **Login** (`src/app/api/auth/login/route.ts`). A pure chain of early
  returns over a read-only user store keyed by email.
- **Signup** (`src/app/api/auth/signup/route.ts`). The same kind of
  screening chain, followed by an insertion into the user store. The
  insertion keeps emails unique.

These are parameters of the model:

- the clock (`now`);
- the identity that token verification yields (`Option<Identity>`);
- connection and lookup failures, as the message they throw;
- the identifier the database assigns;
- password hashing (`hash`) and comparison (`matches`);
- the process environment.

The code behaves in two ways a reader may not expect:

- POST keeps empty tags and does not cap how many tags there are.
- A signup whose signing secret is missing stores the account and only
  then fails with a 500, so a retry is refused as a duplicate
  (`Signup.SecondSignupIsRefused`).

## Model

| member | source | states |
|---|---|---|
| RateLimit.RateLimiter.constructor | src/middleware.ts:15 | the limiter starts with no records |
| RateLimit.Check | src/middleware.ts:17-37 | a request is refused exactly when the client has a record whose window has not run out (at most `window` ms elapsed) and whose count has reached the limit; a refusal leaves the record as it was; an absent or expired record opens a fresh window `{1, now}`; otherwise the count goes up by one, with the same start, and stays within the limit; a count in `[1, max(1, limit)]` stays there |
| RateLimit.RateLimiter.IsRateLimited | src/middleware.ts:17-37 | unknown client: not limited, record `{1, now}`; window expired (strictly more than `window` ms): reset to `{1, now}`; count at the limit: limited and nothing changes; otherwise the count goes up by one with the same start. Only that client's record changes, counts stay at least 1, and a bound `count <= max(1, limit)` is preserved |
| RateLimit.AllowedInsideWindow | src/middleware.ts:26-36 | calls made one after another inside a window that started at `w.timestamp` get through exactly until the count reaches the limit: `min(#calls, max(0, limit - count))` of them |
| RateLimit.AtMostLimitPerWindow | src/middleware.ts:21-36 | the call that opens a window gets through; it and every later call within `window` ms of its start get through at most `max(1, limit)` times in total, and exactly `min(1 + #later, max(1, limit))` times |
| RateLimit.RefusalIsStable | src/middleware.ts:31-33 | a refusal leaves the record unchanged, so every later call inside the same window is refused too |
| Middleware.IsApiPath | src/middleware.ts:55 | `startsWith('/api/')`: the path's first five characters are `/api/` |
| Middleware.ClientKey | src/middleware.ts:42 | the rate-limit key is the address when it is present and non-empty, otherwise `unknown`; it is never empty |
| Middleware.Gate | src/middleware.ts:45-70 | 429 with `Retry-After: 60` exactly when limited; a pass, carrying exactly the three security headers, exactly when not limited and identified; 401 with `WWW-Authenticate: Bearer` and `Authentication required` exactly when not limited, anonymous and on an `/api/` path; a redirect to `/login` with `redirect=<path>` exactly when not limited, anonymous and on another path |
| Middleware.LimitedIgnoresIdentity | src/middleware.ts:45-50 | the limiter runs before identity is looked at: a limited request gets the same answer whoever sends it |
| Middleware.Middleware | src/middleware.ts:39-70 | the answer is the gate's decision on the limiter's verdict for the request's key at the defaults 100/60000, and only that key's record changes |
| Text.Split | src/app/api/blogs/route.ts:43 | `split(',')` gives one piece more than there are separators, and no piece contains the separator |
| Text.JoinSplit | src/app/api/blogs/route.ts:43 | joining the pieces with the separator gives back the string |
| Text.SplitJoin | src/app/api/blogs/route.ts:43 | splitting a join of separator-free pieces gives back the pieces, so the split is the unique such decomposition |
| Text.Leading | src/app/api/blogs/route.ts:43 | counts the whitespace characters at the front: all of them are space, and the next one is not |
| Text.Trailing | src/app/api/blogs/route.ts:43 | counts the whitespace characters at the end: all of them are space, and the one before is not |
| Text.Trim | src/app/api/blogs/route.ts:43 | `trim()` returns no longer a string that neither starts nor ends with ECMAScript whitespace, and it is empty exactly when the input is all whitespace |
| Text.TrimIsUniqueSlice | src/app/api/blogs/route.ts:43 | any slice with only whitespace around it and none at its ends is the trimmed string |
| Text.TrimKeepsOut | src/app/api/blogs/route.ts:43 | trimming introduces no character |
| BlogRoutes.NormaliseTags | src/app/api/blogs/route.ts:43 | a falsy tag string gives no tags; otherwise there is one tag per comma-separated piece, each piece trimmed, with none dropped |
| BlogRoutes.NormalisedTagsAreTrimmedPieces | src/app/api/blogs/route.ts:43 | no normalised tag contains a comma or starts or ends with whitespace |
| BlogRoutes.EmptyPieceIsKept | src/app/api/blogs/route.ts:43 | two adjacent commas give an empty tag, which is kept: `x,,z` gives exactly `[trim(x), "", trim(z)]` |
| BlogRoutes.OwnedBy | src/app/api/blogs/route.ts:14 | `find({userId})` keeps every copy of each blog owned by the caller and nothing else |
| BlogRoutes.Insert | src/app/api/blogs/route.ts:15 | inserting into an ordered list keeps it ordered by `updatedAt` descending and adds exactly that blog |
| BlogRoutes.SortNewestFirst | src/app/api/blogs/route.ts:15 | `sort({updatedAt: -1})` returns a permutation ordered by non-increasing `updatedAt` |
| BlogRoutes.Get | src/app/api/blogs/route.ts:6-25 | 401 exactly when anonymous; 500 `Failed to fetch blogs` with the store's message on a store failure; otherwise a list, newest first, whose blogs are all the caller's and which holds every stored blog of the caller as often as the store does |
| BlogRoutes.DocFor | src/app/api/blogs/route.ts:45-49 | the spread `{...data, userId, tags}`: the body's title, content and status, with `userId` the caller's id and `tags` the normalised tags whatever the body held |
| BlogRoutes.PostCheck | src/app/api/blogs/route.ts:27-49 | in this order: 401 when anonymous; 500 `Failed to create blog` with the message on a store failure or an unparseable body; 400 `Title and content are required` on a missing or empty title or content. Otherwise the document keeps the body's title, content and status, with `userId` forced to the caller and `tags` replaced by the normalised tags |
| BlogRoutes.PostedBlogIsOwnedDraft | src/app/api/blogs/route.ts:43-49 | a document that passes the checks is created exactly when its status is absent or in the enumeration. The record is the caller's, carries the normalised tags, and is a draft when no status was given |
| BlogRoutes.Post | src/app/api/blogs/route.ts:27-59 | the early returns leave the store unchanged; otherwise the store gains exactly the validated record and returns it, or, on a schema error, stays unchanged and answers 500 with the validation message |
| BlogModel.Errors | src/lib/models/Blog.ts:13-19 | a document has no schema error exactly when title, content and userId are non-empty and the status is absent, `draft` or `published` |
| BlogModel.StatusOf | src/lib/models/Blog.ts:17 | the stored status is `published` exactly when the document says `published`, and the default `draft` when it gives none |
| BlogModel.Validate | src/lib/models/Blog.ts:13-19 | it fails exactly on schema errors, reporting them all. A created record is valid, keeps the document's fields, defaults tags to empty and the status to `draft`, and has both timestamps at the creation time |
| BlogModel.BlogStore.constructor | src/lib/models/Blog.ts:21 | the collection starts empty |
| BlogModel.BlogStore.Create | src/lib/models/Blog.ts:13-21 | `create` returns the validation outcome and appends exactly the new record when valid; the store stays unchanged otherwise and every stored record stays valid |
| Users.Summary | src/app/api/auth/login/route.ts:50-56 | the response's user is `{id, email, name}` of the account |
| Users.TokenFor | src/app/api/auth/login/route.ts:47 | the token payload is `{id, email}` of the account |
| Users.FindByEmail | src/app/api/auth/login/route.ts:36 | `findOne({email})` finds an account exactly when one is stored under that email, and it carries that email |
| Users.EmailsAreUnique | src/app/api/auth/signup/route.ts:29-35 | in a store keyed by email, two accounts with the same email are one |
| Users.UserStore.constructor | src/app/api/auth/signup/route.ts:35 | the user store starts empty |
| Users.UserStore.Create | src/app/api/auth/signup/route.ts:35 | an email already present is refused and the store is unchanged; otherwise exactly one account, holding the hashed password, is added under its email, and the store stays keyed by email |
| Login.LoginCookie | src/app/api/auth/login/route.ts:59-67 | the cookie is `token`, httpOnly, secure exactly in production, sameSite `lax`, path `/`, max age 604800 s, and it carries `{id, email}` |
| Login.Login | src/app/api/auth/login/route.ts:6-77 | in this order: 500 for a missing database URI; 500 for a missing JWT secret; 500 `Login failed` on a connection failure; 400 `Invalid request body`; 400 `Email and password are required`; 500 on a lookup failure; 401 `Invalid credentials` exactly when the email is unknown or the password does not match. Success exactly otherwise, with the stored account's summary and cookie |
| Login.UnknownEmailLooksLikeWrongPassword | src/app/api/auth/login/route.ts:36-44 | an unknown email and a wrong password give identical responses |
| Login.ConfigurationComesFirst | src/app/api/auth/login/route.ts:9-16 | with the database URI or the JWT secret missing, the answer is a 500 that depends on nothing of the request or the store |
| Signup.SignupCookie | src/app/api/auth/signup/route.ts:48-55 | the cookie is `token`, httpOnly, secure exactly in production, sameSite `strict`, no explicit path, max age 86400 s, and it carries `{id, email}` |
| Signup.Screen | src/app/api/auth/signup/route.ts:6-32 | in this order: 500 `Registration failed` on a connection failure; 400 `Invalid request body`; 400 `Email, password, and name are required`; 500 on a lookup failure; 400 `Email already exists`. The request passes exactly otherwise, with the body's non-empty fields |
| Signup.NewUser | src/app/api/auth/signup/route.ts:35 | the new account has the assigned id, the given email and name, and the hash of the password |
| Signup.SignupAddsOneAccount | src/app/api/auth/signup/route.ts:29-35 | inserting a fresh email adds exactly one account, changes no other, and keeps the store keyed by email |
| Signup.SecondSignupIsRefused | src/app/api/auth/signup/route.ts:29-35 | once the account is stored, the same request answers 400 `Email already exists` |
| Signup.Signup | src/app/api/auth/signup/route.ts:6-65 | screening failures leave the store unchanged. Otherwise exactly the new account is stored under its email; the answer is the summary with the signup cookie, or, without a JWT secret, 500 `Registration failed` with the secret-missing message and the account kept |
| Scenarios.SignupThenLogin | src/app/api/auth/login/route.ts:36-67 | after a signup passes its checks, logging in with the same email and password succeeds with the new account and the same token payload, given a comparison that accepts a password against its own hash |
| Scenarios.PostThenGet | src/app/api/blogs/route.ts:6-49 | a blog that POST creates is listed by the owner's next GET, with exactly one more occurrence than before |

## Left out

- The request gate's catch-all 500 `Internal server error`, because `getUser` and the limiter as modelled cannot throw.
- The gate's route matcher (`config.matcher`): the model applies the gate to whatever path it is given.
- The redirect URL's origin and the URL encoding of the `redirect` parameter: the redirect is modelled as its path and its query pairs.
- The limiter's map is process-local and unsynchronised in the source; concurrent requests and process restarts are not modelled.
- Token signing and verification (HS256 JWT, the 24-hour expiry): a token is represented by its `{id, email}` payload, and verification by the identity it yields.
- Password hashing and comparison live in a user schema that is not part of this model. They are the parameters `hash` and `matches`, and the user schema's own validations are not modelled.
- Request bodies whose fields are JSON values other than strings (numbers, arrays, `null`), and bodies that are not objects: each field is modelled as absent or a string.
- Client-supplied values for the schema-managed paths `_id`, `createdAt` and `updatedAt` (the implicit id and the paths `timestamps: true` adds): the model always takes the identifier and both timestamps from the store.
- BlogModel.ValidationMessage: gives the Mongoose validation message only approximately; the exact text and the order of its parts are Mongoose internals.
- `User.create` failures other than a duplicate email (user-schema validation, write errors, time-outs) and `Blog.create` failures other than schema errors.
- The database module throws when it is loaded without `MONGODB_URI`, and the login handler imports it, so the login's own 500 for a missing database URI is reachable only if the variable disappears after loading. `Login.Login` and `Login.ConfigurationComesFirst` treat that check as an ordinary first answer; module loading is not modelled.
- Signup.SignupCookie: `path == None` means the handler passes no path; the path attribute actually sent is the framework's default, which the model does not decide.
- Console logging in every handler and in the gate: it has no effect on any answer or store.
- Strings are sequences of code points. JavaScript's UTF-16 code units differ only for characters outside the Basic Multilingual Plane, which neither `split(',')` nor the whitespace set involves.
- BlogRoutes.SortNewestFirst: states non-increasing `updatedAt` and a permutation, not the store's order among blogs with equal `updatedAt`. The modelled sort is stable; the database promises no order for ties.
