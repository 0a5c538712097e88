# Response envelope and bearer-token gate

A Dafny model of the two request/response decision procedures of a CRUD REST
backend for material-request workflows:

- **`Response.sendResponse`** (`response.dfy`), the envelope every handler
  replies through. It defaults a falsy status to 200. It refuses a call that
  has neither a truthy `message` nor truthy `data` with 500
  "Data/Message is required". It shapes the body as
  `{ data, message, status, id, token }`. It mints a rolling ten-minute token:
  it takes element 1 of the Authorization header split on a single space,
  decodes it without verification, deletes the `iat` and `exp` claims
  (sections 4.1.6 and 4.1.4 of RFC 7519) and re-signs what is left. Any
  exception gives a fixed 500 "Internal Server Error" body.
- **`authenticateJWT`** (`auth.js`, modelled in `auth.dfy`), a bearer-token
  gate in the style of section 2.1 of RFC 6750. A missing header, or one
  without the exact prefix `"Bearer "`, gets 401. A token that fails
  verification gets 403. Otherwise the verified claims become `req.user` and
  `next()` is called.

Layout:

- `js.dfy` (module `Js`): JavaScript values with their truthiness, property
  reads, the top-level members `JSON.stringify` writes, and a `JsObject` class whose
  properties are set and deleted in place.
- `strings.dfy` (module `Strings`): `startsWith`, and `split` on one
  character with `join` as its inverse. `SecondPiece` is `split(" ")[1]`,
  characterised directly as the run of text after the first space.
- `http.dfy` (module `Http`): the request (its Authorization header and the
  mutable `user` field), the response as the list of replies written to it,
  and `next` as a call counter.
- `response.dfy` (module `Response`): the method `SendResponse`, which runs
  the source's steps on mutable objects, with the token refresh of lines
  13-25 as the method `RefreshToken`. They are proved equal to the
  specification functions `Envelope` and `RollingToken`, and lemmas about
  these state the envelope's properties.
- `auth.dfy` (module `Auth`): the method `AuthenticateJWT`, which writes to
  the request, the response and `next`. It is proved against the three-way
  decision `Gate`.

`sendResponse` writes exactly one reply on every path and changes nothing
else that a caller can see, so `SendResponse` returns that reply as its
result. `authenticateJWT` either writes a reply, or sets `req.user` and calls
`next()`, so `AuthenticateJWT` records its effects on the `Request`,
`ResponseSink` and `NextCallback` objects it is given.

The JSON Web Token library is abstracted as function parameters. `decode`
and `verify` take `Option<string>`, where `None` is JavaScript's `undefined`,
and return an `Outcome<Value>`, where `Thrown` is an exception. `sign` takes
the claims and the `expiresIn` text and returns an `Outcome<string>`. The
signing secret lives inside these functions.

The model follows the code, except for what "## Left out" lists (a `res.json`
that throws, a request without headers, fractional and NaN numbers). The code
is looser than a first reading of the envelope suggests in three places:

- The envelope refreshes from any header that is present, non-empty and not
  the text `"undefined"`. It does not check for a `Bearer` prefix; it simply
  takes the second space-separated piece.
- "Absent" status, message and data mean JavaScript-falsy: `0`, `""`,
  `false` and `null` count as absent too.
- The gate only checks the prefix. `"Bearer "` followed by anything,
  including nothing or a second space, goes on to verification with the
  text up to the next space (`NoPrefixNoVerify`, `DoubleSpaceVerifiesEmptyToken`).

## Model

| member | source | states |
|---|---|---|
| Response.SendResponse | src/handlers/Response.js:4-33 | the step-by-step envelope, with `obj` mutated in place, yields exactly the reply `Envelope` specifies |
| Response.Envelope | src/handlers/Response.js:4-33 | the reply sendResponse writes: 500 "Data/Message is required" exactly when neither message nor data is truthy; otherwise either the fixed 500 "Internal Server Error" reply or a body with exactly the keys data, message, status, id, token whose `status` equals the HTTP status |
| Response.RollingToken | src/handlers/Response.js:13-25 | the `token` field: null or a signed string, and a string or an exception only when the header is present, non-empty and not "undefined" |
| Response.RefreshToken | src/handlers/Response.js:13-25 | decoding `split(" ")[1]` of the header, deleting `iat` and `exp` from the claims in place and re-signing them yields exactly `RollingToken` |
| Response.DeliveredEnvelope | src/handlers/Response.js:6-26 | a delivered reply's status is the caller's when truthy and 200 otherwise; the body's `status` equals it; `data`, `message` and `id` pass through unchanged; the body has exactly the keys data, message, status, id, token |
| Response.PayloadRequiredOverrides | src/handlers/Response.js:10-12 | with neither message nor data truthy, the reply is 500 `{message: "Data/Message is required"}` whatever the status, header, decode or sign; that body has no token |
| Response.ExtraArgumentsDropped | src/handlers/Response.js:4-6 | every reply body holds only envelope keys; an argument such as `error` never appears in it |
| Response.DeliveredWireShape | src/handlers/Response.js:26 | after JSON serialisation, at the top level, a delivered body always has `status` and `token`, and has data/message/id exactly when the handler supplied them |
| Response.NoHeaderNoToken | src/handlers/Response.js:13-18 | no request, no header, an empty header or the text "undefined" gives token null, and decode and sign have no influence on the reply |
| Js.Truthy | src/handlers/Response.js:7-10 | undefined, null, false, 0 and "" are falsy; every other value, [] and {} included, is truthy (the same test at Response.js:16 and 23 and auth.js:6) |
| Strings.StartsWith | src/middleware/auth.js:6 | `s.startsWith(prefix)` holds exactly when `s` is `prefix` followed by some text, case included |
| Strings.Split | src/middleware/auth.js:10 | `split` on one character yields at least one piece: the texts between consecutive separators, which `join` puts back together (SplitThenJoin, JoinThenSplit; the same split serves Response.js:19) |
| Strings.SecondPiece | src/handlers/Response.js:19 | `split(" ")[1]` is undefined exactly when there is no space, and otherwise is the longest space-free text right after the first space |
| Response.DecodeSeesSecondPiece | src/handlers/Response.js:19-20 | the reply depends on decode only through its value at `split(" ")[1]` of the header |
| Response.UndecodableTokenIgnored | src/handlers/Response.js:20-26 | when decode yields nothing truthy, the token stays null and the reply goes out with the chosen status |
| Response.StripTimestamps | src/handlers/Response.js:21-22 | deleting `iat` and `exp` from decoded claims removes exactly those two keys and keeps every other claim's value; a non-object is untouched |
| Js.JsObject.Delete | src/handlers/Response.js:21-22 | `delete o.key` removes the key in place and nothing else |
| Js.JsObject.Set | src/handlers/Response.js:8 | `o.key = v` updates that key in place and nothing else |
| Response.RefreshSignsStrippedClaims | src/handlers/Response.js:21-24 | decoded claims are signed with iat and exp removed, all other claims unchanged, expiry "10m"; the signed token becomes `token`, and a throwing sign gives Thrown |
| Response.ThrowGivesInternalError | src/handlers/Response.js:27-31 | a well-formed call fails exactly when decode or sign throws, and then gets 500 `{message: "Internal Server Error", status: 500}` |
| Response.MessageWithoutStatusIs200 | src/handlers/Response.js:7-9 | `{message: "ok"}` with no status goes out as 200 |
| Response.RefreshedTokenResignsSameClaims | src/handlers/Response.js:19-24 | re-presenting a refreshed token as "Bearer t" re-signs exactly the same claims on the next request, whatever the clock |
| Strings.SplitThenJoin | src/middleware/auth.js:10 | joining the pieces of a split with the separator gives back the original string (the same split serves Response.js:19) |
| Strings.JoinThenSplit | src/middleware/auth.js:10 | splitting a join of separator-free pieces gives back the pieces (the same split serves Response.js:19) |
| Strings.SplitPiecesLackSeparator | src/middleware/auth.js:10 | no piece of a split contains the separator (the same split serves Response.js:19) |
| Strings.SecondPieceOfTwoWords | src/handlers/Response.js:19 | for "word sep word" with separator-free words, element 1 of the split is the second word |
| Auth.Gate | src/middleware/auth.js:3-19 | 401 exactly when the header is missing or lacks the case-sensitive prefix "Bearer "; otherwise 403 exactly when verifying the bearer token throws, and admission with the verified claims otherwise |
| Auth.AuthenticateJWT | src/middleware/auth.js:3-19 | exactly one effect per call: a 401 "Access token missing or invalid" or 403 "Invalid or expired token" reply with `req.user` and `next` untouched, or `req.user` set to the verified claims and `next` called once with no reply written |
| Auth.BearerToken | src/middleware/auth.js:10 | the bearer token is the longest space-free text following "Bearer " |
| Auth.BearerTokenIsSecondPiece | src/middleware/auth.js:6-10 | for a header that passes the prefix check, `split(" ")[1]` is defined and equals the bearer token |
| Auth.BearerHeaderRoundTrip | src/middleware/auth.js:6-13 | a header built as "Bearer " + t, for a token t without spaces, starts with the prefix, and the gate verifies exactly t |
| Auth.NoPrefixNoVerify | src/middleware/auth.js:6-8 | without the prefix the decision is 401 and does not depend on verify |
| Auth.PrefixIsExact | src/middleware/auth.js:6 | "bearer ", "BEARER ", "Bearer" without its space, "Bearerabc" and a missing header are all 401 |
| Auth.DoubleSpaceVerifiesEmptyToken | src/middleware/auth.js:10-13 | for "Bearer  x" the token handed to verify is the empty string |
| Http.ResponseSink.Send | src/middleware/auth.js:7 | `res.status(code).json(body)` appends exactly one reply |
| Http.NextCallback.Call | src/middleware/auth.js:15 | `next()` counts one call |

## Left out

- The resource handlers (`src/handlers/Requests.js`, `Sites.js`, `Users.js`) are not part of this model. They pass straight through to ORM calls whose behaviour is not visible, including the manual cascade deletes.
- Route wiring and server start-up (`src/routes/*.js`, `src/app.js`) are not part of this model. They register handlers and read the environment and contain no logic.
- The token library's internals (HMAC, base64url, JSON, clock-based expiry) are function parameters. The secret read from `process.env.JWT_SECRET` lives inside them. The real `decode(undefined)` returns null; the model leaves that case to the `decode` parameter.
- `async`/`await`, `console.log`/`console.error` and the `res.status().json()` chaining are not modelled. A reply is the pair of status code and body object.
- A `res.json` that throws is not modelled. That would happen for a BigInt or cyclic `data`, or an invalid status code, and would be caught and turned into the 500 body. The model's writes always complete.
- Calling `sendResponse` without a third argument throws while destructuring its parameters, outside the `try`. Every call site passes an object, so the model takes `args` as an object.
- A request object without `headers` would make `req?.headers.authorization` throw. Express always provides `headers`, so the model reads the header as present or absent.
- `next()` runs inside the `try` of `authenticateJWT`. Express catches errors thrown by later layers itself, so the model treats `next()` as not throwing.
- Numbers are integers. Fractions and NaN (which is falsy) are not modelled, and neither are the Authorization header's non-string forms.
- Response.RefreshedTokenResignsSameClaims: relates two successive requests under the library's round-trip promise, taken as hypotheses on the token. It does not follow a session through arbitrarily many refreshes; each further step is the same lemma again.
