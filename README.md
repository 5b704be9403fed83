# Device inventory backend: session integrity and guarded device handlers

This project models the authentication and session layer of the device-inventory backend
(`backend/Api.js`), and the validation and table logic of the device handlers behind it.
The database is an in-memory object whose tables are sequences of rows in scan order.

- **Login.** `POST /api/login` finds a user by name and checks the password. It then mints a
  signed token over `{userId, name, role}` and stores it as that user's only
  `current_token`. The token goes back in an HTTP-only `jwt` cookie, next to a script-readable
  `_csrfToken` cookie.
- **Request authenticator.** `authenticateToken` refuses a request with no session cookie
  (401). It also refuses a token the codec rejects (403), and a token that is not the current
  token of the user its claims name (403). Otherwise it admits the request with the claims'
  identity.
- **CSRF guard.** `verifyCsrfToken` lets GET, HEAD and OPTIONS through. Every other method
  needs the `_csrfToken` cookie and the `x-csrf-token` header to carry the same non-empty value.
- **Logout.** `POST /api/logout` clears the presented token from every row that holds it.
- **Routes.** Each route is a chain of these two middlewares (module `Pipeline`) followed by a
  handler (class `Backend.Server`). The handlers are login, logout, the protected example
  route, and create, list, show, update and delete on `devices`.

The collaborators the code calls but does not implement are parameters, gathered in
`Values.Env`. They are `jwt.sign`, `jwt.verify` (as `decode(token, secret, now)`, which returns
no claims for a bad signature, a malformed token or an expired one) and `bcrypt.compare`.
Nothing is assumed about them. In particular, no round trip between signing and decoding is
assumed. The clock (`now`) and the random CSRF token (`csrf`) are method parameters.

Modules, one per component: `Values` (rows, requests, responses, constants), `Tables` (the
SQL statements as functions over row sequences), `Csrf`, `Authenticator`, `Pipeline` (routes
and middleware order), `Items` (the device handlers' pure decisions), `Store` (the database
object), `Backend` (the route handlers).

Two consequences of the code as written are worth stating:

- **Logout is not repeatable through its route.** The handler's own update is idempotent
  (`Tables.ClearSessionIdempotent`). But the route runs `authenticateToken` first
  (backend/Api.js:178), and the first logout has set the token to NULL (line 185). A second
  identical request therefore finds no session row (line 69) and is answered 403 (line 72),
  not 200 (`Backend.SecondLogoutForbidden`). So two paths of the handler cannot be reached
  through the route: the branch for a request without a `jwt` cookie (lines 186-188), and an
  UPDATE that matches no row.
- **A re-login supersedes the old token only when the new token differs from it.** A JWT's
  issue time has one-second resolution, so two logins in the same second can mint the same
  string. `Authenticator.ReloginSupersedes` therefore assumes the two tokens differ.

## Model

| member | source | states |
|---|---|---|
| `Csrf.VerifyCsrfToken` | backend/Api.js:94-114 | GET, HEAD and OPTIONS always pass. Any other method passes iff cookie and header are present, non-empty and equal. A missing or empty value on either side gives 403 "CSRF token missing or invalid."; two present, unequal values give 403 "CSRF token mismatch." |
| `Csrf.OnlyTheCookieValuePasses` | backend/Api.js:102-113 | For a mutating method and a given cookie, the only header value that passes is the cookie's own value, and that value is non-empty |
| `Csrf.SafeMethodIgnoresTokens` | backend/Api.js:95-97 | For a safe method the verdict is Allow whatever the cookie and header are |
| `Authenticator.AuthenticateToken` | backend/Api.js:57-91 | 401 iff there is no (truthy) `jwt` cookie. A token the codec rejects gives 403. Admission implies the token decodes to the admitted identity's claims and is the stored current token of that user id. Conversely, a decoding token that is that user's current token is admitted. No other outcome is possible |
| `Authenticator.LogoutRevokesToken` | backend/Api.js:183-185 | After logout's update, the cleared token is refused with 403 at any time |
| `Authenticator.ReloginSupersedes` | backend/Api.js:133-148 | After a login stores a new token for user id, any other token whose claims name id is refused with 403 |
| `Authenticator.FreshTokenAdmitted` | backend/Api.js:66-83 | A token stored at login is admitted, with its claims' identity, whenever the codec accepts it with claims naming that user |
| `Authenticator.LoginKeepsOtherVerdicts` | backend/Api.js:133-148 | A login by one user does not change the verdict on any token whose claims name another user |
| `Tables.SelectUserByName` | backend/Api.js:120-124 | Returns None iff no row has the name; otherwise returns the first row in scan order with that name |
| `Tables.SelectSession` | backend/Api.js:69-70 | The result is empty iff no row has that id together with that current token; every returned row matches both |
| `Tables.SetSession` | backend/Api.js:133-148 | Row count kept. Every row keeps id, name, role and hash. Rows with the user id get the new token and login time. Every other row is unchanged |
| `Tables.SetSessionKeepsOtherSessions` | backend/Api.js:133-139 | For any other user id, the update neither creates nor removes a current token |
| `Tables.ClearSession` | backend/Api.js:185 | Row count kept. Every row that held the token has its `current_token` set to NULL and keeps every other field. Rows that did not hold it are unchanged. No row holds the token afterwards |
| `Tables.ClearSessionIdempotent` | backend/Api.js:183-201 | Clearing a token twice gives the same table as clearing it once |
| `Tables.SelectIdByName` | backend/Api.js:225-241 | None iff no row has the name; otherwise the id of the first row with that name |
| `Tables.SelectNameById` | backend/Api.js:263-267 | None iff no row has the id; otherwise the name of a row with that id |
| `Tables.ViewOf` | backend/Api.js:263-267 | A device joins iff its type, location and status ids all resolve, and the view carries those names |
| `Tables.JoinDevices` | backend/Api.js:262-268 | As many views as there are devices whose three references resolve. A view is in the result iff some device joins to it |
| `Tables.JoinKeepsUniqueIds` | backend/Api.js:262-268 | Under unique device ids, no two joined rows carry the same device id, so each device appears at most once |
| `Tables.ViewsWithId` | backend/Api.js:280-287 | Exactly the joined views with that device id |
| `Tables.DevicesWithId` | backend/Api.js:317-323 | Empty iff no device has the id; otherwise exactly the rows with that id |
| `Tables.UniqueIdHitsOneDevice` | backend/Api.js:341-345 | Under unique device ids, an id that occurs hits exactly one row |
| `Tables.RenameDevice` | backend/Api.js:317-320 | Row count kept. The rows with the id get the new name and location and keep type and status. Every other row is unchanged |
| `Tables.DeleteDevice` | backend/Api.js:341 | Keeps exactly the rows without the id. Removes as many rows as the id hits. Preserves unique ids |
| `Tables.Where` | backend/Api.js:69 | The selected rows are exactly the table's rows that satisfy the condition, and there are no more of them than rows |
| `Tables.WhereCounts` | backend/Api.js:69 | Each row that satisfies the condition is selected as often as the table holds it, and no other row is selected |
| `Tables.WherePartition` | backend/Api.js:341-343 | A condition and its negation select between them exactly all rows |
| `Pipeline.MethodOf` | backend/Api.js:117-353 | Every route is registered under GET, POST, PUT or DELETE. Exactly the routes guarded by authentication alone answer a safe method |
| `Pipeline.Chain` | backend/Api.js:117-353 | Login registers no middleware. Every other route authenticates first, and only once. Exactly logout, create, update and delete then check the CSRF tokens |
| `Pipeline.RunStage` | backend/Api.js:57-114 | A stage refuses only with 401 or 403, and sets no cookie |
| `Pipeline.StageFollowsMiddleware` | backend/Api.js:57-114 | The authenticator stage passes exactly the admitted requests, with their identity, and refuses with a bare status (`sendStatus`). The CSRF stage passes exactly the allowed requests and refuses with the guard's JSON message |
| `Pipeline.RunChain` | backend/Api.js:178 | The handler is reached iff every stage passes. Otherwise the answer is the first refusing stage's answer, every earlier stage having passed. The handler sees the authenticator's identity |
| `Pipeline.Guard` | backend/Api.js:178-353 | Login is never refused. A guarded handler runs only when the presented token decodes to the identity handed on and is that user's current token. A mutating handler also needs a double-submitted CSRF token. Every refusal is a 401 or 403 that sets no cookie |
| `Pipeline.GuardOfMutatingRoute` | backend/Api.js:216 | On logout, create, update and delete, authentication comes first (bare 401/403), then the CSRF check (403 with message), then the handler with the token's identity |
| `Pipeline.GuardOfReadRoute` | backend/Api.js:260 | On the protected route, list and show, authentication alone decides |
| `Pipeline.NoSessionIsUnauthorized` | backend/Api.js:58-63 | On every guarded route, a request without a session cookie gets 401, whatever its CSRF tokens |
| `Pipeline.MissingCsrfHeaderForbidden` | backend/Api.js:99-105 | An authenticated request to a mutating route with no CSRF header gets 403 "missing or invalid" |
| `Pipeline.SafeRoutesSkipCsrf` | backend/Api.js:208 | No route that answers a safe method registers the CSRF guard |
| `Items.PlanNewDevice` | backend/Api.js:217-241 | A missing field is refused before any lookup. Then type, location and status resolve in that order, and the first unresolved one is reported. A request with every field present and every name resolving is planned, and only such a request is. The plan carries the ids of the first rows with those names |
| `Items.UnresolvedNameRefused` | backend/Api.js:225-241 | If any referenced name is absent from its table, creation is refused |
| `Items.PlanUpdate` | backend/Api.js:303-315 | A missing name or location gives 400 "Fields name and location are required for update.". Then an unknown location gives 400. Otherwise the result is the first matching location id |
| `Store.Database.constructor` | backend/Api.js:18-24 | The database starts with the given tables and satisfies `Valid`: unique primary keys in `users`, `devices` and the three lookup tables, and an id sequence ahead of every device id. The handlers keep `Valid` |
| `Backend.Server.constructor` | backend/Api.js:13-16 | A server exists only with a non-empty signing secret |
| `Backend.Server.PostLogin` | backend/Api.js:117-176 | An unknown name and a wrong password both give the identical 401 "Invalid credentials" and leave `users` unchanged. On success `users` becomes `SetSession` for exactly that user's id, with the token signed over `{id, name, role}` and a one-day lifetime. The response carries only id, name and role, plus the two cookies. Only `users` may change |
| `Backend.Server.PostLogout` | backend/Api.js:178-206 | A refusal by the chain is answered as is, with `users` unchanged. Otherwise the presented token is cleared from every row holding it, and the answer is 200 with both cookies cleared |
| `Backend.Server.GetProtected` | backend/Api.js:208-214 | An authenticator refusal gives its bare status. Otherwise 200 with the identity from the token |
| `Backend.Server.PostItem` | backend/Api.js:216-258 | A refusal by the chain or by the plan leaves `devices` and the id sequence unchanged. Otherwise, which includes every admitted request whose fields are present and whose names resolve, exactly one row is appended, with the next id, and the answer is 201 with that row |
| `Backend.Server.GetItems` | backend/Api.js:260-274 | An authenticator refusal gives its bare status. Otherwise 200 with the join |
| `Backend.Server.GetItem` | backend/Api.js:276-299 | An authenticator refusal gives its bare status. If no joined row has the id, 404. Otherwise 200 with the first joined row, whose id is the requested one |
| `Backend.Server.PutItem` | backend/Api.js:301-335 | Refusals (chain, missing fields, unknown location, and 404 for an absent id) leave `devices` unchanged. Otherwise only the name and location of the rows with that id change, and the answer carries the updated row |
| `Backend.Server.DeleteItem` | backend/Api.js:337-353 | Refusals (chain, and 404 for an absent id) leave `devices` unchanged. Otherwise exactly one row, the one with that id, is removed |
| `Backend.IssuedTokenAdmitsUser` | backend/Api.js:141-146 | The token a login issues with `IssueToken` is signed over id, name and role only, for one day. When the codec later decodes it to those claims, the authenticator admits it with exactly that public identity |
| `Backend.SecondLogoutForbidden` | backend/Api.js:178-206 | After a logout has gone through, the same logout request is refused with 403 at any later time |

## Left out

- HTTP and process plumbing (Express, CORS, cookie and JSON parsing, `app.listen`) is not modelled, and neither is logging. The startup check for `JWT_SECRET` appears only as the precondition of `Backend.Server.constructor`.
- The `pg` pool, the `query` wrapper, SQL text and query timing are not modelled. Tables are sequences of rows, and `CURRENT_TIMESTAMP` is the `now` parameter.
- bcrypt, JWT signing and verification, and token expiry are opaque functions in `Values.Env`. Expiry belongs to the codec, as `decode(token, secret, now)`.
- `crypto.randomBytes` is not modelled: the CSRF token is a parameter of `PostLogin`.
- Every 500 path is left out, because the model's store never fails. This includes the code's answer of 403 when the database fails inside `authenticateToken`.
- Request bodies are optional strings. Non-string JSON values are not modelled. A missing `name` or `password` at login is not modelled either: the code sends those to the database and bcrypt, which fail or match nothing.
- The `:id` route parameter is an integer. A non-numeric id makes the database fail with a 500, which is not modelled.
- Cookie attributes other than HTTP-only and max-age (same-site, secure) are not modelled.
- Messages with interpolated values stay structured body values. Examples: `UnknownType(name)` for `Device type "<name>" not found.` and `DeviceNotFound(id)` for `Device with ID <id> not found.`.
- The join of `GET /api/items` attaches the first lookup row with a matching id. This equals SQL's inner join because lookup ids are primary keys, which `Store.Database.Valid` states.
- Concurrency is not modelled: there is no interleaving of requests and no last-write-wins on `current_token`.
- The frontend, the hashing scripts and the test file are not part of this model.
