/** The routes of backend/Api.js and the middleware each one runs before its handler, as
    an explicit pipeline of stages that either pass the request on or answer it. */
module Pipeline {
  import opened Values
  import opened Tables
  import Csrf
  import Authenticator

  datatype Middleware = AuthenticateToken | VerifyCsrfToken

  datatype Route =
    | Login        // POST   /api/login
    | Logout       // POST   /api/logout
    | Protected    // GET    /api/protected
    | CreateItem   // POST   /api/items
    | ListItems    // GET    /api/items
    | ShowItem     // GET    /api/items/:id
    | UpdateItem   // PUT    /api/items/:id
    | RemoveItem   // DELETE /api/items/:id

  /** The HTTP method each route is registered under (`app.post`, `app.get`, ...): exactly
      the routes guarded by authentication alone answer a safe method. */
  function MethodOf(route: Route): (verb: string)
    ensures verb in ["GET", "POST", "PUT", "DELETE"]
    ensures Csrf.IsSafeMethod(verb) <==> Authenticated(route) && !Mutating(route)
  {
    match route
    case Login => "POST"
    case Logout => "POST"
    case Protected => "GET"
    case CreateItem => "POST"
    case ListItems => "GET"
    case ShowItem => "GET"
    case UpdateItem => "PUT"
    case RemoveItem => "DELETE"
  }

  /** The middleware each route registers, in the order it registers them: login none;
      every other route authenticates first, and exactly the mutating ones then check the
      CSRF tokens. */
  function Chain(route: Route): (chain: seq<Middleware>)
    ensures |chain| > 0 <==> Authenticated(route)
    ensures |chain| > 0 ==> chain[0] == AuthenticateToken && AuthenticateToken !in chain[1..]
    ensures VerifyCsrfToken in chain <==> Mutating(route)
    ensures chain == [] || chain == [AuthenticateToken] || chain == [AuthenticateToken, VerifyCsrfToken]
  {
    match route
    case Login => []
    case Logout => [AuthenticateToken, VerifyCsrfToken]
    case Protected => [AuthenticateToken]
    case CreateItem => [AuthenticateToken, VerifyCsrfToken]
    case ListItems => [AuthenticateToken]
    case ShowItem => [AuthenticateToken]
    case UpdateItem => [AuthenticateToken, VerifyCsrfToken]
    case RemoveItem => [AuthenticateToken, VerifyCsrfToken]
  }

  /** What one stage does: pass on (with `req.user` when it authenticated), or answer. */
  datatype StageResult = Next(user: Option<Identity>) | Halt(response: Response)

  /** What the whole chain does: reach the handler with `req.user`, or answer. */
  datatype Gate = Pass(user: Option<Identity>) | Stop(response: Response)

  function RunStage(m: Middleware, verb: string, req: Request, users: seq<UserRow>, env: Env, now: int): (r: StageResult)
    ensures r.Halt? ==> (r.response.status == 401 || r.response.status == 403) && r.response.cookies == []
  {
    match m
    case AuthenticateToken =>
      (match Authenticator.AuthenticateToken(users, req.jwt, env, now)
       case Admit(u) => Next(Some(u))
       case Deny(status) => Halt(Response(status, StatusText, [])))
    case VerifyCsrfToken =>
      (match Csrf.VerifyCsrfToken(verb, req.csrfCookie, req.csrfHeader)
       case Allow => Next(None)
       case Reject(status, body) => Halt(Response(status, body, [])))
  }

  /** Each stage follows its middleware: the authenticator passes exactly the admitted
      requests on, with their identity, and answers a refusal with a bare status
      (`sendStatus`); the CSRF guard passes exactly the allowed requests on and answers a
      refusal with its JSON message. */
  lemma StageFollowsMiddleware(m: Middleware, verb: string, req: Request, users: seq<UserRow>, env: Env, now: int)
    ensures var r := RunStage(m, verb, req, users, env, now);
            && (m == AuthenticateToken ==>
                  && (r.Next? <==> Authenticator.AuthenticateToken(users, req.jwt, env, now).Admit?)
                  && (r.Next? ==> r.user == Some(Authenticator.AuthenticateToken(users, req.jwt, env, now).user))
                  && (r.Halt? ==> r.response.body == StatusText))
            && (m == VerifyCsrfToken ==>
                  && (r.Next? <==> Csrf.VerifyCsrfToken(verb, req.csrfCookie, req.csrfHeader).Allow?)
                  && (r.Next? ==> r.user.None?)
                  && (r.Halt? ==> r.response.body == Csrf.VerifyCsrfToken(verb, req.csrfCookie, req.csrfHeader).body))
  {
  }

  /** Express's `next()` chaining: the stages run in order and the first that answers ends
      the request with its answer; the handler is reached only when every stage passes. */
  function RunChain(chain: seq<Middleware>, verb: string, req: Request, users: seq<UserRow>, env: Env,
                    now: int, user: Option<Identity>): (g: Gate)
    ensures g.Pass? <==> forall k :: 0 <= k < |chain| ==> RunStage(chain[k], verb, req, users, env, now).Next?
    ensures g.Stop? ==> exists k :: 0 <= k < |chain| && RunStage(chain[k], verb, req, users, env, now).Halt?
                                     && (forall j :: 0 <= j < k ==> RunStage(chain[j], verb, req, users, env, now).Next?)
                                     && g.response == RunStage(chain[k], verb, req, users, env, now).response
    ensures g.Pass? && AuthenticateToken in chain ==>
              g.user == Some(Authenticator.AuthenticateToken(users, req.jwt, env, now).user)
    ensures g.Pass? && AuthenticateToken !in chain ==> g.user == user
  {
    if chain == [] then Pass(user)
    else
      var rest := chain[1..];
      assert forall k :: 0 < k < |chain| ==> chain[k] == rest[k - 1];
      match RunStage(chain[0], verb, req, users, env, now)
      case Halt(response) => Stop(response)
      case Next(u) =>
        var g := RunChain(rest, verb, req, users, env, now, if u.Some? then u else user);
        assert g.Stop? ==> exists k :: 0 <= k < |rest| && RunStage(rest[k], verb, req, users, env, now).Halt?
                                         && (forall j :: 0 <= j < k ==> RunStage(rest[j], verb, req, users, env, now).Next?)
                                         && g.response == RunStage(rest[k], verb, req, users, env, now).response;
        assert g.Stop? ==> exists k :: 0 <= k < |chain| && RunStage(chain[k], verb, req, users, env, now).Halt?
                                         && (forall j :: 0 <= j < k ==> RunStage(chain[j], verb, req, users, env, now).Next?)
                                         && g.response == RunStage(chain[k], verb, req, users, env, now).response by {
          if g.Stop? {
            var k :| 0 <= k < |rest| && RunStage(rest[k], verb, req, users, env, now).Halt?
                     && (forall j :: 0 <= j < k ==> RunStage(rest[j], verb, req, users, env, now).Next?)
                     && g.response == RunStage(rest[k], verb, req, users, env, now).response;
            assert chain[k + 1] == rest[k];
          }
        }
        assert AuthenticateToken in chain <==> chain[0] == AuthenticateToken || AuthenticateToken in rest;
        g
  }

  /** The gate a route puts in front of its handler. Login is never refused. A guarded
      handler runs only for the holder of the presented session token, with the identity
      the token names, and a mutating one only with a double-submitted CSRF token. Every
      refusal is a 401 or 403 that sets no cookie. */
  function Guard(route: Route, req: Request, users: seq<UserRow>, env: Env, now: int): (g: Gate)
    ensures route == Login ==> g == Pass(None)
    ensures g.Pass? && Authenticated(route) ==>
              && Present(req.jwt) && g.user.Some?
              && HoldsToken(users, g.user.value.id, req.jwt.value)
              && env.decode(req.jwt.value, env.secret, now)
                 == Some(Claims(g.user.value.id, g.user.value.name, g.user.value.role))
    ensures g.Pass? && Mutating(route) ==> Csrf.DoubleSubmitted(req.csrfCookie, req.csrfHeader)
    ensures g.Stop? ==> (g.response.status == 401 || g.response.status == 403) && g.response.cookies == []
  {
    var chain := Chain(route);
    var g := RunChain(chain, MethodOf(route), req, users, env, now, None);
    StageFollowsMiddleware(AuthenticateToken, MethodOf(route), req, users, env, now);
    StageFollowsMiddleware(VerifyCsrfToken, MethodOf(route), req, users, env, now);
    assert g.Pass? && Authenticated(route) ==> RunStage(chain[0], MethodOf(route), req, users, env, now).Next?;
    assert g.Pass? && Mutating(route) ==> RunStage(chain[1], MethodOf(route), req, users, env, now).Next?;
    g
  }

  /** Routes whose chain authenticates, and those that also check CSRF. */
  predicate Authenticated(route: Route) { route != Login }
  predicate Mutating(route: Route) { route in {Logout, CreateItem, UpdateItem, RemoveItem} }

  /** The gate of a mutating route, stated without the chain: authenticate first and
      answer a refusal with its bare status; then check the CSRF tokens and answer a
      refusal with its message; otherwise reach the handler with the token's identity. */
  lemma GuardOfMutatingRoute(route: Route, req: Request, users: seq<UserRow>, env: Env, now: int)
    requires Mutating(route)
    ensures Guard(route, req, users, env, now) ==
            match Authenticator.AuthenticateToken(users, req.jwt, env, now)
            case Deny(status) => Stop(Response(status, StatusText, []))
            case Admit(u) =>
              match Csrf.VerifyCsrfToken(MethodOf(route), req.csrfCookie, req.csrfHeader)
              case Reject(status, body) => Stop(Response(status, body, []))
              case Allow => Pass(Some(u))
  {
    var verb := MethodOf(route);
    assert Chain(route) == [AuthenticateToken, VerifyCsrfToken];
    assert [AuthenticateToken, VerifyCsrfToken][1..] == [VerifyCsrfToken];
    match Authenticator.AuthenticateToken(users, req.jwt, env, now)
    case Deny(_) =>
    case Admit(u) =>
      assert Guard(route, req, users, env, now) == RunChain([VerifyCsrfToken], verb, req, users, env, now, Some(u));
      assert [VerifyCsrfToken][1..] == [];
  }

  /** The gate of a guarded read-only route: authentication alone decides. */
  lemma GuardOfReadRoute(route: Route, req: Request, users: seq<UserRow>, env: Env, now: int)
    requires Authenticated(route) && !Mutating(route)
    ensures Guard(route, req, users, env, now) ==
            match Authenticator.AuthenticateToken(users, req.jwt, env, now)
            case Deny(status) => Stop(Response(status, StatusText, []))
            case Admit(u) => Pass(Some(u))
  {
    assert Chain(route) == [AuthenticateToken];
    assert [AuthenticateToken][1..] == [];
  }

  /** Authentication runs first: on every guarded route a request without a session
      cookie is answered 401, whatever its CSRF cookie and header are. */
  lemma NoSessionIsUnauthorized(route: Route, req: Request, users: seq<UserRow>, env: Env, now: int)
    requires Authenticated(route) && !Present(req.jwt)
    ensures Guard(route, req, users, env, now) == Stop(Response(401, StatusText, []))
  {
    assert Chain(route)[0] == AuthenticateToken;
  }

  /** An authenticated request to a mutating route that lacks the CSRF header is answered
      403 with the "missing or invalid" message. */
  lemma MissingCsrfHeaderForbidden(route: Route, req: Request, users: seq<UserRow>, env: Env, now: int)
    requires Mutating(route) && req.csrfHeader.None?
    requires Authenticator.AuthenticateToken(users, req.jwt, env, now).Admit?
    ensures Guard(route, req, users, env, now) == Stop(Response(403, Message(CsrfMissingText), []))
  {
    var verb := MethodOf(route);
    var u := Authenticator.AuthenticateToken(users, req.jwt, env, now).user;
    var refusal := Response(403, Message(CsrfMissingText), []);
    assert RunStage(VerifyCsrfToken, verb, req, users, env, now) == Halt(refusal);
    assert RunChain([VerifyCsrfToken], verb, req, users, env, now, Some(u)) == Stop(refusal);
    assert [AuthenticateToken, VerifyCsrfToken][1..] == [VerifyCsrfToken];
  }

  /** Routes answering a safe method never run the CSRF guard. */
  lemma SafeRoutesSkipCsrf(route: Route)
    requires Csrf.IsSafeMethod(MethodOf(route))
    ensures VerifyCsrfToken !in Chain(route)
  {
  }
}
