/** The route handlers of backend/Api.js: each one runs its middleware chain and then its
    handler body against the database. */
module Backend {
  import opened Values
  import opened Tables
  import opened Items
  import opened Pipeline
  import Store
  import Authenticator

  /** The token `jwt.sign` mints for a user at login: claims `{userId, name, role}`,
      valid for one day. */
  function IssueToken(env: Env, u: UserRow, now: int): string {
    env.sign(Claims(u.id, u.name, u.role), env.secret, TokenLifetimeSeconds, now)
  }

  /** The two cookies a successful login sets: the session token, script-inaccessible, and
      the CSRF token, readable by script so that it can be echoed in `x-csrf-token`. */
  function SessionCookies(token: string, csrf: string): seq<Cookie> {
    [SetCookie(JwtCookie, token, true, JwtCookieMaxAgeMs), SetCookie(CsrfCookie, csrf, false, CsrfCookieMaxAgeMs)]
  }

  function InvalidCredentials(): Response {
    Response(401, Message(InvalidCredentialsText), [])
  }

  function LoggedOut(): Response {
    Response(200, Message(LoggedOutText), [ClearCookie(JwtCookie), ClearCookie(CsrfCookie)])
  }

  class Server {
    const env: Env
    const db: Store.Database

    ghost predicate Valid()
      reads db
    {
      env.secret != "" && db.Valid()
    }

    /** The process refuses to start without a signing secret. */
    constructor (env: Env, db: Store.Database)
      requires env.secret != "" && db.Valid()
      ensures Valid() && this.env == env && this.db == db
    {
      this.env := env;
      this.db := db;
    }

    /** POST /api/login. An unknown name and a wrong password get the same 401 answer and
        change nothing; a match stores a new token as that user's only current token,
        touching no other row, and answers with the public identity and the two cookies. */
    method PostLogin(name: string, password: string, now: int, csrf: string) returns (resp: Response)
      requires Valid()
      modifies db`users
      ensures Valid()
      ensures var found := SelectUserByName(old(db.users), name);
              if found.None? || !env.verifyPassword(password, found.value.passwordHash) then
                resp == InvalidCredentials() && db.users == old(db.users)
              else
                var u := found.value;
                var token := IssueToken(env, u, now);
                && db.users == SetSession(old(db.users), u.id, token, now)
                && resp == Response(200, UserBody(Identity(u.id, u.name, u.role)), SessionCookies(token, csrf))
    {
      var found := SelectUserByName(db.users, name);
      if found.None? {
        return InvalidCredentials();
      }
      var user := found.value;
      if !env.verifyPassword(password, user.passwordHash) {
        return InvalidCredentials();
      }
      var token := IssueToken(env, user, now);
      db.users := SetSession(db.users, user.id, token, now);
      resp := Response(200, UserBody(Identity(user.id, user.name, user.role)), SessionCookies(token, csrf));
    }

    /** POST /api/logout, behind authentication and the CSRF guard: clears the presented
        token from every row that holds it and answers 200, clearing both cookies. */
    method PostLogout(req: Request, now: int) returns (resp: Response)
      requires Valid()
      modifies db`users
      ensures Valid()
      ensures var g := Guard(Route.Logout, req, old(db.users), env, now);
              if g.Stop? then resp == g.response && db.users == old(db.users)
              else
                && db.users == (if Present(req.jwt) then ClearSession(old(db.users), req.jwt.value) else old(db.users))
                && resp == LoggedOut()
    {
      var g := Guard(Route.Logout, req, db.users, env, now);
      if g.Stop? {
        return g.response;
      }
      if Present(req.jwt) {
        db.users := ClearSession(db.users, req.jwt.value);
      }
      resp := LoggedOut();
    }

    /** GET /api/protected, behind authentication only: answers with the identity the
        session token carries. */
    method GetProtected(req: Request, now: int) returns (resp: Response)
      requires Valid()
      ensures var a := Authenticator.AuthenticateToken(db.users, req.jwt, env, now);
              if a.Deny? then resp == Response(a.status, StatusText, [])
              else resp == Response(200, ProtectedBody(ProtectedText, a.user), [])
    {
      GuardOfReadRoute(Route.Protected, req, db.users, env, now);
      var g := Guard(Route.Protected, req, db.users, env, now);
      if g.Stop? {
        return g.response;
      }
      resp := Response(200, ProtectedBody(ProtectedText, g.user.value), []);
    }

    /** POST /api/items, behind authentication and the CSRF guard: inserts exactly one row,
        with the next id, when the fields are present and all three names resolve. */
    method PostItem(req: Request, now: int, name: Option<string>, location: Option<string>,
                    typ: Option<string>, status: Option<string>) returns (resp: Response)
      requires Valid()
      modifies db`devices, db`nextDeviceId
      ensures Valid()
      ensures var g := Guard(Route.CreateItem, req, db.users, env, now);
              var plan := PlanNewDevice(db.deviceTypes, db.locations, db.deviceStatuses, name, location, typ, status);
              if g.Stop? || plan.Err? then
                && resp == (if g.Stop? then g.response else Response(400, plan.body, []))
                && db.devices == old(db.devices) && db.nextDeviceId == old(db.nextDeviceId)
              else
                var d := plan.value;
                var row := DeviceRow(old(db.nextDeviceId), d.name, d.typeId, d.locationId, d.statusId);
                && db.devices == old(db.devices) + [row]
                && db.nextDeviceId == old(db.nextDeviceId) + 1
                && resp == Response(201, DeviceBody(DeviceAddedText, row), [])
    {
      var g := Guard(Route.CreateItem, req, db.users, env, now);
      if g.Stop? {
        return g.response;
      }
      var plan := PlanNewDevice(db.deviceTypes, db.locations, db.deviceStatuses, name, location, typ, status);
      if plan.Err? {
        return Response(400, plan.body, []);
      }
      var d := plan.value;
      var row := DeviceRow(db.nextDeviceId, d.name, d.typeId, d.locationId, d.statusId);
      db.devices := db.devices + [row];
      db.nextDeviceId := db.nextDeviceId + 1;
      resp := Response(201, DeviceBody(DeviceAddedText, row), []);
    }

    /** GET /api/items, behind authentication only: every device whose references resolve,
        with the referenced names. */
    method GetItems(req: Request, now: int) returns (resp: Response)
      requires Valid()
      ensures var a := Authenticator.AuthenticateToken(db.users, req.jwt, env, now);
              if a.Deny? then resp == Response(a.status, StatusText, [])
              else resp == Response(200, DeviceList(JoinDevices(db.devices, db.deviceTypes, db.locations, db.deviceStatuses)), [])
    {
      GuardOfReadRoute(Route.ListItems, req, db.users, env, now);
      var g := Guard(Route.ListItems, req, db.users, env, now);
      if g.Stop? {
        return g.response;
      }
      var views := JoinDevices(db.devices, db.deviceTypes, db.locations, db.deviceStatuses);
      resp := Response(200, DeviceList(views), []);
    }

    /** GET /api/items/:id, behind authentication only: the joined row with that id, or 404. */
    method GetItem(req: Request, now: int, id: int) returns (resp: Response)
      requires Valid()
      ensures var a := Authenticator.AuthenticateToken(db.users, req.jwt, env, now);
              var views := ViewsWithId(JoinDevices(db.devices, db.deviceTypes, db.locations, db.deviceStatuses), id);
              if a.Deny? then resp == Response(a.status, StatusText, [])
              else if views == [] then resp == Response(404, DeviceNotFound(id), [])
              else resp == Response(200, DeviceDetail(views[0]), []) && views[0].id == id
    {
      GuardOfReadRoute(Route.ShowItem, req, db.users, env, now);
      var g := Guard(Route.ShowItem, req, db.users, env, now);
      if g.Stop? {
        return g.response;
      }
      var views := ViewsWithId(JoinDevices(db.devices, db.deviceTypes, db.locations, db.deviceStatuses), id);
      if |views| == 0 {
        return Response(404, DeviceNotFound(id), []);
      }
      assert views[0] in views;
      resp := Response(200, DeviceDetail(views[0]), []);
    }

    /** PUT /api/items/:id, behind authentication and the CSRF guard: missing fields and an
        unknown location are refused with 400 before the device is looked for; an absent
        device gives 404; otherwise only that row's name and location change. */
    method PutItem(req: Request, now: int, id: int, name: Option<string>, location: Option<string>)
      returns (resp: Response)
      requires Valid()
      modifies db`devices
      ensures Valid()
      ensures var g := Guard(Route.UpdateItem, req, db.users, env, now);
              var plan := PlanUpdate(db.locations, name, location);
              var hits := DevicesWithId(old(db.devices), id);
              if g.Stop? then resp == g.response && db.devices == old(db.devices)
              else if plan.Err? then resp == Response(400, plan.body, []) && db.devices == old(db.devices)
              else if hits == [] then resp == Response(404, DeviceNotFound(id), []) && db.devices == old(db.devices)
              else
                && db.devices == RenameDevice(old(db.devices), id, name.value, plan.value)
                && resp == Response(200, DeviceBody(DeviceUpdatedText,
                                                    hits[0].(name := name.value, locationId := plan.value)), [])
    {
      var g := Guard(Route.UpdateItem, req, db.users, env, now);
      if g.Stop? {
        return g.response;
      }
      var plan := PlanUpdate(db.locations, name, location);
      if plan.Err? {
        return Response(400, plan.body, []);
      }
      var hits := DevicesWithId(db.devices, id);
      if |hits| == 0 {
        return Response(404, DeviceNotFound(id), []);
      }
      db.devices := RenameDevice(db.devices, id, name.value, plan.value);
      resp := Response(200, DeviceBody(DeviceUpdatedText, hits[0].(name := name.value, locationId := plan.value)), []);
    }

    /** DELETE /api/items/:id, behind authentication and the CSRF guard: an absent device
        gives 404; otherwise exactly that one row is removed. */
    method DeleteItem(req: Request, now: int, id: int) returns (resp: Response)
      requires Valid()
      modifies db`devices
      ensures Valid()
      ensures var g := Guard(Route.RemoveItem, req, db.users, env, now);
              var hits := DevicesWithId(old(db.devices), id);
              if g.Stop? then resp == g.response && db.devices == old(db.devices)
              else if hits == [] then resp == Response(404, DeviceNotFound(id), []) && db.devices == old(db.devices)
              else
                && db.devices == DeleteDevice(old(db.devices), id)
                && |db.devices| == |old(db.devices)| - 1
                && resp == Response(200, Message(DeviceDeletedText), [])
    {
      var g := Guard(Route.RemoveItem, req, db.users, env, now);
      if g.Stop? {
        return g.response;
      }
      var hits := DevicesWithId(db.devices, id);
      if |hits| == 0 {
        return Response(404, DeviceNotFound(id), []);
      }
      UniqueIdHitsOneDevice(db.devices, id);
      db.devices := DeleteDevice(db.devices, id);
      resp := Response(200, Message(DeviceDeletedText), []);
    }
  }

  /** The token a login issues opens the guarded routes for that account: when the codec
      later decodes it to the claims it was signed over, the authenticator admits it with
      exactly the user's public identity (id, name and role, never the password hash). */
  lemma IssuedTokenAdmitsUser(users: seq<UserRow>, u: UserRow, env: Env, now: int, later: int)
    requires u in users && IssueToken(env, u, now) != ""
    requires env.decode(IssueToken(env, u, now), env.secret, later) == Some(Claims(u.id, u.name, u.role))
    ensures var token := IssueToken(env, u, now);
            Authenticator.AuthenticateToken(SetSession(users, u.id, token, now), Some(token), env, later)
              == Authenticator.Admit(Identity(u.id, u.name, u.role))
  {
    var i :| 0 <= i < |users| && users[i] == u;
    Authenticator.FreshTokenAdmitted(users, u.id, IssueToken(env, u, now), now, env, later);
  }

  /** Logout through its route is not repeatable: once a logout has gone through, the same
      request is refused with 403 at any later time, because the token it presents is no
      longer anybody's current token (or no longer decodes), and the table is left alone. */
  lemma {:induction false} SecondLogoutForbidden(users: seq<UserRow>, req: Request, env: Env, now: int, later: int)
    requires Present(req.jwt) && Guard(Route.Logout, req, users, env, now).Pass?
    ensures Guard(Route.Logout, req, ClearSession(users, req.jwt.value), env, later) == Stop(Response(403, StatusText, []))
  {
    var cleared := ClearSession(users, req.jwt.value);
    Authenticator.LogoutRevokesToken(users, req.jwt.value, env, later);
    GuardOfMutatingRoute(Route.Logout, req, cleared, env, later);
  }
}
