/** The request authenticator `authenticateToken` (backend/Api.js) and what login's and
    logout's updates of `users` do to it. */
module Authenticator {
  import opened Values
  import opened Tables

  /** Admit the request with `req.user`, or answer it with a bare status. */
  datatype AuthOutcome = Admit(user: Identity) | Deny(status: nat)

  /** `authenticateToken`: no `jwt` cookie gives 401; a token the codec does not accept
      (forged, malformed or expired at `now`) gives 403; a token that decodes but is not the
      current token of the user its claims name gives 403; otherwise the request is admitted
      with the identity taken from the claims. The table is only read. */
  function AuthenticateToken(users: seq<UserRow>, jwt: Option<string>, env: Env, now: int): (r: AuthOutcome)
    ensures r == Deny(401) <==> !Present(jwt)
    ensures r.Deny? ==> r.status == 401 || r.status == 403
    ensures Present(jwt) && env.decode(jwt.value, env.secret, now).None? ==> r == Deny(403)
    ensures r.Admit? ==> Present(jwt)
                         && env.decode(jwt.value, env.secret, now) == Some(Claims(r.user.id, r.user.name, r.user.role))
                         && HoldsToken(users, r.user.id, jwt.value)
    ensures Present(jwt) && env.decode(jwt.value, env.secret, now).Some?
            && HoldsToken(users, env.decode(jwt.value, env.secret, now).value.userId, jwt.value)
            ==> r.Admit?
  {
    if !Present(jwt) then Deny(401)
    else match env.decode(jwt.value, env.secret, now)
      case None => Deny(403)
      case Some(claims) =>
        if |SelectSession(users, claims.userId, jwt.value)| == 0 then Deny(403)
        else Admit(Identity(claims.userId, claims.name, claims.role))
  }

  /** After logout's update no request presenting the cleared token is admitted, at any
      time: it is refused with 403. */
  lemma {:induction false} LogoutRevokesToken(users: seq<UserRow>, token: string, env: Env, now: int)
    requires token != ""
    ensures AuthenticateToken(ClearSession(users, token), Some(token), env, now) == Deny(403)
  {
    var cleared := ClearSession(users, token);
    match env.decode(token, env.secret, now)
    case None =>
    case Some(c) =>
      assert !HoldsToken(cleared, c.userId, token) by {
        forall i | 0 <= i < |cleared| ensures cleared[i].currentToken != Some(token) {
        }
      }
  }

  /** Single active session: once a login stores `newToken` as user `id`'s token, every other
      token whose claims name `id` is refused with 403, whether or not it was current before. */
  lemma {:induction false} ReloginSupersedes(users: seq<UserRow>, id: int, newToken: string, loginTime: int,
                                             earlier: string, env: Env, now: int)
    requires earlier != "" && earlier != newToken
    requires env.decode(earlier, env.secret, now).Some? && env.decode(earlier, env.secret, now).value.userId == id
    ensures AuthenticateToken(SetSession(users, id, newToken, loginTime), Some(earlier), env, now) == Deny(403)
  {
    var updated := SetSession(users, id, newToken, loginTime);
    assert !HoldsToken(updated, id, earlier) by {
      forall i | 0 <= i < |updated| && updated[i].id == id ensures updated[i].currentToken != Some(earlier) {
        assert users[i].id == id;
      }
    }
  }

  /** The token a login stores is admitted for as long as the codec accepts it with claims
      naming that user (provided the user has a row); the admitted identity is the claims'. */
  lemma {:induction false} FreshTokenAdmitted(users: seq<UserRow>, id: int, newToken: string, loginTime: int,
                                              env: Env, now: int)
    requires newToken != ""
    requires exists i :: 0 <= i < |users| && users[i].id == id
    requires env.decode(newToken, env.secret, now).Some? && env.decode(newToken, env.secret, now).value.userId == id
    ensures var c := env.decode(newToken, env.secret, now).value;
            AuthenticateToken(SetSession(users, id, newToken, loginTime), Some(newToken), env, now)
              == Admit(Identity(c.userId, c.name, c.role))
  {
    var updated := SetSession(users, id, newToken, loginTime);
    var i :| 0 <= i < |users| && users[i].id == id;
    assert updated[i].id == id && updated[i].currentToken == Some(newToken);
    assert HoldsToken(updated, id, newToken);
  }

  /** A login by one user changes no verdict on a token whose claims name another user. */
  lemma {:induction false} LoginKeepsOtherVerdicts(users: seq<UserRow>, id: int, newToken: string, loginTime: int,
                                                   jwt: Option<string>, env: Env, now: int)
    requires Present(jwt) ==> env.decode(jwt.value, env.secret, now).Some? ==>
               env.decode(jwt.value, env.secret, now).value.userId != id
    ensures AuthenticateToken(SetSession(users, id, newToken, loginTime), jwt, env, now)
            == AuthenticateToken(users, jwt, env, now)
  {
    if Present(jwt) && env.decode(jwt.value, env.secret, now).Some? {
      var c := env.decode(jwt.value, env.secret, now).value;
      SetSessionKeepsOtherSessions(users, id, newToken, loginTime, c.userId, jwt.value);
    }
  }
}
