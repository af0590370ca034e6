/** `POST /api/auth/refresh` of the Next.js back end: token rotation from
    the `refreshToken` cookie. */
module RefreshRoute {

  import opened Wrappers
  import opened Http
  import opened UserTable
  import opened AuthLib
  import LoginRoute

  /** The handler; `cookie` is `request.cookies.get("refreshToken")?.value`. */
  function Refresh(cookie: Option<string>, users: seq<User>, jwt: Jwt, production: bool)
    : (r: Response<AuthBody<PublicUser>>)
    ensures r.status == 200 || r.status == 401
    // every failure deletes the cookie; only success sets one
    ensures r.status == 401 <==> r.cookie == DeleteCookie(RefreshCookieName)
    ensures r.status == 200 <==> r.cookie.SetCookie?
    ensures r.status == 401 ==> r.body.Error?
    ensures !Truthy(cookie) ==> r == Response(401, Error("Refresh token not found"), DeleteCookie(RefreshCookieName))
    ensures Truthy(cookie) && jwt.verify(cookie.value, RefreshSecret).None? ==>
      r == Response(401, Error("Invalid refresh token"), DeleteCookie(RefreshCookieName))
    ensures Truthy(cookie) && jwt.verify(cookie.value, RefreshSecret).Some? ==>
      var u := FindUnique(users, ById, jwt.verify(cookie.value, RefreshSecret).value.sub);
      && (u.None? ==> r == Response(401, Error("User not found"), DeleteCookie(RefreshCookieName)))
      // the new pair is issued from the stored user, not from the old claims
      && (u.Some? ==>
            var t := GenerateTokens(jwt, u.value.id, u.value.email, u.value.name);
            r == Response(200, Tokens(t.accessToken, "Tokens refreshed"),
                   SetCookie(RefreshCookieName, t.refreshToken, LoginRoute.RefreshCookieOptions(production))))
  {
    if !Truthy(cookie) then
      Response(401, Error("Refresh token not found"), DeleteCookie(RefreshCookieName))
    else
      match VerifyRefreshToken(jwt, cookie.value)
      case Failure(_) =>
        Response(401, Error("Invalid refresh token"), DeleteCookie(RefreshCookieName))
      case Success(payload) =>
        match FindUnique(users, ById, payload.sub)
        case None => Response(401, Error("User not found"), DeleteCookie(RefreshCookieName))
        case Some(u) =>
          var t := GenerateTokens(jwt, u.id, u.email, u.name);
          Response(200, Tokens(t.accessToken, "Tokens refreshed"),
            SetCookie(RefreshCookieName, t.refreshToken, LoginRoute.RefreshCookieOptions(production)))
  }
}
