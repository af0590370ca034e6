/** How the Next.js session endpoints compose when a browser carries the
    `refreshToken` cookie from one response to the next request. */
module SessionFlows {

  import opened Wrappers
  import opened Http
  import opened UserTable
  import opened AuthLib
  import opened LoginRoute
  import opened RefreshRoute
  import opened LogoutRoute
  import opened MeRoute

  /** After a successful login, the cookie it set refreshes to a new pair
      for the same user, and its access token opens the profile endpoint. */
  lemma LoginThenRefreshAndMe(
    req: LoginRequest, users: seq<User>, verifyPassword: (string, string) -> bool,
    jwt: Jwt, production: bool, jar: Option<string>)
    requires Sound(jwt) && Unique(users)
    requires Login(Some(req), users, verifyPassword, jwt, production).status == 200
    ensures var login := Login(Some(req), users, verifyPassword, jwt, production);
      var u := FindUnique(users, ByEmail, req.email.value).value;
      && Refresh(ApplyCookie(jar, login.cookie), users, jwt, production).status == 200
      && Refresh(ApplyCookie(jar, login.cookie), users, jwt, production).body
         == Tokens(GenerateTokens(jwt, u.id, u.email, u.name).accessToken, "Tokens refreshed")
      && Me(Some(BearerPrefix + login.body.accessToken), jwt, users)
         == Response(200, Profile(Public(u)), KeepCookie)
  {
    var u := FindUnique(users, ByEmail, req.email.value).value;
    var t := GenerateTokens(jwt, u.id, u.email, u.name);
    IssuedTokensVerify(jwt, u.id, u.email, u.name);
    LookupFindsRow(users, u);
    IssuedAccessTokenIdentifies(jwt, users, u);
  }

  /** A refresh that succeeds hands the browser a cookie that itself
      refreshes successfully while the user still exists: rotation can go
      on indefinitely. */
  lemma RefreshRotates(cookie: Option<string>, users: seq<User>, jwt: Jwt, production: bool)
    requires Sound(jwt) && Unique(users)
    requires Refresh(cookie, users, jwt, production).status == 200
    ensures var next := ApplyCookie(cookie, Refresh(cookie, users, jwt, production).cookie);
      Refresh(next, users, jwt, production).status == 200
  {
    var u := FindUnique(users, ById, jwt.verify(cookie.value, RefreshSecret).value.sub).value;
    IssuedTokensVerify(jwt, u.id, u.email, u.name);
    LookupFindsRow(users, u);
  }

  /** Logout ends the session whatever cookie the browser held: the next
      refresh finds no cookie. Logging out again changes nothing. */
  lemma LogoutEndsSession(jar: Option<string>, users: seq<User>, jwt: Jwt, production: bool)
    ensures ApplyCookie(jar, Logout().cookie) == None
    ensures ApplyCookie(ApplyCookie(jar, Logout().cookie), Logout().cookie)
         == ApplyCookie(jar, Logout().cookie)
    ensures Refresh(ApplyCookie(jar, Logout().cookie), users, jwt, production)
         == Response(401, Error("Refresh token not found"), DeleteCookie(RefreshCookieName))
  {
  }

  /** A rejected refresh leaves the browser without a refresh cookie. */
  lemma RejectedRefreshClearsCookie(cookie: Option<string>, jar: Option<string>,
    users: seq<User>, jwt: Jwt, production: bool)
    requires Refresh(cookie, users, jwt, production).status != 200
    ensures ApplyCookie(jar, Refresh(cookie, users, jwt, production).cookie) == None
  {
  }
}
