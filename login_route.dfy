/** `POST /api/auth/login` of the Next.js back end. */
module LoginRoute {

  import opened Wrappers
  import opened Http
  import opened UserTable
  import opened AuthLib

  /** The JSON body; `None` when `request.json()` throws. */
  datatype LoginRequest = LoginRequest(email: Option<string>, password: Option<string>)

  /** The options both Next.js token endpoints set the cookie with;
      `secure` is `NODE_ENV === "production"`. */
  function RefreshCookieOptions(production: bool): CookieOptions {
    CookieOptions(true, production, "strict", RefreshCookieMaxAge, Some("/"))
  }

  /** The handler. `verifyPassword` is `argon2.verify(hash, plaintext)`. */
  function Login(
    body: Option<LoginRequest>, users: seq<User>,
    verifyPassword: (string, string) -> bool, jwt: Jwt, production: bool
  ): (r: Response<AuthBody<PublicUser>>)
    // an exception (unreadable body) is the only 500
    ensures r.status == 500 <==> body.None?
    ensures r.status == 500 ==> r.body == Error("Internal server error")
    // missing fields are rejected before any lookup
    ensures r.status == 400 <==>
      body.Some? && !(Truthy(body.value.email) && Truthy(body.value.password))
    ensures r.status == 400 ==> r.body == Error("Email and password are required")
    // success exactly when the email is known and the password checks
    ensures r.status == 200 <==>
      && body.Some? && Truthy(body.value.email) && Truthy(body.value.password)
      && FindUnique(users, ByEmail, body.value.email.value).Some?
      && verifyPassword(FindUnique(users, ByEmail, body.value.email.value).value.password, body.value.password.value)
    ensures r.status in {200, 400, 401, 500}
    // one generic message for both credential failures
    ensures r.status == 401 ==> r.body == Error("Invalid credentials")
    // the cookie is set on success only, and never deleted
    ensures r.cookie.SetCookie? <==> r.status == 200
    ensures !r.cookie.DeleteCookie?
    ensures r.status == 200 ==>
      var u := FindUnique(users, ByEmail, body.value.email.value).value;
      var t := GenerateTokens(jwt, u.id, u.email, u.name);
      && r.body == Tokens(t.accessToken, "Login successful")
      && r.cookie == SetCookie(RefreshCookieName, t.refreshToken, RefreshCookieOptions(production))
  {
    match body
    case None => Response(500, Error("Internal server error"), KeepCookie)
    case Some(req) =>
      if !Truthy(req.email) || !Truthy(req.password) then
        Response(400, Error("Email and password are required"), KeepCookie)
      else
        match FindUnique(users, ByEmail, req.email.value)
        case None => Response(401, Error("Invalid credentials"), KeepCookie)
        case Some(u) =>
          if !verifyPassword(u.password, req.password.value) then
            Response(401, Error("Invalid credentials"), KeepCookie)
          else
            var t := GenerateTokens(jwt, u.id, u.email, u.name);
            Response(200, Tokens(t.accessToken, "Login successful"),
              SetCookie(RefreshCookieName, t.refreshToken, RefreshCookieOptions(production)))
  }

  /** An unknown email and a wrong password for a known one produce the
      same response, so the endpoint does not reveal which accounts exist. */
  lemma NoAccountEnumeration(
    unknown: LoginRequest, wrong: LoginRequest, users: seq<User>,
    verifyPassword: (string, string) -> bool, jwt: Jwt, production: bool)
    requires Truthy(unknown.email) && Truthy(unknown.password)
    requires Truthy(wrong.email) && Truthy(wrong.password)
    requires FindUnique(users, ByEmail, unknown.email.value).None?
    requires FindUnique(users, ByEmail, wrong.email.value).Some?
    requires !verifyPassword(FindUnique(users, ByEmail, wrong.email.value).value.password, wrong.password.value)
    ensures Login(Some(unknown), users, verifyPassword, jwt, production)
         == Login(Some(wrong), users, verifyPassword, jwt, production)
         == Response(401, Error("Invalid credentials"), KeepCookie)
  {
  }
}
