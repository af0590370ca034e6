/** The NestJS `AuthController` (src/app/api/src/auth/auth.controller.ts):
    it turns the service's tokens into a body and a cookie, and Nest turns
    thrown exceptions into error responses. */
module AuthController {

  import opened Wrappers
  import opened Http
  import opened UserTable
  import opened AuthService

  /** The options of `response.cookie`: no `path` is passed here. */
  function CookieOptionsFor(production: bool): CookieOptions {
    CookieOptions(true, production, "strict", RefreshCookieMaxAge, None)
  }

  /** Nest's answer to an exception thrown by a handler. */
  function ErrorResponse<U>(e: HttpException): (r: Response<AuthBody<U>>)
    ensures r.status == e.Status() && r.cookie == KeepCookie
    ensures r.body == Exception(e.Status(), e.message)
  {
    Response(e.Status(), Exception(e.Status(), e.message), KeepCookie)
  }

  /** The response a handler gives for a pair of tokens. */
  function TokenResponse<U>(status: int, t: AuthTokens, message: string, production: bool): Response<AuthBody<U>> {
    Response(status, Tokens(t.accessToken, message),
      SetCookie(RefreshCookieName, t.refreshToken, CookieOptionsFor(production)))
  }

  /** `POST /auth/register` (Nest's default status for POST is 201). */
  method Register(service: AuthService, dto: RegisterDto, newId: string, now: int, production: bool)
    returns (r: Response<AuthBody<ValidatedUser>>)
    requires service.Valid() && FindUnique(service.users, ById, newId).None?
    modifies service
    ensures service.Valid()
    ensures r.status == 201 <==> FindUnique(old(service.users), ByEmail, dto.email).None?
    ensures r.status == 201 ==>
      r == TokenResponse(201, GenerateTokens(service.jwt, newId, dto.email), "Registration successful", production)
    ensures r.status != 201 ==>
      r == ErrorResponse(Conflict("User with this email already exists")) && service.users == old(service.users)
  {
    var tokens := service.Register(dto, newId, now);
    match tokens
    case Failure(e) => r := ErrorResponse(e);
    case Success(t) => r := TokenResponse(201, t, "Registration successful", production);
  }

  /** `POST /auth/login`, answered with 200. */
  function Login(service: AuthService, dto: LoginDto, production: bool): (r: Response<AuthBody<ValidatedUser>>)
    reads service
    ensures r.status == 200 || r == ErrorResponse(Unauthorized("Invalid credentials"))
    ensures r.status == 200 <==> service.Login(dto).Success?
    ensures r.cookie.SetCookie? <==> r.status == 200
    ensures r.status == 200 ==>
      r.body == Tokens(service.Login(dto).value.accessToken, "Login successful") &&
      r.cookie == SetCookie(RefreshCookieName, service.Login(dto).value.refreshToken, CookieOptionsFor(production))
  {
    match service.Login(dto)
    case Failure(e) => ErrorResponse(e)
    case Success(t) => TokenResponse(200, t, "Login successful", production)
  }

  /** `POST /auth/refresh`, answered with 200. A missing cookie throws a
      plain `Error`, which Nest answers with 500, before the service is
      called. */
  function Refresh(service: AuthService, cookie: Option<string>, production: bool)
    : (r: Response<AuthBody<ValidatedUser>>)
    reads service
    ensures !Truthy(cookie) ==> r == ErrorResponse(InternalError("Internal server error"))
    ensures Truthy(cookie) ==>
      (r.status == 200 <==> service.RefreshTokens(cookie.value).Success?)
    ensures Truthy(cookie) && r.status != 200 ==> r == ErrorResponse(Unauthorized("Invalid refresh token"))
    ensures r.cookie.SetCookie? <==> r.status == 200
    ensures r.status == 200 ==>
      r == TokenResponse(200, service.RefreshTokens(cookie.value).value, "Tokens refreshed", production)
  {
    if !Truthy(cookie) then ErrorResponse(InternalError("Internal server error"))
    else
      match service.RefreshTokens(cookie.value)
      case Failure(e) => ErrorResponse(e)
      case Success(t) => TokenResponse(200, t, "Tokens refreshed", production)
  }

  /** `POST /auth/logout`: clears the cookie unconditionally. */
  function Logout<U>(): (r: Response<AuthBody<U>>)
    ensures r.status == 200
    ensures r.body == Message("Logout successful")
    ensures r.cookie == DeleteCookie(RefreshCookieName)
  {
    Response(200, Message("Logout successful"), DeleteCookie(RefreshCookieName))
  }

  /** `GET /auth/me`: `{ user: request.user }`, the user the JWT guard
      attached to the request. */
  function GetProfile<U>(requestUser: U): (r: Response<AuthBody<U>>)
    ensures r.status == 200 && r.body == Profile(requestUser) && r.cookie == KeepCookie
  {
    Response(200, Profile(requestUser), KeepCookie)
  }

  /** A token response never puts the refresh token in its body: the body's
      token is the access token, which differs from the cookie's. */
  lemma BodyNeverCarriesRefreshToken(service: AuthService, dto: LoginDto, production: bool)
    requires Sound(service.jwt) && SecretsSeparate(service.jwt)
    requires Login(service, dto, production).status == 200
    ensures Login(service, dto, production).body.accessToken
         != Login(service, dto, production).cookie.value
  {
    var u := FindUnique(service.users, ByEmail, dto.email).value;
    IssuedTokensVerify(service.jwt, u.id, u.email);
  }
}
