/** What the HTTP handlers of both back ends produce: a status, a JSON body
    and at most one action on the `refreshToken` cookie of the response. */
module Http {

  import opened Wrappers

  /** Attributes passed to `cookies.set` (Next.js) or `response.cookie`
      (Express). `maxAge` is the number the source passes, 7*24*60*60*1000;
      `path` is absent where the source does not pass one. */
  datatype CookieOptions = CookieOptions(
    httpOnly: bool,
    secure: bool,
    sameSite: string,
    maxAge: int,
    path: Option<string>)

  /** The effect a response has on one cookie. */
  datatype CookieAction =
    | KeepCookie
    | SetCookie(name: string, value: string, options: CookieOptions)
    | DeleteCookie(name: string)

  datatype Response<B> = Response(status: int, body: B, cookie: CookieAction)

  const RefreshCookieName: string := "refreshToken"

  /** `7 * 24 * 60 * 60 * 1000`, the `maxAge` both back ends pass. */
  const RefreshCookieMaxAge: int := 7 * 24 * 60 * 60 * 1000

  /** JSON bodies of the session endpoints. `U` is the shape of the user
      the profile endpoint returns. */
  datatype AuthBody<U> =
    | Tokens(accessToken: string, message: string)
    | Error(error: string)
    | Message(message: string)
    | Profile(user: U)
    | Exception(statusCode: int, message: string)

  /** NestJS exceptions and the status codes Nest answers them with; an
      error that is not an `HttpException` becomes a 500. */
  datatype HttpException =
    | BadRequest(message: string)
    | Unauthorized(message: string)
    | NotFound(message: string)
    | Conflict(message: string)
    | InternalError(message: string)
  {
    function Status(): (s: int)
      ensures 400 <= s <= 500
      ensures s == 401 <==> Unauthorized?
      ensures s == 409 <==> Conflict?
    {
      match this
      case BadRequest(_) => 400
      case Unauthorized(_) => 401
      case NotFound(_) => 404
      case Conflict(_) => 409
      case InternalError(_) => 500
    }
  }

  /** The browser's copy of the refresh cookie after it receives a response
      with action `a`. */
  function ApplyCookie(jar: Option<string>, a: CookieAction): (r: Option<string>)
    ensures a.SetCookie? && a.name == RefreshCookieName ==> r == Some(a.value)
    ensures a.DeleteCookie? && a.name == RefreshCookieName ==> r == None
    ensures a.KeepCookie? ==> r == jar
  {
    match a
    case KeepCookie => jar
    case SetCookie(name, value, _) => if name == RefreshCookieName then Some(value) else jar
    case DeleteCookie(name) => if name == RefreshCookieName then None else jar
  }
}
