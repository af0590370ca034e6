/** `POST /api/auth/logout` of the Next.js back end. It reads nothing from
    the request, so it takes no input. */
module LogoutRoute {

  import opened Http
  import opened AuthLib

  function Logout(): (r: Response<AuthBody<PublicUser>>)
    ensures r.status == 200
    ensures r.body == Message("Logout successful")
    ensures r.cookie == DeleteCookie(RefreshCookieName)
  {
    Response(200, Message("Logout successful"), DeleteCookie(RefreshCookieName))
  }
}
