/** `GET /api/auth/me` of the Next.js back end. */
module MeRoute {

  import opened Wrappers
  import opened Http
  import opened UserTable
  import opened AuthLib

  function Me(header: Option<string>, jwt: Jwt, users: seq<User>): (r: Response<AuthBody<PublicUser>>)
    ensures r.status == 200 || r.status == 401
    ensures r.cookie == KeepCookie
    // the user exactly as getUserFromToken gives it, or one error, never both
    ensures r.status == 200 <==> GetUserFromToken(header, jwt, users).Success?
    ensures r.status == 200 ==> r.body == Profile(GetUserFromToken(header, jwt, users).value)
    ensures r.status == 401 ==> r.body == Error("Unauthorized")
  {
    match GetUserFromToken(header, jwt, users)
    case Success(user) => Response(200, Profile(user), KeepCookie)
    case Failure(_) => Response(401, Error("Unauthorized"), KeepCookie)
  }
}
