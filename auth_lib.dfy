/** The token service of the Next.js back end (`AuthService` in
    src/lib/auth.ts): token issue and verification, and reading the caller
    from an `Authorization: Bearer` header. Signing and verifying are
    the `jsonwebtoken` library and appear here as the two functions of a
    `Jwt` value. */
module AuthLib {

  import opened Wrappers
  import opened UserTable

  /** The claims both tokens carry (`iat`/`exp` are the library's). */
  datatype JwtPayload = JwtPayload(sub: string, email: string, name: Option<string>)

  /** `JWT_ACCESS_SECRET` or `JWT_REFRESH_SECRET`. */
  datatype Secret = AccessSecret | RefreshSecret

  /** `jwt.sign(payload, secret, { expiresIn })` and `jwt.verify(token,
      secret)`; `verify` yields `None` where the library throws (bad
      signature, expired, malformed). */
  datatype Jwt = Jwt(
    sign: (JwtPayload, Secret, string) -> string,
    verify: (string, Secret) -> Option<JwtPayload>)

  const AccessLifetime: string := "15m"
  const RefreshLifetime: string := "7d"

  datatype AuthTokens = AuthTokens(accessToken: string, refreshToken: string)

  /** A signed token is a non-empty string that verifies, under the secret
      that signed it, to the payload it was signed with (expiry is not
      modelled). */
  ghost predicate Sound(jwt: Jwt) {
    forall p, s, life ::
      jwt.sign(p, s, life) != "" && jwt.verify(jwt.sign(p, s, life), s) == Some(p)
  }

  /** A token signed under one secret does not verify under the other. */
  ghost predicate SecretsSeparate(jwt: Jwt) {
    forall p, life ::
      jwt.verify(jwt.sign(p, AccessSecret, life), RefreshSecret).None? &&
      jwt.verify(jwt.sign(p, RefreshSecret, life), AccessSecret).None?
  }

  /** `generateTokens`: both tokens are signed from one payload. */
  function GenerateTokens(jwt: Jwt, userId: string, email: string, name: Option<string>): AuthTokens {
    var payload := JwtPayload(userId, email, name);
    AuthTokens(
      jwt.sign(payload, AccessSecret, AccessLifetime),
      jwt.sign(payload, RefreshSecret, RefreshLifetime))
  }

  /** `verifyAccessToken`: every library failure becomes one message. */
  function VerifyAccessToken(jwt: Jwt, token: string): (r: Result<JwtPayload, string>)
    ensures r.Failure? ==> r.error == "Invalid access token"
    ensures r.Success? <==> jwt.verify(token, AccessSecret).Some?
    ensures r.Success? ==> jwt.verify(token, AccessSecret) == Some(r.value)
  {
    match jwt.verify(token, AccessSecret)
    case Some(p) => Success(p)
    case None => Failure("Invalid access token")
  }

  /** `verifyRefreshToken`: every library failure becomes one message. */
  function VerifyRefreshToken(jwt: Jwt, token: string): (r: Result<JwtPayload, string>)
    ensures r.Failure? ==> r.error == "Invalid refresh token"
    ensures r.Success? <==> jwt.verify(token, RefreshSecret).Some?
    ensures r.Success? ==> jwt.verify(token, RefreshSecret) == Some(r.value)
  {
    match jwt.verify(token, RefreshSecret)
    case Some(p) => Success(p)
    case None => Failure("Invalid refresh token")
  }

  /** Both freshly issued tokens verify, each under its own secret, to the
      payload `{sub, email, name}` they were signed from. */
  lemma IssuedTokensVerify(jwt: Jwt, userId: string, email: string, name: Option<string>)
    requires Sound(jwt)
    ensures var t := GenerateTokens(jwt, userId, email, name);
      && VerifyAccessToken(jwt, t.accessToken) == Success(JwtPayload(userId, email, name))
      && VerifyRefreshToken(jwt, t.refreshToken) == Success(JwtPayload(userId, email, name))
      && t.refreshToken != ""
  {
    var p := JwtPayload(userId, email, name);
    assert jwt.verify(jwt.sign(p, AccessSecret, AccessLifetime), AccessSecret) == Some(p);
    assert jwt.verify(jwt.sign(p, RefreshSecret, RefreshLifetime), RefreshSecret) == Some(p);
    assert jwt.sign(p, RefreshSecret, RefreshLifetime) != "";
  }

  /** With distinct secrets neither token of a pair verifies as the other
      kind: a leaked access token cannot be used to refresh. */
  lemma TokenKindsNotInterchangeable(jwt: Jwt, userId: string, email: string, name: Option<string>)
    requires SecretsSeparate(jwt)
    ensures var t := GenerateTokens(jwt, userId, email, name);
      && VerifyRefreshToken(jwt, t.accessToken) == Failure("Invalid refresh token")
      && VerifyAccessToken(jwt, t.refreshToken) == Failure("Invalid access token")
  {
    var p := JwtPayload(userId, email, name);
    assert jwt.verify(jwt.sign(p, AccessSecret, AccessLifetime), RefreshSecret).None?;
    assert jwt.verify(jwt.sign(p, RefreshSecret, RefreshLifetime), AccessSecret).None?;
  }

  const BearerPrefix: string := "Bearer "

  /** The header test and `authHeader.substring(7)` of `getUserFromToken`. */
  function BearerToken(header: Option<string>): (r: Option<string>)
    ensures r.Some? <==> header.Some? && BearerPrefix <= header.value
    ensures r.Some? ==> header.value == BearerPrefix + r.value
  {
    if header.Some? && BearerPrefix <= header.value then Some(header.value[7..]) else None
  }

  /** Prefixing a token with "Bearer " and parsing the header give the
      token back. */
  lemma BearerRoundTrip(token: string)
    ensures BearerToken(Some(BearerPrefix + token)) == Some(token)
  {
    assert (BearerPrefix + token)[7..] == token;
  }

  /** The user `getUserFromToken` returns: the `select` of id, email, name
      and createdAt. */
  datatype PublicUser = PublicUser(id: string, email: string, name: Option<string>, createdAt: int)

  function Public(u: User): PublicUser {
    PublicUser(u.id, u.email, u.name, u.createdAt)
  }

  /** `getUserFromToken`: header, token and lookup failures all surface
      as the single error "Unauthorized". */
  function GetUserFromToken(header: Option<string>, jwt: Jwt, users: seq<User>): (r: Result<PublicUser, string>)
    ensures r.Failure? ==> r.error == "Unauthorized"
    ensures r.Success? <==>
      && BearerToken(header).Some?
      && jwt.verify(BearerToken(header).value, AccessSecret).Some?
      && FindUnique(users, ById, jwt.verify(BearerToken(header).value, AccessSecret).value.sub).Some?
    ensures r.Success? ==>
      exists u :: u in users && r.value == Public(u) &&
        u.id == jwt.verify(BearerToken(header).value, AccessSecret).value.sub
  {
    match BearerToken(header)
    case None => Failure("Unauthorized")
    case Some(token) =>
      match VerifyAccessToken(jwt, token)
      case Failure(_) => Failure("Unauthorized")
      case Success(payload) =>
        match FindUnique(users, ById, payload.sub)
        case None => Failure("Unauthorized")
        case Some(u) => Success(Public(u))
  }

  /** The header built from a freshly issued access token of a user still in
      the table identifies that user. */
  lemma IssuedAccessTokenIdentifies(jwt: Jwt, users: seq<User>, u: User)
    requires Sound(jwt) && Unique(users) && u in users
    ensures GetUserFromToken(
      Some(BearerPrefix + GenerateTokens(jwt, u.id, u.email, u.name).accessToken), jwt, users)
      == Success(Public(u))
  {
    var t := GenerateTokens(jwt, u.id, u.email, u.name);
    BearerRoundTrip(t.accessToken);
    IssuedTokensVerify(jwt, u.id, u.email, u.name);
    LookupFindsRow(users, u);
  }
}
