/** The NestJS `AuthService` (src/app/api/src/auth/auth.service.ts): a user
    table with a unique email, Argon2 password hashes and a JWT pair whose
    payload is `{sub, email}`. Signing, verifying and hashing are the
    libraries' and appear as function-valued fields. */
module AuthService {

  import opened Wrappers
  import opened Http
  import opened UserTable

  datatype LoginDto = LoginDto(email: string, password: string)

  /** This back end's registration carries no name. */
  datatype RegisterDto = RegisterDto(email: string, password: string)

  /** This back end's own payload, without `name`. The two back ends share
      no code and sign with different libraries (`@nestjs/jwt` here,
      `jsonwebtoken` in `AuthLib`), so each has its own `Jwt`, `Sound` and
      `SecretsSeparate` over its own payload. */
  datatype JwtPayload = JwtPayload(sub: string, email: string)

  datatype Secret = AccessSecret | RefreshSecret

  /** `jwtService.signAsync(payload, { secret, expiresIn })` and
      `jwtService.verify(token, { secret })`, `None` where it throws. */
  datatype Jwt = Jwt(
    sign: (JwtPayload, Secret, string) -> string,
    verify: (string, Secret) -> Option<JwtPayload>)

  datatype AuthTokens = AuthTokens(accessToken: string, refreshToken: string)

  /** What `validateUser` selects: id, email and createdAt only. */
  datatype ValidatedUser = ValidatedUser(id: string, email: string, createdAt: int)

  ghost predicate Sound(jwt: Jwt) {
    forall p, s, life ::
      jwt.sign(p, s, life) != "" && jwt.verify(jwt.sign(p, s, life), s) == Some(p)
  }

  ghost predicate SecretsSeparate(jwt: Jwt) {
    forall p, life ::
      jwt.verify(jwt.sign(p, AccessSecret, life), RefreshSecret).None? &&
      jwt.verify(jwt.sign(p, RefreshSecret, life), AccessSecret).None?
  }

  /** `argon2.verify(argon2.hash(p), p)` holds for every password. */
  ghost predicate HashVerifies(hash: string -> string, verifyPassword: (string, string) -> bool) {
    forall p :: verifyPassword(hash(p), p)
  }

  /** `generateTokens`: one payload, two secrets, 15 minutes and 7 days. */
  function GenerateTokens(jwt: Jwt, userId: string, email: string): AuthTokens {
    var payload := JwtPayload(userId, email);
    AuthTokens(
      jwt.sign(payload, AccessSecret, "15m"),
      jwt.sign(payload, RefreshSecret, "7d"))
  }

  /** The pair verifies to `{sub, email}`, each token under its own secret
      and not under the other, so the two tokens differ. */
  lemma IssuedTokensVerify(jwt: Jwt, userId: string, email: string)
    requires Sound(jwt) && SecretsSeparate(jwt)
    ensures var t := GenerateTokens(jwt, userId, email);
      && jwt.verify(t.accessToken, AccessSecret) == Some(JwtPayload(userId, email))
      && jwt.verify(t.refreshToken, RefreshSecret) == Some(JwtPayload(userId, email))
      && jwt.verify(t.accessToken, RefreshSecret).None?
      && t.refreshToken != "" && t.accessToken != t.refreshToken
  {
    var p := JwtPayload(userId, email);
    assert jwt.verify(jwt.sign(p, AccessSecret, "15m"), AccessSecret) == Some(p);
    assert jwt.verify(jwt.sign(p, RefreshSecret, "7d"), RefreshSecret) == Some(p);
    assert jwt.verify(jwt.sign(p, AccessSecret, "15m"), RefreshSecret).None?;
    assert jwt.sign(p, RefreshSecret, "7d") != "";
  }

  class AuthService {
    /** The `user` table behind `this.prisma.user`. */
    var users: seq<User>
    const jwt: Jwt
    /** `argon2.hash`. */
    const hash: string -> string
    /** `argon2.verify(hash, plaintext)`. */
    const verifyPassword: (string, string) -> bool

    ghost predicate Valid()
      reads this
    {
      Unique(users)
    }

    constructor (users0: seq<User>, jwt: Jwt, hash: string -> string, verifyPassword: (string, string) -> bool)
      requires Unique(users0)
      ensures Valid()
      ensures users == users0 && this.jwt == jwt && this.hash == hash && this.verifyPassword == verifyPassword
    {
      users := users0;
      this.jwt := jwt;
      this.hash := hash;
      this.verifyPassword := verifyPassword;
    }

    /** `register`. `newId` and `now` are the id and timestamp the database
        assigns to the new row. */
    method Register(dto: RegisterDto, newId: string, now: int) returns (r: Result<AuthTokens, HttpException>)
      requires Valid()
      requires FindUnique(users, ById, newId).None?
      modifies this
      ensures Valid()
      // a taken email is a conflict and creates nothing
      ensures FindUnique(old(users), ByEmail, dto.email).Some? ==>
        r == Failure(Conflict("User with this email already exists")) && users == old(users)
      // otherwise exactly one row, holding the hash and not the password
      ensures FindUnique(old(users), ByEmail, dto.email).None? ==>
        && users == old(users) + [User(newId, dto.email, None, hash(dto.password), now)]
        && r == Success(GenerateTokens(jwt, newId, dto.email))
      // and logging in with the same credentials then succeeds
      ensures r.Success? && HashVerifies(hash, verifyPassword) ==>
        Login(LoginDto(dto.email, dto.password)) == r
    {
      var existing := FindUnique(users, ByEmail, dto.email);
      if existing.Some? {
        return Failure(Conflict("User with this email already exists"));
      }
      var hashed := hash(dto.password);
      var user := User(newId, dto.email, None, hashed, now);
      AppendKeepsUnique(users, user);
      users := users + [user];
      LookupFindsRow(users, user);
      r := Success(GenerateTokens(jwt, user.id, user.email));
    }

    /** `login`: an unknown email and a wrong password fail alike. */
    function Login(dto: LoginDto): (r: Result<AuthTokens, HttpException>)
      reads this
      ensures r.Failure? ==> r.error == Unauthorized("Invalid credentials")
      ensures r.Success? <==>
        FindUnique(users, ByEmail, dto.email).Some? &&
        verifyPassword(FindUnique(users, ByEmail, dto.email).value.password, dto.password)
      ensures r.Success? ==>
        var u := FindUnique(users, ByEmail, dto.email).value;
        r.value == GenerateTokens(jwt, u.id, u.email)
    {
      match FindUnique(users, ByEmail, dto.email)
      case None => Failure(Unauthorized("Invalid credentials"))
      case Some(u) =>
        if !verifyPassword(u.password, dto.password) then Failure(Unauthorized("Invalid credentials"))
        else Success(GenerateTokens(jwt, u.id, u.email))
    }

    /** `refreshTokens`: its own "User not found" is caught by its own
        `catch`, so every failure reads "Invalid refresh token". */
    function RefreshTokens(refreshToken: string): (r: Result<AuthTokens, HttpException>)
      reads this
      ensures r.Failure? ==> r.error == Unauthorized("Invalid refresh token")
      ensures r.Success? <==>
        jwt.verify(refreshToken, RefreshSecret).Some? &&
        FindUnique(users, ById, jwt.verify(refreshToken, RefreshSecret).value.sub).Some?
      ensures r.Success? ==>
        var u := FindUnique(users, ById, jwt.verify(refreshToken, RefreshSecret).value.sub).value;
        r.value == GenerateTokens(jwt, u.id, u.email)
    {
      match jwt.verify(refreshToken, RefreshSecret)
      case None => Failure(Unauthorized("Invalid refresh token"))
      case Some(payload) =>
        match FindUnique(users, ById, payload.sub)
        case None => Failure(Unauthorized("Invalid refresh token"))
        case Some(u) => Success(GenerateTokens(jwt, u.id, u.email))
    }

    /** `validateUser`, used by the JWT guard. */
    function ValidateUser(payload: JwtPayload): (r: Result<ValidatedUser, HttpException>)
      reads this
      ensures r.Failure? <==> FindUnique(users, ById, payload.sub).None?
      ensures r.Failure? ==> r.error == Unauthorized("User not found")
      ensures r.Success? ==>
        exists u :: u in users && u.id == payload.sub &&
          r.value == ValidatedUser(u.id, u.email, u.createdAt)
    {
      match FindUnique(users, ById, payload.sub)
      case None => Failure(Unauthorized("User not found"))
      case Some(u) => Success(ValidatedUser(u.id, u.email, u.createdAt))
    }
  }

  /** The refresh token of a pair issued to a user still in the table
      refreshes to a pair for the same user. */
  lemma IssuedRefreshTokenRefreshes(s: AuthService, u: User)
    requires s.Valid() && Sound(s.jwt) && SecretsSeparate(s.jwt) && u in s.users
    ensures s.RefreshTokens(GenerateTokens(s.jwt, u.id, u.email).refreshToken)
         == Success(GenerateTokens(s.jwt, u.id, u.email))
  {
    IssuedTokensVerify(s.jwt, u.id, u.email);
    LookupFindsRow(s.users, u);
  }
}
