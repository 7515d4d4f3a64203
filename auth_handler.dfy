/**
 * api/auth_handler.go: logging in. An unknown email and a wrong password
 * get the same answer; a correct login returns the user and a token that
 * expires four hours after it was issued.
 */
module AuthHandler {
  import opened Wrappers
  import opened ObjectIds
  import opened GoTime
  import opened Mongo
  import opened UserTypes
  import opened UserStore
  import opened Jwt
  import opened Http

  datatype AuthParams = AuthParams(email: string, password: string)

  /** How long a token stays valid: four hours, in seconds. */
  const TokenLifetime: int := 4 * Hour

  /** invalidCredentials */
  const InvalidCredentials: Response := Response(StatusBadRequest, Generic("error", "invalid credentials"))

  /** The claims CreateTokenFromUser signs: the user's id and email and the expiry time. */
  function TokenClaims(user: User, now: Time): (claims: MapClaims)
    ensures claims.Keys == {"id", "email", "expires"}
    ensures claims["id"] == Text(Hex(user.id))
    ensures claims["email"] == Text(user.email)
    ensures claims["expires"] == Number(now + 14400)
  {
    map["id" := Text(Hex(user.id)), "email" := Text(user.email), "expires" := Number(now + TokenLifetime)]
  }

  /** CreateTokenFromUser at time `now`, with the JWT_SECRET value `secret`. */
  function CreateTokenFromUser(user: User, now: Time, secret: string): (t: Token)
    ensures t != EmptyHeader
    ensures Parse(t, secret) == Some(TokenClaims(user, now))
  {
    SignedString(HS256, TokenClaims(user, now), secret)
  }

  /**
   * POST /auth. `lookupFault` is a driver failure of the email lookup,
   * which is returned as it is; a missing user and a wrong password both
   * give the same 400 answer.
   */
  function HandleAuthenticate(users: MongoUserStore, body: Result<AuthParams, string>, now: Time, secret: string,
                              lookupFault: Option<string>): (resp: Response)
    reads users
    ensures body.Failure? ==> resp == ErrorHandler(Plain(body.error))
    ensures body.Success? && lookupFault.Some? ==> resp == ErrorHandler(Db(Driver(lookupFault.value)))
    ensures body.Success? && lookupFault.None? && (forall u :: u in users.users ==> u.email != body.value.email) ==>
      resp == InvalidCredentials
    ensures body.Success? && lookupFault.None? ==> resp.status == StatusOK || resp == InvalidCredentials
    ensures body.Success? && lookupFault.None? ==>
      (resp.status == StatusOK <==>
        exists u :: u in users.users && u.email == body.value.email &&
          u == users.GetUserByEmail(body.value.email, None).value &&
          ValidatePassword(u.encryptedPassword, body.value.password))
    ensures resp.status == StatusOK ==>
      body.Success? && resp.body.AuthJson? &&
      resp.body.user in users.users && resp.body.user.email == body.value.email &&
      ValidatePassword(resp.body.user.encryptedPassword, body.value.password) &&
      resp.body.token == CreateTokenFromUser(resp.body.user, now, secret)
  {
    match body
    case Failure(e) => ErrorHandler(Plain(e))
    case Success(params) =>
      var found := users.GetUserByEmail(params.email, lookupFault);
      match found
      case Failure(e) => if e == NoDocuments then InvalidCredentials else ErrorHandler(Db(e))
      case Success(user) =>
        if !CompareHashAndPassword(user.encryptedPassword, params.password) then InvalidCredentials
        else Ok(AuthJson(user, CreateTokenFromUser(user, now, secret)))
  }

  /** The stored password logs in; any other password is refused with the same answer as an unknown email. */
  lemma LoginNeedsThePassword(users: MongoUserStore, email: string, password: string, other: string, now: Time, secret: string)
    requires forall u :: u in users.users && u.email == email ==> u.encryptedPassword == Bcrypt(BcryptCost, password)
    requires exists u :: u in users.users && u.email == email
    requires other != password
    ensures HandleAuthenticate(users, Success(AuthParams(email, password)), now, secret, None).status == StatusOK
    ensures HandleAuthenticate(users, Success(AuthParams(email, other)), now, secret, None) == InvalidCredentials
  {
    var found := users.GetUserByEmail(email, None);
    assert found.Success? && found.value.encryptedPassword == Bcrypt(BcryptCost, password);
  }
}
