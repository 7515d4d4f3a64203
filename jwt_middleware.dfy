/**
 * api/middleware/jwt.go: JWTAuthentication. Public paths pass without a
 * token; every other request needs a valid, unexpired token naming a
 * stored user, who is then put in the request context.
 */
module JwtMiddleware {
  import opened Wrappers
  import opened ObjectIds
  import opened GoTime
  import opened Mongo
  import opened UserTypes
  import opened UserStore
  import opened Jwt
  import opened Http
  import opened AuthHandler

  /** The parts of a request the middleware looks at; `apiToken` is the X-Api-Token header. */
  datatype Request = Request(verb: string, path: string, apiToken: Token)

  /** What the middleware does: continue (with the user it put in context, if any), fail, or panic. */
  datatype Step = Next(user: Option<User>) | Halt(err: Error) | Panic

  const TokenExpired: string := "token expired"

  /** `sub` occurs in `s` starting at position `i`. */
  predicate OccursAt(s: string, sub: string, i: int) {
    0 <= i <= |s| - |sub| && s[i..i + |sub|] == sub
  }

  /** strings.Contains */
  predicate Contains(s: string, sub: string) {
    exists i :: 0 <= i <= |s| - |sub| && OccursAt(s, sub, i)
  }

  /** The public-route tests, in the order the middleware makes them. */
  predicate Skips(verb: string, path: string) {
    || verb == "OPTIONS"
    || Contains(path, "/auth")
    || (verb == "POST" && Contains(path, "/user"))
    || Contains(path, "/swagger")
    || (|path| > 8 && path[..8] == "/swagger")
  }

  /** The prefix test adds nothing: a path starting with "/swagger" contains it. */
  lemma SwaggerPrefixSubsumed(path: string)
    requires |path| > 8 && path[..8] == "/swagger"
    ensures Contains(path, "/swagger")
  {
    assert OccursAt(path, "/swagger", 0);
  }

  lemma SkipsWithoutPrefixTest(verb: string, path: string)
    ensures Skips(verb, path) <==>
      verb == "OPTIONS" || Contains(path, "/auth") ||
      (verb == "POST" && Contains(path, "/user")) || Contains(path, "/swagger")
  {
    if |path| > 8 && path[..8] == "/swagger" {
      SwaggerPrefixSubsumed(path);
    }
  }

  /** On a "/user" path that is not otherwise public, only POST (and OPTIONS) passes without a token. */
  lemma UserPathSkippedOnlyOnPost(verb: string, path: string)
    requires Contains(path, "/user") && !Contains(path, "/auth") && !Contains(path, "/swagger")
    ensures Skips(verb, path) <==> verb == "OPTIONS" || verb == "POST"
  {
    SkipsWithoutPrefixTest(verb, path);
  }

  lemma RegistrationPathIsPublic()
    ensures Skips("POST", "/api/v1/user")
  {
    assert OccursAt("/api/v1/user", "/user", 7);
  }

  /**
   * JWTAuthentication at Unix time `now` with JWT_SECRET `secret`. A
   * missing or non-numeric "expires" claim, or a non-string "id" claim,
   * makes the type assertion panic.
   */
  function JWTAuthentication(users: MongoUserStore, req: Request, now: Time, secret: string): (s: Step)
    reads users
    ensures Skips(req.verb, req.path) <==> s == Next(None)
    ensures !Skips(req.verb, req.path) && Parse(req.apiToken, secret).None? ==> s == Halt(Api(Unauthorized))
    ensures s == Halt(Api(WithCode(StatusUnauthorized, TokenExpired))) <==>
      !Skips(req.verb, req.path) && Parse(req.apiToken, secret).Some? &&
      var claims := Parse(req.apiToken, secret).value;
      "expires" in claims && claims["expires"].Number? && now > claims["expires"].n
    ensures s.Next? && s.user.Some? ==>
      !Skips(req.verb, req.path) && Parse(req.apiToken, secret).Some? &&
      var claims := Parse(req.apiToken, secret).value;
      "expires" in claims && claims["expires"].Number? && now <= claims["expires"].n &&
      "id" in claims && claims["id"].Text? && ObjectIdFromHex(claims["id"].s) == Some(s.user.value.id) &&
      s.user.value in users.users
    ensures !Skips(req.verb, req.path) && Parse(req.apiToken, secret).Some? ==>
      var claims := Parse(req.apiToken, secret).value;
      && (s == Panic <==>
            !("expires" in claims && claims["expires"].Number?) ||
            (now <= claims["expires"].n && !("id" in claims && claims["id"].Text?)))
      && ("expires" in claims && claims["expires"].Number? && now <= claims["expires"].n &&
          "id" in claims && claims["id"].Text? ==>
            s == match users.GetUserByID(claims["id"].s)
                 case Failure(_) => Halt(Api(Unauthorized))
                 case Success(user) => Next(Some(user)))
  {
    if Skips(req.verb, req.path) then Next(None)
    else if req.apiToken == EmptyHeader then Halt(Api(Unauthorized))
    else
      match Parse(req.apiToken, secret)
      case None => Halt(Api(Unauthorized))
      case Some(claims) =>
        if "expires" !in claims || !claims["expires"].Number? then Panic
        else if now > claims["expires"].n then Halt(Api(WithCode(StatusUnauthorized, TokenExpired)))
        else if "id" !in claims || !claims["id"].Text? then Panic
        else
          match users.GetUserByID(claims["id"].s)
          case Failure(_) => Halt(Api(Unauthorized))
          case Success(user) => Next(Some(user))
  }

  /**
   * A token issued at `issued` to a stored user is accepted at `t`
   * exactly when `t` is at most four hours later; after that it is
   * refused as expired. It never makes the middleware panic.
   */
  lemma TokenLifetimeHolds(users: MongoUserStore, user: User, issued: Time, t: Time, secret: string,
                           verb: string, path: string)
    requires !Skips(verb, path)
    requires users.Valid() && user in users.users
    ensures var s := JWTAuthentication(users, Request(verb, path, CreateTokenFromUser(user, issued, secret)), t, secret);
      && (s.Next? <==> t <= issued + TokenLifetime)
      && (s.Next? ==> s.user == Some(user))
      && (t > issued + TokenLifetime ==> s == Halt(Api(WithCode(StatusUnauthorized, TokenExpired))))
      && !s.Panic?
  {
    HexRoundTrip(user.id);
    var k :| 0 <= k < |users.users| && users.users[k] == user;
    assert HasKey(users.users, UserKey, user.id);
    var found := users.GetUserByID(Hex(user.id));
    var j :| 0 <= j < |users.users| && users.users[j] == found.value;
    assert j == k;
  }
}
