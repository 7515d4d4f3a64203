/**
 * golang-jwt, kept symbolic: a signed token remembers its signing method,
 * its claims and the key it was signed with; any other header text is
 * `Garbled`, and the empty header is Garbled("").
 */
module Jwt {
  import opened Wrappers

  /** A claim value as jwt.MapClaims holds it after parsing: a string or a number. */
  datatype Claim = Text(s: string) | Number(n: int)

  type MapClaims = map<string, Claim>

  datatype SigningMethod = HS256 | HS384 | HS512 | RS256 | ES256 | NoneMethod

  /** token.Method.(*jwt.SigningMethodHMAC) */
  predicate IsHmac(m: SigningMethod) {
    m == HS256 || m == HS384 || m == HS512
  }

  datatype Token = Signed(alg: SigningMethod, claims: MapClaims, key: string) | Garbled(text: string)

  const EmptyHeader: Token := Garbled("")

  /** jwt.NewWithClaims(method, claims).SignedString(key) */
  function SignedString(alg: SigningMethod, claims: MapClaims, key: string): (t: Token)
    ensures t != EmptyHeader
  {
    Signed(alg, claims, key)
  }

  /**
   * jwt.Parse with a key function that accepts only HMAC methods and
   * returns `secret`: the claims come back exactly when the token is an
   * HMAC token signed with that secret.
   */
  function Parse(t: Token, secret: string): (r: Option<MapClaims>)
    ensures r.Some? <==> t.Signed? && IsHmac(t.alg) && t.key == secret
    ensures r.Some? ==> r.value == t.claims
  {
    if t.Signed? && IsHmac(t.alg) && t.key == secret then Some(t.claims) else None
  }

  lemma SignParseRoundTrip(claims: MapClaims, key: string)
    ensures Parse(SignedString(HS256, claims, key), key) == Some(claims)
  {
  }
}
