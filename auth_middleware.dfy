/** Package middleware, auth_middleware.go: the gate in front of protected
    routes.  It reads the `Authorization` header (the bearer scheme of
    section 2.1 of RFC 6750), verifies the token with the fixed key, and
    either rejects the request or passes it on with the claims in its
    context.  Token parsing is the parameter `parse`. */
module AuthMiddleware {
  import opened Security
  import Http

  /** A rejection written with http.Error, or the one call of `next` with
      the claims stored under `contextKey`. */
  datatype Outcome = Rejected(status: int, message: string) | Forwarded(contextKey: string, claims: StandardClaims)

  const BearerPrefix: string := "Bearer "
  const ClaimsContextKey: string := "claims"
  const HeaderMissingText: string := "Authorization header missing"
  const InvalidTokenText: string := "Invalid token"
  const InvalidClaimsText: string := "Invalid token claims"

  predicate HasPrefix(s: string, prefix: string) {
    |prefix| <= |s| && s[..|prefix|] == prefix
  }

  /** strings.TrimPrefix: drops one leading copy of `prefix`, if present. */
  function TrimPrefix(s: string, prefix: string): (r: string)
    ensures HasPrefix(s, prefix) ==> prefix + r == s
    ensures !HasPrefix(s, prefix) ==> r == s
  {
    if HasPrefix(s, prefix) then s[|prefix|..] else s
  }

  /** The token sent as `Bearer <token>` is recovered exactly. */
  lemma BearerTokenRecovered(token: string)
    ensures TrimPrefix(BearerPrefix + token, BearerPrefix) == token
  {
    assert (BearerPrefix + token)[..|BearerPrefix|] == BearerPrefix;
  }

  /** The prefix match is case-sensitive: a header in the lower-case
      scheme `bearer <token>` is used whole, as the token. */
  lemma LowerCaseSchemeKept(token: string)
    ensures TrimPrefix("bearer " + token, BearerPrefix) == "bearer " + token
  {
    var header := "bearer " + token;
    if |BearerPrefix| <= |header| {
      assert header[..|BearerPrefix|][0] == 'b' != BearerPrefix[0];
    }
  }

  /** The middleware's decision for one request. */
  function Authenticate(header: string, parse: (string, string) -> ParsedToken): (o: Outcome)
    ensures header == "" ==> o == Rejected(Http.StatusUnauthorized, HeaderMissingText)
    ensures header != "" ==>
              var parsed := parse(TrimPrefix(header, BearerPrefix), HardCodedKey);
              && ((parsed.ParseFailed? || !parsed.valid) ==> o == Rejected(Http.StatusUnauthorized, InvalidTokenText))
              && (parsed == Parsed(true, OtherClaims) ==> o == Rejected(Http.StatusUnauthorized, InvalidClaimsText))
    ensures o.Forwarded? ==>
              && header != ""
              && o.contextKey == ClaimsContextKey
              && parse(TrimPrefix(header, BearerPrefix), HardCodedKey) == Parsed(true, Standard(o.claims))
    ensures o.Rejected? ==> o.status == Http.StatusUnauthorized
  {
    if header == "" then
      Rejected(Http.StatusUnauthorized, HeaderMissingText)
    else
      var token := TrimPrefix(header, BearerPrefix);
      match parse(token, HardCodedKey)
      case ParseFailed(_) => Rejected(Http.StatusUnauthorized, InvalidTokenText)
      case Parsed(valid, claims) =>
        if !valid then Rejected(Http.StatusUnauthorized, InvalidTokenText)
        else match claims
          case OtherClaims => Rejected(Http.StatusUnauthorized, InvalidClaimsText)
          case Standard(c) => Forwarded(ClaimsContextKey, c)
  }

  /** The decision depends on the parser only through what it answers for
      the fixed key: no configuration reaches the middleware. */
  lemma OnlyTheFixedKeyMatters(header: string, parse: (string, string) -> ParsedToken, other: (string, string) -> ParsedToken)
    requires forall t :: parse(t, HardCodedKey) == other(t, HardCodedKey)
    ensures Authenticate(header, parse) == Authenticate(header, other)
  {
  }
}
