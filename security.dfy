/** The JSON Web Token (RFC 7519) and bcrypt pieces the authentication code
    relies on.  Hashing, comparing and HS256 signing (section 3.2 of
    RFC 7518) are uninterpreted: a `Crypto` value supplies them, and nothing
    is assumed about them beyond their signatures. */
module Security {
  import opened Wrappers
  import opened Records
  import opened ErrorUtils
  import Decimal

  /** jwt.StandardClaims, reduced to the two claims this code sets. */
  datatype StandardClaims = StandardClaims(expiresAt: int, subject: string)

  /** The dynamic type of a parsed token's claims. */
  datatype Claims = Standard(standard: StandardClaims) | OtherClaims

  /** What jwt.ParseWithClaims hands back: an error, or a token with its
      validity flag and claims. */
  datatype ParsedToken = ParseFailed(error: GoError) | Parsed(valid: bool, claims: Claims)

  /** bcrypt.GenerateFromPassword, bcrypt.CompareHashAndPassword (true when
      it returns nil) and Token.SignedString with HS256. */
  datatype Crypto = Crypto(
    generateFromPassword: string -> Result<string, GoError>,
    compareHashAndPassword: (string, string) -> bool,
    signedString: (StandardClaims, string) -> Result<string, GoError>)

  /** The signing key written into the handler and the middleware. */
  const HardCodedKey: string := "your_secret_key"

  /** `24 * time.Hour`, in seconds. */
  const TokenLifetime: int := 24 * 60 * 60

  /** The claims of a login token: the member id in decimal as subject, and
      an expiry one day after `now`. */
  function LoginClaims(memberId: int, now: Time): (c: StandardClaims)
    ensures c.expiresAt == now + TokenLifetime
    ensures Decimal.MinInt64 <= memberId <= Decimal.MaxInt64 ==> Decimal.Atoi(c.subject) == Some(memberId)
  {
    var c := StandardClaims(now + TokenLifetime, Decimal.Itoa(memberId));
    assert Decimal.MinInt64 <= memberId <= Decimal.MaxInt64 ==> Decimal.Atoi(c.subject) == Some(memberId) by {
      if Decimal.MinInt64 <= memberId <= Decimal.MaxInt64 {
        Decimal.AtoiItoa(memberId);
      }
    }
    c
  }

  /** Two login tokens carry the same subject only for the same member. */
  lemma SubjectIdentifiesMember(a: int, b: int, now: Time, later: Time)
    requires Decimal.MinInt64 <= a <= Decimal.MaxInt64 && Decimal.MinInt64 <= b <= Decimal.MaxInt64
    requires LoginClaims(a, now).subject == LoginClaims(b, later).subject
    ensures a == b
  {
    Decimal.ItoaInjective(a, b);
  }
}
