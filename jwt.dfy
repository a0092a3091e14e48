/** JSON Web Tokens as the core sees them: a claim set with issuer, audience and expiry.
    Serialisation and HMAC-SHA256 signing (`JwtSecurityTokenHandler.WriteToken`) and parsing
    (`ReadJwtToken`) are library code; they appear here as the `JwtHandler` pair of functions
    together with the laws the core relies on. */
module Jwt {
  import opened Wrappers

  /** `System.Security.Claims.ClaimTypes` constants used by the core. */
  const NameIdentifierClaim := "http://schemas.xmlsoap.org/ws/2005/05/identity/claims/nameidentifier"
  const NameClaim := "http://schemas.xmlsoap.org/ws/2005/05/identity/claims/name"
  const EmailClaim := "http://schemas.xmlsoap.org/ws/2005/05/identity/claims/emailaddress"

  datatype Claim = Claim(claimType: string, value: string)

  /** The filter `c => c.Type == ClaimTypes.NameIdentifier`. */
  predicate IsNameIdentifier(c: Claim)
  {
    c.claimType == NameIdentifierClaim
  }

  /** The payload of a token: "iss", "aud", the listed claims and "exp" in whole seconds since
      the Unix epoch. */
  datatype JwtSecurityToken = JwtSecurityToken(
    issuer: Option<string>,
    audience: Option<string>,
    claims: seq<Claim>,
    expires: nat)

  /** `write` is `WriteToken` (serialise and sign); `read` is `ReadJwtToken`, which parses the
      compact form without checking the signature and returns `None` where the library throws
      on malformed text. */
  datatype JwtHandler = JwtHandler(write: JwtSecurityToken -> string, read: string -> Option<JwtSecurityToken>)
  {
    /** Reading a written token gives its payload back, and a written token is never empty. */
    ghost predicate Lawful()
    {
      forall t {:trigger write(t)} :: read(write(t)) == Some(t) && write(t) != ""
    }
  }
}
