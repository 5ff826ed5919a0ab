/**
 * The signed-token service, seen only through its interface: signing,
 * parsing and the clock are not modelled. Each getter answers `None` where
 * the service answers `null` (a token it cannot parse, or a missing claim).
 */
module Tokens {
  import opened Wrappers
  import opened JavaLong
  import opened Http

  datatype TokenProvider = TokenProvider(
    /** `validateToken`: the signature checks out and the token has not expired. */
    validate: string -> bool,
    /** `getUsernameFromToken`: the subject claim. */
    subject: string -> Option<string>,
    /** `getTenantIdFromToken`: the `tenantId` claim, a string. */
    tenantClaim: string -> Option<string>,
    /** `getRoleFromToken`: the `role` claim. */
    roleClaim: string -> Option<string>,
    /** `isTokenExpired`: an expiration date exists and lies in the past. */
    isExpired: string -> bool,
    /** `generateTokenFromUsername(username, tenantId, role)`. */
    issue: (string, int, string) -> string,
    /** `getExpirationTime`: the configured lifetime in milliseconds. */
    expirationTime: int)

  /**
   * What the token service promises about a token it has just issued: it has
   * text, it validates, and it reads back the subject, the role and the
   * tenant id as `Long.toString` printed it.
   */
  ghost predicate IssuesReadableTokens(p: TokenProvider)
  {
    forall username, tenantId, role {:trigger p.issue(username, tenantId, role)} ::
      var token := p.issue(username, tenantId, role);
      && HasText(Some(token))
      && p.validate(token)
      && p.subject(token) == Some(username)
      && p.tenantClaim(token) == Some(ToString(tenantId))
      && p.roleClaim(token) == Some(role)
  }
}
