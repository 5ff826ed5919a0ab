/**
 * The authentication gate (`JwtAuthenticationFilter`): once per request it
 * extracts a bearer token, and only if the token validates and carries all
 * three claims it copies them into request attributes and installs an
 * authentication with the single authority `ROLE_<role>`. It fails open:
 * on every other path nothing is written, and the chain always continues.
 */
module AuthenticationGate {
  import opened Wrappers
  import opened Http
  import opened Tokens
  import JavaLong

  /** The authentication scheme prefix of section 2.1 of RFC 6750, matched case-sensitively. */
  const BearerPrefix: string := "Bearer "

  /** The claims the filter copies out of a token. */
  datatype Identity = Identity(username: string, tenantId: string, role: string)

  /**
   * `getJwtFromRequest`, given the `Authorization` header: the text after
   * `Bearer ` exactly when the header has text and starts with that prefix.
   * The `hasText` test adds nothing, since the prefix itself is text.
   */
  function GetJwtFromRequest(authorization: Option<string>): (jwt: Option<string>)
    ensures jwt.Some? <==> authorization.Some? && BearerPrefix <= authorization.value
    ensures jwt.Some? ==> authorization.value == BearerPrefix + jwt.value
  {
    BearerHeaderHasText(authorization);
    if HasText(authorization) && BearerPrefix <= authorization.value then
      Some(authorization.value[|BearerPrefix|..])
    else
      None
  }

  /** A header that starts with the bearer prefix has text: its `B` is not whitespace. */
  lemma BearerHeaderHasText(header: Option<string>)
    ensures header.Some? && BearerPrefix <= header.value ==> HasText(header)
  {
    if header.Some? && BearerPrefix <= header.value {
      assert !IsJavaWhitespace(header.value[0]);
    }
  }

  /** Every token comes back out of the header it was put in. */
  lemma BearerRoundTrip(token: string)
    ensures GetJwtFromRequest(Some(BearerPrefix + token)) == Some(token)
  {
    var h := BearerPrefix + token;
    assert BearerPrefix <= h;
    assert h[|BearerPrefix|..] == token;
  }

  /**
   * `shouldNotFilter`: the paths the filter skips. Four prefixes end with a
   * slash; `/api-docs` does not, so `/api-docsX` is skipped as well.
   */
  predicate ShouldNotFilter(path: string)
  {
    || "/auth/" <= path
    || "/h2-console/" <= path
    || "/swagger-ui/" <= path
    || "/api-docs" <= path
    || "/actuator/" <= path
    || path == "/favicon.ico"
    || path == "/error"
  }

  /**
   * The identity a request proves, if any: the token has text, validates,
   * and all three claims are present.
   */
  function VerifiedIdentity(provider: TokenProvider, jwt: Option<string>): (id: Option<Identity>)
    ensures id.Some? <==>
              && HasText(jwt)
              && provider.validate(jwt.value)
              && provider.subject(jwt.value).Some?
              && provider.tenantClaim(jwt.value).Some?
              && provider.roleClaim(jwt.value).Some?
    ensures id.Some? ==>
              && Some(id.value.username) == provider.subject(jwt.value)
              && Some(id.value.tenantId) == provider.tenantClaim(jwt.value)
              && Some(id.value.role) == provider.roleClaim(jwt.value)
  {
    if HasText(jwt) && provider.validate(jwt.value) then
      var username := provider.subject(jwt.value);
      var tenantId := provider.tenantClaim(jwt.value);
      var role := provider.roleClaim(jwt.value);
      if username.Some? && tenantId.Some? && role.Some? then
        Some(Identity(username.value, tenantId.value, role.value))
      else
        None
    else
      None
  }

  /** The authority Spring's `hasRole(role)` checks for. */
  function RoleAuthority(role: string): (authority: string)
    ensures |authority| == |role| + 5 && authority[..5] == "ROLE_" && authority[5..] == role
  {
    "ROLE_" + role
  }

  /** The identity of the request, given its `Authorization` header. */
  function RequestIdentity(provider: TokenProvider, authorization: Option<string>): Option<Identity>
  {
    VerifiedIdentity(provider, GetJwtFromRequest(authorization))
  }

  /**
   * What the filter leaves behind for a request with the given identity:
   * nothing for none; for one, the three request attributes and an
   * authentication carrying the `ROLE_`-prefixed role and details.
   */
  predicate Recorded(identity: Option<Identity>, attributesBefore: map<string, string>,
                     authenticationBefore: Option<Authentication>,
                     attributes: map<string, string>, authentication: Option<Authentication>)
  {
    match identity
    case None =>
      attributes == attributesBefore && authentication == authenticationBefore
    case Some(id) =>
      && attributes == attributesBefore[TenantIdAttribute := id.tenantId]
                                       [UsernameAttribute := id.username]
                                       [UserRoleAttribute := id.role]
      && authentication == Some(Authentication(id.username, [RoleAuthority(id.role)], true))
  }

  /** `doFilterInternal`. */
  method DoFilterInternal(provider: TokenProvider, request: HttpRequest, context: SecurityContext, chain: FilterChain)
    modifies request, context, chain
    ensures chain.invocations == old(chain.invocations) + 1
    ensures Recorded(RequestIdentity(provider, request.GetHeader(AuthorizationHeader)),
                     old(request.attributes), old(context.authentication),
                     request.attributes, context.authentication)
  {
    var jwt := GetJwtFromRequest(request.GetHeader(AuthorizationHeader));
    var identity := VerifiedIdentity(provider, jwt);
    if identity.Some? {
      var id := identity.value;
      request.SetAttribute(TenantIdAttribute, Some(id.tenantId));
      request.SetAttribute(UsernameAttribute, Some(id.username));
      request.SetAttribute(UserRoleAttribute, Some(id.role));
      context.SetAuthentication(Authentication(id.username, [RoleAuthority(id.role)], true));
    }
    chain.DoFilter(request);
  }

  /**
   * The filter as the container invokes it (`OncePerRequestFilter.doFilter`):
   * a skipped path goes straight down the chain with nothing written.
   */
  method DoFilter(provider: TokenProvider, request: HttpRequest, context: SecurityContext, chain: FilterChain)
    modifies request, context, chain
    ensures chain.invocations == old(chain.invocations) + 1
    ensures ShouldNotFilter(request.uri) ==>
              request.attributes == old(request.attributes) && context.authentication == old(context.authentication)
    ensures !ShouldNotFilter(request.uri) ==>
              Recorded(RequestIdentity(provider, request.GetHeader(AuthorizationHeader)),
                       old(request.attributes), old(context.authentication),
                       request.attributes, context.authentication)
  {
    if ShouldNotFilter(request.uri) {
      chain.DoFilter(request);
    } else {
      DoFilterInternal(provider, request, context, chain);
    }
  }

  /**
   * A token the service issued, presented as a bearer token, proves exactly
   * the identity it was issued for; its tenant id is the decimal text of the
   * numeric id.
   */
  lemma IssuedTokenIdentity(provider: TokenProvider, username: string, tenantId: int, role: string)
    requires IssuesReadableTokens(provider)
    ensures RequestIdentity(provider, Some(BearerPrefix + provider.issue(username, tenantId, role)))
            == Some(Identity(username, JavaLong.ToString(tenantId), role))
  {
    BearerRoundTrip(provider.issue(username, tenantId, role));
  }
}
