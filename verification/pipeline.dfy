/**
 * The pipeline end to end: a request passes the authentication gate, is
 * resolved to a tenant, and is judged by the access policy. The properties
 * here combine the components and describe the system as written.
 */
module Pipeline {
  import opened Wrappers
  import opened SchemaNames
  import opened JavaLong
  import opened Http
  import opened Tokens
  import opened TenantResolution
  import opened AuthenticationGate
  import opened AccessPolicy
  import opened Login

  /** The authority the gate grants for a role the login service issues. */
  function IssuedAuthority(role: UserRole): string
  {
    RoleAuthority(RoleName(role))
  }

  /** No role a login can put in a token reaches tenant management: every issued principal is denied there. */
  lemma IssuedRolesCannotManageTenants(role: UserRole, path: string)
    requires UnderTenants(path)
    ensures Decide(path, Principal([IssuedAuthority(role)])) == Deny
  {
    TenantsNeedSuperAdmin(path, Principal([IssuedAuthority(role)]));
    assert |IssuedAuthority(role)| < |"ROLE_SUPER_ADMIN"|;
  }

  /** Every issued role may use the resource endpoints; only `ADMIN` may manage users and audit logs. */
  lemma IssuedRolesOnProtectedEndpoints(role: UserRole, path: string)
    ensures UnderResources(path) ==> Decide(path, Principal([IssuedAuthority(role)])) == Permit
    ensures UnderUsers(path) ==> (Decide(path, Principal([IssuedAuthority(role)])) == Permit <==> role == ADMIN)
  {
    var p := Principal([IssuedAuthority(role)]);
    if UnderResources(path) {
      ResourcesNeedTenantRole(path, p);
    }
    if UnderUsers(path) {
      UsersNeedAdmin(path, p);
      assert |IssuedAuthority(role)| < |"ROLE_SUPER_ADMIN"|;
      assert role != ADMIN ==> IssuedAuthority(role) != "ROLE_ADMIN";
    }
  }

  /**
   * Every path the gate skips is public to the access policy, except the
   * look-alikes of `/api-docs` (such as `/api-docsX`) that the gate's
   * prefix test lets through but the policy protects.
   */
  lemma SkippedPathsArePublic(path: string)
    requires ShouldNotFilter(path)
    ensures IsPublicPath(path) || ("/api-docs" <= path && path != "/api-docs" && !("/api-docs/" <= path))
  {
  }

  /** `/api-docsX` is skipped by the gate and still refused to an anonymous caller. */
  lemma ApiDocsLookalike()
    ensures ShouldNotFilter("/api-docsX")
    ensures !IsPublicPath("/api-docsX")
    ensures Decide("/api-docsX", Anonymous) == Deny
  {
    var path := "/api-docsX";
    assert "/api-docs" <= path;
    assert path[9] == 'X' && path[2] == 'p';
    assert !IsPublicPath(path) by {
      assert path != "/api-docs" && path != "/api-docs/" && !("/api-docs/" <= path);
      if IsPublicPath(path) { PublicPathHead(path); }
    }
    AnonymousOnlyPublic(path);
  }

  /**
   * A request carrying a token the service issued, on a path the gate
   * inspects and without a tenant header: the gate records the token's
   * tenant id, but since that id is a number the request is routed to
   * `public`; the current-tenant query answers 1 and the current role is
   * the `ROLE_`-prefixed authority.
   */
  method TokenOnlyRequest(provider: TokenProvider, uri: string, username: string, tenantId: int, role: UserRole)
    returns (tenantAttribute: Option<string>, resolved: string, currentTenant: Result<int, AuthError>,
             currentRole: Result<string, AuthError>, chained: nat)
    requires IssuesReadableTokens(provider) && !ShouldNotFilter(uri)
    ensures tenantAttribute == Some(ToString(tenantId))
    ensures resolved == Default
    ensures currentTenant == Success(1)
    ensures currentRole == Success(IssuedAuthority(role))
    ensures chained == 1
  {
    var token := provider.issue(username, tenantId, RoleName(role));
    IssuedTokenIdentity(provider, username, tenantId, RoleName(role));
    var request := new HttpRequest(uri, map[AuthorizationHeader := BearerPrefix + token]);
    var context := new SecurityContext();
    var chain := new FilterChain();
    assert request.GetHeader(AuthorizationHeader) == Some(BearerPrefix + token);
    DoFilter(provider, request, context, chain);
    assert request.attributes[TenantIdAttribute] == ToString(tenantId);
    tenantAttribute := Some(request.attributes[TenantIdAttribute]);
    assert TenantHeader !in request.headers;
    AttributeFallback(request.headers, request.attributes);
    NumericIdSanitizesToDefault(tenantId);
    resolved := ResolveCurrentTenantIdentifier(request);
    currentTenant := GetCurrentTenantId(context.authentication);
    currentRole := GetCurrentUserRole(context.authentication);
    chained := chain.invocations;
  }

  /**
   * The same request with a non-blank `X-Tenant-ID` header: the header, not
   * the token's tenant, decides the schema, whichever tenant the token was
   * issued for.
   */
  method HeaderOverridesToken(provider: TokenProvider, uri: string, username: string, tenantId: int,
                              role: UserRole, header: string)
    returns (resolved: string, authenticated: bool)
    requires IssuesReadableTokens(provider) && !ShouldNotFilter(uri) && !IsBlank(header)
    ensures resolved == Sanitize(header)
    ensures authenticated
  {
    var token := provider.issue(username, tenantId, RoleName(role));
    IssuedTokenIdentity(provider, username, tenantId, RoleName(role));
    var request := new HttpRequest(uri, map[AuthorizationHeader := BearerPrefix + token, TenantHeader := header]);
    var context := new SecurityContext();
    var chain := new FilterChain();
    assert request.GetHeader(AuthorizationHeader) == Some(BearerPrefix + token);
    DoFilter(provider, request, context, chain);
    resolved := ResolveCurrentTenantIdentifier(request);
    authenticated := context.authentication.Some?;
  }

  /**
   * A request without a usable bearer token on an inspected path: nothing
   * is recorded, the request resolves to `public` and the security context
   * stays empty, yet the chain continues.
   */
  method UnauthenticatedRequest(provider: TokenProvider, uri: string, authorization: Option<string>)
    returns (resolved: string, authenticated: bool, chained: nat)
    requires RequestIdentity(provider, authorization).None?
    ensures resolved == Default && !authenticated && chained == 1
  {
    var headers: map<string, string> := if authorization.Some? then map[AuthorizationHeader := authorization.value] else map[];
    var request := new HttpRequest(uri, headers);
    var context := new SecurityContext();
    var chain := new FilterChain();
    assert request.GetHeader(AuthorizationHeader) == authorization;
    DoFilter(provider, request, context, chain);
    assert TenantHeader !in request.headers;
    resolved := ResolveCurrentTenantIdentifier(request);
    authenticated := context.authentication.Some?;
    chained := chain.invocations;
  }
}
