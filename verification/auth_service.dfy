/**
 * The login service (`AuthServiceImpl`): the ordered guards of a login, the
 * token and audit entry a successful one produces, token validation, the
 * current-user queries over the security context, and logout.
 */
module Login {
  import opened Wrappers
  import opened JavaLong
  import opened Http
  import opened Tokens
  import opened Tenants
  import opened TenantRegistry
  import opened Database

  /** `User.UserRole`. */
  datatype UserRole = ADMIN | MANAGER | EMPLOYEE

  /** `role.name()`. */
  function RoleName(role: UserRole): string
  {
    match role
    case ADMIN => "ADMIN"
    case MANAGER => "MANAGER"
    case EMPLOYEE => "EMPLOYEE"
  }

  /** The user fields the login reads; `passwordHash` is the stored hash. */
  datatype User = User(id: int, username: string, passwordHash: string, role: UserRole, tenantId: int, isActive: bool)

  /** The collaborators behind the login: the user lookup by (username, tenant id) and the password matcher. */
  datatype UserDirectory = UserDirectory(
    findByUsernameAndTenantId: (string, int) -> Option<User>,
    matches: (string, string) -> bool)

  /** A login request; the tenant id arrives as text and may be `null`. */
  datatype AuthRequest = AuthRequest(username: string, password: string, tenantId: Option<string>)

  datatype AuthResponse = AuthResponse(
    token: string,
    tokenType: string,
    userId: int,
    username: string,
    role: UserRole,
    tenantId: int,
    tenantName: string,
    expiresIn: int)

  /** The exceptions of the login service. */
  datatype AuthError =
    | NumberFormat
    | NoSuchTenant(tenantId: int)
    | UserNotFound(username: string)
    | AccountDeactivated
    | InvalidCredentials
    | NoAuthenticatedUser
    | NoSuchElement

  datatype AuditEntry = UserLogin(userId: int, tenantId: int) | UserLogout(userId: int, tenantId: int)

  /** The audit log, append-only. */
  class AuditTrail {
    var entries: seq<AuditEntry>

    constructor ()
      ensures entries == []
    {
      entries := [];
    }

    method Append(entry: AuditEntry)
      modifies this
      ensures entries == old(entries) + [entry]
    {
      entries := entries + [entry];
    }
  }

  /** `Long.parseLong` of a possibly-`null` string; `null` fails like malformed text. */
  function ParseTenantId(text: Option<string>): (r: Option<int>)
    ensures text.None? ==> r.None?
    ensures text.Some? ==> r == ParseLong(text.value)
  {
    if text.None? then None else ParseLong(text.value)
  }

  /**
   * The guards of `authenticate`, in order; the first that fails decides.
   * Success yields the user and the parsed tenant id.
   */
  function CheckLogin(request: AuthRequest, tenants: map<int, Tenant>, users: UserDirectory): (r: Result<(User, int), AuthError>)
    ensures r.Success? <==>
              && ParseTenantId(request.tenantId).Some?
              && ParseTenantId(request.tenantId).value in tenants
              && users.findByUsernameAndTenantId(request.username, ParseTenantId(request.tenantId).value).Some?
              && users.findByUsernameAndTenantId(request.username, ParseTenantId(request.tenantId).value).value.isActive
              && users.matches(request.password,
                               users.findByUsernameAndTenantId(request.username, ParseTenantId(request.tenantId).value).value.passwordHash)
    ensures r.Success? ==>
              && r.value.1 == ParseTenantId(request.tenantId).value
              && Some(r.value.0) == users.findByUsernameAndTenantId(request.username, r.value.1)
  {
    match ParseTenantId(request.tenantId)
    case None => Failure(NumberFormat)
    case Some(tenantId) =>
      if tenantId !in tenants then Failure(NoSuchTenant(tenantId))
      else
        match users.findByUsernameAndTenantId(request.username, tenantId)
        case None => Failure(UserNotFound(request.username))
        case Some(user) =>
          if !user.isActive then Failure(AccountDeactivated)
          else if !users.matches(request.password, user.passwordHash) then Failure(InvalidCredentials)
          else Success((user, tenantId))
  }

  /** A tenant id that does not parse fails the login before any lookup, whatever the repositories hold. */
  lemma ParseFailsFirst(request: AuthRequest, tenants: map<int, Tenant>, users: UserDirectory)
    requires ParseTenantId(request.tenantId).None?
    ensures CheckLogin(request, tenants, users) == Failure(NumberFormat)
  {
  }

  /**
   * The guard order: an unknown tenant, then an unknown user, then a
   * deactivated account, then a wrong password.
   */
  lemma GuardOrder(request: AuthRequest, tenants: map<int, Tenant>, users: UserDirectory, tenantId: int)
    requires ParseTenantId(request.tenantId) == Some(tenantId)
    ensures tenantId !in tenants ==> CheckLogin(request, tenants, users) == Failure(NoSuchTenant(tenantId))
    ensures tenantId in tenants && users.findByUsernameAndTenantId(request.username, tenantId).None? ==>
              CheckLogin(request, tenants, users) == Failure(UserNotFound(request.username))
    ensures tenantId in tenants && users.findByUsernameAndTenantId(request.username, tenantId).Some?
            && !users.findByUsernameAndTenantId(request.username, tenantId).value.isActive ==>
              CheckLogin(request, tenants, users) == Failure(AccountDeactivated)
  {
  }

  /** A deactivated account is refused whatever password is given and whatever the matcher says. */
  lemma DeactivatedBeforePassword(request: AuthRequest, tenants: map<int, Tenant>, users: UserDirectory,
                                  password: string, matches: (string, string) -> bool)
    requires CheckLogin(request, tenants, users) == Failure(AccountDeactivated)
    ensures CheckLogin(request.(password := password), tenants, users.(matches := matches)) == Failure(AccountDeactivated)
  {
  }

  /**
   * The tenant's activity flag plays no part: flipping it (with the same
   * tenant ids registered) never changes the outcome of a login.
   */
  lemma TenantActivityIgnored(request: AuthRequest, tenants: map<int, Tenant>, users: UserDirectory, id: int, active: bool)
    requires id in tenants
    ensures CheckLogin(request, WithActive(tenants, id, active), users) == CheckLogin(request, tenants, users)
  {
    assert WithActive(tenants, id, active).Keys == tenants.Keys;
  }

  /**
   * `authenticate`. A failed guard issues nothing and logs nothing; a login
   * that passes them issues a token for the user's name, the tenant id and
   * the role name, appends one login entry and answers with the tenant's name
   * and the configured lifetime.
   */
  method Authenticate(request: AuthRequest, registry: TenantService, users: UserDirectory,
                      provider: TokenProvider, audit: AuditTrail) returns (r: Result<AuthResponse, AuthError>)
    modifies audit
    ensures match CheckLogin(request, registry.tenants, users)
            case Failure(e) => r == Failure(e) && audit.entries == old(audit.entries)
            case Success((user, tenantId)) =>
              && r == Success(AuthResponse(provider.issue(user.username, tenantId, RoleName(user.role)), "Bearer",
                                           user.id, user.username, user.role, tenantId,
                                           registry.tenants[tenantId].name, provider.expirationTime))
              && audit.entries == old(audit.entries) + [UserLogin(user.id, tenantId)]
  {
    var checked := CheckLogin(request, registry.tenants, users);
    if checked.Failure? {
      return Failure(checked.error);
    }
    var (user, tenantId) := checked.value;
    var token := provider.issue(user.username, tenantId, RoleName(user.role));
    audit.Append(UserLogin(user.id, tenantId));
    var tenant := registry.FindEntityById(tenantId);
    r := Success(AuthResponse(token, "Bearer", user.id, user.username, user.role, tenantId,
                              tenant.value.name, provider.expirationTime));
  }

  /** `validateToken`: the signature check and the expiry check must both pass. */
  function ValidateToken(provider: TokenProvider, token: string): (r: bool)
    ensures r ==> provider.validate(token) && !provider.isExpired(token)
    ensures provider.validate(token) && !provider.isExpired(token) ==> r
  {
    provider.validate(token) && !provider.isExpired(token)
  }

  /** `getCurrentTenantId`: 1 for any authentication with details, whoever it is; otherwise an error. */
  function GetCurrentTenantId(authentication: Option<Authentication>): (r: Result<int, AuthError>)
    ensures r.Success? <==> authentication.Some? && authentication.value.hasDetails
    ensures r.Success? ==> r.value == 1
    ensures r.Failure? ==> r.error == NoAuthenticatedUser
  {
    if authentication.Some? && authentication.value.hasDetails then Success(1) else Failure(NoAuthenticatedUser)
  }

  /** `getCurrentUsername`: the principal's name. */
  function GetCurrentUsername(authentication: Option<Authentication>): (r: Result<string, AuthError>)
    ensures r.Success? <==> authentication.Some?
    ensures r.Success? ==> r.value == authentication.value.principal
  {
    if authentication.Some? then Success(authentication.value.principal) else Failure(NoAuthenticatedUser)
  }

  /** `getCurrentUserRole`: the first granted authority string, `ROLE_` prefix included. */
  function GetCurrentUserRole(authentication: Option<Authentication>): (r: Result<string, AuthError>)
    ensures authentication.None? ==> r == Failure(NoAuthenticatedUser)
    ensures authentication.Some? && authentication.value.authorities == [] ==> r == Failure(NoSuchElement)
    ensures r.Success? ==> authentication.Some? && r.value == authentication.value.authorities[0]
    ensures authentication.Some? && authentication.value.authorities != [] ==>
              r == Success(authentication.value.authorities[0])
  {
    if authentication.None? then Failure(NoAuthenticatedUser)
    else if authentication.value.authorities == [] then Failure(NoSuchElement)
    else Success(authentication.value.authorities[0])
  }

  /** The tenant id the security context reports does not depend on who is authenticated. */
  lemma CurrentTenantIdIgnoresIdentity(a: Authentication, b: Authentication)
    requires a.hasDetails && b.hasDetails
    ensures GetCurrentTenantId(Some(a)) == GetCurrentTenantId(Some(b)) == Success(1)
  {
  }

  /**
   * `logout`: with both claims present, the tenant claim is parsed (a
   * malformed one throws) and a logout entry is appended only for a user
   * that exists; in every other case nothing happens.
   */
  method Logout(provider: TokenProvider, users: UserDirectory, audit: AuditTrail, token: string)
    returns (r: Result<(), AuthError>)
    modifies audit
    ensures var username := provider.subject(token);
            var claim := provider.tenantClaim(token);
            && (username.None? || claim.None? ==> r == Success(()) && audit.entries == old(audit.entries))
            && (username.Some? && claim.Some? && ParseLong(claim.value).None? ==>
                  r == Failure(NumberFormat) && audit.entries == old(audit.entries))
            && (username.Some? && claim.Some? && ParseLong(claim.value).Some? ==>
                  var tenantId := ParseLong(claim.value).value;
                  && r == Success(())
                  && audit.entries == match users.findByUsernameAndTenantId(username.value, tenantId)
                                      case None => old(audit.entries)
                                      case Some(user) => old(audit.entries) + [UserLogout(user.id, tenantId)])
  {
    var username := provider.subject(token);
    var claim := provider.tenantClaim(token);
    if username.None? || claim.None? {
      return Success(());
    }
    var parsed := ParseLong(claim.value);
    if parsed.None? {
      return Failure(NumberFormat);
    }
    var user := users.findByUsernameAndTenantId(username.value, parsed.value);
    if user.Some? {
      audit.Append(UserLogout(user.value.id, parsed.value));
    }
    r := Success(());
  }

  /**
   * A tenant registered and then deactivated still admits its users: the
   * login looks the tenant up by id and never reads its activity flag.
   */
  method LoginAfterDeactivation(dto: TenantDto, users: UserDirectory, provider: TokenProvider, user: User, password: string)
    returns (r: Result<AuthResponse, AuthError>, tenantActive: bool, entries: seq<AuditEntry>)
    requires ValidDto(dto)
    requires users.findByUsernameAndTenantId(user.username, 1) == Some(user)
    requires user.isActive && users.matches(password, user.passwordHash)
    ensures !tenantActive
    ensures r.Success? && r.value.tenantId == 1 && r.value.tenantName == dto.name && r.value.userId == user.id
    ensures entries == [UserLogin(user.id, 1)]
  {
    var registry := RegisterThenDeactivate(dto);
    tenantActive := registry.tenants[1].isActive;
    ParseToString(1);
    var request := AuthRequest(user.username, password, Some(ToString(1)));
    assert CheckLogin(request, registry.tenants, users) == Success((user, 1));
    var audit := new AuditTrail();
    r := Authenticate(request, registry, users, provider, audit);
    entries := audit.entries;
  }
}
