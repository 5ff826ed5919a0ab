# Tenant isolation in the workation platform, modelled in Dafny

The workation back end serves several tenants from one PostgreSQL database.
Each tenant has its own schema. This project models the path that keeps those
tenants apart, and proves what that path guarantees and what it does not.

- **Authentication gate** (`JwtAuthenticationFilter`). It reads the bearer
  token of a request. If the token validates and carries a subject, a tenant
  id and a role, it copies them into request attributes and builds the
  security context's authentication.
- **Tenant resolver** (`TenantIdentifierResolver`). It picks the tenant: the
  `X-Tenant-ID` header first, then the `tenantId` attribute, then `public`.
- **Schema router** (`MultiTenantConnectionProvider`). It creates the
  tenant's schema on first use, with a cache of known names. It binds each
  connection to that schema, falls back to `public` when either step fails,
  and resets connections to `public` on release.
- **Schema-name sanitiser**. It is shared by the router and the resolver.
  It trims, keeps `[a-zA-Z0-9_]`, requires a leading letter, cuts to 63
  characters, lower-cases, and otherwise answers `public`.
- **Access policy** (`SecurityConfig`). A first-match table from request
  path to required role.
- **Login service** (`AuthServiceImpl`). It checks its guards in a fixed
  order, then issues a token and writes an audit entry. It also covers token
  validation, logout and the current-user queries.
- **Tenant registry** (`TenantServiceImpl`, `Tenant`). It covers create,
  update, delete, activate and deactivate over the tenant table and the set
  of schemas.

Modules, one per file:

| module | file | contents |
|---|---|---|
| `Wrappers` | `wrappers.dfy` | `Option` and `Result` |
| `JavaLong` | `java_long.dfy` | `Long.parseLong` and `Long.toString` |
| `SchemaNames` | `schema_names.dfy` | `trim`, blank test, character filter, lower-casing, the sanitiser and its algebra |
| `Database` | `database.dfy` | the three SQL statements; a database object holding the set of schemas and the log of statements sent |
| `Http` | `http.dfy` | request (headers, mutable attributes), security context, filter chain, `StringUtils.hasText` |
| `Tokens` | `token_provider.dfy` | the token service as a value of functions |
| `SchemaRouting` | `connection_provider.dfy` | the schema router as a class over the cache, the database and the connection |
| `TenantResolution` | `tenant_resolver.dfy` | the resolver |
| `AuthenticationGate` | `auth_filter.dfy` | the filter |
| `AccessPolicy` | `access_policy.dfy` | the rule table and its per-path consequences |
| `Tenants` | `tenant.dfy` | the tenant record |
| `TenantRegistry` | `tenant_service.dfy` | the registry as a class over the tenant map and the database |
| `Login` | `auth_service.dfy` | the login service |
| `Pipeline` | `pipeline.dfy` | filter, resolver and policy combined |

Any statement can fail, and the model cannot know in advance which will.
Each method that sends one therefore takes a flag saying whether it fails.
The contracts state the outcome for both values.

Behaviours of the code as written, each proved:

- A tenant id taken from a token never routes to a tenant schema.
  `Long.toString` prints a digit (or `-` and then a digit), and the sanitiser
  maps any input whose first kept character is a digit to `public`. This is
  `TenantResolution.NumericIdSanitizesToDefault`. End to end, it is
  `Pipeline.TokenOnlyRequest`.
- The `X-Tenant-ID` header overrides the token, whichever tenant the token
  names (`Pipeline.HeaderOverridesToken`).
- `../etc; DROP` sanitises to `etcdrop`, not to `public`
  (`SchemaNames.SanitizeTraversalExample`).
- The schema cache is keyed by the raw name, while the SQL uses the
  sanitised name. Two spellings of one schema therefore each send a
  `CREATE SCHEMA` (`SchemaRouting.RawKeyedCache`).
- Login never reads the tenant's activity flag
  (`Login.TenantActivityIgnored`, `Login.LoginAfterDeactivation`).
- No role a login can issue passes the `/tenants/**` rule
  (`Pipeline.IssuedRolesCannotManageTenants`).
- The filter skips every path that starts with `/api-docs`, for example
  `/api-docsX`. The policy makes only `/api-docs` and `/api-docs/...`
  public (`Pipeline.ApiDocsLookalike`).

## Model

Source paths are relative to the repository root.

| member | source | states |
|---|---|---|
| `JavaLong.ParseLong` | workation/src/main/java/com/workflex/workation/service/impl/AuthServiceImpl.java:39 | a parsed value always lies in the `long` range; `None` stands for `NumberFormatException` |
| `JavaLong.ParseToString` | workation/src/main/java/com/workflex/workation/config/JwtTokenProvider.java:38 | parsing the text `Long.toString` printed gives back the number |
| `JavaLong.ToStringShape` | workation/src/main/java/com/workflex/workation/config/JwtTokenProvider.java:38 | the printed id is non-empty and all digits, except possibly a leading `-` that is followed by a digit |
| `SchemaNames.Sanitize` | workation/src/main/java/com/workflex/workation/config/MultiTenantConnectionProvider.java:110-129 | the result is `public` or a lower-case identifier of 1 to 63 characters from `[a-z0-9_]` that starts with a letter |
| `SchemaNames.BlankIffTrimEmpty` | workation/src/main/java/com/workflex/workation/config/MultiTenantConnectionProvider.java:111 | the blank test holds exactly when Java's `trim()` leaves nothing, so exactly when no character is above U+0020 |
| `SchemaNames.SanitizeByWordChars` | workation/src/main/java/com/workflex/workation/config/MultiTenantConnectionProvider.java:111-128 | on every input, the sanitiser agrees with a reading that looks only at the input's `[a-zA-Z0-9_]` characters; trimming and the blank test never change the outcome |
| `SchemaNames.SanitizeIdempotent` | workation/src/main/java/com/workflex/workation/config/MultiTenantConnectionProvider.java:110-129 | sanitising twice is sanitising once |
| `SchemaNames.IdentifierIsFixedPoint` | workation/src/main/java/com/workflex/workation/config/MultiTenantConnectionProvider.java:110-129 | a well-formed identifier passes through unchanged |
| `SchemaNames.SanitizeDefault` | workation/src/main/java/com/workflex/workation/config/MultiTenantConnectionProvider.java:112 | `public` sanitises to itself |
| `SchemaNames.SanitizeDefaultIff` | workation/src/main/java/com/workflex/workation/config/MultiTenantConnectionProvider.java:111-121 | the result is `public` exactly when the input has no word character, or its first one is not a letter, or its word characters lower-case to `public` |
| `SchemaNames.PatternNameSanitizesToLowerCase` | workation/src/main/java/com/workflex/workation/config/MultiTenantConnectionProvider.java:116-128 | a name of the tenant pattern of at most 63 characters becomes its lower-case form; it becomes `public` only if it spells `public` in some letter case |
| `SchemaNames.DigitLeadingSanitizesToDefault` | workation/src/main/java/com/workflex/workation/config/MultiTenantConnectionProvider.java:119-121 | an input whose first kept character is a digit becomes `public` |
| `SchemaNames.SanitizeMixedCaseExample` | workation/src/main/java/com/workflex/workation/config/TenantIdentifierResolver.java:61-81 | `Acme_1` becomes `acme_1` |
| `SchemaNames.SanitizeTraversalExample` | workation/src/main/java/com/workflex/workation/config/TenantIdentifierResolver.java:68-80 | `../etc; DROP` becomes `etcdrop`, not `public` |
| `SchemaNames.SanitizeDefaultExamples` | workation/src/main/java/com/workflex/workation/config/TenantIdentifierResolver.java:63-73 | a blank input and `42` both become `public` |
| `Database.ApplyStatement` | workation/src/main/java/com/workflex/workation/service/impl/TenantServiceImpl.java:195-209 | `CREATE SCHEMA IF NOT EXISTS` adds exactly its schema, `DROP SCHEMA IF EXISTS … CASCADE` removes exactly its schema, `SET search_path` changes no schema |
| `Database.DdlIdempotent` | workation/src/main/java/com/workflex/workation/config/MultiTenantConnectionProvider.java:90 | each statement, run twice, has the effect of running it once |
| `Database.Db.Execute` | workation/src/main/java/com/workflex/workation/config/MultiTenantConnectionProvider.java:88-91 | every statement is logged; a failed one changes no schema; a successful one applies its effect |
| `SchemaRouting.SchemaNameOf` | workation/src/main/java/com/workflex/workation/config/MultiTenantConnectionProvider.java:42 | a null identifier means `public`; otherwise the identifier's text |
| `SchemaRouting.FreshBindStatements` | workation/src/main/java/com/workflex/workation/config/MultiTenantConnectionProvider.java:41-47 | a checkout of an uncached name with no failure sends the `CREATE` and then the bind, nothing else |
| `SchemaRouting.CachedBindStatements` | workation/src/main/java/com/workflex/workation/config/MultiTenantConnectionProvider.java:41-47 | a checkout of a cached name with no failure sends only the bind |
| `SchemaRouting.MultiTenantConnectionProvider.IsSchemaInCache` | workation/src/main/java/com/workflex/workation/config/MultiTenantConnectionProvider.java:150-152 | true exactly for cache keys |
| `SchemaRouting.MultiTenantConnectionProvider.ClearSchemaCache` | workation/src/main/java/com/workflex/workation/config/MultiTenantConnectionProvider.java:134-137 | the cache is empty afterwards |
| `SchemaRouting.MultiTenantConnectionProvider.RemoveSchemaFromCache` | workation/src/main/java/com/workflex/workation/config/MultiTenantConnectionProvider.java:142-145 | exactly the given key goes; every other entry stays as it was |
| `SchemaRouting.MultiTenantConnectionProvider.CreateSchemaIfNotExists` | workation/src/main/java/com/workflex/workation/config/MultiTenantConnectionProvider.java:82-101 | a cached raw name sends nothing and changes nothing; otherwise one `CREATE` of the sanitised name is sent; on success the schema exists and the raw name is cached; on failure neither changes and the failure is reported |
| `SchemaRouting.MultiTenantConnectionProvider.SetSchema` | workation/src/main/java/com/workflex/workation/config/MultiTenantConnectionProvider.java:103-108 | one `SET search_path` to the sanitised name; on success the connection is bound to it, on failure it keeps its old schema |
| `SchemaRouting.MultiTenantConnectionProvider.SetDefaultSchema` | workation/src/main/java/com/workflex/workation/config/MultiTenantConnectionProvider.java:56 | the fallback bind sends `SET search_path TO public` and, on success, leaves the connection on `public` |
| `SchemaRouting.MultiTenantConnectionProvider.TryBind` | workation/src/main/java/com/workflex/workation/config/MultiTenantConnectionProvider.java:41-51 | the `try` block: the create is skipped on a cache hit; the bind is attempted only if the create did not throw; the statements sent, in order |
| `SchemaRouting.MultiTenantConnectionProvider.Checkout` | workation/src/main/java/com/workflex/workation/config/MultiTenantConnectionProvider.java:37-64 | when create and bind succeed, the connection is on the sanitised tenant schema; otherwise it falls back to `public`, and only a failed fallback is an error; the cache only gains the raw name; the exact statement sequence sent |
| `SchemaRouting.MultiTenantConnectionProvider.GetConnection` | workation/src/main/java/com/workflex/workation/config/MultiTenantConnectionProvider.java:37-64 | a null identifier is routed as `public`; a routed connection is on the sanitised schema; otherwise success is exactly a successful fallback |
| `SchemaRouting.MultiTenantConnectionProvider.ReleaseConnection` | workation/src/main/java/com/workflex/workation/config/MultiTenantConnectionProvider.java:66-75 | the connection always goes back to the pool; a successful reset leaves it on `public`; a failed reset is swallowed |
| `SchemaRouting.RepeatedCheckout` | workation/src/main/java/com/workflex/workation/config/MultiTenantConnectionProvider.java:84-94 | a second checkout for the same raw name sends no `CREATE`, and both connections are on the tenant schema |
| `SchemaRouting.RawKeyedCache` | workation/src/main/java/com/workflex/workation/config/MultiTenantConnectionProvider.java:84-94 | two raw spellings of one schema each send a `CREATE`; evicting one spelling leaves the other cached |
| `SchemaRouting.CaseVariantsShareSchema` | workation/src/main/java/com/workflex/workation/config/MultiTenantConnectionProvider.java:128 | a pattern-valid name and its lower-case form route to the same schema |
| `SchemaRouting.CheckoutThenRelease` | workation/src/main/java/com/workflex/workation/config/MultiTenantConnectionProvider.java:66-75 | after a checkout, a release returns the connection to the pool on `public`, or on the tenant schema if the reset failed |
| `Http.HttpRequest.GetHeader` | workation/src/main/java/com/workflex/workation/config/TenantIdentifierResolver.java:28 | the header's value if present, otherwise null |
| `Http.HttpRequest.SetAttribute` | workation/src/main/java/com/workflex/workation/config/TenantIdentifierResolver.java:90 | sets one attribute; a null value removes it |
| `Http.HttpRequest.RemoveAttribute` | workation/src/main/java/com/workflex/workation/config/TenantIdentifierResolver.java:101 | removes exactly one attribute |
| `Http.SecurityContext.SetAuthentication` | workation/src/main/java/com/workflex/workation/config/JwtAuthenticationFilter.java:52 | the context holds the given authentication |
| `Http.FilterChain.DoFilter` | workation/src/main/java/com/workflex/workation/config/JwtAuthenticationFilter.java:61 | counts one more pass down the chain |
| `TenantResolution.Resolve` | workation/src/main/java/com/workflex/workation/config/TenantIdentifierResolver.java:22-49 | the resolved tenant is `public` or a well-formed identifier |
| `TenantResolution.ResolveCurrentTenantIdentifier` | workation/src/main/java/com/workflex/workation/config/TenantIdentifierResolver.java:22-49 | the same over the bound request; with no bound request the tenant is `public` |
| `TenantResolution.ValidateExistingCurrentSessions` | workation/src/main/java/com/workflex/workation/config/TenantIdentifierResolver.java:52-54 | always true |
| `TenantResolution.SetCurrentTenantId` | workation/src/main/java/com/workflex/workation/config/TenantIdentifierResolver.java:86-92 | only the `tenantId` attribute changes (null removes it); with no usable header the request then resolves to the sanitised value |
| `TenantResolution.ClearCurrentTenantId` | workation/src/main/java/com/workflex/workation/config/TenantIdentifierResolver.java:97-103 | only the `tenantId` attribute goes; with no usable header the request then resolves to `public` |
| `TenantResolution.HeaderTakesPrecedence` | workation/src/main/java/com/workflex/workation/config/TenantIdentifierResolver.java:28-33 | a non-blank header decides alone, whatever the attributes hold |
| `TenantResolution.AttributeFallback` | workation/src/main/java/com/workflex/workation/config/TenantIdentifierResolver.java:36-41 | without a usable header, the sanitised `tenantId` attribute decides |
| `TenantResolution.DefaultWhenUnidentified` | workation/src/main/java/com/workflex/workation/config/TenantIdentifierResolver.java:43-48 | with neither a usable header nor the attribute, the tenant is `public` |
| `TenantResolution.ResolveDependsOnTenantEntries` | workation/src/main/java/com/workflex/workation/config/TenantIdentifierResolver.java:22-49 | two requests that agree on the tenant header and the `tenantId` attribute resolve alike |
| `TenantResolution.OtherAttributesIrrelevant` | workation/src/main/java/com/workflex/workation/config/TenantIdentifierResolver.java:36-41 | writing or removing any other attribute never changes the tenant |
| `TenantResolution.NumericIdSanitizesToDefault` | workation/src/main/java/com/workflex/workation/config/TenantIdentifierResolver.java:68-73 | every text `Long.toString` can print sanitises to `public` |
| `TenantResolution.NumericAttributeResolvesToDefault` | workation/src/main/java/com/workflex/workation/config/TenantIdentifierResolver.java:36-41 | a numeric `tenantId` attribute resolves to `public` unless a usable header overrides it |
| `AuthenticationGate.GetJwtFromRequest` | workation/src/main/java/com/workflex/workation/config/JwtAuthenticationFilter.java:64-70 | a token exactly when the header starts with `Bearer `, and then the header is `Bearer ` followed by the token |
| `AuthenticationGate.BearerHeaderHasText` | workation/src/main/java/com/workflex/workation/config/JwtAuthenticationFilter.java:66 | a header starting with `Bearer ` always has text, so the `hasText` test adds nothing |
| `AuthenticationGate.BearerRoundTrip` | workation/src/main/java/com/workflex/workation/config/JwtAuthenticationFilter.java:64-70 | extraction recovers exactly the token placed after `Bearer ` |
| `AuthenticationGate.VerifiedIdentity` | workation/src/main/java/com/workflex/workation/config/JwtAuthenticationFilter.java:34-39 | an identity exactly when the token has text and validates and all three claims are present; its fields are those claims |
| `AuthenticationGate.RoleAuthority` | workation/src/main/java/com/workflex/workation/config/JwtAuthenticationFilter.java:46 | the authority is `ROLE_` followed by the role |
| `AuthenticationGate.DoFilterInternal` | workation/src/main/java/com/workflex/workation/config/JwtAuthenticationFilter.java:27-62 | the chain continues exactly once; without an identity nothing is written; with one, the three attributes and an authentication holding the single `ROLE_` authority |
| `AuthenticationGate.DoFilter` | workation/src/main/java/com/workflex/workation/config/JwtAuthenticationFilter.java:72-84 | a skipped path goes down the chain with nothing written; any other path gets exactly the filter's effect |
| `AuthenticationGate.IssuedTokenIdentity` | workation/src/main/java/com/workflex/workation/config/JwtTokenProvider.java:34-48 | a token the service issued, sent as a bearer token, proves the issued subject and role and, as tenant id, the decimal text of the number |
| `AccessPolicy.FirstMatch` | workation/src/main/java/com/workflex/workation/config/SecurityConfig.java:38-57 | the index of the first rule whose matchers match the path, or the table length if none does |
| `AccessPolicy.Evaluate` | workation/src/main/java/com/workflex/workation/config/SecurityConfig.java:38-57 | permit exactly when some rule matches and the first match grants the principal |
| `AccessPolicy.EarliestMatchingRuleDecides` | workation/src/main/java/com/workflex/workation/config/SecurityConfig.java:38-57 | a matching rule preceded by no matching rule is the one applied |
| `AccessPolicy.RuleMatchesAt` | workation/src/main/java/com/workflex/workation/config/SecurityConfig.java:40-57 | rule by rule, the paths each one matches, with `/x/**` read as `/x` or a path under `/x/` |
| `AccessPolicy.DecidedByRule` | workation/src/main/java/com/workflex/workation/config/SecurityConfig.java:38-57 | once a rule is the first match, its access rule alone decides |
| `AccessPolicy.TenantsFirstMatch` | workation/src/main/java/com/workflex/workation/config/SecurityConfig.java:40-47 | a `/tenants` path matches no public rule, so the `/tenants` rule is its first match |
| `AccessPolicy.UsersFirstMatch` | workation/src/main/java/com/workflex/workation/config/SecurityConfig.java:40-50 | a `/users` path is first matched by the `/users` rule |
| `AccessPolicy.AuditLogsFirstMatch` | workation/src/main/java/com/workflex/workation/config/SecurityConfig.java:40-51 | an `/audit-logs` path is first matched by the `/audit-logs` rule |
| `AccessPolicy.ResourcesFirstMatch` | workation/src/main/java/com/workflex/workation/config/SecurityConfig.java:40-54 | a `/resources` path is first matched by the `/resources` rule |
| `AccessPolicy.OtherPathsFirstMatch` | workation/src/main/java/com/workflex/workation/config/SecurityConfig.java:40-57 | any other path falls through to `anyRequest()` |
| `AccessPolicy.TenantsRuleGrants` | workation/src/main/java/com/workflex/workation/config/SecurityConfig.java:47 | `hasRole("SUPER_ADMIN")` grants exactly the authority `ROLE_SUPER_ADMIN` |
| `AccessPolicy.UsersRuleGrants` | workation/src/main/java/com/workflex/workation/config/SecurityConfig.java:50 | the `/users` rule grants exactly `ROLE_ADMIN` or `ROLE_SUPER_ADMIN` |
| `AccessPolicy.AuditLogsRuleGrants` | workation/src/main/java/com/workflex/workation/config/SecurityConfig.java:51 | the `/audit-logs` rule grants exactly `ROLE_ADMIN` or `ROLE_SUPER_ADMIN` |
| `AccessPolicy.ResourcesRuleGrants` | workation/src/main/java/com/workflex/workation/config/SecurityConfig.java:54 | the `/resources` rule grants exactly `ROLE_ADMIN`, `ROLE_MANAGER` or `ROLE_EMPLOYEE` |
| `AccessPolicy.PublicPathsPermitted` | workation/src/main/java/com/workflex/workation/config/SecurityConfig.java:40-44 | every public path is permitted to everyone |
| `AccessPolicy.TenantsNeedSuperAdmin` | workation/src/main/java/com/workflex/workation/config/SecurityConfig.java:47 | tenant management is permitted exactly to holders of `ROLE_SUPER_ADMIN` |
| `AccessPolicy.UsersNeedAdmin` | workation/src/main/java/com/workflex/workation/config/SecurityConfig.java:50 | user management is permitted exactly to `ROLE_ADMIN` or `ROLE_SUPER_ADMIN` |
| `AccessPolicy.AuditLogsNeedAdmin` | workation/src/main/java/com/workflex/workation/config/SecurityConfig.java:51 | audit logs are permitted exactly to `ROLE_ADMIN` or `ROLE_SUPER_ADMIN` |
| `AccessPolicy.ResourcesNeedTenantRole` | workation/src/main/java/com/workflex/workation/config/SecurityConfig.java:54 | resources are permitted exactly to `ROLE_ADMIN`, `ROLE_MANAGER` or `ROLE_EMPLOYEE`, so not to a bare super admin |
| `AccessPolicy.OtherPathsNeedAuthentication` | workation/src/main/java/com/workflex/workation/config/SecurityConfig.java:57 | every other path is permitted exactly to an authenticated principal, whatever its roles |
| `AccessPolicy.AnonymousOnlyPublic` | workation/src/main/java/com/workflex/workation/config/SecurityConfig.java:38-57 | an anonymous request is permitted exactly on the public paths |
| `Tenants.NewTenant` | workation/src/main/java/com/workflex/workation/model/Tenant.java:59-62 | name and schema name as given; 50 users, 500 resources, active, no id, no contact, no plan |
| `Tenants.NewTenantWithContact` | workation/src/main/java/com/workflex/workation/model/Tenant.java:64-68 | the two-argument tenant with the contact address set |
| `Tenants.PatternImpliesNotBlank` | workation/src/main/java/com/workflex/workation/model/Tenant.java:30-31 | a schema name matching the pattern is never blank |
| `Tenants.ValidTenantSchemaRouting` | workation/src/main/java/com/workflex/workation/model/Tenant.java:30-33 | a valid tenant's schema name of at most 63 characters routes to its lower-case form, and to `public` only if it spells `public` |
| `TenantRegistry.Registered` | workation/src/main/java/com/workflex/workation/service/impl/TenantServiceImpl.java:48-54 | a new tenant is active, has the name, schema name and contact given, and 50 and 500 where the quotas are null |
| `TenantRegistry.Updated` | workation/src/main/java/com/workflex/workation/service/impl/TenantServiceImpl.java:107-110 | name and contact are always overwritten; a quota only when given; id, schema name, activity and plan never |
| `TenantRegistry.WithActive` | workation/src/main/java/com/workflex/workation/service/impl/TenantServiceImpl.java:131-151 | only the one tenant's activity flag changes |
| `TenantRegistry.WithActiveIdempotent` | workation/src/main/java/com/workflex/workation/service/impl/TenantServiceImpl.java:131-151 | setting the flag twice is setting it once |
| `TenantRegistry.WithActiveKeepsUnique` | workation/src/main/java/com/workflex/workation/service/impl/TenantServiceImpl.java:131-151 | activating or deactivating keeps names and schema names unique |
| `TenantRegistry.AddKeepsUnique` | workation/src/main/java/com/workflex/workation/service/impl/TenantServiceImpl.java:40-46 | adding a tenant whose name and schema name are free keeps both unique |
| `TenantRegistry.RenameKeepsUnique` | workation/src/main/java/com/workflex/workation/service/impl/TenantServiceImpl.java:102-105 | renaming to the same name or a free name keeps both unique |
| `TenantRegistry.UpdatedIsValid` | workation/src/main/java/com/workflex/workation/service/impl/TenantServiceImpl.java:107-110 | an update by a valid request leaves a tenant that meets the validation constraints |
| `TenantRegistry.UpdateKeepsStored` | workation/src/main/java/com/workflex/workation/service/impl/TenantServiceImpl.java:107-113 | after an update every stored tenant still has its own id and meets the constraints |
| `TenantRegistry.AddKeepsStored` | workation/src/main/java/com/workflex/workation/service/impl/TenantServiceImpl.java:48-59 | registering under the next id keeps every stored tenant well-formed, with the counter advanced |
| `TenantRegistry.RemoveKeepsStored` | workation/src/main/java/com/workflex/workation/service/impl/TenantServiceImpl.java:118-129 | deleting a tenant leaves the others stored as they were |
| `TenantRegistry.TenantService.TenantExistsById` | workation/src/main/java/com/workflex/workation/service/impl/TenantServiceImpl.java:169-171 | true exactly for registered ids |
| `TenantRegistry.TenantService.FindEntityById` | workation/src/main/java/com/workflex/workation/service/impl/TenantServiceImpl.java:153-158 | the stored tenant, or not-found for an unknown id |
| `TenantRegistry.TenantService.CreateTenantSchema` | workation/src/main/java/com/workflex/workation/service/impl/TenantServiceImpl.java:191-203 | one `CREATE` of the raw schema name; a failure is reported as a schema-creation error |
| `TenantRegistry.TenantService.DropTenantSchema` | workation/src/main/java/com/workflex/workation/service/impl/TenantServiceImpl.java:205-217 | one `DROP … CASCADE` of the raw schema name; a failure is reported as a schema-drop error |
| `TenantRegistry.TenantService.CreateTenant` | workation/src/main/java/com/workflex/workation/service/impl/TenantServiceImpl.java:37-63 | a duplicate name is refused first, then a duplicate schema name, with nothing changed; otherwise the schema is created before saving; a failed creation saves nothing; uniqueness is kept |
| `TenantRegistry.TenantService.UpdateTenant` | workation/src/main/java/com/workflex/workation/service/impl/TenantServiceImpl.java:96-116 | unknown id: not found; a conflict only when the name changes to a taken one; otherwise exactly the updated record is stored; uniqueness is kept |
| `TenantRegistry.TenantService.DeleteTenant` | workation/src/main/java/com/workflex/workation/service/impl/TenantServiceImpl.java:118-129 | unknown id: not found, nothing sent; otherwise the schema is dropped first and the record removed only if the drop succeeded |
| `TenantRegistry.TenantService.SetTenantActive` | workation/src/main/java/com/workflex/workation/service/impl/TenantServiceImpl.java:131-151 | unknown id: not found; otherwise only the activity flag changes |
| `TenantRegistry.TenantService.ActivateTenant` | workation/src/main/java/com/workflex/workation/service/impl/TenantServiceImpl.java:142-151 | only the flag changes, to true |
| `TenantRegistry.TenantService.DeactivateTenant` | workation/src/main/java/com/workflex/workation/service/impl/TenantServiceImpl.java:131-140 | only the flag changes, to false |
| `TenantRegistry.RegisterTwice` | workation/src/main/java/com/workflex/workation/service/impl/TenantServiceImpl.java:40-54 | the first registration succeeds with id 1 and the defaults; the second is refused for its name; one tenant and one schema remain |
| `TenantRegistry.DeactivateTwiceThenActivate` | workation/src/main/java/com/workflex/workation/service/impl/TenantServiceImpl.java:131-151 | deactivating twice is deactivating once; activating restores the registered tenant exactly |
| `TenantRegistry.RegisterThenDeactivate` | workation/src/main/java/com/workflex/workation/service/impl/TenantServiceImpl.java:131-140 | a registered then deactivated tenant keeps its id and every registered field except the flag, which is false |
| `Login.AuditTrail.Append` | workation/src/main/java/com/workflex/workation/service/impl/AuthServiceImpl.java:68 | appends exactly one entry |
| `Login.ParseTenantId` | workation/src/main/java/com/workflex/workation/service/impl/AuthServiceImpl.java:39 | a null tenant id fails to parse like malformed text |
| `Login.CheckLogin` | workation/src/main/java/com/workflex/workation/service/impl/AuthServiceImpl.java:39-57 | success exactly when the id parses, the tenant exists, the user exists, is active and the password matches; the user and id returned are the ones looked up |
| `Login.ParseFailsFirst` | workation/src/main/java/com/workflex/workation/service/impl/AuthServiceImpl.java:39 | a malformed tenant id fails before any lookup |
| `Login.GuardOrder` | workation/src/main/java/com/workflex/workation/service/impl/AuthServiceImpl.java:42-52 | unknown tenant, then unknown user, then deactivated account: the first that applies is the error |
| `Login.DeactivatedBeforePassword` | workation/src/main/java/com/workflex/workation/service/impl/AuthServiceImpl.java:50-57 | a deactivated account is refused whatever the password and the matcher |
| `Login.TenantActivityIgnored` | workation/src/main/java/com/workflex/workation/service/impl/AuthServiceImpl.java:41-44 | flipping a tenant's activity flag never changes a login's outcome |
| `Login.Authenticate` | workation/src/main/java/com/workflex/workation/service/impl/AuthServiceImpl.java:35-83 | a failed guard returns its error and logs nothing; success returns the issued token, type `Bearer`, the user's id, name and role, the tenant id and name, and the configured lifetime, and logs exactly one login entry |
| `Login.ValidateToken` | workation/src/main/java/com/workflex/workation/service/impl/AuthServiceImpl.java:86-88 | valid exactly when the signature check passes and the token is not expired |
| `Login.GetCurrentTenantId` | workation/src/main/java/com/workflex/workation/service/impl/AuthServiceImpl.java:102-110 | 1 exactly when an authentication with details exists, whoever it is; otherwise no authenticated user |
| `Login.GetCurrentUsername` | workation/src/main/java/com/workflex/workation/service/impl/AuthServiceImpl.java:113-119 | the principal's name when authenticated |
| `Login.GetCurrentUserRole` | workation/src/main/java/com/workflex/workation/service/impl/AuthServiceImpl.java:122-128 | the first authority, `ROLE_` prefix included; no element for an empty list; no authenticated user without authentication |
| `Login.CurrentTenantIdIgnoresIdentity` | workation/src/main/java/com/workflex/workation/service/impl/AuthServiceImpl.java:104-107 | any two authenticated users get the same tenant id, 1 |
| `Login.Logout` | workation/src/main/java/com/workflex/workation/service/impl/AuthServiceImpl.java:131-145 | a logout entry only when both claims are present, the tenant claim parses and the user exists; a malformed tenant claim throws; otherwise nothing happens |
| `Login.LoginAfterDeactivation` | workation/src/main/java/com/workflex/workation/service/impl/AuthServiceImpl.java:41-44 | a user of a registered, then deactivated tenant still logs in and is logged |
| `Pipeline.IssuedRolesCannotManageTenants` | workation/src/main/java/com/workflex/workation/config/SecurityConfig.java:47 | for every role a login can issue, tenant management is denied |
| `Pipeline.IssuedRolesOnProtectedEndpoints` | workation/src/main/java/com/workflex/workation/config/SecurityConfig.java:50-54 | every issued role reaches the resources; only `ADMIN` reaches user management |
| `Pipeline.SkippedPathsArePublic` | workation/src/main/java/com/workflex/workation/config/JwtAuthenticationFilter.java:77-83 | every path the filter skips is public to the policy, except look-alikes that only start with `/api-docs` |
| `Pipeline.ApiDocsLookalike` | workation/src/main/java/com/workflex/workation/config/JwtAuthenticationFilter.java:80 | `/api-docsX` is skipped by the filter, yet not public and denied to an anonymous caller |
| `Pipeline.TokenOnlyRequest` | workation/src/main/java/com/workflex/workation/config/JwtAuthenticationFilter.java:39-46 | with an issued token and no tenant header: the attribute holds the printed tenant id, yet the request resolves to `public`; the current tenant is 1 and the role `ROLE_` + role |
| `Pipeline.HeaderOverridesToken` | workation/src/main/java/com/workflex/workation/config/TenantIdentifierResolver.java:28-33 | with an issued token and a non-blank tenant header, the header decides the schema, whatever tenant the token was issued for |
| `Pipeline.UnauthenticatedRequest` | workation/src/main/java/com/workflex/workation/config/JwtAuthenticationFilter.java:27-62 | without a usable token: not authenticated, resolved to `public`, and the chain still continues once |

## Left out

- I/O and infrastructure: logging, the Hibernate customisers, the JDBC data source and the pool's checkout. A checkout takes the connection the pool handed out. Release is modelled as handing the connection back to the pool.
- Concurrency: the `ConcurrentHashMap` cache, the thread-bound request and security context. Each operation is modelled as a single sequential step.
- Statement failures are inputs, one flag per statement. A `SQLException` is the flag being set. No other cause of failure is modelled.
- The database's own identifier case folding is not modelled. The schema set holds the names exactly as written in the SQL. The router writes the lower-case sanitised name; the registry writes the raw name.
- `trim`, `toLowerCase` and `Character.isLetter` are modelled on characters that survive the `[a-zA-Z0-9_]` filter, where they are exact. Locale-specific lower-casing is not modelled.
- `Long.parseLong` accepts only ASCII digits here; Java also accepts other Unicode decimal digits.
- Header names are case-sensitive map keys; the servlet container matches them case-insensitively.
- The token service is a value of functions (`validate`, the three claim getters, `isExpired`, `issue`, the lifetime). Signing, encoding and the clock are not modelled. `issue` is a function of its three arguments, so the issue time is not modelled.
- Exceptions thrown inside the resolver and the filter: the token functions are total. The resolver's catch-all and the filter's catch-all are therefore unreachable in the model.
- The `OncePerRequestFilter` bookkeeping attribute that stops a second pass is not modelled; only the skip test is.
- `getCurrentUserId`, `getTenantByName`, the listings, the counts and `convertToDto` are not modelled; `authenticate` reads the tenant's name straight from the registry.
- The unused `UsernamePasswordAuthenticationToken` that `authenticate` builds, and the password encoder, are not modelled; password matching is a function `matches(plain, hash)`.
- Timestamps of tenants and audit entries, and the audit entry's other fields.
- Tenant requests are assumed to satisfy the bean-validation constraints the controller enforces with `@Valid` before the service runs (`TenantRegistry.TenantService.CreateTenant` and `UpdateTenant` require them).
- The repository's `save` assigns ids from a counter that starts at 1.
- SchemaRouting.MultiTenantConnectionProvider.GetConnection: states the outcome and, on the routed and the successful fallback paths, the connection's schema, but not the exact statement log, cache and schema set; `SchemaRouting.MultiTenantConnectionProvider.Checkout`, which it calls on the resolved name, states those in full.
- The behaviours listed at the top are modelled as the code has them and proved as lemmas; the model does not correct them.
