/**
 * The access policy (`SecurityConfig.filterChain`, `authorizeHttpRequests`):
 * an ordered table of request matchers, each with an access rule; the first
 * rule whose matcher accepts the path decides.
 */
module AccessPolicy {

  /** A request matcher: a subtree pattern accepts its root `/x` and everything under `/x/`; an exact path; `anyRequest()`. */
  datatype Matcher = Subtree(root: string) | Exact(path: string) | AnyRequest

  /** `permitAll()`, `hasAnyRole(...)` (a single role for `hasRole`), `authenticated()`. */
  datatype Access = PermitAll | HasAnyRole(roles: seq<string>) | Authenticated

  datatype Rule = Rule(matchers: seq<Matcher>, access: Access)

  /** Who is asking: nobody, or an authenticated principal with its authority strings. */
  datatype Principal = Anonymous | Principal(authorities: seq<string>)

  datatype Decision = Permit | Deny

  predicate Matches(m: Matcher, path: string)
  {
    match m
    case Subtree(root) => path == root || root + "/" <= path
    case Exact(p) => path == p
    case AnyRequest => true
  }

  /** Some matcher of the list accepts the path. */
  predicate AnyMatches(matchers: seq<Matcher>, path: string)
  {
    matchers != [] && (Matches(matchers[0], path) || AnyMatches(matchers[1..], path))
  }

  predicate RuleMatches(rule: Rule, path: string)
  {
    AnyMatches(rule.matchers, path)
  }

  /** `hasRole(r)` checks for the authority `ROLE_r`. */
  predicate HasRole(p: Principal, role: string)
  {
    p.Principal? && "ROLE_" + role in p.authorities
  }

  /** `hasAnyRole(roles)`: the principal holds the authority of one of them. */
  predicate HasAnyOf(p: Principal, roles: seq<string>)
  {
    roles != [] && (HasRole(p, roles[0]) || HasAnyOf(p, roles[1..]))
  }

  predicate Grants(access: Access, p: Principal)
  {
    match access
    case PermitAll => true
    case HasAnyRole(roles) => HasAnyOf(p, roles)
    case Authenticated => p.Principal?
  }

  /** The rule table, in declaration order. */
  const Rules: seq<Rule> := [
    Rule([Subtree("/auth")], PermitAll),
    Rule([Subtree("/h2-console")], PermitAll),
    Rule([Subtree("/swagger-ui"), Subtree("/api-docs"), Exact("/swagger-ui.html")], PermitAll),
    Rule([Subtree("/actuator")], PermitAll),
    Rule([Exact("/favicon.ico"), Exact("/error")], PermitAll),
    Rule([Subtree("/tenants")], HasAnyRole(["SUPER_ADMIN"])),
    Rule([Subtree("/users")], HasAnyRole(["ADMIN", "SUPER_ADMIN"])),
    Rule([Subtree("/audit-logs")], HasAnyRole(["ADMIN", "SUPER_ADMIN"])),
    Rule([Subtree("/resources")], HasAnyRole(["ADMIN", "MANAGER", "EMPLOYEE"])),
    Rule([AnyRequest], Authenticated)
  ]

  /** The index of the first rule that accepts `path`, or `|rules|` when none does. */
  function FirstMatch(rules: seq<Rule>, path: string): (k: nat)
    ensures k <= |rules|
    ensures k < |rules| ==> RuleMatches(rules[k], path)
    ensures forall j :: 0 <= j < k ==> !RuleMatches(rules[j], path)
  {
    if rules == [] then 0
    else if RuleMatches(rules[0], path) then 0
    else 1 + FirstMatch(rules[1..], path)
  }

  /** First-match evaluation: the rule at the index found decides; no match at all denies. */
  function Evaluate(rules: seq<Rule>, path: string, p: Principal): (d: Decision)
    ensures d == Permit <==> exists k :: 0 <= k < |rules| && RuleMatches(rules[k], path)
                                         && (forall j :: 0 <= j < k ==> !RuleMatches(rules[j], path))
                                         && Grants(rules[k].access, p)
  {
    var k := FirstMatch(rules, path);
    if k < |rules| && Grants(rules[k].access, p) then Permit else Deny
  }

  /** The decision the application's table makes. */
  function Decide(path: string, p: Principal): Decision
  {
    Evaluate(Rules, path, p)
  }

  /** First match in declaration order: a rule decides whenever it matches and no earlier rule does. */
  lemma {:induction false} EarliestMatchingRuleDecides(rules: seq<Rule>, path: string, k: nat)
    requires k < |rules| && RuleMatches(rules[k], path)
    requires forall j :: 0 <= j < k ==> !RuleMatches(rules[j], path)
    ensures FirstMatch(rules, path) == k
  {
    if k > 0 {
      assert !RuleMatches(rules[0], path);
      EarliestMatchingRuleDecides(rules[1..], path, k - 1);
    }
  }

  /** The paths of the five `permitAll` rules. */
  predicate IsPublicPath(path: string)
  {
    || path == "/auth" || "/auth/" <= path
    || path == "/h2-console" || "/h2-console/" <= path
    || path == "/swagger-ui" || "/swagger-ui/" <= path
    || path == "/api-docs" || "/api-docs/" <= path
    || path == "/swagger-ui.html"
    || path == "/actuator" || "/actuator/" <= path
    || path == "/favicon.ico" || path == "/error"
  }

  predicate UnderTenants(path: string) { path == "/tenants" || "/tenants/" <= path }
  predicate UnderUsers(path: string) { path == "/users" || "/users/" <= path }
  predicate UnderAuditLogs(path: string) { path == "/audit-logs" || "/audit-logs/" <= path }
  predicate UnderResources(path: string) { path == "/resources" || "/resources/" <= path }

  /** A list of one, two or three matchers accepts a path when one of them does. */
  lemma AnyMatchesShort(ms: seq<Matcher>, path: string)
    requires 1 <= |ms| <= 3
    ensures AnyMatches(ms, path) <==> Matches(ms[0], path) || (|ms| > 1 && Matches(ms[1], path))
                                      || (|ms| > 2 && Matches(ms[2], path))
  {
    if |ms| > 1 {
      if |ms| > 2 {
        assert ms[1..][1..][1..] == [];
        assert AnyMatches(ms[1..][1..], path) <==> Matches(ms[2], path);
      } else {
        assert ms[1..][1..] == [];
      }
      assert AnyMatches(ms[1..], path) <==> Matches(ms[1], path) || (|ms| > 2 && Matches(ms[2], path));
    } else {
      assert ms[1..] == [];
    }
  }

  /** A list of one, two or three roles is granted when the principal holds one of them. */
  lemma HasAnyOfShort(p: Principal, roles: seq<string>)
    requires 1 <= |roles| <= 3
    ensures HasAnyOf(p, roles) <==> HasRole(p, roles[0]) || (|roles| > 1 && HasRole(p, roles[1]))
                                    || (|roles| > 2 && HasRole(p, roles[2]))
  {
    if |roles| > 1 {
      if |roles| > 2 {
        assert roles[1..][1..][1..] == [];
        assert HasAnyOf(p, roles[1..][1..]) <==> HasRole(p, roles[2]);
      } else {
        assert roles[1..][1..] == [];
      }
      assert HasAnyOf(p, roles[1..]) <==> HasRole(p, roles[1]) || (|roles| > 2 && HasRole(p, roles[2]));
    } else {
      assert roles[1..] == [];
    }
  }

  /** Rule 0 accepts exactly `/auth` and the paths below it. */
  lemma AuthRule(path: string)
    ensures RuleMatches(Rules[0], path) <==> path == "/auth" || "/auth/" <= path
  {
    AnyMatchesShort(Rules[0].matchers, path);
  }

  /** Rule 1 accepts exactly `/h2-console` and the paths below it. */
  lemma H2ConsoleRule(path: string)
    ensures RuleMatches(Rules[1], path) <==> path == "/h2-console" || "/h2-console/" <= path
  {
    AnyMatchesShort(Rules[1].matchers, path);
  }

  /** Rule 2 accepts exactly the documentation paths. */
  lemma DocsRule(path: string)
    ensures RuleMatches(Rules[2], path) <==>
              || path == "/swagger-ui" || "/swagger-ui/" <= path
              || path == "/api-docs" || "/api-docs/" <= path
              || path == "/swagger-ui.html"
  {
    AnyMatchesShort(Rules[2].matchers, path);
  }

  /** Rule 3 accepts exactly `/actuator` and the paths below it. */
  lemma ActuatorRule(path: string)
    ensures RuleMatches(Rules[3], path) <==> path == "/actuator" || "/actuator/" <= path
  {
    AnyMatchesShort(Rules[3].matchers, path);
  }

  /** Rule 4 accepts exactly `/favicon.ico` and `/error`. */
  lemma StaticRule(path: string)
    ensures RuleMatches(Rules[4], path) <==> path == "/favicon.ico" || path == "/error"
  {
    AnyMatchesShort(Rules[4].matchers, path);
  }

  /** Rule 5 accepts exactly `/tenants` and the paths below it. */
  lemma TenantsRule(path: string)
    ensures RuleMatches(Rules[5], path) <==> UnderTenants(path)
  {
    AnyMatchesShort(Rules[5].matchers, path);
  }

  /** Rule 6 accepts exactly `/users` and the paths below it. */
  lemma UsersRule(path: string)
    ensures RuleMatches(Rules[6], path) <==> UnderUsers(path)
  {
    AnyMatchesShort(Rules[6].matchers, path);
  }

  /** Rule 7 accepts exactly `/audit-logs` and the paths below it. */
  lemma AuditLogsRule(path: string)
    ensures RuleMatches(Rules[7], path) <==> UnderAuditLogs(path)
  {
    AnyMatchesShort(Rules[7].matchers, path);
  }

  /** Rule 8 accepts exactly `/resources` and the paths below it. */
  lemma ResourcesRule(path: string)
    ensures RuleMatches(Rules[8], path) <==> UnderResources(path)
  {
    AnyMatchesShort(Rules[8].matchers, path);
  }

  /** Rule 9, `anyRequest()`, accepts every path. */
  lemma AnyRequestRule(path: string)
    ensures RuleMatches(Rules[9], path)
  {
    AnyMatchesShort(Rules[9].matchers, path);
  }

  /** Which paths each rule of the table accepts. */
  lemma RuleMatchesAt(path: string, k: nat)
    requires k < |Rules|
    ensures k == 0 ==> (RuleMatches(Rules[k], path) <==> path == "/auth" || "/auth/" <= path)
    ensures k == 1 ==> (RuleMatches(Rules[k], path) <==> path == "/h2-console" || "/h2-console/" <= path)
    ensures k == 2 ==> (RuleMatches(Rules[k], path) <==>
                          || path == "/swagger-ui" || "/swagger-ui/" <= path
                          || path == "/api-docs" || "/api-docs/" <= path
                          || path == "/swagger-ui.html")
    ensures k == 3 ==> (RuleMatches(Rules[k], path) <==> path == "/actuator" || "/actuator/" <= path)
    ensures k == 4 ==> (RuleMatches(Rules[k], path) <==> path == "/favicon.ico" || path == "/error")
    ensures k == 5 ==> (RuleMatches(Rules[k], path) <==> UnderTenants(path))
    ensures k == 6 ==> (RuleMatches(Rules[k], path) <==> UnderUsers(path))
    ensures k == 7 ==> (RuleMatches(Rules[k], path) <==> UnderAuditLogs(path))
    ensures k == 8 ==> (RuleMatches(Rules[k], path) <==> UnderResources(path))
    ensures k == 9 ==> RuleMatches(Rules[k], path)
  {
    if k == 0 { AuthRule(path); }
    else if k == 1 { H2ConsoleRule(path); }
    else if k == 2 { DocsRule(path); }
    else if k == 3 { ActuatorRule(path); }
    else if k == 4 { StaticRule(path); }
    else if k == 5 { TenantsRule(path); }
    else if k == 6 { UsersRule(path); }
    else if k == 7 { AuditLogsRule(path); }
    else if k == 8 { ResourcesRule(path); }
    else { AnyRequestRule(path); }
  }

  /** A rule that matches bounds the first match from above. */
  lemma FirstMatchAtMost(rules: seq<Rule>, path: string, j: nat)
    requires j < |rules| && RuleMatches(rules[j], path)
    ensures FirstMatch(rules, path) <= j
  {
  }

  /** The first five rules of the table are the `permitAll` ones, and they accept exactly the public paths. */
  lemma PublicRuleDecides(path: string)
    requires IsPublicPath(path)
    ensures FirstMatch(Rules, path) < 5 && Rules[FirstMatch(Rules, path)].access == PermitAll
  {
    if path == "/auth" || "/auth/" <= path {
      AuthRule(path);
      FirstMatchAtMost(Rules, path, 0);
    } else if path == "/h2-console" || "/h2-console/" <= path {
      H2ConsoleRule(path);
      FirstMatchAtMost(Rules, path, 1);
    } else if path == "/actuator" || "/actuator/" <= path {
      ActuatorRule(path);
      FirstMatchAtMost(Rules, path, 3);
    } else if path == "/favicon.ico" || path == "/error" {
      StaticRule(path);
      FirstMatchAtMost(Rules, path, 4);
    } else {
      DocsRule(path);
      FirstMatchAtMost(Rules, path, 2);
    }
    FirstFiveArePermitAll(FirstMatch(Rules, path));
  }

  /** The first five rules of the table permit everyone. */
  lemma FirstFiveArePermitAll(k: nat)
    requires k < 5
    ensures Rules[k].access == PermitAll
  {
  }

  /** A path outside the public ones matches none of the first five rules. */
  lemma NoPublicRuleMatches(path: string)
    requires !IsPublicPath(path)
    ensures forall j :: 0 <= j < 5 ==> !RuleMatches(Rules[j], path)
  {
    AuthRule(path);
    H2ConsoleRule(path);
    DocsRule(path);
    ActuatorRule(path);
    StaticRule(path);
  }

  /** A path under a root begins with that root. */
  lemma UnderRoot(path: string, root: string)
    requires path == root || root + "/" <= path
    ensures |root| <= |path| && path[..|root|] == root
  {
    if path != root {
      assert (root + "/")[..|root|] == root;
    }
  }

  /**
   * The first characters of a public path: `/a` is followed by `p`, `c` or
   * `ut`, and the other public roots start with `h`, `s`, `f` or `e`.
   */
  lemma PublicPathHead(path: string)
    requires IsPublicPath(path)
    ensures |path| >= 3 && (path[1] == 'h' || path[1] == 's' || path[1] == 'f' || path[1] == 'e' || path[1] == 'a')
    ensures path[1] == 'a' ==> |path| >= 4 && (path[2] == 'p' || path[2] == 'c' || (path[2] == 'u' && path[3] == 't'))
  {
    if path == "/auth" || "/auth/" <= path {
      UnderRoot(path, "/auth");
    } else if path == "/h2-console" || "/h2-console/" <= path {
      UnderRoot(path, "/h2-console");
    } else if path == "/swagger-ui" || "/swagger-ui/" <= path {
      UnderRoot(path, "/swagger-ui");
    } else if path == "/api-docs" || "/api-docs/" <= path {
      UnderRoot(path, "/api-docs");
    } else if path == "/actuator" || "/actuator/" <= path {
      UnderRoot(path, "/actuator");
    }
  }

  /** The public paths are open to everyone, anonymous or not. */
  lemma PublicPathsPermitted(path: string, p: Principal)
    requires IsPublicPath(path)
    ensures Decide(path, p) == Permit
  {
    PublicRuleDecides(path);
  }

  /** A rule that matches with no earlier rule matching alone decides, by its access rule. */
  lemma DecidedByRule(path: string, p: Principal, k: nat)
    requires k < |Rules| && FirstMatch(Rules, path) == k
    ensures Decide(path, p) == Permit <==> Grants(Rules[k].access, p)
  {
  }

  /** A user path is neither public nor a tenant path. */
  lemma UsersPathsAreDistinct(path: string)
    requires UnderUsers(path)
    ensures !IsPublicPath(path) && !UnderTenants(path)
  {
    UnderRoot(path, "/users");
    if IsPublicPath(path) { PublicPathHead(path); }
    if UnderTenants(path) { UnderRoot(path, "/tenants"); }
  }

  /** An audit-log path is neither public nor a tenant or user path. */
  lemma AuditLogsPathsAreDistinct(path: string)
    requires UnderAuditLogs(path)
    ensures !IsPublicPath(path) && !UnderTenants(path) && !UnderUsers(path)
  {
    UnderRoot(path, "/audit-logs");
    assert path[1] == 'a' && path[2] == 'u' && path[3] == 'd';
    if IsPublicPath(path) { PublicPathHead(path); }
    if UnderTenants(path) { UnderRoot(path, "/tenants"); }
    if UnderUsers(path) { UnderRoot(path, "/users"); }
  }

  /** A resource path is neither public nor a tenant, user or audit-log path. */
  lemma ResourcePathsAreDistinct(path: string)
    requires UnderResources(path)
    ensures !IsPublicPath(path) && !UnderTenants(path) && !UnderUsers(path) && !UnderAuditLogs(path)
  {
    UnderRoot(path, "/resources");
    assert path[1] == 'r';
    if IsPublicPath(path) { PublicPathHead(path); }
    if UnderTenants(path) { UnderRoot(path, "/tenants"); }
    if UnderUsers(path) { UnderRoot(path, "/users"); }
    if UnderAuditLogs(path) { UnderRoot(path, "/audit-logs"); }
  }

  /** A tenant path is first matched by the `/tenants` rule. */
  lemma TenantsFirstMatch(path: string)
    requires UnderTenants(path)
    ensures FirstMatch(Rules, path) == 5
  {
    UnderRoot(path, "/tenants");
    if IsPublicPath(path) { PublicPathHead(path); }
    NoPublicRuleMatches(path);
    TenantsRule(path);
    EarliestMatchingRuleDecides(Rules, path, 5);
  }

  /** A user path is first matched by the `/users` rule. */
  lemma UsersFirstMatch(path: string)
    requires UnderUsers(path)
    ensures FirstMatch(Rules, path) == 6
  {
    UsersPathsAreDistinct(path);
    NoPublicRuleMatches(path);
    TenantsRule(path);
    UsersRule(path);
    EarliestMatchingRuleDecides(Rules, path, 6);
  }

  /** An audit-log path is first matched by the `/audit-logs` rule. */
  lemma AuditLogsFirstMatch(path: string)
    requires UnderAuditLogs(path)
    ensures FirstMatch(Rules, path) == 7
  {
    AuditLogsPathsAreDistinct(path);
    NoPublicRuleMatches(path);
    TenantsRule(path);
    UsersRule(path);
    AuditLogsRule(path);
    EarliestMatchingRuleDecides(Rules, path, 7);
  }

  /** A resource path is first matched by the `/resources` rule. */
  lemma ResourcesFirstMatch(path: string)
    requires UnderResources(path)
    ensures FirstMatch(Rules, path) == 8
  {
    ResourcePathsAreDistinct(path);
    NoPublicRuleMatches(path);
    TenantsRule(path);
    UsersRule(path);
    AuditLogsRule(path);
    ResourcesRule(path);
    EarliestMatchingRuleDecides(Rules, path, 8);
  }

  /** Any other path falls through to the final `anyRequest()` rule. */
  lemma OtherPathsFirstMatch(path: string)
    requires !IsPublicPath(path) && !UnderTenants(path) && !UnderUsers(path)
    requires !UnderAuditLogs(path) && !UnderResources(path)
    ensures FirstMatch(Rules, path) == 9
  {
    NoPublicRuleMatches(path);
    TenantsRule(path);
    UsersRule(path);
    AuditLogsRule(path);
    ResourcesRule(path);
    AnyRequestRule(path);
    EarliestMatchingRuleDecides(Rules, path, 9);
  }

  /** The `/tenants` rule grants `ROLE_SUPER_ADMIN` only. */
  lemma TenantsRuleGrants(p: Principal)
    ensures Grants(Rules[5].access, p) <==> HasRole(p, "SUPER_ADMIN")
  {
    HasAnyOfShort(p, Rules[5].access.roles);
  }

  /** The `/users` rule grants `ROLE_ADMIN` and `ROLE_SUPER_ADMIN`. */
  lemma UsersRuleGrants(p: Principal)
    ensures Grants(Rules[6].access, p) <==> HasRole(p, "ADMIN") || HasRole(p, "SUPER_ADMIN")
  {
    HasAnyOfShort(p, Rules[6].access.roles);
  }

  /** The `/audit-logs` rule grants `ROLE_ADMIN` and `ROLE_SUPER_ADMIN`. */
  lemma AuditLogsRuleGrants(p: Principal)
    ensures Grants(Rules[7].access, p) <==> HasRole(p, "ADMIN") || HasRole(p, "SUPER_ADMIN")
  {
    HasAnyOfShort(p, Rules[7].access.roles);
  }

  /** The `/resources` rule grants `ROLE_ADMIN`, `ROLE_MANAGER` and `ROLE_EMPLOYEE`. */
  lemma ResourcesRuleGrants(p: Principal)
    ensures Grants(Rules[8].access, p) <==> HasRole(p, "ADMIN") || HasRole(p, "MANAGER") || HasRole(p, "EMPLOYEE")
  {
    HasAnyOfShort(p, Rules[8].access.roles);
  }

  /** Tenant management needs `ROLE_SUPER_ADMIN`. */
  lemma TenantsNeedSuperAdmin(path: string, p: Principal)
    requires UnderTenants(path)
    ensures Decide(path, p) == Permit <==> HasRole(p, "SUPER_ADMIN")
  {
    TenantsFirstMatch(path);
    DecidedByRule(path, p, 5);
    TenantsRuleGrants(p);
  }

  /** User management needs `ROLE_ADMIN` or `ROLE_SUPER_ADMIN`. */
  lemma UsersNeedAdmin(path: string, p: Principal)
    requires UnderUsers(path)
    ensures Decide(path, p) == Permit <==> HasRole(p, "ADMIN") || HasRole(p, "SUPER_ADMIN")
  {
    UsersFirstMatch(path);
    DecidedByRule(path, p, 6);
    UsersRuleGrants(p);
  }

  /** Audit-log access needs `ROLE_ADMIN` or `ROLE_SUPER_ADMIN`. */
  lemma AuditLogsNeedAdmin(path: string, p: Principal)
    requires UnderAuditLogs(path)
    ensures Decide(path, p) == Permit <==> HasRole(p, "ADMIN") || HasRole(p, "SUPER_ADMIN")
  {
    AuditLogsFirstMatch(path);
    DecidedByRule(path, p, 7);
    AuditLogsRuleGrants(p);
  }

  /** Resources need one of the three tenant roles; `ROLE_SUPER_ADMIN` alone is not among them. */
  lemma ResourcesNeedTenantRole(path: string, p: Principal)
    requires UnderResources(path)
    ensures Decide(path, p) == Permit <==> HasRole(p, "ADMIN") || HasRole(p, "MANAGER") || HasRole(p, "EMPLOYEE")
  {
    ResourcesFirstMatch(path);
    DecidedByRule(path, p, 8);
    ResourcesRuleGrants(p);
  }

  /** Every other path is open to any authenticated principal, whatever its authorities, and to nobody else. */
  lemma OtherPathsNeedAuthentication(path: string, p: Principal)
    requires !IsPublicPath(path) && !UnderTenants(path) && !UnderUsers(path)
    requires !UnderAuditLogs(path) && !UnderResources(path)
    ensures Decide(path, p) == Permit <==> p.Principal?
  {
    OtherPathsFirstMatch(path);
    DecidedByRule(path, p, 9);
  }

  /** Anonymous requests reach only the public paths. */
  lemma AnonymousOnlyPublic(path: string)
    ensures Decide(path, Anonymous) == Permit <==> IsPublicPath(path)
  {
    if IsPublicPath(path) {
      PublicPathsPermitted(path, Anonymous);
    } else if UnderTenants(path) {
      TenantsNeedSuperAdmin(path, Anonymous);
    } else if UnderUsers(path) {
      UsersNeedAdmin(path, Anonymous);
    } else if UnderAuditLogs(path) {
      AuditLogsNeedAdmin(path, Anonymous);
    } else if UnderResources(path) {
      ResourcesNeedTenantRole(path, Anonymous);
    } else {
      OtherPathsNeedAuthentication(path, Anonymous);
    }
  }
}
