/**
 * The `Tenant` record: its fields, their defaults, the bean-validation
 * constraints on the name and the schema name, and the two convenience
 * constructors.
 */
module Tenants {
  import opened Wrappers
  import opened SchemaNames

  const DefaultMaxUsers: int := 50
  const DefaultMaxResources: int := 500

  /**
   * A tenant. `id` is `None` until the repository assigns one; the two
   * timestamps are left out.
   */
  datatype Tenant = Tenant(
    id: Option<int>,
    name: string,
    schemaName: string,
    maxUsers: int,
    maxResources: int,
    isActive: bool,
    contactEmail: Option<string>,
    subscriptionPlan: Option<string>)

  /** `new Tenant(name, schemaName)`: the two fields set, every other field at its default. */
  function NewTenant(name: string, schemaName: string): (t: Tenant)
    ensures t.name == name && t.schemaName == schemaName
    ensures t.id.None? && t.contactEmail.None? && t.subscriptionPlan.None?
    ensures t.maxUsers == DefaultMaxUsers && t.maxResources == DefaultMaxResources && t.isActive
  {
    Tenant(None, name, schemaName, DefaultMaxUsers, DefaultMaxResources, true, None, None)
  }

  /** `new Tenant(name, schemaName, contactEmail)`: the two-argument tenant with a contact address. */
  function NewTenantWithContact(name: string, schemaName: string, contactEmail: Option<string>): (t: Tenant)
    ensures t == NewTenant(name, schemaName).(contactEmail := contactEmail)
  {
    Tenant(None, name, schemaName, DefaultMaxUsers, DefaultMaxResources, true, contactEmail, None)
  }

  /** `@NotBlank` on the name; `@NotBlank` and `@Pattern("^[a-zA-Z][a-zA-Z0-9_]*$")` on the schema name. */
  predicate ValidTenant(t: Tenant)
  {
    !IsBlank(t.name) && !IsBlank(t.schemaName) && SchemaNamePattern(t.schemaName)
  }

  /** The pattern alone already makes the schema name non-blank. */
  lemma PatternImpliesNotBlank(s: string)
    requires SchemaNamePattern(s)
    ensures !IsBlank(s)
  {
  }

  /**
   * A valid tenant's schema name of at most 63 characters is routed by the
   * sanitiser to its lower-case form, so to `public` only when it spells
   * `public` in some letter case.
   */
  lemma ValidTenantSchemaRouting(t: Tenant)
    requires ValidTenant(t) && |t.schemaName| <= MaxIdentifierLength
    ensures Sanitize(t.schemaName) == ToLower(t.schemaName)
    ensures Sanitize(t.schemaName) == Default <==> ToLower(t.schemaName) == Default
  {
    PatternNameSanitizesToLowerCase(t.schemaName);
  }
}
