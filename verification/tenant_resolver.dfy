/**
 * The tenant resolver (`TenantIdentifierResolver`): which tenant a request
 * acts for. A non-blank `X-Tenant-ID` header wins; otherwise the `tenantId`
 * attribute the authentication filter wrote; otherwise `public`. Whatever
 * is found goes through the schema-name sanitiser.
 */
module TenantResolution {
  import opened Wrappers
  import opened SchemaNames
  import opened JavaLong
  import opened Http

  /** The header is present and not blank after Java's `trim`. */
  predicate HasUsableHeader(headers: map<string, string>)
  {
    TenantHeader in headers && !IsBlank(headers[TenantHeader])
  }

  /** Resolution from the two request entries it reads: the tenant header and the `tenantId` attribute. */
  function Resolve(headers: map<string, string>, attributes: map<string, string>): (r: string)
    ensures r == Default || IsSchemaIdentifier(r)
  {
    if HasUsableHeader(headers) then Sanitize(headers[TenantHeader])
    else if TenantIdAttribute in attributes then Sanitize(attributes[TenantIdAttribute])
    else Default
  }

  /**
   * `resolveCurrentTenantIdentifier`; `null` stands for a thread with no
   * bound request, which resolves to `public`.
   */
  function ResolveCurrentTenantIdentifier(request: HttpRequest?): (r: string)
    reads request
    ensures r == Default || IsSchemaIdentifier(r)
    ensures request == null ==> r == Default
  {
    if request == null then Default else Resolve(request.headers, request.attributes)
  }

  /** `validateExistingCurrentSessions`: existing sessions are always accepted. */
  function ValidateExistingCurrentSessions(): (r: bool)
    ensures r
  {
    true
  }

  /** `setCurrentTenantId`: writes (or, for `null`, removes) the `tenantId` attribute of the bound request, if any. */
  method SetCurrentTenantId(request: HttpRequest?, tenantId: Option<string>)
    modifies request
    ensures request != null ==>
              request.attributes == if tenantId.Some? then old(request.attributes)[TenantIdAttribute := tenantId.value]
                                    else old(request.attributes) - {TenantIdAttribute}
    ensures request != null && !HasUsableHeader(request.headers) ==>
              ResolveCurrentTenantIdentifier(request) == if tenantId.Some? then Sanitize(tenantId.value) else Default
  {
    if request != null {
      request.SetAttribute(TenantIdAttribute, tenantId);
    }
  }

  /** `clearCurrentTenantId`: removes the `tenantId` attribute of the bound request, if any. */
  method ClearCurrentTenantId(request: HttpRequest?)
    modifies request
    ensures request != null ==> request.attributes == old(request.attributes) - {TenantIdAttribute}
    ensures request != null && !HasUsableHeader(request.headers) ==> ResolveCurrentTenantIdentifier(request) == Default
  {
    if request != null {
      request.RemoveAttribute(TenantIdAttribute);
    }
  }

  /** A usable header decides alone: the attributes are not consulted. */
  lemma HeaderTakesPrecedence(headers: map<string, string>, attributes: map<string, string>, other: map<string, string>)
    requires HasUsableHeader(headers)
    ensures Resolve(headers, attributes) == Sanitize(headers[TenantHeader])
    ensures Resolve(headers, attributes) == Resolve(headers, other)
  {
  }

  /** Without a usable header, the `tenantId` attribute decides. */
  lemma AttributeFallback(headers: map<string, string>, attributes: map<string, string>)
    requires !HasUsableHeader(headers) && TenantIdAttribute in attributes
    ensures Resolve(headers, attributes) == Sanitize(attributes[TenantIdAttribute])
  {
  }

  /** With neither a usable header nor the attribute, the request acts for `public`. */
  lemma DefaultWhenUnidentified(headers: map<string, string>, attributes: map<string, string>)
    requires !HasUsableHeader(headers) && TenantIdAttribute !in attributes
    ensures Resolve(headers, attributes) == Default
  {
  }

  /**
   * Resolution depends on nothing but the tenant header and the `tenantId`
   * attribute: two requests that agree on those resolve alike (in particular,
   * asking twice about an unchanged request gives the same answer).
   */
  lemma ResolveDependsOnTenantEntries(h1: map<string, string>, a1: map<string, string>,
                                      h2: map<string, string>, a2: map<string, string>)
    requires (TenantHeader in h1) == (TenantHeader in h2)
    requires TenantHeader in h1 ==> h1[TenantHeader] == h2[TenantHeader]
    requires (TenantIdAttribute in a1) == (TenantIdAttribute in a2)
    requires TenantIdAttribute in a1 ==> a1[TenantIdAttribute] == a2[TenantIdAttribute]
    ensures Resolve(h1, a1) == Resolve(h2, a2)
  {
  }

  /** Writing or removing another attribute never changes the tenant a request resolves to. */
  lemma OtherAttributesIrrelevant(headers: map<string, string>, attributes: map<string, string>, name: string, value: string)
    requires name != TenantIdAttribute
    ensures Resolve(headers, attributes[name := value]) == Resolve(headers, attributes)
    ensures Resolve(headers, attributes - {name}) == Resolve(headers, attributes)
  {
    ResolveDependsOnTenantEntries(headers, attributes[name := value], headers, attributes);
    ResolveDependsOnTenantEntries(headers, attributes - {name}, headers, attributes);
  }

  /**
   * What `Long.toString` prints is never a routable tenant name: after the
   * `-` is filtered out a digit comes first, so the sanitiser yields `public`.
   */
  lemma {:induction false} NumericIdSanitizesToDefault(n: int)
    ensures Sanitize(ToString(n)) == Default
  {
    var s := ToString(n);
    ToStringShape(n);
    if s[0] == '-' {
      assert s == [s[0]] + s[1..];
      KeepWordCharsAppend([s[0]], s[1..]);
      assert KeepWordChars([s[0]]) == [];
      assert s[1..] == [s[1]] + s[2..];
      KeepWordCharsAppend([s[1]], s[2..]);
      assert KeepWordChars([s[1]]) == [s[1]];
    } else {
      assert s == [s[0]] + s[1..];
      KeepWordCharsAppend([s[0]], s[1..]);
      assert KeepWordChars([s[0]]) == [s[0]];
    }
    DigitLeadingSanitizesToDefault(s);
  }

  /**
   * A numeric tenant id in the `tenantId` attribute (what the filter copies
   * from a token) routes to `public` unless a usable header overrides it.
   */
  lemma NumericAttributeResolvesToDefault(headers: map<string, string>, attributes: map<string, string>, n: int)
    requires !HasUsableHeader(headers)
    requires TenantIdAttribute in attributes && attributes[TenantIdAttribute] == ToString(n)
    ensures Resolve(headers, attributes) == Default
  {
    NumericIdSanitizesToDefault(n);
  }
}
