/**
 * The slice of the servlet and Spring Security world the pipeline touches:
 * the request (its URI, headers and mutable attributes), the per-thread
 * security context, and the rest of the filter chain.
 */
module Http {
  import opened Wrappers

  /** The header that names the tenant explicitly. */
  const TenantHeader: string := "X-Tenant-ID"
  /** The header that carries the bearer token. */
  const AuthorizationHeader: string := "Authorization"

  /** The request attributes the authentication filter writes. */
  const TenantIdAttribute: string := "tenantId"
  const UsernameAttribute: string := "username"
  const UserRoleAttribute: string := "userRole"

  /**
   * `Character.isWhitespace`: the Unicode space separators other than the
   * non-breaking ones, and the control characters TAB, LF, VT, FF, CR and
   * U+001C..U+001F.
   */
  predicate IsJavaWhitespace(c: char)
  {
    || ('\t' <= c <= '\r')
    || ('\U{001C}' <= c <= ' ')
    || c == '\U{1680}'
    || ('\U{2000}' <= c <= '\U{2006}')
    || ('\U{2008}' <= c <= '\U{200A}')
    || c == '\U{2028}' || c == '\U{2029}' || c == '\U{205F}' || c == '\U{3000}'
  }

  /** Spring's `StringUtils.hasText`: not null and holding a non-whitespace character. */
  predicate HasText(s: Option<string>)
  {
    s.Some? && exists i :: 0 <= i < |s.value| && !IsJavaWhitespace(s.value[i])
  }

  /**
   * An inbound request. The URI and the headers are fixed; the attributes
   * are a mutable name -> value map (attribute values are strings here).
   */
  class HttpRequest {
    const uri: string
    const headers: map<string, string>
    var attributes: map<string, string>

    constructor (uri: string, headers: map<string, string>)
      ensures this.uri == uri && this.headers == headers && attributes == map[]
    {
      this.uri := uri;
      this.headers := headers;
      attributes := map[];
    }

    /** `getHeader`: `None` is Java's `null` for an absent header. */
    function GetHeader(name: string): (r: Option<string>)
      ensures r.Some? <==> name in headers
      ensures r.Some? ==> r.value == headers[name]
    {
      if name in headers then Some(headers[name]) else None
    }

    /** `setAttribute`; following the servlet contract, a `null` value removes the attribute. */
    method SetAttribute(name: string, value: Option<string>)
      modifies this
      ensures attributes == if value.Some? then old(attributes)[name := value.value] else old(attributes) - {name}
    {
      match value
      case Some(v) => attributes := attributes[name := v];
      case None => attributes := attributes - {name};
    }

    /** `removeAttribute`. */
    method RemoveAttribute(name: string)
      modifies this
      ensures attributes == old(attributes) - {name}
    {
      attributes := attributes - {name};
    }
  }

  /**
   * A `UsernamePasswordAuthenticationToken` as the filter builds it: the
   * principal's name, its granted authority strings, and whether request
   * details were attached.
   */
  datatype Authentication = Authentication(principal: string, authorities: seq<string>, hasDetails: bool)

  /** The thread's `SecurityContext`: at most one authentication. */
  class SecurityContext {
    var authentication: Option<Authentication>

    constructor ()
      ensures authentication == None
    {
      authentication := None;
    }

    method SetAuthentication(auth: Authentication)
      modifies this
      ensures authentication == Some(auth)
    {
      authentication := Some(auth);
    }
  }

  /** The rest of the filter chain; only the number of times it is entered is observed. */
  class FilterChain {
    var invocations: nat

    constructor ()
      ensures invocations == 0
    {
      invocations := 0;
    }

    method DoFilter(request: HttpRequest)
      modifies this
      ensures invocations == old(invocations) + 1
    {
      invocations := invocations + 1;
    }
  }
}
