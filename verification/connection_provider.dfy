/**
 * The schema router (`MultiTenantConnectionProvider`): on every connection
 * checkout it makes sure the tenant's schema exists, binds the connection to
 * it, and falls back to `public` when either step fails; on every check-in it
 * resets the connection to `public`. A process-wide cache, keyed by the raw
 * tenant identifier, saves the `CREATE SCHEMA` round trip.
 */
module SchemaRouting {
  import opened Wrappers
  import opened SchemaNames
  import opened Database

  /** A pooled database session and the schema it is bound to. */
  class Connection {
    var activeSchema: string

    constructor ()
      ensures activeSchema == Default
    {
      activeSchema := Default;
    }
  }

  /** The pool behind the provider; only the hand-back is modelled. */
  class ConnectionPool {
    var idle: seq<Connection>

    constructor ()
      ensures idle == []
    {
      idle := [];
    }

    method Release(conn: Connection)
      modifies this
      ensures idle == old(idle) + [conn]
    {
      idle := idle + [conn];
    }
  }

  /** The schema name the provider works with: a null identifier means `public`. */
  function SchemaNameOf(tenantIdentifier: Option<string>): (name: string)
    ensures tenantIdentifier.None? ==> name == Default
    ensures tenantIdentifier.Some? ==> name == tenantIdentifier.value
  {
    match tenantIdentifier
    case None => Default
    case Some(id) => id
  }

  /**
   * The statements the `try` block of a checkout sends, in order: the CREATE
   * only on a cache miss, then the tenant bind unless the CREATE failed.
   */
  function TryStatements(target: string, cacheHit: bool, createFails: bool): seq<Statement>
  {
    (if cacheHit then [] else [CreateIfNotExists(target)])
    + (if !cacheHit && createFails then [] else [SetSearchPath(target)])
  }

  /** All the statements of a checkout: the `try` block, then the fallback bind if it failed. */
  function BindStatements(target: string, cacheHit: bool, createFails: bool, setFails: bool): seq<Statement>
  {
    var routed := (cacheHit || !createFails) && !setFails;
    TryStatements(target, cacheHit, createFails) + (if routed then [] else [SetSearchPath(Default)])
  }

  /** A checkout of an uncached name with no failure creates the schema and binds to it. */
  lemma FreshBindStatements(target: string)
    ensures BindStatements(target, false, false, false) == [CreateIfNotExists(target), SetSearchPath(target)]
  {
  }

  /** A checkout of a cached name with no failure only binds. */
  lemma CachedBindStatements(target: string)
    ensures BindStatements(target, true, false, false) == [SetSearchPath(target)]
  {
  }

  class MultiTenantConnectionProvider {
    /** Raw schema name -> "verified to exist". */
    var schemaCache: map<string, bool>
    const db: Db
    const pool: ConnectionPool

    /**
     * Every cache entry is `true`, and a cached name's sanitised schema was
     * created at some past instant (it may have been dropped since).
     */
    ghost predicate Valid()
      reads this, db
    {
      && db.Valid()
      && (forall k :: k in schemaCache ==> schemaCache[k])
      && (forall k :: k in schemaCache ==> Sanitize(k) in db.createdEver)
    }

    constructor (db: Db, pool: ConnectionPool)
      requires db.Valid()
      ensures Valid() && this.db == db && this.pool == pool && schemaCache == map[]
    {
      this.db := db;
      this.pool := pool;
      schemaCache := map[];
    }

    /** The cache-membership query. */
    function IsSchemaInCache(schemaName: string): (r: bool)
      reads this
      ensures r <==> schemaName in schemaCache
    {
      schemaName in schemaCache
    }

    /** Forgets every cached name. */
    method ClearSchemaCache()
      requires Valid()
      modifies this
      ensures Valid() && schemaCache == map[]
    {
      schemaCache := map[];
    }

    /** Forgets exactly one cached name. */
    method RemoveSchemaFromCache(schemaName: string)
      requires Valid()
      modifies this
      ensures Valid()
      ensures schemaCache.Keys == old(schemaCache.Keys) - {schemaName}
      ensures forall k :: k in schemaCache ==> schemaCache[k] == old(schemaCache)[k]
    {
      schemaCache := schemaCache - {schemaName};
    }

    /**
     * `createSchemaIfNotExists`: a cached raw name short-circuits; otherwise
     * the sanitised name is created and, only on success, the RAW name is
     * cached. A failure leaves the cache alone and is reported to the caller.
     */
    method CreateSchemaIfNotExists(schemaName: string, fails: bool) returns (ok: bool)
      requires Valid()
      modifies this, db
      ensures Valid()
      ensures schemaName in old(schemaCache) ==>
                ok && schemaCache == old(schemaCache) && db.issued == old(db.issued) && db.schemas == old(db.schemas)
      ensures schemaName !in old(schemaCache) ==>
                && ok == !fails
                && db.issued == old(db.issued) + [CreateIfNotExists(Sanitize(schemaName))]
                && schemaCache == (if ok then old(schemaCache)[schemaName := true] else old(schemaCache))
                && db.schemas == (if ok then old(db.schemas) + {Sanitize(schemaName)} else old(db.schemas))
    {
      if schemaName in schemaCache {
        return true;
      }
      ok := db.Execute(CreateIfNotExists(Sanitize(schemaName)), fails);
      if ok {
        schemaCache := schemaCache[schemaName := true];
      }
    }

    /** `setSchema`: binds the connection to the sanitised name, unless the statement fails. */
    method SetSchema(conn: Connection, schemaName: string, fails: bool) returns (ok: bool)
      requires Valid()
      modifies db, conn
      ensures Valid()
      ensures ok == !fails
      ensures db.issued == old(db.issued) + [SetSearchPath(Sanitize(schemaName))]
      ensures db.schemas == old(db.schemas)
      ensures conn.activeSchema == if ok then Sanitize(schemaName) else old(conn.activeSchema)
    {
      ok := db.Execute(SetSearchPath(Sanitize(schemaName)), fails);
      if ok {
        conn.activeSchema := Sanitize(schemaName);
      }
    }

    /** `setSchema(connection, "public")`: `public` is left unchanged by the sanitiser. */
    method SetDefaultSchema(conn: Connection, fails: bool) returns (ok: bool)
      requires Valid()
      modifies db, conn
      ensures Valid()
      ensures ok == !fails
      ensures db.issued == old(db.issued) + [SetSearchPath(Default)]
      ensures db.schemas == old(db.schemas)
      ensures conn.activeSchema == if ok then Default else old(conn.activeSchema)
    {
      SanitizeDefault();
      ok := SetSchema(conn, Default, fails);
    }

    /**
     * The `try` block of `getConnection`: create the schema if the raw name is
     * not cached, then bind the connection to it. `bound` is false when
     * either statement threw.
     */
    method TryBind(schemaName: string, conn: Connection, createFails: bool, setFails: bool) returns (bound: bool)
      requires Valid()
      modifies this, db, conn
      ensures Valid()
      ensures var hit := schemaName in old(schemaCache);
              var created := !hit && !createFails;
              && bound == ((hit || !createFails) && !setFails)
              && schemaCache == (if created then old(schemaCache)[schemaName := true] else old(schemaCache))
              && db.schemas == (if created then old(db.schemas) + {Sanitize(schemaName)} else old(db.schemas))
              && conn.activeSchema == (if bound then Sanitize(schemaName) else old(conn.activeSchema))
      ensures db.issued == old(db.issued) + TryStatements(Sanitize(schemaName), schemaName in old(schemaCache), createFails)
    {
      var created := CreateSchemaIfNotExists(schemaName, createFails);
      if created {
        bound := SetSchema(conn, schemaName, setFails);
      } else {
        bound := false;
      }
    }

    /**
     * `getConnection` once the schema name is known: the `try` block, then the
     * fallback to `public` if it threw. The three flags say whether the create,
     * the tenant bind and the fallback bind statements fail. `ok == false` is
     * the `SQLException` of a failed fallback.
     */
    method Checkout(schemaName: string, conn: Connection,
                    createFails: bool, setFails: bool, fallbackFails: bool) returns (ok: bool)
      requires Valid()
      modifies this, db, conn
      ensures Valid()
      ensures var created := schemaName !in old(schemaCache) && !createFails;
              && schemaCache == (if created then old(schemaCache)[schemaName := true] else old(schemaCache))
              && db.schemas == (if created then old(db.schemas) + {Sanitize(schemaName)} else old(db.schemas))
      ensures var routed := (schemaName in old(schemaCache) || !createFails) && !setFails;
              && (routed ==> ok && conn.activeSchema == Sanitize(schemaName))
              && (!routed && !fallbackFails ==> ok && conn.activeSchema == Default)
              && (!routed && fallbackFails ==> !ok && conn.activeSchema == old(conn.activeSchema))
      ensures db.issued == old(db.issued) +
                BindStatements(Sanitize(schemaName), schemaName in old(schemaCache), createFails, setFails)
    {
      var bound := TryBind(schemaName, conn, createFails, setFails);
      if bound {
        ok := true;
      } else {
        ok := SetDefaultSchema(conn, fallbackFails);
      }
    }

    /** `getConnection`, given the connection the pool handed out; a null identifier means `public`. */
    method GetConnection(tenantIdentifier: Option<string>, conn: Connection,
                         createFails: bool, setFails: bool, fallbackFails: bool) returns (ok: bool)
      requires Valid()
      modifies this, db, conn
      ensures Valid()
      ensures var name := SchemaNameOf(tenantIdentifier);
              var routed := (name in old(schemaCache) || !createFails) && !setFails;
              && (routed ==> ok && conn.activeSchema == Sanitize(name))
              && (!routed ==> ok == !fallbackFails)
              && (!routed && !fallbackFails ==> conn.activeSchema == Default)
    {
      ok := Checkout(SchemaNameOf(tenantIdentifier), conn, createFails, setFails, fallbackFails);
    }

    /**
     * `releaseConnection`: the reset to `public` is attempted, a failure of it
     * is swallowed, and the connection goes back to the pool in every case.
     */
    method ReleaseConnection(tenantIdentifier: Option<string>, conn: Connection, resetFails: bool)
      requires Valid()
      modifies db, conn, pool
      ensures Valid()
      ensures pool.idle == old(pool.idle) + [conn]
      ensures conn.activeSchema == if resetFails then old(conn.activeSchema) else Default
      ensures db.issued == old(db.issued) + [SetSearchPath(Default)]
      ensures db.schemas == old(db.schemas) && schemaCache == old(schemaCache)
    {
      var _ := SetDefaultSchema(conn, resetFails);
      pool.Release(conn);
    }
  }

  /**
   * Two checkouts for a tenant whose schema does not exist yet, with no
   * statement failing: the first one creates the schema and caches the name,
   * the second one only binds. Both connections end up on the tenant schema.
   */
  method RepeatedCheckout(name: string)
    returns (ok1: bool, ok2: bool, active1: string, active2: string, schemas: set<string>, ghost log: seq<Statement>)
    ensures ok1 && ok2
    ensures active1 == active2 == Sanitize(name)
    ensures schemas == {Sanitize(name)}
    ensures log == [CreateIfNotExists(Sanitize(name)), SetSearchPath(Sanitize(name)), SetSearchPath(Sanitize(name))]
  {
    var db := new Db({});
    var pool := new ConnectionPool();
    var provider := new MultiTenantConnectionProvider(db, pool);
    var c1 := new Connection();
    var c2 := new Connection();
    FreshBindStatements(Sanitize(name));
    CachedBindStatements(Sanitize(name));
    ok1 := provider.Checkout(name, c1, false, false, false);
    ok2 := provider.Checkout(name, c2, false, false, false);
    active1, active2, schemas, log := c1.activeSchema, c2.activeSchema, db.schemas, db.issued;
  }

  /**
   * The cache is keyed by the raw identifier while the SQL uses the sanitised
   * one: two spellings of one schema each pay for a `CREATE`, and evicting one
   * spelling leaves the other cached.
   */
  method RawKeyedCache(a: string, b: string)
    returns (schemas: set<string>, otherStillCached: bool, ghost log: seq<Statement>)
    requires a != b && Sanitize(a) == Sanitize(b)
    ensures schemas == {Sanitize(a)}
    ensures log == [CreateIfNotExists(Sanitize(a)), SetSearchPath(Sanitize(a)),
                    CreateIfNotExists(Sanitize(a)), SetSearchPath(Sanitize(a))]
    ensures otherStillCached
  {
    var db := new Db({});
    var pool := new ConnectionPool();
    var provider := new MultiTenantConnectionProvider(db, pool);
    var c := new Connection();
    var n := Sanitize(a);
    FreshBindStatements(n);
    var _ := provider.Checkout(a, c, false, false, false);
    assert provider.schemaCache == map[a := true] && db.issued == [CreateIfNotExists(n), SetSearchPath(n)];
    var _ := provider.Checkout(b, c, false, false, false);
    assert db.issued == [CreateIfNotExists(n), SetSearchPath(n), CreateIfNotExists(n), SetSearchPath(n)];
    assert db.schemas == {n};
    schemas, log := db.schemas, db.issued;
    provider.RemoveSchemaFromCache(b);
    otherStillCached := provider.IsSchemaInCache(a);
  }

  /** Case variants of a pattern-valid schema name share one sanitised schema. */
  lemma CaseVariantsShareSchema(s: string)
    requires SchemaNamePattern(s) && |s| <= MaxIdentifierLength
    ensures Sanitize(ToLower(s)) == Sanitize(s)
  {
    var t := ToLower(s);
    ToLowerKeepsPattern(s);
    PatternNameSanitizesToLowerCase(s);
    PatternNameSanitizesToLowerCase(t);
  }

  /**
   * Whatever a connection was bound to and whether or not the reset fails,
   * check-in hands it back to the pool and, if the reset succeeds, it is on
   * `public` again.
   */
  method CheckoutThenRelease(name: string, resetFails: bool)
    returns (active: string, pooled: nat)
    ensures pooled == 1
    ensures resetFails ==> active == Sanitize(name)
    ensures !resetFails ==> active == Default
  {
    var db := new Db({});
    var pool := new ConnectionPool();
    var provider := new MultiTenantConnectionProvider(db, pool);
    var c := new Connection();
    var _ := provider.Checkout(name, c, false, false, false);
    provider.ReleaseConnection(Some(name), c, resetFails);
    active, pooled := c.activeSchema, |pool.idle|;
  }
}
