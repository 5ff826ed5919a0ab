/**
 * The database as the tenant-isolation core sees it: a set of schemas that
 * the DDL statements create and drop. Whether a statement fails is an input
 * of each execution, since the model has no real database behind it.
 */
module Database {

  /** The SQL statements the core issues. */
  datatype Statement =
    | CreateIfNotExists(schema: string)
    | DropIfExistsCascade(schema: string)
    | SetSearchPath(schema: string)

  /** The effect of a statement that succeeds on the set of schemas. */
  function ApplyStatement(schemas: set<string>, stmt: Statement): (r: set<string>)
    ensures stmt.CreateIfNotExists? ==> stmt.schema in r && r - {stmt.schema} == schemas - {stmt.schema}
    ensures stmt.DropIfExistsCascade? ==> stmt.schema !in r && r + {stmt.schema} == schemas + {stmt.schema}
    ensures stmt.SetSearchPath? ==> r == schemas
  {
    match stmt
    case CreateIfNotExists(name) => schemas + {name}
    case DropIfExistsCascade(name) => schemas - {name}
    case SetSearchPath(_) => schemas
  }

  /** Both IF-[NOT-]EXISTS statements are idempotent: running one twice is running it once. */
  lemma DdlIdempotent(schemas: set<string>, stmt: Statement)
    ensures ApplyStatement(ApplyStatement(schemas, stmt), stmt) == ApplyStatement(schemas, stmt)
  {
  }

  class Db {
    /** The schemas that exist. */
    var schemas: set<string>
    /** Every statement sent to the database, in order, whether or not it failed. */
    ghost var issued: seq<Statement>
    /** Every schema some statement has ever created (dropping one does not remove it). */
    ghost var createdEver: set<string>

    ghost predicate Valid()
      reads this
    {
      schemas <= createdEver
    }

    constructor (initial: set<string>)
      ensures Valid() && schemas == initial && issued == []
    {
      schemas := initial;
      issued := [];
      createdEver := initial;
    }

    /** Sends `stmt`; it fails exactly when `fails` holds, and then changes no schema. */
    method Execute(stmt: Statement, fails: bool) returns (ok: bool)
      requires Valid()
      modifies this
      ensures Valid()
      ensures ok == !fails
      ensures issued == old(issued) + [stmt]
      ensures schemas == if ok then ApplyStatement(old(schemas), stmt) else old(schemas)
      ensures old(createdEver) <= createdEver
      ensures createdEver == if ok && stmt.CreateIfNotExists? then old(createdEver) + {stmt.schema} else old(createdEver)
    {
      issued := issued + [stmt];
      ok := !fails;
      if ok {
        schemas := ApplyStatement(schemas, stmt);
        if stmt.CreateIfNotExists? {
          createdEver := createdEver + {stmt.schema};
        }
      }
    }
  }
}
