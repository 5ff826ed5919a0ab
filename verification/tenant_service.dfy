/**
 * The tenant registry (`TenantServiceImpl`): tenants by id, kept with unique
 * names and unique schema names, and one database schema per tenant that
 * the registry creates on registration and drops on deletion.
 */
module TenantRegistry {
  import opened Wrappers
  import opened SchemaNames
  import opened Database
  import opened Tenants

  /** The fields of a create or update request the service reads; `None` is a `null` field. */
  datatype TenantDto = TenantDto(
    name: string,
    schemaName: string,
    maxUsers: Option<int>,
    maxResources: Option<int>,
    contactEmail: Option<string>)

  /** The exceptions the service throws. */
  datatype TenantError =
    | DuplicateName(name: string)
    | DuplicateSchemaName(schemaName: string)
    | SchemaCreationFailed(schemaName: string)
    | SchemaDropFailed(schemaName: string)
    | TenantNotFound(id: int)

  /** The bean-validation constraints the controller checks on a request before the service sees it. */
  predicate ValidDto(dto: TenantDto)
  {
    !IsBlank(dto.name) && !IsBlank(dto.schemaName) && SchemaNamePattern(dto.schemaName)
  }

  /** `findByName(name).isPresent()`. */
  predicate NameTaken(tenants: map<int, Tenant>, name: string)
  {
    exists id :: id in tenants && tenants[id].name == name
  }

  /** `findBySchemaName(schemaName).isPresent()`. */
  predicate SchemaNameTaken(tenants: map<int, Tenant>, schemaName: string)
  {
    exists id :: id in tenants && tenants[id].schemaName == schemaName
  }

  /** No two tenants share a name, and no two share a schema name. */
  predicate Unique(tenants: map<int, Tenant>)
  {
    forall a, b :: a in tenants && b in tenants && a != b ==>
      tenants[a].name != tenants[b].name && tenants[a].schemaName != tenants[b].schemaName
  }

  function OrElse(value: Option<int>, fallback: int): (r: int)
    ensures value.Some? ==> r == value.value
    ensures value.None? ==> r == fallback
  {
    if value.Some? then value.value else fallback
  }

  /** The tenant `createTenant` saves under the id the repository assigns. */
  function Registered(dto: TenantDto, id: int): (t: Tenant)
    ensures t.id == Some(id) && t.name == dto.name && t.schemaName == dto.schemaName
    ensures t.isActive && t.contactEmail == dto.contactEmail && t.subscriptionPlan.None?
    ensures t.maxUsers == (if dto.maxUsers.Some? then dto.maxUsers.value else DefaultMaxUsers)
    ensures t.maxResources == (if dto.maxResources.Some? then dto.maxResources.value else DefaultMaxResources)
  {
    NewTenant(dto.name, dto.schemaName).(
      id := Some(id),
      maxUsers := OrElse(dto.maxUsers, DefaultMaxUsers),
      maxResources := OrElse(dto.maxResources, DefaultMaxResources),
      contactEmail := dto.contactEmail,
      isActive := true)
  }

  /** What `updateTenant` writes: name and contact always, quotas only when given; nothing else. */
  function Updated(t: Tenant, dto: TenantDto): (u: Tenant)
    ensures u.id == t.id && u.schemaName == t.schemaName && u.isActive == t.isActive
    ensures u.subscriptionPlan == t.subscriptionPlan
    ensures u.name == dto.name && u.contactEmail == dto.contactEmail
    ensures u.maxUsers == (if dto.maxUsers.Some? then dto.maxUsers.value else t.maxUsers)
    ensures u.maxResources == (if dto.maxResources.Some? then dto.maxResources.value else t.maxResources)
  {
    t.(name := dto.name,
       maxUsers := OrElse(dto.maxUsers, t.maxUsers),
       maxResources := OrElse(dto.maxResources, t.maxResources),
       contactEmail := dto.contactEmail)
  }

  /** Sets the activity flag of one tenant. */
  function WithActive(tenants: map<int, Tenant>, id: int, active: bool): (r: map<int, Tenant>)
    requires id in tenants
    ensures r.Keys == tenants.Keys && r[id] == tenants[id].(isActive := active)
    ensures forall k :: k in tenants && k != id ==> r[k] == tenants[k]
  {
    tenants[id := tenants[id].(isActive := active)]
  }

  /** Setting the flag twice is setting it once. */
  lemma WithActiveIdempotent(tenants: map<int, Tenant>, id: int, active: bool)
    requires id in tenants
    ensures WithActive(WithActive(tenants, id, active), id, active) == WithActive(tenants, id, active)
  {
  }

  /** Flipping the activity flag never breaks uniqueness. */
  lemma WithActiveKeepsUnique(tenants: map<int, Tenant>, id: int, active: bool)
    requires id in tenants && Unique(tenants)
    ensures Unique(WithActive(tenants, id, active))
  {
    var r := WithActive(tenants, id, active);
    forall a, b | a in r && b in r && a != b
      ensures r[a].name != r[b].name && r[a].schemaName != r[b].schemaName
    {
      assert r[a].name == tenants[a].name && r[a].schemaName == tenants[a].schemaName;
      assert r[b].name == tenants[b].name && r[b].schemaName == tenants[b].schemaName;
    }
  }

  /** Adding a tenant whose name and schema name are both free keeps uniqueness. */
  lemma AddKeepsUnique(tenants: map<int, Tenant>, id: int, t: Tenant)
    requires Unique(tenants) && id !in tenants
    requires !NameTaken(tenants, t.name) && !SchemaNameTaken(tenants, t.schemaName)
    ensures Unique(tenants[id := t])
  {
    var r := tenants[id := t];
    forall a, b | a in r && b in r && a != b
      ensures r[a].name != r[b].name && r[a].schemaName != r[b].schemaName
    {
      if a == id {
        assert tenants[b].name != t.name && tenants[b].schemaName != t.schemaName;
      } else if b == id {
        assert tenants[a].name != t.name && tenants[a].schemaName != t.schemaName;
      }
    }
  }

  /**
   * Renaming one tenant keeps uniqueness when the name does not change or is
   * not taken; the schema name is not touched.
   */
  lemma RenameKeepsUnique(tenants: map<int, Tenant>, id: int, u: Tenant)
    requires Unique(tenants) && id in tenants
    requires u.schemaName == tenants[id].schemaName
    requires u.name == tenants[id].name || !NameTaken(tenants, u.name)
    ensures Unique(tenants[id := u])
  {
    var r := tenants[id := u];
    forall a, b | a in r && b in r && a != b
      ensures r[a].name != r[b].name && r[a].schemaName != r[b].schemaName
    {
      if a == id {
        assert tenants[b].name != u.name;
      } else if b == id {
        assert tenants[a].name != u.name;
      }
    }
  }

  /** Every stored tenant carries its own id below `nextId` and meets the validation constraints. */
  predicate Stored(tenants: map<int, Tenant>, nextId: int)
  {
    forall id :: id in tenants ==> 1 <= id < nextId && tenants[id].id == Some(id) && ValidTenant(tenants[id])
  }

  /** An update by a valid request keeps a tenant valid: the new name is not blank and the schema name is kept. */
  lemma UpdatedIsValid(t: Tenant, dto: TenantDto)
    requires ValidTenant(t) && ValidDto(dto)
    ensures ValidTenant(Updated(t, dto))
  {
    var u := Updated(t, dto);
    assert u.name == dto.name && u.schemaName == t.schemaName;
  }

  /** An update of a stored tenant by a valid request leaves a stored tenant: the schema name and id are kept. */
  lemma UpdateKeepsStored(tenants: map<int, Tenant>, nextId: int, id: int, dto: TenantDto)
    requires Stored(tenants, nextId) && id in tenants && ValidDto(dto)
    ensures Stored(tenants[id := Updated(tenants[id], dto)], nextId)
  {
    var r := tenants[id := Updated(tenants[id], dto)];
    forall k | k in r
      ensures 1 <= k < nextId && r[k].id == Some(k) && ValidTenant(r[k])
    {
      if k == id {
        UpdatedIsValid(tenants[id], dto);
      } else {
        assert r[k] == tenants[k];
      }
    }
  }

  /** Removing a tenant leaves the others stored as they were. */
  lemma RemoveKeepsStored(tenants: map<int, Tenant>, nextId: int, id: int)
    requires Stored(tenants, nextId)
    ensures Stored(tenants - {id}, nextId)
  {
    var r := tenants - {id};
    forall k | k in r
      ensures 1 <= k < nextId && r[k].id == Some(k) && ValidTenant(r[k])
    {
      assert r[k] == tenants[k];
    }
  }

  /** Registering a valid request under the next id keeps every tenant stored, with the id counter advanced. */
  lemma AddKeepsStored(tenants: map<int, Tenant>, nextId: int, dto: TenantDto)
    requires Stored(tenants, nextId) && nextId >= 1 && ValidDto(dto)
    ensures Stored(tenants[nextId := Registered(dto, nextId)], nextId + 1)
  {
    var r := tenants[nextId := Registered(dto, nextId)];
    forall k | k in r
      ensures 1 <= k < nextId + 1 && r[k].id == Some(k) && ValidTenant(r[k])
    {
      if k == nextId {
        assert r[k].name == dto.name && r[k].schemaName == dto.schemaName;
      } else {
        assert r[k] == tenants[k];
      }
    }
  }

  class TenantService {
    /** The tenant repository: id -> tenant. */
    var tenants: map<int, Tenant>
    /** The next id the repository's identity column hands out. */
    var nextId: int
    const db: Db

    ghost predicate Valid()
      reads this, db
    {
      && db.Valid()
      && nextId >= 1
      && Stored(tenants, nextId)
      && Unique(tenants)
    }

    constructor (db: Db)
      requires db.Valid()
      ensures Valid() && this.db == db && tenants == map[] && nextId == 1
    {
      this.db := db;
      tenants := map[];
      nextId := 1;
    }

    /** `tenantExistsById`. */
    function TenantExistsById(id: int): (r: bool)
      reads this
      ensures r <==> id in tenants
    {
      id in tenants
    }

    /** `findEntityById`: the stored tenant, or `ResourceNotFoundException`. */
    function FindEntityById(id: int): (r: Result<Tenant, TenantError>)
      reads this
      ensures r.Success? <==> id in tenants
      ensures r.Success? ==> r.value == tenants[id]
      ensures r.Failure? ==> r.error == TenantNotFound(id)
    {
      if id in tenants then Success(tenants[id]) else Failure(TenantNotFound(id))
    }

    /** `createTenantSchema`: the schema name goes into the SQL as given, without sanitising. */
    method CreateTenantSchema(schemaName: string, fails: bool) returns (r: Result<(), TenantError>)
      requires Valid()
      modifies db
      ensures Valid()
      ensures r.Success? == !fails && (fails ==> r.error == SchemaCreationFailed(schemaName))
      ensures db.issued == old(db.issued) + [CreateIfNotExists(schemaName)]
      ensures db.schemas == if fails then old(db.schemas) else old(db.schemas) + {schemaName}
    {
      var ok := db.Execute(CreateIfNotExists(schemaName), fails);
      r := if ok then Success(()) else Failure(SchemaCreationFailed(schemaName));
    }

    /** `dropTenantSchema`: `DROP SCHEMA IF EXISTS <name> CASCADE`, with the name as given. */
    method DropTenantSchema(schemaName: string, fails: bool) returns (r: Result<(), TenantError>)
      requires Valid()
      modifies db
      ensures Valid()
      ensures r.Success? == !fails && (fails ==> r.error == SchemaDropFailed(schemaName))
      ensures db.issued == old(db.issued) + [DropIfExistsCascade(schemaName)]
      ensures db.schemas == if fails then old(db.schemas) else old(db.schemas) - {schemaName}
    {
      var ok := db.Execute(DropIfExistsCascade(schemaName), fails);
      r := if ok then Success(()) else Failure(SchemaDropFailed(schemaName));
    }

    /**
     * `createTenant`: the name is checked first, then the schema name; the
     * schema is created before the record is saved, so a failed creation
     * saves nothing.
     */
    method CreateTenant(dto: TenantDto, schemaFails: bool) returns (r: Result<Tenant, TenantError>)
      requires Valid() && ValidDto(dto)
      modifies this, db
      ensures Valid()
      ensures NameTaken(old(tenants), dto.name) ==>
                r == Failure(DuplicateName(dto.name)) && tenants == old(tenants)
                && db.issued == old(db.issued) && db.schemas == old(db.schemas)
      ensures !NameTaken(old(tenants), dto.name) && SchemaNameTaken(old(tenants), dto.schemaName) ==>
                r == Failure(DuplicateSchemaName(dto.schemaName)) && tenants == old(tenants)
                && db.issued == old(db.issued) && db.schemas == old(db.schemas)
      ensures !NameTaken(old(tenants), dto.name) && !SchemaNameTaken(old(tenants), dto.schemaName) ==>
                && db.issued == old(db.issued) + [CreateIfNotExists(dto.schemaName)]
                && (schemaFails ==> r == Failure(SchemaCreationFailed(dto.schemaName))
                                    && tenants == old(tenants) && db.schemas == old(db.schemas))
                && (!schemaFails ==> r == Success(Registered(dto, old(nextId)))
                                     && tenants == old(tenants)[old(nextId) := Registered(dto, old(nextId))]
                                     && db.schemas == old(db.schemas) + {dto.schemaName})
    {
      if NameTaken(tenants, dto.name) {
        return Failure(DuplicateName(dto.name));
      }
      if SchemaNameTaken(tenants, dto.schemaName) {
        return Failure(DuplicateSchemaName(dto.schemaName));
      }
      var created := CreateTenantSchema(dto.schemaName, schemaFails);
      if created.Failure? {
        return Failure(created.error);
      }
      var tenant := Registered(dto, nextId);
      AddKeepsUnique(tenants, nextId, tenant);
      AddKeepsStored(tenants, nextId, dto);
      tenants := tenants[nextId := tenant];
      nextId := nextId + 1;
      r := Success(tenant);
    }

    /**
     * `updateTenant`: a name conflict is raised only when the name changes;
     * the schema name and the activity flag are never touched.
     */
    method UpdateTenant(id: int, dto: TenantDto) returns (r: Result<Tenant, TenantError>)
      requires Valid() && ValidDto(dto)
      modifies this
      ensures Valid()
      ensures id !in old(tenants) ==> r == Failure(TenantNotFound(id)) && tenants == old(tenants)
      ensures id in old(tenants) && old(tenants)[id].name != dto.name && NameTaken(old(tenants), dto.name) ==>
                r == Failure(DuplicateName(dto.name)) && tenants == old(tenants)
      ensures id in old(tenants) && (old(tenants)[id].name == dto.name || !NameTaken(old(tenants), dto.name)) ==>
                r == Success(Updated(old(tenants)[id], dto)) && tenants == old(tenants)[id := Updated(old(tenants)[id], dto)]
    {
      var found := FindEntityById(id);
      if found.Failure? {
        return Failure(found.error);
      }
      var tenant := found.value;
      if tenant.name != dto.name && NameTaken(tenants, dto.name) {
        return Failure(DuplicateName(dto.name));
      }
      var updated := Updated(tenant, dto);
      RenameKeepsUnique(tenants, id, updated);
      UpdateKeepsStored(tenants, nextId, id, dto);
      tenants := tenants[id := updated];
      r := Success(updated);
    }

    /** `deleteTenant`: the schema is dropped first; the record goes only if the drop succeeded. */
    method DeleteTenant(id: int, dropFails: bool) returns (r: Result<(), TenantError>)
      requires Valid()
      modifies this, db
      ensures Valid()
      ensures id !in old(tenants) ==>
                r == Failure(TenantNotFound(id)) && tenants == old(tenants) && db.issued == old(db.issued)
                && db.schemas == old(db.schemas)
      ensures id in old(tenants) ==>
                && db.issued == old(db.issued) + [DropIfExistsCascade(old(tenants)[id].schemaName)]
                && (dropFails ==> r == Failure(SchemaDropFailed(old(tenants)[id].schemaName))
                                  && tenants == old(tenants) && db.schemas == old(db.schemas))
                && (!dropFails ==> r == Success(()) && tenants == old(tenants) - {id}
                                   && db.schemas == old(db.schemas) - {old(tenants)[id].schemaName})
    {
      var found := FindEntityById(id);
      if found.Failure? {
        return Failure(found.error);
      }
      var dropped := DropTenantSchema(found.value.schemaName, dropFails);
      if dropped.Failure? {
        return Failure(dropped.error);
      }
      RemoveKeepsStored(tenants, nextId, id);
      tenants := tenants - {id};
      r := Success(());
    }

    /** `activateTenant` (`active`) and `deactivateTenant` (`!active`): only the flag changes. */
    method SetTenantActive(id: int, active: bool) returns (r: Result<(), TenantError>)
      requires Valid()
      modifies this
      ensures Valid()
      ensures id !in old(tenants) ==> r == Failure(TenantNotFound(id)) && tenants == old(tenants)
      ensures id in old(tenants) ==> r == Success(()) && tenants == WithActive(old(tenants), id, active)
    {
      var found := FindEntityById(id);
      if found.Failure? {
        return Failure(found.error);
      }
      WithActiveKeepsUnique(tenants, id, active);
      tenants := WithActive(tenants, id, active);
      r := Success(());
    }

    /** `activateTenant`. */
    method ActivateTenant(id: int) returns (r: Result<(), TenantError>)
      requires Valid()
      modifies this
      ensures Valid()
      ensures id !in old(tenants) ==> r == Failure(TenantNotFound(id)) && tenants == old(tenants)
      ensures id in old(tenants) ==> r == Success(()) && tenants == WithActive(old(tenants), id, true)
    {
      r := SetTenantActive(id, true);
    }

    /** `deactivateTenant`. */
    method DeactivateTenant(id: int) returns (r: Result<(), TenantError>)
      requires Valid()
      modifies this
      ensures Valid()
      ensures id !in old(tenants) ==> r == Failure(TenantNotFound(id)) && tenants == old(tenants)
      ensures id in old(tenants) ==> r == Success(()) && tenants == WithActive(old(tenants), id, false)
    {
      r := SetTenantActive(id, false);
    }
  }

  /**
   * Registering the same request twice: the first registration succeeds with
   * the defaults filled in, the second is refused for its name and leaves the
   * registry and the schemas as the first one left them.
   */
  method RegisterTwice(dto: TenantDto)
    returns (first: Result<Tenant, TenantError>, second: Result<Tenant, TenantError>,
             count: nat, schemas: set<string>)
    requires ValidDto(dto)
    ensures first.Success? && first.value.isActive && first.value.id == Some(1)
    ensures first.value.maxUsers == (if dto.maxUsers.Some? then dto.maxUsers.value else DefaultMaxUsers)
    ensures second == Failure(DuplicateName(dto.name))
    ensures count == 1 && schemas == {dto.schemaName}
  {
    var db := new Db({});
    var service := new TenantService(db);
    first := service.CreateTenant(dto, false);
    second := service.CreateTenant(dto, false);
    count, schemas := |service.tenants.Keys|, db.schemas;
  }

  /**
   * A fresh registry after registering `dto` and deactivating it: the tenant
   * keeps id 1 and everything it was registered with except the flag.
   */
  method RegisterThenDeactivate(dto: TenantDto) returns (registry: TenantService)
    requires ValidDto(dto)
    ensures 1 in registry.tenants
    ensures registry.tenants[1] == Registered(dto, 1).(isActive := false)
  {
    var db := new Db({});
    registry := new TenantService(db);
    var created := registry.CreateTenant(dto, false);
    assert registry.tenants == map[1 := created.value];
    var _ := registry.DeactivateTenant(1);
  }

  /**
   * Deactivating twice leaves the same registry as deactivating once, and
   * activating restores the tenant exactly.
   */
  method DeactivateTwiceThenActivate(dto: TenantDto)
    returns (once: Tenant, twice: Tenant, restored: Tenant, registered: Tenant)
    requires ValidDto(dto)
    ensures !once.isActive && twice == once && once == registered.(isActive := false)
    ensures restored == registered
  {
    var db := new Db({});
    var service := new TenantService(db);
    var created := service.CreateTenant(dto, false);
    registered := created.value;
    var _ := service.DeactivateTenant(1);
    once := service.tenants[1];
    var _ := service.DeactivateTenant(1);
    twice := service.tenants[1];
    var _ := service.ActivateTenant(1);
    restored := service.tenants[1];
  }
}
