/**
 * What the RBAC transitions and checks guarantee: uniqueness on create,
 * idempotent set assignment, cascade on delete, the order of the checks in
 * `hasPermission` (unknown email first, then fail-open), grant and revoke.
 */
module RbacProperties {
  import opened Wrappers
  import opened Entities
  import opened Repository
  import opened Rbac

  // ================================================================ creation

  /** A successful `createRole` adds exactly one role, under a fresh id, and its name is now taken once. */
  lemma CreateRoleAddsOne(db: Db, name: string, description: Option<string>)
    requires IdsFresh(db)
    ensures var o := CreateRoleStep(db, name, description);
      o.result.Ok? ==>
        && o.result.value !in db.roles
        && o.after.roles.Keys == db.roles.Keys + {o.result.value}
        && RolesNamed(o.after.roles, name) == {o.result.value}
  {
    var o := CreateRoleStep(db, name, description);
    if o.result.Ok? {
      var id := o.result.value;
      assert id !in db.roles;
      assert o.after.roles.Keys == db.roles.Keys + {id};
      assert forall x :: x in RolesNamed(o.after.roles, name) ==> x == id;
      assert id in RolesNamed(o.after.roles, name);
    }
  }

  /**
   * `createResource` checks the name only: a second resource at a taken path
   * is accepted, after which `findByPath` for that path no longer has a single
   * answer and `hasPermission` on it fails for every known email.
   */
  lemma DuplicatePathAccepted(db: Db, name: string, description: Option<string>, path: string,
                              existing: Id, email: string, op: Operation)
    requires Consistent(db)
    requires !ResourceNameTaken(db.resources, name)
    requires existing in db.resources && db.resources[existing].path == path
    requires exists i :: 0 <= i < |db.accounts| && db.accounts[i].email == email
    ensures var o := CreateResourceStep(db, name, description, path);
      && o.result.Ok?
      && FindByPath(o.after.resources, path) == NotUnique
      && PermissionCheck(o.after, email, path, op) == Err(PathNotUnique(path))
  {
    var o := CreateResourceStep(db, name, description, path);
    var id := o.result.value;
    var ids := ResourcesAtPath(o.after.resources, path);
    assert id != existing;
    assert existing in ids && id in ids;
    assert |ids - {existing}| == |ids| - 1;
    assert id in ids - {existing};
    ClusterEmptyIff(o.after.accounts, email);
  }

  /** A successful `createPermission` makes the new permission the only one for its (resource, operation). */
  lemma CreatePermissionIsOnlyMatch(db: Db, resourceId: Id, op: Operation)
    requires Consistent(db)
    ensures var o := CreatePermissionStep(db, resourceId, op);
      o.result.Ok? ==>
        && o.result.value !in db.permissions
        && forall p :: p in o.after.permissions ==>
             (o.after.permissions[p] == Permission(resourceId, op) <==> p == o.result.value)
  {
  }

  // ================================================================ assignment

  /** Assigning or removing a permission twice is the same as doing it once, errors included. */
  lemma {:induction false} RolePermissionIdempotent(db: Db, roleId: Id, permissionId: Id, insert: bool)
    ensures var o := RolePermissionStep(db, roleId, permissionId, insert);
      RolePermissionStep(o.after, roleId, permissionId, insert) == o
  {
    var o := RolePermissionStep(db, roleId, permissionId, insert);
    if o.result.Ok? {
      var role := o.after.roles[roleId];
      var held := if insert then role.permissions + {permissionId} else role.permissions - {permissionId};
      assert held == role.permissions;
      assert o.after.roles[roleId := role.(permissions := held)] == o.after.roles;
    }
  }

  /** Assigning a permission the role did not hold and then removing it restores the database. */
  lemma AssignThenRemoveRestores(db: Db, roleId: Id, permissionId: Id)
    requires roleId in db.roles && permissionId !in db.roles[roleId].permissions
    ensures var withLink := RolePermissionStep(db, roleId, permissionId, true).after;
      RolePermissionStep(withLink, roleId, permissionId, false).after == db
  {
    var withLink := RolePermissionStep(db, roleId, permissionId, true).after;
    var removed := RolePermissionStep(withLink, roleId, permissionId, false).after;
    if permissionId in db.permissions {
      assert removed.roles[roleId] == db.roles[roleId];
      assert removed.roles == db.roles;
    }
  }

  /** Assigning or removing a role twice is the same as doing it once, errors included. */
  lemma {:induction false} AccountRoleIdempotent(db: Db, userId: nat, roleId: Id, insert: bool)
    ensures var o := AccountRoleStep(db, userId, roleId, insert);
      AccountRoleStep(o.after, userId, roleId, insert) == o
  {
    var o := AccountRoleStep(db, userId, roleId, insert);
    if o.result.Ok? {
      var account := o.after.accounts[userId];
      var held := if insert then account.roles + {roleId} else account.roles - {roleId};
      assert held == account.roles;
      assert o.after.accounts[userId := account.(roles := held)] == o.after.accounts;
    }
  }

  /** `Role.users`: the accounts that hold a role, the inverse of the accounts' role sets. */
  ghost function UsersOf(db: Db, roleId: Id): set<nat>
  {
    set i | 0 <= i < |db.accounts| && roleId in db.accounts[i].roles
  }

  /** `Permission.roles`: the roles that hold a permission, the inverse of the roles' permission sets. */
  ghost function RolesHolding(db: Db, permissionId: Id): set<Id>
  {
    set r | r in db.roles && permissionId in db.roles[r].permissions
  }

  /** Assigning a role to an account adds exactly that account to the role's users; removing takes it out. */
  lemma AccountRoleMovesOneUser(db: Db, userId: nat, roleId: Id, insert: bool)
    requires userId < |db.accounts| && roleId in db.roles
    ensures var after := AccountRoleStep(db, userId, roleId, insert).after;
      UsersOf(after, roleId) == if insert then UsersOf(db, roleId) + {userId} else UsersOf(db, roleId) - {userId}
  {
  }

  /** Assigning a permission to a role adds exactly that role to the permission's roles; removing takes it out. */
  lemma RolePermissionMovesOneRole(db: Db, roleId: Id, permissionId: Id, insert: bool)
    requires roleId in db.roles && permissionId in db.permissions
    ensures var after := RolePermissionStep(db, roleId, permissionId, insert).after;
      RolesHolding(after, permissionId) ==
        if insert then RolesHolding(db, permissionId) + {roleId} else RolesHolding(db, permissionId) - {roleId}
  {
  }

  // ================================================================ deletion

  /** Deleting a resource takes its permissions with it, out of every role, and keeps all others. */
  lemma DeleteResourceCascades(db: Db, resourceId: Id)
    ensures var after := DeleteResourceStep(db, resourceId);
      && resourceId !in after.resources
      && PermissionsOf(after, resourceId) == {}
      && (forall p :: p in db.permissions && db.permissions[p].resource != resourceId ==>
            p in after.permissions && after.permissions[p] == db.permissions[p])
      && (forall r, p :: r in after.roles && p in after.roles[r].permissions ==>
            p !in PermissionsOf(db, resourceId))
      && after.roles.Keys == db.roles.Keys
  {
  }

  /** Deleting a role twice is the same as deleting it once. */
  lemma DeleteRoleIdempotent(db: Db, roleId: Id)
    ensures DeleteRoleStep(DeleteRoleStep(db, roleId), roleId) == DeleteRoleStep(db, roleId)
  {
    var once := DeleteRoleStep(db, roleId);
    var twice := DeleteRoleStep(once, roleId);
    forall i | 0 <= i < |once.accounts| ensures twice.accounts[i] == once.accounts[i] {
      assert once.accounts[i].roles - {roleId} == once.accounts[i].roles;
    }
    assert twice.accounts == once.accounts;
  }

  // ================================================================ seeding

  /** After seeding, both default roles exist, and the database is still consistent. */
  lemma SeedingEstablishesDefaults(db: Db)
    requires Consistent(db)
    ensures var after := InitializeDefaultRolesStep(db);
      && Consistent(after)
      && RolesNamed(after.roles, AdminRole) != {}
      && RolesNamed(after.roles, UserRole) != {}
      && db.roles.Keys <= after.roles.Keys
      && after.accounts == db.accounts
  {
    var withAdmin := CreateRoleStep(db, AdminRole, Some("Administrator with full access"));
    var withUser := CreateRoleStep(withAdmin.after, UserRole, Some("Regular user with limited access"));
    CreateRoleKeepsConsistent(db, AdminRole, Some("Administrator with full access"));
    CreateRoleKeepsConsistent(withAdmin.after, UserRole, Some("Regular user with limited access"));
    var a :| a in withAdmin.after.roles && withAdmin.after.roles[a].name == AdminRole by {
      if withAdmin.result.Ok? {
        assert withAdmin.after.roles[withAdmin.result.value].name == AdminRole;
      }
    }
    assert a in RolesNamed(withUser.after.roles, AdminRole);
    var u :| u in withUser.after.roles && withUser.after.roles[u].name == UserRole by {
      if withUser.result.Ok? {
        assert withUser.after.roles[withUser.result.value].name == UserRole;
      }
    }
    assert u in RolesNamed(withUser.after.roles, UserRole);
  }

  /** When both default roles exist, seeding changes nothing; so a second seeding adds nothing. */
  lemma SeedingIdempotent(db: Db)
    requires Consistent(db)
    ensures RolesNamed(db.roles, AdminRole) != {} && RolesNamed(db.roles, UserRole) != {} ==>
              InitializeDefaultRolesStep(db) == db
    ensures InitializeDefaultRolesStep(InitializeDefaultRolesStep(db)) == InitializeDefaultRolesStep(db)
  {
    SeedingEstablishesDefaults(db);
    var once := InitializeDefaultRolesStep(db);
    var a :| a in RolesNamed(once.roles, AdminRole);
    var u :| u in RolesNamed(once.roles, UserRole);
    assert CreateRoleStep(once, AdminRole, Some("Administrator with full access")).after == once;
  }

  // ================================================================ checks

  /** An email without accounts is denied everything, even at an unregistered path, and is not an admin. */
  lemma UnknownEmailDenied(db: Db, email: string, path: string, op: Operation)
    requires forall i :: 0 <= i < |db.accounts| ==> db.accounts[i].email != email
    ensures PermissionCheck(db, email, path, op) == Ok(false)
    ensures !AdminCheck(db, email)
  {
    ClusterEmptyIff(db.accounts, email);
  }

  /** Fail-open: a known email is allowed at a path no resource is registered at, whatever its roles. */
  lemma UnregisteredPathAllowed(db: Db, email: string, path: string, op: Operation)
    requires exists i :: 0 <= i < |db.accounts| && db.accounts[i].email == email
    requires forall id :: id in db.resources ==> db.resources[id].path != path
    ensures PermissionCheck(db, email, path, op) == Ok(true)
  {
    ClusterEmptyIff(db.accounts, email);
  }

  /**
   * Granting: once a role held by an account of the email holds the
   * permission (resource, op), `hasPermission` allows that email at the
   * resource's path (when that path names one resource).
   */
  lemma AssignGrants(db: Db, roleId: Id, permissionId: Id, i: nat, path: string)
    requires roleId in db.roles && permissionId in db.permissions
    requires i < |db.accounts| && roleId in db.accounts[i].roles
    requires FindByPath(db.resources, path) == Unique(db.permissions[permissionId].resource)
    ensures var after := RolePermissionStep(db, roleId, permissionId, true).after;
      PermissionCheck(after, db.accounts[i].email, path, db.permissions[permissionId].operation) == Ok(true)
  {
    var after := RolePermissionStep(db, roleId, permissionId, true).after;
    var perm := db.permissions[permissionId];
    var email := db.accounts[i].email;
    assert Matches(after, permissionId, perm.resource, perm.operation);
    assert RoleGrants(after, roleId, perm.resource, perm.operation);
    assert AccountGrants(after, i, perm.resource, perm.operation);
    assert i in Cluster(after.accounts, email);
  }

  /** Some account of the email holds a role, other than `except`, that holds the permission. */
  ghost predicate HeldElsewhere(db: Db, email: string, permissionId: Id, except: Id)
  {
    exists i, r :: 0 <= i < |db.accounts| && db.accounts[i].email == email && r in db.accounts[i].roles
                   && r != except && r in db.roles && permissionId in db.roles[r].permissions
  }

  /**
   * Revoking: after the permission (resource, op) leaves a role, the email is
   * allowed iff another role of its accounts still holds that permission.
   */
  lemma RemoveRevokes(db: Db, roleId: Id, permissionId: Id, email: string, path: string)
    requires PermissionPairsUnique(db.permissions)
    requires roleId in db.roles && permissionId in db.permissions
    requires exists i :: 0 <= i < |db.accounts| && db.accounts[i].email == email
    requires FindByPath(db.resources, path) == Unique(db.permissions[permissionId].resource)
    ensures var after := RolePermissionStep(db, roleId, permissionId, false).after;
      PermissionCheck(after, email, path, db.permissions[permissionId].operation)
        == Ok(HeldElsewhere(db, email, permissionId, roleId))
  {
    var after := RolePermissionStep(db, roleId, permissionId, false).after;
    ClusterEmptyIff(after.accounts, email);
    RemovalKeepsOnlyOtherGrants(db, roleId, permissionId, email);
    RemovalKeepsOtherGrants(db, roleId, permissionId, email);
  }

  lemma RemovalKeepsOnlyOtherGrants(db: Db, roleId: Id, permissionId: Id, email: string)
    requires PermissionPairsUnique(db.permissions)
    requires roleId in db.roles && permissionId in db.permissions
    ensures var after := RolePermissionStep(db, roleId, permissionId, false).after;
      var perm := db.permissions[permissionId];
      ClusterGrants(after, email, perm.resource, perm.operation) ==> HeldElsewhere(db, email, permissionId, roleId)
  {
    var after := RolePermissionStep(db, roleId, permissionId, false).after;
    var perm := db.permissions[permissionId];
    if ClusterGrants(after, email, perm.resource, perm.operation) {
      var i :| 0 <= i < |after.accounts| && after.accounts[i].email == email
               && AccountGrants(after, i, perm.resource, perm.operation);
      var r :| r in after.accounts[i].roles && RoleGrants(after, r, perm.resource, perm.operation);
      var p :| p in after.roles[r].permissions && Matches(after, p, perm.resource, perm.operation);
      assert p == permissionId;
      assert r != roleId;
    }
  }

  lemma RemovalKeepsOtherGrants(db: Db, roleId: Id, permissionId: Id, email: string)
    requires roleId in db.roles && permissionId in db.permissions
    ensures var after := RolePermissionStep(db, roleId, permissionId, false).after;
      var perm := db.permissions[permissionId];
      HeldElsewhere(db, email, permissionId, roleId) ==> ClusterGrants(after, email, perm.resource, perm.operation)
  {
    var after := RolePermissionStep(db, roleId, permissionId, false).after;
    var perm := db.permissions[permissionId];
    if HeldElsewhere(db, email, permissionId, roleId) {
      var i, r :| 0 <= i < |db.accounts| && db.accounts[i].email == email && r in db.accounts[i].roles
                  && r != roleId && r in db.roles && permissionId in db.roles[r].permissions;
      assert Matches(after, permissionId, perm.resource, perm.operation);
      assert RoleGrants(after, r, perm.resource, perm.operation);
      assert AccountGrants(after, i, perm.resource, perm.operation);
    }
  }

  /**
   * Deleting a role revokes what it granted: afterwards the email is allowed
   * iff another role of its accounts still holds the permission.
   */
  lemma DeleteRoleRevokes(db: Db, roleId: Id, permissionId: Id, email: string, path: string)
    requires PermissionPairsUnique(db.permissions)
    requires permissionId in db.permissions
    requires exists i :: 0 <= i < |db.accounts| && db.accounts[i].email == email
    requires FindByPath(db.resources, path) == Unique(db.permissions[permissionId].resource)
    ensures var after := DeleteRoleStep(db, roleId);
      PermissionCheck(after, email, path, db.permissions[permissionId].operation)
        == Ok(HeldElsewhere(db, email, permissionId, roleId))
  {
    var after := DeleteRoleStep(db, roleId);
    ClusterDependsOnEmails(db.accounts, after.accounts, email);
    ClusterEmptyIff(after.accounts, email);
    DeletionKeepsOnlyOtherGrants(db, roleId, permissionId, email);
    DeletionKeepsOtherGrants(db, roleId, permissionId, email);
  }

  lemma DeletionKeepsOnlyOtherGrants(db: Db, roleId: Id, permissionId: Id, email: string)
    requires PermissionPairsUnique(db.permissions)
    requires permissionId in db.permissions
    ensures var after := DeleteRoleStep(db, roleId);
      var perm := db.permissions[permissionId];
      ClusterGrants(after, email, perm.resource, perm.operation) ==> HeldElsewhere(db, email, permissionId, roleId)
  {
    var after := DeleteRoleStep(db, roleId);
    var perm := db.permissions[permissionId];
    if ClusterGrants(after, email, perm.resource, perm.operation) {
      var i :| 0 <= i < |after.accounts| && after.accounts[i].email == email
               && AccountGrants(after, i, perm.resource, perm.operation);
      var r :| r in after.accounts[i].roles && RoleGrants(after, r, perm.resource, perm.operation);
      var p :| p in after.roles[r].permissions && Matches(after, p, perm.resource, perm.operation);
      assert p == permissionId;
    }
  }

  lemma DeletionKeepsOtherGrants(db: Db, roleId: Id, permissionId: Id, email: string)
    requires permissionId in db.permissions
    ensures var after := DeleteRoleStep(db, roleId);
      var perm := db.permissions[permissionId];
      HeldElsewhere(db, email, permissionId, roleId) ==> ClusterGrants(after, email, perm.resource, perm.operation)
  {
    var after := DeleteRoleStep(db, roleId);
    var perm := db.permissions[permissionId];
    if HeldElsewhere(db, email, permissionId, roleId) {
      var i, r :| 0 <= i < |db.accounts| && db.accounts[i].email == email && r in db.accounts[i].roles
                  && r != roleId && r in db.roles && permissionId in db.roles[r].permissions;
      assert r in after.accounts[i].roles;
      assert Matches(after, permissionId, perm.resource, perm.operation);
      assert RoleGrants(after, r, perm.resource, perm.operation);
      assert AccountGrants(after, i, perm.resource, perm.operation);
    }
  }

  /** A new resource is referenced by no permission yet. */
  lemma NewResourceHasNoPermissions(db: Db, name: string, description: Option<string>, path: string)
    requires Consistent(db)
    requires CreateResourceStep(db, name, description, path).result.Ok?
    ensures var o := CreateResourceStep(db, name, description, path);
            PermissionsOf(o.after, o.result.value) == {}
  {
    var o := CreateResourceStep(db, name, description, path);
    assert o.result.value == db.nextId && db.nextId !in db.resources;
  }
}
