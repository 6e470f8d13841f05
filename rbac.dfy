/**
 * The RBAC engine (`RbacService`): role, resource and permission management,
 * the two set-valued assignments (role -> permissions, account -> roles), the
 * read-only checks `hasPermission` and `isAdmin`, and the seeding of the two
 * default roles.
 *
 * Each state-changing operation is a transition function on a database
 * snapshot (`...Step`) and a method on the shared `Store` proved to perform
 * exactly that transition; the lemmas state what the transitions guarantee.
 */
module Rbac {
  import opened Wrappers
  import opened Entities
  import opened Repository

  /** The exceptions the service throws (their messages name the offending name or id). */
  datatype RbacError =
    | RoleExists(name: string)
    | ResourceExists(name: string)
    | ResourceNotFound(resourceId: Id)
    | PermissionExists
    | RoleNotFound(roleId: Id)
    | PermissionNotFound(permissionId: Id)
    | UserNotFound(userId: nat)
    | PathNotUnique(path: string)

  const AdminRole: string := "ADMIN"
  const UserRole: string := "USER"

  // ================================================================ transitions

  /** `createRole`: a role name may be used once; a new role starts without permissions. */
  ghost function CreateRoleStep(db: Db, name: string, description: Option<string>): (o: Outcome<Id, RbacError>)
    ensures o.result.Err? <==> exists id :: id in db.roles && db.roles[id].name == name
    ensures o.result.Err? ==> o.result.error == RoleExists(name) && o.after == db
    ensures o.result.Ok? ==>
      o.after == db.(roles := db.roles[o.result.value := Role(name, description, {})], nextId := o.after.nextId)
  {
    if RolesNamed(db.roles, name) != {} then Outcome(Err(RoleExists(name)), db)
    else
      assert forall id :: id in db.roles ==> id !in RolesNamed(db.roles, name);
      Outcome(Ok(db.nextId), db.(roles := db.roles[db.nextId := Role(name, description, {})], nextId := db.nextId + 1))
  }

  /** `deleteRole`: removes the role and every account's link to it; an unknown id changes nothing. */
  ghost function DeleteRoleStep(db: Db, roleId: Id): Db
  {
    db.(roles := db.roles - {roleId},
        accounts := seq(|db.accounts|, i requires 0 <= i < |db.accounts| =>
                          db.accounts[i].(roles := db.accounts[i].roles - {roleId})))
  }

  /** `createResource`: rejects a taken name only; a taken path is accepted. */
  ghost function CreateResourceStep(db: Db, name: string, description: Option<string>, path: string): (o: Outcome<Id, RbacError>)
    ensures o.result.Err? <==> ResourceNameTaken(db.resources, name)
    ensures o.result.Err? ==> o.result.error == ResourceExists(name) && o.after == db
    ensures o.result.Ok? ==>
      o.after == db.(resources := db.resources[o.result.value := Resource(name, description, path)],
                        nextId := o.after.nextId)
  {
    if ResourceNameTaken(db.resources, name) then Outcome(Err(ResourceExists(name)), db)
    else
      Outcome(Ok(db.nextId),
              db.(resources := db.resources[db.nextId := Resource(name, description, path)], nextId := db.nextId + 1))
  }

  /** The permissions that belong to a resource (the inverse of `Permission.resource`). */
  ghost function PermissionsOf(db: Db, resourceId: Id): set<Id>
  {
    set p | p in db.permissions && db.permissions[p].resource == resourceId
  }

  /**
   * `deleteResource`: removes the resource and, by cascade, its permissions,
   * which also leave every role that held them.
   */
  ghost function DeleteResourceStep(db: Db, resourceId: Id): Db
  {
    var gone := PermissionsOf(db, resourceId);
    db.(resources := db.resources - {resourceId},
        permissions := db.permissions - gone,
        roles := map r | r in db.roles :: db.roles[r].(permissions := db.roles[r].permissions - gone))
  }

  /** `createPermission`: the resource must exist and the (resource, operation) pair must be new. */
  ghost function CreatePermissionStep(db: Db, resourceId: Id, op: Operation): (o: Outcome<Id, RbacError>)
    ensures o.result.Err? <==>
      resourceId !in db.resources || exists p :: p in db.permissions && db.permissions[p] == Permission(resourceId, op)
    ensures o.result.Err? ==> o.after == db
    ensures resourceId !in db.resources ==> o.result == Err(ResourceNotFound(resourceId))
    ensures resourceId in db.resources && o.result.Err? ==> o.result == Err(PermissionExists)
    ensures o.result.Ok? ==>
      o.after == db.(permissions := db.permissions[o.result.value := Permission(resourceId, op)],
                        nextId := o.after.nextId)
  {
    if resourceId !in db.resources then Outcome(Err(ResourceNotFound(resourceId)), db)
    else if exists p :: p in db.permissions && db.permissions[p] == Permission(resourceId, op) then
      Outcome(Err(PermissionExists), db)
    else
      Outcome(Ok(db.nextId),
              db.(permissions := db.permissions[db.nextId := Permission(resourceId, op)], nextId := db.nextId + 1))
  }

  /** `deletePermission`: removes the permission and every role's link to it. */
  ghost function DeletePermissionStep(db: Db, permissionId: Id): Db
  {
    db.(permissions := db.permissions - {permissionId},
        roles := map r | r in db.roles :: db.roles[r].(permissions := db.roles[r].permissions - {permissionId}))
  }

  /** `assignPermissionToRole` (insert = true) and `removePermissionFromRole` (insert = false). */
  ghost function RolePermissionStep(db: Db, roleId: Id, permissionId: Id, insert: bool): (o: Outcome<(), RbacError>)
    ensures o.result.Err? <==> roleId !in db.roles || permissionId !in db.permissions
    ensures o.result.Err? ==> o.after == db
    ensures roleId !in db.roles ==> o.result == Err(RoleNotFound(roleId))
    ensures roleId in db.roles && permissionId !in db.permissions ==> o.result == Err(PermissionNotFound(permissionId))
    ensures o.result.Ok? ==>
      && roleId in o.after.roles
      && o.after.roles.Keys == db.roles.Keys
      && (insert ==> o.after.roles[roleId].permissions == db.roles[roleId].permissions + {permissionId})
      && (!insert ==> o.after.roles[roleId].permissions == db.roles[roleId].permissions - {permissionId})
      && o.after.roles[roleId].name == db.roles[roleId].name
      && (forall r :: r in db.roles && r != roleId ==> o.after.roles[r] == db.roles[r])
      && o.after.(roles := db.roles) == db
  {
    if roleId !in db.roles then Outcome(Err(RoleNotFound(roleId)), db)
    else if permissionId !in db.permissions then Outcome(Err(PermissionNotFound(permissionId)), db)
    else
      var role := db.roles[roleId];
      var held := if insert then role.permissions + {permissionId} else role.permissions - {permissionId};
      Outcome(Ok(()), db.(roles := db.roles[roleId := role.(permissions := held)]))
  }

  /** `assignRoleToUser` (insert = true) and `removeRoleFromUser` (insert = false). */
  ghost function AccountRoleStep(db: Db, userId: nat, roleId: Id, insert: bool): (o: Outcome<(), RbacError>)
    ensures o.result.Err? <==> userId >= |db.accounts| || roleId !in db.roles
    ensures o.result.Err? ==> o.after == db
    ensures userId >= |db.accounts| ==> o.result == Err(UserNotFound(userId))
    ensures userId < |db.accounts| && roleId !in db.roles ==> o.result == Err(RoleNotFound(roleId))
    ensures o.result.Ok? ==>
      && |o.after.accounts| == |db.accounts|
      && (insert ==> o.after.accounts[userId].roles == db.accounts[userId].roles + {roleId})
      && (!insert ==> o.after.accounts[userId].roles == db.accounts[userId].roles - {roleId})
      && o.after.accounts[userId].(roles := db.accounts[userId].roles) == db.accounts[userId]
      && (forall i :: 0 <= i < |db.accounts| && i != userId ==> o.after.accounts[i] == db.accounts[i])
      && o.after.(accounts := db.accounts) == db
  {
    if userId >= |db.accounts| then Outcome(Err(UserNotFound(userId)), db)
    else if roleId !in db.roles then Outcome(Err(RoleNotFound(roleId)), db)
    else
      var account := db.accounts[userId];
      var held := if insert then account.roles + {roleId} else account.roles - {roleId};
      Outcome(Ok(()), db.(accounts := db.accounts[userId := account.(roles := held)]))
  }

  /** `initializeDefaultRoles`: creates `ADMIN`, then `USER`, each only when missing. */
  ghost function InitializeDefaultRolesStep(db: Db): Db
  {
    var withAdmin := CreateRoleStep(db, AdminRole, Some("Administrator with full access")).after;
    CreateRoleStep(withAdmin, UserRole, Some("Regular user with limited access")).after
  }

  // ================================================================ checks

  /** Permission `p` is the pair (resource, op). */
  ghost predicate Matches(db: Db, p: Id, resourceId: Id, op: Operation)
  {
    p in db.permissions && db.permissions[p] == Permission(resourceId, op)
  }

  /** Role `r` holds a permission for (resource, op). */
  ghost predicate RoleGrants(db: Db, r: Id, resourceId: Id, op: Operation)
  {
    r in db.roles && exists p :: p in db.roles[r].permissions && Matches(db, p, resourceId, op)
  }

  /** Account `i` holds a role that holds a permission for (resource, op). */
  ghost predicate AccountGrants(db: Db, i: nat, resourceId: Id, op: Operation)
    requires i < |db.accounts|
  {
    exists r :: r in db.accounts[i].roles && RoleGrants(db, r, resourceId, op)
  }

  /** Some account with this email holds a role that holds a permission for (resource, op). */
  ghost predicate ClusterGrants(db: Db, email: string, resourceId: Id, op: Operation)
  {
    exists i :: 0 <= i < |db.accounts| && db.accounts[i].email == email && AccountGrants(db, i, resourceId, op)
  }

  /**
   * What `hasPermission` answers: deny an email without accounts; allow a path
   * no resource is registered at (fail-open); fail when several resources share
   * the path; otherwise allow iff some account of the email is granted the pair.
   */
  ghost function PermissionCheck(db: Db, email: string, path: string, op: Operation): Result<bool, RbacError>
  {
    if |Cluster(db.accounts, email)| == 0 then Ok(false)
    else
      match FindByPath(db.resources, path)
      case NotRegistered => Ok(true)
      case NotUnique => Err(PathNotUnique(path))
      case Unique(resourceId) => Ok(ClusterGrants(db, email, resourceId, op))
  }

  /** Account `i` holds a role with exactly this name. */
  ghost predicate HoldsRoleNamed(db: Db, i: nat, name: string)
    requires i < |db.accounts|
  {
    exists r :: r in db.accounts[i].roles && r in db.roles && db.roles[r].name == name
  }

  /** What `isAdmin` answers: some account with this email holds the role named `ADMIN`. */
  ghost predicate AdminCheck(db: Db, email: string)
  {
    exists i :: 0 <= i < |db.accounts| && db.accounts[i].email == email && HoldsRoleNamed(db, i, AdminRole)
  }

  // ================================================================ methods

  method CreateRole(s: Store, name: string, description: Option<string>) returns (r: Result<Id, RbacError>)
    requires s.Valid()
    modifies s`roles, s`nextId
    ensures s.Valid()
    ensures Outcome(r, s.Snapshot()) == CreateRoleStep(old(s.Snapshot()), name, description)
  {
    CreateRoleKeepsConsistent(s.Snapshot(), name, description);
    if RolesNamed(s.roles, name) != {} {
      return Err(RoleExists(name));
    }
    r := Ok(s.nextId);
    s.roles := s.roles[s.nextId := Role(name, description, {})];
    s.nextId := s.nextId + 1;
  }

  method DeleteRole(s: Store, roleId: Id)
    requires s.Valid()
    modifies s`roles, s`accounts
    ensures s.Valid()
    ensures s.Snapshot() == DeleteRoleStep(old(s.Snapshot()), roleId)
  {
    DeleteRoleKeepsConsistent(s.Snapshot(), roleId);
    var accounts := s.accounts;
    s.roles := s.roles - {roleId};
    s.accounts := seq(|accounts|, i requires 0 <= i < |accounts| =>
                        accounts[i].(roles := accounts[i].roles - {roleId}));
  }

  method CreateResource(s: Store, name: string, description: Option<string>, path: string)
    returns (r: Result<Id, RbacError>)
    requires s.Valid()
    modifies s`resources, s`nextId
    ensures s.Valid()
    ensures Outcome(r, s.Snapshot()) == CreateResourceStep(old(s.Snapshot()), name, description, path)
  {
    CreateResourceKeepsConsistent(s.Snapshot(), name, description, path);
    if ResourceNameTaken(s.resources, name) {
      return Err(ResourceExists(name));
    }
    r := Ok(s.nextId);
    s.resources := s.resources[s.nextId := Resource(name, description, path)];
    s.nextId := s.nextId + 1;
  }

  method DeleteResource(s: Store, resourceId: Id)
    requires s.Valid()
    modifies s`resources, s`permissions, s`roles
    ensures s.Valid()
    ensures s.Snapshot() == DeleteResourceStep(old(s.Snapshot()), resourceId)
  {
    DeleteResourceKeepsConsistent(s.Snapshot(), resourceId);
    var gone := set p | p in s.permissions && s.permissions[p].resource == resourceId;
    s.resources := s.resources - {resourceId};
    s.permissions := s.permissions - gone;
    s.roles := map r | r in s.roles :: s.roles[r].(permissions := s.roles[r].permissions - gone);
  }

  method CreatePermission(s: Store, resourceId: Id, op: Operation) returns (r: Result<Id, RbacError>)
    requires s.Valid()
    modifies s`permissions, s`nextId
    ensures s.Valid()
    ensures Outcome(r, s.Snapshot()) == CreatePermissionStep(old(s.Snapshot()), resourceId, op)
  {
    CreatePermissionKeepsConsistent(s.Snapshot(), resourceId, op);
    if resourceId !in s.resources {
      return Err(ResourceNotFound(resourceId));
    }
    if exists p :: p in s.permissions && s.permissions[p] == Permission(resourceId, op) {
      return Err(PermissionExists);
    }
    r := Ok(s.nextId);
    s.permissions := s.permissions[s.nextId := Permission(resourceId, op)];
    s.nextId := s.nextId + 1;
  }

  method DeletePermission(s: Store, permissionId: Id)
    requires s.Valid()
    modifies s`permissions, s`roles
    ensures s.Valid()
    ensures s.Snapshot() == DeletePermissionStep(old(s.Snapshot()), permissionId)
  {
    DeletePermissionKeepsConsistent(s.Snapshot(), permissionId);
    s.permissions := s.permissions - {permissionId};
    s.roles := map r | r in s.roles :: s.roles[r].(permissions := s.roles[r].permissions - {permissionId});
  }

  method AssignPermissionToRole(s: Store, roleId: Id, permissionId: Id) returns (r: Result<(), RbacError>)
    requires s.Valid()
    modifies s`roles
    ensures s.Valid()
    ensures Outcome(r, s.Snapshot()) == RolePermissionStep(old(s.Snapshot()), roleId, permissionId, true)
  {
    r := ChangeRolePermissions(s, roleId, permissionId, true);
  }

  method RemovePermissionFromRole(s: Store, roleId: Id, permissionId: Id) returns (r: Result<(), RbacError>)
    requires s.Valid()
    modifies s`roles
    ensures s.Valid()
    ensures Outcome(r, s.Snapshot()) == RolePermissionStep(old(s.Snapshot()), roleId, permissionId, false)
  {
    r := ChangeRolePermissions(s, roleId, permissionId, false);
  }

  /** Looks up the role and the permission, then adds or removes the link and saves the role. */
  method ChangeRolePermissions(s: Store, roleId: Id, permissionId: Id, insert: bool) returns (r: Result<(), RbacError>)
    requires s.Valid()
    modifies s`roles
    ensures s.Valid()
    ensures Outcome(r, s.Snapshot()) == RolePermissionStep(old(s.Snapshot()), roleId, permissionId, insert)
  {
    RolePermissionKeepsConsistent(s.Snapshot(), roleId, permissionId, insert);
    if roleId !in s.roles {
      return Err(RoleNotFound(roleId));
    }
    if permissionId !in s.permissions {
      return Err(PermissionNotFound(permissionId));
    }
    var role := s.roles[roleId];
    if insert {
      role := role.(permissions := role.permissions + {permissionId});
    } else {
      role := role.(permissions := role.permissions - {permissionId});
    }
    s.roles := s.roles[roleId := role];
    r := Ok(());
  }

  method AssignRoleToUser(s: Store, userId: nat, roleId: Id) returns (r: Result<(), RbacError>)
    requires s.Valid()
    modifies s`accounts
    ensures s.Valid()
    ensures Outcome(r, s.Snapshot()) == AccountRoleStep(old(s.Snapshot()), userId, roleId, true)
  {
    r := ChangeAccountRoles(s, userId, roleId, true);
  }

  method RemoveRoleFromUser(s: Store, userId: nat, roleId: Id) returns (r: Result<(), RbacError>)
    requires s.Valid()
    modifies s`accounts
    ensures s.Valid()
    ensures Outcome(r, s.Snapshot()) == AccountRoleStep(old(s.Snapshot()), userId, roleId, false)
  {
    r := ChangeAccountRoles(s, userId, roleId, false);
  }

  /** Looks up the account and the role, then adds or removes the link and saves the account. */
  method ChangeAccountRoles(s: Store, userId: nat, roleId: Id, insert: bool) returns (r: Result<(), RbacError>)
    requires s.Valid()
    modifies s`accounts
    ensures s.Valid()
    ensures Outcome(r, s.Snapshot()) == AccountRoleStep(old(s.Snapshot()), userId, roleId, insert)
  {
    AccountRoleKeepsConsistent(s.Snapshot(), userId, roleId, insert);
    if userId >= |s.accounts| {
      return Err(UserNotFound(userId));
    }
    if roleId !in s.roles {
      return Err(RoleNotFound(roleId));
    }
    var account := s.accounts[userId];
    if insert {
      account := account.(roles := account.roles + {roleId});
    } else {
      account := account.(roles := account.roles - {roleId});
    }
    s.accounts := s.accounts[userId := account];
    r := Ok(());
  }

  method InitializeDefaultRoles(s: Store)
    requires s.Valid()
    modifies s`roles, s`nextId
    ensures s.Valid()
    ensures s.Snapshot() == InitializeDefaultRolesStep(old(s.Snapshot()))
  {
    var _ := CreateRole(s, AdminRole, Some("Administrator with full access"));
    var _ := CreateRole(s, UserRole, Some("Regular user with limited access"));
  }

  /** `hasPermission`: a search over the cluster's accounts, their roles and the roles' permissions. */
  method HasPermission(s: Store, email: string, path: string, op: Operation) returns (r: Result<bool, RbacError>)
    requires s.Valid()
    ensures r == PermissionCheck(s.Snapshot(), email, path, op)
  {
    ghost var db := s.Snapshot();
    var users := Cluster(s.accounts, email);
    if |users| == 0 {
      return Ok(false);
    }
    var ids := ResourcesAtPath(s.resources, path);
    if ids == {} {
      assert forall id :: id in s.resources ==> id !in ids;
      return Ok(true);
    }
    if |ids| != 1 {
      return Err(PathNotUnique(path));
    }
    var resourceId :| resourceId in ids;
    assert FindByPath(s.resources, path) == Unique(resourceId);
    var k := 0;
    while k < |users|
      invariant 0 <= k <= |users|
      invariant forall j :: 0 <= j < k ==> !AccountGrants(db, users[j], resourceId, op)
    {
      var granted := AccountHolds(s, users[k], resourceId, op);
      if granted {
        return Ok(true);
      }
      k := k + 1;
    }
    assert !ClusterGrants(db, email, resourceId, op) by {
      forall i | 0 <= i < |db.accounts| && db.accounts[i].email == email
        ensures !AccountGrants(db, i, resourceId, op)
      {
        var j :| 0 <= j < |users| && users[j] == i;
      }
    }
    return Ok(false);
  }

  /** The loop of `hasPermission` over one account's roles. */
  method AccountHolds(s: Store, i: nat, resourceId: Id, op: Operation) returns (granted: bool)
    requires s.Valid() && i < |s.accounts|
    ensures granted == AccountGrants(s.Snapshot(), i, resourceId, op)
  {
    ghost var db := s.Snapshot();
    var roleIds := s.accounts[i].roles;
    while roleIds != {}
      invariant roleIds <= s.accounts[i].roles
      invariant forall q :: q in s.accounts[i].roles && q !in roleIds ==> !RoleGrants(db, q, resourceId, op)
      decreases roleIds
    {
      var q :| q in roleIds;
      granted := RoleHolds(s, q, resourceId, op);
      if granted {
        return;
      }
      roleIds := roleIds - {q};
    }
    return false;
  }

  /** The loop of `hasPermission` over one role's permissions. */
  method RoleHolds(s: Store, roleId: Id, resourceId: Id, op: Operation) returns (granted: bool)
    requires s.Valid() && roleId in s.roles
    ensures granted == RoleGrants(s.Snapshot(), roleId, resourceId, op)
  {
    ghost var db := s.Snapshot();
    var perms := s.roles[roleId].permissions;
    while perms != {}
      invariant perms <= s.roles[roleId].permissions
      invariant forall p :: p in s.roles[roleId].permissions && p !in perms ==> !Matches(db, p, resourceId, op)
      decreases perms
    {
      var p :| p in perms;
      if s.permissions[p].resource == resourceId && s.permissions[p].operation == op {
        assert Matches(db, p, resourceId, op);
        return true;
      }
      perms := perms - {p};
    }
    return false;
  }

  /** `isAdmin`: a search over the cluster's accounts and their roles for the name `ADMIN`. */
  method IsAdmin(s: Store, email: string) returns (r: bool)
    requires s.Valid()
    ensures r == AdminCheck(s.Snapshot(), email)
  {
    ghost var db := s.Snapshot();
    var users := Cluster(s.accounts, email);
    var k := 0;
    while k < |users|
      invariant 0 <= k <= |users|
      invariant forall j :: 0 <= j < k ==> !HoldsRoleNamed(db, users[j], AdminRole)
    {
      var account := s.accounts[users[k]];
      var roleIds := account.roles;
      while roleIds != {}
        invariant roleIds <= account.roles
        invariant forall q :: q in account.roles && q !in roleIds ==> q in s.roles && s.roles[q].name != AdminRole
        decreases roleIds
      {
        var q :| q in roleIds;
        if s.roles[q].name == AdminRole {
          assert HoldsRoleNamed(db, users[k], AdminRole);
          return true;
        }
        roleIds := roleIds - {q};
      }
      k := k + 1;
    }
    assert !AdminCheck(db, email) by {
      forall i | 0 <= i < |db.accounts| && db.accounts[i].email == email
        ensures !HoldsRoleNamed(db, i, AdminRole)
      {
        var j :| 0 <= j < |users| && users[j] == i;
      }
    }
    return false;
  }

  // ================================================================ consistency

  lemma CreateRoleKeepsConsistent(db: Db, name: string, description: Option<string>)
    requires Consistent(db)
    ensures Consistent(CreateRoleStep(db, name, description).after)
  {
  }

  lemma DeleteRoleKeepsConsistent(db: Db, roleId: Id)
    requires Consistent(db)
    ensures Consistent(DeleteRoleStep(db, roleId))
  {
  }

  lemma CreateResourceKeepsConsistent(db: Db, name: string, description: Option<string>, path: string)
    requires Consistent(db)
    ensures Consistent(CreateResourceStep(db, name, description, path).after)
  {
  }

  lemma DeleteResourceKeepsConsistent(db: Db, resourceId: Id)
    requires Consistent(db)
    ensures Consistent(DeleteResourceStep(db, resourceId))
  {
  }

  lemma CreatePermissionKeepsConsistent(db: Db, resourceId: Id, op: Operation)
    requires Consistent(db)
    ensures Consistent(CreatePermissionStep(db, resourceId, op).after)
  {
  }

  lemma DeletePermissionKeepsConsistent(db: Db, permissionId: Id)
    requires Consistent(db)
    ensures Consistent(DeletePermissionStep(db, permissionId))
  {
  }

  lemma RolePermissionKeepsConsistent(db: Db, roleId: Id, permissionId: Id, insert: bool)
    requires Consistent(db)
    ensures Consistent(RolePermissionStep(db, roleId, permissionId, insert).after)
  {
  }

  lemma AccountRoleKeepsConsistent(db: Db, userId: nat, roleId: Id, insert: bool)
    requires Consistent(db)
    ensures Consistent(AccountRoleStep(db, userId, roleId, insert).after)
  {
  }
}
