/** What the permission gate promises, in terms of the RBAC checks. */
module PermissionGateProperties {
  import opened Wrappers
  import opened Entities
  import opened Repository
  import opened Rbac
  import opened RbacProperties
  import opened PermissionGate

  /** Handlers without an annotation in force pass whatever the database and the principal. */
  lemma UnannotatedAllowed(db: Db, handler: Handler, principal: Option<string>)
    requires handler.OtherHandler? || (handler.onMethod.None? && handler.onClass.None?)
    ensures Decide(db, handler, principal) == Allow
  {
  }

  /** A method annotation overrides the class annotation. */
  lemma MethodAnnotationWins(db: Db, req: Requirement, onClass: Option<Requirement>, principal: Option<string>)
    ensures Decide(db, HandlerMethod(Some(req), onClass), principal) == Decide(db, HandlerMethod(Some(req), None), principal)
    ensures Decide(db, HandlerMethod(None, Some(req)), principal) == Decide(db, HandlerMethod(Some(req), None), principal)
  {
  }

  /** A protected handler refuses anonymous requests with 401, before consulting the database. */
  lemma AnonymousUnauthorized(db: Db, handler: Handler)
    requires Annotation(handler).Some?
    ensures Decide(db, handler, None) == Deny(Unauthorized)
  {
  }

  /** A protected handler refuses a principal with 403 exactly when it is no administrator and lacks the permission. */
  lemma ForbiddenIff(db: Db, handler: Handler, email: string)
    requires Annotation(handler).Some?
    ensures var req := Annotation(handler).value;
            Decide(db, handler, Some(email)) == Deny(Forbidden) <==>
              !AdminCheck(db, email) && PermissionCheck(db, email, req.resource, req.operation) == Ok(false)
    ensures var req := Annotation(handler).value;
            Decide(db, handler, Some(email)) == Allow <==>
              AdminCheck(db, email) || PermissionCheck(db, email, req.resource, req.operation) == Ok(true)
  {
  }

  /** An administrator passes every protected handler, even one whose path is registered twice. */
  lemma AdminBypass(db: Db, handler: Handler, email: string)
    requires AdminCheck(db, email)
    ensures Decide(db, handler, Some(email)) == Allow
  {
  }

  /** A principal no account carries is refused with 403 by every protected handler. */
  lemma UnknownPrincipalForbidden(db: Db, handler: Handler, email: string)
    requires Annotation(handler).Some?
    requires forall i :: 0 <= i < |db.accounts| ==> db.accounts[i].email != email
    ensures Decide(db, handler, Some(email)) == Deny(Forbidden)
  {
    var req := Annotation(handler).value;
    UnknownEmailDenied(db, email, req.resource, req.operation);
  }

  /** Fail-open: a known principal passes a handler whose path no resource is registered at. */
  lemma UnregisteredResourceOpen(db: Db, handler: Handler, email: string)
    requires Annotation(handler).Some?
    requires exists i :: 0 <= i < |db.accounts| && db.accounts[i].email == email
    requires forall id :: id in db.resources ==> db.resources[id].path != Annotation(handler).value.resource
    ensures Decide(db, handler, Some(email)) == Allow
  {
    var req := Annotation(handler).value;
    UnregisteredPathAllowed(db, email, req.resource, req.operation);
  }

  /** Granting a permission to a role of the principal opens the handler guarded by it. */
  lemma GrantOpensHandler(db: Db, roleId: Id, permissionId: Id, i: nat, handler: Handler, path: string)
    requires roleId in db.roles && permissionId in db.permissions
    requires i < |db.accounts| && roleId in db.accounts[i].roles
    requires Annotation(handler) == Some(Requirement(path, db.permissions[permissionId].operation))
    requires FindByPath(db.resources, path) == Unique(db.permissions[permissionId].resource)
    ensures Decide(RolePermissionStep(db, roleId, permissionId, true).after, handler, Some(db.accounts[i].email)) == Allow
  {
    AssignGrants(db, roleId, permissionId, i, path);
  }
}
