/**
 * `PermissionInterceptor.preHandle`: the gate in front of every controller
 * method. A `@RequirePermission` on the method (or else on its class) names a
 * resource path and an operation; without one, or for a handler that is not
 * a controller method, the request passes. Otherwise an anonymous request is
 * refused with 401, an administrator passes, and anyone else passes exactly
 * when `hasPermission` says so (403 when not).
 */
module PermissionGate {
  import opened Wrappers
  import opened Entities
  import opened Repository
  import opened Rbac

  /** The attributes of a `@RequirePermission` annotation. */
  datatype Requirement = Requirement(resource: string, operation: Operation)

  /** The handler a request is mapped to, with the annotations it carries. */
  datatype Handler =
    | OtherHandler
    | HandlerMethod(onMethod: Option<Requirement>, onClass: Option<Requirement>)

  const Unauthorized: int := 401
  const Forbidden: int := 403

  /**
   * What `preHandle` does with the request: lets it through, sends an error
   * status, or propagates the exception `hasPermission` threw.
   */
  datatype Decision = Allow | Deny(status: int) | Failed(error: RbacError)

  /** The annotation in force: the method's, else the class's. */
  function Annotation(handler: Handler): (a: Option<Requirement>)
    ensures handler.OtherHandler? ==> a.None?
    ensures handler.HandlerMethod? && handler.onMethod.Some? ==> a == handler.onMethod
    ensures handler.HandlerMethod? && handler.onMethod.None? ==> a == handler.onClass
  {
    match handler
    case OtherHandler => None
    case HandlerMethod(onMethod, onClass) => if onMethod.Some? then onMethod else onClass
  }

  /** The decision for a request whose principal name is `principal` (None when anonymous). */
  ghost function Decide(db: Db, handler: Handler, principal: Option<string>): Decision
  {
    match Annotation(handler)
    case None => Allow
    case Some(req) =>
      if principal.None? then Deny(Unauthorized)
      else if AdminCheck(db, principal.value) then Allow
      else
        match PermissionCheck(db, principal.value, req.resource, req.operation)
        case Err(e) => Failed(e)
        case Ok(granted) => if granted then Allow else Deny(Forbidden)
  }

  method PreHandle(s: Store, handler: Handler, principal: Option<string>) returns (d: Decision)
    requires s.Valid()
    ensures d == Decide(s.Snapshot(), handler, principal)
  {
    if handler.OtherHandler? {
      return Allow;
    }
    var annotation := handler.onMethod;
    if annotation.None? {
      annotation := handler.onClass;
    }
    if annotation.None? {
      return Allow;
    }
    if principal.None? {
      return Deny(Unauthorized);
    }
    var email := principal.value;
    var admin := IsAdmin(s, email);
    if admin {
      return Allow;
    }
    var granted := HasPermission(s, email, annotation.value.resource, annotation.value.operation);
    match granted
    case Err(e) => d := Failed(e);
    case Ok(b) => d := if b then Allow else Deny(Forbidden);
  }
}
