/** The guard that checks the security context only: ownership, membership, time, IP. */
module ContextGuards {
  import opened Common
  import opened Directories
  import opened Guards

  /** `extractResourceId`: nothing unless the route names the parameter. */
  function ExtractResourceId(r: Request, o: ContextOptions): Option<string> {
    if !Truthy(o.resourceIdParam) then None
    else
      var name := o.resourceIdParam.value;
      OrElse(OrElse(Field(r.params, name), Field(r.params, name + "_id")),
        OrElse(OrElse(Field(r.body, name), Field(r.body, name + "_id")),
          OrElse(Field(r.query, name), Field(r.query, name + "_id"))))
  }

  function ExtractWorkspaceId(r: Request): Option<string> {
    OrElse(OrElse(Field(r.params, "workspace_id"), Field(r.params, "workspaceId")),
      OrElse(OrElse(Field(r.body, "workspace_id"), Field(r.body, "workspaceId")),
        OrElse(Field(r.query, "workspace_id"), Field(r.query, "workspaceId"))))
  }

  /** The workspace that owns what `id` names, where the kind of resource has one. */
  function WorkspaceOf(place: Place, kind: string, id: Id): Option<Id> {
    if kind == "WORKSPACE" then Some(id)
    else if kind == "SCAN" && id in place.scanWorkspace then Some(place.scanWorkspace[id])
    else if kind == "SCHEDULE" && id in place.scheduleWorkspace then Some(place.scheduleWorkspace[id])
    else None
  }

  /** `checkResourceOwnership` */
  predicate OwnsResource(dir: Directory, place: Place, userId: Id, resourceType: string, id: Id) {
    var kind := Upper(resourceType);
    if kind == "REPOSITORY" then id in dir.repositories && dir.repositories[id] == userId
    else
      var ws := WorkspaceOf(place, kind, id);
      ws.Some? && IsOwner(dir, userId, ws.value)
  }

  /** `checkTimeRestriction`: a window that may run over midnight. */
  predicate WithinHours(t: TimeRestriction, hour: nat) {
    if t.startHour <= t.endHour then t.startHour <= hour < t.endHour else t.startHour <= hour || hour < t.endHour
  }

  /** `checkIpRestriction` */
  predicate IpAllowed(ip: Option<string>, i: IpRestrictions) {
    Truthy(ip) ==>
      && (i.blockedIps.Some? ==> ip.value !in i.blockedIps.value)
      && (i.allowedIps.Some? && i.allowedIps.value != [] ==> ip.value in i.allowedIps.value)
  }

  /** The checks of the guard, in its order. */
  function Checks(dir: Directory, place: Place, userId: Id, o: ContextOptions, r: Request): Verdict {
    var resource, ws := ExtractResourceId(r, o), ExtractWorkspaceId(r);
    var ip := if Truthy(r.ip) then r.ip else r.forwardedFor;
    if o.checkResourceOwnership && (resource.None? || !Truthy(o.resourceType)) then
      Forbidden("Resource information missing for ownership check")
    else if o.checkResourceOwnership && !OwnsResource(dir, place, userId, o.resourceType.value, resource.value) then
      Forbidden(Or(o.errorMessage, NOT_OWNED))
    else if o.checkWorkspaceMembership && ws.None? then
      Forbidden("Workspace ID missing for membership check")
    else if o.checkWorkspaceMembership && !(IsOwner(dir, userId, ws.value) || IsMember(dir, userId, ws.value)) then
      Forbidden(Or(o.errorMessage, NO_MEMBER))
    else if o.timeRestriction.Some? && !WithinHours(o.timeRestriction.value, place.hour) then
      Forbidden(Or(o.errorMessage, OUTSIDE_HOURS))
    else if o.ipRestrictions.Some? && !IpAllowed(ip, o.ipRestrictions.value) then
      Forbidden(Or(o.errorMessage, IP_REFUSED))
    else Allowed
  }

  /** `ContextAwareGuard.canActivate` */
  function ContextGuard(env: Env, r: Request, m: Metadata): Verdict {
    if m.context.None? then Allowed
    else if !Truthy(r.id) then Unauthorized("User not authenticated")
    else if m.context.value.allowSuper == Some(true) && EnvSuper(env, r.id.value) then Allowed
    else Checks(env.world.db.dir, env.place, r.id.value, m.context.value, r)
  }
}
