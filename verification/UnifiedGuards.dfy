/** The guard that checks permissions, plan policy and security context at once, with
    implementations of its own for all three. */
module UnifiedGuards {
  import opened Common
  import opened Directories
  import opened PermissionCache
  import opened Guards
  import opened Plans

  /* ---------- permissions ---------- */

  function CheckPermissions(w: World, userId: Id, codes: seq<string>, ws: Option<Id>, options: Option<PermissionOptions>): Verdict {
    var all := options.Some? && options.value.requireAll == Some(true);
    var text := if options.Some? then options.value.errorMessage else None;
    if all && !HasAll(w, userId, codes, ws) then Forbidden(Or(text, NEED_ALL + Join(codes)))
    else if !all && !HasAny(w, userId, codes, ws) then Forbidden(Or(text, NEED_ANY + Join(codes)))
    else Allowed
  }

  /* ---------- plan policy ---------- */

  function CheckPlanPolicy(env: Env, userId: Id, o: PolicyOptions, ws: Option<Id>): Verdict {
    var coded := Truthy(o.permissionCode);
    var byRole := coded && Has(env.world, userId, o.permissionCode.value, ws);
    var byPlan := coded && PlanHasPermission(env.plan, o.permissionCode.value);
    if coded && byRole && !byPlan then Forbidden(Or(PermissionUpgradeMessage(o.permissionCode.value, env.plan), PLAN_LACKS))
    else if coded && !byRole then Forbidden(Or(o.errorMessage, NO_PERMISSION))
    else if o.requiredFeatures.Some? && o.requiredFeatures.value != []
            && !HasFeatures(env.plan, o.requiredFeatures.value, o.requireAll) then
      Forbidden(Or(o.errorMessage, "Feature not available in your plan"))
    else if o.limitType.Some? && !CheckLimit(env.plan, o.limitType.value, CurrentUsage(env.counts, o.limitType.value, ws)).allowed then
      Forbidden(Or(o.errorMessage, "Usage limit reached. Please upgrade your plan for higher limits."))
    else Allowed
  }

  /* ---------- security context ---------- */

  /** The first part of the request that has the field under either name. */
  function FromParts(r: Request, name: string, other: string): Option<string> {
    if Field(r.params, name).Some? || Field(r.params, other).Some? then OrElse(Field(r.params, name), Field(r.params, other))
    else if Field(r.body, name).Some? || Field(r.body, other).Some? then OrElse(Field(r.body, name), Field(r.body, other))
    else OrElse(Field(r.query, name), Field(r.query, other))
  }

  function ExtractResourceId(r: Request, o: ContextOptions): Option<string> {
    if Truthy(o.resourceIdParam) then FromParts(r, o.resourceIdParam.value, o.resourceIdParam.value + "_id") else None
  }

  function ExtractWorkspaceId(r: Request): Option<string> {
    FromParts(r, "workspace_id", "workspaceId")
  }

  predicate CheckResourceOwnership(dir: Directory, place: Place, userId: Id, resourceType: string, id: Id) {
    match Upper(resourceType)
    case "WORKSPACE" => IsOwner(dir, userId, id)
    case "SCAN" => id in place.scanWorkspace && IsOwner(dir, userId, place.scanWorkspace[id])
    case "REPOSITORY" => id in dir.repositories && dir.repositories[id] == userId
    case "SCHEDULE" => id in place.scheduleWorkspace && IsOwner(dir, userId, place.scheduleWorkspace[id])
    case _ => false
  }

  predicate CheckWorkspaceMembership(dir: Directory, userId: Id, id: Id) {
    if IsOwner(dir, userId, id) then true else IsMember(dir, userId, id)
  }

  predicate CheckTimeRestriction(t: TimeRestriction, hour: nat) {
    if t.startHour <= t.endHour then hour >= t.startHour && hour < t.endHour
    else hour >= t.startHour || hour < t.endHour
  }

  predicate CheckIpRestriction(ip: Option<string>, i: IpRestrictions) {
    if !Truthy(ip) then true
    else if i.blockedIps.Some? && i.blockedIps.value != [] && ip.value in i.blockedIps.value then false
    else if i.allowedIps.Some? && i.allowedIps.value != [] then ip.value in i.allowedIps.value
    else true
  }

  /** The four checks of `checkSecurityContext`; each passes when it is not asked for. */
  function OwnershipPart(dir: Directory, place: Place, userId: Id, o: ContextOptions, r: Request): Verdict {
    if !o.checkResourceOwnership then Allowed
    else
      var resource := ExtractResourceId(r, o);
      if !Truthy(resource) || !Truthy(o.resourceType) then Forbidden("Resource information missing for ownership check")
      else if CheckResourceOwnership(dir, place, userId, o.resourceType.value, resource.value) then Allowed
      else Forbidden(Or(o.errorMessage, NOT_OWNED))
  }

  function MembershipPart(dir: Directory, userId: Id, o: ContextOptions, r: Request): Verdict {
    if !o.checkWorkspaceMembership then Allowed
    else
      var ws := ExtractWorkspaceId(r);
      if !Truthy(ws) then Forbidden("Workspace ID missing for membership check")
      else if CheckWorkspaceMembership(dir, userId, ws.value) then Allowed
      else Forbidden(Or(o.errorMessage, NO_MEMBER))
  }

  function TimePart(o: ContextOptions, hour: nat): Verdict {
    if o.timeRestriction.None? || CheckTimeRestriction(o.timeRestriction.value, hour) then Allowed
    else Forbidden(Or(o.errorMessage, OUTSIDE_HOURS))
  }

  function IpPart(o: ContextOptions, r: Request): Verdict {
    if o.ipRestrictions.None? then Allowed
    else
      var ip := if Truthy(r.ip) then r.ip else r.forwardedFor;
      if CheckIpRestriction(ip, o.ipRestrictions.value) then Allowed else Forbidden(Or(o.errorMessage, IP_REFUSED))
  }

  /** The first refusal of a list of checks. */
  function First(parts: seq<Verdict>): Verdict {
    if parts == [] then Allowed else if parts[0] != Allowed then parts[0] else First(parts[1..])
  }

  function CheckSecurityContext(dir: Directory, place: Place, userId: Id, o: ContextOptions, r: Request): Verdict {
    First([OwnershipPart(dir, place, userId, o, r), MembershipPart(dir, userId, o, r), TimePart(o, place.hour), IpPart(o, r)])
  }

  /* ---------- the guard ---------- */

  /** `shouldAllowSuper`: unless one of the option sets says no. */
  predicate ShouldAllowSuper(m: Metadata) {
    && !(m.permissionOptions.Some? && m.permissionOptions.value.allowSuper == Some(false))
    && !(m.context.Some? && m.context.value.allowSuper == Some(false))
    && !(m.policy.Some? && m.policy.value.allowSuper == Some(false))
  }

  function PermissionPart(env: Env, userId: Id, r: Request, m: Metadata): Verdict {
    if m.permissions.Some? && m.permissions.value != []
    then CheckPermissions(env.world, userId, m.permissions.value, ExtractWorkspaceId(r), m.permissionOptions) else Allowed
  }

  function PolicyPart(env: Env, userId: Id, r: Request, m: Metadata): Verdict {
    if m.policy.Some? then CheckPlanPolicy(env, userId, m.policy.value, ExtractWorkspaceId(r)) else Allowed
  }

  function ContextPart(env: Env, userId: Id, r: Request, m: Metadata): Verdict {
    if m.context.Some? then CheckSecurityContext(env.world.db.dir, env.place, userId, m.context.value, r) else Allowed
  }

  /** `UnifiedAuthGuard.canActivate` */
  function UnifiedGuard(env: Env, r: Request, m: Metadata): Verdict {
    if m.permissions.None? && m.context.None? && m.policy.None? then Allowed
    else if !Truthy(r.id) then Unauthorized("User not authenticated")
    else if EnvSuper(env, r.id.value) && ShouldAllowSuper(m) then Allowed
    else
      var permissions, policy := PermissionPart(env, r.id.value, r, m), PolicyPart(env, r.id.value, r, m);
      if permissions != Allowed then permissions
      else if policy != Allowed then policy
      else ContextPart(env, r.id.value, r, m)
  }
}
