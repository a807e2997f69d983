/** The guard that checks permissions only. */
module PermissionGuards {
  import opened Common
  import opened Directories
  import opened Access
  import opened PermissionCache
  import opened PermissionsServices
  import opened Guards

  /** `extractResourceId(request, 'workspaceId')`: in each part of the request the name
      itself, then its snake-case spelling. */
  function ExtractWorkspaceId(r: Request): Option<string> {
    if Field(r.params, "workspaceId").Some? then Field(r.params, "workspaceId")
    else if Field(r.params, "workspace_id").Some? then Field(r.params, "workspace_id")
    else if Field(r.body, "workspaceId").Some? then Field(r.body, "workspaceId")
    else if Field(r.body, "workspace_id").Some? then Field(r.body, "workspace_id")
    else if Field(r.query, "workspaceId").Some? then Field(r.query, "workspaceId")
    else Field(r.query, "workspace_id")
  }

  /** `PermissionGuard.canActivate` */
  function PermissionGuard(env: Env, r: Request, m: Metadata): Verdict {
    if m.permissions.None? || m.permissions.value == [] then Allowed
    else
      var codes := m.permissions.value;
      var o := if m.permissionOptions.Some? then m.permissionOptions.value else PermissionOptions(None, None, None, None);
      var allowSuper := o.allowSuper != Some(false);
      var userId := if Truthy(r.id) then r.id else r.sub;
      if !Truthy(userId) then Unauthorized("User not authenticated")
      else
        var ws := ExtractWorkspaceId(r);
        if o.requireWorkspace == Some(true) && ws.None? then Forbidden("Workspace ID is required for this operation")
        else if allowSuper && EnvSuper(env, userId.value) then Allowed
        else if o.requireAll == Some(true) then
          GuardResult(HasAll(env.world, userId.value, codes, ws), NEED_ALL + Join(codes), o)
        else
          GuardResult(HasAny(env.world, userId.value, codes, ws), NEED_ANY + Join(codes), o)
  }

  /** `handleGuardResult` */
  function GuardResult(condition: bool, text: string, o: PermissionOptions): Verdict {
    if condition then Allowed else Forbidden(Or(o.errorMessage, text))
  }

  lemma PermissionGuardAsks(env: Env, r: Request, m: Metadata, o: PermissionOptions)
    requires Truthy(r.id) && !EnvSuper(env, r.id.value)
    requires m.permissions.Some? && m.permissions.value != [] && m.permissionOptions == Some(o)
    ensures var u, ws, codes := r.id.value, ExtractWorkspaceId(r), m.permissions.value;
            PermissionGuard(env, r, m) == Allowed
            <==> (o.requireWorkspace == Some(true) ==> ws.Some?)
                 && if o.requireAll == Some(true) then HasAll(env.world, u, codes, ws) else HasAny(env.world, u, codes, ws)
  {
  }

  /** The guard's decision is that of the permission service's loops, when no call in
      them fails; on a coherent world it admits a user who is not SUPER exactly when all,
      or any, of the codes are granted by the uncached decision. */
  lemma PermissionGuardDecides(env: Env, r: Request, m: Metadata, o: PermissionOptions, faults: seq<Fault>)
    requires Truthy(r.id) && !EnvSuper(env, r.id.value)
    requires m.permissions.Some? && m.permissions.value != [] && m.permissionOptions == Some(o)
    requires WellFormed(HasPermission(r.id.value, "", ExtractWorkspaceId(r), None))
    requires |faults| == |m.permissions.value| && NoneFails(faults)
    ensures var u, ws, codes := r.id.value, ExtractWorkspaceId(r), m.permissions.value;
            var reply := if o.requireAll == Some(true) then AllOf(env.world, u, codes, ws, faults).0 else AnyOf(env.world, u, codes, ws, faults).0;
            && (PermissionGuard(env, r, m) == Allowed <==> (o.requireWorkspace == Some(true) ==> ws.Some?) && reply)
            && (Coherent(env.world) ==>
                  (reply <==> if o.requireAll == Some(true) then forall c :: c in codes ==> Decide(env.world.db, u, c, ws)
                              else exists c :: c in codes && Decide(env.world.db, u, c, ws)))
  {
    var u, ws, codes := r.id.value, ExtractWorkspaceId(r), m.permissions.value;
    PermissionGuardAsks(env, r, m, o);
    LoopsDecide(env.world, u, codes, ws, faults);
    if Coherent(env.world) {
      CoherentLoopsDecide(env.world, u, codes, ws, faults);
    }
  }
}
