/** The guard that checks the plan policy only: permission, features, limit. */
module PolicyGuards {
  import opened Common
  import opened Directories
  import opened Guards
  import opened Plans

  /** `extractWorkspaceId`: the camel-case name only, and the query before the body. */
  function ExtractWorkspaceId(r: Request): Option<string> {
    if Field(r.params, "workspaceId").Some? then Field(r.params, "workspaceId")
    else if Field(r.query, "workspaceId").Some? then Field(r.query, "workspaceId")
    else Field(r.body, "workspaceId")
  }

  /** Role and plan must both grant the permission; the text depends on which does not. */
  function CheckPermission(env: Env, userId: Id, o: PolicyOptions, ws: Option<Id>): Verdict {
    if !Truthy(o.permissionCode) then Allowed
    else
      var code := o.permissionCode.value;
      var byRole, byPlan := Has(env.world, userId, code, ws), PlanHasPermission(env.plan, code);
      if !byRole || !byPlan then
        if byRole && !byPlan then Forbidden(Or(PermissionUpgradeMessage(code, env.plan), PLAN_LACKS))
        else Forbidden(Or(o.errorMessage, NO_PERMISSION))
      else Allowed
  }

  /** The message of a refused feature or limit when the policy asks for a prompt. */
  function Prompt(o: PolicyOptions, upgrade: string, otherwise: string): string {
    if Truthy(o.errorMessage) then o.errorMessage.value else if o.showUpgradePrompt then upgrade else otherwise
  }

  function FeatureMessage(f: Feature): string {
    match f
    case ADVANCED_SCAN => "Upgrade to Pro plan or higher to access advanced scanning features."
    case HISTORICAL_SCAN => "Upgrade to Pro plan or higher to access historical scanning."
    case CUSTOM_RULES => "Upgrade to Business plan or higher to create custom security rules."
    case SCHEDULED_SCANS => "Upgrade to Pro plan or higher to schedule automated scans."
    case API_ACCESS => "Upgrade to Pro plan or higher to access the API."
    case EXPORT_REPORTS => "Upgrade to Pro plan or higher to export reports."
    case TEAM_MANAGEMENT => "Upgrade to Pro plan or higher to manage team members."
    case SSO_LOGIN => "Upgrade to Business plan or higher to use SSO login."
    case ROLE_CUSTOMIZATION => "Upgrade to Business plan or higher to customize roles."
    case AUDIT_LOG => "Upgrade to Business plan or higher to access audit logs."
    case PRIORITY_SUPPORT => "Upgrade to Enterprise plan to get priority support."
    case REPORTING => "Your current plan does not include this feature. Please upgrade to access it."
  }

  function LimitMessage(l: LimitType): string {
    match l
    case SCANS_PER_DAY => "You have reached your daily scan limit. Upgrade your plan for more scans per day."
    case SCANS_PER_MONTH => "You have reached your monthly scan limit. Upgrade your plan for more scans per month."
    case USERS_PER_WORKSPACE => "You have reached the maximum users per workspace. Upgrade your plan to add more users."
    case MAX_WORKSPACES => "You have reached the maximum number of workspaces. Upgrade your plan to create more workspaces."
    case MAX_REPOSITORIES => "You have reached the maximum number of repositories. Upgrade your plan to add more repositories."
    case MAX_HISTORY_DAYS => "Your plan has limited scan history. Upgrade for longer history retention."
    case MAX_ALERTS => "You have reached the maximum number of alerts. Upgrade your plan to create more alerts."
  }

  function CheckFeatures(env: Env, o: PolicyOptions): Verdict {
    if o.requiredFeatures.Some? && o.requiredFeatures.value != []
       && !HasFeatures(env.plan, o.requiredFeatures.value, o.requireAll) then
      Forbidden(Prompt(o, FeatureMessage(o.requiredFeatures.value[0]), "Feature not available in your plan"))
    else Allowed
  }

  function CheckUsage(env: Env, o: PolicyOptions, ws: Option<Id>): Verdict {
    if o.limitType.Some? && !CheckLimit(env.plan, o.limitType.value, CurrentUsage(env.counts, o.limitType.value, ws)).allowed then
      Forbidden(Prompt(o, LimitMessage(o.limitType.value), "Usage limit reached"))
    else Allowed
  }

  /** The three checks in order. */
  function Checks(env: Env, userId: Id, o: PolicyOptions, ws: Option<Id>): Verdict {
    var permission, features := CheckPermission(env, userId, o, ws), CheckFeatures(env, o);
    if permission != Allowed then permission else if features != Allowed then features else CheckUsage(env, o, ws)
  }

  /** `UnifiedPolicyGuard.canActivate`; the texts that report counts are shortened. */
  function PolicyGuard(env: Env, r: Request, m: Metadata): Verdict {
    if m.policy.None? then Allowed
    else if !Truthy(r.id) then Unauthorized("User not authenticated")
    else if EnvSuper(env, r.id.value) && m.policy.value.allowSuper == Some(true) then Allowed
    else Checks(env, r.id.value, m.policy.value, ExtractWorkspaceId(r))
  }
}
