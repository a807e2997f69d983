/** The plan tables: permissions, features and limits by plan, and the questions
    asked of them. */
module Plans {
  import opened Common
  import opened Directories

  function Rank(p: Plan): nat {
    match p case STARTER => 0 case PRO => 1 case BUSINESS => 2 case ENTERPRISE => 3
  }

  function PlanName(p: Plan): string {
    match p case STARTER => "STARTER" case PRO => "PRO" case BUSINESS => "BUSINESS" case ENTERPRISE => "ENTERPRISE"
  }

  /* ---------- permissions ---------- */

  /** `createPermissionCode` */
  function Code(resource: string, action: string): string {
    resource + ":" + action
  }

  const STARTER_PERMISSIONS: seq<string> := [
    Code("SCAN", "READ"), Code("SCAN", "CREATE"), Code("SCAN", "EXECUTE"), Code("REPORT", "READ"),
    Code("WORKSPACE", "READ"), Code("REPOSITORY", "READ"), Code("SCHEDULE", "READ"), Code("USER", "READ")]

  const PRO_ADDITIONAL_PERMISSIONS: seq<string> := [
    Code("SCAN", "UPDATE"), Code("REPORT", "CREATE"), Code("REPORT", "UPDATE"), Code("WORKSPACE", "UPDATE"),
    Code("REPOSITORY", "CREATE"), Code("REPOSITORY", "UPDATE"), Code("SCHEDULE", "CREATE"), Code("SCHEDULE", "UPDATE"),
    Code("USER", "CREATE"), Code("USER", "UPDATE"), Code("SETTINGS", "READ")]

  const BUSINESS_ADDITIONAL_PERMISSIONS: seq<string> := [
    Code("SCAN", "DELETE"), Code("REPORT", "DELETE"), Code("WORKSPACE", "MANAGE"), Code("REPOSITORY", "DELETE"),
    Code("SCHEDULE", "DELETE"), Code("USER", "DELETE"), Code("ROLE", "CREATE"), Code("ROLE", "READ"), Code("ROLE", "UPDATE"),
    Code("PERMISSION", "READ"), Code("SETTINGS", "UPDATE")]

  const ENTERPRISE_ADDITIONAL_PERMISSIONS: seq<string> := [
    Code("WORKSPACE", "DELETE"), Code("USER", "MANAGE"), Code("ROLE", "DELETE"), Code("PERMISSION", "MANAGE"), Code("SETTINGS", "MANAGE")]

  function PlanPermissions(p: Plan): seq<string>
    decreases Rank(p)
  {
    match p
    case STARTER => STARTER_PERMISSIONS
    case PRO => PlanPermissions(STARTER) + PRO_ADDITIONAL_PERMISSIONS
    case BUSINESS => PlanPermissions(PRO) + BUSINESS_ADDITIONAL_PERMISSIONS
    case ENTERPRISE => PlanPermissions(BUSINESS) + ENTERPRISE_ADDITIONAL_PERMISSIONS
  }

  predicate PlanHasPermission(p: Plan, code: string) {
    code in PlanPermissions(p)
  }

  /** The first plan, from the lowest up, that includes the permission. */
  function MinimumPlanForPermission(code: string): Option<Plan> {
    if PlanHasPermission(STARTER, code) then Some(STARTER)
    else if PlanHasPermission(PRO, code) then Some(PRO)
    else if PlanHasPermission(BUSINESS, code) then Some(BUSINESS)
    else if PlanHasPermission(ENTERPRISE, code) then Some(ENTERPRISE)
    else None
  }

  function UpgradeMessage(p: Plan): string {
    "This feature requires the " + PlanName(p) + " plan or higher. Please upgrade to access it."
  }

  /** Nothing when no plan includes the permission, or the current one already does. */
  function PermissionUpgradeMessage(code: string, current: Plan): Option<string> {
    match MinimumPlanForPermission(code)
    case None => None
    case Some(p) => if Rank(p) <= Rank(current) then None else Some(UpgradeMessage(p))
  }

  lemma PermissionsGrow(p: Plan, q: Plan, code: string)
    requires Rank(p) <= Rank(q) && PlanHasPermission(p, code)
    ensures PlanHasPermission(q, code)
    decreases Rank(q)
  {
    if p != q {
      match q {
        case PRO => PermissionsGrow(p, STARTER, code);
        case BUSINESS => PermissionsGrow(p, PRO, code);
        case ENTERPRISE => PermissionsGrow(p, BUSINESS, code);
      }
    }
  }

  /** A plan includes a permission exactly from the minimum plan upwards; the upgrade
      message exists exactly when some plan includes it and the current one does not,
      and then names the least plan that does. */
  lemma MinimumPlanDecides(code: string, p: Plan)
    ensures PlanHasPermission(p, code)
       <==> MinimumPlanForPermission(code).Some? && Rank(MinimumPlanForPermission(code).value) <= Rank(p)
    ensures PermissionUpgradeMessage(code, p).Some? <==> PlanHasPermission(ENTERPRISE, code) && !PlanHasPermission(p, code)
    ensures PermissionUpgradeMessage(code, p).Some? ==>
              exists least :: PlanHasPermission(least, code) && !PlanHasPermission(p, code)
                && (forall q :: PlanHasPermission(q, code) ==> Rank(least) <= Rank(q))
                && PermissionUpgradeMessage(code, p) == Some(UpgradeMessage(least))
  {
    forall q, q' | Rank(q) <= Rank(q') && PlanHasPermission(q, code) ensures PlanHasPermission(q', code) {
      PermissionsGrow(q, q', code);
    }
    var least := MinimumPlanForPermission(code);
    assert least.Some? ==> PlanHasPermission(least.value, code) && forall q :: PlanHasPermission(q, code) ==> Rank(least.value) <= Rank(q);
  }

  /** Shaped like the code for creating workspaces. */
  predicate LikeWorkspaceCreate(c: string) {
    |c| == 16 && c[0] == 'W' && c[10] == 'C'
  }

  lemma LowerPlansLack(c: string)
    requires c in STARTER_PERMISSIONS || c in PRO_ADDITIONAL_PERMISSIONS
    ensures !LikeWorkspaceCreate(c)
  {
  }

  lemma HigherPlansLack(c: string)
    requires c in BUSINESS_ADDITIONAL_PERMISSIONS || c in ENTERPRISE_ADDITIONAL_PERMISSIONS
    ensures !LikeWorkspaceCreate(c)
  {
  }

  /** No plan includes creating workspaces. */
  lemma NoPlanLetsCreateWorkspaces()
    ensures !PlanHasPermission(ENTERPRISE, Code("WORKSPACE", "CREATE"))
  {
    var code := Code("WORKSPACE", "CREATE");
    assert LikeWorkspaceCreate(code);
    if code in STARTER_PERMISSIONS || code in PRO_ADDITIONAL_PERMISSIONS { LowerPlansLack(code); }
    if code in BUSINESS_ADDITIONAL_PERMISSIONS || code in ENTERPRISE_ADDITIONAL_PERMISSIONS { HigherPlansLack(code); }
    InAddition(code);
  }

  /** A permission of the highest plan is in one of the four lists. */
  lemma InAddition(code: string)
    ensures PlanHasPermission(ENTERPRISE, code)
       <==> code in STARTER_PERMISSIONS || code in PRO_ADDITIONAL_PERMISSIONS
            || code in BUSINESS_ADDITIONAL_PERMISSIONS || code in ENTERPRISE_ADDITIONAL_PERMISSIONS
  {
    assert PlanPermissions(BUSINESS) == PlanPermissions(PRO) + BUSINESS_ADDITIONAL_PERMISSIONS;
    assert PlanPermissions(PRO) == PlanPermissions(STARTER) + PRO_ADDITIONAL_PERMISSIONS;
  }

  /** How the message of each plan reads. */
  lemma MessageReads(p: Plan)
    ensures var name := match p case STARTER => "STARTER" case PRO => "PRO" case BUSINESS => "BUSINESS" case ENTERPRISE => "ENTERPRISE";
            UpgradeMessage(p) == "This feature requires the " + name + " plan or higher. Please upgrade to access it."
  {
  }

  /** Upgrade messages of different plans differ. */
  lemma MessageNamesPlan(p: Plan, q: Plan)
    requires UpgradeMessage(p) == UpgradeMessage(q)
    ensures p == q
  {
    var k := |"This feature requires the "|;
    assert UpgradeMessage(p)[k] == PlanName(p)[0] && UpgradeMessage(q)[k] == PlanName(q)[0];
  }

  /* ---------- features and limits ---------- */

  datatype Feature =
    | ADVANCED_SCAN | HISTORICAL_SCAN | CUSTOM_RULES | SCHEDULED_SCANS | API_ACCESS | REPORTING | EXPORT_REPORTS
    | TEAM_MANAGEMENT | SSO_LOGIN | ROLE_CUSTOMIZATION | AUDIT_LOG | PRIORITY_SUPPORT

  /** `PLAN_FEATURES[plan][feature]` */
  predicate PlanHasFeature(p: Plan, f: Feature) {
    match p
    case STARTER => f == REPORTING
    case PRO => f in {ADVANCED_SCAN, HISTORICAL_SCAN, SCHEDULED_SCANS, API_ACCESS, REPORTING, EXPORT_REPORTS, TEAM_MANAGEMENT}
    case BUSINESS => f != PRIORITY_SUPPORT
    case ENTERPRISE => true
  }

  datatype LimitType =
    | SCANS_PER_DAY | SCANS_PER_MONTH | USERS_PER_WORKSPACE | MAX_WORKSPACES | MAX_REPOSITORIES | MAX_HISTORY_DAYS | MAX_ALERTS

  /** `PLAN_LIMITS[plan][limitType]` */
  function PlanLimit(p: Plan, l: LimitType): nat {
    match p
    case STARTER => (match l case SCANS_PER_DAY => 5 case SCANS_PER_MONTH => 30 case USERS_PER_WORKSPACE => 3
                     case MAX_WORKSPACES => 1 case MAX_REPOSITORIES => 5 case MAX_HISTORY_DAYS => 14 case MAX_ALERTS => 100)
    case PRO => (match l case SCANS_PER_DAY => 20 case SCANS_PER_MONTH => 200 case USERS_PER_WORKSPACE => 10
                 case MAX_WORKSPACES => 3 case MAX_REPOSITORIES => 20 case MAX_HISTORY_DAYS => 30 case MAX_ALERTS => 500)
    case BUSINESS => (match l case SCANS_PER_DAY => 50 case SCANS_PER_MONTH => 500 case USERS_PER_WORKSPACE => 30
                      case MAX_WORKSPACES => 10 case MAX_REPOSITORIES => 50 case MAX_HISTORY_DAYS => 90 case MAX_ALERTS => 1000)
    case ENTERPRISE => (match l case SCANS_PER_DAY => 100 case SCANS_PER_MONTH => 1000 case USERS_PER_WORKSPACE => 100
                        case MAX_WORKSPACES => 100 case MAX_REPOSITORIES => 500 case MAX_HISTORY_DAYS => 365 case MAX_ALERTS => 5000)
  }

  /** Features only grow with the plan, and every limit grows with every step up. */
  lemma TablesGrow(p: Plan, q: Plan, f: Feature, l: LimitType)
    requires Rank(p) <= Rank(q)
    ensures PlanHasFeature(p, f) ==> PlanHasFeature(q, f)
    ensures 0 < PlanLimit(p, l) <= PlanLimit(q, l)
    ensures p != q ==> PlanLimit(p, l) < PlanLimit(q, l)
  {
  }

  /** The least plan with each feature, and each limit from plan to plan. */
  lemma TablesRead(p: Plan, f: Feature, l: LimitType)
    ensures PlanHasFeature(p, f)
       <==> match f
            case REPORTING => true
            case CUSTOM_RULES => Rank(p) >= 2
            case SSO_LOGIN => Rank(p) >= 2
            case ROLE_CUSTOMIZATION => Rank(p) >= 2
            case AUDIT_LOG => Rank(p) >= 2
            case PRIORITY_SUPPORT => p == ENTERPRISE
            case _ => p != STARTER
    ensures PlanLimit(p, l)
         == match l
            case SCANS_PER_DAY => [5, 20, 50, 100][Rank(p)]
            case SCANS_PER_MONTH => [30, 200, 500, 1000][Rank(p)]
            case USERS_PER_WORKSPACE => [3, 10, 30, 100][Rank(p)]
            case MAX_WORKSPACES => [1, 3, 10, 100][Rank(p)]
            case MAX_REPOSITORIES => [5, 20, 50, 500][Rank(p)]
            case MAX_HISTORY_DAYS => [14, 30, 90, 365][Rank(p)]
            case MAX_ALERTS => [100, 500, 1000, 5000][Rank(p)]
  {
  }

  /** `userHasFeatures`: every feature when all are required, as they are by default. */
  predicate HasFeatures(p: Plan, features: seq<Feature>, requireAll: Option<bool>) {
    if requireAll == Some(false) then exists f :: f in features && PlanHasFeature(p, f)
    else forall f :: f in features ==> PlanHasFeature(p, f)
  }

  datatype LimitCheck = LimitCheck(allowed: bool, current: nat, limit: nat, percentage: nat)

  /** `checkUsageLimit`: below the limit or not, and the share used, rounded half up. */
  function CheckLimit(p: Plan, l: LimitType, current: nat): LimitCheck {
    var limit := PlanLimit(p, l);
    LimitCheck(current < limit, current, limit, if limit > 0 then (200 * current + limit) / (2 * limit) else 0)
  }

  /** The percentage is the nearest whole one; every refused check shows at least 100,
      and an allowed one shows 100 exactly when at least 99.5 percent is used. */
  lemma PercentageIsNearest(p: Plan, l: LimitType, current: nat)
    ensures var c := CheckLimit(p, l, current);
            && c.current == current && c.limit == PlanLimit(p, l) && (c.allowed <==> current < PlanLimit(p, l))
            && 200 * current <= 2 * (c.percentage * c.limit) + c.limit
            && 2 * (c.percentage * c.limit) <= 200 * current + c.limit
            && (!c.allowed ==> c.percentage >= 100)
            && (c.allowed ==> c.percentage <= 100 && (c.percentage == 100 <==> 200 * current >= 199 * c.limit))
  {
    TablesGrow(p, p, REPORTING, l);
    Rounding(current, PlanLimit(p, l));
  }

  lemma Rounding(current: nat, limit: nat)
    requires limit > 0
    ensures var pc := (200 * current + limit) / (2 * limit);
            && 200 * current <= 2 * (pc * limit) + limit
            && 2 * (pc * limit) <= 200 * current + limit
            && (current >= limit ==> pc >= 100)
            && (current < limit ==> pc <= 100 && (pc == 100 <==> 200 * current >= 199 * limit))
  {
    var n, d := 200 * current + limit, 2 * limit;
    var pc := n / d;
    assert n == pc * d + n % d && 0 <= n % d < d;
    assert pc * d == 2 * (pc * limit);
    if pc >= 101 { MulAtLeast(pc, 101, d); }
    if pc <= 99 { MulAtLeast(99, pc, d); }
    if pc >= 100 { MulAtLeast(pc, 100, d); }
  }

  lemma MulAtLeast(a: int, b: int, d: nat)
    requires a >= b
    ensures a * d >= b * d
  {
  }
}
