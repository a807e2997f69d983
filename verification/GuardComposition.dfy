/** How the three single-purpose guards and the unified one agree, and how access grows
    with the plan. */
module GuardComposition {
  import opened Common
  import opened Directories
  import opened Access
  import opened PermissionCache
  import opened Guards
  import opened Plans
  import P = PermissionGuards
  import Q = PolicyGuards
  import C = ContextGuards
  import U = UnifiedGuards

  /* ---------- the workspace id ---------- */

  /** The context guard and the unified guard read the same id from every request. */
  lemma SameContextId(r: Request)
    ensures C.ExtractWorkspaceId(r) == U.ExtractWorkspaceId(r)
    ensures forall o :: C.ExtractResourceId(r, o) == U.ExtractResourceId(r, o)
  {
  }

  /** The guards read the same workspace id out of the request. */
  predicate SameWorkspaceId(r: Request) {
    U.ExtractWorkspaceId(r) == P.ExtractWorkspaceId(r) == Q.ExtractWorkspaceId(r)
  }

  /** A request that carries the workspace id only as the path parameter `workspaceId`
      is one in which the guards read the same id, and misses none. */
  lemma PathParameterIsReadAlike(r: Request)
    requires Field(r.params, "workspaceId").Some? && Field(r.params, "workspace_id").None?
    requires forall m :: m in {r.body, r.query} ==> Field(m, "workspaceId").None? && Field(m, "workspace_id").None?
    ensures SameWorkspaceId(r) && P.ExtractWorkspaceId(r) == Some(r.params["workspaceId"])
  {
    assert r.body in {r.body, r.query} && r.query in {r.body, r.query};
  }

  /** One that names it only under `workspace_id` is read by all but the policy guard. */
  lemma SnakeCaseIsMissed(r: Request, w: Id)
    requires r.params == map["workspace_id" := w] && r.body == map[] && r.query == map[] && w != ""
    ensures U.ExtractWorkspaceId(r) == Some(w) && P.ExtractWorkspaceId(r) == Some(w) && Q.ExtractWorkspaceId(r) == None
  {
    assert "workspaceId"[9] != "workspace_id"[9];
  }

  /* ---------- check by check ---------- */

  lemma SameOwnership(dir: Directory, place: Place, userId: Id, kind: string, id: Id)
    ensures C.OwnsResource(dir, place, userId, kind, id) <==> U.CheckResourceOwnership(dir, place, userId, kind, id)
  {
    assert "WORKSPACE"[0] != "REPOSITORY"[0] && "SCAN"[0] != "REPOSITORY"[0] && "SCHEDULE"[0] != "REPOSITORY"[0];
  }

  lemma FirstOfFour(a: Verdict, b: Verdict, c: Verdict, d: Verdict)
    ensures U.First([a, b, c, d]) == if a != Allowed then a else if b != Allowed then b else if c != Allowed then c else d
  {
    assert [a, b, c, d][1..] == [b, c, d] && [b, c, d][1..] == [c, d] && [c, d][1..] == [d] && [d][1..] == [];
    assert U.First([d]) == d;
    assert U.First([c, d]) == if c != Allowed then c else d;
    assert U.First([b, c, d]) == if b != Allowed then b else U.First([c, d]);
  }

  /** The refusal of each check, if any, in the words of the context guard. */
  lemma SameParts(dir: Directory, place: Place, userId: Id, o: ContextOptions, r: Request)
    ensures var resource, ws := C.ExtractResourceId(r, o), C.ExtractWorkspaceId(r);
            && U.OwnershipPart(dir, place, userId, o, r)
               == (if !o.checkResourceOwnership then Allowed
                   else if resource.None? || !Truthy(o.resourceType) then Forbidden("Resource information missing for ownership check")
                   else if !C.OwnsResource(dir, place, userId, o.resourceType.value, resource.value) then Forbidden(Or(o.errorMessage, NOT_OWNED))
                   else Allowed)
            && U.MembershipPart(dir, userId, o, r)
               == (if !o.checkWorkspaceMembership then Allowed
                   else if ws.None? then Forbidden("Workspace ID missing for membership check")
                   else if !(IsOwner(dir, userId, ws.value) || IsMember(dir, userId, ws.value)) then Forbidden(Or(o.errorMessage, NO_MEMBER))
                   else Allowed)
  {
    SameContextId(r);
    if Truthy(o.resourceType) && C.ExtractResourceId(r, o).Some? {
      SameOwnership(dir, place, userId, o.resourceType.value, C.ExtractResourceId(r, o).value);
    }
  }

  lemma SameTimeAndIp(o: ContextOptions, r: Request, hour: nat)
    ensures U.TimePart(o, hour)
         == if o.timeRestriction.Some? && !C.WithinHours(o.timeRestriction.value, hour) then Forbidden(Or(o.errorMessage, OUTSIDE_HOURS)) else Allowed
    ensures U.IpPart(o, r)
         == if o.ipRestrictions.Some? && !C.IpAllowed(if Truthy(r.ip) then r.ip else r.forwardedFor, o.ipRestrictions.value)
            then Forbidden(Or(o.errorMessage, IP_REFUSED)) else Allowed
  {
  }

  /** Both implementations of the security context give the same verdict, text included. */
  lemma SameContextVerdict(dir: Directory, place: Place, userId: Id, o: ContextOptions, r: Request)
    ensures C.Checks(dir, place, userId, o, r) == U.CheckSecurityContext(dir, place, userId, o, r)
  {
    FirstOfFour(U.OwnershipPart(dir, place, userId, o, r), U.MembershipPart(dir, userId, o, r), U.TimePart(o, place.hour), U.IpPart(o, r));
    SameParts(dir, place, userId, o, r);
    SameTimeAndIp(o, r, place.hour);
  }

  /** Both implementations of the plan policy, given the same workspace id, admit the
      same requests, and give the same verdict, text included, wherever the permission is
      what is refused or the policy brings its own text. */
  lemma SamePolicyVerdict(env: Env, userId: Id, o: PolicyOptions, ws: Option<Id>)
    ensures Q.Checks(env, userId, o, ws) == Allowed <==> U.CheckPlanPolicy(env, userId, o, ws) == Allowed
    ensures Q.CheckPermission(env, userId, o, ws) != Allowed ==>
              Q.Checks(env, userId, o, ws) == U.CheckPlanPolicy(env, userId, o, ws) == Q.CheckPermission(env, userId, o, ws)
    ensures Truthy(o.errorMessage) ==> Q.Checks(env, userId, o, ws) == U.CheckPlanPolicy(env, userId, o, ws)
  {
  }

  /** The route asks for a workspace and the request names none: only the permission
      guard looks at this. */
  predicate MissesWorkspace(r: Request, m: Metadata) {
    && m.permissions.Some? && m.permissions.value != []
    && m.permissionOptions.Some? && m.permissionOptions.value.requireWorkspace == Some(true)
    && P.ExtractWorkspaceId(r).None?
  }

  predicate PermissionsLetSuper(m: Metadata) {
    !(m.permissionOptions.Some? && m.permissionOptions.value.allowSuper == Some(false))
  }

  /** The unified guard's check of the permissions, in the workspace `ws`. */
  function PermissionPartIn(env: Env, userId: Id, m: Metadata, ws: Option<Id>): Verdict {
    if m.permissions.Some? && m.permissions.value != []
    then U.CheckPermissions(env.world, userId, m.permissions.value, ws, m.permissionOptions) else Allowed
  }

  /** Where the permission guard does not miss a workspace and does not wave a SUPER user
      through, it gives the verdict of the unified guard's own check, in the workspace
      the permission guard reads out of the request. */
  lemma SamePermissionVerdict(env: Env, r: Request, m: Metadata)
    requires Truthy(r.id)
    ensures P.PermissionGuard(env, r, m)
         == if MissesWorkspace(r, m) then Forbidden("Workspace ID is required for this operation")
            else if EnvSuper(env, r.id.value) && PermissionsLetSuper(m) then Allowed
            else PermissionPartIn(env, r.id.value, m, P.ExtractWorkspaceId(r))
    ensures U.PermissionPart(env, r.id.value, r, m) == PermissionPartIn(env, r.id.value, m, U.ExtractWorkspaceId(r))
  {
  }

  /* ---------- composition ---------- */

  predicate AllThreeAllow(env: Env, r: Request, m: Metadata) {
    P.PermissionGuard(env, r, m) == Allowed && Q.PolicyGuard(env, r, m) == Allowed && C.ContextGuard(env, r, m) == Allowed
  }

  /** What the three guards together ask of an authenticated request, whatever ids they
      read out of it, in terms of the unified guard's own checks. */
  lemma ThreeAllowExactly(env: Env, r: Request, m: Metadata)
    requires Truthy(r.id)
    ensures var super_ := EnvSuper(env, r.id.value);
            AllThreeAllow(env, r, m)
            <==> && !MissesWorkspace(r, m)
                 && ((super_ && PermissionsLetSuper(m)) || PermissionPartIn(env, r.id.value, m, P.ExtractWorkspaceId(r)) == Allowed)
                 && (m.policy.Some? && !(super_ && m.policy.value.allowSuper == Some(true)) ==>
                       U.CheckPlanPolicy(env, r.id.value, m.policy.value, Q.ExtractWorkspaceId(r)) == Allowed)
                 && (m.context.Some? && !(super_ && m.context.value.allowSuper == Some(true)) ==>
                       U.ContextPart(env, r.id.value, r, m) == Allowed)
  {
    SamePermissionVerdict(env, r, m);
    if m.policy.Some? { SamePolicyVerdict(env, r.id.value, m.policy.value, Q.ExtractWorkspaceId(r)); }
    if m.context.Some? { SameContextVerdict(env.world.db.dir, env.place, r.id.value, m.context.value, r); }
  }

  /** Every option set that is present says SUPER users may pass. */
  predicate SuperFlagsSet(m: Metadata) {
    && (m.permissionOptions.Some? ==> m.permissionOptions.value.allowSuper == Some(true))
    && (m.policy.Some? ==> m.policy.value.allowSuper == Some(true))
    && (m.context.Some? ==> m.context.value.allowSuper == Some(true))
  }

  /** Composition: for an authenticated user who is not SUPER, or with all SUPER flags
      set, and a request in which the guards read the same workspace id, the three
      guards all allow exactly when the unified one does and the request does not miss
      a required workspace. */
  lemma UnifiedRefinesTheThree(env: Env, r: Request, m: Metadata)
    requires Truthy(r.id) && SameWorkspaceId(r)
    requires !EnvSuper(env, r.id.value) || SuperFlagsSet(m)
    ensures AllThreeAllow(env, r, m) <==> U.UnifiedGuard(env, r, m) == Allowed && !MissesWorkspace(r, m)
  {
    ThreeAllowExactly(env, r, m);
  }

  /** What a policy's outcome owes to the workspace id: the role, and the number of users
      of that workspace. */
  predicate IdSuits(env: Env, userId: Id, o: PolicyOptions, ws: Option<Id>) {
    && (Truthy(o.permissionCode) ==> Has(env.world, userId, o.permissionCode.value, ws))
    && (o.limitType == Some(USERS_PER_WORKSPACE) ==>
          CheckLimit(env.plan, USERS_PER_WORKSPACE, CurrentUsage(env.counts, USERS_PER_WORKSPACE, ws)).allowed)
  }

  lemma IdDecides(env: Env, userId: Id, o: PolicyOptions, ws: Option<Id>, ws': Option<Id>)
    requires U.CheckPlanPolicy(env, userId, o, ws) == Allowed
    ensures U.CheckPlanPolicy(env, userId, o, ws') == Allowed <==> IdSuits(env, userId, o, ws')
  {
  }

  /** The condition on the workspace id is needed. Whatever ids the guards read, for a
      user who is not SUPER the three refuse what the unified guard allows exactly when
      the request misses a required workspace, or the permissions are not granted in the
      workspace the permission guard reads, or the policy asks for a role or a number of
      users that does not suit the workspace the policy guard reads. */
  lemma MissedIdSplitsTheGuards(env: Env, r: Request, m: Metadata)
    requires Truthy(r.id) && !EnvSuper(env, r.id.value)
    requires U.UnifiedGuard(env, r, m) == Allowed
    ensures !AllThreeAllow(env, r, m)
       <==> || MissesWorkspace(r, m)
            || PermissionPartIn(env, r.id.value, m, P.ExtractWorkspaceId(r)) != Allowed
            || (m.policy.Some? && !IdSuits(env, r.id.value, m.policy.value, Q.ExtractWorkspaceId(r)))
  {
    ThreeAllowExactly(env, r, m);
    if m.policy.Some? {
      IdDecides(env, r.id.value, m.policy.value, U.ExtractWorkspaceId(r), Q.ExtractWorkspaceId(r));
    }
  }

  /** User "u" owns the workspace "b" and nothing else. */
  function OwnerOfB(): Env {
    var dir := Directory(map["u" := User("e", "MEMBER", STARTER)], map["b" := Workspace("n", "u", None)], map[], []);
    Env(World(Db(dir, [], map[], []), map[], 0), STARTER, Counts(0, 0, 0, 0, map[], []), Place(map[], map[], 0))
  }

  /** A request that carries both spellings with different values: the permission guard
      reads the workspace the user does not own, the unified guard the one the user does. */
  lemma TwoSpellingsSplitTheGuards(code: string)
    ensures var r := Request(Some("u"), None, map[], map["workspaceId" := "a", "workspace_id" := "b"], map[], None, None);
            var m := Metadata(Some([code]), None, None, None);
            && U.UnifiedGuard(OwnerOfB(), r, m) == Allowed && !AllThreeAllow(OwnerOfB(), r, m)
            && !MissesWorkspace(r, m)
  {
    var r := Request(Some("u"), None, map[], map["workspaceId" := "a", "workspace_id" := "b"], map[], None, None);
    var m := Metadata(Some([code]), None, None, None);
    assert "workspaceId"[9] != "workspace_id"[9];
    assert P.ExtractWorkspaceId(r) == Some("a") && U.ExtractWorkspaceId(r) == Some("b");
    OwnerHas(code);
    assert code in [code];
    assert HasAny(OwnerOfB().world, "u", [code], Some("b"));
  }

  lemma OwnerHas(code: string)
    ensures Has(OwnerOfB().world, "u", code, Some("b"))
    ensures !Has(OwnerOfB().world, "u", code, Some("a")) && !Has(OwnerOfB().world, "u", code, None)
  {
    var db := OwnerOfB().world.db;
    assert "a" != "b";
    DecideMeaning(db, "u", code, Some("b"));
    DecideMeaning(db, "u", code, Some("a"));
    DecideMeaning(db, "u", code, None);
  }

  /** A request that names the workspace only under `workspace_id`: the policy guard reads
      none, and refuses the owner a permission the plan has. */
  lemma SnakeCaseSplitsTheGuards(code: string)
    requires PlanHasPermission(STARTER, code) && code != ""
    ensures var r := Request(Some("u"), None, map["workspace_id" := "b"], map[], map[], None, None);
            var m := Metadata(None, None, Some(PolicyOptions(Some(code), None, None, None, None, false, None)), None);
            U.UnifiedGuard(OwnerOfB(), r, m) == Allowed && Q.PolicyGuard(OwnerOfB(), r, m) != Allowed
  {
    SnakeCaseIsMissed(Request(Some("u"), None, map["workspace_id" := "b"], map[], map[], None, None), "b");
    OwnerHas(code);
  }

  lemma FlagCases(flag: Option<bool>)
    ensures flag.None? || flag == Some(true) || flag == Some(false)
  {
    match flag {
      case None =>
      case Some(b) => assert b == true || b == false;
    }
  }

  /** So is the condition on SUPER flags. For a SUPER user and a route on which no flag
      says no, the unified guard always allows, and the three do exactly when no required
      workspace is missed and the policy and the context, where their flag is unset, pass
      their own checks. */
  lemma UnsetSuperFlagSplitsTheGuards(env: Env, r: Request, m: Metadata)
    requires Truthy(r.id) && EnvSuper(env, r.id.value) && U.ShouldAllowSuper(m)
    ensures U.UnifiedGuard(env, r, m) == Allowed
    ensures AllThreeAllow(env, r, m)
       <==> && !MissesWorkspace(r, m)
            && (m.policy.Some? && m.policy.value.allowSuper.None? ==>
                  U.CheckPlanPolicy(env, r.id.value, m.policy.value, Q.ExtractWorkspaceId(r)) == Allowed)
            && (m.context.Some? && m.context.value.allowSuper.None? ==> U.ContextPart(env, r.id.value, r, m) == Allowed)
  {
    ThreeAllowExactly(env, r, m);
    if m.policy.Some? { FlagCases(m.policy.value.allowSuper); }
    if m.context.Some? { FlagCases(m.context.value.allowSuper); }
  }

  /** And where some flag says no, the unified guard runs all its checks, while each of
      the three still waves the SUPER user through unless its own flag stops it. So the
      three allow what the unified guard refuses exactly when no required workspace is
      missed, each part whose own flag does not wave the user through passes in the
      workspace its guard reads, and not all parts pass in the one the unified guard
      reads. Where the ids agree, the reverse happens only for a missed workspace. */
  lemma OneFlagStopsTheUnifiedGuard(env: Env, r: Request, m: Metadata)
    requires Truthy(r.id) && EnvSuper(env, r.id.value) && !U.ShouldAllowSuper(m)
    ensures AllThreeAllow(env, r, m) && U.UnifiedGuard(env, r, m) != Allowed
       <==> && !MissesWorkspace(r, m)
            && (PermissionsLetSuper(m) || PermissionPartIn(env, r.id.value, m, P.ExtractWorkspaceId(r)) == Allowed)
            && (m.policy.Some? && m.policy.value.allowSuper != Some(true) ==>
                  U.CheckPlanPolicy(env, r.id.value, m.policy.value, Q.ExtractWorkspaceId(r)) == Allowed)
            && (m.context.Some? && m.context.value.allowSuper != Some(true) ==> U.ContextPart(env, r.id.value, r, m) == Allowed)
            && !(U.PermissionPart(env, r.id.value, r, m) == Allowed && U.PolicyPart(env, r.id.value, r, m) == Allowed
                 && U.ContextPart(env, r.id.value, r, m) == Allowed)
    ensures SameWorkspaceId(r) && U.UnifiedGuard(env, r, m) == Allowed && !AllThreeAllow(env, r, m) ==> MissesWorkspace(r, m)
  {
    ThreeAllowExactly(env, r, m);
    UnifiedAllowsExactly(env, r, m);
  }

  lemma UnifiedAllowsExactly(env: Env, r: Request, m: Metadata)
    requires Truthy(r.id) && !(EnvSuper(env, r.id.value) && U.ShouldAllowSuper(m))
    ensures U.UnifiedGuard(env, r, m) == Allowed
       <==> U.PermissionPart(env, r.id.value, r, m) == Allowed && U.PolicyPart(env, r.id.value, r, m) == Allowed
            && U.ContextPart(env, r.id.value, r, m) == Allowed
  {
  }

  /* ---------- upgrading ---------- */

  lemma FeaturesAreMonotone(p: Plan, q: Plan, features: seq<Feature>, requireAll: Option<bool>)
    requires Rank(p) <= Rank(q) && HasFeatures(p, features, requireAll)
    ensures HasFeatures(q, features, requireAll)
  {
    forall f ensures PlanHasFeature(p, f) ==> PlanHasFeature(q, f) {
      TablesGrow(p, q, f, MAX_ALERTS);
    }
  }

  predicate FeaturesPass(plan: Plan, o: PolicyOptions) {
    o.requiredFeatures.Some? && o.requiredFeatures.value != [] ==> HasFeatures(plan, o.requiredFeatures.value, o.requireAll)
  }

  predicate LimitPasses(env: Env, o: PolicyOptions, ws: Option<Id>) {
    o.limitType.Some? ==> CurrentUsage(env.counts, o.limitType.value, ws) < PlanLimit(env.plan, o.limitType.value)
  }

  /** The policy asks for role and plan, features, and room below the limit. */
  lemma PolicyAllowsExactly(env: Env, userId: Id, o: PolicyOptions, ws: Option<Id>)
    ensures U.CheckPlanPolicy(env, userId, o, ws) == Allowed
       <==> && (Truthy(o.permissionCode) ==>
                  Has(env.world, userId, o.permissionCode.value, ws) && PlanHasPermission(env.plan, o.permissionCode.value))
            && FeaturesPass(env.plan, o) && LimitPasses(env, o, ws)
  {
  }

  lemma PolicyIsMonotone(env: Env, plan: Plan, userId: Id, o: PolicyOptions, ws: Option<Id>)
    requires Rank(env.plan) <= Rank(plan)
    ensures U.CheckPlanPolicy(env, userId, o, ws) == Allowed ==> U.CheckPlanPolicy(env.(plan := plan), userId, o, ws) == Allowed
  {
    PolicyAllowsExactly(env, userId, o, ws);
    PolicyAllowsExactly(env.(plan := plan), userId, o, ws);
    if Truthy(o.permissionCode) && PlanHasPermission(env.plan, o.permissionCode.value) {
      PermissionsGrow(env.plan, plan, o.permissionCode.value);
    }
    if o.requiredFeatures.Some? && HasFeatures(env.plan, o.requiredFeatures.value, o.requireAll) {
      FeaturesAreMonotone(env.plan, plan, o.requiredFeatures.value, o.requireAll);
    }
    if o.limitType.Some? {
      TablesGrow(env.plan, plan, REPORTING, o.limitType.value);
    }
  }

  /** Upgrading never loses access: what the unified guard allows under one plan it
      allows under every higher one, all else equal. */
  lemma UpgradingKeepsAccess(env: Env, plan: Plan, r: Request, m: Metadata)
    requires Rank(env.plan) <= Rank(plan) && U.UnifiedGuard(env, r, m) == Allowed
    ensures U.UnifiedGuard(env.(plan := plan), r, m) == Allowed
  {
    if Truthy(r.id) && m.policy.Some? {
      PolicyIsMonotone(env, plan, r.id.value, m.policy.value, U.ExtractWorkspaceId(r));
    }
  }

  /** And so does the policy guard. */
  lemma UpgradingKeepsPolicyAccess(env: Env, plan: Plan, r: Request, m: Metadata)
    requires Rank(env.plan) <= Rank(plan) && Q.PolicyGuard(env, r, m) == Allowed
    ensures Q.PolicyGuard(env.(plan := plan), r, m) == Allowed
  {
    if m.policy.Some? && Truthy(r.id) {
      var o, ws := m.policy.value, Q.ExtractWorkspaceId(r);
      PolicyIsMonotone(env, plan, r.id.value, o, ws);
      SamePolicyVerdict(env, r.id.value, o, ws);
      SamePolicyVerdict(env.(plan := plan), r.id.value, o, ws);
    }
  }

  /* ---------- what a refusal names ---------- */

  /** The permission code of a route's policy. */
  predicate AsksFor(m: Metadata, code: string) {
    m.policy.Some? && m.policy.value.permissionCode == Some(code) && code != ""
  }

  /** The policy guard gets as far as the permission, which a role grants. */
  predicate PolicyReached(env: Env, r: Request, m: Metadata, code: string) {
    && Truthy(r.id) && AsksFor(m, code)
    && !(EnvSuper(env, r.id.value) && m.policy.value.allowSuper == Some(true))
    && Has(env.world, r.id.value, code, Q.ExtractWorkspaceId(r))
  }

  /** The unified guard gets as far as the policy's permission, which a role grants. */
  predicate UnifiedReached(env: Env, r: Request, m: Metadata, code: string) {
    && Truthy(r.id) && AsksFor(m, code)
    && !(EnvSuper(env, r.id.value) && U.ShouldAllowSuper(m))
    && U.PermissionPart(env, r.id.value, r, m) == Allowed
    && Has(env.world, r.id.value, code, U.ExtractWorkspaceId(r))
  }

  predicate NothingElseAsked(o: PolicyOptions) {
    o.requiredFeatures.None? && o.limitType.None?
  }

  /** The plan check of a permission refuses below the least plan that has it, naming
      that plan, and passes from it up; without such a plan it always refuses. */
  lemma PlanCheckNamesTheLeast(code: string, p: Plan)
    ensures PlanHasPermission(ENTERPRISE, code) ==>
              var least := MinimumPlanForPermission(code);
              && least.Some? && (PlanHasPermission(p, code) <==> Rank(least.value) <= Rank(p))
              && (!PlanHasPermission(p, code) ==> Or(PermissionUpgradeMessage(code, p), PLAN_LACKS) == UpgradeMessage(least.value))
    ensures !PlanHasPermission(ENTERPRISE, code) ==>
              !PlanHasPermission(p, code) && Or(PermissionUpgradeMessage(code, p), PLAN_LACKS) == PLAN_LACKS
  {
    MinimumPlanDecides(code, p);
    MinimumPlanDecides(code, ENTERPRISE);
    forall q ensures UpgradeMessage(q) != "" { assert UpgradeMessage(q)[0] == 'T'; }
  }

  /** When a role grants a permission and only the plan lacks it, the verdict of the
      policy guard names the least plan whose check passes: under every plan below it the
      guard refuses with that name, and from it up it no longer refuses for the
      permission, and allows when the policy asks for nothing else. When no plan has the
      permission the guard says so under every plan. */
  lemma PolicyRefusalNamesTheLeastPlan(env: Env, r: Request, m: Metadata, code: string, q: Plan)
    requires PolicyReached(env, r, m, code)
    ensures var verdict := Q.PolicyGuard(env.(plan := q), r, m);
            if PlanHasPermission(ENTERPRISE, code) then
              var least := MinimumPlanForPermission(code);
              && least.Some?
              && (Rank(q) < Rank(least.value) ==> verdict == Forbidden(UpgradeMessage(least.value)))
              && (Rank(least.value) <= Rank(q) ==>
                    && Q.CheckPermission(env.(plan := q), r.id.value, m.policy.value, Q.ExtractWorkspaceId(r)) == Allowed
                    && (NothingElseAsked(m.policy.value) ==> verdict == Allowed))
            else verdict == Forbidden(PLAN_LACKS)
  {
    PlanCheckNamesTheLeast(code, q);
  }

  /** The unified guard's verdict names the same plan. */
  lemma UnifiedRefusalNamesTheLeastPlan(env: Env, r: Request, m: Metadata, code: string, q: Plan)
    requires UnifiedReached(env, r, m, code)
    ensures var verdict := U.UnifiedGuard(env.(plan := q), r, m);
            if PlanHasPermission(ENTERPRISE, code) then
              var least := MinimumPlanForPermission(code);
              && least.Some?
              && (Rank(q) < Rank(least.value) ==> verdict == Forbidden(UpgradeMessage(least.value)))
              && (Rank(least.value) <= Rank(q) && NothingElseAsked(m.policy.value) ==>
                    verdict == U.ContextPart(env, r.id.value, r, m))
            else verdict == Forbidden(PLAN_LACKS)
  {
    PlanCheckNamesTheLeast(code, q);
  }

  /** Not every code the system knows is in a plan: `WORKSPACE:CREATE` is in none, so its
      refusal never names a plan, and no upgrade helps. */
  lemma WorkspaceCreateIsInNoPlan(env: Env, r: Request, m: Metadata, q: Plan)
    requires PolicyReached(env, r, m, Code("WORKSPACE", "CREATE"))
    ensures Q.PolicyGuard(env.(plan := q), r, m) == Forbidden(PLAN_LACKS)
  {
    NoPlanLetsCreateWorkspaces();
    PolicyRefusalNamesTheLeastPlan(env, r, m, Code("WORKSPACE", "CREATE"), q);
  }

  /* ---------- what the guards decide, in the terms of the data ---------- */

  /** The first of the fields that is present and not empty. */
  function FirstOf(fields: seq<Option<string>>): Option<string> {
    if fields == [] then None else if fields[0].Some? then fields[0] else FirstOf(fields[1..])
  }

  /** The order in which each guard looks for the workspace id. */
  lemma IdsReadInOrder(r: Request)
    ensures P.ExtractWorkspaceId(r)
         == FirstOf([Field(r.params, "workspaceId"), Field(r.params, "workspace_id"), Field(r.body, "workspaceId"),
                     Field(r.body, "workspace_id"), Field(r.query, "workspaceId"), Field(r.query, "workspace_id")])
    ensures U.ExtractWorkspaceId(r)
         == FirstOf([Field(r.params, "workspace_id"), Field(r.params, "workspaceId"), Field(r.body, "workspace_id"),
                     Field(r.body, "workspaceId"), Field(r.query, "workspace_id"), Field(r.query, "workspaceId")])
    ensures Q.ExtractWorkspaceId(r) == FirstOf([Field(r.params, "workspaceId"), Field(r.query, "workspaceId"), Field(r.body, "workspaceId")])
  {
    FirstOfSix(Field(r.params, "workspaceId"), Field(r.params, "workspace_id"), Field(r.body, "workspaceId"),
               Field(r.body, "workspace_id"), Field(r.query, "workspaceId"), Field(r.query, "workspace_id"));
    FirstOfSix(Field(r.params, "workspace_id"), Field(r.params, "workspaceId"), Field(r.body, "workspace_id"),
               Field(r.body, "workspaceId"), Field(r.query, "workspace_id"), Field(r.query, "workspaceId"));
    FirstOfThree(Field(r.params, "workspaceId"), Field(r.query, "workspaceId"), Field(r.body, "workspaceId"));
  }

  lemma FirstOfThree(a: Option<string>, b: Option<string>, c: Option<string>)
    ensures FirstOf([a, b, c]) == if a.Some? then a else if b.Some? then b else c
  {
    assert [a, b, c][1..] == [b, c] && [b, c][1..] == [c] && [c][1..] == [];
    assert FirstOf([c]) == c;
  }

  lemma FirstOfSix(a: Option<string>, b: Option<string>, c: Option<string>, d: Option<string>, e: Option<string>, f: Option<string>)
    ensures FirstOf([a, b, c, d, e, f])
         == if a.Some? then a else if b.Some? then b else if c.Some? then c else if d.Some? then d else if e.Some? then e else f
  {
    assert [a, b, c, d, e, f][1..] == [b, c, d, e, f] && [b, c, d, e, f][1..] == [c, d, e, f] && [c, d, e, f][1..] == [d, e, f];
    FirstOfThree(d, e, f);
    assert FirstOf([c, d, e, f]) == if c.Some? then c else FirstOf([d, e, f]);
    assert FirstOf([b, c, d, e, f]) == if b.Some? then b else FirstOf([c, d, e, f]);
  }

  ghost predicate AnswersYes(env: Env, userId: Id, code: string, ws: Option<Id>) {
    Answer(env.world, HasPermission(userId, code, ws, None)) == Flag(true)
  }

  /** All, or any, of the permissions of the route are answered yes. */
  ghost predicate PermissionsPass(env: Env, userId: Id, m: Metadata, ws: Option<Id>) {
    m.permissions.Some? && m.permissions.value != [] ==>
      if m.permissionOptions.Some? && m.permissionOptions.value.requireAll == Some(true)
      then forall c :: c in m.permissions.value ==> AnswersYes(env, userId, c, ws)
      else exists c :: c in m.permissions.value && AnswersYes(env, userId, c, ws)
  }

  /** What counts against each limit. */
  ghost function Used(c: Counts, l: LimitType, ws: Option<Id>): int {
    match l
    case SCANS_PER_DAY => c.scansToday
    case SCANS_PER_MONTH => c.scansThisMonth
    case MAX_WORKSPACES => c.workspaces
    case MAX_REPOSITORIES => c.repositories
    case USERS_PER_WORKSPACE =>
      if ws.Some? && ws.value != "" then (if ws.value in c.members then c.members[ws.value] else 0)
      else Max(c.ownWorkspaceMembers)
    case MAX_HISTORY_DAYS => 0
    case MAX_ALERTS => 0
  }

  /** The policy: role and plan both grant the code, the plan has all, or any, of the
      features, and what is used is below the plan's limit. */
  ghost predicate PolicyPasses(env: Env, userId: Id, o: PolicyOptions, ws: Option<Id>) {
    && (o.permissionCode.Some? && o.permissionCode.value != "" ==>
          AnswersYes(env, userId, o.permissionCode.value, ws) && o.permissionCode.value in PlanPermissions(env.plan))
    && (o.requiredFeatures.Some? && o.requiredFeatures.value != [] ==>
          if o.requireAll == Some(false) then exists f :: f in o.requiredFeatures.value && PlanHasFeature(env.plan, f)
          else forall f :: f in o.requiredFeatures.value ==> PlanHasFeature(env.plan, f))
    && (o.limitType.Some? ==> Used(env.counts, o.limitType.value, ws) < PlanLimit(env.plan, o.limitType.value))
  }

  ghost predicate Owner(dir: Directory, userId: Id, ws: Id) {
    ws in dir.workspaces && dir.workspaces[ws].ownerId == userId
  }

  /** The user owns the resource: the workspace itself, the workspace of the scan or
      schedule, or the repository. */
  ghost predicate OwnsNamed(env: Env, userId: Id, kind: string, id: Id) {
    var dir := env.world.db.dir;
    || (kind == "WORKSPACE" && Owner(dir, userId, id))
    || (kind == "SCAN" && id in env.place.scanWorkspace && Owner(dir, userId, env.place.scanWorkspace[id]))
    || (kind == "SCHEDULE" && id in env.place.scheduleWorkspace && Owner(dir, userId, env.place.scheduleWorkspace[id]))
    || (kind == "REPOSITORY" && id in dir.repositories && dir.repositories[id] == userId)
  }

  /** The hours from `a` up to, and not including, `b`, over midnight when `b` is less. */
  ghost predicate InWindow(a: nat, b: nat, hour: nat) {
    (a <= hour < b) || (b < a && (a <= hour || hour < b))
  }

  /** The context: whatever of ownership, membership, hours and addresses is asked for. */
  ghost predicate ContextPasses(env: Env, userId: Id, o: ContextOptions, r: Request) {
    var resource, ws := U.ExtractResourceId(r, o), U.ExtractWorkspaceId(r);
    var ip := if r.ip.Some? && r.ip.value != "" then r.ip else r.forwardedFor;
    && (o.checkResourceOwnership ==>
          resource.Some? && o.resourceType.Some? && OwnsNamed(env, userId, Upper(o.resourceType.value), resource.value))
    && (o.checkWorkspaceMembership ==>
          ws.Some? && (Owner(env.world.db.dir, userId, ws.value)
                       || exists x :: x in env.world.db.dir.memberships && x.userId == userId && x.workspaceId == ws.value))
    && (o.timeRestriction.Some? ==> InWindow(o.timeRestriction.value.startHour, o.timeRestriction.value.endHour, env.place.hour))
    && (o.ipRestrictions.Some? && ip.Some? && ip.value != "" ==>
          && (o.ipRestrictions.value.blockedIps.Some? ==> ip.value !in o.ipRestrictions.value.blockedIps.value)
          && (o.ipRestrictions.value.allowedIps.Some? && o.ipRestrictions.value.allowedIps.value != [] ==>
                ip.value in o.ipRestrictions.value.allowedIps.value))
  }

  ghost predicate SuperUser(env: Env, userId: Id) {
    userId in env.world.db.dir.users && env.world.db.dir.users[userId].role == "SUPER"
  }

  lemma PermissionPartMeaning(env: Env, userId: Id, m: Metadata, ws: Option<Id>)
    ensures PermissionPartIn(env, userId, m, ws) == Allowed <==> PermissionsPass(env, userId, m, ws)
  {
  }

  lemma PolicyMeaning(env: Env, userId: Id, o: PolicyOptions, ws: Option<Id>)
    ensures U.CheckPlanPolicy(env, userId, o, ws) == Allowed <==> PolicyPasses(env, userId, o, ws)
  {
    PolicyAllowsExactly(env, userId, o, ws);
    if o.limitType.Some? { assert CurrentUsage(env.counts, o.limitType.value, ws) == Used(env.counts, o.limitType.value, ws); }
  }

  lemma OwnershipMeaning(env: Env, userId: Id, kind: string, id: Id)
    ensures U.CheckResourceOwnership(env.world.db.dir, env.place, userId, kind, id) <==> OwnsNamed(env, userId, Upper(kind), id)
  {
    assert "WORKSPACE"[0] != "REPOSITORY"[0] && "SCAN"[0] != "WORKSPACE"[0] && "SCAN"[0] != "REPOSITORY"[0] && "SCAN"[2] != "SCHEDULE"[2];
  }

  lemma ContextMeaning(env: Env, userId: Id, o: ContextOptions, r: Request)
    ensures U.CheckSecurityContext(env.world.db.dir, env.place, userId, o, r) == Allowed <==> ContextPasses(env, userId, o, r)
  {
    var dir, place := env.world.db.dir, env.place;
    FirstOfFour(U.OwnershipPart(dir, place, userId, o, r), U.MembershipPart(dir, userId, o, r), U.TimePart(o, place.hour), U.IpPart(o, r));
    OwnershipPasses(env, userId, o, r);
    RestPasses(env, userId, o, r);
  }

  lemma OwnershipPasses(env: Env, userId: Id, o: ContextOptions, r: Request)
    ensures U.OwnershipPart(env.world.db.dir, env.place, userId, o, r) == Allowed
       <==> (o.checkResourceOwnership ==>
               U.ExtractResourceId(r, o).Some? && o.resourceType.Some?
               && OwnsNamed(env, userId, Upper(o.resourceType.value), U.ExtractResourceId(r, o).value))
  {
    if o.resourceType.Some? && U.ExtractResourceId(r, o).Some? {
      OwnershipMeaning(env, userId, o.resourceType.value, U.ExtractResourceId(r, o).value);
    }
  }

  lemma RestPasses(env: Env, userId: Id, o: ContextOptions, r: Request)
    ensures U.MembershipPart(env.world.db.dir, userId, o, r) == Allowed
       <==> (o.checkWorkspaceMembership ==>
               U.ExtractWorkspaceId(r).Some?
               && (Owner(env.world.db.dir, userId, U.ExtractWorkspaceId(r).value)
                   || exists x :: x in env.world.db.dir.memberships && x.userId == userId && x.workspaceId == U.ExtractWorkspaceId(r).value))
    ensures U.TimePart(o, env.place.hour) == Allowed
       <==> (o.timeRestriction.Some? ==> InWindow(o.timeRestriction.value.startHour, o.timeRestriction.value.endHour, env.place.hour))
    ensures var ip := if r.ip.Some? && r.ip.value != "" then r.ip else r.forwardedFor;
            U.IpPart(o, r) == Allowed
            <==> (o.ipRestrictions.Some? && ip.Some? && ip.value != "" ==>
                    && (o.ipRestrictions.value.blockedIps.Some? ==> ip.value !in o.ipRestrictions.value.blockedIps.value)
                    && (o.ipRestrictions.value.allowedIps.Some? && o.ipRestrictions.value.allowedIps.value != [] ==>
                          ip.value in o.ipRestrictions.value.allowedIps.value))
  {
  }

  /** What the unified guard decides: a route without metadata is open; on any other the
      request must name its user, and a SUPER user passes unless a flag says no, and every
      other exactly when permissions, policy and context all pass. */
  lemma UnifiedDecides(env: Env, r: Request, m: Metadata)
    ensures U.UnifiedGuard(env, r, m) == Allowed
       <==> || (m.permissions.None? && m.policy.None? && m.context.None?)
            || (r.id.Some? && r.id.value != ""
                && (|| (SuperUser(env, r.id.value)
                        && (m.permissionOptions.Some? ==> m.permissionOptions.value.allowSuper != Some(false))
                        && (m.policy.Some? ==> m.policy.value.allowSuper != Some(false))
                        && (m.context.Some? ==> m.context.value.allowSuper != Some(false)))
                    || (&& PermissionsPass(env, r.id.value, m, U.ExtractWorkspaceId(r))
                        && (m.policy.Some? ==> PolicyPasses(env, r.id.value, m.policy.value, U.ExtractWorkspaceId(r)))
                        && (m.context.Some? ==> ContextPasses(env, r.id.value, m.context.value, r)))))
  {
    if Truthy(r.id) {
      SamePermissionVerdict(env, r, m);
      PermissionPartMeaning(env, r.id.value, m, U.ExtractWorkspaceId(r));
      if m.policy.Some? { PolicyMeaning(env, r.id.value, m.policy.value, U.ExtractWorkspaceId(r)); }
      if m.context.Some? { ContextMeaning(env, r.id.value, m.context.value, r); }
      if !(EnvSuper(env, r.id.value) && U.ShouldAllowSuper(m)) && !(m.permissions.None? && m.policy.None? && m.context.None?) {
        UnifiedAllowsExactly(env, r, m);
      }
    }
  }

  /** What the permission guard decides for a request with a user id. */
  lemma PermissionGuardAllows(env: Env, r: Request, m: Metadata)
    requires r.id.Some? && r.id.value != ""
    ensures P.PermissionGuard(env, r, m) == Allowed
       <==> m.permissions.None? || m.permissions.value == []
            || (&& (m.permissionOptions.Some? && m.permissionOptions.value.requireWorkspace == Some(true) ==> P.ExtractWorkspaceId(r).Some?)
                && (|| (SuperUser(env, r.id.value) && (m.permissionOptions.Some? ==> m.permissionOptions.value.allowSuper != Some(false)))
                    || PermissionsPass(env, r.id.value, m, P.ExtractWorkspaceId(r))))
  {
    SamePermissionVerdict(env, r, m);
    PermissionPartMeaning(env, r.id.value, m, P.ExtractWorkspaceId(r));
  }

  /** What the policy guard and the context guard decide. */
  lemma SingleGuardsDecide(env: Env, r: Request, m: Metadata)
    ensures Q.PolicyGuard(env, r, m) == Allowed
       <==> m.policy.Some? ==>
              && r.id.Some? && r.id.value != ""
              && ((SuperUser(env, r.id.value) && m.policy.value.allowSuper == Some(true))
                  || PolicyPasses(env, r.id.value, m.policy.value, Q.ExtractWorkspaceId(r)))
    ensures C.ContextGuard(env, r, m) == Allowed
       <==> m.context.Some? ==>
              && r.id.Some? && r.id.value != ""
              && ((SuperUser(env, r.id.value) && m.context.value.allowSuper == Some(true))
                  || ContextPasses(env, r.id.value, m.context.value, r))
  {
    if m.policy.Some? && Truthy(r.id) {
      SamePolicyVerdict(env, r.id.value, m.policy.value, Q.ExtractWorkspaceId(r));
      PolicyMeaning(env, r.id.value, m.policy.value, Q.ExtractWorkspaceId(r));
    }
    if m.context.Some? && Truthy(r.id) {
      SameContextVerdict(env.world.db.dir, env.place, r.id.value, m.context.value, r);
      ContextMeaning(env, r.id.value, m.context.value, r);
    }
  }

  /* ---------- requests without a user ---------- */

  lemma PermissionGuardFallsBack(env: Env, r: Request, m: Metadata)
    requires r.id == None || r.id == Some("")
    ensures P.PermissionGuard(env, r, m)
         == if m.permissions.None? || m.permissions.value == [] then Allowed
            else if r.sub == None || r.sub == Some("") then Unauthorized("User not authenticated")
            else P.PermissionGuard(env, r.(id := r.sub), m)
  {
    assert r.sub.Some? ==> r.sub == Some(r.sub.value);
    assert P.ExtractWorkspaceId(r.(id := r.sub)) == P.ExtractWorkspaceId(r);
  }

  /** A request without a user id is Unauthorized on every route a guard guards; only the
      permission guard falls back on `sub`, and then decides as for that user. */
  lemma UnauthenticatedIsRefused(env: Env, r: Request, m: Metadata)
    requires r.id == None || r.id == Some("")
    ensures U.UnifiedGuard(env, r, m) == if m.permissions.None? && m.policy.None? && m.context.None? then Allowed else Unauthorized("User not authenticated")
    ensures Q.PolicyGuard(env, r, m) == if m.policy.None? then Allowed else Unauthorized("User not authenticated")
    ensures C.ContextGuard(env, r, m) == if m.context.None? then Allowed else Unauthorized("User not authenticated")
    ensures P.PermissionGuard(env, r, m)
         == if m.permissions.None? || m.permissions.value == [] then Allowed
            else if r.sub == None || r.sub == Some("") then Unauthorized("User not authenticated")
            else P.PermissionGuard(env, r.(id := r.sub), m)
  {
    PermissionGuardFallsBack(env, r, m);
  }

  /** So without a user id the unified guard allows nothing the three refuse; and the three
      allow what it refuses exactly on a route with neither policy nor context whose list
      of permissions is empty, or whose permissions the user named by `sub` has. */
  lemma UnauthenticatedSplitsTheGuards(env: Env, r: Request, m: Metadata)
    requires r.id == None || r.id == Some("")
    ensures U.UnifiedGuard(env, r, m) == Allowed ==> AllThreeAllow(env, r, m)
    ensures AllThreeAllow(env, r, m) && U.UnifiedGuard(env, r, m) != Allowed
       <==> && m.policy.None? && m.context.None? && m.permissions.Some?
            && (m.permissions.value == []
                || (r.sub.Some? && r.sub.value != "" && P.PermissionGuard(env, r.(id := r.sub), m) == Allowed))
  {
    UnauthenticatedIsRefused(env, r, m);
    assert r.sub.Some? ==> r.sub == Some(r.sub.value);
  }
}
