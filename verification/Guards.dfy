/** What the guards share: requests, the options of a route, and the services they ask. */
module Guards {
  import opened Common
  import opened Directories
  import opened Access
  import opened PermissionCache
  import opened PermissionsServices
  import opened Plans

  datatype Verdict = Allowed | Forbidden(message: string) | Unauthorized(message: string)

  /** The parts of a request the guards read; `id` and `sub` are those of its user. */
  datatype Request = Request(id: Option<string>, sub: Option<string>, params: map<string, string>, body: map<string, string>,
                             query: map<string, string>, ip: Option<string>, forwardedFor: Option<string>)

  datatype PermissionOptions = PermissionOptions(requireAll: Option<bool>, errorMessage: Option<string>,
                                                 allowSuper: Option<bool>, requireWorkspace: Option<bool>)

  datatype PolicyOptions = PolicyOptions(permissionCode: Option<string>, requiredFeatures: Option<seq<Feature>>,
                                         limitType: Option<LimitType>, requireAll: Option<bool>, errorMessage: Option<string>,
                                         showUpgradePrompt: bool, allowSuper: Option<bool>)

  datatype TimeRestriction = TimeRestriction(startHour: nat, endHour: nat)

  datatype IpRestrictions = IpRestrictions(allowedIps: Option<seq<string>>, blockedIps: Option<seq<string>>)

  datatype ContextOptions = ContextOptions(checkResourceOwnership: bool, resourceType: Option<string>, resourceIdParam: Option<string>,
                                           checkWorkspaceMembership: bool, timeRestriction: Option<TimeRestriction>,
                                           ipRestrictions: Option<IpRestrictions>, errorMessage: Option<string>, allowSuper: Option<bool>)

  /** The metadata of a route; each part may be missing. */
  datatype Metadata = Metadata(permissions: Option<seq<string>>, permissionOptions: Option<PermissionOptions>,
                               policy: Option<PolicyOptions>, context: Option<ContextOptions>)

  /** The counts `getCurrentUsage` reads for the user. */
  datatype Counts = Counts(scansToday: nat, scansThisMonth: nat, workspaces: nat, repositories: nat,
                           members: map<Id, nat>, ownWorkspaceMembers: seq<nat>)

  /** The workspaces of scans and schedules, and the hour of day. */
  datatype Place = Place(scanWorkspace: map<Id, Id>, scheduleWorkspace: map<Id, Id>, hour: nat)

  /** What the guards consult: the permission service (its world answers queries, and
      answering changes no other answer), the user's plan and counts, and the place. */
  datatype Env = Env(world: World, plan: Plan, counts: Counts, place: Place)

  /* ---------- request fields ---------- */

  /** A field of the request that is present and not empty. */
  function Field(m: map<string, string>, name: string): Option<string> {
    if name in m && m[name] != "" then Some(m[name]) else None
  }

  function OrElse(a: Option<string>, b: Option<string>): Option<string> {
    if a.Some? then a else b
  }

  /* ---------- the permission service ---------- */

  predicate Has(w: World, userId: Id, code: string, workspaceId: Option<Id>) {
    Granted(w, userId, code, workspaceId)
  }

  predicate HasAll(w: World, userId: Id, codes: seq<string>, workspaceId: Option<Id>) {
    forall c :: c in codes ==> Has(w, userId, c, workspaceId)
  }

  predicate HasAny(w: World, userId: Id, codes: seq<string>, workspaceId: Option<Id>) {
    exists c :: c in codes && Has(w, userId, c, workspaceId)
  }

  /** These are the replies of the service's loops when no call fails. */
  lemma LoopsDecide(w: World, userId: Id, codes: seq<string>, workspaceId: Option<Id>, faults: seq<Fault>)
    requires |faults| == |codes| && NoneFails(faults) && WellFormed(HasPermission(userId, "", workspaceId, None))
    ensures AnyOf(w, userId, codes, workspaceId, faults).0 == HasAny(w, userId, codes, workspaceId)
    ensures AllOf(w, userId, codes, workspaceId, faults).0 == HasAll(w, userId, codes, workspaceId)
  {
    AnyOfMeaning(w, userId, codes, workspaceId, faults);
    AllOfMeaning(w, userId, codes, workspaceId, faults);
    AnyByIndex(w, userId, codes, workspaceId, faults);
  }

  lemma AnyByIndex(w: World, userId: Id, codes: seq<string>, workspaceId: Option<Id>, faults: seq<Fault>)
    requires |faults| == |codes| && NoneFails(faults)
    ensures HasAny(w, userId, codes, workspaceId)
       <==> exists i :: 0 <= i < |codes| && faults[i] == NoFault && Granted(w, userId, codes[i], workspaceId)
    ensures HasAll(w, userId, codes, workspaceId)
       <==> forall i :: 0 <= i < |codes| ==> faults[i] == NoFault && Granted(w, userId, codes[i], workspaceId)
  {
    if c :| c in codes && Has(w, userId, c, workspaceId) {
      var i :| 0 <= i < |codes| && codes[i] == c;
      assert faults[i] == NoFault && Granted(w, userId, codes[i], workspaceId);
    }
    if i :| 0 <= i < |codes| && faults[i] == NoFault && Granted(w, userId, codes[i], workspaceId) {
      assert codes[i] in codes && Has(w, userId, codes[i], workspaceId);
    }
    forall i | 0 <= i < |codes| && HasAll(w, userId, codes, workspaceId)
      ensures faults[i] == NoFault && Granted(w, userId, codes[i], workspaceId)
    {
      assert codes[i] in codes && Has(w, userId, codes[i], workspaceId);
    }
    forall c | c in codes && forall i :: 0 <= i < |codes| ==> faults[i] == NoFault && Granted(w, userId, codes[i], workspaceId)
      ensures Has(w, userId, c, workspaceId)
    {
      var i :| 0 <= i < |codes| && codes[i] == c;
      assert faults[i] == NoFault;
    }
  }

  predicate EnvSuper(env: Env, userId: Id) {
    IsSuper(env.world.db.dir, userId)
  }

  /* ---------- the plans service ---------- */

  /** `getCurrentUsage` */
  function CurrentUsage(c: Counts, l: LimitType, workspaceId: Option<Id>): nat {
    match l
    case SCANS_PER_DAY => c.scansToday
    case SCANS_PER_MONTH => c.scansThisMonth
    case MAX_WORKSPACES => c.workspaces
    case MAX_REPOSITORIES => c.repositories
    case USERS_PER_WORKSPACE =>
      if Truthy(workspaceId) then (if workspaceId.value in c.members then c.members[workspaceId.value] else 0)
      else Max(c.ownWorkspaceMembers)
    case _ => 0
  }

  function Max(s: seq<nat>): (m: nat)
    ensures forall x :: x in s ==> x <= m
    ensures s != [] ==> m in s
  {
    if s == [] then 0
    else
      var rest := Max(s[1..]);
      assert s == [s[0]] + s[1..];
      if s[0] >= rest then s[0] else rest
  }

  /* ---------- texts ---------- */

  function Join(codes: seq<string>): string {
    if codes == [] then "" else if |codes| == 1 then codes[0] else codes[0] + ", " + Join(codes[1..])
  }

  const NEED_ALL := "You need all required permissions to perform this action: "
  const NEED_ANY := "You need at least one of these permissions to perform this action: "

  const PLAN_LACKS := "Your current plan does not include this permission. Please upgrade to access it."

  const NO_PERMISSION := "You do not have permission to perform this action"
  const NOT_OWNED := "You don't have ownership permissions for this resource"
  const NO_MEMBER := "You are not a member of this workspace"
  const OUTSIDE_HOURS := "This operation is only available in a time window"
  const IP_REFUSED := "Your current IP address is not allowed to perform this operation"

  function Upper(s: string): string {
    if s == "" then "" else [if 'a' <= s[0] <= 'z' then (s[0] as int - 32) as char else s[0]] + Upper(s[1..])
  }
}
