/** The permission service itself: the methods that read and update the cache,
    each proved against the functions of `PermissionCache`. */
module PermissionsServices {
  import opened Common
  import opened Directories
  import opened Access
  import opened PermissionCache

  /** The database handle the services share. */
  class Prisma {
    var db: Db

    constructor (db: Db)
      ensures this.db == db
    {
      this.db := db;
    }
  }

  /** The call, if any, that throws while a query is answered. */
  datatype Fault = NoFault | CacheGet | UserRead | WorkspaceRead | PermissionRead | CacheSet

  /** The check looks the workspace up only after every role has been ruled out. */
  predicate ReadsWorkspace(db: Db, userId: Id, code: string, workspaceId: Option<Id>) {
    && userId in db.dir.users
    && db.dir.users[userId].role != "SUPER"
    && code !in ScopedCodes(db, db.assignments, userId, Global)
    && Truthy(workspaceId)
    && code !in ScopedCodes(db, db.assignments, userId, Within(workspaceId.value))
  }

  /** The list looks up the permissions for SUPER, and for an owner those of workspace scope. */
  predicate ListsPermissions(db: Db, userId: Id, workspaceId: Option<Id>) {
    userId in db.dir.users
    && (db.dir.users[userId].role == "SUPER" || (Truthy(workspaceId) && IsOwner(db.dir, userId, workspaceId.value)))
  }

  /** The failing call is one that answering `q` makes. */
  predicate Reached(w: World, q: Query, fault: Fault)
    requires q.HasPermission? || q.UserPermissions? || q.UserPlan?
  {
    match fault
    case NoFault => false
    case CacheGet => true
    case UserRead => !Hit(w, Key(q))
    case CacheSet => !Hit(w, Key(q))
    case WorkspaceRead =>
      !Hit(w, Key(q))
      && (match q
          case HasPermission(u, code, ws, _) => ReadsWorkspace(w.db, u, code, ws)
          case UserPermissions(u, ws) => u in w.db.dir.users && w.db.dir.users[u].role != "SUPER" && Truthy(ws)
          case _ => false)
    case PermissionRead => !Hit(w, Key(q)) && q.UserPermissions? && ListsPermissions(w.db, q.userId, q.workspaceId)
  }

  /* ---------- one check, and the loops over checks ---------- */

  /** `userHasPermission`: the cached or computed answer, which is stored; when a call
      throws, access is refused and nothing is stored. */
  function Check(w: World, userId: Id, code: string, workspaceId: Option<Id>, fault: Fault): (bool, World) {
    var q := HasPermission(userId, code, workspaceId, None);
    if Reached(w, q, fault) then (false, w) else (Answer(w, q) == Flag(true), Fill(w, q))
  }

  /** A check is refused, and stores nothing, when the cache read fails; on a miss when
      the read of the user or the store fails; and when the read of the workspace fails
      for an existing user who is not SUPER and whom no role gives the code. A failure of
      another kind, or one not reached, changes nothing. */
  lemma FailedCheckRefuses(w: World, userId: Id, code: string, workspaceId: Option<Id>, fault: Fault)
    ensures var q := HasPermission(userId, code, workspaceId, None);
            var refused := || fault == CacheGet
                           || (!Hit(w, Key(q)) && (fault == UserRead || fault == CacheSet))
                           || (!Hit(w, Key(q)) && fault == WorkspaceRead && workspaceId.Some? && workspaceId.value != ""
                               && userId in w.db.dir.users && w.db.dir.users[userId].role != "SUPER"
                               && !RoleGives(w.db, userId, workspaceId, code));
            Check(w, userId, code, workspaceId, fault) == if refused then (false, w) else Check(w, userId, code, workspaceId, NoFault)
  {
    HoldsRoleMeaning(w.db, userId, workspaceId, code);
    ScopedCodesMeaning(w.db, w.db.assignments, userId, Global, code);
    if Truthy(workspaceId) { ScopedCodesMeaning(w.db, w.db.assignments, userId, Within(workspaceId.value), code); }
  }

  /** `userHasAnyPermission`: stops at the first code granted. */
  function AnyOf(w: World, userId: Id, codes: seq<string>, workspaceId: Option<Id>, faults: seq<Fault>): (bool, World)
    requires |faults| == |codes|
    decreases |codes|
  {
    if codes == [] then (false, w)
    else
      var (b, w') := Check(w, userId, codes[0], workspaceId, faults[0]);
      if b then (true, w') else AnyOf(w', userId, codes[1..], workspaceId, faults[1..])
  }

  /** `userHasAllPermissions`: stops at the first code refused. */
  function AllOf(w: World, userId: Id, codes: seq<string>, workspaceId: Option<Id>, faults: seq<Fault>): (bool, World)
    requires |faults| == |codes|
    decreases |codes|
  {
    if codes == [] then (true, w)
    else
      var (b, w') := Check(w, userId, codes[0], workspaceId, faults[0]);
      if b then AllOf(w', userId, codes[1..], workspaceId, faults[1..]) else (false, w')
  }

  /** The answer to one code, without storing anything. */
  predicate Granted(w: World, userId: Id, code: string, workspaceId: Option<Id>) {
    Answer(w, HasPermission(userId, code, workspaceId, None)) == Flag(true)
  }

  /** The same answer to every well-formed query, on the same data. */
  ghost predicate SameAnswers(w: World, w': World) {
    w'.db == w.db && forall q :: WellFormed(q) ==> Answer(w', q) == Answer(w, q)
  }

  lemma CheckKeepsAnswers(w: World, userId: Id, code: string, workspaceId: Option<Id>, fault: Fault)
    requires WellFormed(HasPermission(userId, "", workspaceId, None))
    ensures SameAnswers(w, Check(w, userId, code, workspaceId, fault).1)
  {
    var q := HasPermission(userId, code, workspaceId, None);
    forall q' | WellFormed(q') ensures Answer(Fill(w, q), q') == Answer(w, q') {
      FillKeepsAnswers(w, q, q');
    }
  }

  lemma AnswersCompose(w: World, w1: World, w2: World, userId: Id, workspaceId: Option<Id>)
    requires SameAnswers(w, w1) && SameAnswers(w1, w2) && WellFormed(HasPermission(userId, "", workspaceId, None))
    ensures SameAnswers(w, w2)
    ensures forall code :: Granted(w1, userId, code, workspaceId) == Granted(w, userId, code, workspaceId)
  {
    forall code ensures Granted(w1, userId, code, workspaceId) == Granted(w, userId, code, workspaceId) {
      assert WellFormed(HasPermission(userId, code, workspaceId, None));
    }
  }

  /** Whatever fails, the any loop admits nobody without a granted code, refuses nobody
      whose check of a granted code goes through, and changes no later answer. */
  lemma {:induction false} AnyOfMeaning(w: World, userId: Id, codes: seq<string>, workspaceId: Option<Id>, faults: seq<Fault>)
    requires |faults| == |codes| && WellFormed(HasPermission(userId, "", workspaceId, None))
    ensures var (b, w') := AnyOf(w, userId, codes, workspaceId, faults);
            && (b ==> exists i :: 0 <= i < |codes| && faults[i] != CacheGet && Granted(w, userId, codes[i], workspaceId))
            && ((exists i :: 0 <= i < |codes| && faults[i] == NoFault && Granted(w, userId, codes[i], workspaceId)) ==> b)
            && SameAnswers(w, w')
    decreases |codes|
  {
    if codes != [] {
      var (b, w1) := Check(w, userId, codes[0], workspaceId, faults[0]);
      CheckKeepsAnswers(w, userId, codes[0], workspaceId, faults[0]);
      if !b {
        AnyOfMeaning(w1, userId, codes[1..], workspaceId, faults[1..]);
        var (b', w2) := AnyOf(w1, userId, codes[1..], workspaceId, faults[1..]);
        AnswersCompose(w, w1, w2, userId, workspaceId);
        if b' {
          var i :| 0 <= i < |codes| - 1 && faults[1..][i] != CacheGet && Granted(w1, userId, codes[1..][i], workspaceId);
          assert faults[i + 1] != CacheGet && Granted(w, userId, codes[i + 1], workspaceId);
        }
        if i :| 0 <= i < |codes| && faults[i] == NoFault && Granted(w, userId, codes[i], workspaceId) {
          assert faults[1..][i - 1] == NoFault && Granted(w1, userId, codes[1..][i - 1], workspaceId);
        }
      }
    }
  }

  /** Whatever fails, the all loop admits nobody with a code not granted or a failed
      cache read, admits everybody whose checks all go through, and changes no later
      answer. */
  lemma {:induction false} AllOfMeaning(w: World, userId: Id, codes: seq<string>, workspaceId: Option<Id>, faults: seq<Fault>)
    requires |faults| == |codes| && WellFormed(HasPermission(userId, "", workspaceId, None))
    ensures var (b, w') := AllOf(w, userId, codes, workspaceId, faults);
            && (b ==> forall i :: 0 <= i < |codes| ==> faults[i] != CacheGet && Granted(w, userId, codes[i], workspaceId))
            && ((forall i :: 0 <= i < |codes| ==> faults[i] == NoFault && Granted(w, userId, codes[i], workspaceId)) ==> b)
            && SameAnswers(w, w')
    decreases |codes|
  {
    if codes != [] {
      var (b, w1) := Check(w, userId, codes[0], workspaceId, faults[0]);
      CheckKeepsAnswers(w, userId, codes[0], workspaceId, faults[0]);
      if b {
        AllOfMeaning(w1, userId, codes[1..], workspaceId, faults[1..]);
        var (b', w2) := AllOf(w1, userId, codes[1..], workspaceId, faults[1..]);
        AnswersCompose(w, w1, w2, userId, workspaceId);
        if b' {
          forall i | 0 < i < |codes| ensures faults[i] != CacheGet && Granted(w, userId, codes[i], workspaceId) {
            assert faults[1..][i - 1] != CacheGet && Granted(w1, userId, codes[1..][i - 1], workspaceId);
          }
        }
        if forall i :: 0 <= i < |codes| ==> faults[i] == NoFault && Granted(w, userId, codes[i], workspaceId) {
          forall i | 0 <= i < |codes| - 1 ensures faults[1..][i] == NoFault && Granted(w1, userId, codes[1..][i], workspaceId) {
            assert faults[i + 1] == NoFault && Granted(w, userId, codes[i + 1], workspaceId);
          }
        }
      }
    }
  }

  /** No call fails. */
  ghost predicate NoneFails(faults: seq<Fault>) {
    forall i :: 0 <= i < |faults| ==> faults[i] == NoFault
  }

  /** On a coherent world, when no call fails, the loops return exactly the any and all
      of the uncached decision; whatever fails, they leave the world coherent and err
      only on the side of refusing. */
  lemma CoherentLoopsDecide(w: World, userId: Id, codes: seq<string>, workspaceId: Option<Id>, faults: seq<Fault>)
    requires Coherent(w) && |faults| == |codes| && WellFormed(HasPermission(userId, "", workspaceId, None))
    ensures var (b, w') := AnyOf(w, userId, codes, workspaceId, faults);
            && Coherent(w')
            && (b ==> exists c :: c in codes && Decide(w.db, userId, c, workspaceId))
            && (NoneFails(faults) && (exists c :: c in codes && Decide(w.db, userId, c, workspaceId)) ==> b)
    ensures var (b, w') := AllOf(w, userId, codes, workspaceId, faults);
            && Coherent(w')
            && (b ==> forall c :: c in codes ==> Decide(w.db, userId, c, workspaceId))
            && (NoneFails(faults) && (forall c :: c in codes ==> Decide(w.db, userId, c, workspaceId)) ==> b)
  {
    AnyOfMeaning(w, userId, codes, workspaceId, faults);
    AllOfMeaning(w, userId, codes, workspaceId, faults);
    SameAnswersCoherent(w, AnyOf(w, userId, codes, workspaceId, faults).1);
    SameAnswersCoherent(w, AllOf(w, userId, codes, workspaceId, faults).1);
    forall c ensures Granted(w, userId, c, workspaceId) == Decide(w.db, userId, c, workspaceId) {
      assert WellFormed(HasPermission(userId, c, workspaceId, None));
    }
  }

  lemma SameAnswersCoherent(w: World, w': World)
    requires Coherent(w) && SameAnswers(w, w')
    ensures Coherent(w')
  {
    forall q | WellFormed(q) ensures Answer(w', q) == Fresh(w'.db, q) {
      assert Answer(w', q) == Answer(w, q);
    }
  }

  /* ---------- the services ---------- */

  class PermissionsService {
    const prisma: Prisma
    var cache: Cache
    var now: nat

    ghost predicate Valid()
      reads this
    {
      Typed(cache)
    }

    function CurrentWorld(): World
      reads this, prisma
    {
      World(prisma.db, cache, now)
    }

    constructor (prisma: Prisma)
      ensures Valid() && this.prisma == prisma && cache == map[] && now == 0
    {
      this.prisma := prisma;
      cache := map[];
      now := 0;
    }

    /** Store a computed flag and return it; if the store throws, access is refused. */
    method Remember(key: string, flag: bool, fault: Fault) returns (b: bool)
      modifies this`cache
      ensures if fault == CacheSet then !b && cache == old(cache)
              else b == flag && cache == old(cache)[key := Entry(Flag(flag), now)]
    {
      if fault == CacheSet { return false; }
      cache := cache[key := Entry(Flag(flag), now)];
      return flag;
    }

    /** The reply is the cached or computed one and the computed one is stored,
        unless a call throws: then access is refused and nothing is stored. */
    method UserHasPermission(userId: Id, code: string, workspaceId: Option<Id>, resourceId: Option<Id>, fault: Fault)
      returns (b: bool)
      requires Valid() && WellFormed(HasPermission(userId, code, workspaceId, resourceId))
      modifies this`cache
      ensures Valid()
      ensures var q := HasPermission(userId, code, workspaceId, resourceId);
              if Reached(old(CurrentWorld()), q, fault) then !b && CurrentWorld() == old(CurrentWorld())
              else Flag(b) == Answer(old(CurrentWorld()), q) && CurrentWorld() == Fill(old(CurrentWorld()), q)
      ensures fault == NoFault && !Hit(old(CurrentWorld()), Key(HasPermission(userId, code, workspaceId, resourceId))) ==>
                (b <==> MayUse(prisma.db, userId, code, workspaceId))
      ensures resourceId.None? ==> (b, CurrentWorld()) == Check(old(CurrentWorld()), userId, code, workspaceId, fault)
    {
      ghost var q := HasPermission(userId, code, workspaceId, resourceId);
      StepKeepsTyped(CurrentWorld(), Ask(q));
      FreshIsRight(prisma.db, q);
      var key := Key(HasPermission(userId, code, workspaceId, resourceId));
      if fault == CacheGet { return false; }
      if Hit(CurrentWorld(), key) {
        return cache[key].value.flag;
      }
      if fault == UserRead { return false; }
      var db := prisma.db;
      if userId !in db.dir.users {
        b := Remember(key, false, fault);
        return;
      }
      if db.dir.users[userId].role == "SUPER" {
        b := Remember(key, true, fault);
        return;
      }
      if code in ScopedCodes(db, db.assignments, userId, Global) {
        b := Remember(key, true, fault);
        return;
      }
      if Truthy(workspaceId) {
        if code in ScopedCodes(db, db.assignments, userId, Within(workspaceId.value)) {
          b := Remember(key, true, fault);
          return;
        }
        if fault == WorkspaceRead { return false; }
        if IsOwner(db.dir, userId, workspaceId.value) {
          b := Remember(key, true, fault);
          return;
        }
      }
      b := Remember(key, false, fault);
    }

    method UserHasAnyPermission(userId: Id, codes: seq<string>, workspaceId: Option<Id>, faults: seq<Fault>) returns (b: bool)
      requires Valid() && WellFormed(HasPermission(userId, "", workspaceId, None)) && |faults| == |codes|
      modifies this`cache
      ensures Valid()
      ensures (b, CurrentWorld()) == AnyOf(old(CurrentWorld()), userId, codes, workspaceId, faults)
    {
      ghost var all := AnyOf(CurrentWorld(), userId, codes, workspaceId, faults);
      for k := 0 to |codes|
        invariant Valid() && AnyOf(CurrentWorld(), userId, codes[k..], workspaceId, faults[k..]) == all
      {
        assert codes[k..][1..] == codes[k + 1..] && faults[k..][1..] == faults[k + 1..];
        b := UserHasPermission(userId, codes[k], workspaceId, None, faults[k]);
        if b {
          return true;
        }
      }
      return false;
    }

    method UserHasAllPermissions(userId: Id, codes: seq<string>, workspaceId: Option<Id>, faults: seq<Fault>) returns (b: bool)
      requires Valid() && WellFormed(HasPermission(userId, "", workspaceId, None)) && |faults| == |codes|
      modifies this`cache
      ensures Valid()
      ensures (b, CurrentWorld()) == AllOf(old(CurrentWorld()), userId, codes, workspaceId, faults)
    {
      ghost var all := AllOf(CurrentWorld(), userId, codes, workspaceId, faults);
      for k := 0 to |codes|
        invariant Valid() && AllOf(CurrentWorld(), userId, codes[k..], workspaceId, faults[k..]) == all
      {
        assert codes[k..][1..] == codes[k + 1..] && faults[k..][1..] == faults[k + 1..];
        b := UserHasPermission(userId, codes[k], workspaceId, None, faults[k]);
        if !b {
          return false;
        }
      }
      return true;
    }

    /** The list, or nothing when a call throws; then nothing is stored either. */
    method GetUserPermissions(userId: Id, workspaceId: Option<Id>, fault: Fault) returns (codes: Option<seq<string>>)
      requires Valid() && WellFormed(UserPermissions(userId, workspaceId))
      modifies this`cache
      ensures Valid()
      ensures var q := UserPermissions(userId, workspaceId);
              if Reached(old(CurrentWorld()), q, fault) then codes == None && CurrentWorld() == old(CurrentWorld())
              else codes.Some? && Codes(codes.value) == Answer(old(CurrentWorld()), q) && CurrentWorld() == Fill(old(CurrentWorld()), q)
      ensures codes.Some? && !Hit(old(CurrentWorld()), Key(UserPermissions(userId, workspaceId))) ==>
                forall code :: code in codes.value <==> MayList(prisma.db, userId, workspaceId, code)
    {
      StepKeepsTyped(CurrentWorld(), Ask(UserPermissions(userId, workspaceId)));
      FreshIsRight(prisma.db, UserPermissions(userId, workspaceId));
      var key := Key(UserPermissions(userId, workspaceId));
      if fault == CacheGet { return None; }
      if Hit(CurrentWorld(), key) {
        return Some(cache[key].value.codes);
      }
      if fault == UserRead { return None; }
      var db := prisma.db;
      var list := [];
      if userId in db.dir.users && db.dir.users[userId].role == "SUPER" {
        if fault == PermissionRead { return None; }
        list := CodesOf(db.permissions);
      } else if userId in db.dir.users {
        var global := ScopedCodes(db, db.assignments, userId, Global);
        if Truthy(workspaceId) {
          var local := ScopedCodes(db, db.assignments, userId, Within(workspaceId.value));
          if fault == WorkspaceRead { return None; }
          if IsOwner(db.dir, userId, workspaceId.value) {
            if fault == PermissionRead { return None; }
            list := Distinct(global + local + CodesOf(WorkspaceScoped(db.permissions)));
          } else {
            list := Distinct(global + local);
          }
        } else {
          list := Distinct(global);
        }
      }
      if fault == CacheSet { return None; }
      cache := cache[key := Entry(Codes(list), now)];
      return Some(list);
    }

    /** Collects the keys to drop, then drops them one by one; throws after
        `failsAfter` of them when that many are not all. */
    method ClearUserPermissionCache(userId: Id, failsAfter: Option<nat>) returns (threw: bool)
      requires Valid()
      modifies this`cache
      ensures Valid()
      ensures threw <==> failsAfter.Some? && failsAfter.value < |KeysToClear(prisma.db, userId)|
      ensures CurrentWorld() == if threw then ClearFirst(old(CurrentWorld()), userId, failsAfter.value) else Clear(old(CurrentWorld()), userId)
    {
      var rows := prisma.db.dir.memberships;
      var keys := [Key(UserPermissions(userId, None))];
      for i := 0 to |rows|
        invariant keys == [Key(UserPermissions(userId, None))] + MemberKeys(rows[..i], userId)
      {
        assert rows[..i + 1][..i] == rows[..i];
        if rows[i].userId == userId {
          keys := keys + [Key(UserPermissions(userId, Some(rows[i].workspaceId)))];
        }
      }
      assert rows[..|rows|] == rows;
      for i := 0 to |keys|
        invariant cache == old(cache) - Elements(keys[..i]) && Valid()
        invariant failsAfter.Some? ==> i <= failsAfter.value
      {
        if failsAfter == Some(i) { return true; }
        assert keys[..i + 1] == keys[..i] + [keys[i]];
        cache := cache - {keys[i]};
      }
      return false;
    }
  }

  /** The cached part of the plans service; its cache may be one of its own. */
  class PlansService {
    const prisma: Prisma
    var cache: Cache
    var now: nat

    ghost predicate Valid()
      reads this
    {
      Typed(cache)
    }

    function CurrentWorld(): World
      reads this, prisma
    {
      World(prisma.db, cache, now)
    }

    constructor (prisma: Prisma)
      ensures Valid() && this.prisma == prisma && cache == map[] && now == 0
    {
      this.prisma := prisma;
      cache := map[];
      now := 0;
    }

    method GetUserPlan(userId: Id, fault: Fault) returns (plan: Option<Plan>)
      requires Valid() && ColonFree(userId)
      modifies this`cache
      ensures Valid()
      ensures if Reached(old(CurrentWorld()), UserPlan(userId), fault) then plan == None && CurrentWorld() == old(CurrentWorld())
              else plan.Some? && PlanOf(plan.value) == Answer(old(CurrentWorld()), UserPlan(userId)) && CurrentWorld() == Fill(old(CurrentWorld()), UserPlan(userId))
      ensures plan.Some? && !Hit(old(CurrentWorld()), Key(UserPlan(userId))) ==> StoredPlan(prisma.db, userId, plan.value)
    {
      StepKeepsTyped(CurrentWorld(), Ask(UserPlan(userId)));
      var key := Key(UserPlan(userId));
      if fault == CacheGet { return None; }
      if Hit(CurrentWorld(), key) {
        return Some(cache[key].value.plan);
      }
      if fault == UserRead { return None; }
      var found := STARTER;
      if userId in prisma.db.dir.users {
        found := prisma.db.dir.users[userId].plan;
      }
      if fault == CacheSet { return None; }
      cache := cache[key := Entry(PlanOf(found), now)];
      return Some(found);
    }

    method ClearUserPlanCache(userId: Id, fails: bool) returns (threw: bool)
      requires Valid()
      modifies this`cache
      ensures Valid() && threw == fails
      ensures CurrentWorld() == if threw then old(CurrentWorld()) else ClearPlan(old(CurrentWorld()), userId)
    {
      if fails { return true; }
      cache := cache - {Key(UserPlan(userId))};
      return false;
    }
  }
}
